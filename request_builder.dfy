/**
 * `RequestBuilder`: collects path segments and named parameters and renders
 * them as a request string for `RequestHandler.handleRequest`. Parameter
 * values are held as the text their `toString()` gives.
 */
module RequestBuilders {
  import opened JavaText

  /** The `name=value` part `build` writes for one parameter. */
  function ParameterSegment(name: string, value: string): string {
    name + "=" + value
  }

  /** The `name=value` parts for the names in `order`, in that order. */
  function ParameterSegments(order: seq<string>, parameters: map<string, string>): (r: seq<string>)
    requires forall i :: 0 <= i < |order| ==> order[i] in parameters
    ensures |r| == |order|
    ensures forall i :: 0 <= i < |r| ==> r[i] == ParameterSegment(order[i], parameters[order[i]])
  {
    if order == [] then []
    else
      var last := order[|order| - 1];
      ParameterSegments(order[..|order| - 1], parameters) + [ParameterSegment(last, parameters[last])]
  }

  /**
   * The text `build` returns when it visits the parameters in `order`: every
   * path followed by `/`, then every parameter as `name=value/`.
   */
  function RequestText(paths: seq<string>, order: seq<string>, parameters: map<string, string>): (r: string)
    requires forall i :: 0 <= i < |order| ==> order[i] in parameters
    ensures Terminated(paths, '/') <= r
    ensures r == "" <==> paths == [] && order == []
    ensures r != "" ==> EndsWith(r, '/')
  {
    Terminated(paths, '/') + Terminated(ParameterSegments(order, parameters), '/')
  }

  /** Visiting one more parameter appends its `name=value/` part to the text. */
  lemma RequestTextAppend(paths: seq<string>, order: seq<string>, parameters: map<string, string>, name: string)
    requires forall i :: 0 <= i < |order| ==> order[i] in parameters
    requires name in parameters
    ensures forall i :: 0 <= i < |order + [name]| ==> (order + [name])[i] in parameters
    ensures RequestText(paths, order + [name], parameters)
      == RequestText(paths, order, parameters) + name + "=" + parameters[name] + "/"
  {
    var order' := order + [name];
    var segments := ParameterSegments(order, parameters);
    var segment := ParameterSegment(name, parameters[name]);
    assert order'[..|order'| - 1] == order;
    assert ParameterSegments(order', parameters) == segments + [segment];
    assert Terminated(segments + [segment], '/') == Terminated(segments, '/') + segment + "/" by {
      assert (segments + [segment])[..|segments|] == segments;
    }
    var pathText := Terminated(paths, '/');
    calc {
      RequestText(paths, order', parameters);
      pathText + Terminated(segments + [segment], '/');
      pathText + (Terminated(segments, '/') + segment + "/");
      { assert segment == name + "=" + parameters[name]; }
      pathText + Terminated(segments, '/') + name + "=" + parameters[name] + "/";
    }
  }

  class RequestBuilder {
    var paths: seq<string>
    var parameters: map<string, string>

    /** A builder with no paths and no parameters. */
    constructor()
      ensures paths == [] && parameters == map[]
    {
      paths := [];
      parameters := map[];
    }

    /** The private copy constructor: the same paths and parameters, held separately. */
    constructor CopyOf(builder: RequestBuilder)
      ensures paths == builder.paths && parameters == builder.parameters
    {
      paths := builder.paths;
      parameters := builder.parameters;
    }

    /** `path(p)`: appends `p` to the paths; the parameters stay as they are. */
    method Path(path: string) returns (self: RequestBuilder)
      modifies this
      ensures self == this
      ensures paths == old(paths) + [path] && parameters == old(parameters)
    {
      paths := paths + [path];
      self := this;
    }

    /** `parameter(name, value)`: sets `name` to `value`, replacing any earlier value. */
    method Parameter(name: string, value: string) returns (self: RequestBuilder)
      modifies this
      ensures self == this
      ensures parameters == old(parameters)[name := value] && paths == old(paths)
    {
      parameters := parameters[name := value];
      self := this;
    }

    /**
     * `build()`: the paths in insertion order, each followed by `/`, then one
     * `name=value/` per parameter in the map's iteration order (`order`,
     * which lists every name exactly once). The builder is not changed.
     */
    method Build() returns (r: string, ghost order: seq<string>)
      ensures forall i :: 0 <= i < |order| ==> order[i] in parameters
      ensures multiset(order) == multiset(parameters.Keys)
      ensures r == RequestText(paths, order, parameters)
      ensures Terminated(paths, '/') <= r
    {
      var text := "";
      for i := 0 to |paths|
        invariant text == Terminated(paths[..i], '/')
      {
        assert paths[..i + 1][..i] == paths[..i];
        text := text + paths[i] + "/";
      }
      assert paths[..|paths|] == paths;

      var remaining := parameters.Keys;
      order := [];
      while remaining != {}
        invariant remaining <= parameters.Keys
        invariant forall i :: 0 <= i < |order| ==> order[i] in parameters && order[i] !in remaining
        invariant multiset(order) + multiset(remaining) == multiset(parameters.Keys)
        invariant text == RequestText(paths, order, parameters)
        decreases remaining
      {
        var name :| name in remaining;
        RequestTextAppend(paths, order, parameters, name);
        assert multiset(remaining) == multiset(remaining - {name}) + multiset{name};
        text := text + name + "=" + parameters[name] + "/";
        order := order + [name];
        remaining := remaining - {name};
      }
      r := text;
    }

    /** `copy()`: a new builder with the same paths and parameters. */
    method Copy() returns (c: RequestBuilder)
      ensures fresh(c)
      ensures c.paths == paths && c.parameters == parameters
    {
      c := new RequestBuilder.CopyOf(this);
    }
  }

  /**
   * A copy and its original change independently: extending the copy's
   * paths leaves the original's, and setting a parameter on the original
   * leaves the copy's.
   */
  method CopyThenDiverge(b: RequestBuilder, path: string, name: string, value: string)
    returns (c: RequestBuilder)
    modifies b
    ensures fresh(c)
    ensures c.paths == old(b.paths) + [path] && c.parameters == old(b.parameters)
    ensures b.paths == old(b.paths) && b.parameters == old(b.parameters)[name := value]
  {
    c := b.Copy();
    var _ := c.Path(path);
    var _ := b.Parameter(name, value);
  }

  /** `new RequestBuilder().build()`: a new builder writes the empty request. */
  method EmptyRequest() returns (r: string)
    ensures r == ""
  {
    var b := new RequestBuilder();
    ghost var order;
    r, order := b.Build();
  }
}
