/**
 * The request text `RequestBuilder.build` writes, read back the way
 * `RequestHandler.handleRequest` reads it.
 */
module RoundTrip {
  import opened Wrappers
  import opened JavaText
  import opened MethodHandlers
  import opened RequestHandlers
  import opened RequestBuilders

  /** Text with no separator is a single piece. */
  lemma {:induction false} PiecesOfPlain(s: string, sep: char)
    requires sep !in s
    ensures Pieces(s, sep) == [s]
    decreases |s|
  {
    if s != [] {
      assert s[0] != sep;
      PiecesOfPlain(s[1..], sep);
      assert [s[0]] + s[1..] == s;
    }
  }

  /** `name=value` with `=`-free name and non-empty `=`-free value splits into the two. */
  lemma SplitParameterSegment(name: string, value: string)
    requires '=' !in name && '=' !in value && value != ""
    ensures '=' in ParameterSegment(name, value)
    ensures Split(ParameterSegment(name, value), '=') == [name, value]
  {
    var s := ParameterSegment(name, value);
    assert s == name + ['='] + value;
    assert s[|name|] == '=';
    PiecesAfterSegment(name, value, '=');
    PiecesOfPlain(value, '=');
    assert Pieces(s, '=') == [name, value];
  }

  lemma {:induction false} RouteOfConcat(a: seq<string>, b: seq<string>)
    ensures RouteOf(a + b) == RouteOf(a) + RouteOf(b)
    decreases |b|
  {
    if b == [] {
      assert a + b == a;
    } else {
      var b', last := b[..|b| - 1], b[|b| - 1];
      assert a + b' + [last] == a + b;
      assert b' + [last] == b;
      var tail := if '=' in last then "" else last + "/";
      calc {
        RouteOf(a + b);
        { RouteOfSnoc(a + b', last); }
        RouteOf(a + b') + tail;
        { RouteOfConcat(a, b'); }
        RouteOf(a) + RouteOf(b') + tail;
        RouteOf(a) + (RouteOf(b') + tail);
        { RouteOfSnoc(b', last); }
        RouteOf(a) + RouteOf(b);
      }
    }
  }

  lemma RouteOfSnoc(parts: seq<string>, part: string)
    ensures RouteOf(parts + [part]) == RouteOf(parts) + if '=' in part then "" else part + "/"
  {
    assert (parts + [part])[..|parts|] == parts;
  }

  /** Parts that all hold `=` add nothing to the route key. */
  lemma {:induction false} RouteOfParameterParts(parts: seq<string>)
    requires forall i :: 0 <= i < |parts| ==> '=' in parts[i]
    ensures RouteOf(parts) == ""
  {
    if parts != [] {
      RouteOfParameterParts(parts[..|parts| - 1]);
    }
  }

  /** Names and values `build` can write so that `handleRequest` reads them back. */
  predicate Readable(parameters: map<string, string>) {
    forall name :: name in parameters ==>
      '/' !in name && '=' !in name
      && parameters[name] != "" && '/' !in parameters[name] && '=' !in parameters[name]
  }

  /** The parameter parts of a built request read back as the visited parameters. */
  lemma {:induction false} ParametersOfSegments(order: seq<string>, parameters: map<string, string>)
    requires forall i :: 0 <= i < |order| ==> order[i] in parameters
    requires Readable(parameters)
    ensures ParametersFrom(map[], ParameterSegments(order, parameters))
      == map name | name in order :: parameters[name]
  {
    if order != [] {
      var init, last := order[..|order| - 1], order[|order| - 1];
      var segments := ParameterSegments(order, parameters);
      var segment := ParameterSegment(last, parameters[last]);
      assert segments == ParameterSegments(init, parameters) + [segment];
      assert segments[..|segments| - 1] == ParameterSegments(init, parameters);
      ParametersOfSegments(init, parameters);
      SplitParameterSegment(last, parameters[last]);
      assert forall name :: name in order <==> name in init || name == last;
    }
  }

  /** Every parameter part holds `=`, no `/`, and so is not empty. */
  lemma ParameterPartsShape(order: seq<string>, parameters: map<string, string>)
    requires forall i :: 0 <= i < |order| ==> order[i] in parameters
    requires Readable(parameters)
    ensures var parts := ParameterSegments(order, parameters);
      forall i :: 0 <= i < |parts| ==> '=' in parts[i] && '/' !in parts[i] && parts[i] != ""
  {
    var parts := ParameterSegments(order, parameters);
    forall i | 0 <= i < |parts|
      ensures '=' in parts[i] && '/' !in parts[i]
    {
      SplitParameterSegment(order[i], parameters[order[i]]);
      assert parts[i] == order[i] + "=" + parameters[order[i]];
    }
  }

  /** An order that lists every key once covers exactly the keys. */
  lemma OrderCoversKeys(order: seq<string>, parameters: map<string, string>)
    requires multiset(order) == multiset(parameters.Keys)
    ensures forall name :: name in order <==> name in parameters
    ensures parameters == map name | name in order :: parameters[name]
  {
    forall name ensures name in order <==> name in parameters {
      assert name in order <==> name in multiset(order);
      assert name in parameters.Keys <==> name in multiset(parameters.Keys);
    }
  }

  /** The parts `handleRequest` splits a built request into. */
  lemma SplitRequestText(paths: seq<string>, order: seq<string>, parameters: map<string, string>)
    requires forall i :: 0 <= i < |paths| ==> '/' !in paths[i] && '=' !in paths[i]
    requires order != [] || paths == [] || paths[|paths| - 1] != ""
    requires Readable(parameters)
    requires forall i :: 0 <= i < |order| ==> order[i] in parameters
    ensures var parts := paths + ParameterSegments(order, parameters);
      Split(RequestText(paths, order, parameters), '/') == if parts == [] then [""] else parts
  {
    var parameterParts := ParameterSegments(order, parameters);
    var parts := paths + parameterParts;
    ParameterPartsShape(order, parameters);
    TerminatedConcat(paths, parameterParts, '/');
    if order != [] {
      assert parts[|parts| - 1] == parameterParts[|parameterParts| - 1];
    } else if paths != [] {
      assert parts[|parts| - 1] == paths[|paths| - 1];
    }
    SplitTerminated(parts, '/');
  }

  /** The route key of a built request with at least one part. */
  lemma RouteOfBuiltParts(paths: seq<string>, order: seq<string>, parameters: map<string, string>)
    requires forall i :: 0 <= i < |paths| ==> '=' !in paths[i]
    requires Readable(parameters)
    requires forall i :: 0 <= i < |order| ==> order[i] in parameters
    ensures RouteOf(paths + ParameterSegments(order, parameters)) == Terminated(paths, '/')
  {
    var parameterParts := ParameterSegments(order, parameters);
    ParameterPartsShape(order, parameters);
    calc {
      RouteOf(paths + parameterParts);
      { RouteOfConcat(paths, parameterParts); }
      RouteOf(paths) + RouteOf(parameterParts);
      { RouteOfParameterParts(parameterParts); }
      RouteOf(paths) + "";
      { RouteOfPlainParts(paths); PlainPartsOfPlain(paths); }
      Terminated(paths, '/');
    }
  }

  /** The inline parameters of a built request's parts. */
  lemma ParametersOfBuiltParts(paths: seq<string>, order: seq<string>, parameters: map<string, string>)
    requires forall i :: 0 <= i < |paths| ==> '=' !in paths[i]
    requires Readable(parameters)
    requires forall i :: 0 <= i < |order| ==> order[i] in parameters
    requires multiset(order) == multiset(parameters.Keys)
    ensures ParametersFrom(map[], paths + ParameterSegments(order, parameters)) == parameters
  {
    var parameterParts := ParameterSegments(order, parameters);
    OrderCoversKeys(order, parameters);
    calc {
      ParametersFrom(map[], paths + parameterParts);
      { ParametersFromConcat(map[], paths, parameterParts); }
      ParametersFrom(ParametersFrom(map[], paths), parameterParts);
      { ParametersFromPlain(map[], paths); }
      ParametersFrom(map[], parameterParts);
      { ParametersOfSegments(order, parameters); }
      parameters;
    }
  }

  /**
   * A request built from paths and readable parameters without `/` or `=`
   * parses back to the route key of those paths and to exactly those
   * parameters, in whichever order `build` visited the parameters, provided
   * the request does not end in an empty path (`split` would drop it).
   * Empty paths before that are kept: each adds a bare `/` to the key.
   * An empty builder's request (the empty string) has the route key `/`.
   */
  lemma BuildThenParse(paths: seq<string>, order: seq<string>, parameters: map<string, string>)
    requires forall i :: 0 <= i < |paths| ==> '/' !in paths[i] && '=' !in paths[i]
    requires parameters != map[] || paths == [] || paths[|paths| - 1] != ""
    requires Readable(parameters)
    requires forall i :: 0 <= i < |order| ==> order[i] in parameters
    requires multiset(order) == multiset(parameters.Keys)
    ensures ParsedRoute(RequestText(paths, order, parameters))
      == if paths == [] && parameters == map[] then "/" else Terminated(paths, '/')
    ensures ParsedParameters(RequestText(paths, order, parameters)) == parameters
  {
    var parts := paths + ParameterSegments(order, parameters);
    OrderCoversKeys(order, parameters);
    if parameters != map[] {
      var name :| name in parameters;
      assert name in order;
    }
    SplitRequestText(paths, order, parameters);
    if parts == [] {
      assert parameters == map[];
    } else {
      RouteOfBuiltParts(paths, order, parameters);
      ParametersOfBuiltParts(paths, order, parameters);
    }
  }

  /**
   * A builder given the path `sum` writes `sum/a=5/b=10/` (in either
   * parameter order), whose route key is `sum/`.
   */
  lemma SumRequest(order: seq<string>, parameters: map<string, string>)
    requires parameters == map["a" := "5", "b" := "10"]
    requires order == ["a", "b"] || order == ["b", "a"]
    ensures ParsedRoute(RequestText(["sum"], order, parameters)) == "sum/"
    ensures ParsedParameters(RequestText(["sum"], order, parameters)) == parameters
  {
    SumParameters(order, parameters);
    BuildThenParse(["sum"], order, parameters);
    assert Terminated(["sum"], '/') == "sum/" by {
      assert ["sum"][..0] == [];
    }
  }

  /**
   * A method mapped to `/sum` has the key `/sum/`; a builder given the path
   * `/sum` writes `/sum/a=5/b=10/`, which reaches that key with both parameters.
   */
  lemma SlashSumRequest(order: seq<string>, parameters: map<string, string>)
    requires parameters == map["a" := "5", "b" := "10"]
    requires order == ["a", "b"] || order == ["b", "a"]
    ensures RouteKey(None, "/sum") == "/sum/"
    ensures ParsedRoute(RequestText(["/sum"], order, parameters)) == RouteKey(None, "/sum")
    ensures ParsedParameters(RequestText(["/sum"], order, parameters)) == parameters
  {
    SumParameters(order, parameters);
    // The path `/sum` is written exactly as the two paths "" and `sum`.
    assert Terminated(["/sum"], '/') == "/sum/" by {
      assert ["/sum"][..0] == [];
    }
    assert Terminated(["", "sum"], '/') == "/sum/" by {
      assert ["", "sum"][..1] == [""] && [""][..0] == [];
    }
    assert RequestText(["/sum"], order, parameters) == RequestText(["", "sum"], order, parameters);
    BuildThenParse(["", "sum"], order, parameters);
  }

  /** The parameters `a=5` and `b=10` are readable and either order lists them once. */
  lemma SumParameters(order: seq<string>, parameters: map<string, string>)
    requires parameters == map["a" := "5", "b" := "10"]
    requires order == ["a", "b"] || order == ["b", "a"]
    ensures Readable(parameters)
    ensures forall i :: 0 <= i < |order| ==> order[i] in parameters
    ensures multiset(order) == multiset(parameters.Keys)
  {
    forall name | name in parameters
      ensures '/' !in name && '=' !in name
        && parameters[name] != "" && '/' !in parameters[name] && '=' !in parameters[name]
    {
      assert name == "a" || name == "b";
    }
    assert parameters.Keys == {"a", "b"};
    assert multiset(order) == multiset{"a", "b"};
  }
}
