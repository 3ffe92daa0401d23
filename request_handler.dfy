/**
 * `RequestHandler`: the registry from route keys to method handlers,
 * `registerController`, and `handleRequest`, which splits a request into a
 * route key and inline `name=value` parameters, looks the key up and lets
 * the handler bind and invoke.
 */
module RequestHandlers {
  import opened Wrappers
  import opened JavaText
  import opened Values
  import opened MethodHandlers

  // ---------------------------------------------------------------------
  // Parsing a request
  // ---------------------------------------------------------------------

  /** A segment `name=value` whose split at `=` has exactly the two parts `name` and `value`. */
  predicate IsParameterSegment(segment: string, name: string, value: string) {
    '=' in segment && Split(segment, '=') == [name, value]
  }

  /** The route key built from split request parts: each part without `=`, followed by `/`. */
  function RouteOf(parts: seq<string>): (r: string)
    ensures '=' !in r
  {
    if parts == [] then ""
    else
      var last := parts[|parts| - 1];
      RouteOf(parts[..|parts| - 1]) + if '=' in last then "" else last + "/"
  }

  /**
   * The inline parameters read from split request parts, starting from `start`:
   * a part with `=` whose split at `=` gives exactly two parts sets the first
   * to the second; any other part with `=` is dropped.
   */
  function ParametersFrom(start: map<string, string>, parts: seq<string>): (r: map<string, string>)
    ensures start.Keys <= r.Keys
  {
    if parts == [] then start
    else
      var m := ParametersFrom(start, parts[..|parts| - 1]);
      var last := parts[|parts| - 1];
      if '=' in last then
        var argParts := Split(last, '=');
        if |argParts| == 2 then m[argParts[0] := argParts[1]] else m
      else m
  }

  /** The route key `handleRequest` looks up for `request`. */
  function ParsedRoute(request: string): string {
    RouteOf(Split(request, '/'))
  }

  /** The inline path parameters `handleRequest` reads from `request`. */
  function ParsedParameters(request: string): map<string, string> {
    ParametersFrom(map[], Split(request, '/'))
  }

  /** The parts without `=`, in order. */
  function PlainParts(parts: seq<string>): (r: seq<string>)
    ensures forall i :: 0 <= i < |r| ==> '=' !in r[i]
  {
    if parts == [] then []
    else
      var last := parts[|parts| - 1];
      PlainParts(parts[..|parts| - 1]) + if '=' in last then [] else [last]
  }

  /** The route key is the in-order concatenation of `part + "/"` over the parts without `=`. */
  lemma {:induction false} RouteOfPlainParts(parts: seq<string>)
    ensures RouteOf(parts) == Terminated(PlainParts(parts), '/')
  {
    if parts != [] {
      var init, last := parts[..|parts| - 1], parts[|parts| - 1];
      RouteOfPlainParts(init);
      if '=' in last {
        assert PlainParts(parts) == PlainParts(init) + [];
        assert PlainParts(init) + [] == PlainParts(init);
      } else {
        var ps := PlainParts(parts);
        assert ps == PlainParts(init) + [last];
        assert ps[..|ps| - 1] == PlainParts(init);
      }
    }
  }

  lemma {:induction false} ParametersFromConcat(start: map<string, string>, a: seq<string>, b: seq<string>)
    ensures ParametersFrom(start, a + b) == ParametersFrom(ParametersFrom(start, a), b)
    decreases |b|
  {
    if b == [] {
      assert a + b == a;
    } else {
      assert (a + b)[..|a + b| - 1] == a + b[..|b| - 1];
      ParametersFromConcat(start, a, b[..|b| - 1]);
    }
  }

  /** Names and values read from the parts never contain `=`. */
  lemma {:induction false} ParametersLackEquals(start: map<string, string>, parts: seq<string>)
    ensures forall name :: name in ParametersFrom(start, parts) && name !in start ==>
      '=' !in name && '=' !in ParametersFrom(start, parts)[name]
  {
    if parts != [] {
      ParametersLackEquals(start, parts[..|parts| - 1]);
    }
  }

  /** Parts without `=` leave the parameters as they are. */
  lemma {:induction false} ParametersFromPlain(start: map<string, string>, parts: seq<string>)
    requires forall i :: 0 <= i < |parts| ==> '=' !in parts[i]
    ensures ParametersFrom(start, parts) == start
  {
    if parts != [] {
      ParametersFromPlain(start, parts[..|parts| - 1]);
    }
  }

  /**
   * A name maps to the value of the last well-formed `name=value` part
   * naming it: a later part with the same name overwrites an earlier one.
   */
  lemma {:induction false} LastParameterWins(start: map<string, string>, parts: seq<string>,
                                            i: nat, name: string, value: string)
    requires i < |parts| && IsParameterSegment(parts[i], name, value)
    requires forall j, v :: i < j < |parts| ==> !IsParameterSegment(parts[j], name, v)
    ensures name in ParametersFrom(start, parts) && ParametersFrom(start, parts)[name] == value
  {
    if i < |parts| - 1 {
      LastParameterWins(start, parts[..|parts| - 1], i, name, value);
      var last := parts[|parts| - 1];
      if '=' in last && |Split(last, '=')| == 2 {
        assert !IsParameterSegment(last, name, Split(last, '=')[1]);
      }
    }
  }

  /**
   * A name that no well-formed `name=value` part names is not added: a part
   * with `=` whose split does not give exactly two parts is dropped.
   */
  lemma {:induction false} UnnamedParameterAbsent(start: map<string, string>, parts: seq<string>, name: string)
    requires name !in start
    requires forall j, v :: 0 <= j < |parts| ==> !IsParameterSegment(parts[j], name, v)
    ensures name !in ParametersFrom(start, parts)
  {
    if parts != [] {
      var init, last := parts[..|parts| - 1], parts[|parts| - 1];
      UnnamedParameterAbsent(start, init, name);
      if '=' in last {
        var argParts := Split(last, '=');
        if |argParts| == 2 && argParts[0] == name {
          assert IsParameterSegment(last, name, argParts[1]);
        }
      }
    }
  }

  /** A character that does not occur in the text occurs in none of its split parts. */
  lemma SplitPartsLack(s: string, sep: char, c: char)
    requires c !in s
    ensures forall i :: 0 <= i < |Split(s, sep)| ==> c !in Split(s, sep)[i]
  {
    if sep in s {
      var pieces := Pieces(s, sep);
      var parts := Split(s, sep);
      assert parts == pieces[..|parts|];
      forall i | 0 <= i < |parts| ensures c !in parts[i] {
        assert parts[i] == pieces[i];
        JoinContainsPieces(pieces, sep, i);
      }
    }
  }

  /** Unless it is empty or a single empty part, a split ends with a non-empty part. */
  lemma SplitLastPart(s: string, sep: char)
    ensures var parts := Split(s, sep);
      parts == [] || parts == [""] || parts[|parts| - 1] != ""
  {
  }

  /**
   * A request without any `=` parses to the route "" or "/", or to a route
   * whose final `/` follows a character other than `/`: it never ends in `//`.
   */
  lemma PlainRequestRoute(request: string)
    requires '=' !in request
    ensures var r := ParsedRoute(request);
      r == "" || r == "/" || (|r| >= 2 && r[|r| - 1] == '/' && r[|r| - 2] != '/')
  {
    var parts := Split(request, '/');
    SplitPartsLack(request, '/', '=');
    RouteOfPlainParts(parts);
    PlainPartsOfPlain(parts);
    SplitLastPart(request, '/');
    if parts != [] && parts != [""] {
      var last := parts[|parts| - 1];
      var r := Terminated(parts, '/');
      assert r == Terminated(parts[..|parts| - 1], '/') + last + "/";
      assert r[|r| - 2] == last[|last| - 1];
      assert '/' !in last;
    }
  }

  lemma {:induction false} PlainPartsOfPlain(parts: seq<string>)
    requires forall i :: 0 <= i < |parts| ==> '=' !in parts[i]
    ensures PlainParts(parts) == parts
  {
    if parts != [] {
      PlainPartsOfPlain(parts[..|parts| - 1]);
    }
  }

  /** Every character of a piece is a character of the text it was split from. */
  lemma {:induction false} JoinContainsPieces(pieces: seq<string>, sep: char, i: nat)
    requires i < |pieces|
    ensures forall c :: c in pieces[i] ==> c in Join(pieces, sep)
  {
    if |pieces| > 1 {
      if i > 0 {
        JoinContainsPieces(pieces[1..], sep, i - 1);
      }
    }
  }

  /**
   * A method mapped to "" in a class mapped to `classPath` gets a key that
   * ends in `//`; no request without a `name=value` part reaches it.
   */
  lemma EmptyMethodPathNeedsParameter(classPath: string, request: string)
    requires '=' !in request
    ensures ParsedRoute(request) != RouteKey(Some(classPath), "")
  {
    PlainRequestRoute(request);
    RouteKeyWithClassPath(classPath, "");
  }

  // ---------------------------------------------------------------------
  // Registration
  // ---------------------------------------------------------------------

  /** Every handler is stored under its own route key, and every key ends with `/`. */
  ghost predicate WellFormedRegistry(handlers: map<string, MethodHandler>) {
    forall k :: k in handlers ==> handlers[k].path == k && EndsWith(k, '/')
  }

  /** The handler registered for an annotated method of `controller`. */
  function HandlerFor(controller: Controller, m: MethodDecl): MethodHandler
    requires m.mapping.Some?
  {
    MethodHandler(controller, m, RouteKey(controller.classMapping, m.mapping.value))
  }

  /** The registry after putting the handlers of the annotated methods among `ms`, in order. */
  function Register(handlers: map<string, MethodHandler>, controller: Controller, ms: seq<MethodDecl>)
    : (r: map<string, MethodHandler>)
    ensures handlers.Keys <= r.Keys
    ensures forall k :: k in r && k !in handlers ==> r[k].path == k && r[k].instance == controller && EndsWith(k, '/')
  {
    if ms == [] then handlers
    else
      var m := Register(handlers, controller, ms[..|ms| - 1]);
      var last := ms[|ms| - 1];
      if last.mapping.Some? then m[HandlerFor(controller, last).path := HandlerFor(controller, last)] else m
  }

  /** The route keys of the annotated methods among `ms`. */
  function RouteKeys(controller: Controller, ms: seq<MethodDecl>): set<string> {
    set i | 0 <= i < |ms| && ms[i].mapping.Some? :: RouteKey(controller.classMapping, ms[i].mapping.value)
  }

  /** Registration adds exactly the computed keys. */
  lemma {:induction false} RegisterKeys(handlers: map<string, MethodHandler>, controller: Controller, ms: seq<MethodDecl>)
    ensures Register(handlers, controller, ms).Keys == handlers.Keys + RouteKeys(controller, ms)
  {
    if ms != [] {
      var init := ms[..|ms| - 1];
      RegisterKeys(handlers, controller, init);
      var last := ms[|ms| - 1];
      var keys, initKeys := RouteKeys(controller, ms), RouteKeys(controller, init);
      forall k | k in keys
        ensures k in initKeys || (last.mapping.Some? && k == RouteKey(controller.classMapping, last.mapping.value))
      {
        var i :| 0 <= i < |ms| && ms[i].mapping.Some? && k == RouteKey(controller.classMapping, ms[i].mapping.value);
        if i < |ms| - 1 {
          assert init[i] == ms[i];
        }
      }
      forall k | k in initKeys ensures k in keys {
        var i :| 0 <= i < |init| && init[i].mapping.Some? && k == RouteKey(controller.classMapping, init[i].mapping.value);
        assert ms[i] == init[i];
      }
      if last.mapping.Some? {
        assert ms[|ms| - 1] == last;
        assert RouteKey(controller.classMapping, last.mapping.value) in keys;
      }
    }
  }

  /** Registration leaves every entry whose key it does not compute as it was. */
  lemma {:induction false} RegisterKeepsOthers(handlers: map<string, MethodHandler>, controller: Controller,
                                              ms: seq<MethodDecl>, k: string)
    requires k in handlers && k !in RouteKeys(controller, ms)
    ensures k in Register(handlers, controller, ms) && Register(handlers, controller, ms)[k] == handlers[k]
  {
    if ms != [] {
      var init := ms[..|ms| - 1];
      RegisterKeepsOthers(handlers, controller, init, k);
      var last := ms[|ms| - 1];
      if last.mapping.Some? {
        assert ms[|ms| - 1] == last;
        assert RouteKey(controller.classMapping, last.mapping.value) in RouteKeys(controller, ms);
      }
    }
  }

  /** The last annotated method with a given key is the one registered under it. */
  lemma {:induction false} RegisterLastWins(handlers: map<string, MethodHandler>, controller: Controller,
                                           ms: seq<MethodDecl>, j: nat)
    requires j < |ms| && ms[j].mapping.Some?
    requires forall i :: j < i < |ms| && ms[i].mapping.Some? ==>
      RouteKey(controller.classMapping, ms[i].mapping.value) != RouteKey(controller.classMapping, ms[j].mapping.value)
    ensures var k := RouteKey(controller.classMapping, ms[j].mapping.value);
      k in Register(handlers, controller, ms) && Register(handlers, controller, ms)[k] == HandlerFor(controller, ms[j])
  {
    if j < |ms| - 1 {
      var init := ms[..|ms| - 1];
      assert init[j] == ms[j];
      RegisterLastWins(handlers, controller, init, j);
    }
  }

  /** Registration keeps every handler under its own `/`-terminated key. */
  lemma {:induction false} RegisterWellFormed(handlers: map<string, MethodHandler>, controller: Controller,
                                             ms: seq<MethodDecl>)
    requires WellFormedRegistry(handlers)
    ensures WellFormedRegistry(Register(handlers, controller, ms))
  {
    if ms != [] {
      RegisterWellFormed(handlers, controller, ms[..|ms| - 1]);
    }
  }

  // ---------------------------------------------------------------------
  // Dispatch
  // ---------------------------------------------------------------------

  /** Wraps a failure of `handle` with the controller's class name and the request. */
  function WrapFailure(outcome: Result<Value, HandlerError>, className: string, request: string)
    : (r: Result<Value, HandlerError>)
    ensures outcome.Success? ==> r == outcome
    ensures outcome.Failure? ==> r.Failure? && r.error.ControllerFailed? && r.error.cause == outcome.error
                                 && r.error.className == className && r.error.request == request
  {
    match outcome
    case Success(_) => outcome
    case Failure(e) => Failure(ControllerFailed(e, className, request))
  }

  /** One more part extends the route key or the inline parameters, as the loop does. */
  lemma ParseStep(parts: seq<string>, i: nat)
    requires i < |parts|
    ensures RouteOf(parts[..i + 1]) == RouteOf(parts[..i]) + if '=' in parts[i] then "" else parts[i] + "/"
    ensures ParametersFrom(map[], parts[..i + 1])
      == var m := ParametersFrom(map[], parts[..i]);
         if '=' in parts[i] && |Split(parts[i], '=')| == 2
         then m[Split(parts[i], '=')[0] := Split(parts[i], '=')[1]] else m
  {
    assert parts[..i + 1][..i] == parts[..i];
  }

  /**
   * The parsing loop of `handleRequest`: splits the request at `/`, adds
   * each part without `=` to the route key and each well-formed `name=value`
   * part to the inline parameters.
   */
  method ParseRequest(request: string) returns (handlerPath: string, pathParameters: map<string, string>)
    ensures handlerPath == ParsedRoute(request)
    ensures pathParameters == ParsedParameters(request)
  {
    handlerPath := "";
    var pathParts := Split(request, '/');
    pathParameters := map[];
    for i := 0 to |pathParts|
      invariant handlerPath == RouteOf(pathParts[..i])
      invariant pathParameters == ParametersFrom(map[], pathParts[..i])
    {
      var part := pathParts[i];
      ParseStep(pathParts, i);
      if '=' in part {
        var argParts := Split(part, '=');
        if |argParts| == 2 {
          pathParameters := pathParameters[argParts[0] := argParts[1]];
        }
      } else {
        handlerPath := handlerPath + part + "/";
      }
    }
    assert pathParts[..|pathParts|] == pathParts;
  }

  class RequestHandler {
    var handlers: map<string, MethodHandler>

    ghost predicate Valid()
      reads this
    {
      WellFormedRegistry(handlers)
    }

    /** A router with no handlers (the worker pool is not modelled). */
    constructor()
      ensures Valid() && handlers == map[]
    {
      handlers := map[];
    }

    /**
     * `registerController`: puts one handler per annotated method, in the
     * order the methods are listed, under its route key; a later method
     * with the same key, or a later controller, overwrites.
     */
    method RegisterController(controller: Controller)
      requires Valid()
      modifies this
      ensures Valid()
      ensures handlers == Register(old(handlers), controller, controller.methods)
    {
      var methods := controller.methods;
      for i := 0 to |methods|
        invariant Valid()
        invariant handlers == Register(old(handlers), controller, methods[..i])
      {
        var m := methods[i];
        assert methods[..i + 1][..i] == methods[..i];
        if m.mapping.Some? {
          var handler := NewMethodHandler(controller, m, m.mapping.value);
          handlers := handlers[handler.path := handler];
        }
      }
      assert methods[..|methods|] == methods;
    }

    /**
     * `handleRequest(request, controllerParameters)`: an unknown route key
     * fails with that key; otherwise the handler's failure is wrapped with
     * the controller's class name and the request, and its result is
     * returned as it is.
     */
    method HandleRequest(request: string, controllerParameters: map<string, Value>, invoke: Invoker)
      returns (r: Result<Value, HandlerError>)
      requires Valid()
      ensures ParsedRoute(request) in handlers ==> handlers[ParsedRoute(request)].path == ParsedRoute(request)
      ensures ParsedRoute(request) !in handlers ==> r == Failure(NoControllerFound(ParsedRoute(request)))
      ensures ParsedRoute(request) in handlers ==>
        var h, pathParameters := handlers[ParsedRoute(request)], ParsedParameters(request);
        if controllerParameters.Keys !! pathParameters.Keys then
          r == WrapFailure(Complete(h, BindArguments(h.target.parameters, controllerParameters, pathParameters), invoke),
                           h.instance.className, request)
        else
          && r.Failure? && r.error.ControllerFailed?
          && r.error.className == h.instance.className && r.error.request == request
          && r.error.cause.DuplicateParameter?
          && r.error.cause.name in controllerParameters && r.error.cause.name in pathParameters
    {
      var handlerPath, pathParameters := ParseRequest(request);
      if handlerPath in handlers {
        var h := handlers[handlerPath];
        var outcome := Handle(h, controllerParameters, pathParameters, invoke);
        if outcome.Failure? {
          return Failure(ControllerFailed(outcome.error, h.instance.className, request));
        }
        return outcome;
      } else {
        return Failure(NoControllerFound(handlerPath));
      }
    }

    /** `handleRequest(request)`: the same with no caller parameters. */
    method HandleSimpleRequest(request: string, invoke: Invoker) returns (r: Result<Value, HandlerError>)
      requires Valid()
      ensures ParsedRoute(request) !in handlers ==> r == Failure(NoControllerFound(ParsedRoute(request)))
      ensures ParsedRoute(request) in handlers ==>
        var h := handlers[ParsedRoute(request)];
        r == WrapFailure(Complete(h, BindArguments(h.target.parameters, map[], ParsedParameters(request)), invoke),
                         h.instance.className, request)
    {
      r := HandleRequest(request, map[], invoke);
    }
  }
}
