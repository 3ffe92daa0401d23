/**
 * `RequestHandler.MethodHandler`: the route key of one annotated controller
 * method, and `handle`, which binds the method's formal parameters from the
 * path parameters and the caller's parameters and invokes it.
 *
 * Reflection is replaced by explicit descriptors: a controller is its class
 * name, its optional class-level `@RequestMapping` path and its declared
 * methods; each method lists its formal parameters with their annotations.
 */
module MethodHandlers {
  import opened Wrappers
  import opened JavaText
  import opened Values
  import opened Conversion

  /** The `required` and `defaultValue` fields of `@RequestParam` and `@ControllerParam`. */
  datatype ParamAnnotation = ParamAnnotation(required: bool, defaultValue: string)

  /** An annotation written without arguments: required, with an empty default. */
  const DefaultAnnotation: ParamAnnotation := ParamAnnotation(true, "")

  /** A formal parameter: its name, declared type and its two possible annotations. */
  datatype Parameter = Parameter(
    name: string,
    paramType: ParamType,
    requestParam: Option<ParamAnnotation>,
    controllerParam: Option<ParamAnnotation>)

  /** A declared method: its name, its `@RequestMapping` path if it has one, its formal parameters. */
  datatype MethodDecl = MethodDecl(name: string, mapping: Option<string>, parameters: seq<Parameter>)

  /**
   * A controller object: its class name, the path of the class-level
   * `@RequestMapping` if there is one, and its declared methods in the order
   * `getDeclaredMethods` lists them.
   */
  datatype Controller = Controller(className: string, classMapping: Option<string>, methods: seq<MethodDecl>)

  /** A registered method: the controller instance, the target method and its route key. */
  datatype MethodHandler = MethodHandler(instance: Controller, target: MethodDecl, path: string)

  /** What `method.invoke` does: return a value or throw. */
  datatype Invocation = Returned(result: Value) | Threw(exception: string)

  /** The controller methods' behaviour, which lies outside the router. */
  type Invoker = (Controller, MethodDecl, seq<Value>) -> Invocation

  // ---------------------------------------------------------------------
  // Route keys
  // ---------------------------------------------------------------------

  /** `s`, with a `/` appended unless it already ends with one. */
  function WithTrailingSlash(s: string): (r: string)
    ensures EndsWith(r, '/')
    ensures |s| <= |r| <= |s| + 1 && r[..|s|] == s
    ensures EndsWith(s, '/') ==> r == s
  {
    if EndsWith(s, '/') then s else s + "/"
  }

  /**
   * The route key of a method mapped to `methodPath`: the method path with a
   * trailing `/`, preceded by the class-level path with a trailing `/` when
   * the class has one.
   */
  function RouteKey(classPath: Option<string>, methodPath: string): (r: string)
    ensures EndsWith(r, '/')
    ensures classPath.None? ==> r == WithTrailingSlash(methodPath)
    ensures classPath.Some? ==> r == WithTrailingSlash(classPath.value) + WithTrailingSlash(methodPath)
  {
    match classPath
    case None => WithTrailingSlash(methodPath)
    case Some(p) => WithTrailingSlash(p) + WithTrailingSlash(methodPath)
  }

  /**
   * The `MethodHandler` constructor: normalises the method path, prepends
   * the normalised class path if the controller's class is mapped, and
   * normalises once more.
   */
  method NewMethodHandler(instance: Controller, target: MethodDecl, mappingPath: string)
    returns (h: MethodHandler)
    ensures h.instance == instance && h.target == target
    ensures h.path == RouteKey(instance.classMapping, mappingPath)
    ensures EndsWith(h.path, '/')
  {
    var path := mappingPath;
    if !EndsWith(path, '/') {
      path := path + "/";
    }
    if instance.classMapping.Some? {
      var parentPath := instance.classMapping.value;
      if !EndsWith(parentPath, '/') {
        parentPath := parentPath + "/";
      }
      path := parentPath + path;
    }
    if !EndsWith(path, '/') {
      path := path + "/";
    }
    h := MethodHandler(instance, target, path);
  }

  /** Re-registering a route key as a method path, without a class path, keeps it. */
  lemma RouteKeyNormalised(classPath: Option<string>, methodPath: string)
    ensures RouteKey(None, RouteKey(classPath, methodPath)) == RouteKey(classPath, methodPath)
  {
  }

  /**
   * With a class path, the key starts with the class path and ends with the
   * method path, each followed by one added `/` when it had none; so a
   * method mapped to "" under a class mapped to "api" gets the key "api//".
   */
  lemma RouteKeyWithClassPath(classPath: string, methodPath: string)
    ensures var r := RouteKey(Some(classPath), methodPath);
      && r[..|classPath|] == classPath
      && |r| == |classPath| + |methodPath| + (if EndsWith(classPath, '/') then 0 else 1)
                                           + (if EndsWith(methodPath, '/') then 0 else 1)
      && (methodPath == "" ==> EndsWith(r[..|r| - 1], '/'))
  {
    var r := RouteKey(Some(classPath), methodPath);
    var p := WithTrailingSlash(classPath);
    assert r[..|classPath|] == p[..|classPath|];
  }

  // ---------------------------------------------------------------------
  // Parameter binding
  // ---------------------------------------------------------------------

  /**
   * The argument bound to one formal parameter: for `@RequestParam` the
   * converted path value, else (when not required) the converted default;
   * for `@ControllerParam` the caller's value as it is, else (when not
   * required) the converted default; for an unannotated parameter `null`.
   */
  function BindParameter(p: Parameter, controllerParameters: map<string, Value>,
                         pathParameters: map<string, string>): (r: Result<Value, HandlerError>)
    ensures p.requestParam.None? && p.controllerParam.None? ==> r == Success(Null)
    ensures r.Failure? && r.error.MissingPathParameter? ==>
      p.requestParam.Some? && p.requestParam.value.required && p.name !in pathParameters && r.error.name == p.name
    ensures r.Failure? && r.error.MissingControllerParameter? ==>
      p.requestParam.None? && p.controllerParam.Some? && p.controllerParam.value.required
      && p.name !in controllerParameters && r.error.name == p.name
    ensures p.requestParam.None? && p.controllerParam.Some? && p.name in controllerParameters ==>
      r == Success(controllerParameters[p.name])
  {
    if p.requestParam.Some? then
      if p.name in pathParameters then Convert(p.paramType, pathParameters[p.name])
      else if p.requestParam.value.required then Failure(MissingPathParameter(p.name))
      else Convert(p.paramType, p.requestParam.value.defaultValue)
    else if p.controllerParam.Some? then
      if p.name in controllerParameters then Success(controllerParameters[p.name])
      else if p.controllerParam.value.required then Failure(MissingControllerParameter(p.name))
      else Convert(p.paramType, p.controllerParam.value.defaultValue)
    else
      Success(Null)
  }

  /** The arguments for `ps` in declaration order, or the first parameter's failure. */
  function BindArguments(ps: seq<Parameter>, controllerParameters: map<string, Value>,
                         pathParameters: map<string, string>): (r: Result<seq<Value>, HandlerError>)
    ensures r.Success? ==> |r.value| == |ps|
    ensures r.Failure? ==> exists i :: 0 <= i < |ps| && BindParameter(ps[i], controllerParameters, pathParameters) == Failure(r.error)
  {
    if ps == [] then Success([])
    else
      match BindParameter(ps[0], controllerParameters, pathParameters)
      case Failure(e) => Failure(e)
      case Success(v) => Prepend([v], BindArguments(ps[1..], controllerParameters, pathParameters))
  }

  /** Arguments bound so far, in front of the outcome for the remaining ones. */
  function Prepend(done: seq<Value>, rest: Result<seq<Value>, HandlerError>): Result<seq<Value>, HandlerError>
  {
    match rest
    case Failure(e) => Failure(e)
    case Success(vs) => Success(done + vs)
  }

  lemma PrependTwice(done: seq<Value>, v: Value, rest: Result<seq<Value>, HandlerError>)
    ensures Prepend(done, Prepend([v], rest)) == Prepend(done + [v], rest)
  {
    if rest.Success? {
      assert done + ([v] + rest.value) == done + [v] + rest.value;
    }
  }

  /** Binding the arguments and then invoking the method. */
  function Complete(h: MethodHandler, bound: Result<seq<Value>, HandlerError>, invoke: Invoker)
    : (r: Result<Value, HandlerError>)
    ensures bound.Failure? ==> r == Failure(bound.error)
    ensures bound.Success? && invoke(h.instance, h.target, bound.value).Returned? ==>
      r == Success(invoke(h.instance, h.target, bound.value).result)
    ensures bound.Success? && invoke(h.instance, h.target, bound.value).Threw? ==>
      r == Failure(InvocationFailed(h.target.name, bound.value, invoke(h.instance, h.target, bound.value).exception))
  {
    match bound
    case Failure(e) => Failure(e)
    case Success(args) =>
      match invoke(h.instance, h.target, args)
      case Returned(v) => Success(v)
      case Threw(x) => Failure(InvocationFailed(h.target.name, args, x))
  }

  /**
   * Binding succeeds exactly when every parameter binds, and then gives one
   * argument per formal parameter, in declaration order.
   */
  lemma {:induction false} BindArgumentsSuccess(ps: seq<Parameter>, cp: map<string, Value>,
                                               pp: map<string, string>)
    ensures BindArguments(ps, cp, pp).Success? <==>
      forall i :: 0 <= i < |ps| ==> BindParameter(ps[i], cp, pp).Success?
    ensures BindArguments(ps, cp, pp).Success? ==>
      var args := BindArguments(ps, cp, pp).value;
      |args| == |ps| && forall i :: 0 <= i < |ps| ==> args[i] == BindParameter(ps[i], cp, pp).value
  {
    if ps != [] {
      BindArgumentsSuccess(ps[1..], cp, pp);
      assert forall i :: 1 <= i < |ps| ==> ps[i] == ps[1..][i - 1];
      if BindArguments(ps, cp, pp).Success? {
        var args := BindArguments(ps, cp, pp).value;
        var rest := BindArguments(ps[1..], cp, pp).value;
        assert args == [BindParameter(ps[0], cp, pp).value] + rest;
        forall i | 0 <= i < |ps|
          ensures args[i] == BindParameter(ps[i], cp, pp).value
        {
          if i > 0 {
            assert args[i] == rest[i - 1];
          }
        }
      }
    }
  }

  /** Binding fails with the error of the first parameter that fails to bind. */
  lemma {:induction false} BindArgumentsFirstFailure(ps: seq<Parameter>, cp: map<string, Value>,
                                                    pp: map<string, string>, k: nat)
    requires k < |ps| && BindParameter(ps[k], cp, pp).Failure?
    requires forall j :: 0 <= j < k ==> BindParameter(ps[j], cp, pp).Success?
    ensures BindArguments(ps, cp, pp) == Failure(BindParameter(ps[k], cp, pp).error)
  {
    if k > 0 {
      assert forall j :: 0 <= j < k - 1 ==> ps[1..][j] == ps[j + 1];
      BindArgumentsFirstFailure(ps[1..], cp, pp, k - 1);
    }
  }

  /** What each argument of a successful binding is, by the parameter's annotation. */
  lemma BoundArgument(ps: seq<Parameter>, cp: map<string, Value>, pp: map<string, string>, i: nat)
    requires BindArguments(ps, cp, pp).Success? && i < |ps|
    ensures |BindArguments(ps, cp, pp).value| == |ps|
    ensures var p, arg := ps[i], BindArguments(ps, cp, pp).value[i];
      && (p.requestParam.Some? && p.name in pp ==>
            Convert(p.paramType, pp[p.name]) == Success(arg))
      && (p.requestParam.Some? && p.name !in pp ==>
            !p.requestParam.value.required
            && Convert(p.paramType, p.requestParam.value.defaultValue) == Success(arg))
      && (p.requestParam.None? && p.controllerParam.Some? && p.name in cp ==>
            arg == cp[p.name])
      && (p.requestParam.None? && p.controllerParam.Some? && p.name !in cp ==>
            !p.controllerParam.value.required
            && Convert(p.paramType, p.controllerParam.value.defaultValue) == Success(arg))
      && (p.requestParam.None? && p.controllerParam.None? ==> arg == Null)
  {
    BindArgumentsSuccess(ps, cp, pp);
  }

  /**
   * A required parameter that its source does not supply makes binding
   * fail; when every earlier parameter binds, the error names it.
   */
  lemma MissingRequiredParameter(ps: seq<Parameter>, cp: map<string, Value>, pp: map<string, string>, i: nat)
    requires i < |ps|
    requires var p := ps[i];
      || (p.requestParam.Some? && p.requestParam.value.required && p.name !in pp)
      || (p.requestParam.None? && p.controllerParam.Some? && p.controllerParam.value.required && p.name !in cp)
    ensures BindArguments(ps, cp, pp).Failure?
    ensures (forall j :: 0 <= j < i ==> BindParameter(ps[j], cp, pp).Success?) ==>
      BindArguments(ps, cp, pp).error ==
        if ps[i].requestParam.Some? then MissingPathParameter(ps[i].name)
        else MissingControllerParameter(ps[i].name)
  {
    BindArgumentsSuccess(ps, cp, pp);
    if forall j :: 0 <= j < i ==> BindParameter(ps[j], cp, pp).Success? {
      BindArgumentsFirstFailure(ps, cp, pp, i);
    }
  }

  // ---------------------------------------------------------------------
  // handle
  // ---------------------------------------------------------------------

  /**
   * `MethodHandler.handle`: a name supplied both by the caller and in the
   * path fails the call before any binding (which such name is reported
   * depends on the map's iteration order); otherwise the parameters are
   * bound in order and the method is invoked, its exception wrapped.
   */
  method Handle(h: MethodHandler, controllerParameters: map<string, Value>,
                pathParameters: map<string, string>, invoke: Invoker)
    returns (r: Result<Value, HandlerError>)
    ensures !(controllerParameters.Keys !! pathParameters.Keys) ==>
      && r.Failure? && r.error.DuplicateParameter?
      && r.error.name in controllerParameters && r.error.name in pathParameters
    ensures controllerParameters.Keys !! pathParameters.Keys ==>
      r == Complete(h, BindArguments(h.target.parameters, controllerParameters, pathParameters), invoke)
  {
    var names := controllerParameters.Keys;
    while names != {}
      invariant names <= controllerParameters.Keys
      invariant forall n :: n in controllerParameters && n !in names ==> n !in pathParameters
      decreases names
    {
      var name :| name in names;
      if name in pathParameters {
        return Failure(DuplicateParameter(name));
      }
      names := names - {name};
    }

    var ps := h.target.parameters;
    ghost var bound := BindArguments(ps, controllerParameters, pathParameters);
    var arguments: seq<Value> := [];
    var i := 0;
    assert ps[0..] == ps;
    assert bound.Success? ==> [] + bound.value == bound.value;
    while i < |ps|
      invariant 0 <= i <= |ps|
      invariant bound == Prepend(arguments, BindArguments(ps[i..], controllerParameters, pathParameters))
    {
      var parameter := ps[i];
      var name := parameter.name;
      assert ps[i..][0] == parameter && ps[i..][1..] == ps[i + 1..];
      var argument: Value;
      if parameter.requestParam.Some? {
        var annotation := parameter.requestParam.value;
        if name in pathParameters {
          var parsed := ParseParameter(parameter.paramType, pathParameters[name]);
          if parsed.Failure? {
            return Failure(parsed.error);
          }
          argument := parsed.value;
        } else if annotation.required {
          return Failure(MissingPathParameter(name));
        } else {
          var parsed := ParseParameter(parameter.paramType, annotation.defaultValue);
          if parsed.Failure? {
            return Failure(parsed.error);
          }
          argument := parsed.value;
        }
      } else if parameter.controllerParam.Some? {
        var annotation := parameter.controllerParam.value;
        if name in controllerParameters {
          argument := controllerParameters[name];
        } else if annotation.required {
          return Failure(MissingControllerParameter(name));
        } else {
          var parsed := ParseParameter(parameter.paramType, annotation.defaultValue);
          if parsed.Failure? {
            return Failure(parsed.error);
          }
          argument := parsed.value;
        }
      } else {
        argument := Null;
      }
      assert BindParameter(parameter, controllerParameters, pathParameters) == Success(argument);
      PrependTwice(arguments, argument, BindArguments(ps[i + 1..], controllerParameters, pathParameters));
      arguments := arguments + [argument];
      i := i + 1;
    }
    assert ps[i..] == [];
    assert arguments + [] == arguments;

    match invoke(h.instance, h.target, arguments)
    case Returned(v) =>
      r := Success(v);
    case Threw(x) =>
      r := Failure(InvocationFailed(h.target.name, arguments, x));
  }

  /**
   * Two example cases: `sum(a, b)` with two required int
   * path parameters receives (5, 10) from `a=5` and `b=10`, and a method
   * without parameters receives no arguments.
   */
  lemma BindingExamples()
    ensures var a := Parameter("a", IntType, Some(DefaultAnnotation), None);
      var b := Parameter("b", IntType, Some(DefaultAnnotation), None);
      BindArguments([a, b], map[], map["a" := "5", "b" := "10"]) == Success([IntValue(5), IntValue(10)])
    ensures BindArguments([], map[], map[]) == Success([])
  {
    var a := Parameter("a", IntType, Some(DefaultAnnotation), None);
    var b := Parameter("b", IntType, Some(DefaultAnnotation), None);
    assert "5"[..0] == "" && "10"[..1] == "1" && "1"[..0] == "";
    assert ParseInt("5") == Some(5);
    assert ParseInt("10") == Some(10);
    var pp := map["a" := "5", "b" := "10"];
    assert BindParameter(a, map[], pp) == Success(IntValue(5));
    assert BindParameter(b, map[], pp) == Success(IntValue(10));
    assert [b][1..] == [];
    assert BindArguments([], map[], pp) == Success([]);
    assert [IntValue(10)] + [] == [IntValue(10)];
    assert BindArguments([b], map[], pp) == Success([IntValue(10)]);
    assert [IntValue(5)] + [IntValue(10)] == [IntValue(5), IntValue(10)];
    assert [a, b][1..] == [b];
  }
}
