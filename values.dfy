/**
 * The values the router passes around: declared parameter types, the
 * run-time values bound to parameters, and the kinds of
 * `RequestHandlerException` it raises.
 */
module Values {

  /**
   * The declared Java type of a controller-method parameter, as far as
   * `parseParameter` distinguishes it. An enum type carries its class name
   * and the `toString()` text of each constant, in ordinal order; boxed and
   * primitive forms (`int` and `Integer`, ...) are one tag.
   */
  datatype ParamType =
    | EnumType(enumName: string, constants: seq<string>)
    | IntType
    | LongType
    | FloatType
    | DoubleType
    | BoolType
    | StringType
    | OtherType(typeName: string)

  /**
   * A Java object as the router sees it. `FloatValue`/`DoubleValue` stand for
   * whatever `Float.parseFloat`/`Double.parseDouble` make of the text;
   * `ObjectValue` is any other object a caller supplies.
   */
  datatype Value =
    | Null
    | IntValue(i: int)
    | LongValue(l: int)
    | FloatValue(floatText: string)
    | DoubleValue(doubleText: string)
    | BoolValue(b: bool)
    | StrValue(s: string)
    | EnumValue(enumName: string, ordinal: nat)
    | ObjectValue(className: string, identity: nat)

  /** The exceptions the router raises, by kind, with their payloads. */
  datatype HandlerError =
    | NoControllerFound(path: string)
    | DuplicateParameter(name: string)
    | MissingPathParameter(name: string)
    | MissingControllerParameter(name: string)
    | NumberFormat(input: string)
    | NoEnumConstant(enumName: string, value: string)
    | UnsupportedParameterType(typeName: string)
    | InvocationFailed(methodName: string, arguments: seq<Value>, thrown: string)
    | ControllerFailed(cause: HandlerError, className: string, request: string)
}
