# request-handler, modelled in Dafny

`request-handler` is a small Java router. A controller object's methods carry
`@RequestMapping(path)` annotations, and its class may carry one too.
`RequestHandler.registerController` stores one method handler per annotated
method. The map key is the route key: the class path, then the method path,
each ending in `/`.

`handleRequest(request, controllerParameters)` works on a request string such
as `sum/a=5/b=10`:

- It splits the request at `/`.
- Each segment without `=` is added to the route key, followed by `/`.
- Each segment `name=value` becomes an inline path parameter.
- It looks the route key up, binds the method's formal parameters and invokes
  the method:
  - `@RequestParam` parameters come from the path parameters. Their text is
    converted by `parseParameter` to an enum, int, long, float, double,
    boolean or string.
  - `@ControllerParam` parameters come from the caller's map.
  - Unannotated parameters get `null`.

`RequestBuilder` writes such request strings from a list of paths and a
parameter map.

The model is split by module:

- `JavaText` models the Java library behaviour the router depends on:
  - `String.split` with a one-character separator, which drops trailing
    empty strings and keeps leading ones;
  - `Integer.parseInt` and `Long.parseLong`;
  - `Boolean.parseBoolean`.
- `Values` holds the declared parameter types, the run-time values and the
  error kinds.
- `Conversion` models `parseParameter`:
  - `Convert` is the specification;
  - `ParseParameter` is the step-by-step method, proved equal to it.
- `MethodHandlers` models the rest of `MethodHandler`:
  - the route-key constructor;
  - parameter binding;
  - `handle`.
- `RequestHandlers` models the request parser and the registry. It also holds
  the `RequestHandler` class, whose `handlers` map its methods update.
- `RequestBuilders` holds the `RequestBuilder` class, with `paths` and
  `parameters` fields.
- `RoundTrip` proves that the handler's parser reads back what the builder
  writes.

Reflection is replaced by explicit descriptors:

- a `Controller` holds the class name, the optional class mapping and the
  methods in the order `getDeclaredMethods` lists them;
- a `MethodDecl` holds the method name, the optional mapping and the formal
  parameters;
- a `Parameter` holds the name, the declared type and the optional
  `@RequestParam`/`@ControllerParam` annotation.

`Method.invoke` is a parameter `invoke` of the operations that call it. It
either returns a value or throws, and a throw is wrapped as the router wraps
it. Exceptions are values of `HandlerError`. Its constructors are:

- one per `RequestHandlerException` the router throws, each carrying what its
  message names: the route key, the parameter name, the enum type and value,
  the type name, the method name with its arguments and the invocation's
  exception, or the cause with the class name and request;
- `NumberFormat`, Java's own `NumberFormatException` from `Integer.parseInt`
  or `Long.parseLong`, which the router does not catch for int and long
  parameters.

Three behaviours of the code that a reader of the router's usage might not
expect, each proved about the model:

- **Route keys need the leading `/`.** A method mapped to `/sum` has the route
  key `/sum/`. The request `sum/a=5/b=10` parses to the route key `sum/`, so it
  does not reach that method; `/sum/a=5/b=10` does. Likewise a builder given
  the path `sum` cannot reach it (`RoundTrip.SumRequest`), and one given
  `/sum` can (`RoundTrip.SlashSumRequest`).
- **An inline parameter is split at every `=`, not only the first.**
  `a=b=c` gives three parts and is dropped. `a=b=` gives two parts, because
  the trailing empty string is removed, and so sets `a` to `b`.
- **A method path `""` under a class path `P` gets the key `P//`** (or `P/`
  when `P` already ends in `/`, which still ends in `//`). Only a request
  with at least one `name=value` segment can parse to a route key ending in
  `//` (`RequestHandlers.EmptyMethodPathNeedsParameter`).

## Model

| member | source | states |
|---|---|---|
| `JavaText.Split` | src/main/java/com/kaba4cow/requesthandler/RequestHandler.java:86-90 | `String.split` at a one-character separator: no part contains the separator; text without it is the single part; otherwise the last part, if any, is non-empty (trailing empty strings are removed) |
| `JavaText.Pieces` | src/main/java/com/kaba4cow/requesthandler/RequestHandler.java:86 | the raw pieces between separators, before trailing empties are removed: at least one, none containing the separator, and joined with the separator they give back the text |
| `JavaText.DropTrailingEmpty` | src/main/java/com/kaba4cow/requesthandler/RequestHandler.java:86 | the result is a prefix of the pieces ending in a non-empty piece (or empty), and everything removed is an empty string |
| `JavaText.SplitTerminated` | src/main/java/com/kaba4cow/requesthandler/RequestHandler.java:86 | splitting `s1/s2/.../` (separator-free segments, the last one non-empty) gives back exactly the segments, empty ones included; the empty text splits into one empty string |
| `JavaText.TerminatedConcat` | src/main/java/com/kaba4cow/requesthandler/RequestBuilder.java:65-69 | writing each segment followed by the separator distributes over concatenation of segment lists |
| `JavaText.PiecesAfterSegment` | src/main/java/com/kaba4cow/requesthandler/RequestHandler.java:86 | splitting `a` + separator + `b` (with `a` separator-free) peels off exactly `a` |
| `JavaText.PiecesOfTerminated` | src/main/java/com/kaba4cow/requesthandler/RequestHandler.java:86 | the raw pieces of `s1/.../sn/` are the segments followed by one empty piece |
| `JavaText.ParseBounded` | src/main/java/com/kaba4cow/requesthandler/RequestHandler.java:228 | `Integer.parseInt`/`Long.parseLong`: succeeds if and only if the text is an optional sign followed by at least one decimal digit and its signed value lies within the type's bounds, and then returns that value; anything else is the NumberFormatException (`None`) |
| `JavaText.TextValueOfIntegerString` | src/main/java/com/kaba4cow/requesthandler/RequestHandler.java:236-239 | the canonical decimal text of every integer is integer text whose signed value is that integer |
| `JavaText.ParseOutOfRange` | src/main/java/com/kaba4cow/requesthandler/RequestHandler.java:236-239 | the text of an integer outside the type's bounds is the NumberFormatException (overflow is never wrapped) |
| `JavaText.IntOverflow` | src/main/java/com/kaba4cow/requesthandler/RequestHandler.java:236-239 | `2147483648` fails as an int but is read as a long |
| `JavaText.ParseRoundTrip` | src/main/java/com/kaba4cow/requesthandler/RequestHandler.java:237-239 | every in-range integer is parsed back from its canonical text |
| `JavaText.BooleanRoundTrip` | src/main/java/com/kaba4cow/requesthandler/RequestHandler.java:244-245 | `Boolean.parseBoolean` reads back both booleans from their text |
| `JavaText.ParseBoolean` | src/main/java/com/kaba4cow/requesthandler/RequestHandler.java:244-245 | `Boolean.parseBoolean`: true if and only if the text equals `true` ignoring (ASCII) case, so false for any text not four characters long; it never fails |
| `JavaText.ParseBooleanExamples` | src/main/java/com/kaba4cow/requesthandler/RequestHandler.java:244-245 | `TRUE`, `True` and `tRuE` read as true; `yes`, `1`, the empty text, `false`, `true ` and ` true` read as false |
| `Conversion.IndexOf` | src/main/java/com/kaba4cow/requesthandler/RequestHandler.java:231-233 | the search over enum constant names: the first index holding the value, or none when no constant has that text |
| `Conversion.Convert` | src/main/java/com/kaba4cow/requesthandler/RequestHandler.java:224-249 | `parseParameter`: a success has the declared type (an enum ordinal below the constant count, an int or long within its bounds, ...); a string is returned unchanged; any other type fails with "unsupported parameter type" |
| `Conversion.ParseParameter` | src/main/java/com/kaba4cow/requesthandler/RequestHandler.java:224-249 | the step-by-step control flow (ordinal loop calling `parseInt` per constant, the name search only after NumberFormatException, the fall-through of an enum to the final throw) returns exactly what `Convert` specifies |
| `Conversion.ConvertIntRoundTrip` | src/main/java/com/kaba4cow/requesthandler/RequestHandler.java:236-237 | an int parameter reads back every 32-bit integer from its text |
| `Conversion.ConvertLongRoundTrip` | src/main/java/com/kaba4cow/requesthandler/RequestHandler.java:238-239 | a long parameter reads back every 64-bit integer from its text |
| `Conversion.ConvertIntIdempotent` | src/main/java/com/kaba4cow/requesthandler/RequestHandler.java:236-237 | converting the canonical text of a converted int gives the same result again |
| `Conversion.ConvertBoolRoundTrip` | src/main/java/com/kaba4cow/requesthandler/RequestHandler.java:244-245 | a boolean parameter reads back both booleans from their text |
| `Conversion.ConvertEnumByOrdinal` | src/main/java/com/kaba4cow/requesthandler/RequestHandler.java:226-229 | the decimal text of an ordinal selects the constant with that ordinal |
| `Conversion.ConvertEnumByName` | src/main/java/com/kaba4cow/requesthandler/RequestHandler.java:230-233 | the text of a constant that does not read as an integer selects the first constant with that text |
| `Conversion.ConvertEnumFailure` | src/main/java/com/kaba4cow/requesthandler/RequestHandler.java:224-249 | an enum conversion fails if and only if there are no constants, or the value is an integer that is no ordinal, or it is neither an integer nor a constant's text; the error is "no enum constant" in the last case and "unsupported parameter type" otherwise |
| `Conversion.ConvertEnumExamples` | src/main/java/com/kaba4cow/requesthandler/RequestHandler.java:224-249 | for constants `A, B, C`: `1` selects `B`, `C` selects `C`, `Z` fails with "no enum constant", `7` fails with "unsupported parameter type" |
| `MethodHandlers.WithTrailingSlash` | src/main/java/com/kaba4cow/requesthandler/RequestHandler.java:176-177 | the result ends with `/`, extends the text by at most that one character, and is the text itself when it already ends with `/` |
| `MethodHandlers.RouteKey` | src/main/java/com/kaba4cow/requesthandler/RequestHandler.java:175-185 | every route key ends with `/`; it is the normalised method path, preceded by the normalised class path when the class is mapped |
| `MethodHandlers.NewMethodHandler` | src/main/java/com/kaba4cow/requesthandler/RequestHandler.java:172-186 | the constructor keeps the instance and method and computes, step by step, a path equal to the route key, ending with `/` |
| `MethodHandlers.RouteKeyNormalised` | src/main/java/com/kaba4cow/requesthandler/RequestHandler.java:175-185 | normalising a route key again changes nothing |
| `MethodHandlers.RouteKeyWithClassPath` | src/main/java/com/kaba4cow/requesthandler/RequestHandler.java:178-183 | with a class path the key starts with the class path, its length counts exactly one added `/` per part lacking one, and a method path `""` makes the key end in `//` |
| `MethodHandlers.BindParameter` | src/main/java/com/kaba4cow/requesthandler/RequestHandler.java:197-214 | an unannotated parameter binds to `null`; a missing-path-parameter error arises only for a required `@RequestParam` whose name the path lacks and names it; a missing-controller-parameter error likewise for a required `@ControllerParam` the caller's map lacks; a `@ControllerParam` the map holds binds to the caller's value unchanged |
| `MethodHandlers.BindArguments` | src/main/java/com/kaba4cow/requesthandler/RequestHandler.java:194-215 | a success has one argument per formal parameter; a failure is the error of some parameter's own binding |
| `MethodHandlers.BindArgumentsSuccess` | src/main/java/com/kaba4cow/requesthandler/RequestHandler.java:194-215 | binding succeeds if and only if every parameter binds, and then yields exactly one argument per formal parameter, in declaration order, each the one its parameter binds to |
| `MethodHandlers.BindArgumentsFirstFailure` | src/main/java/com/kaba4cow/requesthandler/RequestHandler.java:194-215 | binding fails with the error of the first parameter that fails |
| `MethodHandlers.BoundArgument` | src/main/java/com/kaba4cow/requesthandler/RequestHandler.java:197-214 | argument `i` is the converted path value, or the converted default of a non-required `@RequestParam`; the caller's value unchanged, or the converted default of a non-required `@ControllerParam`; and `null` for an unannotated parameter |
| `MethodHandlers.MissingRequiredParameter` | src/main/java/com/kaba4cow/requesthandler/RequestHandler.java:199-210 | a required parameter that its source lacks makes binding fail, with an error naming it when every earlier parameter binds |
| `MethodHandlers.BindingExamples` | src/main/java/com/kaba4cow/requesthandler/RequestHandler.java:194-215 | `sum(@RequestParam int a, @RequestParam int b)` with `a=5`, `b=10` receives `(5, 10)`; a method without parameters receives no arguments |
| `MethodHandlers.Complete` | src/main/java/com/kaba4cow/requesthandler/RequestHandler.java:216-221 | a binding failure passes through with nothing invoked; a returned value is the result; an exception thrown by the invocation becomes "could not invoke" with the method name, the bound arguments and that exception |
| `MethodHandlers.Handle` | src/main/java/com/kaba4cow/requesthandler/RequestHandler.java:188-222 | a name supplied both by the caller and in the path fails with a duplicate-parameter error naming such a name, before binding; otherwise the outcome is binding then invoking, an invocation exception becoming "could not invoke" with the method and the arguments |
| `RequestHandlers.RouteOf` | src/main/java/com/kaba4cow/requesthandler/RequestHandler.java:85-94 | a route key built from split parts never contains `=` |
| `RequestHandlers.PlainParts` | src/main/java/com/kaba4cow/requesthandler/RequestHandler.java:89-94 | the parts that contribute to the route key contain no `=` |
| `RequestHandlers.RouteOfPlainParts` | src/main/java/com/kaba4cow/requesthandler/RequestHandler.java:85-94 | the route key is the in-order concatenation of `part + "/"` over the split parts without `=` |
| `RequestHandlers.ParametersFrom` | src/main/java/com/kaba4cow/requesthandler/RequestHandler.java:88-92 | reading inline parameters never removes a name already present (see `LastParameterWins`, `UnnamedParameterAbsent` and `ParametersLackEquals` for the values) |
| `RequestHandlers.ParametersLackEquals` | src/main/java/com/kaba4cow/requesthandler/RequestHandler.java:89-92 | every name and value the parts add contains no `=` |
| `RequestHandlers.ParametersFromConcat` | src/main/java/com/kaba4cow/requesthandler/RequestHandler.java:88-92 | reading inline parameters from two runs of parts is reading the first, then the second on top |
| `RequestHandlers.ParametersFromPlain` | src/main/java/com/kaba4cow/requesthandler/RequestHandler.java:88-94 | parts without `=` leave the inline parameters unchanged |
| `RequestHandlers.LastParameterWins` | src/main/java/com/kaba4cow/requesthandler/RequestHandler.java:89-92 | a name maps to the value of the last well-formed `name=value` part naming it |
| `RequestHandlers.UnnamedParameterAbsent` | src/main/java/com/kaba4cow/requesthandler/RequestHandler.java:89-92 | a name that no well-formed part names is not added; a part whose `=`-split does not give exactly two parts is dropped |
| `RequestHandlers.SplitPartsLack` | src/main/java/com/kaba4cow/requesthandler/RequestHandler.java:86 | a character absent from the request is absent from all its split parts |
| `RequestHandlers.SplitLastPart` | src/main/java/com/kaba4cow/requesthandler/RequestHandler.java:86 | a split is empty, a single empty part, or ends with a non-empty part |
| `RequestHandlers.PlainRequestRoute` | src/main/java/com/kaba4cow/requesthandler/RequestHandler.java:85-94 | a request without `=` parses to the route key `""` or `/`, or to one that never ends in `//` |
| `RequestHandlers.PlainPartsOfPlain` | src/main/java/com/kaba4cow/requesthandler/RequestHandler.java:89-94 | when no part contains `=`, every part contributes to the route key |
| `RequestHandlers.EmptyMethodPathNeedsParameter` | src/main/java/com/kaba4cow/requesthandler/RequestHandler.java:175-185 | a method mapped to `""` under a mapped class is reached by no request without a `name=value` segment |
| `RequestHandlers.ParseRequest` | src/main/java/com/kaba4cow/requesthandler/RequestHandler.java:85-94 | the parsing loop of `handleRequest` computes exactly the route key `ParsedRoute` and the inline parameters `ParsedParameters` of the request |
| `RequestHandlers.Register` | src/main/java/com/kaba4cow/requesthandler/RequestHandler.java:47-54 | registration keeps every existing key, and stores each key it adds with a handler whose path is that `/`-terminated key and whose instance is the controller (see `RegisterKeys`, `RegisterKeepsOthers` and `RegisterLastWins`) |
| `RequestHandlers.RegisterKeys` | src/main/java/com/kaba4cow/requesthandler/RequestHandler.java:47-54 | registration adds exactly the route keys of the annotated methods to the existing keys |
| `RequestHandlers.RegisterKeepsOthers` | src/main/java/com/kaba4cow/requesthandler/RequestHandler.java:47-54 | every entry whose key registration does not compute is left unchanged |
| `RequestHandlers.RegisterLastWins` | src/main/java/com/kaba4cow/requesthandler/RequestHandler.java:49-52 | the last annotated method with a given route key is the one registered under it |
| `RequestHandlers.RegisterWellFormed` | src/main/java/com/kaba4cow/requesthandler/RequestHandler.java:47-54 | registration keeps every handler stored under its own `/`-terminated route key |
| `RequestHandlers.WrapFailure` | src/main/java/com/kaba4cow/requesthandler/RequestHandler.java:96-101 | a handler's result passes through; its failure becomes "controller could not handle request" carrying that failure as cause, the controller's class name and the request |
| `RequestHandlers.RequestHandler.constructor` | src/main/java/com/kaba4cow/requesthandler/RequestHandler.java:35-38 | a new router has no handlers |
| `RequestHandlers.RequestHandler.RegisterController` | src/main/java/com/kaba4cow/requesthandler/RequestHandler.java:47-54 | the new registry is the old one with a handler put under each annotated method's route key, in method order, and stays well formed |
| `RequestHandlers.RequestHandler.HandleRequest` | src/main/java/com/kaba4cow/requesthandler/RequestHandler.java:82-104 | an unknown parsed route key fails with "no controller found" carrying that key, and nothing is invoked; otherwise the handler stored under that key (whose path is the key) handles the request, with a failure wrapped with the controller's class name and the request (a duplicate parameter included) |
| `RequestHandlers.RequestHandler.HandleSimpleRequest` | src/main/java/com/kaba4cow/requesthandler/RequestHandler.java:66-69 | the same with an empty caller map |
| `RequestBuilders.ParameterSegments` | src/main/java/com/kaba4cow/requesthandler/RequestBuilder.java:67-69 | one `name=value` part per visited name, in visiting order, with that name's value |
| `RequestBuilders.RequestText` | src/main/java/com/kaba4cow/requesthandler/RequestBuilder.java:64-70 | the text starts with every path followed by `/`; it is empty if and only if there are no paths and no parameters, and otherwise ends with `/` (see `RoundTrip.BuildThenParse` for how it reads back) |
| `RequestBuilders.RequestTextAppend` | src/main/java/com/kaba4cow/requesthandler/RequestBuilder.java:67-69 | visiting one more parameter appends its `name=value/` to the text |
| `RequestBuilders.RequestBuilder.constructor` | src/main/java/com/kaba4cow/requesthandler/RequestBuilder.java:20-23 | a new builder has no paths and no parameters |
| `RequestBuilders.RequestBuilder.CopyOf` | src/main/java/com/kaba4cow/requesthandler/RequestBuilder.java:25-28 | the copy constructor takes over the paths and the parameters |
| `RequestBuilders.RequestBuilder.Path` | src/main/java/com/kaba4cow/requesthandler/RequestBuilder.java:39-43 | appends the path at the end of the paths, leaves the parameters, and returns the builder itself |
| `RequestBuilders.RequestBuilder.Parameter` | src/main/java/com/kaba4cow/requesthandler/RequestBuilder.java:53-56 | sets the name to the value, overwriting any earlier value, leaves the paths, and returns the builder itself |
| `RequestBuilders.RequestBuilder.Build` | src/main/java/com/kaba4cow/requesthandler/RequestBuilder.java:63-71 | the text starts with every path followed by `/` in insertion order, then has one `name=value/` per parameter, visiting every name exactly once in some order; the builder is not changed |
| `RequestBuilders.RequestBuilder.Copy` | src/main/java/com/kaba4cow/requesthandler/RequestBuilder.java:78-80 | a new builder, distinct from this one, with equal paths and parameters |
| `RequestBuilders.CopyThenDiverge` | src/main/java/com/kaba4cow/requesthandler/RequestBuilder.java:25-28 | after copying, a path added to the copy and a parameter set on the original each show up only in the builder that received them |
| `RequestBuilders.EmptyRequest` | src/main/java/com/kaba4cow/requesthandler/RequestBuilder.java:20-23 | a new builder builds the empty request |
| `RoundTrip.SplitParameterSegment` | src/main/java/com/kaba4cow/requesthandler/RequestHandler.java:89-92 | the `name=value` part the builder writes splits at `=` into exactly the name and the value |
| `RoundTrip.RouteOfConcat` | src/main/java/com/kaba4cow/requesthandler/RequestHandler.java:88-94 | the route key of two runs of parts is the concatenation of their route keys |
| `RoundTrip.RouteOfParameterParts` | src/main/java/com/kaba4cow/requesthandler/RequestHandler.java:89-92 | parts containing `=` add nothing to the route key |
| `RoundTrip.ParametersOfSegments` | src/main/java/com/kaba4cow/requesthandler/RequestHandler.java:89-92 | the builder's parameter parts parse back to the visited names with their values |
| `RoundTrip.ParameterPartsShape` | src/main/java/com/kaba4cow/requesthandler/RequestBuilder.java:67-69 | every parameter part the builder writes contains `=` and no `/` |
| `RoundTrip.SplitRequestText` | src/main/java/com/kaba4cow/requesthandler/RequestHandler.java:86 | the handler splits a built request back into the builder's paths followed by its parameter parts |
| `RoundTrip.RouteOfBuiltParts` | src/main/java/com/kaba4cow/requesthandler/RequestHandler.java:85-94 | the route key of a built request is its paths, each followed by `/` |
| `RoundTrip.ParametersOfBuiltParts` | src/main/java/com/kaba4cow/requesthandler/RequestHandler.java:85-94 | the inline parameters of a built request are exactly the builder's parameters |
| `RoundTrip.BuildThenParse` | src/main/java/com/kaba4cow/requesthandler/RequestBuilder.java:63-71 | for paths and non-empty names and values that contain neither `/` nor `=`, where the request does not end in an empty path, parsing `build()` gives the route key `p1/.../pn/` (an empty path adds a bare `/`) and exactly the builder's parameters, whatever order `build` visits them in; the empty builder's request has the route key `/` |
| `RoundTrip.SumRequest` | src/main/java/com/kaba4cow/requesthandler/RequestBuilder.java:63-71 | `path("sum")` with `a=5`, `b=10` parses to the route key `sum/` with those parameters |
| `RoundTrip.SlashSumRequest` | src/main/java/com/kaba4cow/requesthandler/RequestBuilder.java:63-71 | `path("/sum")` with `a=5`, `b=10` parses to the route key `/sum/` of a method mapped to `/sum`, with those parameters |

## Left out

- `handleAsyncRequest`, `shutdown`, the worker thread pool and its thread factory are left out. They are concurrency plumbing around `handleRequest`.
- Reflection is replaced by the `Controller`, `MethodDecl` and `Parameter` descriptors. That covers `getDeclaredMethods`, whose order Java leaves unspecified and which the descriptor fixes as a list, `getParameters` and `getAnnotation`.
- `Method.invoke` is the caller-supplied `invoke` function; only the wrapping of its exception is modelled.
- `ControllerParam.java` is not part of this model. Its annotation is assumed to have `required` (default `true`) and `defaultValue` (default `""`), like `@RequestParam`.
- `Conversion.Convert`: float and double conversion is symbolic. The value keeps the text, and the NumberFormatException of `Float.parseFloat`/`Double.parseDouble` on a malformed literal is not modelled, because the model has no floating-point parsing.
- `Conversion.ParseParameter`: the same symbolic float and double conversion, for the same reason.
- `JavaText.ParseBounded`: only ASCII digits are accepted. Java also accepts other Unicode decimal digits, which the router's requests do not need.
- The text of exception messages (`String.format`) and `toString` of builders and values are not modelled. Errors are `HandlerError` values, and parameter values of the builder are held as the text their `toString` gives.
- The null checks of `Objects.requireNonNull` and `ConcurrentHashMap` are not modelled, because the model has no null references. For the same reason the builder's filter on null values is not modelled: the map rejects null values, so the filter never skips anything.
- Thread safety of the concurrent maps is left out.
- `RequestBuilders.RequestBuilder.Build`: the order in which the map's entries are visited is not fixed. The contract says only that every name is visited exactly once.
- `MethodHandlers.Handle`: when several names are duplicated, which one is reported depends on hash-map iteration order. The contract says only that the reported name is supplied by both sources.
- `RequestHandlers.RequestHandler.HandleRequest`: the same applies to the duplicated name it reports.
- `RequestHandlers.RegisterLastWins`: the winner is the last method with that key in the descriptor's list. Java does not specify the order `getDeclaredMethods` returns, so which of several methods sharing a route key the router keeps is not fixed by the source.
- `JavaText.ParseBoolean`: case is ignored for ASCII letters only. Java's `equalsIgnoreCase` also folds other Unicode letters, none of which can spell `true`.
