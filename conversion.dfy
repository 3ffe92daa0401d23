/**
 * `MethodHandler.parseParameter`: turning the text of a path parameter (or
 * of an annotation's default value) into a value of the parameter's
 * declared type.
 */
module Conversion {
  import opened Wrappers
  import opened JavaText
  import opened Values

  /** The position of the first element of `s` equal to `x`, if any. */
  function IndexOf(s: seq<string>, x: string): (r: Option<nat>)
    ensures r.Some? ==> r.value < |s| && s[r.value] == x
    ensures r.Some? ==> forall k :: 0 <= k < r.value ==> s[k] != x
    ensures r.None? ==> x !in s
  {
    if s == [] then None
    else if s[0] == x then Some(0)
    else match IndexOf(s[1..], x)
      case None => None
      case Some(i) => Some(i + 1)
  }

  /** `v` is a value of the declared type `t`. */
  predicate HasType(v: Value, t: ParamType) {
    match t
    case EnumType(name, constants) => v.EnumValue? && v.enumName == name && v.ordinal < |constants|
    case IntType => v.IntValue? && INT_MIN <= v.i <= INT_MAX
    case LongType => v.LongValue? && LONG_MIN <= v.l <= LONG_MAX
    case FloatType => v.FloatValue?
    case DoubleType => v.DoubleValue?
    case BoolType => v.BoolValue?
    case StringType => v.StrValue?
    case OtherType(_) => false
  }

  /**
   * What `parseParameter(type, value)` returns or throws. An enum value
   * that reads as an integer selects the constant with that ordinal; a
   * value that is not an integer selects the first constant whose text is
   * equal to it. An integer that is no ordinal, and an enum without
   * constants, end in the "unsupported parameter type" error.
   */
  function Convert(t: ParamType, value: string): (r: Result<Value, HandlerError>)
    ensures r.Success? ==> HasType(r.value, t)
    ensures t.StringType? ==> r == Success(StrValue(value))
    ensures t.OtherType? ==> r == Failure(UnsupportedParameterType(t.typeName))
  {
    match t
    case EnumType(name, constants) =>
      if |constants| == 0 then Failure(UnsupportedParameterType(name))
      else (
        match ParseInt(value)
        case Some(n) =>
          if 0 <= n < |constants| then Success(EnumValue(name, n))
          else Failure(UnsupportedParameterType(name))
        case None =>
          match IndexOf(constants, value)
          case Some(i) => Success(EnumValue(name, i))
          case None => Failure(NoEnumConstant(name, value)))
    case IntType =>
      (match ParseInt(value)
       case Some(n) => Success(IntValue(n))
       case None => Failure(NumberFormat(value)))
    case LongType =>
      (match ParseLong(value)
       case Some(n) => Success(LongValue(n))
       case None => Failure(NumberFormat(value)))
    case FloatType => Success(FloatValue(value))
    case DoubleType => Success(DoubleValue(value))
    case BoolType => Success(BoolValue(ParseBoolean(value)))
    case StringType => Success(StrValue(value))
    case OtherType(name) => Failure(UnsupportedParameterType(name))
  }

  /**
   * `parseParameter`, step by step: the ordinal search calls `parseInt`
   * once per constant, the name search runs only after a
   * NumberFormatException, and an enum value that leaves the `try` block
   * falls through the unchained type tests to the final error.
   */
  method ParseParameter(t: ParamType, value: string) returns (r: Result<Value, HandlerError>)
    ensures r == Convert(t, value)
  {
    if t.EnumType? {
      var constants := t.constants;
      var i := 0;
      var numberFormatFailed := false;
      while i < |constants| && !numberFormatFailed
        invariant 0 <= i <= |constants|
        invariant numberFormatFailed ==> ParseInt(value).None?
        invariant numberFormatFailed ==> |constants| > 0
        invariant !numberFormatFailed && i > 0 ==>
          ParseInt(value).Some? && !(0 <= ParseInt(value).value < i)
        decreases |constants| - i, !numberFormatFailed
      {
        var parsed := ParseInt(value);
        if parsed.None? {
          numberFormatFailed := true;
        } else if parsed.value == i {
          return Success(EnumValue(t.enumName, i));
        } else {
          i := i + 1;
        }
      }
      if numberFormatFailed {
        var j := 0;
        while j < |constants|
          invariant 0 <= j <= |constants|
          invariant forall k :: 0 <= k < j ==> constants[k] != value
        {
          if constants[j] == value {
            return Success(EnumValue(t.enumName, j));
          }
          j := j + 1;
        }
        return Failure(NoEnumConstant(t.enumName, value));
      }
    } else if t.IntType? {
      var parsed := ParseInt(value);
      if parsed.None? {
        return Failure(NumberFormat(value));
      }
      return Success(IntValue(parsed.value));
    }
    if t.LongType? {
      var parsed := ParseLong(value);
      if parsed.None? {
        return Failure(NumberFormat(value));
      }
      return Success(LongValue(parsed.value));
    }
    if t.FloatType? {
      return Success(FloatValue(value));
    }
    if t.DoubleType? {
      return Success(DoubleValue(value));
    } else if t.BoolType? {
      return Success(BoolValue(ParseBoolean(value)));
    } else if t.StringType? {
      return Success(StrValue(value));
    } else {
      return Failure(UnsupportedParameterType(if t.EnumType? then t.enumName else t.typeName));
    }
  }

  /** An int parameter reads back every in-range number from its canonical text. */
  lemma ConvertIntRoundTrip(n: int)
    requires INT_MIN <= n <= INT_MAX
    ensures Convert(IntType, IntegerString(n)) == Success(IntValue(n))
  {
    ParseRoundTrip(n, INT_MIN, INT_MAX);
  }

  /** A long parameter reads back every in-range number from its canonical text. */
  lemma ConvertLongRoundTrip(n: int)
    requires LONG_MIN <= n <= LONG_MAX
    ensures Convert(LongType, IntegerString(n)) == Success(LongValue(n))
  {
    ParseRoundTrip(n, LONG_MIN, LONG_MAX);
  }

  /** Converting a converted int's canonical text again gives the same value. */
  lemma ConvertIntIdempotent(text: string)
    requires Convert(IntType, text).Success?
    ensures Convert(IntType, IntegerString(Convert(IntType, text).value.i)) == Convert(IntType, text)
  {
    ConvertIntRoundTrip(Convert(IntType, text).value.i);
  }

  /** A boolean parameter reads back both booleans from their canonical text. */
  lemma ConvertBoolRoundTrip(b: bool)
    ensures Convert(BoolType, BooleanString(b)) == Success(BoolValue(b))
  {
  }

  /** The decimal text of an ordinal selects the constant at that ordinal. */
  lemma ConvertEnumByOrdinal(name: string, constants: seq<string>, n: nat)
    requires n < |constants|
    requires n <= INT_MAX  // an ordinal is a Java int
    ensures Convert(EnumType(name, constants), IntegerString(n)) == Success(EnumValue(name, n))
  {
    ParseRoundTrip(n, INT_MIN, INT_MAX);
  }

  /**
   * The text of a constant that does not read as an integer, and that no
   * earlier constant shares, selects that constant.
   */
  lemma ConvertEnumByName(name: string, constants: seq<string>, i: nat)
    requires i < |constants| && ParseInt(constants[i]).None?
    requires forall k :: 0 <= k < i ==> constants[k] != constants[i]
    ensures Convert(EnumType(name, constants), constants[i]) == Success(EnumValue(name, i))
  {
  }

  /**
   * An enum conversion fails exactly when there are no constants, when the
   * value is an integer that is no ordinal, or when it is neither an
   * integer nor the text of any constant; and the error says which.
   */
  lemma ConvertEnumFailure(name: string, constants: seq<string>, value: string)
    ensures Convert(EnumType(name, constants), value).Failure? <==>
      (|constants| == 0
       || (ParseInt(value).Some? && !(0 <= ParseInt(value).value < |constants|))
       || (ParseInt(value).None? && value !in constants))
    ensures Convert(EnumType(name, constants), value).Failure? ==>
      Convert(EnumType(name, constants), value).error ==
        if |constants| > 0 && ParseInt(value).None? then NoEnumConstant(name, value)
        else UnsupportedParameterType(name)
  {
  }

  /** Four example cases for an enum with the constants `{A, B, C}`. */
  lemma ConvertEnumExamples()
    ensures Convert(EnumType("Letter", ["A", "B", "C"]), "1") == Success(EnumValue("Letter", 1))
    ensures Convert(EnumType("Letter", ["A", "B", "C"]), "C") == Success(EnumValue("Letter", 2))
    ensures Convert(EnumType("Letter", ["A", "B", "C"]), "Z") == Failure(NoEnumConstant("Letter", "Z"))
    ensures Convert(EnumType("Letter", ["A", "B", "C"]), "7") == Failure(UnsupportedParameterType("Letter"))
  {
    assert "1"[..0] == "";
    assert "7"[..0] == "";
    assert ParseInt("1") == Some(1);
    assert ParseInt("7") == Some(7);
    assert !IsDigit("C"[0]) && !IsDigit("Z"[0]);
    assert ["A", "B", "C"][1..] == ["B", "C"];
    assert ["B", "C"][1..] == ["C"];
    assert ["C"][1..] == [];
  }
}
