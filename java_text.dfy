/**
 * The pieces of java.lang.String and of the boxed-number parsers that the
 * router relies on: `split` with a one-character separator, `endsWith`,
 * `Integer.parseInt`, `Long.parseLong` and `Boolean.parseBoolean`.
 */
module JavaText {
  import opened Wrappers

  /** `s.endsWith(String.valueOf(c))`. */
  predicate EndsWith(s: string, c: char) {
    |s| > 0 && s[|s| - 1] == c
  }

  // ---------------------------------------------------------------------
  // String.split with a single, non-meta separator character
  // ---------------------------------------------------------------------

  /** Glues pieces back together with `sep` between neighbours. */
  function Join(pieces: seq<string>, sep: char): string
    requires |pieces| > 0
  {
    if |pieces| == 1 then pieces[0] else pieces[0] + [sep] + Join(pieces[1..], sep)
  }

  /**
   * Every piece of `s` between occurrences of `sep`, empty pieces included:
   * the raw result of a split before Java drops the trailing empty strings.
   */
  function Pieces(s: string, sep: char): (r: seq<string>)
    ensures |r| > 0
    ensures forall i :: 0 <= i < |r| ==> sep !in r[i]
    ensures Join(r, sep) == s
  {
    if s == [] then [""]
    else
      var rest := Pieces(s[1..], sep);
      if s[0] == sep then
        assert [s[0]] + s[1..] == s;
        [""] + rest
      else
        var r := [[s[0]] + rest[0]] + rest[1..];
        assert Join(r, sep) == s by {
          if |rest| > 1 {
            assert Join(rest, sep) == rest[0] + [sep] + Join(rest[1..], sep);
            assert r[1..] == rest[1..];
            assert [s[0]] + rest[0] + [sep] + Join(rest[1..], sep) == [s[0]] + Join(rest, sep);
          }
          assert [s[0]] + s[1..] == s;
        }
        r
  }

  /** Removes the empty strings at the end of a piece list. */
  function DropTrailingEmpty(pieces: seq<string>): (r: seq<string>)
    ensures |r| <= |pieces| && r == pieces[..|r|]
    ensures r == [] || r[|r| - 1] != ""
    ensures forall i :: |r| <= i < |pieces| ==> pieces[i] == ""
  {
    if pieces == [] then []
    else if pieces[|pieces| - 1] == "" then DropTrailingEmpty(pieces[..|pieces| - 1])
    else pieces
  }

  /**
   * `s.split(String.valueOf(sep))`: when `sep` does not occur the result is
   * `s` itself (so `"".split("/")` is `[""]`); otherwise it is every piece
   * between separators, with trailing empty pieces removed and leading ones
   * kept (so `"/".split("/")` is empty and `"a=".split("=")` is `["a"]`).
   */
  function Split(s: string, sep: char): (r: seq<string>)
    ensures forall i :: 0 <= i < |r| ==> sep !in r[i]
    ensures sep !in s ==> r == [s]
    ensures sep in s ==> r == [] || r[|r| - 1] != ""
  {
    if sep !in s then [s] else DropTrailingEmpty(Pieces(s, sep))
  }

  /** Each segment followed by the separator, in order: `seg1/seg2/.../`. */
  function Terminated(segments: seq<string>, sep: char): string
  {
    if segments == [] then ""
    else Terminated(segments[..|segments| - 1], sep) + segments[|segments| - 1] + [sep]
  }

  lemma {:induction false} TerminatedConcat(a: seq<string>, b: seq<string>, sep: char)
    ensures Terminated(a + b, sep) == Terminated(a, sep) + Terminated(b, sep)
    decreases |b|
  {
    if b == [] {
      assert a + b == a;
    } else {
      var b' := b[..|b| - 1];
      assert (a + b)[..|a + b| - 1] == a + b';
      TerminatedConcat(a, b', sep);
    }
  }

  /** Splitting at a separator peels off exactly the text before it. */
  lemma {:induction false} PiecesAfterSegment(a: string, b: string, sep: char)
    requires sep !in a
    ensures Pieces(a + [sep] + b, sep) == [a] + Pieces(b, sep)
    decreases |a|
  {
    var s := a + [sep] + b;
    if a == [] {
      assert s[0] == sep && s[1..] == b;
    } else {
      assert s[0] == a[0] && s[1..] == a[1..] + [sep] + b;
      PiecesAfterSegment(a[1..], b, sep);
      assert [a[0]] + a[1..] == a;
    }
  }

  lemma {:induction false} PiecesOfTerminated(segments: seq<string>, sep: char)
    requires forall i :: 0 <= i < |segments| ==> sep !in segments[i]
    ensures Pieces(Terminated(segments, sep), sep) == segments + [""]
    decreases |segments|
  {
    if segments != [] {
      var tail := segments[1..];
      TerminatedConcat([segments[0]], tail, sep);
      assert [segments[0]] + tail == segments;
      assert Terminated([segments[0]], sep) == segments[0] + [sep] by {
        assert [segments[0]][..0] == [];
      }
      PiecesAfterSegment(segments[0], Terminated(tail, sep), sep);
      PiecesOfTerminated(tail, sep);
    }
  }

  /**
   * Splitting text made of separator-free segments, each followed by the
   * separator, gives back exactly those segments when the last one is not
   * empty (earlier ones may be); the empty text splits into one empty string.
   */
  lemma {:induction false} SplitTerminated(segments: seq<string>, sep: char)
    requires forall i :: 0 <= i < |segments| ==> sep !in segments[i]
    requires segments == [] || segments[|segments| - 1] != ""
    ensures Split(Terminated(segments, sep), sep) == if segments == [] then [""] else segments
  {
    if segments != [] {
      var s := Terminated(segments, sep);
      assert s == Terminated(segments[..|segments| - 1], sep) + segments[|segments| - 1] + [sep];
      assert s[|s| - 1] == sep;
      PiecesOfTerminated(segments, sep);
      var ps := segments + [""];
      assert ps[..|ps| - 1] == segments;
    }
  }

  // ---------------------------------------------------------------------
  // Integer.parseInt, Long.parseLong
  // ---------------------------------------------------------------------

  const INT_MIN: int := -0x8000_0000
  const INT_MAX: int := 0x7fff_ffff
  const LONG_MIN: int := -0x8000_0000_0000_0000
  const LONG_MAX: int := 0x7fff_ffff_ffff_ffff

  predicate IsDigit(c: char) {
    '0' <= c <= '9'
  }

  predicate AllDigits(s: string) {
    forall i :: 0 <= i < |s| ==> IsDigit(s[i])
  }

  /** The value of a string of decimal digits, most significant first. */
  function DecimalValue(digits: string): nat
    requires AllDigits(digits)
  {
    if digits == [] then 0
    else DecimalValue(digits[..|digits| - 1]) * 10 + (digits[|digits| - 1] as int - '0' as int)
  }

  /** The digits of an integer literal: everything after a leading sign, if any. */
  function Magnitude(s: string): string
    requires s != []
  {
    if s[0] == '-' || s[0] == '+' then s[1..] else s
  }

  /** Text of the form `[+|-]digits`, with at least one digit. */
  predicate IsIntegerText(s: string) {
    s != [] && Magnitude(s) != [] && AllDigits(Magnitude(s))
  }

  /** The signed value of an integer literal, before any range check. */
  function TextValue(s: string): int
    requires IsIntegerText(s)
  {
    if s[0] == '-' then -(DecimalValue(Magnitude(s)) as int) else DecimalValue(Magnitude(s))
  }

  /**
   * The number a Java `parseInt`/`parseLong` reads from `s`, given the
   * bounds of its result type: an optional `-` or `+`, then one or more
   * digits, and a value inside the bounds; `None` stands for the
   * NumberFormatException, raised also when the value overflows the type.
   */
  function ParseBounded(s: string, lo: int, hi: int): (r: Option<int>)
    ensures r.Some? <==> IsIntegerText(s) && lo <= TextValue(s) <= hi
    ensures r.Some? ==> r.value == TextValue(s)
  {
    if s == [] then None
    else
      var digits := if s[0] == '-' || s[0] == '+' then s[1..] else s;
      if digits == [] || !AllDigits(digits) then None
      else
        var n: int := if s[0] == '-' then -(DecimalValue(digits) as int) else DecimalValue(digits);
        if lo <= n <= hi then Some(n) else None
  }

  /** `Integer.parseInt(s)`. */
  function ParseInt(s: string): Option<int> {
    ParseBounded(s, INT_MIN, INT_MAX)
  }

  /** `Long.parseLong(s)`. */
  function ParseLong(s: string): Option<int> {
    ParseBounded(s, LONG_MIN, LONG_MAX)
  }

  /** The canonical decimal digits of a natural number (`Integer.toString`). */
  function DecimalString(n: nat): (r: string)
    ensures r != [] && AllDigits(r)
  {
    if n < 10 then ['0' + n as char]
    else DecimalString(n / 10) + ['0' + (n % 10) as char]
  }

  /** `Integer.toString(n)` / `Long.toString(n)`. */
  function IntegerString(n: int): string {
    if n < 0 then "-" + DecimalString(-n) else DecimalString(n)
  }

  lemma {:induction false} DecimalRoundTrip(n: nat)
    ensures DecimalValue(DecimalString(n)) == n
  {
    var s := DecimalString(n);
    if n >= 10 {
      DecimalRoundTrip(n / 10);
      assert s[..|s| - 1] == DecimalString(n / 10);
    }
  }

  /** The canonical text of any number is an integer literal with that value. */
  lemma TextValueOfIntegerString(n: int)
    ensures IsIntegerText(IntegerString(n)) && TextValue(IntegerString(n)) == n
  {
    var s := IntegerString(n);
    if n < 0 {
      DecimalRoundTrip(-n);
      assert s[1..] == DecimalString(-n);
    } else {
      DecimalRoundTrip(n);
    }
  }

  /** The canonical text of a number outside the bounds is rejected, not wrapped or clamped. */
  lemma ParseOutOfRange(n: int, lo: int, hi: int)
    requires n < lo || hi < n
    ensures ParseBounded(IntegerString(n), lo, hi) == None
  {
    TextValueOfIntegerString(n);
  }

  /** One past `Integer.MAX_VALUE` overflows `parseInt`; it is read by `parseLong`. */
  lemma IntOverflow()
    ensures ParseInt(IntegerString(INT_MAX + 1)) == None
    ensures ParseLong(IntegerString(INT_MAX + 1)) == Some(INT_MAX + 1)
  {
    ParseOutOfRange(INT_MAX + 1, INT_MIN, INT_MAX);
    ParseRoundTrip(INT_MAX + 1, LONG_MIN, LONG_MAX);
  }

  /** Parsing the canonical text of any in-range number gives that number back. */
  lemma ParseRoundTrip(n: int, lo: int, hi: int)
    requires lo <= n <= hi
    ensures ParseBounded(IntegerString(n), lo, hi) == Some(n)
  {
    TextValueOfIntegerString(n);
  }

  // ---------------------------------------------------------------------
  // Boolean.parseBoolean
  // ---------------------------------------------------------------------

  function LowerAscii(c: char): char {
    if 'A' <= c <= 'Z' then (c as int + 32) as char else c
  }

  /**
   * `a.equalsIgnoreCase(b)` over ASCII letter case: the same length, and
   * equal characters position by position once upper case is lowered.
   */
  predicate EqualsIgnoreCase(a: string, b: string) {
    |a| == |b| && (a == [] || (LowerAscii(a[0]) == LowerAscii(b[0]) && EqualsIgnoreCase(a[1..], b[1..])))
  }

  /** `Boolean.parseBoolean(s)`: true exactly for "true" in any letter case. */
  function ParseBoolean(s: string): (r: bool)
    ensures r <==> EqualsIgnoreCase(s, "true")
    ensures |s| != 4 ==> !r
  {
    var result := |s| == 4 && LowerAscii(s[0]) == 't' && LowerAscii(s[1]) == 'r'
      && LowerAscii(s[2]) == 'u' && LowerAscii(s[3]) == 'e';
    assert result <==> EqualsIgnoreCase(s, "true") by {
      if |s| == 4 {
        assert "true"[1..] == "rue" && "rue"[1..] == "ue" && "ue"[1..] == "e" && "e"[1..] == [];
        assert s[1..][1..] == s[2..] && s[2..][1..] == s[3..] && s[3..][1..] == [];
        assert EqualsIgnoreCase(s[3..], "e") <==> LowerAscii(s[3]) == 'e';
        assert EqualsIgnoreCase(s[2..], "ue") <==> LowerAscii(s[2]) == 'u' && EqualsIgnoreCase(s[3..], "e");
        assert EqualsIgnoreCase(s[1..], "rue") <==> LowerAscii(s[1]) == 'r' && EqualsIgnoreCase(s[2..], "ue");
        assert EqualsIgnoreCase(s, "true") <==> LowerAscii(s[0]) == 't' && EqualsIgnoreCase(s[1..], "rue");
      }
    }
    result
  }

  /** `Boolean.toString(b)`. */
  function BooleanString(b: bool): string {
    if b then "true" else "false"
  }

  lemma BooleanRoundTrip(b: bool)
    ensures ParseBoolean(BooleanString(b)) == b
  {
  }

  /** Letter case does not matter, and nothing else reads as true. */
  lemma ParseBooleanExamples()
    ensures ParseBoolean("TRUE") && ParseBoolean("True") && ParseBoolean("tRuE")
    ensures !ParseBoolean("yes") && !ParseBoolean("1") && !ParseBoolean("") && !ParseBoolean("false")
    ensures !ParseBoolean("true ") && !ParseBoolean(" true")
  {
  }
}
