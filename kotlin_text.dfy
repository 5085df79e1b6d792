/**
 * The parts of the Kotlin standard library the core relies on:
 * the 32-bit `Int` range, `Char.isDigit`, `Char.isWhitespace`,
 * `CharSequence.isBlank`, `Int.toString`, `String.toIntOrNull` and the
 * `%02d` conversion of `String.format`.
 */
module KotlinText {
  import opened Wrappers

  const IntMin: int := -0x8000_0000
  const IntMax: int := 0x7fff_ffff

  /** x is representable as a Kotlin `Int` */
  predicate IsInt(x: int) {
    IntMin <= x <= IntMax
  }

  // ---------------------------------------------------------------- digits

  predicate IsDigit(c: char) {
    '0' <= c <= '9'
  }

  predicate AllDigits(s: string) {
    forall i :: 0 <= i < |s| ==> IsDigit(s[i])
  }

  function DigitValue(c: char): (d: nat)
    requires IsDigit(c)
    ensures d < 10
  {
    (c as int) - ('0' as int)
  }

  function DigitChar(d: nat): (c: char)
    requires d < 10
    ensures IsDigit(c) && DigitValue(c) == d
  {
    (('0' as int) + d) as char
  }

  /** The number a string of decimal digits denotes, read most significant digit first. */
  function DigitsValue(s: string): nat
    requires AllDigits(s)
  {
    if s == [] then 0 else DigitsValue(s[..|s| - 1]) * 10 + DigitValue(s[|s| - 1])
  }

  // ------------------------------------------------------------ whitespace

  /**
   * Kotlin/JVM `Char.isWhitespace()`: `Character.isWhitespace(c) || Character.isSpaceChar(c)`,
   * i.e. the ASCII controls TAB..CR and FS..US plus the Unicode space,
   * line and paragraph separators.
   */
  predicate IsWhitespace(c: char) {
    || '\t' <= c <= '\r'
    || '\U{1C}' <= c <= ' '
    || c == '\U{A0}' || c == '\U{1680}'
    || '\U{2000}' <= c <= '\U{200A}'
    || c == '\U{2028}' || c == '\U{2029}' || c == '\U{202F}' || c == '\U{205F}' || c == '\U{3000}'
  }

  /** `CharSequence.isBlank()`: empty or whitespace only */
  predicate IsBlank(s: string) {
    forall i :: 0 <= i < |s| ==> IsWhitespace(s[i])
  }

  // ------------------------------------------------------------ formatting

  /** `Int.toString()` for a non-negative value: shortest decimal numeral */
  function NatToString(n: nat): (s: string)
    ensures |s| > 0 && AllDigits(s)
    ensures DigitsValue(s) == n
    ensures s[0] == '0' ==> n == 0
    ensures n < 10 ==> |s| == 1
    ensures 10 <= n < 100 ==> |s| == 2
  {
    if n < 10 then [DigitChar(n)]
    else
      var s := NatToString(n / 10) + [DigitChar(n % 10)];
      assert s[..|s| - 1] == NatToString(n / 10);
      s
  }

  /** `Int.toString()`: a leading '-' for negative values */
  function IntToString(i: int): (s: string)
    ensures |s| > 0
    ensures s[0] == '-' <==> i < 0
  {
    if i < 0 then "-" + NatToString(-i) else NatToString(i)
  }

  /** `String.format("%02d", n)` for a non-negative n: at least two digits, zero-padded */
  function FormatTwoDigits(n: nat): (s: string)
    ensures |s| >= 2 && AllDigits(s)
    ensures DigitsValue(s) == n
    ensures n < 100 ==> |s| == 2
  {
    if n < 10 then
      var s := ['0'] + NatToString(n);
      assert s[..1] == ['0'];
      s
    else NatToString(n)
  }

  // --------------------------------------------------------------- parsing

  /**
   * `String.toIntOrNull()` (radix 10): an optional '+' or '-' followed by at
   * least one digit, and null when the value does not fit in an `Int`.
   */
  function ParseInt(s: string): (r: Option<int>)
    ensures r.Some? ==> IsInt(r.value)
    ensures r.Some? ==> |s| > 0 && (s[0] == '-' || s[0] == '+' || IsDigit(s[0]))
    ensures r.Some? && s[0] == '-' ==> r.value <= 0
    ensures r.Some? && s[0] != '-' ==> r.value >= 0
  {
    if |s| == 0 then None
    else if s[0] == '-' || s[0] == '+' then
      if |s| == 1 || !AllDigits(s[1..]) then None
      else
        var v := if s[0] == '-' then 0 - (DigitsValue(s[1..]) as int) else DigitsValue(s[1..]) as int;
        if IsInt(v) then Some(v) else None
    else if AllDigits(s) && IsInt(DigitsValue(s)) then Some(DigitsValue(s))
    else None
  }

  // ---------------------------------------------------------------- lemmas

  /** A non-empty digit-only text parses to the number it denotes, or to null when that number is too large. */
  lemma ParseDigits(s: string)
    requires AllDigits(s)
    ensures ParseInt(s) == if |s| > 0 && DigitsValue(s) <= IntMax then Some(DigitsValue(s)) else None
  {
  }

  /** Two digit strings with the same value and no leading zero are equal. */
  lemma {:induction false} CanonicalDigitsUnique(s: string, t: string)
    requires |s| > 0 && |t| > 0 && AllDigits(s) && AllDigits(t)
    requires s[0] != '0' || |s| == 1
    requires t[0] != '0' || |t| == 1
    requires DigitsValue(s) == DigitsValue(t)
    ensures s == t
  {
    var n := DigitsValue(s);
    if |s| == 1 && |t| == 1 {
    } else if |s| == 1 {
      LeadingDigitPositive(t);
    } else if |t| == 1 {
      LeadingDigitPositive(s);
    } else {
      var s', t' := s[..|s| - 1], t[..|t| - 1];
      assert s'[0] == s[0] && t'[0] == t[0];
      LeadingDigitPositive(s);
      LeadingDigitPositive(t);
      assert DigitsValue(s') == n / 10 == DigitsValue(t');
      CanonicalDigitsUnique(s', t');
      assert s == s' + [s[|s| - 1]] && t == t' + [t[|t| - 1]];
    }
  }

  /** A numeral of two or more digits without a leading zero denotes at least 10. */
  lemma {:induction false} LeadingDigitPositive(s: string)
    requires |s| >= 2 && AllDigits(s) && s[0] != '0'
    ensures DigitsValue(s) >= 10
  {
    var s' := s[..|s| - 1];
    if |s'| >= 2 {
      assert s'[0] == s[0];
      LeadingDigitPositive(s');
    } else {
      assert s' == [s[0]];
    }
  }

  /** `isBlank` holds exactly when no character is visible; a few sample texts. */
  lemma BlankMeansNoVisibleChar(s: string)
    ensures !IsBlank(s) <==> exists i :: 0 <= i < |s| && !IsWhitespace(s[i])
    ensures IsBlank("") && IsBlank(" \t\n") && IsBlank("\U{3000}")
    ensures !IsBlank(" a ")
  {
    assert !IsWhitespace(" a "[1]);
  }

  /** `toString` then `toIntOrNull` gives back every `Int`. */
  lemma IntToStringRoundTrip(i: int)
    requires IsInt(i)
    ensures ParseInt(IntToString(i)) == Some(i)
  {
    var s := IntToString(i);
    if i < 0 {
      assert s[1..] == NatToString(-i);
    }
  }

  /**
   * `toIntOrNull` then `toString` gives back every digit-only numeral without
   * a leading zero whose value fits in an `Int`.
   */
  lemma CanonicalNumeralRoundTrip(s: string)
    requires |s| > 0 && AllDigits(s) && (s[0] != '0' || |s| == 1)
    requires DigitsValue(s) <= IntMax
    ensures ParseInt(s) == Some(DigitsValue(s))
    ensures IntToString(DigitsValue(s)) == s
  {
    ParseDigits(s);
    var t := NatToString(DigitsValue(s));
    assert t[0] != '0' || |t| == 1;
    CanonicalDigitsUnique(t, s);
  }

  /** Different integers have different decimal numerals. */
  lemma IntToStringInjective(a: int, b: int)
    requires IntToString(a) == IntToString(b)
    ensures a == b
  {
    var s := IntToString(a);
    if a < 0 {
      assert s[1..] == NatToString(-a) == NatToString(-b);
    } else {
      assert NatToString(a) == NatToString(b);
    }
  }
}
