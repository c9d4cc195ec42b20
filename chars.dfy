/**
 * Character classes and number conversions of the Java platform that the
 * assembler relies on: Character.isWhitespace, ASCII case folding,
 * Integer.parseInt / Long.parseLong and the decimal rendering of an int.
 */
module Chars {
  import opened Base

  /** Character.isWhitespace: space, line and paragraph separators except the
      no-break spaces, plus the ASCII controls \t \n \u000B \f \r and 0x1C-0x1F. */
  predicate IsWhitespace(c: char)
  {
    c == ' ' || ('\t' <= c <= '\r') || ('\U{1C}' <= c <= '\U{1F}')
    || c == '\U{1680}' || ('\U{2000}' <= c <= '\U{2006}') || ('\U{2008}' <= c <= '\U{200A}')
    || c == '\U{2028}' || c == '\U{2029}' || c == '\U{205F}' || c == '\U{3000}'
  }

  /** String.isBlank: every character is whitespace (so the empty string is blank). */
  predicate IsBlankText(s: string)
  {
    forall i :: 0 <= i < |s| ==> IsWhitespace(s[i])
  }

  predicate IsAsciiLetter(c: char) { ('a' <= c <= 'z') || ('A' <= c <= 'Z') }

  predicate IsDigit(c: char) { '0' <= c <= '9' }

  predicate IsHexDigit(c: char) { IsDigit(c) || ('a' <= c <= 'f') || ('A' <= c <= 'F') }

  /** ASCII case folding, standing in for String.toLowerCase. */
  function Lower(c: char): (r: char)
    ensures IsAsciiLetter(c) ==> 'a' <= r <= 'z'
    ensures !('A' <= c <= 'Z') ==> r == c
  {
    if 'A' <= c <= 'Z' then (c as int + 32) as char else c
  }

  function LowerText(s: string): (r: string)
    ensures |r| == |s|
    ensures forall i :: 0 <= i < |s| ==> r[i] == Lower(s[i])
  {
    if s == [] then [] else [Lower(s[0])] + LowerText(s[1..])
  }

  predicate StartsWith(s: string, prefix: string)
  {
    |prefix| <= |s| && s[..|prefix|] == prefix
  }

  predicate EndsWith(s: string, suffix: string)
  {
    |suffix| <= |s| && s[|s| - |suffix|..] == suffix
  }

  predicate Contains(s: string, c: char)
  {
    exists i :: 0 <= i < |s| && s[i] == c
  }

  /** Character.digit restricted to ASCII: the value of c in base 36, or -1. */
  function DigitValue(c: char): (d: int)
    ensures -1 <= d < 36
    ensures IsDigit(c) <==> 0 <= d < 10
    ensures IsHexDigit(c) <==> 0 <= d < 16
  {
    if '0' <= c <= '9' then c as int - '0' as int
    else if 'a' <= c <= 'z' then c as int - 'a' as int + 10
    else if 'A' <= c <= 'Z' then c as int - 'A' as int + 10
    else -1
  }

  predicate AllDigits(s: string, radix: nat)
  {
    forall i :: 0 <= i < |s| ==> 0 <= DigitValue(s[i]) < radix
  }

  /** The value of a run of digits, most significant first. */
  function DigitsValue(s: string, radix: nat): nat
    requires AllDigits(s, radix)
  {
    if s == [] then 0 else DigitsValue(s[..|s| - 1], radix) * radix + DigitValue(s[|s| - 1])
  }

  const MinInt32: int := -0x8000_0000
  const MaxInt32: int := 0x7fff_ffff
  const MinInt64: int := -0x8000_0000_0000_0000
  const MaxInt64: int := 0x7fff_ffff_ffff_ffff

  predicate IsInt32(v: int) { MinInt32 <= v <= MaxInt32 }
  predicate IsInt64(v: int) { MinInt64 <= v <= MaxInt64 }

  /**
   * Integer.parseInt / Long.parseLong: an optional '+' or '-', at least one
   * digit of the radix, and a value within [lo, hi]; anything else is a
   * NumberFormatException (None).
   */
  function ParseJavaInteger(s: string, radix: nat, lo: int, hi: int): (r: Option<int>)
    requires 2 <= radix <= 36
    ensures r.Some? ==> lo <= r.value <= hi
  {
    var negative := |s| > 0 && s[0] == '-';
    var body := if |s| > 0 && (s[0] == '-' || s[0] == '+') then s[1..] else s;
    if body == [] || !AllDigits(body, radix) then None
    else
      var magnitude: int := DigitsValue(body, radix);
      var v := if negative then -magnitude else magnitude;
      if lo <= v <= hi then Some(v) else None
  }

  /** Integer.parseInt(s) in base 10. */
  function ParseInt32(s: string): (r: Option<int>)
    ensures r.Some? ==> IsInt32(r.value)
  {
    ParseJavaInteger(s, 10, MinInt32, MaxInt32)
  }

  /** Long.parseLong(s) in base 10. */
  function ParseInt64(s: string): (r: Option<int>)
    ensures r.Some? ==> IsInt64(r.value)
  {
    ParseJavaInteger(s, 10, MinInt64, MaxInt64)
  }

  function DigitChar(d: nat): (c: char)
    requires d < 10
    ensures IsDigit(c) && DigitValue(c) == d
  {
    ('0' as int + d) as char
  }

  /** Decimal rendering of a natural number (Integer.toString for n >= 0). */
  function NatToString(n: nat): (s: string)
    ensures |s| > 0 && AllDigits(s, 10)
    decreases n
  {
    if n < 10 then [DigitChar(n)] else NatToString(n / 10) + [DigitChar(n % 10)]
  }

  /** Decimal rendering of an int, with a leading '-' when negative. */
  function IntToString(v: int): (s: string)
    ensures |s| > 0
  {
    if v < 0 then "-" + NatToString(-v) else NatToString(v)
  }

  lemma {:induction false} NatToStringValue(n: nat)
    ensures DigitsValue(NatToString(n), 10) == n
    decreases n
  {
    var s := NatToString(n);
    if n >= 10 {
      NatToStringValue(n / 10);
      assert s[..|s| - 1] == NatToString(n / 10);
    }
  }

  /** Printing an in-range int and parsing it back with Integer.parseInt is the identity. */
  lemma IntToStringRoundTrip(v: int)
    requires IsInt32(v)
    ensures ParseInt32(IntToString(v)) == Some(v)
  {
    DecimalRoundTrip(v, MinInt32, MaxInt32);
  }

  /** The same for Long.parseLong. */
  lemma LongToStringRoundTrip(v: int)
    requires IsInt64(v)
    ensures ParseInt64(IntToString(v)) == Some(v)
  {
    DecimalRoundTrip(v, MinInt64, MaxInt64);
  }

  lemma DecimalRoundTrip(v: int, lo: int, hi: int)
    requires lo <= v <= hi
    ensures ParseJavaInteger(IntToString(v), 10, lo, hi) == Some(v)
  {
    if v < 0 {
      NegativeRoundTrip(v, lo, hi, IntToString(v));
    } else {
      NonNegativeRoundTrip(v, lo, hi, IntToString(v));
    }
  }

  lemma NegativeRoundTrip(v: int, lo: int, hi: int, s: string)
    requires lo <= v <= hi && v < 0 && s == "-" + NatToString(-v)
    ensures ParseJavaInteger(s, 10, lo, hi) == Some(v)
  {
    NatToStringValue(-v);
    assert s[1..] == NatToString(-v);
  }

  lemma NonNegativeRoundTrip(v: int, lo: int, hi: int, s: string)
    requires lo <= v <= hi && v >= 0 && s == NatToString(v)
    ensures ParseJavaInteger(s, 10, lo, hi) == Some(v)
  {
    NatToStringValue(v);
    assert 0 <= DigitValue(s[0]) < 10;
  }

  lemma ParseInt32Examples()
    ensures ParseInt32("42") == Some(42)
    ensures ParseInt32("-7") == Some(-7)
    ensures ParseInt32("+5") == Some(5)
    ensures ParseInt32("-") == None
    ensures ParseInt32("") == None
    ensures ParseInt32("1x") == None
  {
    assert DigitsValue("42", 10) == 42 by {
      assert "42"[..1] == "4";
      assert "4"[..0] == [];
    }
    assert "-7"[1..] == "7" && DigitsValue("7", 10) == 7 by { assert "7"[..0] == []; }
    assert "+5"[1..] == "5" && DigitsValue("5", 10) == 5 by { assert "5"[..0] == []; }
    assert "-"[1..] == [];
    assert !AllDigits("1x", 10) by { assert DigitValue("1x"[1]) == 33; }
  }

  /** One past Integer.MAX_VALUE is rejected, as parseInt throws on overflow. */
  lemma ParseInt32Overflow()
    ensures ParseInt32("2147483648") == None
  {
    var big := "2147483648";
    IntToStringRoundTrip(MaxInt32);
    NatToStringValue(2147483648);
    assert NatToString(2147483648) == big;
  }
}
