/**
 * The older operand records: each keeps the operand text as written and
 * interprets it only when its value is asked for.
 */
module LegacyOperands {
  import opened Base
  import opened Chars

  /** The closed set of six records; every one of them holds only its text. */
  datatype Operand =
    | Int(text: string)
    | Long(text: string)
    | Double(text: string)
    | Float(text: string)
    | Str(text: string)
    | Identifier(text: string)

  /** A parse that throws NumberFormatException instead of giving nothing. */
  function OrThrow(p: Option<int>): (r: Result<int, Crash>)
    ensures r.Ok? <==> p.Some?
    ensures r.Ok? ==> r.value == p.value
    ensures r.Err? ==> r.error == NumberFormat
  {
    match p
    case Some(n) => Ok(n)
    case None => Err(NumberFormat)
  }

  /** A text whose lower-cased form starts with 0x. */
  predicate HexPrefixed(text: string)
  {
    StartsWith(LowerText(text), "0x")
  }

  /**
   * A text in base 16 after a 0x prefix, otherwise in base 10, within
   * [lo, hi]; the part after the prefix may still carry a sign.
   */
  function IntegerValue(text: string, lo: int, hi: int): (r: Result<int, Crash>)
    ensures r.Ok? ==> lo <= r.value <= hi
    ensures r.Err? ==> r.error == NumberFormat
  {
    if HexPrefixed(text) then OrThrow(ParseJavaInteger(text[2..], 16, lo, hi))
    else OrThrow(ParseJavaInteger(text, 10, lo, hi))
  }

  /** Int.value(): Integer.parseInt of the text, in hexadecimal after 0x. */
  function IntValue(op: Operand): (r: Result<int, Crash>)
    requires op.Int?
    ensures r.Ok? ==> IsInt32(r.value)
    ensures r.Err? ==> r.error == NumberFormat
  {
    IntegerValue(op.text, MinInt32, MaxInt32)
  }

  /** Long.value(): the last character (the suffix) is dropped, then the Int rule in 64 bits. */
  function LongValue(op: Operand): (r: Result<int, Crash>)
    requires op.Long?
    ensures op.text == [] ==> r == Err(StringIndexOutOfBounds)
    ensures r.Ok? ==> IsInt64(r.value)
    ensures op.text != [] && r.Err? ==> r.error == NumberFormat
  {
    if op.text == [] then Err(StringIndexOutOfBounds)
    else IntegerValue(op.text[..|op.text| - 1], MinInt64, MaxInt64)
  }

  /** String.value(): the text without its first and last characters, no escape processing. */
  function StringValue(op: Operand): (r: Result<string, Crash>)
    requires op.Str?
    ensures r.Err? <==> |op.text| < 2
    ensures r.Err? ==> r.error == StringIndexOutOfBounds
    ensures r.Ok? ==> op.text == [op.text[0]] + r.value + [op.text[|op.text| - 1]]
  {
    if |op.text| < 2 then Err(StringIndexOutOfBounds)
    else Ok(op.text[1..|op.text| - 1])
  }

  /** A decimal rendering never looks like a 0x prefix. */
  lemma DecimalNotHexPrefixed(n: int)
    ensures !HexPrefixed(IntToString(n))
  {
    var s := IntToString(n);
    if |s| >= 2 && n >= 0 {
      assert IsDigit(s[1]) by { assert 0 <= DigitValue(s[1]) < 10; }
    }
  }

  /** The value of a printed int is the int. */
  lemma IntValueOfDecimal(n: int)
    requires IsInt32(n)
    ensures IntValue(Int(IntToString(n))) == Ok(n)
  {
    DecimalNotHexPrefixed(n);
    IntToStringRoundTrip(n);
  }

  /** The value of a printed long followed by any one-character suffix is the long. */
  lemma LongValueOfDecimal(n: int, suffix: char)
    requires IsInt64(n)
    ensures LongValue(Long(IntToString(n) + [suffix])) == Ok(n)
  {
    var s := IntToString(n);
    assert (s + [suffix])[..|s + [suffix]| - 1] == s;
    DecimalNotHexPrefixed(n);
    LongToStringRoundTrip(n);
  }

  /** The prefix is recognised whatever the case of its x. */
  lemma HexPrefixCaseInsensitive(digits: string)
    ensures IntValue(Int("0x" + digits)) == IntValue(Int("0X" + digits))
    ensures HexPrefixed("0x" + digits) && HexPrefixed("0X" + digits)
  {
    var a := "0x" + digits;
    var b := "0X" + digits;
    assert LowerText(a)[..2] == "0x";
    assert LowerText(b)[..2] == "0x";
    assert a[2..] == digits && b[2..] == digits;
  }

  /** 0x1F is 31. */
  lemma HexIntValue(digits: string)
    requires digits == "1F"
    ensures IntValue(Int("0x" + digits)) == Ok(31)
  {
    HexPrefixCaseInsensitive(digits);
    assert DigitsValue("1F", 16) == 31 by {
      assert "1F"[..1] == "1";
      assert "1"[..0] == [];
    }
  }

  /** 0xFFFFFFFF does not fit Integer.parseInt in base 16, which has no unsigned form. */
  lemma HexIntTooWide(digits: string)
    requires digits == "FFFFFFFF"
    ensures IntValue(Int("0x" + digits)) == Err(NumberFormat)
  {
    HexPrefixCaseInsensitive(digits);
    EightFsTooWide(digits);
  }

  lemma EightFsTooWide(digits: string)
    requires |digits| == 8 && forall i :: 0 <= i < 8 ==> digits[i] == 'F'
    ensures ParseJavaInteger(digits, 16, MinInt32, MaxInt32) == None
  {
    FsValue(digits);
    assert Power16(8) == 0x1_0000_0000 by {
      assert Power16(4) == 0x1_0000;
    }
    assert digits[0] == 'F';
  }

  lemma {:induction false} FsValue(s: string)
    requires forall i :: 0 <= i < |s| ==> s[i] == 'F'
    ensures AllDigits(s, 16)
    ensures DigitsValue(s, 16) + 1 == Power16(|s|)
  {
    if s != [] {
      FsValue(s[..|s| - 1]);
    }
  }

  function Power16(n: nat): nat
  {
    if n == 0 then 1 else 16 * Power16(n - 1)
  }

  /** The quotes of a string operand are dropped, and a backslash stays as written. */
  lemma StringValueVerbatim(x: string)
    ensures StringValue(Str("\"" + x + "\"")) == Ok(x)
    ensures StringValue(Str("\"\\n\"")) == Ok("\\n")
  {
    var s := "\"" + x + "\"";
    assert s[1..|s| - 1] == x;
    assert "\"\\n\""[1..3] == "\\n";
  }
}
