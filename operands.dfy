/**
 * The operand literal grammar: one recogniser per operand type, each taking
 * the operand's view and giving the typed operand, an assembly error bound to
 * a view of the line, or the Java runtime exception the code lets escape.
 */
module Operands {
  import opened Base
  import opened Chars
  import opened StringViews
  import Descriptors

  /** AssemblyException: a message and, optionally, the view it points at. */
  datatype AsmError = AsmError(message: string, target: Option<View>)

  /** What an assembler step gives: a value, an AssemblyException, or an escaping runtime exception. */
  datatype Outcome<T> = Done(value: T) | Fail(error: AsmError) | Crash(crash: Crash)
  {
    /** The same failure or crash, at another result type. */
    function Forward<U>(): (r: Outcome<U>)
      requires !Done?
      ensures !r.Done? && (Fail? ==> r == Fail(error)) && (Crash? ==> r == Crash(crash))
    {
      if Fail? then Fail(error) else Crash(crash)
    }
  }

  function Error<T>(message: string, target: View): Outcome<T>
  {
    Fail(AsmError(message, Some(target)))
  }

  /** A float constant: the lower-cased text handed to Float.parseFloat, or the int bits of an fb literal. */
  datatype FloatLiteral = FloatText(text: string) | FloatBits(bits: int)

  /** A double constant: the lower-cased text handed to Double.parseDouble, or the long bits of a db literal. */
  datatype DoubleLiteral = DoubleText(text: string) | DoubleBits(bits: int)

  /** The element types newarray accepts. */
  datatype ArrayElement =
    ByteElement | ShortElement | IntElement | LongElement | FloatElement | DoubleElement | CharElement | BooleanElement

  datatype OperandType =
    | IntOperand | FloatOperand | LongOperand | DoubleOperand | StringOperand | ClassNameOperand
    | ArrayTypeOperand | IdentifierOperand | DescriptorOperand | MethodDescriptorOperand | BranchTargetOperand

  datatype Operand =
    | Int(value: int)
    | Float(float: FloatLiteral)
    | Long(value: int)
    | Double(double: DoubleLiteral)
    | Str(text: string)
    | ClassName(name: string)
    | ArrayType(element: ArrayElement)
    | Identifier(identifier: string)
    | Descriptor(descriptor: string)
    | MethodDescriptor(methodDescriptor: string)
    | BranchTarget(target: string)

  function TypeOf(op: Operand): OperandType
  {
    match op
    case Int(_) => IntOperand
    case Float(_) => FloatOperand
    case Long(_) => LongOperand
    case Double(_) => DoubleOperand
    case Str(_) => StringOperand
    case ClassName(_) => ClassNameOperand
    case ArrayType(_) => ArrayTypeOperand
    case Identifier(_) => IdentifierOperand
    case Descriptor(_) => DescriptorOperand
    case MethodDescriptor(_) => MethodDescriptorOperand
    case BranchTarget(_) => BranchTargetOperand
  }

  // ---------------------------------------------------------------- escapes

  /** The letters that may follow a backslash, and what each stands for. */
  predicate IsEscapeLetter(c: char)
  {
    c == '0' || c == 'b' || c == 'f' || c == 'n' || c == 'r' || c == 't' || c == '"' || c == '\'' || c == '\\'
  }

  /** The letter that escapes a character, for the characters that have one. */
  function EscapeLetter(c: char): Option<char>
  {
    if c == '\0' then Some('0')
    else if c == '\U{8}' then Some('b')
    else if c == '\U{C}' then Some('f')
    else if c == '\n' then Some('n')
    else if c == '\r' then Some('r')
    else if c == '\t' then Some('t')
    else if c == '"' then Some('"')
    else if c == '\\' then Some('\\')
    else None
  }

  /**
   * unescape(view): the character after the backslash is the second of the
   * view; \u is reported as unsupported and any other letter as invalid, both
   * bound to the view.
   */
  function Unescape(c: char, view: View): (r: Result<char, AsmError>)
    ensures r.Ok? <==> IsEscapeLetter(c)
    ensures r.Ok? && c != '\'' ==> EscapeLetter(r.value) == Some(c)
    ensures c == '\'' ==> r == Ok('\'')
    ensures c == 'u' ==> r == Err(AsmError("Unicode escape sequences \\uXXXX not supported", Some(view)))
    ensures !IsEscapeLetter(c) && c != 'u' ==> r == Err(AsmError("Invalid escape sequence", Some(view)))
  {
    match c
    case '0' => Ok('\0')
    case 'b' => Ok('\U{8}')
    case 'f' => Ok('\U{C}')
    case 'n' => Ok('\n')
    case 'r' => Ok('\r')
    case 't' => Ok('\t')
    case '"' => Ok('"')
    case '\'' => Ok('\'')
    case '\\' => Ok('\\')
    case 'u' => Err(AsmError("Unicode escape sequences \\uXXXX not supported", Some(view)))
    case _ => Err(AsmError("Invalid escape sequence", Some(view)))
  }

  // ---------------------------------------------------------------- integers

  /** [+-]?[0-9]+ */
  predicate IsDecimalText(s: string)
  {
    var body := if |s| > 0 && (s[0] == '+' || s[0] == '-') then s[1..] else s;
    |body| > 0 && forall i :: 0 <= i < |body| ==> IsDigit(body[i])
  }

  /** 0[Xx][0-9a-fA-F]+ */
  predicate IsHexText(s: string)
  {
    |s| >= 3 && s[0] == '0' && (s[1] == 'x' || s[1] == 'X') && forall i :: 2 <= i < |s| ==> IsHexDigit(s[i])
  }

  lemma DecimalNotHex(s: string)
    requires IsDecimalText(s)
    ensures !IsHexText(s)
  {
    if |s| >= 3 && s[0] == '0' {
      assert IsDigit(s[1]);
    }
  }

  /**
   * The INTEGER_REGEX match shared by parseInt and parseLong: a decimal body is
   * given to the parser; for a hexadecimal one the decimal group is null and
   * calling isBlank on it throws NullPointerException.
   */
  function IntegerMatch(s: string, parse: string -> Option<int>, message: string, v: View): (r: Outcome<int>)
    ensures IsDecimalText(s) ==> (r.Done? <==> parse(s).Some?)
    ensures IsDecimalText(s) && parse(s).Some? ==> r == Done(parse(s).value)
    ensures IsHexText(s) ==> r == Crash(NullPointer)
    ensures r.Fail? ==> r == Error(message, v)
    ensures !IsDecimalText(s) && !IsHexText(s) ==> r == Error(message, v)
  {
    if IsDecimalText(s) then
      DecimalNotHex(s);
      match parse(s)
      case Some(n) => Done(n)
      case None => Error(message, v)
    else if IsHexText(s) then Crash(NullPointer)
    else Error(message, v)
  }

  /**
   * parseInt: a character literal 'c' or '\x', or a decimal int. The text is
   * read with toString and codePointAt(0), so an inverted or empty view and the
   * one-character text ' throw.
   */
  function ParseInt(v: View): (r: Outcome<int>)
    requires v.Valid()
    ensures r.Done? ==> IsInt32(r.value)
    ensures v.Inverted() || v.Text() == [] ==> r == Crash(StringIndexOutOfBounds)
    ensures r.Fail? ==> r.error.target == Some(v) || r.error.target == Some(v.SubstringFrom(1).value)
  {
    match v.ToString()
    case Err(e) => Crash(e)
    case Ok(s) =>
      if |s| == 0 then Crash(StringIndexOutOfBounds)
      else if s[0] == '\'' && s[|s| - 1] == '\'' then
        if |s| == 1 then Crash(StringIndexOutOfBounds)
        else CharLiteral(v, s[1..|s| - 1])
      else IntegerMatch(s, ParseInt32, "Invalid integer", v)
  }

  /** The quoted part of a character literal: one character, or a backslash and a letter. */
  function CharLiteral(v: View, inner: string): (r: Outcome<int>)
    requires v.Valid()
    ensures r.Done? ==> IsInt32(r.value)
    ensures r.Done? <==> |inner| == 1 || (|inner| == 2 && inner[0] == '\\' && IsEscapeLetter(inner[1]))
    ensures |inner| == 1 ==> r == Done(inner[0] as int)
    ensures r.Fail? ==> r.error.target == Some(v) || r.error.target == Some(v.SubstringFrom(1).value)
  {
    if |inner| == 2 && inner[0] == '\\' then
      match Unescape(inner[1], v.SubstringFrom(1).value)
      case Ok(c) => Done(c as int)
      case Err(e) => Fail(e)
    else if |inner| == 1 then Done(inner[0] as int)
    else Error("Invalid character", v)
  }

  /** parseLong: INTEGER_REGEX followed by L or l, parsed by Long.parseLong. */
  function ParseLong(v: View): (r: Outcome<int>)
    requires v.Valid()
    ensures r.Done? ==> IsInt64(r.value)
    ensures r.Fail? ==> r == Error("Invalid long", v)
    ensures !v.Inverted() ==> (r.Done? <==> LongSuffixed(v.Text()) && IsDecimalText(Unsuffixed(v.Text()))
                                             && ParseInt64(Unsuffixed(v.Text())).Some?)
    ensures v.Inverted() ==> r == Crash(StringIndexOutOfBounds)
    ensures !v.Inverted() && LongSuffixed(v.Text()) && IsHexText(Unsuffixed(v.Text())) ==> r == Crash(NullPointer)
  {
    match v.ToString()
    case Err(e) => Crash(e)
    case Ok(s) =>
      if LongSuffixed(s) then IntegerMatch(Unsuffixed(s), ParseInt64, "Invalid long", v)
      else Error("Invalid long", v)
  }

  predicate LongSuffixed(s: string)
  {
    |s| > 0 && (s[|s| - 1] == 'L' || s[|s| - 1] == 'l')
  }

  function Unsuffixed(s: string): string
    requires |s| > 0
  {
    s[..|s| - 1]
  }

  // ---------------------------------------------------------------- floating point

  /**
   * parseFloat: the lower-cased text ending in f goes to Float.parseFloat
   * (whose acceptance is the parameter floating), one ending in fb is an int
   * bit pattern; anything else, or a rejected number, is "Invalid float".
   */
  function ParseFloat(v: View, floating: string -> bool): (r: Outcome<FloatLiteral>)
    requires v.Valid()
    ensures r.Fail? ==> r == Error("Invalid float", v)
    ensures r.Done? && r.value.FloatText? ==> floating(r.value.text) && LowerText(v.Text()) == r.value.text + "f"
    ensures r.Done? && r.value.FloatBits? ==> IsInt32(r.value.bits) && EndsWith(LowerText(v.Text()), "fb")
  {
    match v.ToString()
    case Err(e) => Crash(e)
    case Ok(t) =>
      var s := LowerText(t);
      if EndsWith(s, "f") then
        var number := s[..|s| - 1];
        assert s == number + "f";
        if floating(number) then Done(FloatText(number)) else Error("Invalid float", v)
      else if EndsWith(s, "fb") then
        match ParseInt32(s[..|s| - 2])
        case Some(bits) => Done(FloatBits(bits))
        case None => Error("Invalid float", v)
      else Error("Invalid float", v)
  }

  /**
   * parseDouble: the lower-cased text ending in db is a long bit pattern, any
   * other goes to Double.parseDouble.
   */
  function ParseDouble(v: View, floating: string -> bool): (r: Outcome<DoubleLiteral>)
    requires v.Valid()
    ensures r.Fail? ==> r == Error("Invalid double", v)
    ensures r.Done? && r.value.DoubleText? ==> floating(r.value.text) && r.value.text == LowerText(v.Text())
    ensures r.Done? && r.value.DoubleText? ==> !EndsWith(r.value.text, "db")
    ensures r.Done? && r.value.DoubleBits? ==> IsInt64(r.value.bits) && EndsWith(LowerText(v.Text()), "db")
  {
    match v.ToString()
    case Err(e) => Crash(e)
    case Ok(t) =>
      var s := LowerText(t);
      if EndsWith(s, "db") then
        match ParseInt64(s[..|s| - 2])
        case Some(bits) => Done(DoubleBits(bits))
        case None => Error("Invalid double", v)
      else if floating(s) then Done(DoubleText(s))
      else Error("Invalid double", v)
  }

  // ---------------------------------------------------------------- strings

  /** Prepends a prefix to a successful outcome; a failure or crash passes through. */
  function Prefixed<T>(p: seq<T>, o: Outcome<seq<T>>): (r: Outcome<seq<T>>)
    ensures r.Done? <==> o.Done?
    ensures r.Done? ==> r.value == p + o.value
    ensures !o.Done? ==> r == o
  {
    if o.Done? then Done(p + o.value) else o
  }

  lemma PrefixedEmpty<T>(o: Outcome<seq<T>>)
    ensures Prefixed([], o) == o
  {
    if o.Done? {
      assert [] + o.value == o.value;
    }
  }

  lemma PrefixedTwice<T>(a: seq<T>, b: seq<T>, o: Outcome<seq<T>>)
    ensures Prefixed(a, Prefixed(b, o)) == Prefixed(a + b, o)
  {
    if o.Done? {
      assert a + (b + o.value) == (a + b) + o.value;
    }
  }

  /**
   * The escape processing of parseString from index i of the text between the
   * quotes. v is the whole operand, quotes included, so the character at index
   * i of inner is character i + 1 of v: a backslash at i is unescaped from
   * v.substring(i + 1), and a lone trailing backslash is reported at
   * v.substring(i).
   */
  function UnescapeFrom(v: View, inner: string, i: nat): (r: Outcome<string>)
    requires v.Valid()
    requires i <= |inner|
    decreases |inner| - i
  {
    if i == |inner| then Done("")
    else if inner[i] == '\\' && i + 1 < |inner| then
      match Unescape(inner[i + 1], v.SubstringFrom(i + 1).value)
      case Ok(c) => Prefixed([c], UnescapeFrom(v, inner, i + 2))
      case Err(e) => Fail(e)
    else if inner[i] == '\\' then Error("Invalid escape sequence", v.SubstringFrom(i).value)
    else Prefixed([inner[i]], UnescapeFrom(v, inner, i + 1))
  }

  /** parseString: the text must start and end with a double quote; the rest is unescaped. */
  function ParseStringSpec(v: View): (r: Outcome<string>)
    requires v.Valid()
  {
    match v.ToString()
    case Err(e) => Crash(e)
    case Ok(s) =>
      if !StartsWith(s, "\"") || !EndsWith(s, "\"") then Error("Invalid string", v)
      else if |s| == 1 then Crash(StringIndexOutOfBounds)
      else UnescapeFrom(v, s[1..|s| - 1], 0)
  }

  /** parseString as written: a loop over the text that skips the escaped letter. */
  method ParseString(v: View) returns (r: Outcome<string>)
    requires v.Valid()
    ensures r == ParseStringSpec(v)
  {
    var t := v.ToString();
    if t.Err? {
      return Crash(t.error);
    }
    var s := t.value;
    if !StartsWith(s, "\"") || !EndsWith(s, "\"") {
      return Error("Invalid string", v);
    }
    if |s| == 1 {
      return Crash(StringIndexOutOfBounds);
    }
    var inner := s[1..|s| - 1];
    var built := "";
    var i := 0;
    PrefixedEmpty(UnescapeFrom(v, inner, 0));
    while i < |inner|
      invariant i <= |inner|
      invariant Prefixed(built, UnescapeFrom(v, inner, i)) == UnescapeFrom(v, inner, 0)
      decreases |inner| - i
    {
      var ch := inner[i];
      if ch == '\\' && i + 1 < |inner| {
        i := i + 1;
        var u := Unescape(inner[i], v.SubstringFrom(i).value);
        if u.Err? {
          return Fail(u.error);
        }
        PrefixedTwice(built, [u.value], UnescapeFrom(v, inner, i + 1));
        built := built + [u.value];
      } else if ch == '\\' && i + 1 == |inner| {
        return Error("Invalid escape sequence", v.SubstringFrom(i).value);
      } else {
        PrefixedTwice(built, [ch], UnescapeFrom(v, inner, i + 1));
        built := built + [ch];
      }
      i := i + 1;
    }
    assert built + "" == built;
    return Done(built);
  }

  /** A quoted text with no backslash is its own value, quotes removed. */
  lemma {:induction false} UnescapeVerbatim(v: View, inner: string, i: nat)
    requires v.Valid() && i <= |inner|
    requires forall k :: i <= k < |inner| ==> inner[k] != '\\'
    ensures UnescapeFrom(v, inner, i) == Done(inner[i..])
    decreases |inner| - i
  {
    if i < |inner| {
      UnescapeVerbatim(v, inner, i + 1);
      assert inner[i..] == [inner[i]] + inner[i + 1..];
    }
  }

  lemma StringWithoutEscapes(v: View)
    requires v.Valid() && !v.Inverted()
    requires var s := v.Text(); |s| >= 2 && s[0] == '"' && s[|s| - 1] == '"'
    requires forall k :: 0 <= k < |v.Text()| ==> v.Text()[k] != '\\'
    ensures ParseStringSpec(v) == Done(v.Text()[1..|v.Text()| - 1])
  {
    var s := v.Text();
    var inner := s[1..|s| - 1];
    assert StartsWith(s, "\"") && EndsWith(s, "\"");
    UnescapeVerbatim(v, inner, 0);
    assert inner[0..] == inner;
  }

  /** The escaping a writer of jasm source would apply: a backslash before each escapable character. */
  function Escaped(x: string): (r: string)
  {
    if x == [] then ""
    else
      var rest := Escaped(x[1..]);
      match EscapeLetter(x[0])
      case Some(letter) => ['\\', letter] + rest
      case None => [x[0]] + rest
  }

  lemma EscapeLetterIsEscape(c: char)
    requires EscapeLetter(c).Some?
    ensures IsEscapeLetter(EscapeLetter(c).value)
    ensures Unescape(EscapeLetter(c).value, View("", 0, 0)).Ok?
  {
  }

  /** Unescaping the escaped text from any point where it starts gives the text back. */
  lemma {:induction false} UnescapeEscaped(v: View, p: string, x: string)
    requires v.Valid()
    ensures UnescapeFrom(v, p + Escaped(x), |p|) == Done(x)
    decreases |x|
  {
    var inner := p + Escaped(x);
    if x == [] {
      assert inner == p;
    } else {
      var rest := Escaped(x[1..]);
      match EscapeLetter(x[0])
      case Some(letter) =>
        assert inner == (p + ['\\', letter]) + rest;
        assert inner[|p|] == '\\' && inner[|p| + 1] == letter;
        UnescapeEscaped(v, p + ['\\', letter], x[1..]);
        var u := Unescape(letter, v.SubstringFrom(|p| + 1).value);
        assert u == Ok(x[0]);
        assert [x[0]] + x[1..] == x;
      case None =>
        assert inner == (p + [x[0]]) + rest;
        assert inner[|p|] == x[0];
        UnescapeEscaped(v, p + [x[0]], x[1..]);
        assert [x[0]] + x[1..] == x;
    }
  }

  /** Quoting and escaping any text, then parsing it as a string operand, gives the text back. */
  lemma StringRoundTrip(x: string)
    ensures ParseStringSpec(Of("\"" + Escaped(x) + "\"")) == Done(x)
  {
    var s := "\"" + Escaped(x) + "\"";
    var v := Of(s);
    assert StartsWith(s, "\"") && EndsWith(s, "\"");
    assert s[1..|s| - 1] == [] + Escaped(x);
    UnescapeEscaped(v, [], x);
  }

  // ---------------------------------------------------------------- names and keywords

  /** [a-zA-Z_$][a-zA-Z0-9$/]+ : at least two characters, and no _ after the first. */
  predicate IsClassNameText(s: string)
  {
    |s| >= 2 && (IsAsciiLetter(s[0]) || s[0] == '_' || s[0] == '$')
    && forall i :: 1 <= i < |s| ==> IsAsciiLetter(s[i]) || IsDigit(s[i]) || s[i] == '$' || s[i] == '/'
  }

  function ParseClassName(v: View): (r: Outcome<string>)
    requires v.Valid()
    ensures !v.Inverted() ==> (r.Done? <==> IsClassNameText(v.Text()))
    ensures r.Done? ==> r.value == v.Text()
    ensures r.Fail? ==> r == Error("Invalid class name", v)
  {
    match v.ToString()
    case Err(e) => Crash(e)
    case Ok(s) => if IsClassNameText(s) then Done(s) else Error("Invalid class name", v)
  }

  /** The newarray keyword of each element type. */
  function Keyword(e: ArrayElement): string
  {
    match e
    case ByteElement => "byte"
    case ShortElement => "short"
    case IntElement => "int"
    case LongElement => "long"
    case FloatElement => "float"
    case DoubleElement => "double"
    case CharElement => "char"
    case BooleanElement => "boolean"
  }

  function ArrayElementOf(s: string): (r: Option<ArrayElement>)
    ensures r.Some? ==> Keyword(r.value) == s
  {
    match s
    case "byte" => Some(ByteElement)
    case "short" => Some(ShortElement)
    case "int" => Some(IntElement)
    case "long" => Some(LongElement)
    case "float" => Some(FloatElement)
    case "double" => Some(DoubleElement)
    case "char" => Some(CharElement)
    case "boolean" => Some(BooleanElement)
    case _ => None
  }

  /** parseArrayType: exactly the eight primitive keywords. */
  function ParseArrayType(v: View): (r: Outcome<ArrayElement>)
    requires v.Valid()
    ensures r.Done? ==> Keyword(r.value) == v.Text()
    ensures r.Fail? ==> r == Error("Invalid array type", v)
  {
    match v.ToString()
    case Err(e) => Crash(e)
    case Ok(s) =>
      match ArrayElementOf(s)
      case Some(e) => Done(e)
      case None => Error("Invalid array type", v)
  }

  /** Every keyword is accepted, as its own element type. */
  lemma KeywordRoundTrip(e: ArrayElement)
    ensures ArrayElementOf(Keyword(e)) == Some(e)
  {
  }

  /** parseIdentifier and parseBranchTarget: the text, unchanged. */
  function ParseText(v: View): (r: Outcome<string>)
    requires v.Valid()
    ensures r.Done? <==> !v.Inverted()
    ensures r.Done? ==> r.value == v.Text()
    ensures !r.Done? ==> r == Crash(StringIndexOutOfBounds)
  {
    match v.ToString()
    case Err(e) => Crash(e)
    case Ok(s) => Done(s)
  }

  function ParseDescriptor(v: View): (r: Outcome<string>)
    requires v.Valid()
    ensures !v.Inverted() ==> (r.Done? <==> Descriptors.ParseDescriptor(v.Text()).Some?)
    ensures r.Done? ==> r.value == v.Text()
    ensures r.Fail? ==> r == Error("Invalid type descriptor", v)
  {
    match v.ToString()
    case Err(e) => Crash(e)
    case Ok(s) => if Descriptors.ParseDescriptor(s).Some? then Done(s) else Error("Invalid type descriptor", v)
  }

  function ParseMethodDescriptor(v: View): (r: Outcome<string>)
    requires v.Valid()
    ensures !v.Inverted() ==> (r.Done? <==> Descriptors.ParseMethodDescriptor(v.Text()).Some?)
    ensures r.Done? ==> r.value == v.Text()
    ensures r.Fail? ==> r == Error("Invalid method descriptor", v)
  {
    match v.ToString()
    case Err(e) => Crash(e)
    case Ok(s) => if Descriptors.ParseMethodDescriptor(s).Some? then Done(s) else Error("Invalid method descriptor", v)
  }

  // ---------------------------------------------------------------- dispatch

  /** A recogniser's outcome with its value wrapped in an operand record. */
  function Lift<T(!new)>(o: Outcome<T>, wrap: T -> Operand, t: OperandType): (r: Outcome<Operand>)
    requires forall x :: TypeOf(wrap(x)) == t
    ensures r.Done? <==> o.Done?
    ensures r.Done? ==> r.value == wrap(o.value) && TypeOf(r.value) == t
    ensures !o.Done? ==> r == o.Forward()
  {
    if o.Done? then Done(wrap(o.value)) else o.Forward()
  }

  /** parseOperand: the recogniser of the given type; a success is an operand of that type. */
  function ParseOperand(v: View, t: OperandType, floating: string -> bool): (r: Outcome<Operand>)
    requires v.Valid()
    ensures r.Done? ==> TypeOf(r.value) == t
  {
    match t
    case IntOperand => Lift(ParseInt(v), n => Int(n), IntOperand)
    case FloatOperand => Lift(ParseFloat(v, floating), f => Float(f), FloatOperand)
    case LongOperand => Lift(ParseLong(v), n => Long(n), LongOperand)
    case DoubleOperand => Lift(ParseDouble(v, floating), d => Double(d), DoubleOperand)
    case StringOperand => Lift(ParseStringSpec(v), s => Str(s), StringOperand)
    case ClassNameOperand => Lift(ParseClassName(v), s => ClassName(s), ClassNameOperand)
    case ArrayTypeOperand => Lift(ParseArrayType(v), e => ArrayType(e), ArrayTypeOperand)
    case IdentifierOperand => Lift(ParseText(v), s => Identifier(s), IdentifierOperand)
    case DescriptorOperand => Lift(ParseDescriptor(v), s => Descriptor(s), DescriptorOperand)
    case MethodDescriptorOperand => Lift(ParseMethodDescriptor(v), s => MethodDescriptor(s), MethodDescriptorOperand)
    case BranchTargetOperand => Lift(ParseText(v), s => BranchTarget(s), BranchTargetOperand)
  }

  // ---------------------------------------------------------------- properties

  /** Identifiers and branch targets always succeed on a non-inverted view and keep the text. */
  lemma TextOperandsKeepText(v: View, floating: string -> bool)
    requires v.Valid() && !v.Inverted()
    ensures ParseOperand(v, IdentifierOperand, floating) == Done(Identifier(v.Text()))
    ensures ParseOperand(v, BranchTargetOperand, floating) == Done(BranchTarget(v.Text()))
  {
  }

  /** Every operand type reads the view with toString, so an inverted view throws. */
  lemma InvertedViewCrashes(v: View, t: OperandType, floating: string -> bool)
    requires v.Valid() && v.Inverted()
    ensures ParseOperand(v, t, floating) == Crash(StringIndexOutOfBounds)
  {
  }

  /** Printing an int and parsing it back gives the int. */
  lemma IntRoundTrip(n: int)
    requires IsInt32(n)
    ensures ParseInt(Of(IntToString(n))) == Done(n)
  {
    var s := IntToString(n);
    IntToStringRoundTrip(n);
    DecimalText(n);
    assert s[0] != '\'';
  }

  /** Printing a long with an L suffix and parsing it back gives the long. */
  lemma LongRoundTrip(n: int)
    requires IsInt64(n)
    ensures ParseLong(Of(IntToString(n) + "L")) == Done(n)
  {
    var s := IntToString(n) + "L";
    assert LongSuffixed(s);
    assert Unsuffixed(s) == IntToString(n);
    DecimalText(n);
    LongToStringRoundTrip(n);
  }

  lemma DecimalText(n: int)
    ensures IsDecimalText(IntToString(n))
  {
    var s := IntToString(n);
    var digits := NatToString(if n < 0 then -n else n);
    assert forall i :: 0 <= i < |digits| ==> IsDigit(digits[i]);
    if n < 0 {
      assert s[1..] == digits;
    } else {
      assert s == digits && s[0] != '+' && s[0] != '-';
    }
  }

  /** A quoted single character is its code: 'A' is 65. */
  lemma CharacterLiteral(c: char)
    ensures ParseInt(Of(['\'', c, '\''])) == Done(c as int)
  {
    var s := ['\'', c, '\''];
    assert s[1..|s| - 1] == [c];
  }

  /** A quoted backslash and escape letter is the escaped character's code: '\n' is 10. */
  lemma EscapedCharacterLiteral(c: char)
    requires IsEscapeLetter(c)
    ensures var s := ['\'', '\\', c, '\''];
      ParseInt(Of(s)) == Done(Unescape(c, Of(s).SubstringFrom(1).value).value as int)
    ensures ParseInt(Of(['\'', '\\', 'n', '\''])) == Done(10)
  {
    EscapedLiteral(c);
    EscapedLiteral('n');
  }

  lemma EscapedLiteral(c: char)
    requires IsEscapeLetter(c)
    ensures var s := ['\'', '\\', c, '\''];
      ParseInt(Of(s)) == Done(Unescape(c, Of(s).SubstringFrom(1).value).value as int)
  {
    var s := ['\'', '\\', c, '\''];
    assert s[1..|s| - 1] == ['\\', c];
  }

  /** A hexadecimal int matches the pattern but the code then dereferences the null decimal group. */
  lemma HexIntCrashes(v: View)
    requires v.Valid() && !v.Inverted() && IsHexText(v.Text())
    ensures ParseInt(v) == Crash(NullPointer)
  {
    assert v.Text()[0] == '0';
  }

  /** One past Integer.MAX_VALUE is refused as an int operand. */
  lemma IntOverflowRefused(v: View)
    requires v.Valid() && v.Text() == "2147483648"
    ensures ParseInt(v) == Error("Invalid integer", v)
  {
    ParseInt32Overflow();
    assert IsDecimalText(v.Text());
  }
}
