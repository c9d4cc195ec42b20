/**
 * Diagnostics: an error message with an optional source line, a line number
 * and a 1-based column, each of which may be UNSPECIFIC (-1), and the
 * user-facing text it formats to.
 */
module ErrorMessages {
  import opened Base
  import opened Chars

  const UNSPECIFIC: int := -1

  /** The caret the newer layout draws under the offending column. */
  const Caret: char := '↑'

  datatype ErrorMessage = ErrorMessage(message: string, sourceLine: Option<string>, lineNumber: int, columnNumber: int)
  {
    /** What the record constructor accepts. */
    predicate Valid()
    {
      !IsBlankText(message) && lineNumber >= UNSPECIFIC && columnNumber >= UNSPECIFIC
    }
  }

  /** The validating record constructor: message first, then line, then column. */
  function Make(message: string, sourceLine: Option<string>, lineNumber: int, columnNumber: int): (r: Result<ErrorMessage, Crash>)
    ensures r.Ok? <==> !IsBlankText(message) && lineNumber >= -1 && columnNumber >= -1
    ensures r.Ok? ==> r.value == ErrorMessage(message, sourceLine, lineNumber, columnNumber) && r.value.Valid()
    ensures IsBlankText(message) ==> r == Err(IllegalArgument("Message cannot be null or blank"))
    ensures !IsBlankText(message) && lineNumber < -1 ==> r == Err(IllegalArgument("Invalid line number: " + IntToString(lineNumber)))
    ensures !IsBlankText(message) && lineNumber >= -1 && columnNumber < -1 ==> r == Err(IllegalArgument("Invalid column number: " + IntToString(columnNumber)))
  {
    if IsBlankText(message) then Err(IllegalArgument("Message cannot be null or blank"))
    else if lineNumber < UNSPECIFIC then Err(IllegalArgument("Invalid line number: " + IntToString(lineNumber)))
    else if columnNumber < UNSPECIFIC then Err(IllegalArgument("Invalid column number: " + IntToString(columnNumber)))
    else Ok(ErrorMessage(message, sourceLine, lineNumber, columnNumber))
  }

  /** The one-argument constructor: no source line, line and column UNSPECIFIC. */
  function MakeUnplaced(message: string): (r: Result<ErrorMessage, Crash>)
    ensures r.Ok? <==> !IsBlankText(message)
    ensures r.Ok? ==> r.value.sourceLine == None && r.value.lineNumber == UNSPECIFIC && r.value.columnNumber == UNSPECIFIC
  {
    Make(message, None, UNSPECIFIC, UNSPECIFIC)
  }

  function Spaces(n: nat): (s: string)
    ensures |s| == n && forall i :: 0 <= i < n ==> s[i] == ' '
  {
    if n == 0 then [] else [' '] + Spaces(n - 1)
  }

  /** String.format("%<width>s", s): s right-aligned in width columns, never cut. */
  function PadLeft(s: string, width: nat): (r: string)
    ensures |r| == if |s| >= width then |s| else width
    ensures r[|r| - |s|..] == s
    ensures forall i :: 0 <= i < |r| - |s| ==> r[i] == ' '
  {
    if |s| >= width then s else Spaces(width - |s|) + s
  }

  /** "Error", the line when specified, then the message and a newline. */
  function Header(e: ErrorMessage): string
  {
    "Error" + (if e.lineNumber != UNSPECIFIC then " at line " + IntToString(e.lineNumber) else "")
    + ": " + e.message + "\n"
  }

  /**
   * format(): the header, then (when there is a source line) the line
   * indented by four spaces and, when the column is also specified, a caret
   * right-aligned to width column + 4.
   */
  function Format(e: ErrorMessage): (s: string)
    requires e.Valid()
    ensures Header(e) <= s
    ensures e.sourceLine.None? ==> s == Header(e)
  {
    Header(e) + Echo(e)
  }

  /** The echoed source line and the caret line, or nothing. */
  function Echo(e: ErrorMessage): string
    requires e.Valid()
  {
    match e.sourceLine
    case None => ""
    case Some(line) =>
      "    " + line + "\n"
      + (if e.columnNumber != UNSPECIFIC then PadLeft([Caret], e.columnNumber + 4) + "\n" else "")
  }

  /** With a source line and a column, the output ends with the caret line. */
  lemma FormatCaretLine(e: ErrorMessage)
    requires e.Valid() && e.sourceLine.Some? && e.columnNumber != UNSPECIFIC
    ensures var caretLine := Spaces(e.columnNumber + 3) + [Caret, '\n'];
      Format(e) == Header(e) + "    " + e.sourceLine.value + "\n" + caretLine
  {
    assert PadLeft([Caret], e.columnNumber + 4) == Spaces(e.columnNumber + 3) + [Caret];
  }

  /**
   * The caret sits under the column: in the echoed line (four spaces, then
   * the source line) the character above the caret is source character
   * number columnNumber, counting from 1.
   */
  lemma CaretUnderColumn(e: ErrorMessage)
    requires e.Valid() && e.sourceLine.Some? && 1 <= e.columnNumber <= |e.sourceLine.value|
    ensures var echoed := "    " + e.sourceLine.value; var caretLine := PadLeft([Caret], e.columnNumber + 4);
      |caretLine| - 1 < |echoed| && caretLine[|caretLine| - 1] == Caret
      && echoed[|caretLine| - 1] == e.sourceLine.value[e.columnNumber - 1]
  {
  }

  /** The output has one line, two with a source line, three with a column as well. */
  lemma FormatLineCount(e: ErrorMessage)
    requires e.Valid() && NoNewline(e.message)
    requires e.sourceLine.Some? ==> NoNewline(e.sourceLine.value)
    ensures NewlineCount(Format(e)) ==
      if e.sourceLine.None? then 1 else if e.columnNumber == UNSPECIFIC then 2 else 3
  {
    HeaderNewlines(e);
    EchoNewlines(e);
    NewlineCountAppend(Header(e), Echo(e));
  }

  lemma EchoNewlines(e: ErrorMessage)
    requires e.Valid()
    requires e.sourceLine.Some? ==> NoNewline(e.sourceLine.value)
    ensures NewlineCount(Echo(e)) ==
      if e.sourceLine.None? then 0 else if e.columnNumber == UNSPECIFIC then 1 else 2
  {
    match e.sourceLine
    case None =>
    case Some(line) =>
      var indented := "    " + line;
      IndentedNoNewline(line);
      if e.columnNumber != UNSPECIFIC {
        var caret := PadLeft([Caret], e.columnNumber + 4);
        CaretNoNewline(e.columnNumber + 4);
        assert Echo(e) == indented + "\n" + (caret + "\n");
        TwoLines(indented, caret);
      } else {
        assert Echo(e) == indented + "\n";
        LineNewlines(indented);
      }
  }

  lemma TwoLines(a: string, b: string)
    requires NoNewline(a) && NoNewline(b)
    ensures NewlineCount(a + "\n" + (b + "\n")) == 2
  {
    LineNewlines(a);
    LineNewlines(b);
    NewlineCountAppend(a + "\n", b + "\n");
  }

  predicate NoNewline(s: string)
  {
    forall i :: 0 <= i < |s| ==> s[i] != '\n'
  }

  lemma IndentedNoNewline(line: string)
    requires NoNewline(line)
    ensures NoNewline("    " + line)
  {
    forall i | 0 <= i < |"    " + line| ensures ("    " + line)[i] != '\n' {
      if i >= 4 {
        assert ("    " + line)[i] == line[i - 4];
      }
    }
  }

  lemma CaretNoNewline(width: nat)
    ensures NoNewline(PadLeft([Caret], width))
  {
    var r := PadLeft([Caret], width);
    forall i | 0 <= i < |r| ensures r[i] != '\n' {
      if i == |r| - 1 {
        assert r[|r| - 1..] == [Caret];
      }
    }
  }

  lemma LineNewlines(s: string)
    requires NoNewline(s)
    ensures NewlineCount(s + "\n") == 1
  {
    NewlineCountNone(s);
    NewlineCountAppend(s, "\n");
  }

  lemma HeaderNewlines(e: ErrorMessage)
    requires NoNewline(e.message)
    ensures NewlineCount(Header(e)) == 1
  {
    var number := if e.lineNumber != UNSPECIFIC then " at line " + IntToString(e.lineNumber) else "";
    NoNewlineInInt(e.lineNumber);
    var line := "Error" + number + ": " + e.message;
    assert NoNewline(line) by {
      assert line == "Error" + number + ": " + e.message;
      forall i | 0 <= i < |line| ensures line[i] != '\n' {
        if i >= |"Error" + number + ": "| {
          assert line[i] == e.message[i - |"Error" + number + ": "|];
        }
      }
    }
    LineNewlines(line);
  }

  function NewlineCount(s: string): nat
  {
    if s == [] then 0 else NewlineCount(s[..|s| - 1]) + (if s[|s| - 1] == '\n' then 1 else 0)
  }

  lemma {:induction false} NewlineCountAppend(a: string, b: string)
    ensures NewlineCount(a + b) == NewlineCount(a) + NewlineCount(b)
    decreases |b|
  {
    if b == [] {
      assert a + b == a;
    } else {
      NewlineCountAppend(a, b[..|b| - 1]);
      assert (a + b)[..|a + b| - 1] == a + b[..|b| - 1];
    }
  }

  lemma {:induction false} NewlineCountNone(s: string)
    requires NoNewline(s)
    ensures NewlineCount(s) == 0
  {
    if s != [] {
      NewlineCountNone(s[..|s| - 1]);
    }
  }

  lemma NoNewlineInInt(v: int)
    ensures NoNewline(IntToString(v))
  {
    var digits := if v < 0 then NatToString(-v) else NatToString(v);
    assert forall i :: 0 <= i < |digits| ==> IsDigit(digits[i]);
  }
}

/**
 * The older diagnostic layout: the source line is echoed without indent and
 * the caret is a three-character text right-aligned to width columnNumber.
 * Column 0 makes the format string "%0s", which java.util.Formatter rejects.
 */
module LegacyErrorMessages {
  import opened Base
  import opened Chars
  import opened ErrorMessages

  /** The caret text as the older source spells it (three characters). */
  const LegacyCaret: string := "â†‘"

  function Format(e: ErrorMessage): (r: Result<string, Crash>)
    requires e.Valid()
    ensures r.Err? <==> e.sourceLine.Some? && e.columnNumber == 0
    ensures r.Err? ==> r.error == FormatFlagsMismatch
    ensures r.Ok? ==> Header(e) <= r.value
  {
    match e.sourceLine
    case None => Ok(Header(e))
    case Some(line) =>
      if e.columnNumber == UNSPECIFIC then Ok(Header(e) + line + "\n")
      else if e.columnNumber == 0 then Err(FormatFlagsMismatch)
      else Ok(Header(e) + line + "\n" + PadLeft(LegacyCaret, e.columnNumber) + "\n")
  }

  /**
   * For columns of 3 or more the last character of the caret text ends at
   * the column; narrower columns get no padding at all.
   */
  lemma LegacyCaretPlacement(e: ErrorMessage)
    requires e.Valid() && e.sourceLine.Some? && e.columnNumber >= 1
    ensures var caretLine := PadLeft(LegacyCaret, e.columnNumber);
      |caretLine| == (if e.columnNumber >= 3 then e.columnNumber else 3)
      && caretLine[|caretLine| - 3..] == LegacyCaret
    ensures Format(e) == Ok(Header(e) + e.sourceLine.value + "\n" + PadLeft(LegacyCaret, e.columnNumber) + "\n")
  {
  }
}
