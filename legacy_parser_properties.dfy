/**
 * What the older parser's dispatch and parse loop promise, and where it
 * agrees with the newer one.
 */
module LegacyParserProperties {
  import opened Base
  import opened Chars
  import opened StringViews
  import Parser
  import ParserProperties
  import opened LegacyParser

  /** The newer parser's state of the same name. */
  function Newer(st: State): Parser.State
  {
    if st == Global then Parser.Global else Parser.Code
  }

  /**
   * The only moves are Global to Code on `.code` and Code to Global on a
   * `.end` whose tail ends in "code", each announced by its callback as the
   * line's last event; an abort never moves.
   */
  lemma DispatchSteps(st: State, head: View, tail: View, alphabetic: char -> bool)
    requires head.Valid() && tail.Valid() && !head.Inverted() && !tail.Inverted()
    ensures var (r, next) := Dispatch(st, head, tail, alphabetic);
      && (next != st <==> (st == Global && head.Text() == ".code")
                          || (st == Code && head.Text() == ".end" && EndsWith(tail.Text(), "code")))
      && (next != st ==> |r.events| > 0 && r.events[|r.events| - 1] == (if st == Global then Parser.CodeDirective else Parser.EndCodeDirective))
      && (r.abort ==> next == st)
  {
  }

  /** checkGlobalState's message as this parser words it, with no hint about .end code. */
  lemma BareMisplacedMessage(head: View)
    ensures Parser.Misplaced("", head).events == [Parser.ExceptionOccurred(head.Text() + " unexpected here", head.start, head.source)]
  {
    assert head.Text() + " unexpected here" + "" == head.Text() + " unexpected here";
  }

  /**
   * A line aborts exactly when a Global-only directive appears in Code or an
   * end-code line appears in Global; the abort comes with one diagnostic and
   * nothing else.
   */
  lemma AbortOnlyWhenMisplaced(st: State, head: View, tail: View, alphabetic: char -> bool)
    requires head.Valid() && tail.Valid() && !head.Inverted() && !tail.Inverted()
    ensures var (r, next) := Dispatch(st, head, tail, alphabetic);
      var h := head.Text();
      && (r.abort <==> (ParserProperties.GlobalOnly(h) && st == Code) || (h == ".end" && EndsWith(tail.Text(), "code") && st == Global))
      && (r.abort ==> next == st && r.crash.None?
                      && r.events == [Parser.ExceptionOccurred(if h == ".end" then ".end code unexpected here" else h + " unexpected here", head.start, head.source)])
  {
    BareMisplacedMessage(head);
  }

  /** A `.end` whose tail merely ends in "code" closes the code block like `.end code`. */
  lemma EndCodeBySuffix(head: View, tail: View, alphabetic: char -> bool)
    requires head.Valid() && tail.Valid() && !head.Inverted() && !tail.Inverted()
    requires head.Text() == ".end" && EndsWith(tail.Text(), "code")
    ensures Dispatch(Code, head, tail, alphabetic) == (Parser.Response([Parser.EndCodeDirective], false, None), Global)
  {
  }

  /**
   * There are no tables: `.table` is an invalid directive inside code and an
   * unexpected token outside it, and `.end table` is an unexpected token.
   */
  lemma NoTables(st: State, head: View, tail: View, alphabetic: char -> bool)
    requires head.Valid() && tail.Valid() && !head.Inverted() && !tail.Inverted()
    ensures head.Text() == ".table" ==>
      Dispatch(st, head, tail, alphabetic)
        == (Parser.Response([Parser.ExceptionOccurred(if st == Code then "Invalid directive" else "Unexpected token: .table", head.start, head.source)], false, None), st)
    ensures head.Text() == ".end" && tail.Text() == "table" ==>
      Dispatch(st, head, tail, alphabetic)
        == (Parser.Response([Parser.ExceptionOccurred("Unexpected token: table", tail.start, tail.source)], false, None), st)
  {
    if head.Text() == ".table" {
      TableIsNoDirective(st, head, tail, alphabetic);
    }
    if head.Text() == ".end" && tail.Text() == "table" {
      EndTableIsNoDirective(st, head, tail, alphabetic);
    }
  }

  lemma TableIsNoDirective(st: State, head: View, tail: View, alphabetic: char -> bool)
    requires head.Valid() && tail.Valid() && !head.Inverted() && !tail.Inverted()
    requires head.Text() == ".table"
    ensures Dispatch(st, head, tail, alphabetic)
      == (Parser.Response([Parser.ExceptionOccurred(if st == Code then "Invalid directive" else "Unexpected token: .table", head.start, head.source)], false, None), st)
  {
    assert !EndsWith(".table", ":");
    assert StartsWith(".table", ".");
    assert "Unexpected token: " + ".table" == "Unexpected token: .table";
  }

  lemma EndTableIsNoDirective(st: State, head: View, tail: View, alphabetic: char -> bool)
    requires head.Valid() && tail.Valid() && !head.Inverted() && !tail.Inverted()
    requires head.Text() == ".end" && tail.Text() == "table"
    ensures Dispatch(st, head, tail, alphabetic)
      == (Parser.Response([Parser.ExceptionOccurred("Unexpected token: table", tail.start, tail.source)], false, None), st)
  {
    assert !EndsWith("table", "code");
    assert "Unexpected token: " + "table" == "Unexpected token: table";
  }

  /** In Global the handlers never use the wording of their misplacement diagnostic. */
  lemma WordingUnusedInGlobal(head: View, tail: View, b: bool)
    requires head.Valid() && tail.Valid()
    ensures Parser.SourceResponse(true, "", head, tail) == Parser.SourceResponse(true, Parser.MissingEndCode, head, tail)
    ensures Parser.ClassResponse(true, "", head, tail) == Parser.ClassResponse(true, Parser.MissingEndCode, head, tail)
    ensures Parser.NameResponse(true, "", head, tail, b) == Parser.NameResponse(true, Parser.MissingEndCode, head, tail, b)
    ensures Parser.MemberResponse(true, "", head, tail, b) == Parser.MemberResponse(true, Parser.MissingEndCode, head, tail, b)
    ensures Parser.CodeResponse(true, "", head, tail) == Parser.CodeResponse(true, Parser.MissingEndCode, head, tail)
  {
  }

  /**
   * Away from `.table` and `.end`, and from the Global-only directives inside
   * code (where only the wording differs), the two parsers answer a line the
   * same way and land in the same state.
   */
  lemma AgreesWithNewer(st: State, head: View, tail: View, alphabetic: char -> bool)
    requires head.Valid() && tail.Valid() && !head.Inverted() && !tail.Inverted()
    requires head.Text() != ".table" && head.Text() != ".end"
    requires st == Global || !ParserProperties.GlobalOnly(head.Text())
    ensures var (r, next) := Dispatch(st, head, tail, alphabetic);
      var (r', next') := Parser.Dispatch(Newer(st), head, tail, alphabetic);
      r == r' && Newer(next) == next'
  {
    if st == Global {
      AgreesInGlobal(head, tail, alphabetic);
    } else {
      AgreesInCode(head, tail, alphabetic);
    }
  }

  lemma AgreesInGlobal(head: View, tail: View, alphabetic: char -> bool)
    requires head.Valid() && tail.Valid() && !head.Inverted() && !tail.Inverted()
    requires head.Text() != ".table" && head.Text() != ".end"
    ensures var (r, next) := Dispatch(Global, head, tail, alphabetic);
      var (r', next') := Parser.Dispatch(Parser.Global, head, tail, alphabetic);
      r == r' && Newer(next) == next'
  {
    var h := head.Text();
    if h == ".source" || h == ".class" || h == ".interface" || h == ".enum" || h == ".super" {
      AgreesOnDeclaration(head, tail, alphabetic);
    } else if h == ".field" {
      AgreesOnField(head, tail, alphabetic);
    } else if h == ".method" {
      AgreesOnMethod(head, tail, alphabetic);
    } else if h == ".implements" {
      AgreesOnImplements(head, tail, alphabetic);
    } else if h == ".code" {
      AgreesOnCode(head, tail, alphabetic);
    }
  }

  lemma AgreesOnDeclaration(head: View, tail: View, alphabetic: char -> bool)
    requires head.Valid() && tail.Valid() && !head.Inverted() && !tail.Inverted()
    requires var h := head.Text(); h == ".source" || h == ".class" || h == ".interface" || h == ".enum" || h == ".super"
    ensures var (r, next) := Dispatch(Global, head, tail, alphabetic);
      var (r', next') := Parser.Dispatch(Parser.Global, head, tail, alphabetic);
      r == r' && next == Global && next' == Parser.Global
  {
    WordingUnusedInGlobal(head, tail, false);
  }

  lemma AgreesOnField(head: View, tail: View, alphabetic: char -> bool)
    requires head.Valid() && tail.Valid() && !head.Inverted() && !tail.Inverted()
    requires head.Text() == ".field"
    ensures var (r, next) := Dispatch(Global, head, tail, alphabetic);
      var (r', next') := Parser.Dispatch(Parser.Global, head, tail, alphabetic);
      r == r' && Newer(next) == next'
  {
    WordingUnusedInGlobal(head, tail, false);
    MemberDispatch(head, tail, alphabetic, false);
  }

  /** Both parsers hand a global .field or .method line to the same member handler. */
  lemma MemberDispatch(head: View, tail: View, alphabetic: char -> bool, isMethod: bool)
    requires head.Valid() && tail.Valid() && !head.Inverted() && !tail.Inverted()
    requires head.Text() == if isMethod then ".method" else ".field"
    ensures Dispatch(Global, head, tail, alphabetic) == (Parser.MemberResponse(true, "", head, tail, isMethod), Global)
    ensures Parser.Dispatch(Parser.Global, head, tail, alphabetic)
      == (Parser.MemberResponse(true, Parser.MissingEndCode, head, tail, isMethod), Parser.Global)
  {
    OlderMemberDispatch(head, tail, alphabetic, isMethod);
    NewerMemberDispatch(head, tail, alphabetic, isMethod);
  }

  lemma OlderMemberDispatch(head: View, tail: View, alphabetic: char -> bool, isMethod: bool)
    requires head.Valid() && tail.Valid() && !head.Inverted() && !tail.Inverted()
    requires head.Text() == if isMethod then ".method" else ".field"
    ensures Dispatch(Global, head, tail, alphabetic) == (Parser.MemberResponse(true, "", head, tail, isMethod), Global)
  {
    var h := head.Text();
    assert h[1] == if isMethod then 'm' else 'f';
    assert h != ".source" && h != ".class" && h != ".interface" && h != ".enum";
    assert h != ".super" && h != ".implements";
  }

  lemma NewerMemberDispatch(head: View, tail: View, alphabetic: char -> bool, isMethod: bool)
    requires head.Valid() && tail.Valid() && !head.Inverted() && !tail.Inverted()
    requires head.Text() == if isMethod then ".method" else ".field"
    ensures Parser.Dispatch(Parser.Global, head, tail, alphabetic)
      == (Parser.MemberResponse(true, Parser.MissingEndCode, head, tail, isMethod), Parser.Global)
  {
    var h := head.Text();
    assert h[1] == if isMethod then 'm' else 'f';
    assert h != ".source" && h != ".class" && h != ".interface" && h != ".enum";
    assert h != ".super" && h != ".implements";
  }

  /** Both parsers hand a global .super or .implements line to the same name handler. */
  lemma NameDispatch(head: View, tail: View, alphabetic: char -> bool, implements: bool)
    requires head.Valid() && tail.Valid() && !head.Inverted() && !tail.Inverted()
    requires head.Text() == if implements then ".implements" else ".super"
    ensures Dispatch(Global, head, tail, alphabetic) == (Parser.NameResponse(true, "", head, tail, implements), Global)
    ensures Parser.Dispatch(Parser.Global, head, tail, alphabetic)
      == (Parser.NameResponse(true, Parser.MissingEndCode, head, tail, implements), Parser.Global)
  {
    var h := head.Text();
    assert h[1] == if implements then 'i' else 's';
    assert h != ".source" && h != ".class" && h != ".interface" && h != ".enum";
  }

  /** Both parsers hand a global .code line to the same handler and move to Code unless it aborts. */
  lemma CodeDispatch(head: View, tail: View, alphabetic: char -> bool)
    requires head.Valid() && tail.Valid() && !head.Inverted() && !tail.Inverted()
    requires head.Text() == ".code"
    ensures var r := Parser.CodeResponse(true, "", head, tail);
      Dispatch(Global, head, tail, alphabetic) == (r, if r.abort then Global else Code)
    ensures var r := Parser.CodeResponse(true, Parser.MissingEndCode, head, tail);
      Parser.Dispatch(Parser.Global, head, tail, alphabetic) == (r, Parser.Next(Parser.Global, r, Parser.Code))
  {
  }

  lemma AgreesOnMethod(head: View, tail: View, alphabetic: char -> bool)
    requires head.Valid() && tail.Valid() && !head.Inverted() && !tail.Inverted()
    requires head.Text() == ".method"
    ensures var (r, next) := Dispatch(Global, head, tail, alphabetic);
      var (r', next') := Parser.Dispatch(Parser.Global, head, tail, alphabetic);
      r == r' && Newer(next) == next'
  {
    WordingUnusedInGlobal(head, tail, true);
    MemberDispatch(head, tail, alphabetic, true);
  }

  lemma AgreesOnImplements(head: View, tail: View, alphabetic: char -> bool)
    requires head.Valid() && tail.Valid() && !head.Inverted() && !tail.Inverted()
    requires head.Text() == ".implements"
    ensures var (r, next) := Dispatch(Global, head, tail, alphabetic);
      var (r', next') := Parser.Dispatch(Parser.Global, head, tail, alphabetic);
      r == r' && Newer(next) == next'
  {
    WordingUnusedInGlobal(head, tail, true);
    NameDispatch(head, tail, alphabetic, true);
  }

  lemma AgreesOnCode(head: View, tail: View, alphabetic: char -> bool)
    requires head.Valid() && tail.Valid() && !head.Inverted() && !tail.Inverted()
    requires head.Text() == ".code"
    ensures var (r, next) := Dispatch(Global, head, tail, alphabetic);
      var (r', next') := Parser.Dispatch(Parser.Global, head, tail, alphabetic);
      r == r' && Newer(next) == next'
  {
    WordingUnusedInGlobal(head, tail, true);
    CodeDispatch(head, tail, alphabetic);
  }

  lemma AgreesInCode(head: View, tail: View, alphabetic: char -> bool)
    requires head.Valid() && tail.Valid() && !head.Inverted() && !tail.Inverted()
    requires head.Text() != ".table" && head.Text() != ".end" && !ParserProperties.GlobalOnly(head.Text())
    ensures var (r, next) := Dispatch(Code, head, tail, alphabetic);
      var (r', next') := Parser.Dispatch(Parser.Code, head, tail, alphabetic);
      r == r' && next == Code && next' == Parser.Code
  {
  }

  /** Once aborted, the remaining lines change nothing at all. */
  lemma {:induction false} AbortedSkips(p: Snapshot, lines: seq<string>, alphabetic: char -> bool)
    requires p.aborted
    ensures ProcessAll(p, lines, alphabetic) == (p, None)
    decreases |lines|
  {
    if lines != [] {
      AbortedSkips(p, lines[1..], alphabetic);
    }
  }

  /** An aborted parser still ends its parse with endOfFile. */
  lemma AbortedParse(p: Snapshot, lines: seq<string>, alphabetic: char -> bool)
    requires p.aborted
    ensures ParseSpec(p, lines, alphabetic) == (p.(fired := p.fired + [Parser.Notice(Parser.Event.EndOfInput, p.line, p.lineNumber)]), None)
  {
    AbortedSkips(p, lines, alphabetic);
  }

  /** Processing lines only adds callbacks after those already made. */
  lemma {:induction false} ProcessAllExtends(p: Snapshot, lines: seq<string>, alphabetic: char -> bool)
    ensures var q := ProcessAll(p, lines, alphabetic).0;
      |p.fired| <= |q.fired| && q.fired[..|p.fired|] == p.fired
    decreases |lines|
  {
    if lines != [] {
      var (q, c) := ProcessSpec(p, lines[0], alphabetic);
      assert |p.fired| <= |q.fired| && q.fired[..|p.fired|] == p.fired;
      if c.None? {
        ProcessAllExtends(q, lines[1..], alphabetic);
      }
    }
  }

  /**
   * parse() that no exception escapes keeps the earlier callbacks, adds
   * endOfFile as its last one, and leaves the state where the lines left it.
   */
  lemma EndOfFileLast(p: Snapshot, lines: seq<string>, alphabetic: char -> bool)
    ensures var (q, c) := ParseSpec(p, lines, alphabetic);
      c.None? ==>
        && |p.fired| < |q.fired| && q.fired[..|p.fired|] == p.fired
        && q.fired[|q.fired| - 1] == Parser.Notice(Parser.Event.EndOfInput, q.line, q.lineNumber)
        && q.state == ProcessAll(p, lines, alphabetic).0.state
  {
    var (q, c) := ProcessAll(p, lines, alphabetic);
    ProcessAllExtends(p, lines, alphabetic);
    if c.None? {
      var s := q.fired + [Parser.Notice(Parser.Event.EndOfInput, q.line, q.lineNumber)];
      assert s[..|p.fired|] == q.fired[..|p.fired|];
      assert ParseSpec(p, lines, alphabetic).0.fired == s;
    }
  }

  /**
   * Nothing stops a second parse: it runs its lines and fires endOfFile
   * again, after the first one's.
   */
  lemma SecondParseRuns(p: Snapshot, lines: seq<string>, more: seq<string>, alphabetic: char -> bool)
    requires ParseSpec(p, lines, alphabetic).1.None?
    ensures var q := ParseSpec(p, lines, alphabetic).0;
      var (s, c) := ParseSpec(q, more, alphabetic);
      c.None? ==>
        && |q.fired| < |s.fired|
        && q.fired[|q.fired| - 1].event == Parser.Event.EndOfInput
        && s.fired[|q.fired| - 1].event == Parser.Event.EndOfInput
        && s.fired[|s.fired| - 1].event == Parser.Event.EndOfInput
  {
    var q := ParseSpec(p, lines, alphabetic).0;
    EndOfFileLast(p, lines, alphabetic);
    EndOfFileLast(q, more, alphabetic);
    var s := ParseSpec(q, more, alphabetic).0;
    if |q.fired| < |s.fired| && s.fired[..|q.fired|] == q.fired {
      assert s.fired[|q.fired| - 1] == s.fired[..|q.fired|][|q.fired| - 1];
    }
  }
}
