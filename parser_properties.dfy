/**
 * What the newer parser promises across lines: the states it moves through,
 * when it aborts or lets an exception escape, which line each callback sees,
 * and that endOfInput is the last callback of a parse.
 */
module ParserProperties {
  import opened Base
  import opened Chars
  import opened StringViews
  import Descriptors
  import opened Parser

  // ---------------------------------------------------------------- the states

  /** The moves process() can make: .code, .end code, .table and .end table. */
  predicate Step(from: State, to: State)
  {
    from == to
    || (from == Global && to == Code)
    || (from == Code && (to == Global || to == Table))
    || (from == Table && to == Code)
  }

  /** The callback that announces a move. */
  function Marker(from: State, to: State): Event
  {
    if from == Global then CodeDirective
    else if from == Table then EndTableDirective
    else if to == Table then TableDirective
    else EndCodeDirective
  }

  /** The directives that checkGlobalState guards. */
  predicate GlobalOnly(h: string)
  {
    h == ".source" || h == ".class" || h == ".interface" || h == ".enum" || h == ".super"
    || h == ".implements" || h == ".field" || h == ".method" || h == ".code"
  }

  lemma CodeTransition(st: State, head: View, tail: View, alphabetic: char -> bool)
    requires head.Valid() && tail.Valid() && !head.Inverted() && !tail.Inverted()
    requires st == Global || st == Code
    requires head.Text() == ".code"
    ensures var (r, next) := Dispatch(st, head, tail, alphabetic);
      next == (if st == Global then Code else st)
      && (next != st ==> |r.events| > 0 && r.events[|r.events| - 1] == CodeDirective)
  {
  }

  lemma TableTransition(st: State, head: View, tail: View, alphabetic: char -> bool)
    requires head.Valid() && tail.Valid() && !head.Inverted() && !tail.Inverted()
    requires st == Global || st == Code
    requires head.Text() == ".table"
    ensures var (r, next) := Dispatch(st, head, tail, alphabetic);
      next == (if st == Code then Table else st)
      && (next != st ==> |r.events| > 0 && r.events[|r.events| - 1] == TableDirective)
  {
  }

  lemma EndTransition(st: State, head: View, tail: View, alphabetic: char -> bool)
    requires head.Valid() && tail.Valid() && !head.Inverted() && !tail.Inverted()
    requires st == Global || st == Code || st == Table
    requires head.Text() == ".end"
    ensures var (r, next) := Dispatch(st, head, tail, alphabetic);
      Step(st, next) && (next != st ==> |r.events| > 0 && r.events[|r.events| - 1] == Marker(st, next))
  {
  }

  /**
   * One line moves the parser along one of the four directives' edges or not
   * at all, and the last callback of a move is the directive that made it.
   */
  lemma DispatchSteps(st: State, head: View, tail: View, alphabetic: char -> bool)
    requires head.Valid() && tail.Valid() && !head.Inverted() && !tail.Inverted()
    requires st == Global || st == Code || st == Table
    ensures var (r, next) := Dispatch(st, head, tail, alphabetic);
      Step(st, next)
      && (next != st ==> |r.events| > 0 && r.events[|r.events| - 1] == Marker(st, next))
      && (r.abort ==> next == st)
  {
    var h := head.Text();
    if st != Table {
      if h == ".code" {
        CodeTransition(st, head, tail, alphabetic);
      } else if h == ".table" {
        TableTransition(st, head, tail, alphabetic);
      } else if h == ".end" {
        EndTransition(st, head, tail, alphabetic);
      }
    } else if h == ".end" && tail.Text() == "table" {
      EndTransition(st, head, tail, alphabetic);
    }
  }

  /** Inside a table only ".end table" leaves it, and nothing there aborts or throws. */
  lemma TableStateConfined(head: View, tail: View, alphabetic: char -> bool)
    requires head.Valid() && tail.Valid() && !head.Inverted() && !tail.Inverted()
    ensures var (r, next) := Dispatch(Table, head, tail, alphabetic);
      !r.abort && r.crash.None? && |r.events| <= 1
      && (next == Code <==> head.Text() == ".end" && tail.Text() == "table")
      && (next != Code ==> next == Table)
  {
  }

  // ---------------------------------------------------------------- aborts and exceptions

  /**
   * A line aborts the parse exactly when a directive is out of place: a
   * class-level directive outside the global state, .table outside code, or
   * .end code outside code. The abort comes with a single diagnostic.
   */
  lemma AbortOnlyWhenMisplaced(st: State, head: View, tail: View, alphabetic: char -> bool)
    requires head.Valid() && tail.Valid() && !head.Inverted() && !tail.Inverted()
    ensures var (r, next) := Dispatch(st, head, tail, alphabetic);
      var h := head.Text();
      (r.abort <==> st != Table && ((GlobalOnly(h) && st != Global)
                                  || (h == ".table" && st != Code)
                                  || (h == ".end" && tail.Text() == "code" && st != Code)))
      && (r.abort ==> |r.events| == 1 && r.events[0].ExceptionOccurred? && r.crash.None? && next == st)
  {
    AbortsWhere(st, head, tail, alphabetic);
    AbortShape(st, head, tail, alphabetic);
  }

  lemma AbortsWhere(st: State, head: View, tail: View, alphabetic: char -> bool)
    requires head.Valid() && tail.Valid() && !head.Inverted() && !tail.Inverted()
    ensures var h := head.Text();
      Dispatch(st, head, tail, alphabetic).0.abort
      <==> st != Table && ((GlobalOnly(h) && st != Global)
                          || (h == ".table" && st != Code)
                          || (h == ".end" && tail.Text() == "code" && st != Code))
  {
    var h := head.Text();
    if st == Table {
    } else if GlobalOnly(h) {
    } else if h == ".table" {
    } else if h == ".end" {
    }
  }

  lemma AbortShape(st: State, head: View, tail: View, alphabetic: char -> bool)
    requires head.Valid() && tail.Valid() && !head.Inverted() && !tail.Inverted()
    ensures var (r, next) := Dispatch(st, head, tail, alphabetic);
      r.abort ==> |r.events| == 1 && r.events[0].ExceptionOccurred? && r.crash.None? && next == st
  {
    AbortsWhere(st, head, tail, alphabetic);
    var h := head.Text();
    if Dispatch(st, head, tail, alphabetic).0.abort {
      if GlobalOnly(h) {
      } else if h == ".table" {
      }
    }
  }

  /**
   * Only two handlers let an exception escape, both in the global state: a
   * class directive with no name and a member directive with fewer than two
   * words.
   */
  lemma CrashSources(st: State, head: View, tail: View, alphabetic: char -> bool)
    requires head.Valid() && tail.Valid() && !head.Inverted() && !tail.Inverted()
    ensures var (r, next) := Dispatch(st, head, tail, alphabetic);
      var h := head.Text();
      r.crash.Some? ==>
        st == Global && next == st
        && ((r.crash == Some(NoSuchElement) && (h == ".class" || h == ".interface" || h == ".enum"))
            || (r.crash == Some(IndexOutOfBounds) && (h == ".field" || h == ".method")))
  {
  }

  // ---------------------------------------------------------------- .field and .method

  /** The descriptor parses as the kind of member requires. */
  predicate DescriptorOk(descriptor: View, isMethod: bool)
  {
    if isMethod then Descriptors.ParseMethodDescriptor(descriptor.Text()).Some?
    else Descriptors.ParseDescriptor(descriptor.Text()).Some?
  }

  /**
   * With a name and a descriptor present, the member is announced exactly
   * when its descriptor and all its flags are valid; a bad descriptor is
   * reported once, at the descriptor; a bad flag with a good descriptor
   * produces no callback at all.
   */
  lemma MemberRules(tail: View, words: seq<View>, isMethod: bool)
    requires |words| >= 2
    ensures var r := MemberFromWords(tail, words, isMethod);
      var flags := words[..|words| - 2];
      var name := words[|words| - 2];
      var descriptor := words[|words| - 1];
      var event := if isMethod then MethodDirective(flags, name, descriptor) else FieldDirective(flags, name, descriptor);
      (event in r.events <==> DescriptorOk(descriptor, isMethod) && FlagWordsValid(flags))
      && (!DescriptorOk(descriptor, isMethod) ==>
            |r.events| == 1 && r.events[0].ExceptionOccurred? && r.events[0].columnNumber == descriptor.start)
      && (DescriptorOk(descriptor, isMethod) && !FlagWordsValid(flags) ==> r.events == [])
      && r.crash.None? && !r.abort
  {
    DescriptorCheckAgrees(words[|words| - 1], isMethod);
  }

  lemma DescriptorCheckAgrees(descriptor: View, isMethod: bool)
    ensures DescriptorCheck(descriptor, isMethod) == [] <==> DescriptorOk(descriptor, isMethod)
    ensures !DescriptorOk(descriptor, isMethod) ==>
      |DescriptorCheck(descriptor, isMethod)| == 1
      && DescriptorCheck(descriptor, isMethod)[0].ExceptionOccurred?
      && DescriptorCheck(descriptor, isMethod)[0].columnNumber == descriptor.start
  {
  }

  // ---------------------------------------------------------------- code lines

  /**
   * After a label, the processCodeLine recursion treats the whole rest of the
   * line as the head, with an empty tail: "a: iload 1" is the label a and
   * then an instruction whose opcode view reads "iload 1" and which has no
   * operands.
   */
  lemma LabelThenWholeRestIsOpcode(head: View, tail: View, alphabetic: char -> bool)
    requires head.Valid() && tail.Valid() && !head.Inverted() && !tail.Inverted()
    requires EndsWith(head.Text(), ":")
    requires !IsBlankText(tail.Text()) && !EndsWith(tail.Text(), ":") && !StartsWith(tail.Text(), ".")
    requires tail.start < |tail.source| && alphabetic(tail.source[tail.start])
    ensures CodeLineEvents(head, tail, alphabetic)
            == [CodeLabel(Unsuffixed(head).Trimmed()), CodeInstruction(tail, [])]
  {
    assert NoText.IsEmpty();
    assert NoText.Words(' ', Ignore) == [];
    assert CodeLineEvents(tail, NoText, alphabetic) == [CodeInstruction(tail, [])];
  }

  // ---------------------------------------------------------------- endOfInput

  /** No notice is an endOfInput callback. */
  predicate Quiet(ns: seq<Notice>)
  {
    forall i :: 0 <= i < |ns| ==> !ns[i].event.EndOfInput?
  }

  predicate QuietEvents(es: seq<Event>)
  {
    forall i :: 0 <= i < |es| ==> !es[i].EndOfInput?
  }

  lemma {:induction false} CodeLineQuiet(head: View, tail: View, alphabetic: char -> bool)
    requires head.Valid() && tail.Valid() && !head.Inverted() && !tail.Inverted()
    ensures QuietEvents(CodeLineEvents(head, tail, alphabetic))
    decreases |head.Text()| + |tail.Text()|
  {
    if EndsWith(head.Text(), ":") {
      CodeLineQuiet(tail, NoText, alphabetic);
    }
  }

  lemma SourceQuiet(g: bool, head: View, tail: View)
    requires tail.Valid()
    ensures QuietEvents(SourceResponse(g, MissingEndCode, head, tail).events)
  {
  }

  lemma ClassQuiet(g: bool, head: View, tail: View)
    requires head.Valid() && tail.Valid()
    ensures QuietEvents(ClassResponse(g, MissingEndCode, head, tail).events)
  {
  }

  lemma NameQuiet(g: bool, head: View, tail: View, implements: bool)
    requires tail.Valid()
    ensures QuietEvents(NameResponse(g, MissingEndCode, head, tail, implements).events)
  {
  }

  lemma MemberQuiet(g: bool, head: View, tail: View, isMethod: bool)
    requires tail.Valid()
    ensures QuietEvents(MemberResponse(g, MissingEndCode, head, tail, isMethod).events)
  {
  }

  lemma CodeQuiet(g: bool, head: View, tail: View)
    requires tail.Valid()
    ensures QuietEvents(CodeResponse(g, MissingEndCode, head, tail).events)
  {
  }

  lemma TableQuiet(st: State, head: View, tail: View)
    requires tail.Valid()
    ensures QuietEvents(TableResponse(st, head, tail).events)
  {
  }

  lemma BlockHandlersQuiet(st: State, head: View, tail: View)
    requires head.Valid() && tail.Valid() && !head.Inverted()
    ensures QuietEvents(EndCodeResponse(st, head, tail).events)
    ensures QuietEvents(EndTableResponse(st, head, tail).events)
    ensures QuietEvents(TableLineEvents(head, tail))
  {
  }

  /** A line's callbacks never include endOfInput. */
  lemma DispatchQuiet(st: State, head: View, tail: View, alphabetic: char -> bool)
    requires head.Valid() && tail.Valid() && !head.Inverted() && !tail.Inverted()
    ensures QuietEvents(Dispatch(st, head, tail, alphabetic).0.events)
  {
    var h := head.Text();
    var g := st == Global;
    BlockHandlersQuiet(st, head, tail);
    CodeQuiet(g, head, tail);
    TableQuiet(st, head, tail);
    if st == Table {
    } else if h == ".source" {
      SourceQuiet(g, head, tail);
    } else if h == ".class" || h == ".interface" || h == ".enum" {
      ClassQuiet(g, head, tail);
    } else if h == ".super" || h == ".implements" {
      NameQuiet(g, head, tail, h == ".implements");
    } else if h == ".field" || h == ".method" {
      MemberQuiet(g, head, tail, h == ".method");
    } else if h == ".code" || h == ".table" || h == ".end" {
    } else {
      CodeLineQuiet(head, tail, alphabetic);
    }
  }

  lemma LineQuiet(st: State, raw: string, alphabetic: char -> bool)
    ensures QuietEvents(LineResponse(st, raw, alphabetic).0.events)
  {
    var content := Content(raw);
    if !IsBlankText(content.Text()) {
      var (head, tail) := HeadAndTail(content);
      DispatchQuiet(st, head, tail, alphabetic);
    }
  }

  lemma {:induction false} ProcessAllQuiet(p: Snapshot, lines: seq<string>, alphabetic: char -> bool)
    requires Quiet(p.fired)
    ensures Quiet(ProcessAll(p, lines, alphabetic).0.fired)
    decreases |lines|
  {
    if lines != [] {
      var (q, c) := ProcessSpec(p, lines[0], alphabetic);
      if !p.aborted {
        LineQuiet(p.state, lines[0], alphabetic);
        assert Quiet(q.fired);
      }
      if c.None? {
        ProcessAllQuiet(q, lines[1..], alphabetic);
      }
    }
  }

  /**
   * A parse that completes ends with exactly one endOfInput callback, as its
   * last one; a second parse() is refused with IllegalStateException and
   * changes nothing.
   */
  lemma EndOfInputComesLast(p: Snapshot, lines: seq<string>, more: seq<string>, alphabetic: char -> bool)
    requires p.state == Global && Quiet(p.fired)
    requires ParseSpec(p, lines, alphabetic).1.None?
    ensures var q := ParseSpec(p, lines, alphabetic).0;
      |q.fired| > 0 && q.fired[|q.fired| - 1].event == Event.EndOfInput
      && Quiet(q.fired[..|q.fired| - 1])
      && q.state == State.EndOfInput
      && ParseSpec(q, more, alphabetic) == (q, Some(IllegalState("parse() has already been called")))
  {
    ProcessAllQuiet(p, lines, alphabetic);
    var q := ProcessAll(p, lines, alphabetic).0;
    var f := q.fired + [Notice(Event.EndOfInput, q.line, q.lineNumber)];
    assert f[..|f| - 1] == q.fired;
  }

  // ---------------------------------------------------------------- skipped lines

  /** Once aborted, the remaining lines are skipped: nothing is counted or reported. */
  lemma {:induction false} AbortedSkips(p: Snapshot, lines: seq<string>, alphabetic: char -> bool)
    requires p.aborted
    ensures ProcessAll(p, lines, alphabetic)
            == (if lines == [] then p else p.(state := Aborted), None)
    decreases |lines|
  {
    if |lines| > 1 {
      AbortedSkips(p.(state := Aborted), lines[1..], alphabetic);
    }
  }

  /** A line that is blank once its comment is cut is counted and reported to nobody. */
  lemma BlankLineSilent(p: Snapshot, raw: string, alphabetic: char -> bool)
    requires !p.aborted && IsBlankText(Content(raw).Text())
    ensures ProcessSpec(p, raw, alphabetic)
            == (p.(lineNumber := p.lineNumber + 1, line := Some(raw)), None)
  {
    assert LineResponse(p.state, raw, alphabetic) == (Response([], false, None), p.state);
    assert p.fired + Stamp([], Some(raw), p.lineNumber + 1) == p.fired;
  }

  /** A line whose first character is '#' is all comment. */
  lemma CommentLineIsBlank(raw: string)
    requires |raw| > 0 && raw[0] == '#'
    ensures IsBlankText(Content(raw).Text())
  {
    DelimiterIndexAt(raw, '#', Ignore, 0);
    assert Of(raw).WordBefore('#', Ignore) == View(raw, 0, 0);
  }

  // ---------------------------------------------------------------- line numbers

  /**
   * A counted line keeps the earlier notices and adds its own, each made
   * while getCurrentLine() and getCurrentLineNumber() give that line and its
   * number.
   */
  lemma ProcessStampsLine(p: Snapshot, raw: string, alphabetic: char -> bool)
    requires !p.aborted
    ensures var q := ProcessSpec(p, raw, alphabetic).0;
      q.lineNumber == p.lineNumber + 1 && q.line == Some(raw)
      && |p.fired| <= |q.fired| && q.fired[..|p.fired|] == p.fired
      && forall i :: |p.fired| <= i < |q.fired| ==> q.fired[i].line == Some(raw) && q.fired[i].lineNumber == p.lineNumber + 1
  {
    var events := LineResponse(p.state, raw, alphabetic).0.events;
    StampAppended(p.fired, events, Some(raw), p.lineNumber + 1);
  }

  lemma StampAppended(earlier: seq<Notice>, events: seq<Event>, line: Option<string>, n: int)
    ensures var f := earlier + Stamp(events, line, n);
      |earlier| <= |f| && f[..|earlier|] == earlier
      && forall i :: |earlier| <= i < |f| ==> f[i].line == line && f[i].lineNumber == n
  {
    var f := earlier + Stamp(events, line, n);
    assert forall i :: |earlier| <= i < |f| ==> f[i] == Stamp(events, line, n)[i - |earlier|];
  }

  /**
   * Without an abort or an escaping exception every line is counted: the
   * line number advances by the number of lines and the current line is the
   * last one.
   */
  lemma {:induction false} EveryLineCounted(p: Snapshot, lines: seq<string>, alphabetic: char -> bool)
    requires !p.aborted
    ensures var (q, c) := ProcessAll(p, lines, alphabetic);
      c.None? && !q.aborted ==>
        q.lineNumber == p.lineNumber + |lines| && q.line == (if lines == [] then p.line else Some(lines[|lines| - 1]))
    decreases |lines|
  {
    if lines != [] {
      var (q1, c1) := ProcessSpec(p, lines[0], alphabetic);
      if c1.None? && !q1.aborted {
        EveryLineCounted(q1, lines[1..], alphabetic);
      } else if c1.None? {
        AbortedSkips(q1, lines[1..], alphabetic);
      }
    }
  }
}
