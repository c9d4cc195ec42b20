/**
 * The line-oriented parser. It reads the input one line at a time, strips the
 * comment, cuts the line into a head word and a tail, and notifies its
 * listener of what it found. It builds nothing itself: the model records the
 * callbacks it makes, in order, with what the listener would read from the
 * parser (the current line and line number) during each one.
 *
 * The per-directive responses are shared with the older parser, which differs
 * only in its dispatch and in the wording of one diagnostic.
 */
module Parser {
  import opened Base
  import opened Chars
  import opened StringViews
  import Flags
  import Descriptors

  datatype State = Global | Code | Table | EndOfInput | Aborted

  /**
   * One listener callback with its arguments. A syntax exception carries its
   * message, its 0-based column and the source line; its line number is the
   * parser's current one, which the notice around it records.
   */
  datatype Event =
    | ExceptionOccurred(message: string, columnNumber: int, line: string)
    | SourceDirective(source: View)
    | ClassDirective(classId: View, flags: seq<View>, className: View)
    | SuperDirective(superName: View)
    | ImplementsDirective(interfaceName: View)
    | FieldDirective(fieldFlags: seq<View>, name: View, descriptor: View)
    | MethodDirective(methodFlags: seq<View>, name: View, descriptor: View)
    | CodeDirective
    | CodeLabel(labelName: View)
    | CodeInstruction(opcode: View, operands: seq<View>)
    | EndCodeDirective
    | TableDirective
    | TableLine(caseLabel: View, target: View)
    | EndTableDirective
    | EndOfInput

  /** A callback, with getCurrentLine() (null before the first line) and getCurrentLineNumber() during it. */
  datatype Notice = Notice(event: Event, line: Option<string>, lineNumber: int)

  /**
   * What one directive handler does: the callbacks it makes, whether it asks
   * to abort, and the Java exception that escapes it, if any.
   */
  datatype Response = Response(events: seq<Event>, abort: bool, crash: Option<Crash>)

  /** The parser's fields other than its reader and listener. */
  datatype Snapshot = Snapshot(state: State, aborted: bool, lineNumber: int, line: Option<string>, fired: seq<Notice>)

  /** How the newer parser completes "X unexpected here". */
  const MissingEndCode: string := " (missing .end code?)"

  function Stamp(events: seq<Event>, line: Option<string>, lineNumber: int): (r: seq<Notice>)
    ensures |r| == |events|
    ensures forall i :: 0 <= i < |r| ==> r[i] == Notice(events[i], line, lineNumber)
  {
    if events == [] then [] else [Notice(events[0], line, lineNumber)] + Stamp(events[1..], line, lineNumber)
  }

  // ---------------------------------------------------------------- splitting a line

  lemma SegmentsOfSource(v: View, ch: char, q: Quoted)
    requires v.Valid()
    ensures forall w :: w in v.Words(ch, q) ==> w.Valid() && w.source == v.source
  {
    SplitSegments(v, ch, q);
  }

  /** split(ch, q) with each segment a valid view of the same source. */
  function SplitWords(v: View, ch: char, q: Quoted): (ws: seq<View>)
    requires v.Valid()
    ensures forall i :: 0 <= i < |ws| ==> ws[i].Valid() && ws[i].source == v.source
    ensures ws == v.Words(ch, q)
  {
    SegmentsOfSource(v, ch, q);
    v.Words(ch, q)
  }

  /** Every segment is blank (so isBlank filters out all of them). */
  predicate AllBlank(ws: seq<View>)
  {
    forall i :: 0 <= i < |ws| ==> IsBlankText(ws[i].Text())
  }

  lemma BlankSplit(ws: seq<View>)
    requires ws != []
    ensures AllBlank(ws) <==> IsBlankText(ws[0].Text()) && AllBlank(ws[1..])
  {
    assert forall i :: 0 <= i < |ws[1..]| ==> ws[1..][i] == ws[i + 1];
  }

  /** A segment that is not blank is not empty, so trimming it leaves a forward view. */
  lemma SolidWordTrimmed(w: View)
    requires w.Valid() && !IsBlankText(w.Text())
    ensures w.Trimmed().Valid() && !w.Trimmed().Inverted()
  {
    var k :| 0 <= k < |w.Text()| && !IsWhitespace(w.Text()[k]);
  }

  lemma ForwardCons(t: View, rest: seq<View>)
    requires t.Valid() && !t.Inverted()
    requires forall i :: 0 <= i < |rest| ==> rest[i].Valid() && !rest[i].Inverted()
    ensures forall i :: 0 <= i < |[t] + rest| ==> ([t] + rest)[i].Valid() && !([t] + rest)[i].Inverted()
  {
  }

  /** .filter(not isBlank).map(trim): the non-blank segments, trimmed, in order. */
  function SolidWords(ws: seq<View>): (r: seq<View>)
    requires forall i :: 0 <= i < |ws| ==> ws[i].Valid()
    ensures |r| <= |ws|
    ensures forall i :: 0 <= i < |r| ==> r[i].Valid() && !r[i].Inverted()
    ensures AllBlank(ws) <==> r == []
  {
    if ws == [] then []
    else
      var rest := SolidWords(ws[1..]);
      BlankSplit(ws);
      if IsBlankText(ws[0].Text()) then rest
      else
        SolidWordTrimmed(ws[0]);
        ForwardCons(ws[0].Trimmed(), rest);
        [ws[0].Trimmed()] + rest
  }

  /** The comment is cut at the first '#' outside quotes and the rest trimmed. */
  function Content(raw: string): (v: View)
    ensures v.Valid() && v.source == raw && !v.Inverted()
  {
    Of(raw).WordBefore('#', Ignore).Trimmed()
  }

  /** The head is the first space-separated word, trimmed; the tail is the rest, trimmed. */
  function HeadAndTail(line: View): (r: (View, View))
    requires line.Valid() && !line.Inverted()
    ensures r.0.Valid() && r.1.Valid() && !r.0.Inverted() && !r.1.Inverted()
    ensures r.0.source == line.source && r.1.source == line.source
  {
    var head := line.WordBefore(' ', Ignore).Trimmed();
    (head, line.Tail(head).value.Trimmed())
  }

  // ---------------------------------------------------------------- the directive handlers

  /** checkGlobalState failing: "X unexpected here", then abort. */
  function Misplaced(note: string, head: View): (r: Response)
    ensures r.abort && r.crash.None? && |r.events| == 1 && r.events[0].ExceptionOccurred?
  {
    Response([ExceptionOccurred(head.Text() + " unexpected here" + note, head.start, head.source)], true, None)
  }

  /** A diagnostic for trailing text when rest is not blank, at its first non-blank character. */
  function TrailingText(message: string, rest: View, line: string): (r: seq<Event>)
    requires rest.Valid()
    ensures |r| <= 1 && (r == [] <==> IsBlankText(rest.Text()))
  {
    if IsBlankText(rest.Text()) then [] else [ExceptionOccurred(message, rest.Trimmed().start, line)]
  }

  /** .source: the first word, quotes kept, is the file name; anything after it is reported. */
  function SourceResponse(inGlobal: bool, note: string, head: View, tail: View): (r: Response)
    requires tail.Valid()
    ensures inGlobal ==> !r.abort && r.crash.None? && |r.events| > 0 && r.events[|r.events| - 1] == SourceDirective(tail.WordBefore(' ', Keep))
  {
    if !inGlobal then Misplaced(note, head)
    else
      var filename := tail.WordBefore(' ', Keep);
      var rest := tail.Tail(filename).value;
      Response(TrailingText("Unexpected trailing text after .source directive", rest, tail.source) + [SourceDirective(filename)], false, None)
  }

  /** .class/.interface/.enum: the last word is the name and the earlier ones are flags. */
  function ClassResponse(inGlobal: bool, note: string, head: View, tail: View): (r: Response)
    requires head.Valid() && tail.Valid()
    ensures !r.abort ==> inGlobal
    ensures r.crash.Some? ==> r.crash == Some(NoSuchElement)
  {
    if !inGlobal then Misplaced(note, head)
    else
      var classId := head.SubstringFrom(1).value;
      var words := SolidWords(SplitWords(tail, ' ', Ignore));
      if words == [] then
        Response([ExceptionOccurred("Expected class name", tail.Trimmed().start, tail.source)], false, Some(NoSuchElement))
      else
        Response([ClassDirective(classId, words[..|words| - 1], words[|words| - 1])], false, None)
  }

  /** .super, and .implements with the same diagnostic text: one name, then nothing. */
  function NameResponse(inGlobal: bool, note: string, head: View, tail: View, implements: bool): (r: Response)
    requires tail.Valid()
    ensures inGlobal ==> !r.abort && r.crash.None?
  {
    if !inGlobal then Misplaced(note, head)
    else
      var name := tail.WordBefore(' ', Keep);
      var rest := tail.Tail(name).value;
      var warn := TrailingText("Unexpected trailing text after .super directive", rest, tail.source);
      Response(warn + [if implements then ImplementsDirective(name) else SuperDirective(name)], false, None)
  }

  /** Every flag word is one that Flags.flag accepts. */
  predicate FlagWordsValid(flags: seq<View>)
  {
    forall i :: 0 <= i < |flags| ==> Flags.IsValidFlag(flags[i].Text())
  }

  /**
   * .field and .method: the last two words are the name and the descriptor,
   * the earlier ones flags. Too few words throws after the diagnostic; a bad
   * descriptor is reported; a bad flag silently suppresses the callback.
   */
  function MemberResponse(inGlobal: bool, note: string, head: View, tail: View, isMethod: bool): (r: Response)
    requires tail.Valid()
    ensures !r.abort ==> inGlobal
    ensures r.crash.Some? ==> r.crash == Some(IndexOutOfBounds)
  {
    if !inGlobal then Misplaced(note, head)
    else MemberFromWords(tail, SolidWords(SplitWords(tail, ' ', Keep)), isMethod)
  }

  /** The part of .field and .method after the words are split out. */
  function MemberFromWords(tail: View, words: seq<View>, isMethod: bool): (r: Response)
    ensures !r.abort
    ensures r.crash.Some? <==> |words| < 2
    ensures r.crash.Some? ==> r.crash == Some(IndexOutOfBounds)
  {
    var what := if isMethod then ".method" else ".field";
    if |words| < 2 then
      Response([ExceptionOccurred("Too few operands to " + what + ": expected name and type descriptor", tail.start, tail.source)],
               false, Some(IndexOutOfBounds))
    else
      var name := words[|words| - 2];
      var descriptor := words[|words| - 1];
      var flags := words[..|words| - 2];
      var check := DescriptorCheck(descriptor, isMethod);
      var ok := check == [] && FlagWordsValid(flags);
      var event := if isMethod then MethodDirective(flags, name, descriptor) else FieldDirective(flags, name, descriptor);
      Response(check + (if ok then [event] else []), false, None)
  }

  /** validateTypeDescriptor / validateMethodSignatureDescriptor: one diagnostic at the descriptor when it does not match. */
  function DescriptorCheck(descriptor: View, isMethod: bool): (r: seq<Event>)
    ensures |r| <= 1
    ensures r == [] <==> if isMethod then Descriptors.ParseMethodDescriptor(descriptor.Text()).Some?
                         else Descriptors.ParseDescriptor(descriptor.Text()).Some?
  {
    if isMethod then
      if Descriptors.ParseMethodDescriptor(descriptor.Text()).Some? then []
      else [ExceptionOccurred("Invalid method descriptor", descriptor.start, descriptor.source)]
    else if Descriptors.ParseDescriptor(descriptor.Text()).Some? then []
    else [ExceptionOccurred("Invalid type descriptor: '" + descriptor.Text() + "'", descriptor.start, descriptor.source)]
  }

  /** .code: trailing text is reported; the listener is told in any case. */
  function CodeResponse(inGlobal: bool, note: string, head: View, tail: View): (r: Response)
    requires tail.Valid()
    ensures !r.abort <==> inGlobal
    ensures r.crash.None?
    ensures inGlobal ==> |r.events| > 0 && r.events[|r.events| - 1] == CodeDirective
  {
    if !inGlobal then Misplaced(note, head)
    else Response(TrailingText("Unexpected trailing text after .code", tail, tail.source) + [CodeDirective], false, None)
  }

  /** StringView.of(""), the tail given to a label's remainder. */
  const NoText: View := View("", 0, 0)

  /** head.substring(0, head.length() - 1): the head without its last character. */
  function Unsuffixed(head: View): (r: View)
    requires head.Valid() && !head.Inverted() && head.Length() > 0
    ensures r.Valid() && !r.Inverted() && r.source == head.source
    ensures r.Text() + [head.Text()[head.Length() - 1]] == head.Text()
  {
    SubstringWithin(head, 0, head.Length() - 1);
    var r := head.Substring(0, head.Length() - 1).value;
    assert head.Text() == head.Text()[..head.Length() - 1] + [head.Text()[head.Length() - 1]];
    r
  }

  /**
   * processCodeLine: a head ending in ':' is a label, and then the whole tail
   * is processed again as a head with an empty tail; a head starting with '.'
   * is an invalid directive; a head not starting with a letter is an
   * unexpected token; any other non-blank head is an instruction whose
   * operands are the tail split at spaces outside quotes.
   */
  function CodeLineEvents(head: View, tail: View, alphabetic: char -> bool): (r: seq<Event>)
    requires head.Valid() && tail.Valid() && !head.Inverted() && !tail.Inverted()
    decreases |head.Text()| + |tail.Text()|
  {
    if EndsWith(head.Text(), ":") then
      [CodeLabel(Unsuffixed(head).Trimmed())] + CodeLineEvents(tail, NoText, alphabetic)
    else if StartsWith(head.Text(), ".") then [ExceptionOccurred("Invalid directive", head.start, head.source)]
    else if !head.IsEmpty() && !alphabetic(head.source[head.start]) then [ExceptionOccurred("Unexpected token", head.start, head.source)]
    else if !IsBlankText(head.Text()) then [CodeInstruction(head, SplitWords(tail, ' ', Ignore))]
    else []
  }

  /** processEndCodeDirective: only in Code; elsewhere a diagnostic and an abort. */
  function EndCodeResponse(st: State, head: View, tail: View): (r: Response)
    requires tail.Valid()
    ensures !r.abort <==> st == Code
    ensures r.crash.None?
    ensures st == Code && tail.Text() == "code" ==> r.events == [EndCodeDirective]
  {
    if st != Code then
      var message := if st == Table then ".end code unexpected here (missing .end table?)" else ".end code unexpected here";
      Response([ExceptionOccurred(message, head.start, head.source)], true, None)
    else
      // Dispatch only calls this handler when the tail is exactly "code", so this
      // warning is never fired; it is kept so the handler reads as written, at
      // the column tail.tail(tail.firstWord(' ')).start() names.
      var warn := if tail.Text() != "code" then [ExceptionOccurred("Unexpected trailing text after .end code", tail.WordBefore(' ', Ignore).end, head.source)] else [];
      Response(warn + [EndCodeDirective], false, None)
  }

  /** processTableDirective: only in Code; trailing text is reported. */
  function TableResponse(st: State, head: View, tail: View): (r: Response)
    requires tail.Valid()
    ensures !r.abort <==> st == Code
    ensures r.crash.None?
    ensures st == Code ==> |r.events| > 0 && r.events[|r.events| - 1] == TableDirective
  {
    if st != Code then Response([ExceptionOccurred(".table unexpected here", head.start, head.source)], true, None)
    else Response(TrailingText("Unexpected trailing text after .table", tail, tail.source) + [TableDirective], false, None)
  }

  /** processTableLine: "label: target"; a head without ':' is ignored, a blank target reported. */
  function TableLineEvents(head: View, tail: View): (r: seq<Event>)
    requires head.Valid() && tail.Valid() && !head.Inverted()
    ensures |r| <= 1
    ensures r != [] && r[0].TableLine? ==> r[0].target == tail && r[0].caseLabel.Text() + ":" == head.Text()
  {
    if !EndsWith(head.Text(), ":") then []
    else if IsBlankText(tail.Text()) then [ExceptionOccurred("Expected table entry", head.start, head.source)]
    else [TableLine(Unsuffixed(head), tail)]
  }

  /** processEndTableDirective: only in Table. */
  function EndTableResponse(st: State, head: View, tail: View): (r: Response)
    requires tail.Valid()
    ensures !r.abort <==> st == Table
    ensures r.crash.None?
    ensures st == Table && tail.Text() == "table" ==> r.events == [EndTableDirective]
  {
    if st != Table then Response([ExceptionOccurred(".end table unexpected here", head.start, head.source)], true, None)
    else
      // Dispatch only calls this handler when the tail is exactly "table", so this
      // warning is never fired; it is kept so the handler reads as written, at
      // the column tail.tail(tail.firstWord(' ')).start() names.
      var warn := if tail.Text() != "table" then [ExceptionOccurred("Unexpected trailing text after .end table", tail.WordBefore(' ', Ignore).end, head.source)] else [];
      Response(warn + [EndTableDirective], false, None)
  }

  /** The state after a handler that moves to target unless it aborted. */
  function Next(st: State, r: Response, target: State): State
  {
    if r.abort then st else target
  }

  /** process(line) after the comment, blank and abort checks: the dispatch on the state and the head. */
  function Dispatch(st: State, head: View, tail: View, alphabetic: char -> bool): (r: (Response, State))
    requires head.Valid() && tail.Valid() && !head.Inverted() && !tail.Inverted()
  {
    var h := head.Text();
    var g := st == Global;
    if st == Table then
      if h == ".end" && tail.Text() == "table" then
        var r := EndTableResponse(st, head, tail); (r, Next(st, r, Code))
      else (Response(TableLineEvents(head, tail), false, None), st)
    else if h == ".source" then (SourceResponse(g, MissingEndCode, head, tail), st)
    else if h == ".class" || h == ".interface" || h == ".enum" then (ClassResponse(g, MissingEndCode, head, tail), st)
    else if h == ".super" then (NameResponse(g, MissingEndCode, head, tail, false), st)
    else if h == ".implements" then (NameResponse(g, MissingEndCode, head, tail, true), st)
    else if h == ".field" then (MemberResponse(g, MissingEndCode, head, tail, false), st)
    else if h == ".method" then (MemberResponse(g, MissingEndCode, head, tail, true), st)
    else if h == ".code" then var r := CodeResponse(g, MissingEndCode, head, tail); (r, Next(st, r, Code))
    else if h == ".table" then var r := TableResponse(st, head, tail); (r, Next(st, r, Table))
    else if h == ".end" then
      if tail.Text() == "code" then var r := EndCodeResponse(st, head, tail); (r, Next(st, r, Global))
      else (Response([ExceptionOccurred("Unexpected token: " + tail.Text(), tail.start, tail.source)], false, None), st)
    else if st == Code then (Response(CodeLineEvents(head, tail, alphabetic), false, None), st)
    else (Response([ExceptionOccurred("Unexpected token: " + h, head.start, head.source)], false, None), st)
  }

  /** What process() does with a line it reads: nothing when the line is blank once its comment is cut. */
  function LineResponse(st: State, raw: string, alphabetic: char -> bool): (r: (Response, State))
  {
    var content := Content(raw);
    if IsBlankText(content.Text()) then (Response([], false, None), st)
    else
      var (head, tail) := HeadAndTail(content);
      Dispatch(st, head, tail, alphabetic)
  }

  /** process(line): skipped once aborted; otherwise counted and answered. */
  function ProcessSpec(p: Snapshot, raw: string, alphabetic: char -> bool): (r: (Snapshot, Option<Crash>))
  {
    if p.aborted then (p.(state := Aborted), None)
    else
      var (resp, next) := LineResponse(p.state, raw, alphabetic);
      var n := p.lineNumber + 1;
      (Snapshot(next, resp.abort, n, Some(raw), p.fired + Stamp(resp.events, Some(raw), n)), resp.crash)
  }

  /** The lines processed in order; an escaping exception ends the run. */
  function ProcessAll(p: Snapshot, lines: seq<string>, alphabetic: char -> bool): (r: (Snapshot, Option<Crash>))
    decreases |lines|
  {
    if lines == [] then (p, None)
    else
      var (q, c) := ProcessSpec(p, lines[0], alphabetic);
      if c.Some? then (q, c) else ProcessAll(q, lines[1..], alphabetic)
  }

  /** parse(): refused after the first call; otherwise every line, then endOfInput. */
  function ParseSpec(p: Snapshot, lines: seq<string>, alphabetic: char -> bool): (r: (Snapshot, Option<Crash>))
  {
    if p.state != Global then (p, Some(IllegalState("parse() has already been called")))
    else
      var (q, c) := ProcessAll(p, lines, alphabetic);
      if c.Some? then (q, c)
      else (q.(state := State.EndOfInput, fired := q.fired + [Notice(Event.EndOfInput, q.line, q.lineNumber)]), None)
  }

  // ---------------------------------------------------------------- the handlers as the source runs them

  method ProcessSourceDirective(inGlobal: bool, note: string, head: View, tail: View) returns (r: Response)
    requires tail.Valid()
    ensures r == SourceResponse(inGlobal, note, head, tail)
  {
    if !inGlobal {
      return Misplaced(note, head);
    }
    var filename := tail.FirstWord(' ', Keep);
    var rest := tail.Tail(filename).value;
    var warn := TrailingTextCheck("Unexpected trailing text after .source directive", rest, tail.source);
    return Response(warn + [SourceDirective(filename)], false, None);
  }

  method TrailingTextCheck(message: string, rest: View, line: string) returns (r: seq<Event>)
    requires rest.Valid()
    ensures r == TrailingText(message, rest, line)
  {
    var blank := rest.IsBlank();
    if blank {
      return [];
    }
    var t := rest.Trim();
    return [ExceptionOccurred(message, t.start, line)];
  }

  method ProcessClassDirective(inGlobal: bool, note: string, head: View, tail: View) returns (r: Response)
    requires head.Valid() && tail.Valid()
    ensures r == ClassResponse(inGlobal, note, head, tail)
  {
    if !inGlobal {
      return Misplaced(note, head);
    }
    var classId := head.SubstringFrom(1).value;
    var split := tail.Split(' ', Ignore);
    SplitSegments(tail, ' ', Ignore);
    var words := SolidWords(split);
    if words == [] {
      var t := tail.Trim();
      return Response([ExceptionOccurred("Expected class name", t.start, tail.source)], false, Some(NoSuchElement));
    }
    return Response([ClassDirective(classId, words[..|words| - 1], words[|words| - 1])], false, None);
  }

  method ProcessNameDirective(inGlobal: bool, note: string, head: View, tail: View, implements: bool) returns (r: Response)
    requires tail.Valid()
    ensures r == NameResponse(inGlobal, note, head, tail, implements)
  {
    if !inGlobal {
      return Misplaced(note, head);
    }
    var name := tail.FirstWord(' ', Keep);
    var rest := tail.Tail(name).value;
    var warn := TrailingTextCheck("Unexpected trailing text after .super directive", rest, tail.source);
    return Response(warn + [if implements then ImplementsDirective(name) else SuperDirective(name)], false, None);
  }

  method ProcessMemberDirective(inGlobal: bool, note: string, head: View, tail: View, isMethod: bool) returns (r: Response)
    requires tail.Valid()
    ensures r == MemberResponse(inGlobal, note, head, tail, isMethod)
  {
    if !inGlobal {
      return Misplaced(note, head);
    }
    var split := tail.Split(' ', Keep);
    SplitSegments(tail, ' ', Keep);
    return MemberFromWords(tail, SolidWords(split), isMethod);
  }

  method ProcessCodeDirective(inGlobal: bool, note: string, head: View, tail: View) returns (r: Response)
    requires tail.Valid()
    ensures r == CodeResponse(inGlobal, note, head, tail)
  {
    if !inGlobal {
      return Misplaced(note, head);
    }
    var warn := TrailingTextCheck("Unexpected trailing text after .code", tail, tail.source);
    return Response(warn + [CodeDirective], false, None);
  }

  /** processCodeLine, recursing once on the tail after a label. */
  method ProcessCodeLine(head: View, tail: View, alphabetic: char -> bool) returns (events: seq<Event>)
    requires head.Valid() && tail.Valid() && !head.Inverted() && !tail.Inverted()
    ensures events == CodeLineEvents(head, tail, alphabetic)
    decreases |head.Text()| + |tail.Text()|
  {
    var h := head.ToString().value;
    if EndsWith(h, ":") {
      var labelName := Unsuffixed(head).Trim();
      var more := ProcessCodeLine(tail, NoText, alphabetic);
      return [CodeLabel(labelName)] + more;
    } else if StartsWith(h, ".") {
      return [ExceptionOccurred("Invalid directive", head.start, head.source)];
    } else if !head.IsEmpty() && !alphabetic(head.source[head.start]) {
      return [ExceptionOccurred("Unexpected token", head.start, head.source)];
    }
    var blank := head.IsBlank();
    if !blank {
      var operands := tail.Split(' ', Ignore);
      return [CodeInstruction(head, operands)];
    }
    return [];
  }

  /** The body of process() once the line is counted. */
  method RespondToLine(st: State, raw: string, alphabetic: char -> bool) returns (r: Response, next: State)
    ensures (r, next) == LineResponse(st, raw, alphabetic)
  {
    var stripped := Of(raw).FirstWord('#', Ignore);
    var content := stripped.Trim();
    var blank := content.IsBlank();
    if blank {
      return Response([], false, None), st;
    }
    var word := content.FirstWord(' ', Ignore);
    var head := word.Trim();
    var tail := content.Tail(head).value.Trim();
    assert (head, tail) == HeadAndTail(content);
    r, next := Respond(st, head, tail, alphabetic);
  }

  /** The dispatch of process(), calling the handlers. */
  method Respond(st: State, head: View, tail: View, alphabetic: char -> bool) returns (r: Response, next: State)
    requires head.Valid() && tail.Valid() && !head.Inverted() && !tail.Inverted()
    ensures (r, next) == Dispatch(st, head, tail, alphabetic)
  {
    var h := head.ToString().value;
    var t := tail.ToString().value;
    var g := st == Global;
    next := st;
    if st == Table {
      if h == ".end" && t == "table" {
        r := EndTableResponse(st, head, tail);
        next := Next(st, r, Code);
      } else {
        r := Response(TableLineEvents(head, tail), false, None);
      }
    } else if h == ".source" {
      r := ProcessSourceDirective(g, MissingEndCode, head, tail);
    } else if h == ".class" || h == ".interface" || h == ".enum" {
      r := ProcessClassDirective(g, MissingEndCode, head, tail);
    } else if h == ".super" {
      r := ProcessNameDirective(g, MissingEndCode, head, tail, false);
    } else if h == ".implements" {
      r := ProcessNameDirective(g, MissingEndCode, head, tail, true);
    } else if h == ".field" {
      r := ProcessMemberDirective(g, MissingEndCode, head, tail, false);
    } else if h == ".method" {
      r := ProcessMemberDirective(g, MissingEndCode, head, tail, true);
    } else if h == ".code" {
      r := ProcessCodeDirective(g, MissingEndCode, head, tail);
      next := Next(st, r, Code);
    } else if h == ".table" {
      r := TableResponse(st, head, tail);
      next := Next(st, r, Table);
    } else if h == ".end" {
      if t == "code" {
        r := EndCodeResponse(st, head, tail);
        next := Next(st, r, Global);
      } else {
        r := Response([ExceptionOccurred("Unexpected token: " + t, tail.start, tail.source)], false, None);
      }
    } else if st == Code {
      var events := ProcessCodeLine(head, tail, alphabetic);
      r := Response(events, false, None);
    } else {
      r := Response([ExceptionOccurred("Unexpected token: " + h, head.start, head.source)], false, None);
    }
  }

  // ---------------------------------------------------------------- the parser object

  class JasmParser {
    var state: State
    var aborted: bool
    var lineNumber: int
    var line: Option<string>
    /** The callbacks made so far, in order. */
    var fired: seq<Notice>
    /** Character.isAlphabetic, which the model leaves abstract. */
    const alphabetic: char -> bool

    function Value(): Snapshot
      reads this
    {
      Snapshot(state, aborted, lineNumber, line, fired)
    }

    constructor(alphabetic: char -> bool)
      ensures Value() == Snapshot(Global, false, 0, None, [])
      ensures this.alphabetic == alphabetic
    {
      state := Global;
      aborted := false;
      lineNumber := 0;
      line := None;
      fired := [];
      this.alphabetic := alphabetic;
    }

    /** abortParsing(): later lines are skipped. */
    method AbortParsing()
      modifies this
      ensures Value() == old(Value()).(aborted := true)
    {
      aborted := true;
    }

    method Process(raw: string) returns (crash: Option<Crash>)
      modifies this
      ensures (Value(), crash) == ProcessSpec(old(Value()), raw, alphabetic)
    {
      if aborted {
        state := Aborted;
        return None;
      }
      line := Some(raw);
      lineNumber := lineNumber + 1;
      var r, next := RespondToLine(state, raw, alphabetic);
      fired := fired + Stamp(r.events, line, lineNumber);
      state := next;
      aborted := r.abort;
      return r.crash;
    }

    method Parse(lines: seq<string>) returns (crash: Option<Crash>)
      modifies this
      ensures (Value(), crash) == ParseSpec(old(Value()), lines, alphabetic)
    {
      if state != Global {
        return Some(IllegalState("parse() has already been called"));
      }
      var i := 0;
      while i < |lines|
        invariant 0 <= i <= |lines|
        invariant ProcessAll(Value(), lines[i..], alphabetic) == ProcessAll(old(Value()), lines, alphabetic)
      {
        assert lines[i..][1..] == lines[i + 1..];
        var c := Process(lines[i]);
        if c.Some? {
          return c;
        }
        i := i + 1;
      }
      assert lines[i..] == [];
      state := State.EndOfInput;
      fired := fired + [Notice(Event.EndOfInput, line, lineNumber)];
      return None;
    }
  }
}
