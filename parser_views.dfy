/**
 * Every view the parser hands to its listener lies inside its line and is
 * not inverted, so the listener and the assembler can take its text without
 * toString() throwing.
 */
module ParserViews {
  import opened Base
  import opened Chars
  import opened StringViews
  import opened Parser

  /** A view a StringView record can be, whose toString() returns. */
  predicate Sound(v: View)
  {
    v.Valid() && !v.Inverted()
  }

  predicate AllSound(vs: seq<View>)
  {
    forall i :: 0 <= i < |vs| ==> Sound(vs[i])
  }

  /** The views an event carries are sound. */
  predicate EventSound(e: Event)
  {
    match e
    case SourceDirective(source) => Sound(source)
    case ClassDirective(classId, flags, className) => Sound(classId) && AllSound(flags) && Sound(className)
    case SuperDirective(name) => Sound(name)
    case ImplementsDirective(name) => Sound(name)
    case FieldDirective(flags, name, descriptor) => AllSound(flags) && Sound(name) && Sound(descriptor)
    case MethodDirective(flags, name, descriptor) => AllSound(flags) && Sound(name) && Sound(descriptor)
    case CodeLabel(name) => Sound(name)
    case CodeInstruction(opcode, operands) => Sound(opcode) && AllSound(operands)
    case TableLine(caseLabel, target) => Sound(caseLabel) && Sound(target)
    case _ => true
  }

  predicate EventsSound(es: seq<Event>)
  {
    forall i :: 0 <= i < |es| ==> EventSound(es[i])
  }

  predicate NoticesSound(ns: seq<Notice>)
  {
    forall i :: 0 <= i < |ns| ==> EventSound(ns[i].event)
  }

  /** The segments of split lie inside the view and none is inverted. */
  lemma SplitSound(v: View, ch: char, q: Quoted)
    requires v.Valid()
    ensures AllSound(SplitWords(v, ch, q))
  {
    SplitSegments(v, ch, q);
    assert forall i :: 0 <= i < |v.Words(ch, q)| ==> v.Words(ch, q)[i].start <= v.Words(ch, q)[i].end;
  }

  lemma EventsSoundAppend(a: seq<Event>, b: seq<Event>)
    requires EventsSound(a) && EventsSound(b)
    ensures EventsSound(a + b)
  {
    forall i | 0 <= i < |a + b| ensures EventSound((a + b)[i]) {
      if i >= |a| {
        assert (a + b)[i] == b[i - |a|];
      }
    }
  }

  /** Diagnostics carry no view. */
  lemma TrailingTextSound(message: string, rest: View, line: string)
    requires rest.Valid()
    ensures EventsSound(TrailingText(message, rest, line))
  {
  }

  lemma SourceSound(inGlobal: bool, note: string, head: View, tail: View)
    requires tail.Valid()
    ensures EventsSound(SourceResponse(inGlobal, note, head, tail).events)
  {
    if inGlobal {
      var filename := tail.WordBefore(' ', Keep);
      var rest := tail.Tail(filename).value;
      TrailingTextSound("Unexpected trailing text after .source directive", rest, tail.source);
      EventsSoundAppend(TrailingText("Unexpected trailing text after .source directive", rest, tail.source), [SourceDirective(filename)]);
    }
  }

  /** The class id is the head without its dot, which a directive head of two or more characters leaves non-empty. */
  lemma ClassSound(inGlobal: bool, note: string, head: View, tail: View)
    requires Sound(head) && head.Length() >= 2 && tail.Valid()
    ensures EventsSound(ClassResponse(inGlobal, note, head, tail).events)
  {
    if inGlobal {
      var classId := head.SubstringFrom(1).value;
      assert Sound(classId);
      var words := SolidWords(SplitWords(tail, ' ', Ignore));
      if words != [] {
        assert AllSound(words[..|words| - 1]);
        assert EventSound(ClassDirective(classId, words[..|words| - 1], words[|words| - 1]));
      }
    }
  }

  lemma NameSound(inGlobal: bool, note: string, head: View, tail: View, implements: bool)
    requires tail.Valid()
    ensures EventsSound(NameResponse(inGlobal, note, head, tail, implements).events)
  {
    if inGlobal {
      var name := tail.WordBefore(' ', Keep);
      var rest := tail.Tail(name).value;
      var warn := TrailingText("Unexpected trailing text after .super directive", rest, tail.source);
      TrailingTextSound("Unexpected trailing text after .super directive", rest, tail.source);
      EventsSoundAppend(warn, [if implements then ImplementsDirective(name) else SuperDirective(name)]);
    }
  }

  lemma MemberWordsSound(tail: View, words: seq<View>, isMethod: bool)
    requires AllSound(words)
    ensures EventsSound(MemberFromWords(tail, words, isMethod).events)
  {
    if |words| >= 2 {
      var name := words[|words| - 2];
      var descriptor := words[|words| - 1];
      var flags := words[..|words| - 2];
      assert AllSound(flags);
      var check := DescriptorCheck(descriptor, isMethod);
      var event := if isMethod then MethodDirective(flags, name, descriptor) else FieldDirective(flags, name, descriptor);
      assert EventSound(event);
      var ok := check == [] && FlagWordsValid(flags);
      EventsSoundAppend(check, if ok then [event] else []);
    }
  }

  lemma MemberSound(inGlobal: bool, note: string, head: View, tail: View, isMethod: bool)
    requires tail.Valid()
    ensures EventsSound(MemberResponse(inGlobal, note, head, tail, isMethod).events)
  {
    if inGlobal {
      MemberWordsSound(tail, SolidWords(SplitWords(tail, ' ', Keep)), isMethod);
    }
  }

  lemma CodeSound(inGlobal: bool, note: string, head: View, tail: View)
    requires tail.Valid()
    ensures EventsSound(CodeResponse(inGlobal, note, head, tail).events)
  {
    if inGlobal {
      EventsSoundAppend(TrailingText("Unexpected trailing text after .code", tail, tail.source), [CodeDirective]);
    }
  }

  lemma TableSound(st: State, head: View, tail: View)
    requires tail.Valid()
    ensures EventsSound(TableResponse(st, head, tail).events)
  {
    if st == Code {
      EventsSoundAppend(TrailingText("Unexpected trailing text after .table", tail, tail.source), [TableDirective]);
    }
  }

  lemma {:induction false} CodeLineSound(head: View, tail: View, alphabetic: char -> bool)
    requires head.Valid() && tail.Valid() && !head.Inverted() && !tail.Inverted()
    ensures EventsSound(CodeLineEvents(head, tail, alphabetic))
    decreases |head.Text()| + |tail.Text()|
  {
    if EndsWith(head.Text(), ":") {
      CodeLineSound(tail, NoText, alphabetic);
      LabelLineSound(head, tail, alphabetic);
    } else {
      PlainCodeLineSound(head, tail, alphabetic);
    }
  }

  /** A label's name is the head less its colon, trimmed: a sound view. */
  lemma LabelLineSound(head: View, tail: View, alphabetic: char -> bool)
    requires head.Valid() && tail.Valid() && !head.Inverted() && !tail.Inverted()
    requires EndsWith(head.Text(), ":") && EventsSound(CodeLineEvents(tail, NoText, alphabetic))
    ensures EventsSound(CodeLineEvents(head, tail, alphabetic))
  {
    var name := Unsuffixed(head).Trimmed();
    LabelNameSound(head);
    LabelLineUnfold(head, tail, alphabetic);
    LabelConsSound(name, CodeLineEvents(tail, NoText, alphabetic));
  }

  lemma LabelConsSound(name: View, rest: seq<Event>)
    requires Sound(name) && EventsSound(rest)
    ensures EventsSound([CodeLabel(name)] + rest)
  {
    EventsSoundAppend([CodeLabel(name)], rest);
  }

  lemma LabelNameSound(head: View)
    requires head.Valid() && !head.Inverted() && head.Length() > 0
    ensures Sound(Unsuffixed(head).Trimmed())
  {
    var u := Unsuffixed(head);
    assert u.Valid() && !u.Inverted();
  }

  lemma LabelLineUnfold(head: View, tail: View, alphabetic: char -> bool)
    requires head.Valid() && tail.Valid() && !head.Inverted() && !tail.Inverted()
    requires EndsWith(head.Text(), ":")
    ensures head.Length() > 0
    ensures CodeLineEvents(head, tail, alphabetic) == [CodeLabel(Unsuffixed(head).Trimmed())] + CodeLineEvents(tail, NoText, alphabetic)
  {
  }

  /** A code line that is not a label fires at most one callback, and its views are sound. */
  lemma PlainCodeLineSound(head: View, tail: View, alphabetic: char -> bool)
    requires head.Valid() && tail.Valid() && !head.Inverted() && !tail.Inverted()
    requires !EndsWith(head.Text(), ":")
    ensures EventsSound(CodeLineEvents(head, tail, alphabetic))
  {
    SplitSound(tail, ' ', Ignore);
    assert EventSound(CodeInstruction(head, SplitWords(tail, ' ', Ignore)));
  }

  lemma TableLineSound(head: View, tail: View)
    requires head.Valid() && tail.Valid() && !head.Inverted() && !tail.Inverted()
    ensures EventsSound(TableLineEvents(head, tail))
  {
    if EndsWith(head.Text(), ":") && !IsBlankText(tail.Text()) {
      assert Sound(Unsuffixed(head));
    }
  }

  lemma EndCodeSound(st: State, head: View, tail: View)
    requires tail.Valid()
    ensures EventsSound(EndCodeResponse(st, head, tail).events)
  {
  }

  lemma EndTableSound(st: State, head: View, tail: View)
    requires tail.Valid()
    ensures EventsSound(EndTableResponse(st, head, tail).events)
  {
  }

  /** Whatever the state and the head, the line's callbacks carry sound views. */
  lemma DispatchSound(st: State, head: View, tail: View, alphabetic: char -> bool)
    requires head.Valid() && tail.Valid() && !head.Inverted() && !tail.Inverted()
    ensures EventsSound(Dispatch(st, head, tail, alphabetic).0.events)
  {
    var h := head.Text();
    var g := st == Global;
    if st == Table {
      EndTableSound(st, head, tail);
      TableLineSound(head, tail);
    } else if h == ".source" {
      SourceSound(g, MissingEndCode, head, tail);
    } else if h == ".class" || h == ".interface" || h == ".enum" {
      ClassSound(g, MissingEndCode, head, tail);
    } else if h == ".super" || h == ".implements" {
      NameSound(g, MissingEndCode, head, tail, h == ".implements");
    } else if h == ".field" || h == ".method" {
      MemberSound(g, MissingEndCode, head, tail, h == ".method");
    } else if h == ".code" {
      CodeSound(g, MissingEndCode, head, tail);
    } else if h == ".table" {
      TableSound(st, head, tail);
    } else if h == ".end" {
      EndCodeSound(st, head, tail);
    } else if st == Code {
      CodeLineSound(head, tail, alphabetic);
    }
  }

  lemma LineSound(st: State, raw: string, alphabetic: char -> bool)
    ensures EventsSound(LineResponse(st, raw, alphabetic).0.events)
  {
    var content := Content(raw);
    if !IsBlankText(content.Text()) {
      var (head, tail) := HeadAndTail(content);
      DispatchSound(st, head, tail, alphabetic);
    }
  }

  lemma {:induction false} StampSound(events: seq<Event>, line: Option<string>, lineNumber: int)
    requires EventsSound(events)
    ensures NoticesSound(Stamp(events, line, lineNumber))
    decreases |events|
  {
    if events != [] {
      StampSound(events[1..], line, lineNumber);
      var rest := Stamp(events[1..], line, lineNumber);
      forall i | 0 <= i < |rest| + 1 ensures EventSound(([Notice(events[0], line, lineNumber)] + rest)[i].event) {
        if i > 0 {
          assert ([Notice(events[0], line, lineNumber)] + rest)[i] == rest[i - 1];
        }
      }
    }
  }

  lemma NoticesSoundAppend(a: seq<Notice>, b: seq<Notice>)
    requires NoticesSound(a) && NoticesSound(b)
    ensures NoticesSound(a + b)
  {
    forall i | 0 <= i < |a + b| ensures EventSound((a + b)[i].event) {
      if i >= |a| {
        assert (a + b)[i] == b[i - |a|];
      }
    }
  }

  lemma ProcessSound(p: Snapshot, raw: string, alphabetic: char -> bool)
    requires NoticesSound(p.fired)
    ensures NoticesSound(ProcessSpec(p, raw, alphabetic).0.fired)
  {
    if !p.aborted {
      var (resp, next) := LineResponse(p.state, raw, alphabetic);
      LineSound(p.state, raw, alphabetic);
      StampSound(resp.events, Some(raw), p.lineNumber + 1);
      NoticesSoundAppend(p.fired, Stamp(resp.events, Some(raw), p.lineNumber + 1));
    }
  }

  lemma {:induction false} ProcessAllSound(p: Snapshot, lines: seq<string>, alphabetic: char -> bool)
    requires NoticesSound(p.fired)
    ensures NoticesSound(ProcessAll(p, lines, alphabetic).0.fired)
    decreases |lines|
  {
    if lines != [] {
      ProcessSound(p, lines[0], alphabetic);
      var (q, c) := ProcessSpec(p, lines[0], alphabetic);
      if c.None? {
        ProcessAllSound(q, lines[1..], alphabetic);
      }
    }
  }

  /** Every callback of a parse, crashed or not, carries sound views. */
  lemma ParseSound(p: Snapshot, lines: seq<string>, alphabetic: char -> bool)
    requires NoticesSound(p.fired)
    ensures NoticesSound(ParseSpec(p, lines, alphabetic).0.fired)
  {
    if p.state == Global {
      ProcessAllSound(p, lines, alphabetic);
      var (q, c) := ProcessAll(p, lines, alphabetic);
      if c.None? {
        var n := Notice(Event.EndOfInput, q.line, q.lineNumber);
        assert NoticesSound([n]);
        NoticesSoundAppend(q.fired, [n]);
        assert ParseSpec(p, lines, alphabetic).0.fired == q.fired + [n];
      }
    }
  }
}
