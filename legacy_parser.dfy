/**
 * The older parser: two states only, no tables, no Aborted or EndOfInput
 * state, and no guard against a second parse. Its directive handlers are the
 * newer parser's with the bare "X unexpected here" wording; it differs in how
 * it dispatches `.end`, in leaving its fields untouched once aborted, and in
 * ending every parse with endOfFile.
 */
module LegacyParser {
  import opened Base
  import opened Chars
  import opened StringViews
  import Parser

  datatype State = Global | Code

  /** The parser's fields other than its reader, its listener and its unused string builder. */
  datatype Snapshot = Snapshot(state: State, aborted: bool, lineNumber: int, line: Option<string>, fired: seq<Parser.Notice>)

  /** processEndCodeDirective: outside Code a diagnostic and an abort; in Code back to Global, trailing text unchecked. */
  function EndCodeResponse(st: State, head: View): (r: Parser.Response)
    ensures !r.abort <==> st == Code
    ensures r.crash.None? && |r.events| == 1
    ensures st == Code ==> r.events == [Parser.EndCodeDirective]
    ensures st != Code ==> r.events[0].ExceptionOccurred? && r.events[0].columnNumber == head.start
  {
    if st != Code then Parser.Response([Parser.ExceptionOccurred(".end code unexpected here", head.start, head.source)], true, None)
    else Parser.Response([Parser.EndCodeDirective], false, None)
  }

  /** process(line) after the comment, blank and abort checks. */
  function Dispatch(st: State, head: View, tail: View, alphabetic: char -> bool): (r: (Parser.Response, State))
    requires head.Valid() && tail.Valid() && !head.Inverted() && !tail.Inverted()
  {
    var h := head.Text();
    var g := st == Global;
    if h == ".source" then (Parser.SourceResponse(g, "", head, tail), st)
    else if h == ".class" || h == ".interface" || h == ".enum" then (Parser.ClassResponse(g, "", head, tail), st)
    else if h == ".super" then (Parser.NameResponse(g, "", head, tail, false), st)
    else if h == ".implements" then (Parser.NameResponse(g, "", head, tail, true), st)
    else if h == ".field" then (Parser.MemberResponse(g, "", head, tail, false), st)
    else if h == ".method" then (Parser.MemberResponse(g, "", head, tail, true), st)
    else if h == ".code" then var r := Parser.CodeResponse(g, "", head, tail); (r, if r.abort then st else Code)
    else if h == ".end" then
      if EndsWith(tail.Text(), "code") then var r := EndCodeResponse(st, head); (r, if r.abort then st else Global)
      else (Parser.Response([Parser.ExceptionOccurred("Unexpected token: " + tail.Text(), tail.start, tail.source)], false, None), st)
    else if st == Code then (Parser.Response(Parser.CodeLineEvents(head, tail, alphabetic), false, None), st)
    else (Parser.Response([Parser.ExceptionOccurred("Unexpected token: " + h, head.start, head.source)], false, None), st)
  }

  /** What process() does with a line it reads: nothing when the line is blank once its comment is cut. */
  function LineResponse(st: State, raw: string, alphabetic: char -> bool): (r: (Parser.Response, State))
  {
    var content := Parser.Content(raw);
    if IsBlankText(content.Text()) then (Parser.Response([], false, None), st)
    else
      var (head, tail) := Parser.HeadAndTail(content);
      Dispatch(st, head, tail, alphabetic)
  }

  /** process(line): once aborted nothing at all changes; otherwise the line is counted and answered. */
  function ProcessSpec(p: Snapshot, raw: string, alphabetic: char -> bool): (r: (Snapshot, Option<Crash>))
  {
    if p.aborted then (p, None)
    else
      var (resp, next) := LineResponse(p.state, raw, alphabetic);
      var n := p.lineNumber + 1;
      (Snapshot(next, resp.abort, n, Some(raw), p.fired + Parser.Stamp(resp.events, Some(raw), n)), resp.crash)
  }

  /** The lines processed in order; an escaping exception ends the run. */
  function ProcessAll(p: Snapshot, lines: seq<string>, alphabetic: char -> bool): (r: (Snapshot, Option<Crash>))
    decreases |lines|
  {
    if lines == [] then (p, None)
    else
      var (q, c) := ProcessSpec(p, lines[0], alphabetic);
      if c.Some? then (q, c) else ProcessAll(q, lines[1..], alphabetic)
  }

  /** parse(): every line, then endOfFile, whatever state the parser is in. */
  function ParseSpec(p: Snapshot, lines: seq<string>, alphabetic: char -> bool): (r: (Snapshot, Option<Crash>))
  {
    var (q, c) := ProcessAll(p, lines, alphabetic);
    if c.Some? then (q, c)
    else (q.(fired := q.fired + [Parser.Notice(Parser.Event.EndOfInput, q.line, q.lineNumber)]), None)
  }

  // ---------------------------------------------------------------- the dispatch as the source runs it

  /** The body of process() once the line is counted. */
  method RespondToLine(st: State, raw: string, alphabetic: char -> bool) returns (r: Parser.Response, next: State)
    ensures (r, next) == LineResponse(st, raw, alphabetic)
  {
    var stripped := Of(raw).FirstWord('#', Ignore);
    var content := stripped.Trim();
    var blank := content.IsBlank();
    if blank {
      return Parser.Response([], false, None), st;
    }
    var word := content.FirstWord(' ', Ignore);
    var head := word.Trim();
    var tail := content.Tail(head).value.Trim();
    assert (head, tail) == Parser.HeadAndTail(content);
    r, next := Respond(st, head, tail, alphabetic);
  }

  /** The switch of process(), calling the handlers. */
  method Respond(st: State, head: View, tail: View, alphabetic: char -> bool) returns (r: Parser.Response, next: State)
    requires head.Valid() && tail.Valid() && !head.Inverted() && !tail.Inverted()
    ensures (r, next) == Dispatch(st, head, tail, alphabetic)
  {
    var h := head.ToString().value;
    var t := tail.ToString().value;
    var g := st == Global;
    next := st;
    if h == ".source" {
      r := Parser.ProcessSourceDirective(g, "", head, tail);
    } else if h == ".class" || h == ".interface" || h == ".enum" {
      r := Parser.ProcessClassDirective(g, "", head, tail);
    } else if h == ".super" {
      r := Parser.ProcessNameDirective(g, "", head, tail, false);
    } else if h == ".implements" {
      r := Parser.ProcessNameDirective(g, "", head, tail, true);
    } else if h == ".field" {
      r := Parser.ProcessMemberDirective(g, "", head, tail, false);
    } else if h == ".method" {
      r := Parser.ProcessMemberDirective(g, "", head, tail, true);
    } else if h == ".code" {
      r := Parser.ProcessCodeDirective(g, "", head, tail);
      if !r.abort {
        next := Code;
      }
    } else if h == ".end" {
      if EndsWith(t, "code") {
        r := EndCodeResponse(st, head);
        if !r.abort {
          next := Global;
        }
      } else {
        r := Parser.Response([Parser.ExceptionOccurred("Unexpected token: " + t, tail.start, tail.source)], false, None);
      }
    } else if st == Code {
      var events := Parser.ProcessCodeLine(head, tail, alphabetic);
      r := Parser.Response(events, false, None);
    } else {
      r := Parser.Response([Parser.ExceptionOccurred("Unexpected token: " + h, head.start, head.source)], false, None);
    }
  }

  // ---------------------------------------------------------------- the parser object

  class LegacyJasmParser {
    var state: State
    var aborted: bool
    var lineNumber: int
    var line: Option<string>
    /** The callbacks made so far, in order. */
    var fired: seq<Parser.Notice>
    /** Character.isAlphabetic, which the model leaves abstract. */
    const alphabetic: char -> bool

    function Value(): Snapshot
      reads this
    {
      Snapshot(state, aborted, lineNumber, line, fired)
    }

    constructor(alphabetic: char -> bool)
      ensures Value() == Snapshot(Global, false, 0, None, [])
      ensures this.alphabetic == alphabetic
    {
      state := Global;
      aborted := false;
      lineNumber := 0;
      line := None;
      fired := [];
      this.alphabetic := alphabetic;
    }

    /** abortParsing(): later lines are skipped. */
    method AbortParsing()
      modifies this
      ensures Value() == old(Value()).(aborted := true)
    {
      aborted := true;
    }

    method Process(raw: string) returns (crash: Option<Crash>)
      modifies this
      ensures (Value(), crash) == ProcessSpec(old(Value()), raw, alphabetic)
    {
      if aborted {
        return None;
      }
      line := Some(raw);
      lineNumber := lineNumber + 1;
      var r, next := RespondToLine(state, raw, alphabetic);
      fired := fired + Parser.Stamp(r.events, line, lineNumber);
      state := next;
      aborted := r.abort;
      return r.crash;
    }

    method Parse(lines: seq<string>) returns (crash: Option<Crash>)
      modifies this
      ensures (Value(), crash) == ParseSpec(old(Value()), lines, alphabetic)
    {
      var i := 0;
      while i < |lines|
        invariant 0 <= i <= |lines|
        invariant ProcessAll(Value(), lines[i..], alphabetic) == ProcessAll(old(Value()), lines, alphabetic)
      {
        assert lines[i..][1..] == lines[i + 1..];
        var c := Process(lines[i]);
        if c.Some? {
          return c;
        }
        i := i + 1;
      }
      assert lines[i..] == [];
      fired := fired + [Parser.Notice(Parser.Event.EndOfInput, line, lineNumber)];
      return None;
    }
  }
}
