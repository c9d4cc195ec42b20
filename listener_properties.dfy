/**
 * What the listener's callbacks promise, one at a time and over runs of
 * callbacks: duplicate detection, class commits, labels waiting for their
 * instruction, code blocks and tables.
 */
module ListenerProperties {
  import opened Base
  import opened Chars
  import opened StringViews
  import opened ErrorMessages
  import Parser
  import Instructions
  import opened Listener

  /** A diagnostic with no column, as the duplicate and misplacement checks record it. */
  function UnplacedError(message: string, line: Option<string>, lineNumber: int): ErrorMessage
  {
    ErrorMessage(message, line, lineNumber, UNSPECIFIC)
  }

  /** A message that starts with a letter is not blank. */
  lemma LetterFirstNotBlank(message: string)
    requires |message| > 0 && (IsAsciiLetter(message[0]) || message[0] == '.')
    ensures !IsBlankText(message)
  {
    assert !IsWhitespace(message[0]);
  }

  /** The diagnostic is recorded whenever the line number is one a parser can report. */
  lemma UnplacedRecorded(b: Builder, message: string, line: Option<string>, lineNumber: int)
    requires |message| > 0 && (IsAsciiLetter(message[0]) || message[0] == '.') && lineNumber >= -1
    ensures Unplaced(b, message, line, lineNumber) == Ok(b.(errors := b.errors + [UnplacedError(message, line, lineNumber)]))
  {
    LetterFirstNotBlank(message);
  }

  /** A syntax exception is recorded with its column moved from 0-based to 1-based. */
  lemma ExceptionColumnShifted(b: Builder, message: string, columnNumber: int, source: string, lineNumber: int)
    requires !IsBlankText(message) && lineNumber >= -1 && columnNumber >= -2
    ensures OnException(b, message, columnNumber, source, lineNumber)
      == Ok(b.(errors := b.errors + [ErrorMessage(message, Some(source), lineNumber, columnNumber + 1)]))
  {
  }

  /** The first `.source` wins; a later one is reported with no column and changes nothing else. */
  lemma SourceKeptFirst(b: Builder, source: View, line: Option<string>, lineNumber: int)
    requires lineNumber >= -1
    ensures b.sourceName.None? ==> OnSource(b, source, line, lineNumber) == Ok(b.(sourceName := Some(source)))
    ensures b.sourceName.Some? ==> (OnSource(b, source, line, lineNumber)
      == Ok(b.(errors := b.errors + [UnplacedError("Duplicate .source directive", line, lineNumber)])))
  {
    UnplacedRecorded(b, "Duplicate .source directive", line, lineNumber);
  }

  /** The first `.super` of a class wins; a later one in the same class is reported. */
  lemma SuperKeptFirst(b: Builder, superName: View, line: Option<string>, lineNumber: int)
    requires lineNumber >= -1
    ensures b.superclassName.None? ==> OnSuper(b, superName, line, lineNumber) == Ok(b.(superclassName := Some(superName)))
    ensures b.superclassName.Some? ==> (OnSuper(b, superName, line, lineNumber)
      == Ok(b.(errors := b.errors + [UnplacedError("Duplicate .super directive", line, lineNumber)])))
  {
    UnplacedRecorded(b, "Duplicate .super directive", line, lineNumber);
  }

  /** A second `.code` before the block is stored is reported, and the open buffer is kept. */
  lemma CodeKeptFirst(b: Builder, line: Option<string>, lineNumber: int)
    requires lineNumber >= -1
    ensures b.codeItems.None? ==> OnCode(b, line, lineNumber) == Ok(b.(codeItems := Some([])))
    ensures b.codeItems.Some? ==> (OnCode(b, line, lineNumber)
      == Ok(b.(errors := b.errors + [UnplacedError("Duplicate .code directive", line, lineNumber)])))
  {
    UnplacedRecorded(b, "Duplicate .code directive", line, lineNumber);
  }

  /**
   * A class directive commits the class before it only when that one has a
   * name; either way the new class starts with its id, flags and name, and
   * with a superclass only if no commit cleared the old one.
   */
  lemma ClassCommitsNamedPredecessor(b: Builder, classId: View, flags: seq<View>, className: View)
    ensures var r := OnClass(b, classId, flags, className);
      && r.classId == Some(classId) && r.classFlags == Some(flags) && r.className == Some(className)
      && GlobalsKept(r, b)
      && (b.className.Some? ==> r.classSpecs == b.classSpecs + [Pending(b)] && r.superclassName == None
                                && r.fields == [] && r.methods == [] && r.superinterfaceNames == [] && r.methodCodes == map[])
      && (b.className.None? ==> r.classSpecs == b.classSpecs && r.superclassName == b.superclassName
                                && r.fields == b.fields && r.methods == b.methods && r.methodCodes == b.methodCodes)
  {
  }

  /** A `.super` after a named class is committed is a first one again. */
  lemma SuperResetByNextClass(b: Builder, classId: View, flags: seq<View>, className: View, superName: View, line: Option<string>, lineNumber: int)
    requires b.className.Some?
    ensures var c := OnClass(b, classId, flags, className);
      OnSuper(c, superName, line, lineNumber) == Ok(c.(superclassName := Some(superName)))
  {
  }

  /** codeLabel: a name already waiting is reported and not added; any other name joins the queue. */
  lemma LabelDuplicates(b: Builder, labelName: View, line: Option<string>, lineNumber: int)
    requires lineNumber >= -1
    ensures labelName in b.instructionLabels ==> (OnLabel(b, labelName, line, lineNumber)
      == Ok(b.(errors := b.errors + [UnplacedError("Duplicate label definition", line, lineNumber)])))
    ensures labelName !in b.instructionLabels ==> (OnLabel(b, labelName, line, lineNumber)
      == Ok(b.(instructionLabels := b.instructionLabels + [labelName])))
  {
    UnplacedRecorded(b, "Duplicate label definition", line, lineNumber);
  }

  /** codeInstruction: the waiting labels, in order, go with the instruction and the queue is emptied. */
  lemma InstructionTakesLabels(b: Builder, opcode: View, operands: seq<View>, line: Option<string>, lineNumber: int)
    ensures b.codeItems.None? ==> OnInstruction(b, opcode, operands, line, lineNumber) == Err(NullPointer)
    ensures b.codeItems.Some? ==>
      && OnInstruction(b, opcode, operands, line, lineNumber).Ok?
      && var r := OnInstruction(b, opcode, operands, line, lineNumber).value;
      && r.instructionLabels == []
      && r.codeItems == Some(b.codeItems.value + [Instruction(b.instructionLabels, opcode, operands, line, lineNumber)])
  {
  }

  /** Duplicates are checked only against the waiting labels: after an instruction any name is fresh. */
  lemma LabelFreshAfterInstruction(b: Builder, opcode: View, operands: seq<View>, labelName: View, line: Option<string>, lineNumber: int)
    requires b.codeItems.Some?
    ensures var c := OnInstruction(b, opcode, operands, line, lineNumber).value;
      OnLabel(c, labelName, line, lineNumber) == Ok(c.(instructionLabels := [labelName]))
  {
    assert [] + [labelName] == [labelName];
  }

  /** One codeLabel notice per name, all from the same line. */
  function LabelNotices(names: seq<View>, line: Option<string>, lineNumber: int): (r: seq<Parser.Notice>)
    ensures |r| == |names|
  {
    if names == [] then [] else [Parser.Notice(Parser.CodeLabel(names[0]), line, lineNumber)] + LabelNotices(names[1..], line, lineNumber)
  }

  /** The names are distinct and none of them is in the queue already. */
  predicate FreshNames(names: seq<View>, queue: seq<View>)
  {
    && (forall i, j :: 0 <= i < j < |names| ==> names[i] != names[j])
    && (forall i :: 0 <= i < |names| ==> names[i] !in queue)
  }

  /** Dropping the first of fresh names leaves names fresh for the queue that took it. */
  lemma FreshNamesTail(names: seq<View>, queue: seq<View>)
    requires names != [] && FreshNames(names, queue)
    ensures FreshNames(names[1..], queue + [names[0]])
  {
    forall i | 0 <= i < |names[1..]| ensures names[1..][i] !in queue + [names[0]] {
      assert names[1..][i] == names[i + 1];
    }
  }

  /** Replaying a run that starts with one notice is that notice answered, then the rest replayed. */
  lemma ReplayFirst(b: Builder, ns: seq<Parser.Notice>, c: Builder)
    requires ns != [] && OnNotice(b, ns[0]) == Ok(c)
    ensures Replay(b, ns) == Replay(c, ns[1..])
  {
  }

  /** The builder with another queue of waiting labels. */
  function WithLabels(b: Builder, queue: seq<View>): (r: Builder)
    ensures r.instructionLabels == queue
  {
    b.(instructionLabels := queue)
  }

  /** The first of several fresh names joins the queue, and the rest are replayed after it. */
  lemma LabelStep(b: Builder, names: seq<View>, line: Option<string>, lineNumber: int)
    requires names != [] && FreshNames(names, b.instructionLabels)
    ensures Replay(b, LabelNotices(names, line, lineNumber))
      == Replay(WithLabels(b, b.instructionLabels + [names[0]]), LabelNotices(names[1..], line, lineNumber))
  {
    var ns := LabelNotices(names, line, lineNumber);
    assert names[0] !in b.instructionLabels;
    ReplayFirst(b, ns, WithLabels(b, b.instructionLabels + [names[0]]));
    assert ns[1..] == LabelNotices(names[1..], line, lineNumber);
  }

  /** Replacing the queue twice is replacing it once. */
  lemma WithLabelsTwice(b: Builder, q1: seq<View>, q2: seq<View>)
    ensures WithLabels(WithLabels(b, q1), q2) == WithLabels(b, q2)
  {
  }

  /** Distinct names none of which is waiting already all join the queue, in order, with no diagnostic. */
  lemma {:induction false} LabelsQueue(b: Builder, names: seq<View>, line: Option<string>, lineNumber: int)
    requires FreshNames(names, b.instructionLabels)
    ensures Replay(b, LabelNotices(names, line, lineNumber)) == Ok(WithLabels(b, b.instructionLabels + names))
    decreases |names|
  {
    var q := b.instructionLabels;
    if names == [] {
      assert q + names == q;
      assert WithLabels(b, q) == b;
    } else {
      var c := WithLabels(b, q + [names[0]]);
      LabelStep(b, names, line, lineNumber);
      FreshNamesTail(names, q);
      LabelsQueue(c, names[1..], line, lineNumber);
      assert (q + [names[0]]) + names[1..] == q + names;
      WithLabelsTwice(b, q + [names[0]], q + names);
    }
  }

  /**
   * endCodeDirective: with no open buffer it is reported; with a method
   * declared the buffer is stored under the last one and closed; with none
   * declared nothing happens and the buffer stays open.
   */
  lemma EndCodeCases(b: Builder, line: Option<string>, lineNumber: int)
    requires lineNumber >= -1
    ensures b.codeItems.None? ==> (OnEndCode(b, line, lineNumber)
      == Ok(b.(errors := b.errors + [UnplacedError(".end code directive not expected here", line, lineNumber)])))
    ensures b.codeItems.Some? && b.methods == [] ==> OnEndCode(b, line, lineNumber) == Ok(b)
    ensures b.codeItems.Some? && b.methods != [] ==>
      && OnEndCode(b, line, lineNumber).Ok?
      && var r := OnEndCode(b, line, lineNumber).value;
      && r.codeItems == None
      && r.methodCodes == b.methodCodes[b.methods[|b.methods| - 1] := MethodCode(b.codeItems.value)]
      && r.errors == b.errors && r.methods == b.methods
  {
    UnplacedRecorded(b, ".end code directive not expected here", line, lineNumber);
  }

  /** One tableLine notice per row, all from the same line. */
  function RowNotices(rows: seq<Instructions.Entry>, line: Option<string>, lineNumber: int): (r: seq<Parser.Notice>)
    ensures |r| == |rows|
  {
    if rows == [] then []
    else [Parser.Notice(Parser.TableLine(rows[0].caseLabel, rows[0].target), line, lineNumber)] + RowNotices(rows[1..], line, lineNumber)
  }

  /** Table rows are appended in order to the open table. */
  lemma {:induction false} RowsAppend(b: Builder, rows: seq<Instructions.Entry>, line: Option<string>, lineNumber: int)
    requires b.tableEntries.Some?
    ensures Replay(b, RowNotices(rows, line, lineNumber)) == Ok(b.(tableEntries := Some(b.tableEntries.value + rows)))
    decreases |rows|
  {
    if rows == [] {
      assert b.tableEntries.value + rows == b.tableEntries.value;
    } else {
      var c := b.(tableEntries := Some(b.tableEntries.value + [rows[0]]));
      assert OnNotice(b, RowNotices(rows, line, lineNumber)[0]) == Ok(c);
      assert RowNotices(rows, line, lineNumber)[1..] == RowNotices(rows[1..], line, lineNumber);
      RowsAppend(c, rows[1..], line, lineNumber);
      assert c.tableEntries.value + rows[1..] == b.tableEntries.value + rows;
    }
  }

  /** endTableDirective: the rows become one Table item of the open buffer, and the rows are cleared. */
  lemma EndTableCases(b: Builder)
    ensures b.codeItems.None? ==> OnEndTable(b) == Err(NullPointer)
    ensures b.codeItems.Some? ==> OnEndTable(b) == Ok(b.(codeItems := Some(b.codeItems.value + [Table(b.tableEntries)]), tableEntries := None))
  {
  }

  /** Replaying a run and then one more callback is the run's result answered by that callback. */
  lemma {:induction false} ReplaySnoc(b: Builder, ns: seq<Parser.Notice>, n: Parser.Notice)
    ensures Replay(b, ns + [n]) == match Replay(b, ns) { case Ok(c) => OnNotice(c, n) case Err(x) => Err(x) }
    decreases |ns|
  {
    if ns == [] {
      assert [] + [n] == [n];
      assert [n][1..] == [];
    } else {
      assert (ns + [n])[0] == ns[0];
      assert (ns + [n])[1..] == ns[1..] + [n];
      match OnNotice(b, ns[0]) {
        case Err(x) =>
        case Ok(c) => ReplaySnoc(c, ns[1..], n);
      }
    }
  }

  /** Each callback keeps the diagnostics it was given, adding after them. */
  lemma NoticeKeepsErrors(b: Builder, n: Parser.Notice)
    ensures OnNotice(b, n).Ok? ==> b.errors <= OnNotice(b, n).value.errors
  {
  }

  /** Each callback keeps the committed classes it was given, and commits at most one more. */
  lemma NoticeKeepsClasses(b: Builder, n: Parser.Notice)
    ensures OnNotice(b, n).Ok? ==>
      var c := OnNotice(b, n).value;
      b.classSpecs <= c.classSpecs && |c.classSpecs| <= |b.classSpecs| + 1
  {
  }

  /** Over any run, diagnostics and committed classes only grow, each earlier entry staying in place. */
  lemma {:induction false} ReplayExtends(b: Builder, ns: seq<Parser.Notice>)
    ensures Replay(b, ns).Ok? ==>
      var c := Replay(b, ns).value;
      b.errors <= c.errors && b.classSpecs <= c.classSpecs
    decreases |ns|
  {
    if ns != [] {
      NoticeKeepsErrors(b, ns[0]);
      NoticeKeepsClasses(b, ns[0]);
      match OnNotice(b, ns[0]) {
        case Err(x) =>
        case Ok(c) => ReplayExtends(c, ns[1..]);
      }
    }
  }

  /** Once a source name is recorded no later callback replaces it. */
  lemma {:induction false} SourceNameSticks(b: Builder, ns: seq<Parser.Notice>)
    requires b.sourceName.Some?
    ensures Replay(b, ns).Ok? ==> Replay(b, ns).value.sourceName == b.sourceName
    decreases |ns|
  {
    if ns != [] {
      match OnNotice(b, ns[0]) {
        case Err(x) =>
        case Ok(c) =>
          assert c.sourceName == b.sourceName;
          SourceNameSticks(c, ns[1..]);
      }
    }
  }

  /** A run ending in endOfInput ends with the pending class committed, named or not. */
  lemma EndOfInputCommits(b: Builder, ns: seq<Parser.Notice>, line: Option<string>, lineNumber: int)
    requires Replay(b, ns).Ok?
    ensures var c := Replay(b, ns).value;
      Replay(b, ns + [Parser.Notice(Parser.Event.EndOfInput, line, lineNumber)]) == Ok(Commit(c))
  {
    ReplaySnoc(b, ns, Parser.Notice(Parser.Event.EndOfInput, line, lineNumber));
  }

  /** An input with no class directive still yields one class spec, with no id, name or flags. */
  lemma NamelessClassCommitted(line: Option<string>, lineNumber: int)
    ensures Replay(Initial, [Parser.Notice(Parser.Event.EndOfInput, line, lineNumber)])
      == Ok(Initial.(classSpecs := [ClassSpec(None, None, None, [], None, [], [], map[])], classFlags := Some([])))
  {
    var n := Parser.Notice(Parser.Event.EndOfInput, line, lineNumber);
    assert OnNotice(Initial, n) == Ok(Commit(Initial));
    ReplayFirst(Initial, [n], Commit(Initial));
    assert [n][1..] == [];
    assert Initial.classSpecs + [Pending(Initial)] == [ClassSpec(None, None, None, [], None, [], [], map[])];
  }
}
