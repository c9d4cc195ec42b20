/**
 * What the older listener's callbacks promise, and where it differs from the
 * newer one: labels compared by text, and an `.end code` with no method
 * declared that throws.
 */
module LegacyListenerProperties {
  import opened Base
  import opened Chars
  import opened StringViews
  import opened ErrorMessages
  import Parser
  import Listener
  import opened LegacyListener

  /** The diagnostic is recorded whenever the line number is one a parser can report. */
  lemma UnplacedRecorded(b: Builder, message: string, line: Option<string>, lineNumber: int)
    requires |message| > 0 && (IsAsciiLetter(message[0]) || message[0] == '.') && lineNumber >= -1
    ensures Unplaced(b, message, line, lineNumber) == Ok(b.(errors := b.errors + [ErrorMessage(message, line, lineNumber, UNSPECIFIC)]))
  {
    assert !IsWhitespace(message[0]);
  }

  /** A syntax exception is recorded with its column moved from 0-based to 1-based. */
  lemma ExceptionColumnShifted(b: Builder, message: string, columnNumber: int, source: string, lineNumber: int)
    requires !IsBlankText(message) && lineNumber >= -1 && columnNumber >= -2
    ensures OnException(b, message, columnNumber, source, lineNumber)
      == Ok(b.(errors := b.errors + [ErrorMessage(message, Some(source), lineNumber, columnNumber + 1)]))
  {
  }

  /** A second `.source`, `.super` or `.code` is reported and the first is kept. */
  lemma DuplicatesKeepFirst(b: Builder, name: string, line: Option<string>, lineNumber: int)
    requires lineNumber >= -1
    ensures b.sourceName.Some? ==> (OnSource(b, name, line, lineNumber)
      == Ok(b.(errors := b.errors + [ErrorMessage("Duplicate .source directive", line, lineNumber, UNSPECIFIC)])))
    ensures b.sourceName.None? ==> OnSource(b, name, line, lineNumber) == Ok(b.(sourceName := Some(name)))
    ensures b.superclassName.Some? ==> (OnSuper(b, name, line, lineNumber)
      == Ok(b.(errors := b.errors + [ErrorMessage("Duplicate .super directive", line, lineNumber, UNSPECIFIC)])))
    ensures b.superclassName.None? ==> OnSuper(b, name, line, lineNumber) == Ok(b.(superclassName := Some(name)))
    ensures b.instructions.Some? ==> (OnCode(b, line, lineNumber)
      == Ok(b.(errors := b.errors + [ErrorMessage("Duplicate .code directive", line, lineNumber, UNSPECIFIC)])))
    ensures b.instructions.None? ==> OnCode(b, line, lineNumber) == Ok(b.(instructions := Some([])))
  {
    UnplacedRecorded(b, "Duplicate .source directive", line, lineNumber);
    UnplacedRecorded(b, "Duplicate .super directive", line, lineNumber);
    UnplacedRecorded(b, "Duplicate .code directive", line, lineNumber);
  }

  /** A class directive commits the class before it only when that one has a name. */
  lemma ClassCommitsNamedPredecessor(b: Builder, classId: string, flags: seq<string>, className: string)
    ensures var r := OnClass(b, classId, flags, className);
      && r.classId == Some(classId) && r.classFlags == Some(flags) && r.className == Some(className)
      && GlobalsKept(r, b)
      && (b.className.Some? ==> r.classSpecs == b.classSpecs + [Pending(b)] && r.superclassName == None
                                && r.fields == [] && r.methods == [] && r.superinterfaceNames == [] && r.methodCodes == map[])
      && (b.className.None? ==> r.classSpecs == b.classSpecs && r.superclassName == b.superclassName
                                && r.fields == b.fields && r.methods == b.methods && r.methodCodes == b.methodCodes)
  {
  }

  /** A label is a duplicate when its text is waiting already, wherever on the line it was written. */
  lemma LabelsComparedByText(b: Builder, labelName: View, line: Option<string>, lineNumber: int)
    requires lineNumber >= -1
    ensures labelName.Text() in b.instructionLabels ==> (OnNotice(b, Parser.Notice(Parser.CodeLabel(labelName), line, lineNumber))
      == Ok(b.(errors := b.errors + [ErrorMessage("Duplicate label definition", line, lineNumber, UNSPECIFIC)])))
    ensures labelName.Text() !in b.instructionLabels ==> (OnNotice(b, Parser.Notice(Parser.CodeLabel(labelName), line, lineNumber))
      == Ok(b.(instructionLabels := b.instructionLabels + [labelName.Text()])))
  {
    UnplacedRecorded(b, "Duplicate label definition", line, lineNumber);
  }

  /**
   * The listeners on their own: given a second label `a` while a label `a` is
   * still waiting for its instruction, the older listener, which compares
   * text, reports a duplicate and the newer one, which compares views, does
   * not. The parser itself never gives two label notices for `a: a: nop` (the
   * rest after the first label is read as the opcode); in a program the two
   * labels come from two lines, such as `a:` and `  a:`.
   */
  lemma SameTextLabelsDiffer(b: Builder, nb: Listener.Builder)
    requires b.instructionLabels == ["a"] && nb.instructionLabels == [View("a: a: nop", 0, 1)]
    ensures var second := View("a: a: nop", 3, 4);
      && OnNotice(b, Parser.Notice(Parser.CodeLabel(second), Some("a: a: nop"), 1)).Ok?
      && OnNotice(b, Parser.Notice(Parser.CodeLabel(second), Some("a: a: nop"), 1)).value.instructionLabels == ["a"]
      && Listener.OnNotice(nb, Parser.Notice(Parser.CodeLabel(second), Some("a: a: nop"), 1))
         == Ok(nb.(instructionLabels := [View("a: a: nop", 0, 1), second]))
  {
    var second := View("a: a: nop", 3, 4);
    assert second.Text() == "a";
    assert second != View("a: a: nop", 0, 1);
    assert second !in nb.instructionLabels;
    assert nb.instructionLabels + [second] == [View("a: a: nop", 0, 1), second];
    assert Listener.OnLabel(nb, second, Some("a: a: nop"), 1) == Ok(nb.(instructionLabels := nb.instructionLabels + [second]));
    LabelsComparedByText(b, second, Some("a: a: nop"), 1);
  }

  /** codeInstruction: the waiting labels, in order, go with the instruction and the queue is emptied. */
  lemma InstructionTakesLabels(b: Builder, opcode: string, operands: seq<string>, line: Option<string>, lineNumber: int)
    ensures b.instructions.None? ==> OnInstruction(b, opcode, operands, line, lineNumber) == Err(NullPointer)
    ensures b.instructions.Some? ==>
      && OnInstruction(b, opcode, operands, line, lineNumber).Ok?
      && var r := OnInstruction(b, opcode, operands, line, lineNumber).value;
      && r.instructionLabels == []
      && r.instructions == Some(b.instructions.value + [Instruction(b.instructionLabels, opcode, operands, line, lineNumber)])
  {
  }

  /**
   * endCodeDirective: with no open buffer it is reported; with a method
   * declared the buffer is stored under the last one and closed; with none
   * declared methods.getLast() throws.
   */
  lemma EndCodeCases(b: Builder, line: Option<string>, lineNumber: int)
    requires lineNumber >= -1
    ensures b.instructions.None? ==> (OnEndCode(b, line, lineNumber)
      == Ok(b.(errors := b.errors + [ErrorMessage(".end code directive not expected here", line, lineNumber, UNSPECIFIC)])))
    ensures b.instructions.Some? && b.methods == [] ==> OnEndCode(b, line, lineNumber) == Err(NoSuchElement)
    ensures b.instructions.Some? && b.methods != [] ==>
      && OnEndCode(b, line, lineNumber).Ok?
      && var r := OnEndCode(b, line, lineNumber).value;
      && r.instructions == None
      && r.methodCodes == b.methodCodes[b.methods[|b.methods| - 1] := MethodCode(b.instructions.value)]
      && r.errors == b.errors && r.methods == b.methods
  {
    UnplacedRecorded(b, ".end code directive not expected here", line, lineNumber);
  }

  /** A code block in a class with no method ends the replay with the exception. */
  lemma CodeWithoutMethodThrows(b: Builder, line: Option<string>, lineNumber: int)
    requires b.methods == [] && b.instructions.None?
    ensures Replay(b, [Parser.Notice(Parser.CodeDirective, line, lineNumber), Parser.Notice(Parser.EndCodeDirective, line, lineNumber)])
      == Err(NoSuchElement)
  {
    var ns := [Parser.Notice(Parser.CodeDirective, line, lineNumber), Parser.Notice(Parser.EndCodeDirective, line, lineNumber)];
    var c := b.(instructions := Some([]));
    assert OnNotice(b, ns[0]) == Ok(c);
    assert ns[1..] == [ns[1]];
    assert OnNotice(c, ns[1]) == Err(NoSuchElement);
  }

  /** Table notices change nothing. */
  lemma TablesIgnored(b: Builder, n: Parser.Notice)
    requires n.event.TableDirective? || n.event.TableLine? || n.event.EndTableDirective?
    ensures OnNotice(b, n) == Ok(b)
  {
  }

  /** Replaying a run and then one more callback is the run's result answered by that callback. */
  lemma {:induction false} ReplaySnoc(b: Builder, ns: seq<Parser.Notice>, n: Parser.Notice)
    ensures Replay(b, ns + [n]) == match Replay(b, ns) { case Ok(c) => OnNotice(c, n) case Err(x) => Err(x) }
    decreases |ns|
  {
    if ns == [] {
      assert [] + [n] == [n];
      assert [n][1..] == [];
    } else {
      assert (ns + [n])[0] == ns[0];
      assert (ns + [n])[1..] == ns[1..] + [n];
      match OnNotice(b, ns[0]) {
        case Err(x) =>
        case Ok(c) => ReplaySnoc(c, ns[1..], n);
      }
    }
  }

  /** A run ending in endOfFile ends with the pending class committed, named or not. */
  lemma EndOfFileCommits(b: Builder, ns: seq<Parser.Notice>, line: Option<string>, lineNumber: int)
    requires Replay(b, ns).Ok?
    ensures var c := Replay(b, ns).value;
      Replay(b, ns + [Parser.Notice(Parser.Event.EndOfInput, line, lineNumber)]) == Ok(Commit(c))
  {
    ReplaySnoc(b, ns, Parser.Notice(Parser.Event.EndOfInput, line, lineNumber));
  }
}
