/**
 * The listener stores the views the parser hands it and never makes one of
 * its own, so every view it holds is as sound as the parser's: inside its
 * line and not inverted. The assembler relies on this when it takes their
 * text.
 */
module ListenerViews {
  import opened Base
  import opened StringViews
  import Parser
  import Instructions
  import opened ParserViews
  import opened Listener

  predicate SomeSound(v: Option<View>)
  {
    v.Some? ==> Sound(v.value)
  }

  predicate FieldSound(f: FieldDefinition)
  {
    AllSound(f.flags) && Sound(f.fieldName) && Sound(f.fieldDescriptor)
  }

  predicate MethodSound(m: MethodDefinition)
  {
    AllSound(m.flags) && Sound(m.methodName) && Sound(m.descriptor)
  }

  predicate EntrySound(e: Instructions.Entry)
  {
    Sound(e.caseLabel) && Sound(e.target)
  }

  predicate EntriesSound(es: seq<Instructions.Entry>)
  {
    forall i :: 0 <= i < |es| ==> EntrySound(es[i])
  }

  predicate ItemSound(c: CodeItem)
  {
    match c
    case Instruction(labels, opcode, operands, _, _) => AllSound(labels) && Sound(opcode) && AllSound(operands)
    case Table(entries) => entries.Some? ==> EntriesSound(entries.value)
  }

  predicate ItemsSound(cs: seq<CodeItem>)
  {
    forall i :: 0 <= i < |cs| ==> ItemSound(cs[i])
  }

  predicate FieldsSound(fs: seq<FieldDefinition>)
  {
    forall i :: 0 <= i < |fs| ==> FieldSound(fs[i])
  }

  predicate MethodsSound(ms: seq<MethodDefinition>)
  {
    forall i :: 0 <= i < |ms| ==> MethodSound(ms[i])
  }

  predicate CodesSound(codes: map<MethodDefinition, MethodCode>)
  {
    forall m :: m in codes ==> MethodSound(m) && ItemsSound(codes[m].codeItems)
  }

  predicate SpecSound(s: ClassSpec)
  {
    SomeSound(s.classId) && SomeSound(s.className) && SomeSound(s.superclassName)
    && AllSound(s.superinterfaceNames) && (s.classFlags.Some? ==> AllSound(s.classFlags.value))
    && FieldsSound(s.fields) && MethodsSound(s.methods) && CodesSound(s.methodCodes)
  }

  predicate SpecsSound(ss: seq<ClassSpec>)
  {
    forall i :: 0 <= i < |ss| ==> SpecSound(ss[i])
  }

  /** Every view the listener holds, committed or pending, is sound. */
  predicate BuilderSound(b: Builder)
  {
    SomeSound(b.sourceName) && SpecsSound(b.classSpecs) && SpecSound(Pending(b))
    && (b.tableEntries.Some? ==> EntriesSound(b.tableEntries.value))
    && (b.codeItems.Some? ==> ItemsSound(b.codeItems.value))
    && AllSound(b.instructionLabels)
  }

  lemma InitialSound()
    ensures BuilderSound(Initial)
  {
  }

  lemma AllSoundSnoc(vs: seq<View>, v: View)
    requires AllSound(vs) && Sound(v)
    ensures AllSound(vs + [v])
  {
    assert forall i :: 0 <= i < |vs| ==> (vs + [v])[i] == vs[i];
  }

  lemma SpecsSnoc(ss: seq<ClassSpec>, s: ClassSpec)
    requires SpecsSound(ss) && SpecSound(s)
    ensures SpecsSound(ss + [s])
  {
    assert forall i :: 0 <= i < |ss| ==> (ss + [s])[i] == ss[i];
  }

  lemma CommitSound(b: Builder)
    requires BuilderSound(b)
    ensures BuilderSound(Commit(b))
  {
    SpecsSnoc(b.classSpecs, Pending(b));
  }

  lemma ClassSound(b: Builder, classId: View, flags: seq<View>, className: View)
    requires BuilderSound(b) && Sound(classId) && AllSound(flags) && Sound(className)
    ensures BuilderSound(OnClass(b, classId, flags, className))
  {
    if b.className.Some? {
      CommitSound(b);
    }
  }

  lemma MembersSound(b: Builder, flags: seq<View>, name: View, descriptor: View)
    requires BuilderSound(b) && AllSound(flags) && Sound(name) && Sound(descriptor)
    ensures BuilderSound(b.(fields := b.fields + [FieldDefinition(flags, name, descriptor)]))
    ensures BuilderSound(b.(methods := b.methods + [MethodDefinition(flags, name, descriptor)]))
  {
    var f := FieldDefinition(flags, name, descriptor);
    assert forall i :: 0 <= i < |b.fields| ==> (b.fields + [f])[i] == b.fields[i];
    var m := MethodDefinition(flags, name, descriptor);
    assert forall i :: 0 <= i < |b.methods| ==> (b.methods + [m])[i] == b.methods[i];
  }

  lemma InterfaceSound(b: Builder, name: View)
    requires BuilderSound(b) && Sound(name)
    ensures BuilderSound(b.(superinterfaceNames := b.superinterfaceNames + [name]))
  {
    AllSoundSnoc(b.superinterfaceNames, name);
  }

  lemma LabelSound(b: Builder, labelName: View, line: Option<string>, lineNumber: int)
    requires BuilderSound(b) && Sound(labelName) && OnLabel(b, labelName, line, lineNumber).Ok?
    ensures BuilderSound(OnLabel(b, labelName, line, lineNumber).value)
  {
    if labelName !in b.instructionLabels {
      AllSoundSnoc(b.instructionLabels, labelName);
    }
  }

  lemma InstructionSound(b: Builder, opcode: View, operands: seq<View>, line: Option<string>, lineNumber: int)
    requires BuilderSound(b) && Sound(opcode) && AllSound(operands) && OnInstruction(b, opcode, operands, line, lineNumber).Ok?
    ensures BuilderSound(OnInstruction(b, opcode, operands, line, lineNumber).value)
  {
    var items := b.codeItems.value;
    var c := Instruction(b.instructionLabels, opcode, operands, line, lineNumber);
    assert ItemSound(c);
    assert forall i :: 0 <= i < |items| ==> (items + [c])[i] == items[i];
  }

  lemma EndCodeSound(b: Builder, line: Option<string>, lineNumber: int)
    requires BuilderSound(b) && OnEndCode(b, line, lineNumber).Ok?
    ensures BuilderSound(OnEndCode(b, line, lineNumber).value)
  {
    if b.codeItems.Some? && b.methods != [] {
      var m := b.methods[|b.methods| - 1];
      var codes := b.methodCodes[m := MethodCode(b.codeItems.value)];
      assert MethodSound(m);
      assert CodesSound(codes);
    }
  }

  lemma TableLineSound(b: Builder, caseLabel: View, target: View)
    requires BuilderSound(b) && Sound(caseLabel) && Sound(target) && OnTableLine(b, caseLabel, target).Ok?
    ensures BuilderSound(OnTableLine(b, caseLabel, target).value)
  {
    var es := b.tableEntries.value;
    var e := Instructions.Entry(caseLabel, target);
    assert forall i :: 0 <= i < |es| ==> (es + [e])[i] == es[i];
  }

  lemma EndTableSound(b: Builder)
    requires BuilderSound(b) && OnEndTable(b).Ok?
    ensures BuilderSound(OnEndTable(b).value)
  {
    var items := b.codeItems.value;
    var c := Table(b.tableEntries);
    assert ItemSound(c);
    assert forall i :: 0 <= i < |items| ==> (items + [c])[i] == items[i];
  }

  /** The declaration callbacks keep every held view sound. */
  lemma DeclarationSound(b: Builder, n: Parser.Notice)
    requires BuilderSound(b) && EventSound(n.event) && OnNotice(b, n).Ok?
    requires !n.event.CodeDirective? && !n.event.CodeLabel? && !n.event.CodeInstruction? && !n.event.EndCodeDirective?
    requires !n.event.TableDirective? && !n.event.TableLine? && !n.event.EndTableDirective?
    ensures BuilderSound(OnNotice(b, n).value)
  {
    match n.event
    case ClassDirective(classId, flags, className) => ClassSound(b, classId, flags, className);
    case ImplementsDirective(name) => InterfaceSound(b, name);
    case FieldDirective(flags, name, descriptor) => MembersSound(b, flags, name, descriptor);
    case MethodDirective(flags, name, descriptor) => MembersSound(b, flags, name, descriptor);
    case EndOfInput => CommitSound(b);
    case _ =>
  }

  /** The code and table callbacks keep every held view sound. */
  lemma CodeCallbackSound(b: Builder, n: Parser.Notice)
    requires BuilderSound(b) && EventSound(n.event) && OnNotice(b, n).Ok?
    requires n.event.CodeDirective? || n.event.CodeLabel? || n.event.CodeInstruction? || n.event.EndCodeDirective?
             || n.event.TableDirective? || n.event.TableLine? || n.event.EndTableDirective?
    ensures BuilderSound(OnNotice(b, n).value)
  {
    match n.event
    case CodeLabel(labelName) => LabelSound(b, labelName, n.line, n.lineNumber);
    case CodeInstruction(opcode, operands) => InstructionSound(b, opcode, operands, n.line, n.lineNumber);
    case EndCodeDirective => EndCodeSound(b, n.line, n.lineNumber);
    case TableLine(caseLabel, target) => TableLineSound(b, caseLabel, target);
    case EndTableDirective => EndTableSound(b);
    case _ =>
  }

  lemma NoticeSound(b: Builder, n: Parser.Notice)
    requires BuilderSound(b) && EventSound(n.event) && OnNotice(b, n).Ok?
    ensures BuilderSound(OnNotice(b, n).value)
  {
    var e := n.event;
    if e.CodeDirective? || e.CodeLabel? || e.CodeInstruction? || e.EndCodeDirective?
       || e.TableDirective? || e.TableLine? || e.EndTableDirective? {
      CodeCallbackSound(b, n);
    } else {
      DeclarationSound(b, n);
    }
  }

  /** A replay of sound callbacks that ends normally leaves every held view sound. */
  lemma {:induction false} ReplaySound(b: Builder, ns: seq<Parser.Notice>)
    requires BuilderSound(b) && NoticesSound(ns) && Replay(b, ns).Ok?
    ensures BuilderSound(Replay(b, ns).value)
    decreases |ns|
  {
    if ns != [] {
      NoticeSound(b, ns[0]);
      var c := OnNotice(b, ns[0]).value;
      assert NoticesSound(ns[1..]) by {
        assert forall i :: 0 <= i < |ns[1..]| ==> ns[1..][i] == ns[i + 1];
      }
      ReplaySound(c, ns[1..]);
    }
  }

  /** The listener after a whole parse from a fresh start holds sound views only. */
  lemma ParsedSound(lines: seq<string>, alphabetic: char -> bool)
    requires Replay(Initial, Parser.ParseSpec(Parser.Snapshot(Parser.Global, false, 0, None, []), lines, alphabetic).0.fired).Ok?
    ensures BuilderSound(Replay(Initial, Parser.ParseSpec(Parser.Snapshot(Parser.Global, false, 0, None, []), lines, alphabetic).0.fired).value)
  {
    ParseSound(Parser.Snapshot(Parser.Global, false, 0, None, []), lines, alphabetic);
    ReplaySound(Initial, Parser.ParseSpec(Parser.Snapshot(Parser.Global, false, 0, None, []), lines, alphabetic).0.fired);
  }
}
