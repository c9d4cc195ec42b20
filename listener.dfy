/**
 * The listener the assembler hands to the parser. It accumulates, per class,
 * the declarations the parser reports; per method, the code items between
 * `.code` and `.end code`; and globally the source name and the diagnostics.
 * Each callback reads from the parser only its current line and line number,
 * which the notice it answers carries.
 */
module Listener {
  import opened Base
  import opened Chars
  import opened StringViews
  import opened ErrorMessages
  import Parser
  import Instructions

  datatype FieldDefinition = FieldDefinition(flags: seq<View>, fieldName: View, fieldDescriptor: View)

  datatype MethodDefinition = MethodDefinition(flags: seq<View>, methodName: View, descriptor: View)

  /** An instruction with the labels that precede it, or a switch table (whose row list may be null). */
  datatype CodeItem =
    | Instruction(labels: seq<View>, opcode: View, operands: seq<View>, text: Option<string>, line: int)
    | Table(entries: Option<seq<Instructions.Entry>>)

  datatype MethodCode = MethodCode(codeItems: seq<CodeItem>)

  /** What a class commit records; a field that was null is None. */
  datatype ClassSpec = ClassSpec(
    classId: Option<View>, className: Option<View>, superclassName: Option<View>,
    superinterfaceNames: seq<View>, classFlags: Option<seq<View>>,
    fields: seq<FieldDefinition>, methods: seq<MethodDefinition>,
    methodCodes: map<MethodDefinition, MethodCode>)

  /** The listener's fields: global, per class, per table and per method. */
  datatype Builder = Builder(
    sourceName: Option<View>, errors: seq<ErrorMessage>, classSpecs: seq<ClassSpec>,
    classId: Option<View>, className: Option<View>, superclassName: Option<View>,
    classFlags: Option<seq<View>>, superinterfaceNames: seq<View>,
    fields: seq<FieldDefinition>, methods: seq<MethodDefinition>,
    methodCodes: map<MethodDefinition, MethodCode>,
    tableEntries: Option<seq<Instructions.Entry>>,
    codeItems: Option<seq<CodeItem>>, instructionLabels: seq<View>)

  /** A freshly constructed listener. */
  const Initial: Builder := Builder(None, [], [], None, None, None, None, [], [], [], map[], None, None, [])

  /** The fields commitClassSpec leaves alone. */
  predicate GlobalsKept(after: Builder, before: Builder)
  {
    after.sourceName == before.sourceName && after.errors == before.errors
    && after.tableEntries == before.tableEntries && after.codeItems == before.codeItems
    && after.instructionLabels == before.instructionLabels
  }

  /** The per-class fields as they are once a class has been committed. */
  predicate ClassReset(b: Builder)
  {
    b.classId == None && b.className == None && b.superclassName == None
    && b.superinterfaceNames == [] && b.classFlags == Some([])
    && b.fields == [] && b.methods == [] && b.methodCodes == map[]
  }

  /** The class being declared, as a commit would record it. */
  function Pending(b: Builder): ClassSpec
  {
    ClassSpec(b.classId, b.className, b.superclassName, b.superinterfaceNames, b.classFlags, b.fields, b.methods, b.methodCodes)
  }

  /** commitClassSpec: one spec appended, the per-class fields reset, nothing else touched. */
  function Commit(b: Builder): (r: Builder)
    ensures r.classSpecs == b.classSpecs + [Pending(b)]
    ensures GlobalsKept(r, b) && ClassReset(r)
  {
    b.(classSpecs := b.classSpecs + [Pending(b)],
       classId := None, className := None, superclassName := None,
       superinterfaceNames := [], classFlags := Some([]),
       fields := [], methods := [], methodCodes := map[])
  }

  /** errors.add(new ErrorMessage(...)), which throws before adding when the arguments are refused. */
  function Report(b: Builder, e: Result<ErrorMessage, Crash>): (r: Result<Builder, Crash>)
    ensures r.Ok? <==> e.Ok?
    ensures r.Ok? ==> r.value == b.(errors := b.errors + [e.value])
  {
    match e
    case Ok(m) => Ok(b.(errors := b.errors + [m]))
    case Err(x) => Err(x)
  }

  /** A "Duplicate ..." or misplacement diagnostic: the parser's current line and number, no column. */
  function Unplaced(b: Builder, message: string, line: Option<string>, lineNumber: int): Result<Builder, Crash>
  {
    Report(b, ErrorMessages.Make(message, line, lineNumber, UNSPECIFIC))
  }

  // ---------------------------------------------------------------- the callbacks

  /** exceptionOccurred: the exception's 0-based column becomes the message's 1-based one. */
  function OnException(b: Builder, message: string, columnNumber: int, source: string, lineNumber: int): (r: Result<Builder, Crash>)
    ensures r.Ok? <==> ErrorMessages.Make(message, Some(source), lineNumber, columnNumber + 1).Ok?
    ensures r.Ok? ==> r.value == b.(errors := b.errors + [ErrorMessage(message, Some(source), lineNumber, columnNumber + 1)])
  {
    Report(b, ErrorMessages.Make(message, Some(source), lineNumber, columnNumber + 1))
  }

  function OnSource(b: Builder, source: View, line: Option<string>, lineNumber: int): Result<Builder, Crash>
  {
    if b.sourceName.Some? then Unplaced(b, "Duplicate .source directive", line, lineNumber)
    else Ok(b.(sourceName := Some(source)))
  }

  function OnClass(b: Builder, classId: View, flags: seq<View>, className: View): Builder
  {
    var c := if b.className.Some? then Commit(b) else b;
    c.(classId := Some(classId), classFlags := Some(flags), className := Some(className))
  }

  function OnSuper(b: Builder, superName: View, line: Option<string>, lineNumber: int): Result<Builder, Crash>
  {
    if b.superclassName.Some? then Unplaced(b, "Duplicate .super directive", line, lineNumber)
    else Ok(b.(superclassName := Some(superName)))
  }

  function OnCode(b: Builder, line: Option<string>, lineNumber: int): Result<Builder, Crash>
  {
    if b.codeItems.Some? then Unplaced(b, "Duplicate .code directive", line, lineNumber)
    else Ok(b.(codeItems := Some([])))
  }

  /** codeLabel: a duplicate only among the labels still waiting for their instruction. */
  function OnLabel(b: Builder, labelName: View, line: Option<string>, lineNumber: int): Result<Builder, Crash>
  {
    if labelName in b.instructionLabels then Unplaced(b, "Duplicate label definition", line, lineNumber)
    else Ok(b.(instructionLabels := b.instructionLabels + [labelName]))
  }

  /** codeInstruction: the waiting labels go with the instruction; with no code buffer open it throws. */
  function OnInstruction(b: Builder, opcode: View, operands: seq<View>, line: Option<string>, lineNumber: int): Result<Builder, Crash>
  {
    if b.codeItems.None? then Err(NullPointer)
    else Ok(b.(codeItems := Some(b.codeItems.value + [Instruction(b.instructionLabels, opcode, operands, line, lineNumber)]),
               instructionLabels := []))
  }

  /** endCodeDirective: the buffer is stored under the last method declared, if there is one. */
  function OnEndCode(b: Builder, line: Option<string>, lineNumber: int): Result<Builder, Crash>
  {
    if b.codeItems.None? then Unplaced(b, ".end code directive not expected here", line, lineNumber)
    else if b.methods == [] then Ok(b)
    else Ok(b.(methodCodes := b.methodCodes[b.methods[|b.methods| - 1] := MethodCode(b.codeItems.value)], codeItems := None))
  }

  function OnTableLine(b: Builder, caseLabel: View, target: View): Result<Builder, Crash>
  {
    if b.tableEntries.None? then Err(NullPointer)
    else Ok(b.(tableEntries := Some(b.tableEntries.value + [Instructions.Entry(caseLabel, target)])))
  }

  function OnEndTable(b: Builder): Result<Builder, Crash>
  {
    if b.codeItems.None? then Err(NullPointer)
    else Ok(b.(codeItems := Some(b.codeItems.value + [Table(b.tableEntries)]), tableEntries := None))
  }

  /** The callback a notice stands for, with what it reads from the parser. */
  function OnNotice(b: Builder, n: Parser.Notice): Result<Builder, Crash>
  {
    match n.event
    case ExceptionOccurred(message, columnNumber, source) => OnException(b, message, columnNumber, source, n.lineNumber)
    case SourceDirective(source) => OnSource(b, source, n.line, n.lineNumber)
    case ClassDirective(classId, flags, className) => Ok(OnClass(b, classId, flags, className))
    case SuperDirective(superName) => OnSuper(b, superName, n.line, n.lineNumber)
    case ImplementsDirective(name) => Ok(b.(superinterfaceNames := b.superinterfaceNames + [name]))
    case FieldDirective(flags, name, descriptor) => Ok(b.(fields := b.fields + [FieldDefinition(flags, name, descriptor)]))
    case MethodDirective(flags, name, descriptor) => Ok(b.(methods := b.methods + [MethodDefinition(flags, name, descriptor)]))
    case CodeDirective => OnCode(b, n.line, n.lineNumber)
    case CodeLabel(labelName) => OnLabel(b, labelName, n.line, n.lineNumber)
    case CodeInstruction(opcode, operands) => OnInstruction(b, opcode, operands, n.line, n.lineNumber)
    case EndCodeDirective => OnEndCode(b, n.line, n.lineNumber)
    case TableDirective => Ok(b.(tableEntries := Some([])))
    case TableLine(caseLabel, target) => OnTableLine(b, caseLabel, target)
    case EndTableDirective => OnEndTable(b)
    case EndOfInput => Ok(Commit(b))
  }

  /** The callbacks in order; an exception out of one ends the parse, and with it the replay. */
  function Replay(b: Builder, ns: seq<Parser.Notice>): Result<Builder, Crash>
    decreases |ns|
  {
    if ns == [] then Ok(b)
    else
      match OnNotice(b, ns[0])
      case Err(x) => Err(x)
      case Ok(c) => Replay(c, ns[1..])
  }

  // ---------------------------------------------------------------- the listener object

  /** What a callback method did against its specification: the new fields, or the exception and no change. */
  predicate Answered(before: Builder, after: Builder, crash: Option<Crash>, r: Result<Builder, Crash>)
  {
    (r.Ok? ==> crash.None? && after == r.value) && (r.Err? ==> crash == Some(r.error) && after == before)
  }

  class DefaultJasmParserListener {
    var sourceName: Option<View>
    var errors: seq<ErrorMessage>
    var classSpecs: seq<ClassSpec>
    var classId: Option<View>
    var className: Option<View>
    var superclassName: Option<View>
    var classFlags: Option<seq<View>>
    var superinterfaceNames: seq<View>
    var fields: seq<FieldDefinition>
    var methods: seq<MethodDefinition>
    var methodCodes: map<MethodDefinition, MethodCode>
    var tableEntries: Option<seq<Instructions.Entry>>
    var codeItems: Option<seq<CodeItem>>
    var instructionLabels: seq<View>

    function Value(): Builder
      reads this
    {
      Builder(sourceName, errors, classSpecs, classId, className, superclassName, classFlags, superinterfaceNames,
              fields, methods, methodCodes, tableEntries, codeItems, instructionLabels)
    }

    constructor()
      ensures Value() == Initial
    {
      sourceName := None;
      errors := [];
      classSpecs := [];
      classId := None;
      className := None;
      superclassName := None;
      classFlags := None;
      superinterfaceNames := [];
      fields := [];
      methods := [];
      methodCodes := map[];
      tableEntries := None;
      codeItems := None;
      instructionLabels := [];
    }

    /** errors.add(new ErrorMessage(...)) */
    method AddError(message: string, line: Option<string>, lineNumber: int, columnNumber: int) returns (crash: Option<Crash>)
      modifies this
      ensures Answered(old(Value()), Value(), crash, Report(old(Value()), ErrorMessages.Make(message, line, lineNumber, columnNumber)))
    {
      var e := ErrorMessages.Make(message, line, lineNumber, columnNumber);
      if e.Err? {
        return Some(e.error);
      }
      errors := errors + [e.value];
      return None;
    }

    method ExceptionOccurred(message: string, columnNumber: int, source: string, lineNumber: int) returns (crash: Option<Crash>)
      modifies this
      ensures Answered(old(Value()), Value(), crash, OnException(old(Value()), message, columnNumber, source, lineNumber))
    {
      crash := AddError(message, Some(source), lineNumber, columnNumber + 1);
    }

    method SourceDirective(source: View, line: Option<string>, lineNumber: int) returns (crash: Option<Crash>)
      modifies this
      ensures Answered(old(Value()), Value(), crash, OnSource(old(Value()), source, line, lineNumber))
    {
      if sourceName.Some? {
        crash := AddError("Duplicate .source directive", line, lineNumber, UNSPECIFIC);
      } else {
        sourceName := Some(source);
        crash := None;
      }
    }

    method CommitClassSpec()
      modifies this
      ensures Value() == Commit(old(Value()))
    {
      classSpecs := classSpecs + [ClassSpec(classId, className, superclassName, superinterfaceNames, classFlags, fields, methods, methodCodes)];
      ResetClass();
    }

    /** The per-class part of commitClassSpec. */
    method ResetClass()
      modifies this
      ensures classId == None && className == None && superclassName == None
      ensures superinterfaceNames == [] && classFlags == Some([])
      ensures fields == [] && methods == [] && methodCodes == map[]
      ensures sourceName == old(sourceName) && errors == old(errors) && classSpecs == old(classSpecs)
      ensures tableEntries == old(tableEntries) && codeItems == old(codeItems) && instructionLabels == old(instructionLabels)
    {
      classId := None;
      className := None;
      superclassName := None;
      superinterfaceNames := [];
      classFlags := Some([]);
      fields := [];
      methods := [];
      methodCodes := map[];
    }

    method ClassDirective(classId: View, flags: seq<View>, className: View)
      modifies this
      ensures Value() == OnClass(old(Value()), classId, flags, className)
    {
      if this.className.Some? {
        CommitClassSpec();
      }
      this.classId := Some(classId);
      this.classFlags := Some(flags);
      this.className := Some(className);
    }

    method SuperDirective(superName: View, line: Option<string>, lineNumber: int) returns (crash: Option<Crash>)
      modifies this
      ensures Answered(old(Value()), Value(), crash, OnSuper(old(Value()), superName, line, lineNumber))
    {
      if superclassName.Some? {
        crash := AddError("Duplicate .super directive", line, lineNumber, UNSPECIFIC);
      } else {
        superclassName := Some(superName);
        crash := None;
      }
    }

    method ImplementsDirective(interfaceName: View)
      modifies this
      ensures Value() == old(Value()).(superinterfaceNames := old(superinterfaceNames) + [interfaceName])
    {
      superinterfaceNames := superinterfaceNames + [interfaceName];
    }

    method FieldDirective(flags: seq<View>, name: View, descriptor: View)
      modifies this
      ensures Value() == old(Value()).(fields := old(fields) + [FieldDefinition(flags, name, descriptor)])
    {
      fields := fields + [FieldDefinition(flags, name, descriptor)];
    }

    method MethodDirective(flags: seq<View>, name: View, descriptor: View)
      modifies this
      ensures Value() == old(Value()).(methods := old(methods) + [MethodDefinition(flags, name, descriptor)])
    {
      methods := methods + [MethodDefinition(flags, name, descriptor)];
    }

    method CodeDirective(line: Option<string>, lineNumber: int) returns (crash: Option<Crash>)
      modifies this
      ensures Answered(old(Value()), Value(), crash, OnCode(old(Value()), line, lineNumber))
    {
      if codeItems.Some? {
        crash := AddError("Duplicate .code directive", line, lineNumber, UNSPECIFIC);
      } else {
        codeItems := Some([]);
        crash := None;
      }
    }

    method CodeLabel(labelName: View, line: Option<string>, lineNumber: int) returns (crash: Option<Crash>)
      modifies this
      ensures Answered(old(Value()), Value(), crash, OnLabel(old(Value()), labelName, line, lineNumber))
    {
      if labelName in instructionLabels {
        crash := AddError("Duplicate label definition", line, lineNumber, UNSPECIFIC);
      } else {
        instructionLabels := instructionLabels + [labelName];
        crash := None;
      }
    }

    method CodeInstruction(opcode: View, operands: seq<View>, line: Option<string>, lineNumber: int) returns (crash: Option<Crash>)
      modifies this
      ensures Answered(old(Value()), Value(), crash, OnInstruction(old(Value()), opcode, operands, line, lineNumber))
    {
      if codeItems.None? {
        return Some(NullPointer);
      }
      codeItems := Some(codeItems.value + [Instruction(instructionLabels, opcode, operands, line, lineNumber)]);
      instructionLabels := [];
      return None;
    }

    method EndCodeDirective(line: Option<string>, lineNumber: int) returns (crash: Option<Crash>)
      modifies this
      ensures Answered(old(Value()), Value(), crash, OnEndCode(old(Value()), line, lineNumber))
    {
      crash := None;
      if codeItems.None? {
        crash := AddError(".end code directive not expected here", line, lineNumber, UNSPECIFIC);
      } else if methods != [] {
        methodCodes := methodCodes[methods[|methods| - 1] := MethodCode(codeItems.value)];
        codeItems := None;
      }
    }

    method TableLine(caseLabel: View, target: View) returns (crash: Option<Crash>)
      modifies this
      ensures Answered(old(Value()), Value(), crash, OnTableLine(old(Value()), caseLabel, target))
    {
      if tableEntries.None? {
        return Some(NullPointer);
      }
      tableEntries := Some(tableEntries.value + [Instructions.Entry(caseLabel, target)]);
      return None;
    }

    method EndTableDirective() returns (crash: Option<Crash>)
      modifies this
      ensures Answered(old(Value()), Value(), crash, OnEndTable(old(Value())))
    {
      if codeItems.None? {
        return Some(NullPointer);
      }
      codeItems := Some(codeItems.value + [Table(tableEntries)]);
      tableEntries := None;
      return None;
    }

    method TableDirective()
      modifies this
      ensures Value() == old(Value()).(tableEntries := Some([]))
    {
      tableEntries := Some([]);
    }

    /** endOfInput: the class being declared is committed, named or not. */
    method EndOfInput()
      modifies this
      ensures Value() == Commit(old(Value()))
    {
      CommitClassSpec();
    }

    /** The parser calling the callback that the notice stands for. */
    method Receive(n: Parser.Notice) returns (crash: Option<Crash>)
      modifies this
      ensures Answered(old(Value()), Value(), crash, OnNotice(old(Value()), n))
    {
      crash := None;
      match n.event {
        case ExceptionOccurred(message, columnNumber, source) =>
          crash := ExceptionOccurred(message, columnNumber, source, n.lineNumber);
        case SourceDirective(source) =>
          crash := SourceDirective(source, n.line, n.lineNumber);
        case ClassDirective(id, flags, name) =>
          ClassDirective(id, flags, name);
        case SuperDirective(superName) =>
          crash := SuperDirective(superName, n.line, n.lineNumber);
        case ImplementsDirective(name) =>
          ImplementsDirective(name);
        case FieldDirective(flags, name, descriptor) =>
          FieldDirective(flags, name, descriptor);
        case MethodDirective(flags, name, descriptor) =>
          MethodDirective(flags, name, descriptor);
        case CodeDirective =>
          crash := CodeDirective(n.line, n.lineNumber);
        case CodeLabel(labelName) =>
          crash := CodeLabel(labelName, n.line, n.lineNumber);
        case CodeInstruction(opcode, operands) =>
          crash := CodeInstruction(opcode, operands, n.line, n.lineNumber);
        case EndCodeDirective =>
          crash := EndCodeDirective(n.line, n.lineNumber);
        case TableDirective =>
          TableDirective();
        case TableLine(caseLabel, target) =>
          crash := TableLine(caseLabel, target);
        case EndTableDirective =>
          crash := EndTableDirective();
        case EndOfInput =>
          EndOfInput();
      }
    }

    /** The callbacks of a parse, in order, until one throws. */
    method ReceiveAll(ns: seq<Parser.Notice>) returns (crash: Option<Crash>)
      modifies this
      ensures match Replay(old(Value()), ns) { case Ok(b) => crash.None? && Value() == b case Err(x) => crash == Some(x) }
    {
      var i := 0;
      while i < |ns|
        invariant 0 <= i <= |ns|
        invariant Replay(Value(), ns[i..]) == Replay(old(Value()), ns)
      {
        assert ns[i..][1..] == ns[i + 1..];
        crash := Receive(ns[i]);
        if crash.Some? {
          return;
        }
        i := i + 1;
      }
      assert ns[i..] == [];
      return None;
    }
  }
}
