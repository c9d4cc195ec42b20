/**
 * The older listener. Its records hold plain strings where the newer one
 * holds views; the older parser hands it views, which it sees as their text.
 * It knows no tables, and its `.end code` picks the last method without
 * looking whether there is one.
 */
module LegacyListener {
  import opened Base
  import opened Chars
  import opened StringViews
  import opened ErrorMessages
  import Parser

  datatype FieldDefinition = FieldDefinition(flags: seq<string>, fieldName: string, fieldDescriptor: string)

  datatype MethodDefinition = MethodDefinition(flags: seq<string>, methodName: string, descriptor: string)

  datatype Instruction = Instruction(labels: seq<string>, opcode: string, operands: seq<string>, text: Option<string>, line: int)

  datatype MethodCode = MethodCode(instructions: seq<Instruction>)

  /** What a class commit records; a field that was null is None. */
  datatype ClassSpec = ClassSpec(
    classId: Option<string>, className: Option<string>, superclassName: Option<string>,
    superinterfaceNames: seq<string>, classFlags: Option<seq<string>>,
    fields: seq<FieldDefinition>, methods: seq<MethodDefinition>,
    methodCodes: map<MethodDefinition, MethodCode>)

  /** The listener's fields: global, per class and per method. */
  datatype Builder = Builder(
    sourceName: Option<string>, errors: seq<ErrorMessage>, classSpecs: seq<ClassSpec>,
    classId: Option<string>, className: Option<string>, superclassName: Option<string>,
    classFlags: Option<seq<string>>, superinterfaceNames: seq<string>,
    fields: seq<FieldDefinition>, methods: seq<MethodDefinition>,
    methodCodes: map<MethodDefinition, MethodCode>,
    instructions: Option<seq<Instruction>>, instructionLabels: seq<string>)

  /** A freshly constructed listener. */
  const Initial: Builder := Builder(None, [], [], None, None, None, None, [], [], [], map[], None, [])

  /** The fields commitClassSpec leaves alone. */
  predicate GlobalsKept(after: Builder, before: Builder)
  {
    after.sourceName == before.sourceName && after.errors == before.errors
    && after.instructions == before.instructions && after.instructionLabels == before.instructionLabels
  }

  /** The per-class fields as they are once a class has been committed. */
  predicate ClassReset(b: Builder)
  {
    b.classId == None && b.className == None && b.superclassName == None
    && b.superinterfaceNames == [] && b.classFlags == Some([])
    && b.fields == [] && b.methods == [] && b.methodCodes == map[]
  }

  /** The class being declared, as a commit would record it. */
  function Pending(b: Builder): ClassSpec
  {
    ClassSpec(b.classId, b.className, b.superclassName, b.superinterfaceNames, b.classFlags, b.fields, b.methods, b.methodCodes)
  }

  /** commitClassSpec: one spec appended, the per-class fields reset, nothing else touched. */
  function Commit(b: Builder): (r: Builder)
    ensures r.classSpecs == b.classSpecs + [Pending(b)]
    ensures GlobalsKept(r, b) && ClassReset(r)
  {
    b.(classSpecs := b.classSpecs + [Pending(b)],
       classId := None, className := None, superclassName := None,
       superinterfaceNames := [], classFlags := Some([]),
       fields := [], methods := [], methodCodes := map[])
  }

  /** errors.add(new ErrorMessage(...)), which throws before adding when the arguments are refused. */
  function Report(b: Builder, e: Result<ErrorMessage, Crash>): (r: Result<Builder, Crash>)
    ensures r.Ok? <==> e.Ok?
    ensures r.Ok? ==> r.value == b.(errors := b.errors + [e.value])
  {
    match e
    case Ok(m) => Ok(b.(errors := b.errors + [m]))
    case Err(x) => Err(x)
  }

  /** A "Duplicate ..." or misplacement diagnostic: the parser's current line and number, no column. */
  function Unplaced(b: Builder, message: string, line: Option<string>, lineNumber: int): Result<Builder, Crash>
  {
    Report(b, ErrorMessages.Make(message, line, lineNumber, UNSPECIFIC))
  }

  // ---------------------------------------------------------------- the callbacks

  /** exceptionOccurred: the exception's 0-based column becomes the message's 1-based one. */
  function OnException(b: Builder, message: string, columnNumber: int, source: string, lineNumber: int): (r: Result<Builder, Crash>)
    ensures r.Ok? <==> ErrorMessages.Make(message, Some(source), lineNumber, columnNumber + 1).Ok?
    ensures r.Ok? ==> r.value == b.(errors := b.errors + [ErrorMessage(message, Some(source), lineNumber, columnNumber + 1)])
  {
    Report(b, ErrorMessages.Make(message, Some(source), lineNumber, columnNumber + 1))
  }

  function OnSource(b: Builder, source: string, line: Option<string>, lineNumber: int): Result<Builder, Crash>
  {
    if b.sourceName.Some? then Unplaced(b, "Duplicate .source directive", line, lineNumber)
    else Ok(b.(sourceName := Some(source)))
  }

  function OnClass(b: Builder, classId: string, flags: seq<string>, className: string): Builder
  {
    var c := if b.className.Some? then Commit(b) else b;
    c.(classId := Some(classId), classFlags := Some(flags), className := Some(className))
  }

  function OnSuper(b: Builder, superName: string, line: Option<string>, lineNumber: int): Result<Builder, Crash>
  {
    if b.superclassName.Some? then Unplaced(b, "Duplicate .super directive", line, lineNumber)
    else Ok(b.(superclassName := Some(superName)))
  }

  function OnCode(b: Builder, line: Option<string>, lineNumber: int): Result<Builder, Crash>
  {
    if b.instructions.Some? then Unplaced(b, "Duplicate .code directive", line, lineNumber)
    else Ok(b.(instructions := Some([])))
  }

  /** codeLabel: a duplicate only among the labels still waiting for their instruction, compared as text. */
  function OnLabel(b: Builder, labelName: string, line: Option<string>, lineNumber: int): Result<Builder, Crash>
  {
    if labelName in b.instructionLabels then Unplaced(b, "Duplicate label definition", line, lineNumber)
    else Ok(b.(instructionLabels := b.instructionLabels + [labelName]))
  }

  /** codeInstruction: the waiting labels go with the instruction; with no code buffer open it throws. */
  function OnInstruction(b: Builder, opcode: string, operands: seq<string>, line: Option<string>, lineNumber: int): Result<Builder, Crash>
  {
    if b.instructions.None? then Err(NullPointer)
    else Ok(b.(instructions := Some(b.instructions.value + [Instruction(b.instructionLabels, opcode, operands, line, lineNumber)]),
               instructionLabels := []))
  }

  /** endCodeDirective: the buffer is stored under the last method; methods.getLast() throws when there is none. */
  function OnEndCode(b: Builder, line: Option<string>, lineNumber: int): Result<Builder, Crash>
  {
    if b.instructions.None? then Unplaced(b, ".end code directive not expected here", line, lineNumber)
    else if b.methods == [] then Err(NoSuchElement)
    else Ok(b.(methodCodes := b.methodCodes[b.methods[|b.methods| - 1] := MethodCode(b.instructions.value)], instructions := None))
  }

  /**
   * The callback a notice stands for. The older listener interface has no
   * table callbacks (and the older parser reports no tables): a table notice
   * is answered by nothing.
   */
  function OnNotice(b: Builder, n: Parser.Notice): Result<Builder, Crash>
  {
    match n.event
    case ExceptionOccurred(message, columnNumber, source) => OnException(b, message, columnNumber, source, n.lineNumber)
    case SourceDirective(source) => OnSource(b, source.Text(), n.line, n.lineNumber)
    case ClassDirective(classId, flags, className) => Ok(OnClass(b, classId.Text(), Texts(flags), className.Text()))
    case SuperDirective(superName) => OnSuper(b, superName.Text(), n.line, n.lineNumber)
    case ImplementsDirective(name) => Ok(b.(superinterfaceNames := b.superinterfaceNames + [name.Text()]))
    case FieldDirective(flags, name, descriptor) =>
      Ok(b.(fields := b.fields + [FieldDefinition(Texts(flags), name.Text(), descriptor.Text())]))
    case MethodDirective(flags, name, descriptor) =>
      Ok(b.(methods := b.methods + [MethodDefinition(Texts(flags), name.Text(), descriptor.Text())]))
    case CodeDirective => OnCode(b, n.line, n.lineNumber)
    case CodeLabel(labelName) => OnLabel(b, labelName.Text(), n.line, n.lineNumber)
    case CodeInstruction(opcode, operands) => OnInstruction(b, opcode.Text(), Texts(operands), n.line, n.lineNumber)
    case EndCodeDirective => OnEndCode(b, n.line, n.lineNumber)
    case TableDirective => Ok(b)
    case TableLine(_, _) => Ok(b)
    case EndTableDirective => Ok(b)
    case EndOfInput => Ok(Commit(b))
  }

  /** The callbacks in order; an exception out of one ends the parse, and with it the replay. */
  function Replay(b: Builder, ns: seq<Parser.Notice>): Result<Builder, Crash>
    decreases |ns|
  {
    if ns == [] then Ok(b)
    else
      match OnNotice(b, ns[0])
      case Err(x) => Err(x)
      case Ok(c) => Replay(c, ns[1..])
  }

  // ---------------------------------------------------------------- the listener object

  /** What a callback method did against its specification: the new fields, or the exception and no change. */
  predicate Answered(before: Builder, after: Builder, crash: Option<Crash>, r: Result<Builder, Crash>)
  {
    (r.Ok? ==> crash.None? && after == r.value) && (r.Err? ==> crash == Some(r.error) && after == before)
  }

  class DefaultJasmParserListener {
    var sourceName: Option<string>
    var errors: seq<ErrorMessage>
    var classSpecs: seq<ClassSpec>
    var classId: Option<string>
    var className: Option<string>
    var superclassName: Option<string>
    var classFlags: Option<seq<string>>
    var superinterfaceNames: seq<string>
    var fields: seq<FieldDefinition>
    var methods: seq<MethodDefinition>
    var methodCodes: map<MethodDefinition, MethodCode>
    var instructions: Option<seq<Instruction>>
    var instructionLabels: seq<string>

    function Value(): Builder
      reads this
    {
      Builder(sourceName, errors, classSpecs, classId, className, superclassName, classFlags, superinterfaceNames,
              fields, methods, methodCodes, instructions, instructionLabels)
    }

    constructor()
      ensures Value() == Initial
    {
      sourceName := None;
      errors := [];
      classSpecs := [];
      classId := None;
      className := None;
      superclassName := None;
      classFlags := None;
      superinterfaceNames := [];
      fields := [];
      methods := [];
      methodCodes := map[];
      instructions := None;
      instructionLabels := [];
    }

    /** errors.add(new ErrorMessage(...)) */
    method AddError(message: string, line: Option<string>, lineNumber: int, columnNumber: int) returns (crash: Option<Crash>)
      modifies this
      ensures Answered(old(Value()), Value(), crash, Report(old(Value()), ErrorMessages.Make(message, line, lineNumber, columnNumber)))
    {
      var e := ErrorMessages.Make(message, line, lineNumber, columnNumber);
      if e.Err? {
        return Some(e.error);
      }
      errors := errors + [e.value];
      return None;
    }

    method ExceptionOccurred(message: string, columnNumber: int, source: string, lineNumber: int) returns (crash: Option<Crash>)
      modifies this
      ensures Answered(old(Value()), Value(), crash, OnException(old(Value()), message, columnNumber, source, lineNumber))
    {
      crash := AddError(message, Some(source), lineNumber, columnNumber + 1);
    }

    method SourceDirective(source: string, line: Option<string>, lineNumber: int) returns (crash: Option<Crash>)
      modifies this
      ensures Answered(old(Value()), Value(), crash, OnSource(old(Value()), source, line, lineNumber))
    {
      if sourceName.Some? {
        crash := AddError("Duplicate .source directive", line, lineNumber, UNSPECIFIC);
      } else {
        sourceName := Some(source);
        crash := None;
      }
    }

    method CommitClassSpec()
      modifies this
      ensures Value() == Commit(old(Value()))
    {
      classSpecs := classSpecs + [ClassSpec(classId, className, superclassName, superinterfaceNames, classFlags, fields, methods, methodCodes)];
      ResetClass();
    }

    /** The per-class part of commitClassSpec. */
    method ResetClass()
      modifies this
      ensures classId == None && className == None && superclassName == None
      ensures superinterfaceNames == [] && classFlags == Some([])
      ensures fields == [] && methods == [] && methodCodes == map[]
      ensures sourceName == old(sourceName) && errors == old(errors) && classSpecs == old(classSpecs)
      ensures instructions == old(instructions) && instructionLabels == old(instructionLabels)
    {
      classId := None;
      className := None;
      superclassName := None;
      superinterfaceNames := [];
      classFlags := Some([]);
      fields := [];
      methods := [];
      methodCodes := map[];
    }

    method ClassDirective(classId: string, flags: seq<string>, className: string)
      modifies this
      ensures Value() == OnClass(old(Value()), classId, flags, className)
    {
      if this.className.Some? {
        CommitClassSpec();
      }
      this.classId := Some(classId);
      this.classFlags := Some(flags);
      this.className := Some(className);
    }

    method SuperDirective(superName: string, line: Option<string>, lineNumber: int) returns (crash: Option<Crash>)
      modifies this
      ensures Answered(old(Value()), Value(), crash, OnSuper(old(Value()), superName, line, lineNumber))
    {
      if superclassName.Some? {
        crash := AddError("Duplicate .super directive", line, lineNumber, UNSPECIFIC);
      } else {
        superclassName := Some(superName);
        crash := None;
      }
    }

    method ImplementsDirective(interfaceName: string)
      modifies this
      ensures Value() == old(Value()).(superinterfaceNames := old(superinterfaceNames) + [interfaceName])
    {
      superinterfaceNames := superinterfaceNames + [interfaceName];
    }

    method FieldDirective(flags: seq<string>, name: string, descriptor: string)
      modifies this
      ensures Value() == old(Value()).(fields := old(fields) + [FieldDefinition(flags, name, descriptor)])
    {
      fields := fields + [FieldDefinition(flags, name, descriptor)];
    }

    method MethodDirective(flags: seq<string>, name: string, descriptor: string)
      modifies this
      ensures Value() == old(Value()).(methods := old(methods) + [MethodDefinition(flags, name, descriptor)])
    {
      methods := methods + [MethodDefinition(flags, name, descriptor)];
    }

    method CodeDirective(line: Option<string>, lineNumber: int) returns (crash: Option<Crash>)
      modifies this
      ensures Answered(old(Value()), Value(), crash, OnCode(old(Value()), line, lineNumber))
    {
      if instructions.Some? {
        crash := AddError("Duplicate .code directive", line, lineNumber, UNSPECIFIC);
      } else {
        instructions := Some([]);
        crash := None;
      }
    }

    method CodeLabel(labelName: string, line: Option<string>, lineNumber: int) returns (crash: Option<Crash>)
      modifies this
      ensures Answered(old(Value()), Value(), crash, OnLabel(old(Value()), labelName, line, lineNumber))
    {
      if labelName in instructionLabels {
        crash := AddError("Duplicate label definition", line, lineNumber, UNSPECIFIC);
      } else {
        instructionLabels := instructionLabels + [labelName];
        crash := None;
      }
    }

    method CodeInstruction(opcode: string, operands: seq<string>, line: Option<string>, lineNumber: int) returns (crash: Option<Crash>)
      modifies this
      ensures Answered(old(Value()), Value(), crash, OnInstruction(old(Value()), opcode, operands, line, lineNumber))
    {
      if instructions.None? {
        return Some(NullPointer);
      }
      instructions := Some(instructions.value + [Instruction(instructionLabels, opcode, operands, line, lineNumber)]);
      instructionLabels := [];
      return None;
    }

    method EndCodeDirective(line: Option<string>, lineNumber: int) returns (crash: Option<Crash>)
      modifies this
      ensures Answered(old(Value()), Value(), crash, OnEndCode(old(Value()), line, lineNumber))
    {
      if instructions.None? {
        crash := AddError(".end code directive not expected here", line, lineNumber, UNSPECIFIC);
      } else if methods == [] {
        crash := Some(NoSuchElement);
      } else {
        methodCodes := methodCodes[methods[|methods| - 1] := MethodCode(instructions.value)];
        instructions := None;
        crash := None;
      }
    }

    /** endOfFile: the class being declared is committed, named or not. */
    method EndOfFile()
      modifies this
      ensures Value() == Commit(old(Value()))
    {
      CommitClassSpec();
    }

    /** The parser calling the callback that the notice stands for. */
    method Receive(n: Parser.Notice) returns (crash: Option<Crash>)
      modifies this
      ensures Answered(old(Value()), Value(), crash, OnNotice(old(Value()), n))
    {
      crash := None;
      match n.event {
        case ExceptionOccurred(message, columnNumber, source) =>
          crash := ExceptionOccurred(message, columnNumber, source, n.lineNumber);
        case SourceDirective(source) =>
          crash := SourceDirective(source.Text(), n.line, n.lineNumber);
        case ClassDirective(id, flags, name) =>
          ClassDirective(id.Text(), Texts(flags), name.Text());
        case SuperDirective(superName) =>
          crash := SuperDirective(superName.Text(), n.line, n.lineNumber);
        case ImplementsDirective(name) =>
          ImplementsDirective(name.Text());
        case FieldDirective(flags, name, descriptor) =>
          FieldDirective(Texts(flags), name.Text(), descriptor.Text());
        case MethodDirective(flags, name, descriptor) =>
          MethodDirective(Texts(flags), name.Text(), descriptor.Text());
        case CodeDirective =>
          crash := CodeDirective(n.line, n.lineNumber);
        case CodeLabel(labelName) =>
          crash := CodeLabel(labelName.Text(), n.line, n.lineNumber);
        case CodeInstruction(opcode, operands) =>
          crash := CodeInstruction(opcode.Text(), Texts(operands), n.line, n.lineNumber);
        case EndCodeDirective =>
          crash := EndCodeDirective(n.line, n.lineNumber);
        case TableDirective =>
        case TableLine(_, _) =>
        case EndTableDirective =>
        case EndOfInput =>
          EndOfFile();
      }
    }

    /** The callbacks of a parse, in order, until one throws. */
    method ReceiveAll(ns: seq<Parser.Notice>) returns (crash: Option<Crash>)
      modifies this
      ensures match Replay(old(Value()), ns) { case Ok(b) => crash.None? && Value() == b case Err(x) => crash == Some(x) }
    {
      var i := 0;
      while i < |ns|
        invariant 0 <= i <= |ns|
        invariant Replay(Value(), ns[i..]) == Replay(old(Value()), ns)
      {
        assert ns[i..][1..] == ns[i + 1..];
        crash := Receive(ns[i]);
        if crash.Some? {
          return;
        }
        i := i + 1;
      }
      assert ns[i..] == [];
      return None;
    }
  }
}
