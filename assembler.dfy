/**
 * The assembler: the parse phase, the sort of its diagnostics, and the build
 * phase that turns each committed class into the calls it makes on the
 * class-file encoder. The encoder is a recording sink: a class image holds
 * what the class, field and method builders were handed, and a method's code
 * is the log of its code buffer.
 */
module Assembler {
  import opened Base
  import opened Chars
  import opened StringViews
  import opened ErrorMessages
  import opened Operands
  import opened Instructions
  import Flags
  import Parser
  import Listener
  import opened ParserViews
  import opened ListenerViews

  datatype Status = Success | Failure

  /** What withField was handed. */
  datatype FieldImage = FieldImage(name: string, descriptor: string, flags: int)

  /** What withMethod was handed, with the code its builder emitted when the method has a code block. */
  datatype MethodImage = MethodImage(name: string, descriptor: string, flags: int, code: Option<seq<Emitted>>)

  /** What the class builder was handed, in the order buildClass hands it. */
  datatype ClassImage = ClassImage(
    name: string, sourceFile: Option<string>, superclass: string, flags: int,
    interfaces: seq<string>, fields: seq<FieldImage>, methods: seq<MethodImage>)

  /** An assembled class: its name and what the encoder was given for it. */
  datatype Bytecode = Bytecode(className: string, image: ClassImage)

  /**
   * What the assembler is configured with besides its input: the opcode
   * table, Float/Double.parseFloat acceptance, and the message text of the
   * runtime's own exceptions, which the model leaves abstract.
   */
  datatype Context = Context(opcodes: OpcodeSet, floating: string -> bool, describe: Crash -> string)

  /** ex.getMessage(): the text the exception was thrown with, or the runtime's own. */
  function Message(c: Crash, describe: Crash -> string): string
  {
    match c
    case IllegalArgument(m) => m
    case IllegalState(m) => m
    case _ => describe(c)
  }

  lemma NotBlankAfterPrefix(prefix: string, rest: string)
    requires |prefix| > 0 && IsAsciiLetter(prefix[0])
    ensures !IsBlankText(prefix + rest)
  {
    assert (prefix + rest)[0] == prefix[0];
    assert !IsWhitespace(prefix[0]);
  }

  /** catchError: the prefix and the exception's message as an unplaced error, which the constructor always accepts. */
  function Caught(prefix: string, c: Crash, describe: Crash -> string): (e: ErrorMessage)
    requires |prefix| > 0 && IsAsciiLetter(prefix[0])
    ensures MakeUnplaced(prefix + Message(c, describe)) == Ok(e)
  {
    NotBlankAfterPrefix(prefix, Message(c, describe));
    ErrorMessage(prefix + Message(c, describe), None, UNSPECIFIC, UNSPECIFIC)
  }

  // ---------------------------------------------------------------- sorting the diagnostics

  /** The comparator: by line number, then by column number. */
  predicate NotAfter(a: ErrorMessage, b: ErrorMessage)
  {
    a.lineNumber < b.lineNumber || (a.lineNumber == b.lineNumber && a.columnNumber <= b.columnNumber)
  }

  /** One message placed after every message that does not sort after it. */
  function Insert(e: ErrorMessage, s: seq<ErrorMessage>): (r: seq<ErrorMessage>)
    ensures |r| == |s| + 1
    decreases |s|
  {
    if s == [] || NotAfter(s[|s| - 1], e) then s + [e]
    else Insert(e, s[..|s| - 1]) + [s[|s| - 1]]
  }

  /** errorMessages.sort(comparator): List.sort is stable, and so is insertion from the back. */
  function SortByPosition(s: seq<ErrorMessage>): (r: seq<ErrorMessage>)
    ensures |r| == |s|
    decreases |s|
  {
    if s == [] then [] else Insert(s[|s| - 1], SortByPosition(s[..|s| - 1]))
  }

  // ---------------------------------------------------------------- buildMethodCode

  /** The method's label map, what its code builder has been given, and the assembler's diagnostics. */
  datatype Progress = Progress(labels: Labels, emitted: seq<Emitted>, errors: seq<ErrorMessage>)

  /** A fresh label map and code builder. */
  function Start(errors: seq<ErrorMessage>): Progress
  {
    Progress(Labels(map[], 0), [], errors)
  }

  /** One iteration: the progress after it, where the iterator stands, and the exception that ends the loop, if any. */
  datatype Run = Run(progress: Progress, next: nat, crash: Option<Crash>)

  /** errorMessages.add(new ErrorMessage(...)): a refused message throws and nothing is added. */
  function Add(p: Progress, e: Result<ErrorMessage, Crash>, next: nat): (r: Run)
    ensures r.next == next
    ensures e.Ok? ==> r == Run(p.(errors := p.errors + [e.value]), next, None)
    ensures e.Err? ==> r == Run(p, next, Some(e.error))
  {
    match e
    case Ok(m) => Run(p.(errors := p.errors + [m]), next, None)
    case Err(x) => Run(p, next, Some(x))
  }

  /** The opcode is one of the two that take a table. */
  predicate IsSwitch(item: Listener.CodeItem)
  {
    item.Instruction? && (item.opcode.Text() == "lookupswitch" || item.opcode.Text() == "tableswitch")
  }

  /** "Expected .table after opcode X", at the instruction's line with no column. */
  function ExpectedTable(item: Listener.CodeItem): Result<ErrorMessage, Crash>
    requires item.Instruction?
  {
    ErrorMessages.Make("Expected .table after opcode " + item.opcode.Text(), item.text, item.line, UNSPECIFIC)
  }

  /** An AssemblyException as a diagnostic: the instruction's text and line, and the target's 1-based column. */
  function Diagnosed(err: AsmError, item: Listener.CodeItem): Result<ErrorMessage, Crash>
    requires item.Instruction?
  {
    ErrorMessages.Make(err.message, item.text, item.line, if err.target.Some? then err.target.value.start + 1 else UNSPECIFIC)
  }

  /** What a call into Instructions leaves: the instruction emitted, the exception reported, or the runtime exception thrown on. */
  function Entered(p: Progress, r: Outcome<Emitted>, l: Labels, item: Listener.CodeItem, next: nat): (q: Run)
    requires item.Instruction?
    ensures q.next == next
    ensures r.Done? ==> q == Run(p.(labels := l, emitted := p.emitted + [r.value]), next, None)
    ensures r.Crash? ==> q == Run(p, next, Some(r.crash))
    ensures r.Fail? ==> q == Add(p.(labels := l), Diagnosed(r.error, item), next)
  {
    match r
    case Done(x) => Run(p.(labels := l, emitted := p.emitted + [x]), next, None)
    case Fail(err) => Add(p.(labels := l), Diagnosed(err, item), next)
    case Crash(x) => Run(p, next, Some(x))
  }

  /** instr.labels().forEach: each label's name looked up, or given a fresh label, and bound, in order. */
  function BindAll(l: Labels, names: seq<View>): (r: (Labels, seq<Emitted>))
    ensures Extends(r.0, l) && (l.Valid() ==> r.0.Valid()) && |r.1| == |names|
    decreases |names|
  {
    if names == [] then (l, [])
    else
      var (l1, out) := BindAll(l, names[..|names| - 1]);
      var (l2, lab) := Resolve(l1, names[|names| - 1].Text());
      ExtendsTransitive(l, l1, l2);
      (l2, out + [Bind(lab)])
  }

  /**
   * One pass of the iterator loop from the item at i. A switch instruction
   * takes the table right after it; with none there it is reported and the
   * next item is left for the next pass. Its labels are not bound. Any
   * other instruction binds its labels, then is entered. A table on its own
   * is reported.
   */
  function Step(ctx: Context, items: seq<Listener.CodeItem>, i: nat, p: Progress): (r: Run)
    requires i < |items| && ItemsSound(items)
    ensures i < r.next <= |items|
  {
    var item := items[i];
    if item.Table? then Add(p, ErrorMessages.Make("Table not expected", None, UNSPECIFIC, UNSPECIFIC), i + 1)
    else if IsSwitch(item) then
      if i + 1 == |items| || items[i + 1].Instruction? then Add(p, ExpectedTable(item), i + 1)
      else
        assert ItemSound(items[i + 1]);
        var (r, l) := EnterTableSpec(p.labels, ctx.opcodes, item.opcode, item.operands, items[i + 1].entries, ctx.floating);
        Entered(p, r, l, item, i + 2)
    else
      var (l, binds) := BindAll(p.labels, item.labels);
      var (r, l2) := EnterSpec(l, ctx.opcodes, item.opcode, item.operands, ctx.floating);
      Entered(p.(emitted := p.emitted + binds), r, l2, item, i + 1)
  }

  /** The loop from the item at i to the end, or to the exception that ends it with the progress made so far. */
  function CodeFrom(ctx: Context, items: seq<Listener.CodeItem>, i: nat, p: Progress): (r: (Progress, Option<Crash>))
    requires i <= |items| && ItemsSound(items)
    decreases |items| - i, 1
  {
    if i == |items| then (p, None) else CodeAt(ctx, items, i, p)
  }

  /** One pass from the item at i, then the loop from where the iterator stands. */
  function CodeAt(ctx: Context, items: seq<Listener.CodeItem>, i: nat, p: Progress): (r: (Progress, Option<Crash>))
    requires i < |items| && ItemsSound(items)
    decreases |items| - i, 0
  {
    var s := Step(ctx, items, i, p);
    if s.crash.Some? then (s.progress, s.crash) else CodeFrom(ctx, items, s.next, s.progress)
  }

  // ---------------------------------------------------------------- buildClass

  /** flags(words.map(toString)) on a list that may be null. */
  function FlagsOfViews(flags: Option<seq<View>>): Result<int, Crash>
  {
    if flags.None? then Err(NullPointer) else Flags.FlagsOf(Texts(flags.value))
  }

  /** The 32-bit pattern of an int. */
  function Bits(x: int): bv32
  {
    (x % 0x1_0000_0000) as bv32
  }

  /** flags |= bit on a 32-bit int. */
  function Or32(x: int, bit: bv32): (r: int)
    requires IsInt32(x)
    ensures IsInt32(r)
  {
    var n := (Bits(x) | bit) as int;
    if n >= 0x8000_0000 then n - 0x1_0000_0000 else n
  }

  /** The class id picks the extra flag: ACC_INTERFACE for interface, ACC_ENUM for enum, none for class. */
  function KindFlags(classId: string, flags: int): (r: int)
    requires IsInt32(flags)
    ensures IsInt32(r)
  {
    if classId == "interface" then Or32(flags, Flags.ACC_INTERFACE as bv32)
    else if classId == "enum" then Or32(flags, Flags.ACC_ENUM as bv32)
    else flags
  }

  /** One field: an unknown flag is reported with "Invalid .field: " and the field left out. */
  function FieldStep(ctx: Context, f: Listener.FieldDefinition, images: seq<FieldImage>, errors: seq<ErrorMessage>)
    : (r: (seq<FieldImage>, seq<ErrorMessage>))
  {
    match Flags.FlagsOf(Texts(f.flags))
    case Err(c) => (images, errors + [Caught("Invalid .field: ", c, ctx.describe)])
    case Ok(flags) => (images + [FieldImage(f.fieldName.Text(), f.fieldDescriptor.Text(), flags)], errors)
  }

  /** The fields from position i. */
  function FieldsFrom(ctx: Context, fs: seq<Listener.FieldDefinition>, i: nat, images: seq<FieldImage>, errors: seq<ErrorMessage>)
    : (r: (seq<FieldImage>, seq<ErrorMessage>))
    requires i <= |fs|
    decreases |fs| - i
  {
    if i == |fs| then (images, errors)
    else
      var (images', errors') := FieldStep(ctx, fs[i], images, errors);
      FieldsFrom(ctx, fs, i + 1, images', errors')
  }

  /** A method with a code block: the block built from a fresh label map and code builder. */
  function WithCode(ctx: Context, m: Listener.MethodDefinition, flags: int, code: Listener.MethodCode,
                    images: seq<MethodImage>, errors: seq<ErrorMessage>): (r: (seq<MethodImage>, seq<ErrorMessage>))
    requires ItemsSound(code.codeItems)
  {
    var (p, c) := CodeFrom(ctx, code.codeItems, 0, Start(errors));
    if c.Some? then (images, p.errors + [Caught("Invalid .method: ", c.value, ctx.describe)])
    else (images + [MethodImage(m.methodName.Text(), m.descriptor.Text(), flags, Some(p.emitted))], p.errors)
  }

  /**
   * One method: its flags, then its code if the map has a block for it. An
   * exception out of either is reported with "Invalid .method: " and the
   * method left out; what buildMethodCode reported before it stays.
   */
  function MethodStep(ctx: Context, m: Listener.MethodDefinition, codes: map<Listener.MethodDefinition, Listener.MethodCode>,
                      images: seq<MethodImage>, errors: seq<ErrorMessage>): (r: (seq<MethodImage>, seq<ErrorMessage>))
    requires CodesSound(codes)
  {
    match Flags.FlagsOf(Texts(m.flags))
    case Err(c) => (images, errors + [Caught("Invalid .method: ", c, ctx.describe)])
    case Ok(flags) =>
      if m !in codes then (images + [MethodImage(m.methodName.Text(), m.descriptor.Text(), flags, None)], errors)
      else WithCode(ctx, m, flags, codes[m], images, errors)
  }

  function MethodsFrom(ctx: Context, ms: seq<Listener.MethodDefinition>, codes: map<Listener.MethodDefinition, Listener.MethodCode>,
                       i: nat, images: seq<MethodImage>, errors: seq<ErrorMessage>): (r: (seq<MethodImage>, seq<ErrorMessage>))
    requires i <= |ms| && CodesSound(codes)
    decreases |ms| - i
  {
    if i == |ms| then (images, errors)
    else
      var (images', errors') := MethodStep(ctx, ms[i], codes, images, errors);
      MethodsFrom(ctx, ms, codes, i + 1, images', errors')
  }

  /** How buildClass ends: the class built, aborted because some error is on record, or an exception thrown out. */
  datatype ClassOutcome = Assembled(image: ClassImage) | Aborted | Threw(crash: Crash)

  /**
   * buildClass: the flags (an unknown one throws), the source file, the
   * superclass (java/lang/Object by default), the interfaces, the fields and
   * the methods; then an abort if the assembler has any error on record.
   */
  function BuildClassSpec(ctx: Context, sourceName: Option<View>, spec: Listener.ClassSpec, errors: seq<ErrorMessage>)
    : (r: (seq<ErrorMessage>, ClassOutcome))
    requires spec.className.Some? && CodesSound(spec.methodCodes)
  {
    match FlagsOfViews(spec.classFlags)
    case Err(c) => (errors, Threw(c))
    case Ok(declared) =>
      if spec.classId.None? then (errors, Threw(NullPointer))
      else
        var flags := KindFlags(spec.classId.value.Text(), declared);
        var source := if sourceName.Some? then Some(sourceName.value.Text()) else None;
        var superclass := if spec.superclassName.None? then "java/lang/Object" else spec.superclassName.value.Text();
        var (fields, e1) := FieldsFrom(ctx, spec.fields, 0, [], errors);
        var (methods, e2) := MethodsFrom(ctx, spec.methods, spec.methodCodes, 0, [], e1);
        var image := ClassImage(spec.className.value.Text(), source, superclass, flags, Texts(spec.superinterfaceNames), fields, methods);
        if e2 != [] then (e2, Aborted) else (e2, Assembled(image))
  }

  // ---------------------------------------------------------------- assemble

  /** The build loop's locals: the diagnostics, the bytecodes so far, and whether every class so far succeeded. */
  datatype Tally = Tally(errors: seq<ErrorMessage>, bytecodes: seq<Bytecode>, success: bool)

  const MissingClass: string := "Missing .class/.interface/.enum directive"

  /** The class has no name, or a blank one. */
  predicate Nameless(spec: Listener.ClassSpec)
  {
    spec.className.None? || IsBlankText(spec.className.value.Text())
  }

  /** The names of the bytecodes, in order. */
  function Names(bs: seq<Bytecode>): (r: seq<string>)
    ensures |r| == |bs| && forall k :: 0 <= k < |bs| ==> r[k] == bs[k].className
  {
    if bs == [] then [] else Names(bs[..|bs| - 1]) + [bs[|bs| - 1].className]
  }

  /** Every class spec from position i has a name that is not blank. */
  predicate AllNamed(specs: seq<Listener.ClassSpec>, i: nat)
    requires i <= |specs|
    decreases |specs| - i
  {
    i == |specs| || (!Nameless(specs[i]) && AllNamed(specs, i + 1))
  }

  /** The names of the class specs from position i, the empty string standing for a missing one. */
  function SpecNames(specs: seq<Listener.ClassSpec>, i: nat): (r: seq<string>)
    requires i <= |specs| && SpecsSound(specs)
    ensures |r| == |specs| - i
    decreases |specs| - i
  {
    if i == |specs| then []
    else
      assert SpecSound(specs[i]);
      [if specs[i].className.Some? then specs[i].className.value.Text() else ""] + SpecNames(specs, i + 1)
  }

  /**
   * One named class: built, then its bytecode kept; an abort fails the
   * assembly; an exception thrown out of buildClass is reported with its
   * message, unless that message is blank, when the ErrorMessage
   * constructor's exception ends assemble().
   */
  function ClassStep(ctx: Context, sourceName: Option<View>, spec: Listener.ClassSpec, t: Tally): (r: (Tally, Option<Crash>))
    requires spec.className.Some? && SpecSound(spec)
    ensures t.bytecodes <= r.0.bytecodes && |r.0.bytecodes| <= |t.bytecodes| + 1
    ensures r.0.success <==> t.success && |r.0.bytecodes| == |t.bytecodes| + 1
    ensures |r.0.bytecodes| == |t.bytecodes| + 1 ==> Names(r.0.bytecodes) == Names(t.bytecodes) + [spec.className.value.Text()]
    ensures r.1.Some? ==> !r.0.success
  {
    var (errors, outcome) := BuildClassSpec(ctx, sourceName, spec, t.errors);
    match outcome
    case Assembled(image) =>
      var bs := t.bytecodes + [Bytecode(spec.className.value.Text(), image)];
      assert bs[..|bs| - 1] == t.bytecodes;
      (Tally(errors, bs, t.success), None)
    case Aborted => (Tally(errors, t.bytecodes, false), None)
    case Threw(c) =>
      match MakeUnplaced(Message(c, ctx.describe))
      case Err(x) => (Tally(errors, t.bytecodes, false), Some(x))
      case Ok(m) => (Tally(errors + [m], t.bytecodes, false), None)
  }

  /**
   * The class specs from position i. A class with no name, or a blank one,
   * is reported and ends the loop with the assembly failed. The loop
   * succeeds exactly when every class from i yields a bytecode, and the
   * bytecodes it adds carry the classes' names in order.
   */
  function ClassesFrom(ctx: Context, sourceName: Option<View>, specs: seq<Listener.ClassSpec>, i: nat, t: Tally)
    : (r: (Tally, Option<Crash>))
    requires i <= |specs| && SpecsSound(specs)
    ensures t.bytecodes <= r.0.bytecodes && |r.0.bytecodes| <= |t.bytecodes| + |specs| - i
    ensures r.0.success <==> t.success && |r.0.bytecodes| == |t.bytecodes| + |specs| - i
    ensures r.0.success ==> AllNamed(specs, i) && Names(r.0.bytecodes) == Names(t.bytecodes) + SpecNames(specs, i)
    decreases |specs| - i, 1
  {
    if i == |specs| then (t, None)
    else if Nameless(specs[i]) then
      (t.(errors := t.errors + [ErrorMessage(MissingClass, None, UNSPECIFIC, UNSPECIFIC)], success := false), None)
    else ClassAt(ctx, sourceName, specs, i, t)
  }

  /** The named class at i, then the loop from i + 1 unless an exception ended it. */
  function ClassAt(ctx: Context, sourceName: Option<View>, specs: seq<Listener.ClassSpec>, i: nat, t: Tally)
    : (r: (Tally, Option<Crash>))
    requires i < |specs| && SpecsSound(specs) && !Nameless(specs[i])
    ensures t.bytecodes <= r.0.bytecodes && |r.0.bytecodes| <= |t.bytecodes| + |specs| - i
    ensures r.0.success <==> t.success && |r.0.bytecodes| == |t.bytecodes| + |specs| - i
    ensures r.0.success ==> AllNamed(specs, i) && Names(r.0.bytecodes) == Names(t.bytecodes) + SpecNames(specs, i)
    decreases |specs| - i, 0
  {
    assert SpecSound(specs[i]);
    var (t', c) := ClassStep(ctx, sourceName, specs[i], t);
    if c.Some? then (t', c)
    else
      var r := ClassesFrom(ctx, sourceName, specs, i + 1, t');
      PrefixTransitive(t.bytecodes, t'.bytecodes, r.0.bytecodes);
      AppendAssociative(Names(t.bytecodes), [specs[i].className.value.Text()], SpecNames(specs, i + 1));
      r
  }

  lemma PrefixTransitive<T>(a: seq<T>, b: seq<T>, c: seq<T>)
    requires a <= b && b <= c
    ensures a <= c
  {
  }

  lemma AppendAssociative<T>(a: seq<T>, b: seq<T>, c: seq<T>)
    ensures (a + b) + c == a + (b + c)
  {
  }

  /** A fresh parser, run over the lines with a fresh listener: the listener's fields, or the exception out of parse(). */
  function ParsePhase(lines: seq<string>, alphabetic: char -> bool): (r: Result<Listener.Builder, Crash>)
    ensures r.Ok? ==> BuilderSound(r.value)
  {
    var (q, c) := Parser.ParseSpec(Parser.Snapshot(Parser.Global, false, 0, None, []), lines, alphabetic);
    match Listener.Replay(Listener.Initial, q.fired)
    case Err(x) => Err(x)
    case Ok(b) =>
      if c.Some? then Err(c.value)
      else
        ParsedSound(lines, alphabetic);
        Ok(b)
  }

  /** The assembler's fields other than its input. */
  datatype AssemblerState = AssemblerState(errorMessages: seq<ErrorMessage>, assembledBytecodes: Option<seq<Bytecode>>, haveAssembled: bool)

  /**
   * assemble() once the parse is done: the sort of the diagnostics (any of
   * which fails the assembly at once), then the build loop; the bytecodes
   * are kept only on success.
   */
  function AfterParse(s: AssemblerState, b: Listener.Builder, ctx: Context): (r: (AssemblerState, Result<Status, Crash>))
    requires BuilderSound(b)
    ensures r.0.haveAssembled == s.haveAssembled
  {
    var errors := SortByPosition(s.errorMessages + b.errors);
    if errors != [] then (s.(errorMessages := errors), Ok(Failure))
    else
      var (t, c) := ClassesFrom(ctx, b.sourceName, b.classSpecs, 0, Tally(errors, [], true));
      var s2 := s.(errorMessages := t.errors);
      if c.Some? then (s2, Err(c.value))
      else if t.success then (s2.(assembledBytecodes := Some(t.bytecodes)), Ok(Success))
      else (s2, Ok(Failure))
  }

  /** assemble(): refused after the first call; otherwise the parse, or the exception out of it, then the rest. */
  function AssembleSpec(s: AssemblerState, lines: seq<string>, alphabetic: char -> bool, ctx: Context)
    : (r: (AssemblerState, Result<Status, Crash>))
    ensures r.0.haveAssembled
  {
    if s.haveAssembled then (s, Err(IllegalState("assemble() has already been called")))
    else
      var s1 := s.(haveAssembled := true);
      match ParsePhase(lines, alphabetic)
      case Err(x) => (s1, Err(x))
      case Ok(b) => AfterParse(s1, b, ctx)
  }

  /** getAssembledBytecodes() */
  function BytecodesOf(s: AssemblerState): (r: Result<seq<Bytecode>, Crash>)
  {
    if !s.haveAssembled then Err(IllegalArgument("getAssembledBytecodes() called before assemble()"))
    else if s.assembledBytecodes.None? then Err(IllegalState("getAssembledBytecodes() called after assembly failed"))
    else Ok(s.assembledBytecodes.value)
  }

  /** getErrorMessages() */
  function ErrorsOf(s: AssemblerState): (r: Result<seq<ErrorMessage>, Crash>)
  {
    if !s.haveAssembled then Err(IllegalArgument("getErrorMessages() called before assemble()"))
    else Ok(s.errorMessages)
  }

  // ---------------------------------------------------------------- the assembler object

  /** Binding one more name is resolving it after the others. */
  lemma BindAllSnoc(l: Labels, names: seq<View>, i: nat)
    requires i < |names|
    ensures var (l1, out) := BindAll(l, names[..i]);
      BindAll(l, names[..i + 1]) == (Resolve(l1, names[i].Text()).0, out + [Bind(Resolve(l1, names[i].Text()).1)])
  {
    assert names[..i + 1][..i] == names[..i];
  }

  /** instr.labels().forEach(l -> cb.labelBinding(labels.computeIfAbsent(l.toString(), ...))) */
  method BindLabels(buffer: CodeBuffer, names: seq<View>)
    requires buffer.Valid()
    modifies buffer
    ensures buffer.Valid()
    ensures buffer.State() == BindAll(old(buffer.State()), names).0
    ensures buffer.emitted == old(buffer.emitted) + BindAll(old(buffer.State()), names).1
  {
    ghost var l0 := buffer.State();
    ghost var e0 := buffer.emitted;
    var i := 0;
    while i < |names|
      invariant 0 <= i <= |names| && buffer.Valid()
      invariant buffer.State() == BindAll(l0, names[..i]).0
      invariant buffer.emitted == e0 + BindAll(l0, names[..i]).1
    {
      BindAllSnoc(l0, names, i);
      ghost var before := BindAll(l0, names[..i]);
      buffer.BindLabel(names[i].Text());
      AppendAssociative(e0, before.1, [Bind(Resolve(before.0, names[i].Text()).1)]);
      i := i + 1;
    }
    assert names[..i] == names;
  }

  class JasmAssembler {
    var errorMessages: seq<ErrorMessage>
    var assembledBytecodes: Option<seq<Bytecode>>
    var haveAssembled: bool
    /** The input, as the lines the reader yields. */
    const lines: seq<string>
    /** Character.isAlphabetic, which the parser's code-line check uses. */
    const alphabetic: char -> bool
    const ctx: Context

    function Value(): AssemblerState
      reads this
    {
      AssemblerState(errorMessages, assembledBytecodes, haveAssembled)
    }

    /** reading(input): nothing assembled yet, no errors, no bytecodes. */
    constructor(lines: seq<string>, alphabetic: char -> bool, ctx: Context)
      ensures Value() == AssemblerState([], None, false)
      ensures this.lines == lines && this.alphabetic == alphabetic && this.ctx == ctx
    {
      errorMessages := [];
      assembledBytecodes := None;
      haveAssembled := false;
      this.lines := lines;
      this.alphabetic := alphabetic;
      this.ctx := ctx;
    }

    /** errorMessages.add(new ErrorMessage(...)) */
    method AddError(e: Result<ErrorMessage, Crash>) returns (crash: Option<Crash>)
      modifies this
      ensures e.Ok? ==> crash.None? && errorMessages == old(errorMessages) + [e.value]
      ensures e.Err? ==> crash == Some(e.error) && errorMessages == old(errorMessages)
      ensures assembledBytecodes == old(assembledBytecodes) && haveAssembled == old(haveAssembled)
    {
      if e.Err? {
        return Some(e.error);
      }
      errorMessages := errorMessages + [e.value];
      return None;
    }

    /** The catch (AssemblyException) around a call into Instructions. */
    method Handle(item: Listener.CodeItem, r: Outcome<Emitted>) returns (crash: Option<Crash>)
      requires item.Instruction?
      modifies this
      ensures r.Done? ==> crash.None? && errorMessages == old(errorMessages)
      ensures r.Crash? ==> crash == Some(r.crash) && errorMessages == old(errorMessages)
      ensures r.Fail? ==> var d := Diagnosed(r.error, item);
        (d.Ok? ==> crash.None? && errorMessages == old(errorMessages) + [d.value])
        && (d.Err? ==> crash == Some(d.error) && errorMessages == old(errorMessages))
      ensures assembledBytecodes == old(assembledBytecodes) && haveAssembled == old(haveAssembled)
    {
      match r {
        case Done(_) =>
          crash := None;
        case Fail(err) =>
          crash := AddError(Diagnosed(err, item));
        case Crash(x) =>
          crash := Some(x);
      }
    }

    /** One pass of buildMethodCode's iterator loop, from the item at i; next is where the iterator stands after it. */
    method StepItem(buffer: CodeBuffer, items: seq<Listener.CodeItem>, i: nat) returns (next: nat, crash: Option<Crash>)
      requires i < |items| && ItemsSound(items) && buffer.Valid()
      modifies this, buffer
      ensures buffer.Valid()
      ensures var s := Step(ctx, items, i, Progress(old(buffer.State()), old(buffer.emitted), old(errorMessages)));
        next == s.next && crash == s.crash && errorMessages == s.progress.errors
        && (crash.None? ==> buffer.State() == s.progress.labels && buffer.emitted == s.progress.emitted)
      ensures assembledBytecodes == old(assembledBytecodes) && haveAssembled == old(haveAssembled)
    {
      var item := items[i];
      if item.Table? {
        crash := AddError(ErrorMessages.Make("Table not expected", None, UNSPECIFIC, UNSPECIFIC));
        return i + 1, crash;
      }
      var opcode := item.opcode.ToString();
      if opcode.value == "lookupswitch" || opcode.value == "tableswitch" {
        if i + 1 == |items| {
          crash := AddError(ExpectedTable(item));
          return i + 1, crash;
        }
        var following := items[i + 1];
        if following.Instruction? {
          // it.previous(): the item is visited again by the next pass
          crash := AddError(ExpectedTable(item));
          return i + 1, crash;
        }
        assert ItemSound(following);
        var r := buffer.EnterTableInstruction(ctx.opcodes, item.opcode, item.operands, following.entries, ctx.floating);
        crash := Handle(item, r);
        return i + 2, crash;
      }
      BindLabels(buffer, item.labels);
      var r := buffer.Enter(ctx.opcodes, item.opcode, item.operands, ctx.floating);
      crash := Handle(item, r);
      return i + 1, crash;
    }

    /** buildMethodCode: a fresh label map and code builder, and the iterator loop over the items. */
    method BuildMethodCode(code: Listener.MethodCode) returns (emitted: seq<Emitted>, crash: Option<Crash>)
      requires ItemsSound(code.codeItems)
      modifies this
      ensures var (p, c) := CodeFrom(ctx, code.codeItems, 0, Start(old(errorMessages)));
        crash == c && errorMessages == p.errors && (c.None? ==> emitted == p.emitted)
      ensures assembledBytecodes == old(assembledBytecodes) && haveAssembled == old(haveAssembled)
    {
      var items := code.codeItems;
      var buffer := new CodeBuffer();
      var i := 0;
      while i < |items|
        invariant 0 <= i <= |items| && buffer.Valid()
        invariant CodeFrom(ctx, items, i, Progress(buffer.State(), buffer.emitted, errorMessages))
          == CodeFrom(ctx, items, 0, Start(old(errorMessages)))
        invariant assembledBytecodes == old(assembledBytecodes) && haveAssembled == old(haveAssembled)
        decreases |items| - i
      {
        var next, c := StepItem(buffer, items, i);
        if c.Some? {
          return buffer.emitted, c;
        }
        i := next;
      }
      return buffer.emitted, None;
    }

    /** One withField inside catchError. */
    method BuildField(f: Listener.FieldDefinition, images: seq<FieldImage>) returns (images': seq<FieldImage>)
      modifies this
      ensures (images', errorMessages) == FieldStep(ctx, f, images, old(errorMessages))
      ensures assembledBytecodes == old(assembledBytecodes) && haveAssembled == old(haveAssembled)
    {
      var flags := Flags.FlagsOf(Texts(f.flags));
      if flags.Err? {
        errorMessages := errorMessages + [Caught("Invalid .field: ", flags.error, ctx.describe)];
        return images;
      }
      return images + [FieldImage(f.fieldName.Text(), f.fieldDescriptor.Text(), flags.value)];
    }

    /** The loop over spec.fields() in buildClass. */
    method BuildFields(fs: seq<Listener.FieldDefinition>) returns (images: seq<FieldImage>)
      modifies this
      ensures (images, errorMessages) == FieldsFrom(ctx, fs, 0, [], old(errorMessages))
      ensures assembledBytecodes == old(assembledBytecodes) && haveAssembled == old(haveAssembled)
    {
      images := [];
      var i := 0;
      while i < |fs|
        invariant 0 <= i <= |fs|
        invariant FieldsFrom(ctx, fs, i, images, errorMessages) == FieldsFrom(ctx, fs, 0, [], old(errorMessages))
        invariant assembledBytecodes == old(assembledBytecodes) && haveAssembled == old(haveAssembled)
      {
        images := BuildField(fs[i], images);
        i := i + 1;
      }
    }

    /** One withMethod inside catchError, with buildMethod's code block when the map has one. */
    method BuildMethod(m: Listener.MethodDefinition, codes: map<Listener.MethodDefinition, Listener.MethodCode>,
                       images: seq<MethodImage>) returns (images': seq<MethodImage>)
      requires CodesSound(codes)
      modifies this
      ensures (images', errorMessages) == MethodStep(ctx, m, codes, images, old(errorMessages))
      ensures assembledBytecodes == old(assembledBytecodes) && haveAssembled == old(haveAssembled)
    {
      var flags := Flags.FlagsOf(Texts(m.flags));
      if flags.Err? {
        errorMessages := errorMessages + [Caught("Invalid .method: ", flags.error, ctx.describe)];
        return images;
      }
      if m !in codes {
        return images + [MethodImage(m.methodName.Text(), m.descriptor.Text(), flags.value, None)];
      }
      var emitted, crash := BuildMethodCode(codes[m]);
      if crash.Some? {
        errorMessages := errorMessages + [Caught("Invalid .method: ", crash.value, ctx.describe)];
        return images;
      }
      return images + [MethodImage(m.methodName.Text(), m.descriptor.Text(), flags.value, Some(emitted))];
    }

    /** The loop over spec.methods() in buildClass. */
    method BuildMethods(ms: seq<Listener.MethodDefinition>, codes: map<Listener.MethodDefinition, Listener.MethodCode>)
      returns (images: seq<MethodImage>)
      requires CodesSound(codes)
      modifies this
      ensures (images, errorMessages) == MethodsFrom(ctx, ms, codes, 0, [], old(errorMessages))
      ensures assembledBytecodes == old(assembledBytecodes) && haveAssembled == old(haveAssembled)
    {
      images := [];
      var i := 0;
      while i < |ms|
        invariant 0 <= i <= |ms|
        invariant MethodsFrom(ctx, ms, codes, i, images, errorMessages) == MethodsFrom(ctx, ms, codes, 0, [], old(errorMessages))
        invariant assembledBytecodes == old(assembledBytecodes) && haveAssembled == old(haveAssembled)
      {
        images := BuildMethod(ms[i], codes, images);
        i := i + 1;
      }
    }

    /** buildClass: the class builder's calls, then the abort check. */
    method BuildClass(sourceName: Option<View>, spec: Listener.ClassSpec) returns (outcome: ClassOutcome)
      requires spec.className.Some? && CodesSound(spec.methodCodes)
      modifies this
      ensures (errorMessages, outcome) == BuildClassSpec(ctx, sourceName, spec, old(errorMessages))
      ensures assembledBytecodes == old(assembledBytecodes) && haveAssembled == old(haveAssembled)
    {
      var declared := FlagsOfViews(spec.classFlags);
      if declared.Err? {
        return Threw(declared.error);
      }
      if spec.classId.None? {
        return Threw(NullPointer);
      }
      var flags := KindFlags(spec.classId.value.Text(), declared.value);
      var source := if sourceName.Some? then Some(sourceName.value.Text()) else None;
      var superclass := if spec.superclassName.None? then "java/lang/Object" else spec.superclassName.value.Text();
      var interfaces := Texts(spec.superinterfaceNames);
      var fields := BuildFields(spec.fields);
      var methods := BuildMethods(spec.methods, spec.methodCodes);
      if errorMessages != [] {
        return Aborted;
      }
      return Assembled(ClassImage(spec.className.value.Text(), source, superclass, flags, interfaces, fields, methods));
    }

    /** One pass of assemble()'s loop for a class with a name: buildClass, inside its try. */
    method AssembleClass(source: Option<View>, spec: Listener.ClassSpec, t: Tally) returns (t': Tally, crash: Option<Crash>)
      requires spec.className.Some? && SpecSound(spec) && errorMessages == t.errors
      modifies this
      ensures (t', crash) == ClassStep(ctx, source, spec, t) && errorMessages == t'.errors
      ensures assembledBytecodes == old(assembledBytecodes) && haveAssembled == old(haveAssembled)
    {
      var outcome := BuildClass(source, spec);
      match outcome {
        case Assembled(image) =>
          return Tally(errorMessages, t.bytecodes + [Bytecode(spec.className.value.Text(), image)], t.success), None;
        case Aborted =>
          return Tally(errorMessages, t.bytecodes, false), None;
        case Threw(c) =>
          var m := MakeUnplaced(Message(c, ctx.describe));
          if m.Err? {
            return Tally(errorMessages, t.bytecodes, false), Some(m.error);
          }
          errorMessages := errorMessages + [m.value];
          return Tally(errorMessages, t.bytecodes, false), None;
      }
    }

    /** The loop over the listener's class specs in assemble(). */
    method BuildClasses(source: Option<View>, specs: seq<Listener.ClassSpec>) returns (t: Tally, crash: Option<Crash>)
      requires SpecsSound(specs)
      modifies this
      ensures (t, crash) == ClassesFrom(ctx, source, specs, 0, Tally(old(errorMessages), [], true))
      ensures errorMessages == t.errors
      ensures assembledBytecodes == old(assembledBytecodes) && haveAssembled == old(haveAssembled)
    {
      t := Tally(errorMessages, [], true);
      var i := 0;
      while i < |specs|
        invariant 0 <= i <= |specs| && errorMessages == t.errors
        invariant ClassesFrom(ctx, source, specs, i, t) == ClassesFrom(ctx, source, specs, 0, Tally(old(errorMessages), [], true))
        invariant assembledBytecodes == old(assembledBytecodes) && haveAssembled == old(haveAssembled)
      {
        var spec := specs[i];
        assert SpecSound(spec);
        var blank := false;
        if spec.className.Some? {
          blank := spec.className.value.IsBlank();
        }
        if spec.className.None? || blank {
          errorMessages := errorMessages + [ErrorMessage(MissingClass, None, UNSPECIFIC, UNSPECIFIC)];
          // break, with the assembly failed
          return t.(errors := errorMessages, success := false), None;
        }
        t, crash := AssembleClass(source, spec, t);
        if crash.Some? {
          return t, crash;
        }
        i := i + 1;
      }
      return t, None;
    }

    /** assemble(): may be called once; the parse phase, then the build phase. */
    method Assemble() returns (r: Result<Status, Crash>)
      modifies this
      ensures (Value(), r) == AssembleSpec(old(Value()), lines, alphabetic, ctx)
    {
      if haveAssembled {
        return Err(IllegalState("assemble() has already been called"));
      }
      haveAssembled := true;
      var listener := new Listener.DefaultJasmParserListener();
      var parser := new Parser.JasmParser(alphabetic);
      var parseCrash := parser.Parse(lines);
      var listenerCrash := listener.ReceiveAll(parser.fired);
      if listenerCrash.Some? {
        return Err(listenerCrash.value);
      }
      if parseCrash.Some? {
        return Err(parseCrash.value);
      }
      assert ParsePhase(lines, alphabetic) == Ok(listener.Value());
      r := Conclude(listener.Value());
    }

    /** The rest of assemble() once the listener holds the parse: sort the diagnostics, then build. */
    method Conclude(b: Listener.Builder) returns (r: Result<Status, Crash>)
      requires BuilderSound(b)
      modifies this
      ensures (Value(), r) == AfterParse(old(Value()), b, ctx)
    {
      errorMessages := SortByPosition(errorMessages + b.errors);
      if errorMessages != [] {
        return Ok(Failure);
      }
      var t, crash := BuildClasses(b.sourceName, b.classSpecs);
      if crash.Some? {
        return Err(crash.value);
      }
      if t.success {
        assembledBytecodes := Some(t.bytecodes);
        return Ok(Success);
      }
      return Ok(Failure);
    }

    /** getAssembledBytecodes() */
    method GetAssembledBytecodes() returns (r: Result<seq<Bytecode>, Crash>)
      ensures r == BytecodesOf(Value())
    {
      if !haveAssembled {
        return Err(IllegalArgument("getAssembledBytecodes() called before assemble()"));
      } else if assembledBytecodes.None? {
        return Err(IllegalState("getAssembledBytecodes() called after assembly failed"));
      }
      return Ok(assembledBytecodes.value);
    }

    /** getErrorMessages() */
    method GetErrorMessages() returns (r: Result<seq<ErrorMessage>, Crash>)
      ensures r == ErrorsOf(Value())
    {
      if !haveAssembled {
        return Err(IllegalArgument("getErrorMessages() called before assemble()"));
      }
      return Ok(errorMessages);
    }
  }
}
