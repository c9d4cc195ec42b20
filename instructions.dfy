/**
 * Instruction validation and label resolution: the opcode lookup, the arity
 * check, the ldc/ldc2 shape tests, left-to-right operand parsing, the
 * per-method map from label names to labels, and the translation of switch
 * tables. The code builder is an abstract sink: a log of what was emitted
 * and a counter that hands out fresh labels.
 */
module Instructions {
  import opened Base
  import opened Chars
  import opened StringViews
  import opened Operands

  /** A label of the code builder, numbered in the order newLabel hands them out. */
  type Label = nat

  /** The arm of enter's switch an opcode falls in. */
  datatype Form =
    | NamedCall                          // emitted by name, without operands
    | SlotOperand(kind: string)          // aload, astore, ... : the slot is operand 0
    | FixedSlot(kind: string, slot: nat) // aload_0 .. lstore_3
    | FieldAccess                        // getfield, getstatic, putfield, putstatic
    | Invoke                             // invokeinterface, invokespecial, invokestatic, invokevirtual
    | Jump                               // goto_ and the if* family
    | ANewArray | BiPush | IInc | InstanceOf | MultiANewArray | New | NewArray | SiPush
    | Unhandled                          // the default arm

  /**
   * An Opcode constant: getName() as written in source, the constant's own
   * name (used in messages and as the builder method), its switch arm and
   * getOperandTypes().
   */
  datatype Opcode = Opcode(name: string, ident: string, form: Form, operandTypes: seq<OperandType>)

  /** Opcode.values() and the two switch constants enterTableInstruction names. */
  datatype OpcodeSet = OpcodeSet(values: seq<Opcode>, lookupswitch: Opcode, tableswitch: Opcode)

  datatype Constant =
    | IntConstant(value: int)
    | FloatConstant(float: FloatLiteral)
    | StringConstant(text: string)
    | LongConstant(value: int)
    | DoubleConstant(double: DoubleLiteral)

  datatype SwitchCase = SwitchCase(value: int, target: Label)

  /** One call into the code builder. */
  datatype Emitted =
    | Bind(target: Label)
    | Simple(opcode: string)
    | LocalVariable(kind: string, slot: int)
    | Member(opcode: string, owner: string, name: string, descriptor: string)
    | Branch(opcode: string, target: Label)
    | NewReferenceArray(descriptor: string)
    | PushByte(value: int)
    | Increment(slot: int, delta: int)
    | TypeTest(className: string)
    | NewMultiArray(descriptor: string, dimensions: int)
    | NewObject(className: string)
    | NewPrimitiveArray(element: ArrayElement)
    | PushShort(value: int)
    | LookupSwitch(defaultTarget: Label, cases: seq<SwitchCase>)
    | TableSwitch(low: int, high: int, defaultTarget: Label, cases: seq<SwitchCase>)
    | LoadConstant(constant: Constant)

  /** A row of a switch table: the case value's view and the target's view. */
  datatype Entry = Entry(caseLabel: View, target: View)

  predicate AllValid(vs: seq<View>)
  {
    forall i :: 0 <= i < |vs| ==> vs[i].Valid()
  }

  predicate EntriesValid(es: seq<Entry>)
  {
    forall i :: 0 <= i < |es| ==> es[i].caseLabel.Valid() && es[i].target.Valid()
  }

  // ---------------------------------------------------------------- the opcode map

  /** OPCODES: every value under its name, later values replacing earlier ones, ldc and ldc2 left out. */
  function OpcodeMap(values: seq<Opcode>): (m: map<string, Opcode>)
    ensures "ldc" !in m && "ldc2" !in m
    ensures forall k :: k in m ==> m[k].name == k && m[k] in values
    ensures forall i :: 0 <= i < |values| && values[i].name != "ldc" && values[i].name != "ldc2" ==> values[i].name in m
  {
    if values == [] then map[]
    else
      var m := OpcodeMap(values[..|values| - 1]);
      var o := values[|values| - 1];
      if o.name == "ldc" || o.name == "ldc2" then m else m[o.name := o]
  }

  // ---------------------------------------------------------------- operands

  /** The words of the arity message. */
  function CountWords(n: nat): string
  {
    if n == 1 then "one operand"
    else if n == 2 then "two operands"
    else if n == 3 then "three operands"
    else IntToString(n) + " operands"
  }

  /** parseOperands: each operand parsed as its type, left to right, the first failure ending it. */
  function ParseAll(vs: seq<View>, ts: seq<OperandType>, floating: string -> bool): (r: Outcome<seq<Operand>>)
    requires |vs| == |ts| && AllValid(vs)
    ensures r.Done? ==> |r.value| == |ts| && forall i :: 0 <= i < |ts| ==> TypeOf(r.value[i]) == ts[i]
    decreases |vs|
  {
    if vs == [] then Done([])
    else
      var first := ParseOperand(vs[0], ts[0], floating);
      if !first.Done? then first.Forward()
      else Prefixed([first.value], ParseAll(vs[1..], ts[1..], floating))
  }

  /** parseOperands as the source's loop over the operand array. */
  method ParseOperands(vs: seq<View>, ts: seq<OperandType>, floating: string -> bool) returns (r: Outcome<seq<Operand>>)
    requires |vs| == |ts| && AllValid(vs)
    ensures r == ParseAll(vs, ts, floating)
  {
    var ops: seq<Operand> := [];
    var i := 0;
    PrefixedEmpty(ParseAll(vs, ts, floating));
    assert vs[0..] == vs && ts[0..] == ts;
    while i < |ts|
      invariant 0 <= i <= |ts|
      invariant Prefixed(ops, ParseAll(vs[i..], ts[i..], floating)) == ParseAll(vs, ts, floating)
    {
      var op := ParseOperand(vs[i], ts[i], floating);
      assert vs[i..][1..] == vs[i + 1..] && ts[i..][1..] == ts[i + 1..];
      if !op.Done? {
        return op.Forward();
      }
      PrefixedTwice(ops, [op.value], ParseAll(vs[i + 1..], ts[i + 1..], floating));
      ops := ops + [op.value];
      i := i + 1;
    }
    assert ops + [] == ops;
    return Done(ops);
  }

  /** checkAndParseOperands: the arity check, then the operands parsed as the opcode's types. */
  function CheckedOperands(opcode: View, opc: Opcode, operands: seq<View>, floating: string -> bool): (r: Outcome<seq<Operand>>)
    requires AllValid(operands)
  {
    var n := |opc.operandTypes|;
    if n == 0 && |operands| > 0 then Error("Opcode " + opc.ident + " takes no operands", operands[0])
    else if |operands| != n then Error("Opcode " + opc.ident + " takes " + CountWords(n), opcode)
    else ParseAll(operands, opc.operandTypes, floating)
  }

  method CheckAndParseOperands(opcode: View, opc: Opcode, operands: seq<View>, floating: string -> bool)
    returns (r: Outcome<seq<Operand>>)
    requires AllValid(operands)
    ensures r == CheckedOperands(opcode, opc, operands, floating)
  {
    var n := |opc.operandTypes|;
    if n == 0 && |operands| > 0 {
      return Error("Opcode " + opc.ident + " takes no operands", operands[0]);
    } else if |operands| != n {
      return Error("Opcode " + opc.ident + " takes " + CountWords(n), opcode);
    }
    r := ParseOperands(operands, opc.operandTypes, floating);
  }

  /** The arity rules: what is refused, with which message and where, and what a success holds. */
  lemma ArityRules(opcode: View, opc: Opcode, operands: seq<View>, floating: string -> bool)
    requires AllValid(operands)
    ensures var r := CheckedOperands(opcode, opc, operands, floating);
      && (|opc.operandTypes| == 0 && |operands| > 0 ==>
            r == Error("Opcode " + opc.ident + " takes no operands", operands[0]))
      && (|opc.operandTypes| > 0 && |operands| != |opc.operandTypes| ==>
            r == Error("Opcode " + opc.ident + " takes " + CountWords(|opc.operandTypes|), opcode))
      && (|opc.operandTypes| == 1 && |operands| != 1 ==> r.Fail? && r.error.message == "Opcode " + opc.ident + " takes one operand")
      && (r.Done? ==> |operands| == |opc.operandTypes| && |r.value| == |operands|
                      && forall i :: 0 <= i < |operands| ==> TypeOf(r.value[i]) == opc.operandTypes[i])
  {
  }

  /** The first operand that fails to parse decides the outcome; those before it parsed. */
  lemma {:induction false} FirstFailureWins(vs: seq<View>, ts: seq<OperandType>, floating: string -> bool, k: nat)
    requires |vs| == |ts| && AllValid(vs) && k < |vs|
    requires forall i :: 0 <= i < k ==> ParseOperand(vs[i], ts[i], floating).Done?
    requires !ParseOperand(vs[k], ts[k], floating).Done?
    ensures ParseAll(vs, ts, floating) == ParseOperand(vs[k], ts[k], floating).Forward<seq<Operand>>()
    decreases k
  {
    if k > 0 {
      DoneAfterFirst(vs, ts, floating, k);
      FirstFailureWins(vs[1..], ts[1..], floating, k - 1);
      ParseAllCons(vs, ts, floating);
    }
  }

  /** A first operand that parses is prepended to the rest's outcome. */
  lemma ParseAllCons(vs: seq<View>, ts: seq<OperandType>, floating: string -> bool)
    requires |vs| == |ts| && AllValid(vs) && vs != []
    requires ParseOperand(vs[0], ts[0], floating).Done?
    ensures AllValid(vs[1..])
    ensures ParseAll(vs, ts, floating) == Prefixed([ParseOperand(vs[0], ts[0], floating).value], ParseAll(vs[1..], ts[1..], floating))
  {
    assert AllValid(vs[1..]);
  }

  /** Dropping the first operand keeps the parsed ones before k parsed. */
  lemma DoneAfterFirst(vs: seq<View>, ts: seq<OperandType>, floating: string -> bool, k: nat)
    requires |vs| == |ts| && AllValid(vs) && 0 < k < |vs|
    requires forall i :: 0 <= i < k ==> ParseOperand(vs[i], ts[i], floating).Done?
    requires !ParseOperand(vs[k], ts[k], floating).Done?
    ensures AllValid(vs[1..])
    ensures forall i :: 0 <= i < k - 1 ==> ParseOperand(vs[1..][i], ts[1..][i], floating).Done?
    ensures !ParseOperand(vs[1..][k - 1], ts[1..][k - 1], floating).Done?
  {
    assert AllValid(vs[1..]);
    forall i | 0 <= i < k - 1
      ensures ParseOperand(vs[1..][i], ts[1..][i], floating).Done?
    {
      assert vs[1..][i] == vs[i + 1] && ts[1..][i] == ts[i + 1];
    }
    assert vs[1..][k - 1] == vs[k] && ts[1..][k - 1] == ts[k];
  }

  // ---------------------------------------------------------------- operand projections

  /** _int(ops[i]): the cast to an int operand. */
  function IntAt(ops: seq<Operand>, i: nat): Outcome<int>
  {
    if i >= |ops| then Crash(IndexOutOfBounds)
    else if ops[i].Int? then Done(ops[i].value) else Crash(ClassCast)
  }

  /** _classDesc(ops[i]): the cast to a class-name operand. */
  function ClassNameAt(ops: seq<Operand>, i: nat): Outcome<string>
  {
    if i >= |ops| then Crash(IndexOutOfBounds)
    else if ops[i].ClassName? then Done(ops[i].name) else Crash(ClassCast)
  }

  /** _id(ops[i]) */
  function IdentifierAt(ops: seq<Operand>, i: nat): Outcome<string>
  {
    if i >= |ops| then Crash(IndexOutOfBounds)
    else if ops[i].Identifier? then Done(ops[i].identifier) else Crash(ClassCast)
  }

  /** _typeDesc(ops[i]) */
  function DescriptorAt(ops: seq<Operand>, i: nat): Outcome<string>
  {
    if i >= |ops| then Crash(IndexOutOfBounds)
    else if ops[i].Descriptor? then Done(ops[i].descriptor) else Crash(ClassCast)
  }

  /** _methodDesc(ops[i]) */
  function MethodDescriptorAt(ops: seq<Operand>, i: nat): Outcome<string>
  {
    if i >= |ops| then Crash(IndexOutOfBounds)
    else if ops[i].MethodDescriptor? then Done(ops[i].methodDescriptor) else Crash(ClassCast)
  }

  /** _typeKind(ops[i]) */
  function ArrayTypeAt(ops: seq<Operand>, i: nat): Outcome<ArrayElement>
  {
    if i >= |ops| then Crash(IndexOutOfBounds)
    else if ops[i].ArrayType? then Done(ops[i].element) else Crash(ClassCast)
  }

  /** ((Operand.BranchTarget) ops[i]).text() */
  function BranchTargetAt(ops: seq<Operand>, i: nat): Outcome<string>
  {
    if i >= |ops| then Crash(IndexOutOfBounds)
    else if ops[i].BranchTarget? then Done(ops[i].target) else Crash(ClassCast)
  }

  /** ClassDesc.isPrimitive for an accepted field descriptor: a single base-type letter. */
  predicate IsPrimitiveDescriptor(d: string) { |d| == 1 }

  /** ClassDesc.isArray: the descriptor starts with '['. */
  predicate IsArrayDescriptor(d: string) { |d| > 0 && d[0] == '[' }

  // ---------------------------------------------------------------- enter, without labels

  /**
   * CodeBuilder has a no-argument method of the constant's name for every
   * opcode of the reflective arm except checkcast, whose builder method takes
   * the class to cast to.
   */
  predicate HasNoArgBuilder(ident: string)
  {
    ident != "checkcast"
  }

  /**
   * What each non-branch arm of enter's switch emits, read off the parsed
   * operands: the slot, value, owner, name or descriptor of the instruction is
   * the parsed operand the arm casts, at the position it casts it from.
   */
  predicate Emits(opc: Opcode, ops: seq<Operand>, e: Emitted)
  {
    match opc.form
    case NamedCall => HasNoArgBuilder(opc.ident) && e == Simple(opc.ident)
    case SlotOperand(kind) => |ops| > 0 && ops[0].Int? && e == LocalVariable(kind, ops[0].value)
    case FixedSlot(kind, slot) => e == LocalVariable(kind, slot)
    case FieldAccess =>
      |ops| > 2 && ops[0].ClassName? && ops[1].Identifier? && ops[2].Descriptor?
      && e == Member(opc.ident, ops[0].name, ops[1].identifier, ops[2].descriptor)
    case Invoke =>
      |ops| > 2 && ops[0].ClassName? && ops[1].Identifier? && ops[2].MethodDescriptor?
      && e == Member(opc.ident, ops[0].name, ops[1].identifier, ops[2].methodDescriptor)
    case Jump => false // a branch needs the label map: see BranchTargetIsNamed
    case ANewArray =>
      |ops| > 0 && ops[0].Descriptor? && !IsPrimitiveDescriptor(ops[0].descriptor)
      && e == NewReferenceArray(ops[0].descriptor)
    case MultiANewArray =>
      |ops| > 1 && ops[0].Descriptor? && IsArrayDescriptor(ops[0].descriptor) && ops[1].Int?
      && e == NewMultiArray(ops[0].descriptor, ops[1].value)
    case NewArray => |ops| > 0 && ops[0].ArrayType? && e == NewPrimitiveArray(ops[0].element)
    case BiPush => |ops| > 0 && ops[0].Int? && e == PushByte(ops[0].value)
    case SiPush => |ops| > 0 && ops[0].Int? && e == PushShort(ops[0].value)
    case IInc => |ops| > 1 && ops[0].Int? && ops[1].Int? && e == Increment(ops[0].value, ops[1].value)
    case InstanceOf => |ops| > 0 && ops[0].ClassName? && e == TypeTest(ops[0].name)
    case New => |ops| > 0 && ops[0].ClassName? && e == NewObject(ops[0].name)
    case Unhandled => false
  }

  /** A member access or call: owner, name and descriptor from operands 0, 1 and 2. */
  function MemberEmission(opc: Opcode, ops: seq<Operand>): (r: Outcome<Emitted>)
    requires opc.form.FieldAccess? || opc.form.Invoke?
    ensures r.Done? ==> r.value.Member?
    ensures r.Done? ==> Emits(opc, ops, r.value)
    ensures r.Done? <==> |ops| > 2 && ops[0].ClassName? && ops[1].Identifier?
                         && (if opc.form.FieldAccess? then ops[2].Descriptor? else ops[2].MethodDescriptor?)
    ensures !r.Done? ==> r.Crash?
  {
    var owner := ClassNameAt(ops, 0);
    if !owner.Done? then owner.Forward()
    else
      var name := IdentifierAt(ops, 1);
      if !name.Done? then name.Forward()
      else
        var desc := if opc.form.FieldAccess? then DescriptorAt(ops, 2) else MethodDescriptorAt(ops, 2);
        if !desc.Done? then desc.Forward()
        else Done(Member(opc.ident, owner.value, name.value, desc.value))
  }

  /** The array-creating arms; a bad descriptor is reported at the first operand. */
  function ArrayEmission(opc: Opcode, operands: seq<View>, ops: seq<Operand>): (r: Outcome<Emitted>)
    requires opc.form.ANewArray? || opc.form.MultiANewArray? || opc.form.NewArray?
    ensures r.Done? ==> r.value.NewReferenceArray? || r.value.NewMultiArray? || r.value.NewPrimitiveArray?
    ensures r.Done? ==> Emits(opc, ops, r.value)
    ensures r.Fail? ==> |operands| > 0 && r == Error("Invalid operand", operands[0])
    ensures r.Fail? <==> |operands| > 0 && !opc.form.NewArray? && |ops| > 0 && ops[0].Descriptor?
                         && (if opc.form.ANewArray? then IsPrimitiveDescriptor(ops[0].descriptor)
                             else !IsArrayDescriptor(ops[0].descriptor))
  {
    if opc.form.NewArray? then
      var e := ArrayTypeAt(ops, 0);
      if e.Done? then Done(NewPrimitiveArray(e.value)) else e.Forward()
    else
      var desc := DescriptorAt(ops, 0);
      if !desc.Done? then desc.Forward()
      else if opc.form.ANewArray? && IsPrimitiveDescriptor(desc.value) then
        if |operands| == 0 then Crash(NoSuchElement) else Error("Invalid operand", operands[0])
      else if opc.form.ANewArray? then Done(NewReferenceArray(desc.value))
      else if !IsArrayDescriptor(desc.value) then
        if |operands| == 0 then Crash(NoSuchElement) else Error("Invalid operand", operands[0])
      else
        var dims := IntAt(ops, 1);
        if dims.Done? then Done(NewMultiArray(desc.value, dims.value)) else dims.Forward()
  }

  /** The arms of enter's switch other than the branches, which need the label map. */
  function Emission(opc: Opcode, operands: seq<View>, ops: seq<Operand>): (r: Outcome<Emitted>)
    requires !opc.form.Jump?
    ensures r.Done? ==> !r.value.Branch? && !r.value.Bind?
    ensures r.Done? ==> Emits(opc, ops, r.value)
    ensures opc.form.FixedSlot? ==> r.Done?
    ensures opc.form.NamedCall? ==> (r.Done? <==> HasNoArgBuilder(opc.ident))
    ensures r.Fail? ==>
      || (opc.form.NamedCall? && r.error == AsmError("Internal assembler error (please report)", None))
      || (opc.form.Unhandled? && r.error == AsmError("Internal error (please report): unhandled opcode " + opc.ident, None))
      || ((opc.form.ANewArray? || opc.form.MultiANewArray?) && |operands| > 0 && r == Error("Invalid operand", operands[0]))
    ensures opc.form.Unhandled? ==> r.Fail?
  {
    match opc.form
    case NamedCall =>
      if HasNoArgBuilder(opc.ident) then Done(Simple(opc.ident))
      else Fail(AsmError("Internal assembler error (please report)", None))
    case SlotOperand(kind) =>
      var n := IntAt(ops, 0); if n.Done? then Done(LocalVariable(kind, n.value)) else n.Forward()
    case FixedSlot(kind, slot) => Done(LocalVariable(kind, slot))
    case FieldAccess => MemberEmission(opc, ops)
    case Invoke => MemberEmission(opc, ops)
    case ANewArray => ArrayEmission(opc, operands, ops)
    case MultiANewArray => ArrayEmission(opc, operands, ops)
    case NewArray => ArrayEmission(opc, operands, ops)
    case BiPush => var n := IntAt(ops, 0); if n.Done? then Done(PushByte(n.value)) else n.Forward()
    case SiPush => var n := IntAt(ops, 0); if n.Done? then Done(PushShort(n.value)) else n.Forward()
    case IInc =>
      var slot := IntAt(ops, 0);
      if !slot.Done? then slot.Forward()
      else
        var delta := IntAt(ops, 1);
        if delta.Done? then Done(Increment(slot.value, delta.value)) else delta.Forward()
    case InstanceOf => var c := ClassNameAt(ops, 0); if c.Done? then Done(TypeTest(c.value)) else c.Forward()
    case New => var c := ClassNameAt(ops, 0); if c.Done? then Done(NewObject(c.value)) else c.Forward()
    case Unhandled => Fail(AsmError("Internal error (please report): unhandled opcode " + opc.ident, None))
  }

  // ---------------------------------------------------------------- ldc and ldc2

  datatype LdcShape = FloatShape | StringShape | IntShape

  /** enterLdc's test: lower-case f or fb at the end is a float, a leading quote a string. */
  function LdcShapeOf(s: string): LdcShape
  {
    if EndsWith(LowerText(s), "f") || EndsWith(LowerText(s), "fb") then FloatShape
    else if StartsWith(s, "\"") then StringShape
    else IntShape
  }

  /** enterLdc2's test: db at the end, a '.', or an e in either case is a double. */
  predicate IsDoubleShape(s: string)
  {
    EndsWith(LowerText(s), "db") || Contains(s, '.') || Contains(LowerText(s), 'e')
  }

  /** enterLdc: float and string failures propagate; an int failure becomes "Invalid operand". */
  function EnterLdc(opcode: View, operands: seq<View>, floating: string -> bool): (r: Outcome<Emitted>)
    requires AllValid(operands)
    ensures r.Done? ==> r.value.LoadConstant? && (r.value.constant.IntConstant? || r.value.constant.FloatConstant? || r.value.constant.StringConstant?)
    ensures |operands| != 1 ==> r == Error("Opcode ldc takes one operand", opcode)
    ensures |operands| == 1 && operands[0].Inverted() ==> r == Crash(StringIndexOutOfBounds)
  {
    if |operands| != 1 then Error("Opcode ldc takes one operand", opcode)
    else
      var op := operands[0];
      match op.ToString()
      case Err(e) => Crash(e)
      case Ok(s) =>
        match LdcShapeOf(s)
        case FloatShape =>
          var f := ParseFloat(op, floating);
          if f.Done? then Done(LoadConstant(FloatConstant(f.value))) else f.Forward()
        case StringShape =>
          var t := ParseStringSpec(op);
          if t.Done? then Done(LoadConstant(StringConstant(t.value))) else t.Forward()
        case IntShape =>
          var n := ParseInt(op);
          if n.Done? then Done(LoadConstant(IntConstant(n.value)))
          else if n.Fail? then Error("Invalid operand", op)
          else n.Forward()
  }

  /** enterLdc2: double failures propagate; a long failure becomes "Invalid operand". */
  function EnterLdc2(opcode: View, operands: seq<View>, floating: string -> bool): (r: Outcome<Emitted>)
    requires AllValid(operands)
    ensures r.Done? ==> r.value.LoadConstant? && (r.value.constant.LongConstant? || r.value.constant.DoubleConstant?)
    ensures |operands| != 1 ==> r == Error("Opcode ldc2 takes one operand", opcode)
    ensures |operands| == 1 && operands[0].Inverted() ==> r == Crash(StringIndexOutOfBounds)
  {
    if |operands| != 1 then Error("Opcode ldc2 takes one operand", opcode)
    else
      var op := operands[0];
      match op.ToString()
      case Err(e) => Crash(e)
      case Ok(s) =>
        if IsDoubleShape(s) then
          var d := ParseDouble(op, floating);
          if d.Done? then Done(LoadConstant(DoubleConstant(d.value))) else d.Forward()
        else
          var n := ParseLong(op);
          if n.Done? then Done(LoadConstant(LongConstant(n.value)))
          else if n.Fail? then Error("Invalid operand", op)
          else n.Forward()
  }

  // ---------------------------------------------------------------- labels

  /** The label map of one method together with the builder's next fresh label. */
  datatype Labels = Labels(names: map<string, Label>, next: Label)
  {
    /** Every label handed out is below next, and no two names share one. */
    predicate Valid()
    {
      (forall n :: n in names ==> names[n] < next)
      && (forall a, b :: a in names && b in names && a != b ==> names[a] != names[b])
    }
  }

  /** A later label map keeps every name of an earlier one, with the same label. */
  predicate Extends(after: Labels, before: Labels)
  {
    before.next <= after.next
    && forall n :: n in before.names ==> n in after.names && after.names[n] == before.names[n]
  }

  /** labels.computeIfAbsent(name, l -> cb.newLabel()) */
  function Resolve(l: Labels, name: string): (r: (Labels, Label))
    ensures Extends(r.0, l) && name in r.0.names && r.0.names[name] == r.1
    ensures name in l.names ==> r.0 == l
    ensures name !in l.names ==> r.1 == l.next && r.0.next == l.next + 1 && r.0.names.Keys == l.names.Keys + {name}
    ensures l.Valid() ==> r.0.Valid()
  {
    if name in l.names then (l, l.names[name])
    else (Labels(l.names[name := l.next], l.next + 1), l.next)
  }

  lemma ExtendsTransitive(a: Labels, b: Labels, c: Labels)
    requires Extends(b, a) && Extends(c, b)
    ensures Extends(c, a)
  {
  }

  /** One table row: the case value (Integer.parseInt of the label), then the target resolved. */
  function TableCase(l: Labels, e: Entry): (r: (Outcome<SwitchCase>, Labels))
    requires e.caseLabel.Valid() && e.target.Valid()
    ensures Extends(r.1, l) && (l.Valid() ==> r.1.Valid())
    ensures r.0.Done? ==> e.target.ToString().Ok? && e.target.Text() in r.1.names
                          && r.0.value.target == r.1.names[e.target.Text()]
                          && Some(r.0.value.value) == ParseInt32(e.caseLabel.Text())
    ensures r.0.Fail? ==> r.0 == Error("Invalid integer", e.caseLabel) && r.1 == l
  {
    match e.caseLabel.ToString()
    case Err(x) => (Crash(x), l)
    case Ok(text) =>
      match ParseInt32(text)
      case None => (Error("Invalid integer", e.caseLabel), l)
      case Some(value) =>
        match e.target.ToString()
        case Err(x) => (Crash(x), l)
        case Ok(name) =>
          var (l2, target) := Resolve(l, name);
          (Done(SwitchCase(value, target)), l2)
  }

  /** parseTable: one case per row, in order, the first failing row ending it. */
  function TableCases(l: Labels, es: seq<Entry>): (r: (Outcome<seq<SwitchCase>>, Labels))
    requires EntriesValid(es)
    ensures Extends(r.1, l) && (l.Valid() ==> r.1.Valid())
    ensures r.0.Done? ==> |r.0.value| == |es|
    decreases |es|
  {
    if es == [] then (Done([]), l)
    else
      var (first, l1) := TableCase(l, es[0]);
      if !first.Done? then (first.Forward(), l1)
      else
        var (rest, l2) := TableCases(l1, es[1..]);
        (Prefixed([first.value], rest), l2)
  }

  /** A case holds its row's value and, in the map after, its row's target. */
  predicate CaseFaithful(c: SwitchCase, e: Entry, after: Labels)
    requires e.caseLabel.Valid() && e.target.Valid()
  {
    Some(c.value) == ParseInt32(e.caseLabel.Text())
    && e.target.Text() in after.names && c.target == after.names[e.target.Text()]
  }

  lemma CaseFaithfulExtends(c: SwitchCase, e: Entry, before: Labels, after: Labels)
    requires e.caseLabel.Valid() && e.target.Valid()
    requires CaseFaithful(c, e, before) && Extends(after, before)
    ensures CaseFaithful(c, e, after)
  {
  }

  /** Every case of a parsed table holds its row's value and, in the final map, its row's target. */
  lemma {:induction false} TableCasesFaithful(l: Labels, es: seq<Entry>)
    requires EntriesValid(es)
    ensures var (r, after) := TableCases(l, es);
      r.Done? ==> forall i :: 0 <= i < |es| ==> CaseFaithful(r.value[i], es[i], after)
    decreases |es|
  {
    if es != [] {
      var (first, l1) := TableCase(l, es[0]);
      if first.Done? {
        assert EntriesValid(es[1..]);
        TableCasesFaithful(l1, es[1..]);
        var (rest, l2) := TableCases(l1, es[1..]);
        var (r, after) := TableCases(l, es);
        if r.Done? {
          forall i | 0 <= i < |es|
            ensures CaseFaithful(r.value[i], es[i], after)
          {
            if i > 0 {
              assert r.value[i] == rest.value[i - 1] && es[i] == es[1..][i - 1];
            } else {
              CaseFaithfulExtends(first.value, es[0], l1, l2);
            }
          }
        }
      }
    }
  }

  /** A target named twice in one table gets one label. */
  lemma SameTargetSameLabel(l: Labels, es: seq<Entry>, i: nat, j: nat)
    requires EntriesValid(es) && i < |es| && j < |es|
    requires es[i].target.Text() == es[j].target.Text()
    requires TableCases(l, es).0.Done?
    ensures TableCases(l, es).0.value[i].target == TableCases(l, es).0.value[j].target
  {
    TableCasesFaithful(l, es);
    var (r, after) := TableCases(l, es);
    assert CaseFaithful(r.value[i], es[i], after) && CaseFaithful(r.value[j], es[j], after);
  }

  // ---------------------------------------------------------------- the specification of enter

  /** enter: ldc and ldc2 first, then the opcode map, the operands, and the opcode's arm. */
  function EnterSpec(l: Labels, opcodes: OpcodeSet, opcode: View, operands: seq<View>, floating: string -> bool)
    : (r: (Outcome<Emitted>, Labels))
    requires opcode.Valid() && AllValid(operands)
    ensures Extends(r.1, l) && (l.Valid() ==> r.1.Valid())
    ensures opcode.Inverted() ==> r == (Crash(StringIndexOutOfBounds), l)
    ensures opcode.ToString() == Ok("ldc") ==> r == (EnterLdc(opcode, operands, floating), l)
    ensures opcode.ToString() == Ok("ldc2") ==> r == (EnterLdc2(opcode, operands, floating), l)
    ensures (!opcode.Inverted() && opcode.Text() != "ldc" && opcode.Text() != "ldc2"
             && opcode.Text() !in OpcodeMap(opcodes.values)) ==> r == (Error("Invalid opcode", opcode), l)
  {
    match opcode.ToString()
    case Err(x) => (Crash(x), l)
    case Ok(s) =>
      if s == "ldc" then (EnterLdc(opcode, operands, floating), l)
      else if s == "ldc2" then (EnterLdc2(opcode, operands, floating), l)
      else if s !in OpcodeMap(opcodes.values) then (Error("Invalid opcode", opcode), l)
      else
        var opc := OpcodeMap(opcodes.values)[s];
        var ops := CheckedOperands(opcode, opc, operands, floating);
        if !ops.Done? then (ops.Forward(), l)
        else if opc.form.Jump? then
          var name := BranchTargetAt(ops.value, 0);
          if !name.Done? then (name.Forward(), l)
          else
            var (l2, target) := Resolve(l, name.value);
            (Done(Branch(opc.ident, target)), l2)
        else (Emission(opc, operands, ops.value), l)
  }

  /** parseTable on a table whose row list may be null: a null list throws before any row is read. */
  function RowCases(l: Labels, table: Option<seq<Entry>>): (r: (Outcome<seq<SwitchCase>>, Labels))
    requires table.Some? ==> EntriesValid(table.value)
    ensures Extends(r.1, l) && (l.Valid() ==> r.1.Valid())
    ensures table.None? ==> r == (Crash(NullPointer), l)
  {
    if table.None? then (Crash(NullPointer), l) else TableCases(l, table.value)
  }

  /** enterTableInstruction: the switch opcode, its operands, the default target, then the table. */
  function EnterTableSpec(l: Labels, opcodes: OpcodeSet, opcode: View, operands: seq<View>, table: Option<seq<Entry>>,
                          floating: string -> bool): (r: (Outcome<Emitted>, Labels))
    requires opcode.Valid() && AllValid(operands) && (table.Some? ==> EntriesValid(table.value))
    ensures Extends(r.1, l) && (l.Valid() ==> r.1.Valid())
    ensures r.0.Done? ==> r.0.value.LookupSwitch? || r.0.value.TableSwitch?
    ensures opcode.Inverted() ==> r == (Crash(StringIndexOutOfBounds), l)
    ensures !opcode.Inverted() && opcode.Text() != "lookupswitch" && opcode.Text() != "tableswitch" ==>
              r == (Error("Internal error (please report): " + opcode.Text() + " handled as a table instruction", opcode), l)
  {
    match opcode.ToString()
    case Err(x) => (Crash(x), l)
    case Ok(s) =>
      if s != "lookupswitch" && s != "tableswitch" then
        (Error("Internal error (please report): " + s + " handled as a table instruction", opcode), l)
      else
        var opc := if s == "lookupswitch" then opcodes.lookupswitch else opcodes.tableswitch;
        var ops := CheckedOperands(opcode, opc, operands, floating);
        if !ops.Done? then (ops.Forward(), l)
        else if s == "lookupswitch" then
          var name := BranchTargetAt(ops.value, 0);
          if !name.Done? then (name.Forward(), l)
          else
            var (l1, defaultTarget) := Resolve(l, name.value);
            var (cases, l2) := RowCases(l1, table);
            (if cases.Done? then Done(LookupSwitch(defaultTarget, cases.value)) else cases.Forward(), l2)
        else
          var name := BranchTargetAt(ops.value, 2);
          if !name.Done? then (name.Forward(), l)
          else
            var (l1, defaultTarget) := Resolve(l, name.value);
            var low := IntAt(ops.value, 0);
            if !low.Done? then (low.Forward(), l1)
            else
              var high := IntAt(ops.value, 1);
              if !high.Done? then (high.Forward(), l1)
              else
                var (cases, l2) := RowCases(l1, table);
                (if cases.Done? then Done(TableSwitch(low.value, high.value, defaultTarget, cases.value)) else cases.Forward(), l2)
  }

  // ---------------------------------------------------------------- properties of enter

  /** The operand types each arm casts, in the order it casts them. */
  function Signature(f: Form): seq<OperandType>
  {
    match f
    case NamedCall => []
    case SlotOperand(_) => [IntOperand]
    case FixedSlot(_, _) => []
    case FieldAccess => [ClassNameOperand, IdentifierOperand, DescriptorOperand]
    case Invoke => [ClassNameOperand, IdentifierOperand, MethodDescriptorOperand]
    case Jump => [BranchTargetOperand]
    case ANewArray => [DescriptorOperand]
    case BiPush => [IntOperand]
    case IInc => [IntOperand, IntOperand]
    case InstanceOf => [ClassNameOperand]
    case MultiANewArray => [DescriptorOperand, IntOperand]
    case New => [ClassNameOperand]
    case NewArray => [ArrayTypeOperand]
    case SiPush => [IntOperand]
    case Unhandled => []
  }

  /** The declared operand types start with the ones the code casts to. */
  predicate Fits(types: seq<OperandType>, cast: seq<OperandType>)
  {
    |cast| <= |types| && types[..|cast|] == cast
  }

  /** An opcode table whose signatures agree with the casts of enter and enterTableInstruction. */
  predicate WellFormed(opcodes: OpcodeSet)
  {
    (forall i :: 0 <= i < |opcodes.values| ==> Fits(opcodes.values[i].operandTypes, Signature(opcodes.values[i].form)))
    && Fits(opcodes.lookupswitch.operandTypes, [BranchTargetOperand])
    && Fits(opcodes.tableswitch.operandTypes, [IntOperand, IntOperand, BranchTargetOperand])
  }

  /** With a fitting signature, the arms of enter never throw once the operands have parsed. */
  lemma EmissionDoesNotThrow(opc: Opcode, operands: seq<View>, ops: seq<Operand>)
    requires !opc.form.Jump? && Fits(opc.operandTypes, Signature(opc.form))
    requires |ops| == |operands| == |opc.operandTypes|
    requires forall i :: 0 <= i < |ops| ==> TypeOf(ops[i]) == opc.operandTypes[i]
    ensures !Emission(opc, operands, ops).Crash?
  {
    var sig := Signature(opc.form);
    forall i | 0 <= i < |sig|
      ensures TypeOf(ops[i]) == sig[i]
    {
      assert opc.operandTypes[..|sig|][i] == opc.operandTypes[i];
    }
  }

  /** Every opcode the map hands out has a fitting signature. */
  lemma MapValueFits(opcodes: OpcodeSet, s: string)
    requires WellFormed(opcodes) && s in OpcodeMap(opcodes.values)
    ensures Fits(OpcodeMap(opcodes.values)[s].operandTypes, Signature(OpcodeMap(opcodes.values)[s].form))
  {
    var opc := OpcodeMap(opcodes.values)[s];
    var i :| 0 <= i < |opcodes.values| && opcodes.values[i] == opc;
  }

  /** With a fitting signature, a branch's target operand is never miscast. */
  lemma JumpDoesNotThrow(opc: Opcode, ops: seq<Operand>)
    requires opc.form.Jump? && Fits(opc.operandTypes, Signature(opc.form))
    requires |ops| == |opc.operandTypes|
    requires forall i :: 0 <= i < |ops| ==> TypeOf(ops[i]) == opc.operandTypes[i]
    ensures BranchTargetAt(ops, 0).Done?
  {
    assert opc.operandTypes[..1][0] == opc.operandTypes[0];
  }

  /**
   * Against a well-formed table, a known opcode whose operands parse is
   * entered without a ClassCastException or an index error.
   */
  lemma EnterDoesNotThrowAfterParsing(l: Labels, opcodes: OpcodeSet, opcode: View, operands: seq<View>, floating: string -> bool)
    requires opcode.Valid() && AllValid(operands) && WellFormed(opcodes)
    requires !opcode.Inverted()
    requires opcode.Text() in OpcodeMap(opcodes.values)
    requires CheckedOperands(opcode, OpcodeMap(opcodes.values)[opcode.Text()], operands, floating).Done?
    ensures !EnterSpec(l, opcodes, opcode, operands, floating).0.Crash?
  {
    var s := opcode.Text();
    assert opcode.ToString() == Ok(s);
    OpcodeMapSkipsLdc(opcodes, s);
    var opc := OpcodeMap(opcodes.values)[s];
    MapValueFits(opcodes, s);
    var ops := CheckedOperands(opcode, opc, operands, floating);
    ArityRules(opcode, opc, operands, floating);
    if opc.form.Jump? {
      JumpDoesNotThrow(opc, ops.value);
    } else {
      EmissionDoesNotThrow(opc, operands, ops.value);
    }
  }

  lemma OpcodeMapSkipsLdc(opcodes: OpcodeSet, s: string)
    requires s in OpcodeMap(opcodes.values)
    ensures s != "ldc" && s != "ldc2"
  {
  }

  /** A failed or crashed enter leaves the label map as it was; only a branch resolves a name. */
  lemma EnterResolvesOnlyBranches(l: Labels, opcodes: OpcodeSet, opcode: View, operands: seq<View>, floating: string -> bool)
    requires opcode.Valid() && AllValid(operands)
    ensures var (r, after) := EnterSpec(l, opcodes, opcode, operands, floating);
      after != l ==> r.Done? && r.value.Branch?
  {
  }

  /** A branch is emitted with the label its target operand names in the map. */
  lemma BranchTargetIsNamed(l: Labels, opcodes: OpcodeSet, opcode: View, operands: seq<View>, floating: string -> bool)
    requires opcode.Valid() && AllValid(operands)
    requires var r := EnterSpec(l, opcodes, opcode, operands, floating).0; r.Done? && r.value.Branch?
    ensures var (r, after) := EnterSpec(l, opcodes, opcode, operands, floating);
      |operands| > 0 && !operands[0].Inverted() && operands[0].Text() in after.names
      && after.names[operands[0].Text()] == r.value.target
  {
    assert !opcode.Inverted();
    var s := opcode.Text();
    assert s != "ldc" && s != "ldc2" && s in OpcodeMap(opcodes.values);
    var opc := OpcodeMap(opcodes.values)[s];
    var ops := CheckedOperands(opcode, opc, operands, floating);
    assert ops.Done? && opc.form.Jump?;
    ArityRules(opcode, opc, operands, floating);
    JumpOperandIsText(opc, operands, ops.value, floating);
  }

  /** A branch target that parsed is the text of the first operand. */
  lemma JumpOperandIsText(opc: Opcode, operands: seq<View>, ops: seq<Operand>, floating: string -> bool)
    requires AllValid(operands) && |operands| == |opc.operandTypes| > 0
    requires ParseAll(operands, opc.operandTypes, floating) == Done(ops)
    requires BranchTargetAt(ops, 0).Done?
    ensures !operands[0].Inverted() && ops[0] == BranchTarget(operands[0].Text())
  {
    ParseAllHead(operands, opc.operandTypes, floating);
    assert opc.operandTypes[0] == BranchTargetOperand;
    if !operands[0].Inverted() {
      TextOperandsKeepText(operands[0], floating);
    }
  }

  /** The first parsed operand is the first operand parsed as the first type. */
  lemma ParseAllHead(vs: seq<View>, ts: seq<OperandType>, floating: string -> bool)
    requires |vs| == |ts| && AllValid(vs) && ParseAll(vs, ts, floating).Done? && |vs| > 0
    ensures ParseOperand(vs[0], ts[0], floating) == Done(ParseAll(vs, ts, floating).value[0])
  {
  }

  /** Each parsed operand is its own view parsed as its own type. */
  lemma {:induction false} ParseAllAt(vs: seq<View>, ts: seq<OperandType>, floating: string -> bool, i: nat)
    requires |vs| == |ts| && AllValid(vs) && ParseAll(vs, ts, floating).Done? && i < |vs|
    ensures ParseOperand(vs[i], ts[i], floating) == Done(ParseAll(vs, ts, floating).value[i])
    decreases i
  {
    if i > 0 {
      ParseAllCons(vs, ts, floating);
      ParseAllAt(vs[1..], ts[1..], floating, i - 1);
      assert vs[1..][i - 1] == vs[i] && ts[1..][i - 1] == ts[i];
    }
  }

  /** A branch target operand that parsed, at any position, is the text of its view. */
  lemma BranchOperandIsText(opc: Opcode, operands: seq<View>, ops: seq<Operand>, floating: string -> bool, i: nat)
    requires AllValid(operands) && |operands| == |opc.operandTypes| && i < |operands|
    requires ParseAll(operands, opc.operandTypes, floating) == Done(ops)
    requires BranchTargetAt(ops, i).Done?
    ensures !operands[i].Inverted() && ops[i] == BranchTarget(operands[i].Text())
  {
    OperandReadsView(operands, opc.operandTypes, floating, i);
  }

  /** A parsed operand is what its type's recogniser reads from the operand's own view. */
  lemma OperandReadsView(vs: seq<View>, ts: seq<OperandType>, floating: string -> bool, i: nat)
    requires |vs| == |ts| && AllValid(vs) && ParseAll(vs, ts, floating).Done? && i < |vs|
    ensures var o := ParseAll(vs, ts, floating).value[i];
      && (o.Int? ==> ParseInt(vs[i]) == Done(o.value))
      && (o.ClassName? ==> ParseClassName(vs[i]) == Done(o.name))
      && (o.Descriptor? ==> ParseDescriptor(vs[i]) == Done(o.descriptor))
      && (o.MethodDescriptor? ==> ParseMethodDescriptor(vs[i]) == Done(o.methodDescriptor))
      && (o.Identifier? ==> !vs[i].Inverted() && o == Identifier(vs[i].Text()))
      && (o.BranchTarget? ==> !vs[i].Inverted() && o == BranchTarget(vs[i].Text()))
  {
    ParseAllAt(vs, ts, floating, i);
    var o := ParseAll(vs, ts, floating).value[i];
    assert TypeOf(o) == ts[i];
    if vs[i].Inverted() {
      InvertedViewCrashes(vs[i], ts[i], floating);
    } else {
      TextOperandsKeepText(vs[i], floating);
    }
  }

  /**
   * An instruction that is neither a branch nor ldc/ldc2 is a known opcode
   * whose operands passed the arity check and parsed, and it is emitted from
   * those operands as its arm says.
   */
  lemma EnterEmitsFromOperands(l: Labels, opcodes: OpcodeSet, opcode: View, operands: seq<View>, floating: string -> bool)
    requires opcode.Valid() && AllValid(operands)
    requires var r := EnterSpec(l, opcodes, opcode, operands, floating).0;
      r.Done? && !r.value.Branch? && !r.value.LoadConstant?
    ensures !opcode.Inverted() && opcode.Text() in OpcodeMap(opcodes.values)
    ensures var opc := OpcodeMap(opcodes.values)[opcode.Text()];
      var ops := CheckedOperands(opcode, opc, operands, floating);
      ops.Done? && Emits(opc, ops.value, EnterSpec(l, opcodes, opcode, operands, floating).0.value)
  {
  }

  /**
   * A field access or call takes its owner from operand 0 read as a class
   * name, its name from the text of operand 1, and its descriptor from operand
   * 2 read as a field or method descriptor.
   */
  lemma MemberFromOperands(l: Labels, opcodes: OpcodeSet, opcode: View, operands: seq<View>, floating: string -> bool)
    requires opcode.Valid() && AllValid(operands)
    requires var r := EnterSpec(l, opcodes, opcode, operands, floating).0; r.Done? && r.value.Member?
    ensures !opcode.Inverted() && opcode.Text() in OpcodeMap(opcodes.values)
    ensures var opc := OpcodeMap(opcodes.values)[opcode.Text()];
      var m := EnterSpec(l, opcodes, opcode, operands, floating).0.value;
      && (opc.form.FieldAccess? || opc.form.Invoke?) && m.opcode == opc.ident
      && |operands| > 2 && ParseClassName(operands[0]) == Done(m.owner)
      && !operands[1].Inverted() && operands[1].Text() == m.name
      && (opc.form.FieldAccess? ==> ParseDescriptor(operands[2]) == Done(m.descriptor))
      && (opc.form.Invoke? ==> ParseMethodDescriptor(operands[2]) == Done(m.descriptor))
  {
    EnterEmitsFromOperands(l, opcodes, opcode, operands, floating);
    var opc := OpcodeMap(opcodes.values)[opcode.Text()];
    ArityRules(opcode, opc, operands, floating);
    OperandReadsView(operands, opc.operandTypes, floating, 0);
    OperandReadsView(operands, opc.operandTypes, floating, 1);
    OperandReadsView(operands, opc.operandTypes, floating, 2);
  }

  /**
   * enterLdc's routing of its one operand: a lower-case f or fb at the end
   * goes to parseFloat, otherwise a leading quote to parseString, otherwise
   * parseInt, whose refusal is re-reported as "Invalid operand" at the operand.
   */
  lemma LdcRouting(opcode: View, op: View, floating: string -> bool)
    requires op.Valid() && !op.Inverted()
    ensures var s := op.Text(); var low := LowerText(s);
      var r := EnterLdc(opcode, [op], floating);
      var f := ParseFloat(op, floating); var t := ParseStringSpec(op); var n := ParseInt(op);
      && ((EndsWith(low, "f") || EndsWith(low, "fb")) ==>
            (r.Done? <==> f.Done?) && (f.Done? ==> r.value == LoadConstant(FloatConstant(f.value)))
            && (f.Fail? ==> r == Error("Invalid float", op)) && (f.Crash? ==> r == Crash(f.crash)))
      && ((!EndsWith(low, "f") && !EndsWith(low, "fb") && StartsWith(s, "\"")) ==>
            (r.Done? <==> t.Done?) && (t.Done? ==> r.value == LoadConstant(StringConstant(t.value)))
            && (!t.Done? ==> r == t.Forward()))
      && ((!EndsWith(low, "f") && !EndsWith(low, "fb") && !StartsWith(s, "\"")) ==>
            (r.Done? <==> n.Done?) && (n.Done? ==> r.value == LoadConstant(IntConstant(n.value)))
            && (n.Fail? ==> r == Error("Invalid operand", op)) && (n.Crash? ==> r == Crash(n.crash)))
  {
    assert AllValid([op]) && [op][0] == op;
  }

  /**
   * enterLdc2's routing of its one operand: db at the end, a '.' or an e in
   * either case goes to parseDouble, otherwise parseLong, whose refusal is
   * re-reported as "Invalid operand" at the operand.
   */
  lemma Ldc2Routing(opcode: View, op: View, floating: string -> bool)
    requires op.Valid() && !op.Inverted()
    ensures var s := op.Text(); var low := LowerText(s);
      var r := EnterLdc2(opcode, [op], floating);
      var d := ParseDouble(op, floating); var n := ParseLong(op);
      && ((EndsWith(low, "db") || Contains(s, '.') || Contains(low, 'e')) ==>
            (r.Done? <==> d.Done?) && (d.Done? ==> r.value == LoadConstant(DoubleConstant(d.value)))
            && (d.Fail? ==> r == Error("Invalid double", op)) && (d.Crash? ==> r == Crash(d.crash)))
      && ((!EndsWith(low, "db") && !Contains(s, '.') && !Contains(low, 'e')) ==>
            (r.Done? <==> n.Done?) && (n.Done? ==> r.value == LoadConstant(LongConstant(n.value)))
            && (n.Fail? ==> r == Error("Invalid operand", op)) && (n.Crash? ==> r == Crash(n.crash)))
  {
    assert AllValid([op]) && [op][0] == op;
  }

  /**
   * A lookupswitch takes its default target from operand 0 and one case per
   * table row, each with the row's value and, in the map after, the row's target.
   */
  lemma LookupSwitchFromOperands(l: Labels, opcodes: OpcodeSet, opcode: View, operands: seq<View>,
                                 table: Option<seq<Entry>>, floating: string -> bool)
    requires opcode.Valid() && AllValid(operands) && (table.Some? ==> EntriesValid(table.value))
    requires var r := EnterTableSpec(l, opcodes, opcode, operands, table, floating).0; r.Done? && r.value.LookupSwitch?
    ensures !opcode.Inverted() && opcode.Text() == "lookupswitch" && table.Some?
    ensures var (r, after) := EnterTableSpec(l, opcodes, opcode, operands, table, floating);
      && |operands| > 0 && !operands[0].Inverted() && operands[0].Text() in after.names
      && r.value.defaultTarget == after.names[operands[0].Text()]
      && |r.value.cases| == |table.value|
      && forall i :: 0 <= i < |table.value| ==> CaseFaithful(r.value.cases[i], table.value[i], after)
  {
    var opc := opcodes.lookupswitch;
    var ops := CheckedOperands(opcode, opc, operands, floating);
    ArityRules(opcode, opc, operands, floating);
    BranchOperandIsText(opc, operands, ops.value, floating, 0);
    var (l1, _) := Resolve(l, operands[0].Text());
    TableCasesFaithful(l1, table.value);
  }

  /**
   * A tableswitch takes low and high from operands 0 and 1 read as ints, its
   * default target from operand 2, and one case per table row.
   */
  lemma TableSwitchFromOperands(l: Labels, opcodes: OpcodeSet, opcode: View, operands: seq<View>,
                                table: Option<seq<Entry>>, floating: string -> bool)
    requires opcode.Valid() && AllValid(operands) && (table.Some? ==> EntriesValid(table.value))
    requires var r := EnterTableSpec(l, opcodes, opcode, operands, table, floating).0; r.Done? && r.value.TableSwitch?
    ensures !opcode.Inverted() && opcode.Text() == "tableswitch" && table.Some?
    ensures var (r, after) := EnterTableSpec(l, opcodes, opcode, operands, table, floating);
      && |operands| > 2 && ParseInt(operands[0]) == Done(r.value.low) && ParseInt(operands[1]) == Done(r.value.high)
      && !operands[2].Inverted() && operands[2].Text() in after.names
      && r.value.defaultTarget == after.names[operands[2].Text()]
      && |r.value.cases| == |table.value|
      && forall i :: 0 <= i < |table.value| ==> CaseFaithful(r.value.cases[i], table.value[i], after)
  {
    var opc := opcodes.tableswitch;
    var ops := CheckedOperands(opcode, opc, operands, floating);
    ArityRules(opcode, opc, operands, floating);
    OperandReadsView(operands, opc.operandTypes, floating, 0);
    OperandReadsView(operands, opc.operandTypes, floating, 1);
    BranchOperandIsText(opc, operands, ops.value, floating, 2);
    var (l1, _) := Resolve(l, operands[2].Text());
    TableCasesFaithful(l1, table.value);
  }

  /** A table whose rows are all readable never throws while it is parsed. */
  lemma {:induction false} TableCasesDoNotThrow(l: Labels, es: seq<Entry>)
    requires EntriesValid(es)
    requires forall i :: 0 <= i < |es| ==> !es[i].caseLabel.Inverted() && !es[i].target.Inverted()
    ensures !TableCases(l, es).0.Crash?
    decreases |es|
  {
    if es != [] {
      var (first, l1) := TableCase(l, es[0]);
      if first.Done? {
        TableCasesDoNotThrow(l1, es[1..]);
      }
    }
  }

  /** ldc of a printed int loads that int. */
  lemma LdcOfInt(opcode: View, n: int, floating: string -> bool)
    requires IsInt32(n)
    ensures EnterLdc(opcode, [Of(IntToString(n))], floating) == Done(LoadConstant(IntConstant(n)))
  {
    var s := IntToString(n);
    DecimalText(n);
    DecimalTail(s);
    IntRoundTrip(n);
  }

  /** A decimal text is read as an int by ldc and not as a double by ldc2. */
  lemma DecimalTail(s: string)
    requires IsDecimalText(s)
    ensures LdcShapeOf(s) == IntShape
    ensures !IsDoubleShape(s)
  {
    DecimalChars(s);
    var low := LowerText(s);
    assert low[|s| - 1] == s[|s| - 1];
    NotEndsWith(low, "f");
    NotEndsWith(low, "fb");
    NotEndsWith(low, "db");
    assert !StartsWith(s, "\"");
    assert !Contains(s, '.');
    assert !Contains(low, 'e') by {
      forall i | 0 <= i < |s| ensures low[i] != 'e' {
        assert low[i] == Lower(s[i]);
      }
    }
  }

  /** A text does not end with a suffix whose last character differs from its own. */
  lemma NotEndsWith(x: string, suffix: string)
    requires |x| > 0 && |suffix| > 0 && x[|x| - 1] != suffix[|suffix| - 1]
    ensures !EndsWith(x, suffix)
  {
  }

  /** Every character of a decimal text is a digit or a sign, and the last one is a digit. */
  lemma DecimalChars(s: string)
    requires IsDecimalText(s)
    ensures forall i :: 0 <= i < |s| ==> IsDigit(s[i]) || s[i] == '+' || s[i] == '-'
    ensures IsDigit(s[|s| - 1])
  {
    var body := if |s| > 0 && (s[0] == '+' || s[0] == '-') then s[1..] else s;
    var k := |s| - |body|;
    forall i | k <= i < |s| ensures IsDigit(s[i]) {
      assert s[i] == body[i - k];
    }
  }

  /** ldc2 of a printed long with an L suffix loads that long. */
  lemma Ldc2OfLong(opcode: View, n: int, floating: string -> bool)
    requires IsInt64(n)
    ensures EnterLdc2(opcode, [Of(IntToString(n) + "L")], floating) == Done(LoadConstant(LongConstant(n)))
  {
    var d := IntToString(n);
    DecimalText(n);
    LongRoundTrip(n);
    SuffixedDecimalNotDouble(d);
  }

  /** A decimal text with an L suffix is not routed to the double parser. */
  lemma SuffixedDecimalNotDouble(d: string)
    requires IsDecimalText(d)
    ensures !IsDoubleShape(d + "L")
  {
    var s := d + "L";
    DecimalTail(d);
    assert LowerText(s)[|s| - 1] == 'l';
    assert !Contains(s, '.') by {
      forall i | 0 <= i < |s| ensures s[i] != '.' {
        if i < |d| { assert s[i] == d[i]; }
      }
    }
    assert !Contains(LowerText(s), 'e') by {
      forall i | 0 <= i < |s| ensures LowerText(s)[i] != 'e' {
        if i < |d| { assert s[i] == d[i] && LowerText(d)[i] == LowerText(s)[i]; }
      }
    }
  }

  /** ldc of a quoted, escaped text loads the text. */
  lemma LdcOfString(opcode: View, x: string, floating: string -> bool)
    ensures EnterLdc(opcode, [Of("\"" + Escaped(x) + "\"")], floating) == Done(LoadConstant(StringConstant(x)))
  {
    var s := "\"" + Escaped(x) + "\"";
    StringRoundTrip(x);
    assert s[|s| - 1] == '"' && LowerText(s)[|s| - 1] == '"';
    assert StartsWith(s, "\"");
  }

  // ---------------------------------------------------------------- the code buffer

  /** What a call appends to the builder's log: its instruction when it succeeded, nothing otherwise. */
  function Output(r: Outcome<Emitted>): seq<Emitted>
  {
    if r.Done? then [r.value] else []
  }

  /** The label map of the method being built and the code builder it emits into. */
  class CodeBuffer {
    var names: map<string, Label>
    var next: Label
    var emitted: seq<Emitted>

    function State(): Labels
      reads this
    {
      Labels(names, next)
    }

    predicate Valid()
      reads this
    {
      State().Valid()
    }

    /** A fresh map and builder: no names, no labels handed out, nothing emitted. */
    constructor ()
      ensures Valid() && names == map[] && next == 0 && emitted == []
    {
      names := map[];
      next := 0;
      emitted := [];
    }

    /** labels.computeIfAbsent(name, l -> cb.newLabel()) */
    method LabelFor(name: string) returns (lab: Label)
      requires Valid()
      modifies this
      ensures Valid()
      ensures (State(), lab) == Resolve(old(State()), name)
      ensures emitted == old(emitted)
    {
      if name in names {
        lab := names[name];
      } else {
        lab := next;
        next := next + 1;
        names := names[name := lab];
      }
    }

    /** cb.labelBinding(labels.computeIfAbsent(name, ...)) */
    method BindLabel(name: string)
      requires Valid()
      modifies this
      ensures Valid()
      ensures State() == Resolve(old(State()), name).0
      ensures emitted == old(emitted) + [Bind(Resolve(old(State()), name).1)]
    {
      var lab := LabelFor(name);
      emitted := emitted + [Bind(lab)];
    }

    /** One row of parseTable's loop: its integer label, then its target's label. */
    method ParseRow(e: Entry) returns (c: Outcome<SwitchCase>)
      requires Valid() && e.caseLabel.Valid() && e.target.Valid()
      modifies this
      ensures Valid()
      ensures (c, State()) == TableCase(old(State()), e)
      ensures emitted == old(emitted)
    {
      var lab := e.caseLabel.ToString();
      if lab.Err? {
        return Crash(lab.error);
      }
      var value := ParseInt32(lab.value);
      if value.None? {
        return Error("Invalid integer", e.caseLabel);
      }
      var name := e.target.ToString();
      if name.Err? {
        return Crash(name.error);
      }
      var target := LabelFor(name.value);
      return Done(SwitchCase(value.value, target));
    }

    /** parseTable as the source's loop over the rows. */
    method ParseTable(es: seq<Entry>) returns (r: Outcome<seq<SwitchCase>>)
      requires Valid() && EntriesValid(es)
      modifies this
      ensures Valid()
      ensures (r, State()) == TableCases(old(State()), es)
      ensures emitted == old(emitted)
    {
      var cases: seq<SwitchCase> := [];
      var rest := es;
      ghost var start := State();
      PrefixedEmpty(TableCases(start, es).0);
      while rest != []
        invariant EntriesValid(rest) && Valid() && emitted == old(emitted)
        invariant TableCases(start, es).0 == Prefixed(cases, TableCases(State(), rest).0)
        invariant TableCases(start, es).1 == TableCases(State(), rest).1
        decreases |rest|
      {
        var c := ParseRow(rest[0]);
        if !c.Done? {
          return c.Forward();
        }
        PrefixedTwice(cases, [c.value], TableCases(State(), rest[1..]).0);
        cases := cases + [c.value];
        rest := rest[1..];
      }
      assert cases + [] == cases;
      return Done(cases);
    }

    /** parseTable(table, ...): table.entries() is dereferenced before the first row. */
    method ParseRows(table: Option<seq<Entry>>) returns (r: Outcome<seq<SwitchCase>>)
      requires Valid() && (table.Some? ==> EntriesValid(table.value))
      modifies this
      ensures Valid()
      ensures (r, State()) == RowCases(old(State()), table)
      ensures emitted == old(emitted)
    {
      if table.None? {
        return Crash(NullPointer);
      }
      r := ParseTable(table.value);
    }

    /** enter: validates and emits one instruction, resolving a branch target by name. */
    method Enter(opcodes: OpcodeSet, opcode: View, operands: seq<View>, floating: string -> bool) returns (r: Outcome<Emitted>)
      requires Valid() && opcode.Valid() && AllValid(operands)
      modifies this
      ensures Valid()
      ensures (r, State()) == EnterSpec(old(State()), opcodes, opcode, operands, floating)
      ensures emitted == old(emitted) + Output(r)
    {
      var text := opcode.ToString();
      if text.Err? {
        return Crash(text.error);
      }
      var s := text.value;
      if s == "ldc" {
        r := EnterLdc(opcode, operands, floating);
      } else if s == "ldc2" {
        r := EnterLdc2(opcode, operands, floating);
      } else {
        var known := OpcodeMap(opcodes.values);
        if s !in known {
          return Error("Invalid opcode", opcode);
        }
        var opc := known[s];
        var ops := CheckAndParseOperands(opcode, opc, operands, floating);
        if !ops.Done? {
          return ops.Forward();
        }
        if opc.form.Jump? {
          var name := BranchTargetAt(ops.value, 0);
          if !name.Done? {
            return name.Forward();
          }
          var target := LabelFor(name.value);
          r := Done(Branch(opc.ident, target));
        } else {
          r := Emission(opc, operands, ops.value);
        }
      }
      emitted := emitted + Output(r);
    }

    /** enterTableInstruction: a switch opcode and the table that follows it. */
    method EnterTableInstruction(opcodes: OpcodeSet, opcode: View, operands: seq<View>, table: Option<seq<Entry>>,
                                 floating: string -> bool) returns (r: Outcome<Emitted>)
      requires Valid() && opcode.Valid() && AllValid(operands) && (table.Some? ==> EntriesValid(table.value))
      modifies this
      ensures Valid()
      ensures (r, State()) == EnterTableSpec(old(State()), opcodes, opcode, operands, table, floating)
      ensures emitted == old(emitted) + Output(r)
    {
      var text := opcode.ToString();
      if text.Err? {
        return Crash(text.error);
      }
      var s := text.value;
      if s != "lookupswitch" && s != "tableswitch" {
        return Error("Internal error (please report): " + s + " handled as a table instruction", opcode);
      }
      var opc := if s == "lookupswitch" then opcodes.lookupswitch else opcodes.tableswitch;
      var ops := CheckAndParseOperands(opcode, opc, operands, floating);
      if !ops.Done? {
        return ops.Forward();
      }
      var name := BranchTargetAt(ops.value, if s == "lookupswitch" then 0 else 2);
      if !name.Done? {
        return name.Forward();
      }
      var defaultTarget := LabelFor(name.value);
      if s == "lookupswitch" {
        var cases := ParseRows(table);
        r := if cases.Done? then Done(LookupSwitch(defaultTarget, cases.value)) else cases.Forward();
      } else {
        var low := IntAt(ops.value, 0);
        if !low.Done? {
          return low.Forward();
        }
        var high := IntAt(ops.value, 1);
        if !high.Done? {
          return high.Forward();
        }
        var cases := ParseRows(table);
        r := if cases.Done? then Done(TableSwitch(low.value, high.value, defaultTarget, cases.value)) else cases.Forward();
      }
      emitted := emitted + Output(r);
    }
  }
}
