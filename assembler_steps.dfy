/**
 * What one pass of buildMethodCode's loop does with each kind of item, how
 * an instruction's labels are bound, and the bits the class kind adds to
 * the flags.
 */
module AssemblerSteps {
  import opened Base
  import opened Chars
  import opened StringViews
  import opened ErrorMessages
  import opened Instructions
  import opened Operands
  import Flags
  import Listener
  import opened ParserViews
  import opened ListenerViews
  import opened Assembler

  // ---------------------------------------------------------------- labels

  /** Each label name is in the map afterwards, and its binding, in list order, is to that name's label. */
  lemma {:induction false} BindAllBindsEach(l: Labels, names: seq<View>, k: nat)
    requires k < |names|
    ensures var r := BindAll(l, names);
      names[k].Text() in r.0.names && r.1[k] == Bind(r.0.names[names[k].Text()])
    decreases |names|
  {
    var init := names[..|names| - 1];
    var (l1, out) := BindAll(l, init);
    if k < |names| - 1 {
      BindAllBindsEach(l, init, k);
      assert init[k] == names[k];
    }
  }

  // ---------------------------------------------------------------- flags

  /** An int whose remainder is a pattern's value has that pattern. */
  lemma PatternOf(r: int, v: bv32)
    requires r % 0x1_0000_0000 == v as int
    ensures Bits(r) == v
  {
  }

  lemma WrapMod(n: int)
    requires 0 <= n < 0x1_0000_0000
    ensures n % 0x1_0000_0000 == n && (n - 0x1_0000_0000) % 0x1_0000_0000 == n
  {
  }

  /** flags |= bit: the 32-bit pattern gains the bit and keeps every other. */
  lemma Or32Bits(x: int, bit: bv32)
    requires IsInt32(x)
    ensures Bits(Or32(x, bit)) == Bits(x) | bit
  {
    var v := Bits(x) | bit;
    WrapMod(v as int);
    PatternOf(Or32(x, bit), v);
  }

  /** interface adds ACC_INTERFACE, enum adds ACC_ENUM, any other class id leaves the flags alone. */
  lemma KindFlagsAdds(classId: string, flags: int)
    requires IsInt32(flags)
    ensures classId == "interface" ==> Bits(KindFlags(classId, flags)) == Bits(flags) | Flags.ACC_INTERFACE as bv32
    ensures classId == "enum" ==> Bits(KindFlags(classId, flags)) == Bits(flags) | Flags.ACC_ENUM as bv32
    ensures classId != "interface" && classId != "enum" ==> KindFlags(classId, flags) == flags
  {
    if classId == "interface" {
      Or32Bits(flags, Flags.ACC_INTERFACE as bv32);
    } else if classId == "enum" {
      Or32Bits(flags, Flags.ACC_ENUM as bv32);
    }
  }

  // ---------------------------------------------------------------- one pass of the loop

  /** A table with no switch before it is reported, unplaced, and the loop goes on with the next item. */
  lemma TableAloneReported(ctx: Context, items: seq<Listener.CodeItem>, i: nat, p: Progress)
    requires i < |items| && ItemsSound(items) && items[i].Table?
    ensures Step(ctx, items, i, p)
      == Run(p.(errors := p.errors + [ErrorMessage("Table not expected", None, UNSPECIFIC, UNSPECIFIC)]), i + 1, None)
  {
    NotBlankAfterPrefix("Table not expected", "");
    assert "Table not expected" + "" == "Table not expected";
  }

  /**
   * A switch with no table right after it is reported at its line, with no
   * column, and the next item is left for the next pass; its labels are not
   * bound. A line number the ErrorMessage constructor refuses ends the loop.
   */
  lemma SwitchWithoutTable(ctx: Context, items: seq<Listener.CodeItem>, i: nat, p: Progress)
    requires i < |items| && ItemsSound(items) && IsSwitch(items[i])
    requires i + 1 == |items| || items[i + 1].Instruction?
    ensures var r := Step(ctx, items, i, p);
      && r.next == i + 1 && r.progress.labels == p.labels && r.progress.emitted == p.emitted
      && (items[i].line >= UNSPECIFIC ==>
            && r.crash.None?
            && r.progress.errors == p.errors
               + [ErrorMessage("Expected .table after opcode " + items[i].opcode.Text(), items[i].text, items[i].line, UNSPECIFIC)])
      && (items[i].line < UNSPECIFIC ==> r.crash.Some? && r.progress == p)
  {
    NotBlankAfterPrefix("Expected .table after opcode ", items[i].opcode.Text());
  }

  /**
   * How the loop records what Instructions gave back for an instruction
   * item: an emitted instruction is appended, with the label map
   * Instructions left; an AssemblyException becomes one ErrorMessage with
   * the exception's message, the instruction's text and line, and the
   * target's 1-based column (UNSPECIFIC without a target), unless the
   * ErrorMessage constructor refuses those, which ends the loop; a runtime
   * exception ends the loop with nothing recorded.
   */
  ghost predicate Recorded(before: Progress, o: Outcome<Emitted>, l: Labels, item: Listener.CodeItem, r: Run)
    requires item.Instruction?
  {
    match o
    case Done(x) => r.crash.None? && r.progress == before.(labels := l, emitted := before.emitted + [x])
    case Crash(c) => r.crash == Some(c) && r.progress == before
    case Fail(err) =>
      var column := if err.target.Some? then err.target.value.start + 1 else UNSPECIFIC;
      if !IsBlankText(err.message) && item.line >= UNSPECIFIC && column >= UNSPECIFIC then
        && r.crash.None?
        && r.progress == before.(labels := l, errors := before.errors + [ErrorMessage(err.message, item.text, item.line, column)])
      else r.crash.Some? && r.progress == before.(labels := l)
  }

  /**
   * A switch takes the table after it, and the loop resumes after both. Its
   * labels are not bound: at most the switch itself is emitted. What
   * enterTableInstruction gives back is recorded as Recorded says.
   */
  lemma SwitchTakesTable(ctx: Context, items: seq<Listener.CodeItem>, i: nat, p: Progress)
    requires i + 1 < |items| && ItemsSound(items) && IsSwitch(items[i]) && items[i + 1].Table?
    ensures var r := Step(ctx, items, i, p);
      && r.next == i + 2 && Extends(r.progress.labels, p.labels)
      && p.emitted <= r.progress.emitted && |r.progress.emitted| <= |p.emitted| + 1
      && (|r.progress.emitted| > |p.emitted| ==> r.progress.emitted[|p.emitted|].LookupSwitch? || r.progress.emitted[|p.emitted|].TableSwitch?)
      && p.errors <= r.progress.errors && |r.progress.errors| <= |p.errors| + 1
      && (|r.progress.errors| > |p.errors| ==>
            r.progress.errors[|p.errors|].sourceLine == items[i].text && r.progress.errors[|p.errors|].lineNumber == items[i].line)
    ensures var item := items[i];
      assert ItemSound(items[i + 1]);
      var (o, l) := EnterTableSpec(p.labels, ctx.opcodes, item.opcode, item.operands, items[i + 1].entries, ctx.floating);
      Recorded(p, o, l, item, Step(ctx, items, i, p))
  {
  }

  /**
   * Any other instruction binds its labels first, one binding per label,
   * then emits at most itself; what enter gives back is recorded after the
   * bindings as Recorded says.
   */
  lemma InstructionBindsFirst(ctx: Context, items: seq<Listener.CodeItem>, i: nat, p: Progress)
    requires i < |items| && ItemsSound(items) && items[i].Instruction? && !IsSwitch(items[i])
    ensures var r := Step(ctx, items, i, p);
      var binds := BindAll(p.labels, items[i].labels).1;
      && r.next == i + 1 && |binds| == |items[i].labels|
      && p.emitted + binds <= r.progress.emitted && |r.progress.emitted| <= |p.emitted| + |binds| + 1
      && p.errors <= r.progress.errors && |r.progress.errors| <= |p.errors| + 1
      && (|r.progress.errors| > |p.errors| ==>
            r.progress.errors[|p.errors|].sourceLine == items[i].text && r.progress.errors[|p.errors|].lineNumber == items[i].line)
    ensures var item := items[i];
      var (l, binds) := BindAll(p.labels, item.labels);
      var (o, l2) := EnterSpec(l, ctx.opcodes, item.opcode, item.operands, ctx.floating);
      Recorded(p.(emitted := p.emitted + binds), o, l2, item, Step(ctx, items, i, p))
  {
  }
}
