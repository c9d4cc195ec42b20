/**
 * What assemble() and its helpers promise: the diagnostics sorted stably by
 * position, diagnostics that only ever grow, a success that reports nothing
 * and keeps one bytecode per class in order, the once-only call, the
 * getters' guards, the class flags, and what each pass of buildMethodCode's
 * loop does with a switch, a table and a plain instruction.
 */
module AssemblerProperties {
  import opened Base
  import opened Chars
  import opened StringViews
  import opened ErrorMessages
  import opened Operands
  import opened Instructions
  import Flags
  import Listener
  import opened ParserViews
  import opened ListenerViews
  import opened Assembler

  // ---------------------------------------------------------------- the sort

  predicate SortedByPosition(s: seq<ErrorMessage>)
  {
    forall i, j :: 0 <= i < j < |s| ==> NotAfter(s[i], s[j])
  }

  /** The messages at one line and column, in their order. */
  function AtPosition(s: seq<ErrorMessage>, line: int, column: int): (r: seq<ErrorMessage>)
    ensures |r| <= |s|
    decreases |s|
  {
    if s == [] then []
    else
      var last := s[|s| - 1];
      AtPosition(s[..|s| - 1], line, column) + (if last.lineNumber == line && last.columnNumber == column then [last] else [])
  }

  lemma {:induction false} InsertPermutes(e: ErrorMessage, s: seq<ErrorMessage>)
    ensures multiset(Insert(e, s)) == multiset(s) + multiset{e}
    decreases |s|
  {
    if s != [] && !NotAfter(s[|s| - 1], e) {
      var init := s[..|s| - 1];
      InsertPermutes(e, init);
      assert s == init + [s[|s| - 1]];
    }
  }

  /** Sorting keeps every message, as often as it occurs. */
  lemma {:induction false} SortPermutes(s: seq<ErrorMessage>)
    ensures multiset(SortByPosition(s)) == multiset(s)
    decreases |s|
  {
    if s != [] {
      var init, last := s[..|s| - 1], s[|s| - 1];
      SortPermutes(init);
      InsertPermutes(last, SortByPosition(init));
      assert SortByPosition(s) == Insert(last, SortByPosition(init));
      assert s == init + [last];
      assert multiset(s) == multiset(init) + multiset{last};
    }
  }

  lemma {:induction false} InsertSorted(e: ErrorMessage, s: seq<ErrorMessage>)
    requires SortedByPosition(s)
    ensures SortedByPosition(Insert(e, s))
    decreases |s|
  {
    if s == [] || NotAfter(s[|s| - 1], e) {
    } else {
      var init := s[..|s| - 1];
      var last := s[|s| - 1];
      InsertSorted(e, init);
      InsertPermutes(e, init);
      var r := Insert(e, init);
      forall k | 0 <= k < |r| ensures NotAfter(r[k], last) {
        assert r[k] in multiset(r);
        if r[k] != e {
          assert r[k] in multiset(init);
          var j :| 0 <= j < |init| && init[j] == r[k];
          assert s[j] == r[k];
        }
      }
    }
  }

  /** The messages come out by line number, then by column number. */
  lemma {:induction false} SortSorts(s: seq<ErrorMessage>)
    ensures SortedByPosition(SortByPosition(s))
    decreases |s|
  {
    if s != [] {
      SortSorts(s[..|s| - 1]);
      InsertSorted(s[|s| - 1], SortByPosition(s[..|s| - 1]));
    }
  }

  lemma {:induction false} AtPositionAppend(a: seq<ErrorMessage>, b: seq<ErrorMessage>, line: int, column: int)
    ensures AtPosition(a + b, line, column) == AtPosition(a, line, column) + AtPosition(b, line, column)
    decreases |b|
  {
    if b == [] {
      assert a + b == a;
    } else {
      var init := b[..|b| - 1];
      assert (a + b)[..|a + b| - 1] == a + init;
      assert (a + b)[|a + b| - 1] == b[|b| - 1];
      AtPositionAppend(a, init, line, column);
    }
  }

  /** A single message is selected exactly when it is at the position. */
  lemma AtPositionOne(x: ErrorMessage, line: int, column: int)
    ensures AtPosition([x], line, column) == if x.lineNumber == line && x.columnNumber == column then [x] else []
  {
    assert [x][..0] == [];
  }

  lemma {:induction false} InsertStable(e: ErrorMessage, s: seq<ErrorMessage>, line: int, column: int)
    ensures AtPosition(Insert(e, s), line, column) == AtPosition(s, line, column) + AtPosition([e], line, column)
    decreases |s|
  {
    if s == [] || NotAfter(s[|s| - 1], e) {
      AtPositionAppend(s, [e], line, column);
    } else {
      var init := s[..|s| - 1];
      var last := s[|s| - 1];
      InsertStable(e, init, line, column);
      assert Insert(e, s) == Insert(e, init) + [last];
      assert s == init + [last];
      PassLater(e, init, last, Insert(e, init), line, column);
    }
  }

  /** Moving a message past a later one does not change what either position selects. */
  lemma PassLater(e: ErrorMessage, init: seq<ErrorMessage>, last: ErrorMessage, inserted: seq<ErrorMessage>, line: int, column: int)
    requires !NotAfter(last, e)
    requires AtPosition(inserted, line, column) == AtPosition(init, line, column) + AtPosition([e], line, column)
    ensures AtPosition(inserted + [last], line, column) == AtPosition(init + [last], line, column) + AtPosition([e], line, column)
  {
    AtPositionAppend(inserted, [last], line, column);
    AtPositionAppend(init, [last], line, column);
    AtPositionOne(e, line, column);
    AtPositionOne(last, line, column);
    var a, pe, pl := AtPosition(init, line, column), AtPosition([e], line, column), AtPosition([last], line, column);
    // e sorts strictly before last, so at most one of them is at this position
    if pe == [] {
      assert a + pe == a && (a + pl) + pe == a + pl;
    } else {
      assert pl == [];
      assert (a + pe) + pl == a + pe && a + pl == a;
    }
  }

  /** The sort is stable: messages at the same position keep their order. */
  lemma {:induction false} SortStable(s: seq<ErrorMessage>, line: int, column: int)
    ensures AtPosition(SortByPosition(s), line, column) == AtPosition(s, line, column)
    decreases |s|
  {
    if s != [] {
      var init := s[..|s| - 1];
      SortStable(init, line, column);
      InsertStable(s[|s| - 1], SortByPosition(init), line, column);
      assert AtPosition([] + [s[|s| - 1]], line, column) == AtPosition([s[|s| - 1]], line, column);
    }
  }

  // ---------------------------------------------------------------- the diagnostics only grow

  lemma StepGrows(ctx: Context, items: seq<Listener.CodeItem>, i: nat, p: Progress)
    requires i < |items| && ItemsSound(items)
    ensures p.errors <= Step(ctx, items, i, p).progress.errors
  {
  }

  lemma {:induction false} CodeFromGrows(ctx: Context, items: seq<Listener.CodeItem>, i: nat, p: Progress)
    requires i <= |items| && ItemsSound(items)
    ensures p.errors <= CodeFrom(ctx, items, i, p).0.errors
    decreases |items| - i
  {
    if i < |items| {
      var s := Step(ctx, items, i, p);
      StepGrows(ctx, items, i, p);
      if s.crash.None? {
        CodeFromGrows(ctx, items, s.next, s.progress);
      }
    }
  }

  /** A field adds its image or one diagnostic, never both. */
  lemma FieldStepGrows(ctx: Context, f: Listener.FieldDefinition, images: seq<FieldImage>, errors: seq<ErrorMessage>)
    ensures var (images', errors') := FieldStep(ctx, f, images, errors);
      && errors <= errors' && images <= images' && |images'| + |errors'| == |images| + |errors| + 1
  {
  }

  /** Each field either adds its image or reports one diagnostic; nothing is taken back. */
  lemma {:induction false} FieldsFromGrows(ctx: Context, fs: seq<Listener.FieldDefinition>, i: nat,
                                           images: seq<FieldImage>, errors: seq<ErrorMessage>)
    requires i <= |fs|
    ensures var (images', errors') := FieldsFrom(ctx, fs, i, images, errors);
      && errors <= errors' && images <= images'
      && |images'| + |errors'| == |images| + |errors| + |fs| - i
    decreases |fs| - i
  {
    if i < |fs| {
      var (images', errors') := FieldStep(ctx, fs[i], images, errors);
      FieldStepGrows(ctx, fs[i], images, errors);
      FieldsFromGrows(ctx, fs, i + 1, images', errors');
      var r := FieldsFrom(ctx, fs, i + 1, images', errors');
      PrefixTransitive(errors, errors', r.1);
      PrefixTransitive(images, images', r.0);
    }
  }

  /** A method adds its image, or reports at least one diagnostic, or both when its code reported some. */
  lemma MethodStepGrows(ctx: Context, m: Listener.MethodDefinition, codes: map<Listener.MethodDefinition, Listener.MethodCode>,
                        images: seq<MethodImage>, errors: seq<ErrorMessage>)
    requires CodesSound(codes)
    ensures var (images', errors') := MethodStep(ctx, m, codes, images, errors);
      && errors <= errors' && images <= images' && |images'| <= |images| + 1
      && (|errors'| == |errors| ==> |images'| == |images| + 1)
  {
    if m in codes {
      CodeFromGrows(ctx, codes[m].codeItems, 0, Start(errors));
    }
  }

  /** Every method makes it into the class unless some diagnostic was reported on the way. */
  lemma {:induction false} MethodsFromGrows(ctx: Context, ms: seq<Listener.MethodDefinition>,
                                            codes: map<Listener.MethodDefinition, Listener.MethodCode>,
                                            i: nat, images: seq<MethodImage>, errors: seq<ErrorMessage>)
    requires i <= |ms| && CodesSound(codes)
    ensures var (images', errors') := MethodsFrom(ctx, ms, codes, i, images, errors);
      && errors <= errors' && images <= images' && |images'| <= |images| + |ms| - i
      && (|errors'| == |errors| ==> |images'| == |images| + |ms| - i)
    decreases |ms| - i
  {
    if i < |ms| {
      var (images', errors') := MethodStep(ctx, ms[i], codes, images, errors);
      MethodStepGrows(ctx, ms[i], codes, images, errors);
      MethodsFromGrows(ctx, ms, codes, i + 1, images', errors');
      var r := MethodsFrom(ctx, ms, codes, i + 1, images', errors');
      PrefixTransitive(errors, errors', r.1);
      PrefixTransitive(images, images', r.0);
    }
  }

  /**
   * buildClass only adds diagnostics, and a class is built only when none
   * is on record afterwards: so once any class, or the parse, has reported
   * something, every later class is aborted.
   */
  lemma BuildClassGrows(ctx: Context, sourceName: Option<View>, spec: Listener.ClassSpec, errors: seq<ErrorMessage>)
    requires spec.className.Some? && CodesSound(spec.methodCodes)
    ensures var (errors', outcome) := BuildClassSpec(ctx, sourceName, spec, errors);
      errors <= errors' && (outcome.Assembled? ==> errors' == [])
    ensures errors != [] ==> !BuildClassSpec(ctx, sourceName, spec, errors).1.Assembled?
  {
    FieldsFromGrows(ctx, spec.fields, 0, [], errors);
    var e1 := FieldsFrom(ctx, spec.fields, 0, [], errors).1;
    MethodsFromGrows(ctx, spec.methods, spec.methodCodes, 0, [], e1);
  }

  /**
   * A built class carries its name, its declared flags with the kind's flag
   * added, the source file, the superclass (java/lang/Object by default) and
   * its interfaces, and every one of its fields and methods made it in.
   */
  lemma AssembledImage(ctx: Context, sourceName: Option<View>, spec: Listener.ClassSpec, errors: seq<ErrorMessage>)
    requires spec.className.Some? && CodesSound(spec.methodCodes)
    requires BuildClassSpec(ctx, sourceName, spec, errors).1.Assembled?
    ensures FlagsOfViews(spec.classFlags).Ok? && spec.classId.Some? && errors == []
    ensures var image := BuildClassSpec(ctx, sourceName, spec, errors).1.image;
      && image.name == spec.className.value.Text()
      && image.flags == KindFlags(spec.classId.value.Text(), FlagsOfViews(spec.classFlags).value)
      && image.sourceFile == (if sourceName.Some? then Some(sourceName.value.Text()) else None)
      && image.superclass == (if spec.superclassName.Some? then spec.superclassName.value.Text() else "java/lang/Object")
      && image.interfaces == Texts(spec.superinterfaceNames)
      && |image.fields| == |spec.fields| && |image.methods| == |spec.methods|
  {
    FieldsFromGrows(ctx, spec.fields, 0, [], errors);
    var e1 := FieldsFrom(ctx, spec.fields, 0, [], errors).1;
    MethodsFromGrows(ctx, spec.methods, spec.methodCodes, 0, [], e1);
  }

  // ---------------------------------------------------------------- the class loop

  /** Whether every class so far succeeded is whether nothing has been reported. */
  predicate Consistent(t: Tally)
  {
    t.success <==> t.errors == []
  }

  lemma ClassStepConsistent(ctx: Context, sourceName: Option<View>, spec: Listener.ClassSpec, t: Tally)
    requires spec.className.Some? && SpecSound(spec) && Consistent(t)
    ensures var (t', c) := ClassStep(ctx, sourceName, spec, t);
      c.None? ==> Consistent(t')
  {
    BuildClassGrows(ctx, sourceName, spec, t.errors);
  }

  /**
   * An exception out of buildClass is reported with its own message and
   * fails the assembly without ending the loop; a blank message makes the
   * ErrorMessage constructor throw instead, which ends assemble().
   */
  lemma ThrownReported(ctx: Context, sourceName: Option<View>, spec: Listener.ClassSpec, t: Tally)
    requires spec.className.Some? && SpecSound(spec)
    requires BuildClassSpec(ctx, sourceName, spec, t.errors).1.Threw?
    ensures var (errors, outcome) := BuildClassSpec(ctx, sourceName, spec, t.errors);
      var m := Message(outcome.crash, ctx.describe);
      var (t', c) := ClassStep(ctx, sourceName, spec, t);
      && !t'.success && t'.bytecodes == t.bytecodes
      && (!IsBlankText(m) ==> c.None? && t'.errors == errors + [ErrorMessage(m, None, UNSPECIFIC, UNSPECIFIC)])
      && (IsBlankText(m) ==> c == Some(IllegalArgument("Message cannot be null or blank")))
  {
  }

  lemma {:induction false} ClassesFromConsistent(ctx: Context, sourceName: Option<View>, specs: seq<Listener.ClassSpec>, i: nat, t: Tally)
    requires i <= |specs| && SpecsSound(specs) && Consistent(t)
    ensures var (t', c) := ClassesFrom(ctx, sourceName, specs, i, t);
      c.None? ==> Consistent(t')
    decreases |specs| - i
  {
    if i < |specs| && !Nameless(specs[i]) {
      assert SpecSound(specs[i]);
      ClassStepConsistent(ctx, sourceName, specs[i], t);
      var (t', c) := ClassStep(ctx, sourceName, specs[i], t);
      if c.None? {
        ClassesFromConsistent(ctx, sourceName, specs, i + 1, t');
      }
    }
  }

  /** Every class from i being named covers each class from i. */
  lemma {:induction false} AllNamedAt(specs: seq<Listener.ClassSpec>, i: nat, j: nat)
    requires i <= j < |specs| && AllNamed(specs, i)
    ensures !Nameless(specs[j])
    decreases j - i
  {
    if i < j {
      AllNamedAt(specs, i + 1, j);
    }
  }

  /** The k-th spec name from i is the name of the class at k. */
  lemma {:induction false} SpecNamesAt(specs: seq<Listener.ClassSpec>, i: nat, k: nat)
    requires i <= k < |specs| && SpecsSound(specs) && specs[k].className.Some?
    ensures SpecSound(specs[k]) && SpecNames(specs, i)[k - i] == specs[k].className.value.Text()
    decreases k - i
  {
    if i < k {
      SpecNamesAt(specs, i + 1, k);
    }
  }

  /** On success the class at k, from i on, is named, and its bytecode carries that name, in the classes' order. */
  lemma ClassesFromName(ctx: Context, sourceName: Option<View>, specs: seq<Listener.ClassSpec>, i: nat, t: Tally, k: nat)
    requires i <= k < |specs| && SpecsSound(specs)
    requires ClassesFrom(ctx, sourceName, specs, i, t).0.success
    ensures |t.bytecodes| + k - i < |ClassesFrom(ctx, sourceName, specs, i, t).0.bytecodes| && !Nameless(specs[k])
    ensures ClassesFrom(ctx, sourceName, specs, i, t).0.bytecodes[|t.bytecodes| + k - i].className == specs[k].className.value.Text()
  {
    AllNamedAt(specs, i, k);
    SpecNamesAt(specs, i, k);
    var bs := ClassesFrom(ctx, sourceName, specs, i, t).0.bytecodes;
    assert Names(bs)[|t.bytecodes| + k - i] == (Names(t.bytecodes) + SpecNames(specs, i))[|t.bytecodes| + k - i];
  }

  /** A class with no name fails the assembly, wherever it stands. */
  lemma NamelessFails(ctx: Context, sourceName: Option<View>, specs: seq<Listener.ClassSpec>, i: nat, t: Tally, j: nat)
    requires i <= j < |specs| && SpecsSound(specs) && Nameless(specs[j])
    ensures !ClassesFrom(ctx, sourceName, specs, i, t).0.success
  {
    if ClassesFrom(ctx, sourceName, specs, i, t).0.success {
      AllNamedAt(specs, i, j);
    }
  }

  /** Every class from i up to, not including, j has a name. */
  predicate NamedUntil(specs: seq<Listener.ClassSpec>, i: nat, j: nat)
    requires i <= j <= |specs|
    decreases j - i
  {
    i == j || (!Nameless(specs[i]) && NamedUntil(specs, i + 1, j))
  }

  /** NamedUntil says of each class between i and j that it has a name. */
  lemma {:induction false} NamedUntilEach(specs: seq<Listener.ClassSpec>, i: nat, j: nat)
    requires i <= j <= |specs|
    ensures NamedUntil(specs, i, j) <==> forall k :: i <= k < j ==> !Nameless(specs[k])
    decreases j - i
  {
    if i < j {
      NamedUntilEach(specs, i + 1, j);
      if NamedUntil(specs, i, j) {
        forall k | i <= k < j ensures !Nameless(specs[k]) {
          if k > i {
            assert i + 1 <= k < j;
          }
        }
      } else if !Nameless(specs[i]) {
        var k :| i + 1 <= k < j && Nameless(specs[k]);
        assert i <= k < j;
      }
    }
  }

  /**
   * The first class with no name from i ends the loop: no class from it on
   * yields a bytecode, and the assembly fails.
   */
  lemma {:induction false} NamelessStops(ctx: Context, sourceName: Option<View>, specs: seq<Listener.ClassSpec>,
                                         i: nat, t: Tally, j: nat)
    requires i <= j < |specs| && SpecsSound(specs) && Nameless(specs[j]) && NamedUntil(specs, i, j)
    ensures |ClassesFrom(ctx, sourceName, specs, i, t).0.bytecodes| <= |t.bytecodes| + j - i
    ensures !ClassesFrom(ctx, sourceName, specs, i, t).0.success
    decreases j - i
  {
    if i < j {
      assert SpecSound(specs[i]);
      var step := ClassStep(ctx, sourceName, specs[i], t);
      if step.1.None? {
        NamelessStops(ctx, sourceName, specs, i + 1, step.0, j);
      }
    }
  }

  /**
   * Unless a class before it threw out of assemble, the first class with no
   * name from i leaves "Missing .class/.interface/.enum directive", without
   * position, as the last message.
   */
  lemma {:induction false} NamelessReported(ctx: Context, sourceName: Option<View>, specs: seq<Listener.ClassSpec>,
                                            i: nat, t: Tally, j: nat)
    requires i <= j < |specs| && SpecsSound(specs) && Nameless(specs[j]) && NamedUntil(specs, i, j)
    ensures var r := ClassesFrom(ctx, sourceName, specs, i, t);
      r.1.None? ==> |r.0.errors| > 0 && r.0.errors[|r.0.errors| - 1] == ErrorMessage(MissingClass, None, UNSPECIFIC, UNSPECIFIC)
    decreases j - i
  {
    if i == j {
      var m := ErrorMessage(MissingClass, None, UNSPECIFIC, UNSPECIFIC);
      assert ClassesFrom(ctx, sourceName, specs, i, t).0.errors == t.errors + [m];
    } else {
      assert SpecSound(specs[i]);
      var step := ClassStep(ctx, sourceName, specs[i], t);
      if step.1.None? {
        NamelessReported(ctx, sourceName, specs, i + 1, step.0, j);
      }
    }
  }

  // ---------------------------------------------------------------- assemble()

  /** On a fresh assembler the request ends a Success exactly when nothing was reported, and only then are bytecodes kept. */
  lemma AfterParseSucceedsIffClean(s: AssemblerState, b: Listener.Builder, ctx: Context)
    requires BuilderSound(b) && s.assembledBytecodes.None? && s.haveAssembled
    ensures var (s', r) := AfterParse(s, b, ctx);
      && (r.Ok? ==> (r.value == Success <==> s'.errorMessages == []))
      && (r == Ok(Success) <==> BytecodesOf(s').Ok?)
  {
    var errors := SortByPosition(s.errorMessages + b.errors);
    if errors == [] {
      ClassesFromConsistent(ctx, b.sourceName, b.classSpecs, 0, Tally(errors, [], true));
    }
  }

  /** On a Success every class made one bytecode, named after it, in the classes' order. */
  lemma AfterParseKeepsEveryClass(s: AssemblerState, b: Listener.Builder, ctx: Context)
    requires BuilderSound(b) && AfterParse(s, b, ctx).1 == Ok(Success)
    ensures s.errorMessages == [] && b.errors == []
    ensures var s' := AfterParse(s, b, ctx).0;
      && s'.assembledBytecodes.Some? && |s'.assembledBytecodes.value| == |b.classSpecs|
      && AllNamed(b.classSpecs, 0) && Names(s'.assembledBytecodes.value) == SpecNames(b.classSpecs, 0)
  {
    assert Names([]) == [];
    assert |s.errorMessages + b.errors| == |SortByPosition(s.errorMessages + b.errors)|;
  }

  /** Any diagnostic from before or from the parse fails the assembly before a class is built, with the diagnostics sorted. */
  lemma ParseErrorsFail(s: AssemblerState, b: Listener.Builder, ctx: Context)
    requires BuilderSound(b) && s.errorMessages + b.errors != []
    ensures var (s', r) := AfterParse(s, b, ctx);
      && r == Ok(Failure) && s'.assembledBytecodes == s.assembledBytecodes
      && multiset(s'.errorMessages) == multiset(s.errorMessages + b.errors)
      && SortedByPosition(s'.errorMessages)
  {
    SortPermutes(s.errorMessages + b.errors);
    SortSorts(s.errorMessages + b.errors);
  }

  /** The whole request from a fresh assembler: Success exactly when nothing is reported, and then bytecodes are kept. */
  lemma AssembleSucceedsIffClean(s: AssemblerState, lines: seq<string>, alphabetic: char -> bool, ctx: Context)
    requires !s.haveAssembled && s.assembledBytecodes.None?
    ensures var (s', r) := AssembleSpec(s, lines, alphabetic, ctx);
      && ErrorsOf(s') == Ok(s'.errorMessages)
      && (r.Ok? ==> (r.value == Success <==> s'.errorMessages == []))
      && (r == Ok(Success) <==> BytecodesOf(s').Ok?)
  {
    if ParsePhase(lines, alphabetic).Ok? {
      AfterParseSucceedsIffClean(s.(haveAssembled := true), ParsePhase(lines, alphabetic).value, ctx);
    }
  }

  /** A second request is refused and changes nothing, whatever the first did. */
  lemma OnlyOnce(s: AssemblerState, lines: seq<string>, alphabetic: char -> bool, ctx: Context,
                 lines2: seq<string>, alphabetic2: char -> bool)
    ensures var s' := AssembleSpec(s, lines, alphabetic, ctx).0;
      AssembleSpec(s', lines2, alphabetic2, ctx) == (s', Err(IllegalState("assemble() has already been called")))
  {
  }

  /** Before assemble() both getters refuse with IllegalArgumentException. */
  lemma GettersBeforeAssemble(s: AssemblerState)
    requires !s.haveAssembled
    ensures BytecodesOf(s) == Err(IllegalArgument("getAssembledBytecodes() called before assemble()"))
    ensures ErrorsOf(s) == Err(IllegalArgument("getErrorMessages() called before assemble()"))
  {
  }
}
