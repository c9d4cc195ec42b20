/**
 * Field and method descriptors as the assembler accepts them: the regular
 * expressions (\[)*([BSIJFDCZ]|L[a-zA-Z0-9_/$]+;) and
 * \(((\[)*([BSIJFDCZ]|L[a-zA-Z0-9_/$]+;))*\)(that|V), a subset of the
 * grammars of sections 4.3.2 and 4.3.3 of the Java Virtual Machine
 * Specification, recognised here by recursive descent that builds the type
 * it read.
 */
module Descriptors {
  import opened Base
  import opened Chars

  /** One of B S I J F D C Z. */
  predicate IsBaseTypeChar(c: char)
  {
    c == 'B' || c == 'S' || c == 'I' || c == 'J' || c == 'F' || c == 'D' || c == 'C' || c == 'Z'
  }

  /** The class [a-zA-Z0-9_/$] allowed between L and ;. */
  predicate IsClassChar(c: char)
  {
    IsAsciiLetter(c) || IsDigit(c) || c == '_' || c == '/' || c == '$'
  }

  predicate AllClassChars(s: string)
  {
    forall i :: 0 <= i < |s| ==> IsClassChar(s[i])
  }

  predicate AllBrackets(s: string)
  {
    forall i :: 0 <= i < |s| ==> s[i] == '['
  }

  datatype FieldType = BaseType(code: char) | ObjectType(name: string) | ArrayOf(element: FieldType)

  /** The types the field-descriptor expression describes. */
  predicate WellFormed(t: FieldType)
  {
    match t
    case BaseType(c) => IsBaseTypeChar(c)
    case ObjectType(name) => |name| > 0 && AllClassChars(name)
    case ArrayOf(e) => WellFormed(e)
  }

  function Render(t: FieldType): (s: string)
    ensures |s| > 0
  {
    match t
    case BaseType(c) => [c]
    case ObjectType(name) => "L" + name + ";"
    case ArrayOf(e) => "[" + Render(e)
  }

  /** The first index at or after i that does not hold a class character. */
  function ClassRunEnd(s: string, i: nat): (j: nat)
    requires i <= |s|
    ensures i <= j <= |s|
    ensures AllClassChars(s[i..j])
    ensures j < |s| ==> !IsClassChar(s[j])
    decreases |s| - i
  {
    if i == |s| || !IsClassChar(s[i]) then i
    else
      var j := ClassRunEnd(s, i + 1);
      assert s[i..j] == [s[i]] + s[i + 1..j];
      j
  }

  /** Reads one field type starting at i; the result holds the type and the index after it. */
  function ParseFieldType(s: string, i: nat): (r: Option<(FieldType, nat)>)
    requires i <= |s|
    ensures r.Some? ==> i < r.value.1 <= |s|
    decreases |s| - i
  {
    if i == |s| then None
    else if s[i] == '[' then
      match ParseFieldType(s, i + 1)
      case None => None
      case Some((t, j)) => Some((ArrayOf(t), j))
    else if IsBaseTypeChar(s[i]) then Some((BaseType(s[i]), i + 1))
    else if s[i] == 'L' then
      var j := ClassRunEnd(s, i + 1);
      if j > i + 1 && j < |s| && s[j] == ';' then Some((ObjectType(s[i + 1..j]), j + 1)) else None
    else None
  }

  /** What the descent reads is well formed and spells exactly the text it consumed. */
  lemma {:induction false} ParseFieldTypeSound(s: string, i: nat)
    requires i <= |s| && ParseFieldType(s, i).Some?
    ensures var (t, j) := ParseFieldType(s, i).value; WellFormed(t) && s[i..j] == Render(t)
    decreases |s| - i
  {
    if s[i] == '[' {
      ParseFieldTypeSound(s, i + 1);
      var (t, j) := ParseFieldType(s, i + 1).value;
      assert s[i..j] == [s[i]] + s[i + 1..j];
    } else if s[i] == 'L' {
      var j := ClassRunEnd(s, i + 1);
      assert s[i..j + 1] == "L" + s[i + 1..j] + ";";
    }
  }

  /** A well-formed type is read back whole, whatever text follows it. */
  lemma {:induction false} ParseFieldTypeComplete(t: FieldType, s: string, i: nat)
    requires WellFormed(t) && SpellsAt(s, i, Render(t))
    ensures ParseFieldType(s, i) == Some((t, i + |Render(t)|))
    ensures s[i] != ')'
  {
    assert s[i] == s[i..i + |Render(t)|][0];
    match t
    case BaseType(c) =>
    case ObjectType(name) =>
      ObjectComplete(name, s, i);
    case ArrayOf(e) =>
      SpellsConcat(s, i, "[", Render(e));
      ParseFieldTypeComplete(e, s, i + 1);
  }

  lemma ObjectComplete(name: string, s: string, i: nat)
    requires |name| > 0 && AllClassChars(name) && SpellsAt(s, i, "L" + name + ";")
    ensures ParseFieldType(s, i) == Some((ObjectType(name), i + |name| + 2))
  {
    var w := "L" + name + ";";
    SubSlice(s, i, w, 1, 1 + |name|);
    assert w[1..1 + |name|] == name;
    assert s[i] == w[0] && s[i + 1 + |name|] == w[1 + |name|];
    ClassRunEndAt(s, i + 1, i + 1 + |name|);
  }

  /** A slice of a text that spells w at i spells the matching slice of w. */
  lemma SubSlice(s: string, i: nat, w: string, a: nat, b: nat)
    requires i + |w| <= |s| && s[i..i + |w|] == w && a <= b <= |w|
    ensures s[i + a..i + b] == w[a..b]
  {
    forall k | 0 <= k < b - a
      ensures s[i + a..i + b][k] == w[a..b][k]
    {
      assert w[a + k] == s[i..i + |w|][a + k];
    }
  }

  /** A rendered type starts with '[', 'L' or a base type character. */
  lemma RenderFirst(t: FieldType)
    requires WellFormed(t)
    ensures var c := Render(t)[0]; c == '[' || c == 'L' || IsBaseTypeChar(c)
  {
  }

  /** A run of class characters ended by a non-class character is what ClassRunEnd finds. */
  lemma {:induction false} ClassRunEndAt(s: string, i: nat, j: nat)
    requires i <= j < |s| && !IsClassChar(s[j])
    requires AllClassChars(s[i..j])
    ensures ClassRunEnd(s, i) == j
    decreases j - i
  {
    if i < j {
      assert s[i] == s[i..j][0] && s[i + 1..j] == s[i..j][1..];
      ClassRunEndAt(s, i + 1, j);
    }
  }

  /** parseDescriptor's pattern: the whole text is one field type. */
  function ParseDescriptor(s: string): (r: Option<FieldType>)
    ensures r.Some? ==> WellFormed(r.value) && Render(r.value) == s
  {
    match ParseFieldType(s, 0)
    case Some((t, j)) =>
      if j == |s| then
        ParseFieldTypeSound(s, 0);
        assert s[0..j] == s;
        Some(t)
      else None
    case None => None
  }

  /** Every well-formed type's text is accepted and read back as that type. */
  lemma DescriptorRoundTrip(t: FieldType)
    requires WellFormed(t)
    ensures ParseDescriptor(Render(t)) == Some(t)
  {
    var s := Render(t);
    assert s[0..|s|] == s;
    assert SpellsAt(s, 0, s);
    ParseFieldTypeComplete(t, s, 0);
  }

  /**
   * The regular expression written out: leading brackets, then one base
   * type character, or L, one or more class characters and ;.
   */
  predicate MatchesFieldPattern(s: string)
  {
    exists k :: 0 <= k < |s| && AllBrackets(s[..k]) && IsElementText(s[k..])
  }

  predicate IsElementText(e: string)
  {
    (|e| == 1 && IsBaseTypeChar(e[0]))
    || (|e| >= 3 && e[0] == 'L' && e[|e| - 1] == ';' && AllClassChars(e[1..|e| - 1]))
  }

  /** The recogniser accepts exactly the texts the regular expression matches. */
  lemma DescriptorMatchesPattern(s: string)
    ensures ParseDescriptor(s).Some? <==> MatchesFieldPattern(s)
  {
    if ParseDescriptor(s).Some? {
      var t := ParseDescriptor(s).value;
      RenderMatches(t);
    }
    if MatchesFieldPattern(s) {
      var k :| 0 <= k < |s| && AllBrackets(s[..k]) && IsElementText(s[k..]);
      var t := FromPattern(s, k);
      DescriptorRoundTrip(t);
    }
  }

  /** Rendering a well-formed type gives a text of the pattern's shape. */
  lemma {:induction false} RenderMatches(t: FieldType)
    requires WellFormed(t)
    ensures MatchesFieldPattern(Render(t))
  {
    var s := Render(t);
    match t
    case BaseType(c) =>
      assert AllBrackets(s[..0]) && s[0..] == s;
    case ObjectType(name) =>
      assert s[1..|s| - 1] == name;
      assert AllBrackets(s[..0]) && s[0..] == s;
    case ArrayOf(e) =>
      RenderMatches(e);
      BracketMatches(Render(e));
  }

  /** One more bracket in front of a text of the pattern's shape keeps that shape. */
  lemma BracketMatches(r: string)
    requires MatchesFieldPattern(r)
    ensures MatchesFieldPattern("[" + r)
  {
    var s := "[" + r;
    var k :| 0 <= k < |r| && AllBrackets(r[..k]) && IsElementText(r[k..]);
    assert s[..k + 1] == "[" + r[..k];
    assert s[k + 1..] == r[k..];
  }

  /** A text of the pattern's shape is the rendering of a well-formed type. */
  function FromPattern(s: string, k: nat): (t: FieldType)
    requires k < |s| && AllBrackets(s[..k]) && IsElementText(s[k..])
    ensures WellFormed(t) && Render(t) == s
    decreases k
  {
    if k == 0 then
      assert s[0..] == s;
      if |s| == 1 then BaseType(s[0])
      else
        assert s == "L" + s[1..|s| - 1] + ";";
        ObjectType(s[1..|s| - 1])
    else
      assert s[..k - 1] == s[1..][..k - 1] && s[k..] == s[1..][k - 1..];
      var e := FromPattern(s[1..], k - 1);
      assert s == [s[0]] + s[1..];
      assert s[0] == s[..k][0];
      ArrayOf(e)
  }

  /** A method type; a missing result is the void return V. */
  datatype MethodType = MethodType(parameters: seq<FieldType>, result: Option<FieldType>)

  predicate WellFormedMethod(m: MethodType)
  {
    (forall i :: 0 <= i < |m.parameters| ==> WellFormed(m.parameters[i]))
    && (m.result.Some? ==> WellFormed(m.result.value))
  }

  function RenderAll(ts: seq<FieldType>): string
  {
    if ts == [] then "" else Render(ts[0]) + RenderAll(ts[1..])
  }

  function RenderMethod(m: MethodType): string
  {
    "(" + RenderAll(m.parameters) + ")" + (if m.result.None? then "V" else Render(m.result.value))
  }

  /** Field types up to the closing parenthesis; the index returned is that of the ')'. */
  function ParseParameters(s: string, i: nat): (r: Option<(seq<FieldType>, nat)>)
    requires i <= |s|
    ensures r.Some? ==> i <= r.value.1 < |s| && s[r.value.1] == ')'
    decreases |s| - i
  {
    if i == |s| then None
    else if s[i] == ')' then Some(([], i))
    else
      match ParseFieldType(s, i)
      case None => None
      case Some((t, j)) =>
        match ParseParameters(s, j)
        case None => None
        case Some((ts, k)) => Some(([t] + ts, k))
  }

  lemma {:induction false} ParseParametersSound(s: string, i: nat)
    requires i <= |s| && ParseParameters(s, i).Some?
    ensures var (ts, k) := ParseParameters(s, i).value;
      (forall n :: 0 <= n < |ts| ==> WellFormed(ts[n])) && s[i..k] == RenderAll(ts)
    decreases |s| - i
  {
    if s[i] != ')' {
      ParseFieldTypeSound(s, i);
      var (t, j) := ParseFieldType(s, i).value;
      ParseParametersSound(s, j);
      var (ts, k) := ParseParameters(s, j).value;
      assert ([t] + ts)[1..] == ts;
      assert s[i..k] == s[i..j] + s[j..k];
    }
  }

  /** s holds the text w at index i. */
  predicate SpellsAt(s: string, i: nat, w: string)
  {
    i + |w| <= |s| && s[i..i + |w|] == w
  }

  lemma SpellsConcat(s: string, i: nat, a: string, b: string)
    requires SpellsAt(s, i, a + b)
    ensures SpellsAt(s, i, a) && SpellsAt(s, i + |a|, b)
  {
    SubSlice(s, i, a + b, 0, |a|);
    assert (a + b)[0..|a|] == a;
    SubSlice(s, i, a + b, |a|, |a| + |b|);
    assert (a + b)[|a|..|a| + |b|] == b;
  }

  lemma {:induction false} ParseParametersComplete(ts: seq<FieldType>, s: string, i: nat)
    requires forall n :: 0 <= n < |ts| ==> WellFormed(ts[n])
    requires SpellsAt(s, i, RenderAll(ts)) && i + |RenderAll(ts)| < |s|
    requires s[i + |RenderAll(ts)|] == ')'
    ensures ParseParameters(s, i) == Some((ts, i + |RenderAll(ts)|))
    decreases |ts|, 1
  {
    if ts != [] {
      ParametersNonEmpty(ts, s, i);
    }
  }

  /** The step of the above for a non-empty list: the first type, then the rest. */
  lemma {:induction false} ParametersNonEmpty(ts: seq<FieldType>, s: string, i: nat)
    requires ts != [] && forall n :: 0 <= n < |ts| ==> WellFormed(ts[n])
    requires SpellsAt(s, i, RenderAll(ts)) && i + |RenderAll(ts)| < |s|
    requires s[i + |RenderAll(ts)|] == ')'
    ensures ParseParameters(s, i) == Some((ts, i + |RenderAll(ts)|))
    decreases |ts|, 0
  {
    var r := Render(ts[0]);
    var rest := RenderAll(ts[1..]);
    assert RenderAll(ts) == r + rest;
    SpellsConcat(s, i, r, rest);
    ParseParametersComplete(ts[1..], s, i + |r|);
    ParametersCons(s, i, ts, i + |r| + |rest|);
  }

  /** A well-formed first type, then parameters read from where it ends. */
  lemma ParametersCons(s: string, i: nat, ts: seq<FieldType>, k: nat)
    requires ts != [] && WellFormed(ts[0]) && SpellsAt(s, i, Render(ts[0]))
    requires i + |Render(ts[0])| <= |s| && ParseParameters(s, i + |Render(ts[0])|) == Some((ts[1..], k))
    ensures ParseParameters(s, i) == Some((ts, k))
  {
    ParseFieldTypeComplete(ts[0], s, i);
    ParametersStep(s, i, ts[0], i + |Render(ts[0])|, ts[1..], k);
    assert [ts[0]] + ts[1..] == ts;
  }

  lemma ParametersStep(s: string, i: nat, t: FieldType, j: nat, ts: seq<FieldType>, k: nat)
    requires i < j <= |s| && s[i] != ')'
    requires ParseFieldType(s, i) == Some((t, j)) && ParseParameters(s, j) == Some((ts, k))
    ensures ParseParameters(s, i) == Some(([t] + ts, k))
  {
  }

  /** parseMethodDescriptor's pattern: parenthesised parameter types, then a type or V. */
  function ParseMethodDescriptor(s: string): (r: Option<MethodType>)
    ensures r.Some? ==> WellFormedMethod(r.value) && RenderMethod(r.value) == s
  {
    if |s| == 0 || s[0] != '(' then None
    else
      match ParseParameters(s, 1)
      case None => None
      case Some((ts, k)) =>
        ParseParametersSound(s, 1);
        var after := s[k + 1..];
        assert s == "(" + s[1..k] + ")" + after;
        if after == "V" then Some(MethodType(ts, None))
        else
          match ParseDescriptor(after)
          case Some(t) => Some(MethodType(ts, Some(t)))
          case None => None
  }

  /** Every well-formed method type's text is accepted and read back as that type. */
  lemma MethodDescriptorRoundTrip(m: MethodType)
    requires WellFormedMethod(m)
    ensures ParseMethodDescriptor(RenderMethod(m)) == Some(m)
  {
    var s := RenderMethod(m);
    var body := RenderAll(m.parameters);
    var ret := if m.result.None? then "V" else Render(m.result.value);
    assert s == "(" + body + ")" + ret;
    assert s[1..1 + |body|] == body;
    assert SpellsAt(s, 1, body);
    ParseParametersComplete(m.parameters, s, 1);
    assert s[|body| + 2..] == ret;
    if m.result.Some? {
      DescriptorRoundTrip(m.result.value);
      RenderFirst(m.result.value);
      assert ret[0] != 'V';
    }
  }

  /** The parameter part of the method expression: field-pattern texts back to back, possibly none. */
  predicate MatchesParameterPattern(p: string)
    decreases |p|
  {
    p == [] || exists k :: 0 < k <= |p| && MatchesFieldPattern(p[..k]) && MatchesParameterPattern(p[k..])
  }

  /** The method expression written out: '(', the parameter part, ')', then a field-pattern text or V. */
  predicate MatchesMethodPattern(s: string)
  {
    exists k :: 0 < k < |s| && s[0] == '(' && s[k] == ')' && MatchesParameterPattern(s[1..k])
                && (s[k + 1..] == "V" || MatchesFieldPattern(s[k + 1..]))
  }

  /** The renderings of well-formed types, back to back, match the parameter part. */
  lemma {:induction false} RenderAllMatches(ts: seq<FieldType>)
    requires forall i :: 0 <= i < |ts| ==> WellFormed(ts[i])
    ensures MatchesParameterPattern(RenderAll(ts))
    decreases |ts|
  {
    if ts != [] {
      var p := RenderAll(ts);
      var h := Render(ts[0]);
      RenderMatches(ts[0]);
      assert forall i :: 0 <= i < |ts[1..]| ==> WellFormed(ts[1..][i]) by {
        forall i | 0 <= i < |ts[1..]| ensures WellFormed(ts[1..][i]) { assert ts[1..][i] == ts[i + 1]; }
      }
      RenderAllMatches(ts[1..]);
      assert p[..|h|] == h && p[|h|..] == RenderAll(ts[1..]);
    }
  }

  /** A text of the field pattern's shape is the rendering of a well-formed type. */
  ghost function FieldOfPattern(e: string): (t: FieldType)
    requires MatchesFieldPattern(e)
    ensures WellFormed(t) && Render(t) == e
  {
    var k :| 0 <= k < |e| && AllBrackets(e[..k]) && IsElementText(e[k..]);
    FromPattern(e, k)
  }

  /** A text of the parameter part's shape is the rendering of well-formed types. */
  ghost function TypesOfPattern(p: string): (ts: seq<FieldType>)
    requires MatchesParameterPattern(p)
    ensures (forall i :: 0 <= i < |ts| ==> WellFormed(ts[i])) && RenderAll(ts) == p
    decreases |p|
  {
    if p == [] then []
    else
      var k :| 0 < k <= |p| && MatchesFieldPattern(p[..k]) && MatchesParameterPattern(p[k..]);
      var t := FieldOfPattern(p[..k]);
      var rest := TypesOfPattern(p[k..]);
      RenderCons(t, rest, p, k);
      [t] + rest
  }

  /** A well-formed type rendered as a prefix, before well-formed types rendered as the rest. */
  lemma RenderCons(t: FieldType, rest: seq<FieldType>, p: string, k: nat)
    requires k <= |p| && WellFormed(t) && Render(t) == p[..k]
    requires (forall i :: 0 <= i < |rest| ==> WellFormed(rest[i])) && RenderAll(rest) == p[k..]
    ensures (forall i :: 0 <= i < |[t] + rest| ==> WellFormed(([t] + rest)[i])) && RenderAll([t] + rest) == p
  {
    assert ([t] + rest)[0] == t && ([t] + rest)[1..] == rest;
    assert p == p[..k] + p[k..];
    assert forall i :: 0 < i < |[t] + rest| ==> ([t] + rest)[i] == rest[i - 1];
  }

  /** The method recogniser accepts exactly the texts the method expression matches. */
  lemma MethodDescriptorMatchesPattern(s: string)
    ensures ParseMethodDescriptor(s).Some? <==> MatchesMethodPattern(s)
  {
    if ParseMethodDescriptor(s).Some? {
      RenderedMethodMatches(ParseMethodDescriptor(s).value);
    }
    if MatchesMethodPattern(s) {
      MatchedMethodParses(s);
    }
  }

  /** The rendering of a well-formed method type matches the method expression. */
  lemma RenderedMethodMatches(m: MethodType)
    requires WellFormedMethod(m)
    ensures MatchesMethodPattern(RenderMethod(m))
  {
    var s := RenderMethod(m);
    var body := RenderAll(m.parameters);
    var ret := if m.result.None? then "V" else Render(m.result.value);
    var k := |body| + 1;
    assert s == "(" + body + ")" + ret;
    assert s[1..k] == body && s[k] == ')' && s[k + 1..] == ret;
    RenderAllMatches(m.parameters);
    if m.result.Some? {
      RenderMatches(m.result.value);
    }
  }

  /** A text the method expression matches is accepted by the method recogniser. */
  lemma MatchedMethodParses(s: string)
    requires MatchesMethodPattern(s)
    ensures ParseMethodDescriptor(s).Some?
  {
    var k :| 0 < k < |s| && s[0] == '(' && s[k] == ')' && MatchesParameterPattern(s[1..k])
             && (s[k + 1..] == "V" || MatchesFieldPattern(s[k + 1..]));
    var ts := TypesOfPattern(s[1..k]);
    var result := if s[k + 1..] == "V" then None else Some(FieldOfPattern(s[k + 1..]));
    var m := MethodType(ts, result);
    Parenthesised(s, k);
    assert RenderMethod(m) == s;
    MethodDescriptorRoundTrip(m);
  }

  /** A text opening with '(' and holding ')' at k is the part between them, parenthesised, then the rest. */
  lemma Parenthesised(s: string, k: nat)
    requires 0 < k < |s| && s[0] == '(' && s[k] == ')'
    ensures s == "(" + s[1..k] + ")" + s[k + 1..]
  {
    var t := "(" + s[1..k] + ")" + s[k + 1..];
    assert |t| == |s|;
    forall i | 0 <= i < |s| ensures t[i] == s[i] {
      if 0 < i < k {
        assert t[i] == s[1..k][i - 1];
      } else if i > k {
        assert t[i] == s[k + 1..][i - k - 1];
      }
    }
  }

  lemma ExampleDescriptorsAccepted(a: string, b: string)
    requires a == "[[I" && b == "LA/b;"
    ensures ParseDescriptor(a) == Some(ArrayOf(ArrayOf(BaseType('I'))))
    ensures ParseDescriptor(b) == Some(ObjectType("A/b"))
  {
    DescriptorRoundTrip(ArrayOf(ArrayOf(BaseType('I'))));
    assert Render(ArrayOf(ArrayOf(BaseType('I')))) == a;
    DescriptorRoundTrip(ObjectType("A/b"));
    assert Render(ObjectType("A/b")) == b;
  }

  /** An empty class name and the void type are not field descriptors. */
  lemma ExampleDescriptorsRejected(c: string, d: string)
    requires c == "L;" && d == "V"
    ensures ParseDescriptor(c) == None
    ensures ParseDescriptor(d) == None
  {
    assert ClassRunEnd(c, 1) == 1;
  }
}
