/**
 * Access flags: the mapping from flag words to the access-flag bits of the
 * class-file format (table 4.1-B, 4.5-A and 4.6-A of the Java Virtual
 * Machine Specification) and the sum of a list of them, as a 32-bit Java int.
 * As written, "final" maps to ACC_PROTECTED and "abstract" to ACC_PRIVATE.
 */
module Flags {
  import opened Base
  import opened Chars

  const ACC_PUBLIC: int := 0x0001
  const ACC_PRIVATE: int := 0x0002
  const ACC_PROTECTED: int := 0x0004
  const ACC_STATIC: int := 0x0008
  const ACC_FINAL: int := 0x0010
  const ACC_SYNCHRONIZED: int := 0x0020
  const ACC_VOLATILE: int := 0x0040
  const ACC_BRIDGE: int := 0x0040
  const ACC_TRANSIENT: int := 0x0080
  const ACC_VARARGS: int := 0x0080
  const ACC_NATIVE: int := 0x0100
  const ACC_INTERFACE: int := 0x0200
  const ACC_ABSTRACT: int := 0x0400
  const ACC_STRICT: int := 0x0800
  const ACC_SYNTHETIC: int := 0x1000
  const ACC_ENUM: int := 0x4000

  /** The fifteen flag words the switch knows. */
  const FlagWords: set<string> := {
    "public", "protected", "private", "final", "abstract", "synthetic", "static", "volatile",
    "transient", "enum", "synchronized", "bridge", "varargs", "native", "strict"
  }

  /** flag(word): the bit for a known word; IllegalArgumentException for any other. */
  function Flag(word: string): (r: Result<int, Crash>)
    ensures r.Ok? <==> word in FlagWords
    ensures r.Err? ==> r.error == IllegalArgument("Unknown flag: " + word)
  {
    match word
    case "public" => Ok(ACC_PUBLIC)
    case "protected" => Ok(ACC_PROTECTED)
    case "private" => Ok(ACC_PRIVATE)
    case "final" => Ok(ACC_PROTECTED)
    case "abstract" => Ok(ACC_PRIVATE)
    case "synthetic" => Ok(ACC_SYNTHETIC)
    case "static" => Ok(ACC_STATIC)
    case "volatile" => Ok(ACC_VOLATILE)
    case "transient" => Ok(ACC_TRANSIENT)
    case "enum" => Ok(ACC_ENUM)
    case "synchronized" => Ok(ACC_SYNCHRONIZED)
    case "bridge" => Ok(ACC_BRIDGE)
    case "varargs" => Ok(ACC_VARARGS)
    case "native" => Ok(ACC_NATIVE)
    case "strict" => Ok(ACC_STRICT)
    case _ => Err(IllegalArgument("Unknown flag: " + word))
  }

  /** isValidFlag: whether flag(word) returns rather than throws. */
  function IsValidFlag(word: string): (b: bool)
    ensures b <==> word in FlagWords
  {
    Flag(word).Ok?
  }

  predicate AllValid(words: seq<string>)
  {
    forall i :: 0 <= i < |words| ==> words[i] in FlagWords
  }

  /** f returns, rather than throws, on every element. */
  predicate Defined(words: seq<string>, f: string -> Result<int, Crash>)
  {
    forall i :: 0 <= i < |words| ==> f(words[i]).Ok?
  }

  /** Two's-complement wrap-around of an int addition in Java. */
  function Wrap32(x: int): (r: int)
    ensures IsInt32(r)
    ensures IsInt32(x) ==> r == x
  {
    (x - MinInt32) % 0x1_0000_0000 + MinInt32
  }

  /** Wrapping an intermediate sum does not change the wrapped total. */
  lemma WrapAdd(a: int, b: int)
    ensures Wrap32(a + Wrap32(b)) == Wrap32(a + b)
  {
    var m := 0x1_0000_0000;
    var k := (b - MinInt32) / m;
    assert Wrap32(b) == b - k * m;
    assert a + Wrap32(b) - MinInt32 == (a + b - MinInt32) - k * m;
  }

  /**
   * stream().mapToInt(f).sum(): the sum of f over the list in order, with
   * Java's wrap-around at every addition; the first element whose f throws
   * ends it.
   */
  function MapToIntSum(words: seq<string>, f: string -> Result<int, Crash>): (r: Result<int, Crash>)
    ensures r.Ok? <==> Defined(words, f)
    ensures r.Err? ==> exists i :: 0 <= i < |words| && f(words[i]) == Err(r.error)
  {
    if words == [] then Ok(0)
    else
      var first := f(words[0]);
      if first.Err? then Err(first.error)
      else
        var rest := MapToIntSum(words[1..], f);
        if rest.Err? then Err(rest.error) else Ok(Wrap32(first.value + rest.value))
  }

  /** Functions that agree on the elements give the same sum. */
  lemma {:induction false} MapToIntSumCongruent(words: seq<string>, f: string -> Result<int, Crash>, g: string -> Result<int, Crash>)
    requires forall i :: 0 <= i < |words| ==> f(words[i]) == g(words[i])
    ensures MapToIntSum(words, f) == MapToIntSum(words, g)
  {
    if words != [] {
      MapToIntSumCongruent(words[1..], f, g);
    }
  }

  /** The unbounded sum of the values, for a list on which f is defined throughout. */
  function PlainSum(words: seq<string>, f: string -> Result<int, Crash>): int
    requires Defined(words, f)
  {
    if words == [] then 0 else f(words[0]).value + PlainSum(words[1..], f)
  }

  /** The stepwise wrapped sum is the unbounded sum wrapped once. */
  lemma {:induction false} MapToIntSumIsWrappedSum(words: seq<string>, f: string -> Result<int, Crash>)
    requires Defined(words, f)
    ensures MapToIntSum(words, f) == Ok(Wrap32(PlainSum(words, f)))
  {
    if words != [] {
      MapToIntSumIsWrappedSum(words[1..], f);
      WrapAdd(f(words[0]).value, PlainSum(words[1..], f));
    }
  }

  lemma {:induction false} PlainSumAppend(a: seq<string>, b: seq<string>, f: string -> Result<int, Crash>)
    requires Defined(a, f)
    requires Defined(b, f)
    ensures Defined(a + b, f)
    ensures PlainSum(a + b, f) == PlainSum(a, f) + PlainSum(b, f)
  {
    if a == [] {
      assert a + b == b;
    } else {
      PlainSumAppend(a[1..], b, f);
      assert (a + b)[1..] == a[1..] + b;
    }
  }

  /** The first failure, in list order, is the one reported. */
  lemma {:induction false} MapToIntSumFirstFailure(words: seq<string>, f: string -> Result<int, Crash>, k: nat)
    requires k < |words| && f(words[k]).Err?
    requires forall i :: 0 <= i < k ==> f(words[i]).Ok?
    ensures MapToIntSum(words, f) == Err(f(words[k]).error)
  {
    if k > 0 {
      MapToIntSumFirstFailure(words[1..], f, k - 1);
    }
  }

  /** A permutation of a list on which f is defined is one on which f is defined. */
  lemma DefinedOnPermutation(a: seq<string>, b: seq<string>, f: string -> Result<int, Crash>)
    requires multiset(a) == multiset(b)
    requires Defined(a, f)
    ensures Defined(b, f)
  {
    forall i | 0 <= i < |b| ensures f(b[i]).Ok? {
      assert b[i] in multiset(a);
      var j :| 0 <= j < |a| && a[j] == b[i];
    }
  }

  /** Taking out the element at k takes its value out of the sum. */
  lemma PlainSumRemove(b: seq<string>, k: nat, f: string -> Result<int, Crash>)
    requires k < |b| && Defined(b, f)
    ensures Defined(b[..k] + b[k + 1..], f)
    ensures PlainSum(b, f) == f(b[k]).value + PlainSum(b[..k] + b[k + 1..], f)
  {
    DefinedSlice(b, 0, k, f);
    DefinedSlice(b, k, |b|, f);
    DefinedSlice(b, k + 1, |b|, f);
    assert b == b[..k] + b[k..];
    PlainSumAppend(b[..k], b[k..], f);
    assert b[k..][1..] == b[k + 1..];
    PlainSumAppend(b[..k], b[k + 1..], f);
  }

  lemma DefinedSlice(b: seq<string>, i: nat, j: nat, f: string -> Result<int, Crash>)
    requires i <= j <= |b| && Defined(b, f)
    ensures Defined(b[i..j], f)
  {
    forall n | 0 <= n < j - i ensures f(b[i..j][n]).Ok? {
      assert b[i..j][n] == b[i + n];
    }
  }

  /** Taking out the element at k takes one occurrence of it out of the multiset. */
  lemma RemoveAt(b: seq<string>, k: nat)
    requires k < |b|
    ensures multiset(b[..k] + b[k + 1..]) == multiset(b) - multiset{b[k]}
  {
    assert b == b[..k] + [b[k]] + b[k + 1..];
  }

  /** The unbounded sum does not depend on the order of the elements. */
  lemma {:induction false} PlainSumPermutation(a: seq<string>, b: seq<string>, f: string -> Result<int, Crash>)
    requires multiset(a) == multiset(b)
    requires Defined(a, f)
    ensures Defined(b, f)
    ensures PlainSum(a, f) == PlainSum(b, f)
    decreases |a|
  {
    DefinedOnPermutation(a, b, f);
    if a == [] {
      assert b == [];
    } else {
      assert a[0] in multiset(b);
      var k :| 0 <= k < |b| && b[k] == a[0];
      var rest := b[..k] + b[k + 1..];
      RemoveAt(b, k);
      RemoveAt(a, 0);
      assert a[..0] + a[1..] == a[1..];
      PlainSumRemove(b, k, f);
      PlainSumPermutation(a[1..], rest, f);
    }
  }

  /** flags(words): the sum of flag over the words; the first unknown word is the one reported. */
  function FlagsOf(words: seq<string>): (r: Result<int, Crash>)
    ensures r.Ok? <==> AllValid(words)
    ensures r.Ok? ==> IsInt32(r.value)
  {
    MapToIntSum(words, Flag)
  }

  /** An unknown word makes flags throw, naming the first unknown word. */
  lemma FlagsOfUnknown(words: seq<string>, k: nat)
    requires k < |words| && words[k] !in FlagWords
    requires forall i :: 0 <= i < k ==> words[i] in FlagWords
    ensures FlagsOf(words) == Err(IllegalArgument("Unknown flag: " + words[k]))
  {
    MapToIntSumFirstFailure(words, Flag, k);
  }

  /** flags is independent of the order of the words. */
  lemma FlagsOfPermutation(a: seq<string>, b: seq<string>)
    requires multiset(a) == multiset(b) && AllValid(a)
    ensures FlagsOf(a) == FlagsOf(b)
  {
    PlainSumPermutation(a, b, Flag);
    MapToIntSumIsWrappedSum(a, Flag);
    MapToIntSumIsWrappedSum(b, Flag);
  }

  /** flags over a concatenation is the wrapped sum of the two parts. */
  lemma FlagsOfAppend(a: seq<string>, b: seq<string>)
    requires AllValid(a) && AllValid(b)
    ensures FlagsOf(a + b) == Ok(Wrap32(FlagsOf(a).value + FlagsOf(b).value))
  {
    AllValidDefined(a);
    AllValidDefined(b);
    AllValidDefined(a + b);
    PlainSumAppend(a, b, Flag);
    var pa, pb, pab := PlainSum(a, Flag), PlainSum(b, Flag), PlainSum(a + b, Flag);
    MapToIntSumIsWrappedSum(a, Flag);
    MapToIntSumIsWrappedSum(b, Flag);
    MapToIntSumIsWrappedSum(a + b, Flag);
    WrappedResults(FlagsOf(a), FlagsOf(b), FlagsOf(a + b), pa, pb, pab);
  }

  lemma AllValidDefined(words: seq<string>)
    requires AllValid(words)
    ensures Defined(words, Flag)
  {
    forall i | 0 <= i < |words| ensures Flag(words[i]).Ok? {
      assert words[i] in FlagWords;
    }
  }

  /** Three wrapped results whose unbounded sums add up are related by one wrapped addition. */
  lemma WrappedResults(ra: Result<int, Crash>, rb: Result<int, Crash>, rab: Result<int, Crash>, pa: int, pb: int, pab: int)
    requires ra == Ok(Wrap32(pa)) && rb == Ok(Wrap32(pb)) && rab == Ok(Wrap32(pab)) && pab == pa + pb
    ensures rab == Ok(Wrap32(ra.value + rb.value))
  {
    WrapBoth(pa, pb, pab);
  }

  /** Wrapping both addends first does not change the wrapped sum. */
  lemma WrapBoth(x: int, y: int, z: int)
    requires z == x + y
    ensures Wrap32(Wrap32(x) + Wrap32(y)) == Wrap32(z)
  {
    var wx := Wrap32(x);
    WrapAdd(wx, y);
    assert Wrap32(wx + Wrap32(y)) == Wrap32(wx + y);
    WrapAdd(y, x);
    assert wx + y == y + wx && y + x == z;
  }

  /** As written: "final" and "abstract" give the bits of protected and private. */
  lemma FinalAndAbstractAsWritten()
    ensures Flag("final") == Ok(ACC_PROTECTED) && Flag("final") != Ok(ACC_FINAL)
    ensures Flag("abstract") == Ok(ACC_PRIVATE) && Flag("abstract") != Ok(ACC_ABSTRACT)
  {
  }

  /** A repeated word is added twice: "protected final" sums to the bit of static. */
  lemma RepeatedBitsAdd(a: seq<string>, b: seq<string>)
    requires a == ["protected", "final"] && b == ["public", "public"]
    ensures FlagsOf(a) == Ok(ACC_STATIC)
    ensures FlagsOf(b) == Ok(ACC_PRIVATE)
  {
    assert a[1..] == ["final"] && a[1..][1..] == [];
    assert MapToIntSum(a[1..], Flag) == Ok(ACC_PROTECTED);
    assert b[1..] == ["public"] && b[1..][1..] == [];
    assert MapToIntSum(b[1..], Flag) == Ok(ACC_PUBLIC);
  }

  lemma FlagsOfEmpty()
    ensures FlagsOf([]) == Ok(0)
  {
  }
}
