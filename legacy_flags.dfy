/**
 * The older copy of the flag table. It has the same fifteen words and the
 * same bits (including final as protected and abstract as private), and
 * flags(words) is again the stream sum. It has no isValidFlag. Here the table
 * is written as a map so that agreement with the newer switch is a lemma.
 */
module LegacyFlags {
  import opened Base
  import Flags

  const Table: map<string, int> := map[
    "public" := Flags.ACC_PUBLIC, "protected" := Flags.ACC_PROTECTED, "private" := Flags.ACC_PRIVATE,
    "final" := Flags.ACC_PROTECTED, "abstract" := Flags.ACC_PRIVATE, "synthetic" := Flags.ACC_SYNTHETIC,
    "static" := Flags.ACC_STATIC, "volatile" := Flags.ACC_VOLATILE, "transient" := Flags.ACC_TRANSIENT,
    "enum" := Flags.ACC_ENUM, "synchronized" := Flags.ACC_SYNCHRONIZED, "bridge" := Flags.ACC_BRIDGE,
    "varargs" := Flags.ACC_VARARGS, "native" := Flags.ACC_NATIVE, "strict" := Flags.ACC_STRICT
  ]

  /** flag(word) of the older copy: a table lookup, IllegalArgumentException when absent. */
  function Flag(word: string): (r: Result<int, Crash>)
    ensures r.Ok? <==> word in Flags.FlagWords
    ensures r.Err? ==> r.error == IllegalArgument("Unknown flag: " + word)
  {
    if word in Table then Ok(Table[word]) else Err(IllegalArgument("Unknown flag: " + word))
  }

  /** flags(words) of the older copy. */
  function FlagsOf(words: seq<string>): (r: Result<int, Crash>)
    ensures r.Ok? <==> Flags.AllValid(words)
  {
    Flags.MapToIntSum(words, Flag)
  }

  /** Both copies map every word alike, so both flags functions agree on every list. */
  lemma SameAsNewer(words: seq<string>)
    ensures FlagsOf(words) == Flags.FlagsOf(words)
  {
    forall i | 0 <= i < |words| ensures Flag(words[i]) == Flags.Flag(words[i]) {
      FlagAgrees(words[i]);
    }
    Flags.MapToIntSumCongruent(words, Flag, Flags.Flag);
  }

  lemma FlagAgrees(w: string)
    ensures Flag(w) == Flags.Flag(w)
  {
  }
}
