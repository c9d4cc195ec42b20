/**
 * StringView: a slice (source, start, end) of a line of assembly text that
 * keeps its offsets, so that diagnostics can point at a column. The record
 * checks only that both ends lie inside the source; an inverted slice
 * (start > end) is representable and behaves as empty.
 */
module StringViews {
  import opened Base
  import opened Chars

  /** How a delimiter search treats double quotes. */
  datatype Quoted =
    | Ignore  // a delimiter between double quotes is not a delimiter
    | Keep    // quotes are ordinary characters

  function Min(a: int, b: int): int { if a < b then a else b }

  /** Number of double-quote characters in s. */
  function QuoteCount(s: string): nat
  {
    if s == [] then 0 else QuoteCount(s[..|s| - 1]) + (if s[|s| - 1] == '"' then 1 else 0)
  }

  /** Without any double quote, no position is inside quotes. */
  lemma {:induction false} QuoteFree(s: string)
    requires forall k :: 0 <= k < |s| ==> s[k] != '"'
    ensures QuoteCount(s) == 0
    ensures forall i :: 0 <= i <= |s| ==> QuoteCount(s[..i]) == 0
  {
    if s != [] {
      QuoteFree(s[..|s| - 1]);
      forall i | 0 <= i <= |s| ensures QuoteCount(s[..i]) == 0 {
        if i < |s| { assert s[..i] == s[..|s| - 1][..i]; } else { assert s[..i] == s; }
      }
    }
  }

  /** Whether position i of s lies inside a "..." run (only when quotes are honoured). */
  predicate InsideQuotes(s: string, q: Quoted, i: nat)
    requires i <= |s|
  {
    q == Ignore && QuoteCount(s[..i]) % 2 == 1
  }

  /** Position i holds the delimiter ch outside any quoted run. */
  predicate DelimiterAt(s: string, ch: char, q: Quoted, i: nat)
    requires i < |s|
  {
    s[i] == ch && !InsideQuotes(s, q, i)
  }

  /** Stepping over one character toggles the quote state exactly at a '"' (under Ignore). */
  lemma InsideStep(s: string, q: Quoted, i: nat)
    requires i < |s|
    ensures InsideQuotes(s, q, i + 1) == (if q == Ignore && s[i] == '"' then !InsideQuotes(s, q, i) else InsideQuotes(s, q, i))
  {
    assert s[..i + 1][..i] == s[..i];
  }

  /** The quote-tracking scan of firstWord/indexOf, from position i with the given quote state. */
  function ScanFrom(s: string, ch: char, q: Quoted, i: nat, inside: bool): (r: int)
    requires i <= |s| && inside == InsideQuotes(s, q, i)
    ensures r == -1 || (i <= r < |s| && DelimiterAt(s, ch, q, r))
    ensures r == -1 ==> forall j :: i <= j < |s| ==> !DelimiterAt(s, ch, q, j)
    ensures r >= 0 ==> forall j :: i <= j < r ==> !DelimiterAt(s, ch, q, j)
    decreases |s| - i
  {
    if i == |s| then -1
    else if s[i] == ch && !inside then i
    else
      InsideStep(s, q, i);
      ScanFrom(s, ch, q, i + 1, if q == Ignore && s[i] == '"' then !inside else inside)
  }

  /** Index of the first delimiter outside quotes, or -1 when there is none. */
  function DelimiterIndex(s: string, ch: char, q: Quoted): (r: int)
    ensures -1 <= r < |s|
    ensures r >= 0 ==> DelimiterAt(s, ch, q, r) && forall j :: 0 <= j < r ==> !DelimiterAt(s, ch, q, j)
    ensures r == -1 <==> forall j :: 0 <= j < |s| ==> !DelimiterAt(s, ch, q, j)
  {
    assert s[..0] == [];
    ScanFrom(s, ch, q, 0, false)
  }

  /** A first delimiter outside quotes is the one DelimiterIndex finds. */
  lemma DelimiterIndexAt(s: string, ch: char, q: Quoted, i: nat)
    requires i < |s| && DelimiterAt(s, ch, q, i)
    requires forall j :: 0 <= j < i ==> !DelimiterAt(s, ch, q, j)
    ensures DelimiterIndex(s, ch, q) == i
  {
  }

  /** Index of the last non-whitespace character of s, or -1. */
  function LastSolid(s: string): (r: int)
    ensures -1 <= r < |s|
    ensures r >= 0 ==> !IsWhitespace(s[r])
    ensures forall j :: r < j < |s| ==> IsWhitespace(s[j])
  {
    if s == [] then -1
    else if !IsWhitespace(s[|s| - 1]) then |s| - 1
    else LastSolid(s[..|s| - 1])
  }

  /** Index of the first non-whitespace character of s, or |s|. */
  function FirstSolid(s: string): (l: nat)
    ensures l <= |s|
    ensures l < |s| ==> !IsWhitespace(s[l])
    ensures forall j :: 0 <= j < l ==> IsWhitespace(s[j])
  {
    if s == [] then 0
    else if !IsWhitespace(s[0]) then 0
    else 1 + FirstSolid(s[1..])
  }

  /** The view constructor: fails unless both ends lie within the source. */
  function Make(source: string, start: int, end: int): (r: Result<View, Crash>)
    ensures r.Ok? <==> 0 <= start <= |source| && 0 <= end <= |source|
    ensures r.Ok? ==> r.value.Valid() && r.value == View(source, start, end)
    ensures r.Err? ==> r.error == StringIndexOutOfBounds
  {
    if 0 <= start <= |source| && 0 <= end <= |source| then Ok(View(source, start, end))
    else Err(StringIndexOutOfBounds)
  }

  /** The text of each view, in order: toString() mapped over a list. */
  function Texts(vs: seq<View>): (r: seq<string>)
    ensures |r| == |vs| && forall i :: 0 <= i < |vs| ==> r[i] == vs[i].Text()
  {
    if vs == [] then [] else [vs[0].Text()] + Texts(vs[1..])
  }

  /** StringView.of: the whole of a string. */
  function Of(source: string): (v: View)
    ensures v.Valid() && v.source == source && v.start == 0 && v.end == |source|
    ensures v.Text() == source && !v.Inverted()
  {
    View(source, 0, |source|)
  }

  datatype View = View(source: string, start: int, end: int)
  {
    /** The bounds the record constructor enforces. */
    predicate Valid()
    {
      0 <= start <= |source| && 0 <= end <= |source|
    }

    predicate Inverted() { start > end }

    function Length(): int { end - start }

    /** isEmpty: start >= end, so an inverted view is empty. */
    predicate IsEmpty() { start >= end }

    /** The characters the view covers (none for an inverted view). */
    function Text(): (s: string)
      ensures Valid() ==> |s| == if Inverted() then 0 else Length()
    {
      if 0 <= start <= end <= |source| then source[start..end] else []
    }

    /** toString: String.substring(start, end), which throws for an inverted view. */
    function ToString(): (r: Result<string, Crash>)
      requires Valid()
      ensures r.Err? <==> Inverted()
      ensures r.Ok? ==> r.value == Text() && |r.value| == Length()
    {
      if start <= end then Ok(source[start..end]) else Err(StringIndexOutOfBounds)
    }

    /**
     * substring(a, b): offsets relative to start, each clamped to the length of
     * the SOURCE (not to this view's end); the constructor then rejects a
     * negative end.
     */
    function Substring(a: int, b: int): (r: Result<View, Crash>)
      requires Valid()
      ensures r.Ok? <==> start + a >= 0 && start + b >= 0
      ensures r.Ok? ==> r.value.Valid() && r.value.source == source
      ensures r.Ok? ==> r.value.start == Min(start + a, |source|) && r.value.end == Min(start + b, |source|)
    {
      Make(source, Min(start + a, |source|), Min(start + b, |source|))
    }

    /** substring(a) == substring(a, length()). */
    function SubstringFrom(a: int): (r: Result<View, Crash>)
      requires Valid()
      ensures r.Ok? <==> start + a >= 0
      ensures r.Ok? ==> r.value.Valid() && r.value.source == source
      ensures r.Ok? ==> r.value.start == Min(start + a, |source|) && r.value.end == end
    {
      Substring(a, Length())
    }

    /** tail(head): what follows head, up to this view's end, in the same source. */
    function Tail(head: View): (r: Result<View, Crash>)
      requires Valid() && head.Valid()
      ensures r.Err? <==> head.source != source
      ensures r.Err? ==> r.error.IllegalArgument?
      ensures r.Ok? ==> r.value.Valid() && r.value == View(source, head.end, end)
    {
      if source != head.source then Err(IllegalArgument("tail() called for StringView on different string"))
      else Make(source, head.end, end)
    }

    /**
     * firstWord(ch, q): the prefix up to the first delimiter outside quotes;
     * the whole view when there is none; the empty view at start when this
     * view is empty.
     */
    function WordBefore(ch: char, q: Quoted): (w: View)
      requires Valid()
      ensures w.Valid() && w.source == source && w.start == start && start <= w.end
      ensures !IsEmpty() ==> w.end <= end
      ensures IsEmpty() ==> w.Text() == []
    {
      if IsEmpty() then View(source, start, start)
      else
        var k := DelimiterIndex(Text(), ch, q);
        if k < 0 then this else View(source, start, start + k)
    }

    /** indexOf(ch, q) as a loop with the quote flag. */
    method IndexOf(ch: char, q: Quoted) returns (r: int)
      requires Valid()
      ensures r == DelimiterIndex(Text(), ch, q)
    {
      ghost var s := Text();
      var insideQuotes := false;
      var i := 0;
      while i < end - start
        invariant 0 <= i <= |s|
        invariant insideQuotes == InsideQuotes(s, q, i)
        invariant forall j :: 0 <= j < i ==> !DelimiterAt(s, ch, q, j)
      {
        var c := source[start + i];
        if c == ch && !insideQuotes {
          DelimiterIndexAt(s, ch, q, i);
          return i;
        } else if q == Ignore && c == '"' {
          insideQuotes := !insideQuotes;
        }
        InsideStep(s, q, i);
        i := i + 1;
      }
      return -1;
    }

    /** indexOf(ch): the quote-unaware search, the first occurrence of ch. */
    method IndexOfChar(ch: char) returns (r: int)
      requires Valid()
      ensures -1 <= r < |Text()|
      ensures r >= 0 ==> Text()[r] == ch && forall j :: 0 <= j < r ==> Text()[j] != ch
      ensures r == -1 <==> forall j :: 0 <= j < |Text()| ==> Text()[j] != ch
      ensures r == DelimiterIndex(Text(), ch, Keep)
    {
      ghost var s := Text();
      var i := 0;
      while i < end - start
        invariant 0 <= i <= |s|
        invariant forall j :: 0 <= j < i ==> s[j] != ch
      {
        if source[start + i] == ch {
          DelimiterIndexAt(s, ch, Keep, i);
          return i;
        }
        i := i + 1;
      }
      return -1;
    }

    /** firstWord(ch, q) as a loop with the quote flag. */
    method FirstWord(ch: char, q: Quoted) returns (w: View)
      requires Valid()
      ensures w == WordBefore(ch, q)
    {
      if start >= end {
        var e := Substring(0, 0);
        return e.value;
      }
      ghost var s := Text();
      var insideQuotes := false;
      var i := 0;
      while i < end - start
        invariant 0 <= i <= |s|
        invariant insideQuotes == InsideQuotes(s, q, i)
        invariant forall j :: 0 <= j < i ==> !DelimiterAt(s, ch, q, j)
      {
        var c := source[start + i];
        if c == ch && !insideQuotes {
          DelimiterIndexAt(s, ch, q, i);
          var p := Substring(0, i);
          return p.value;
        } else if q == Ignore && c == '"' {
          insideQuotes := !insideQuotes;
        }
        InsideStep(s, q, i);
        i := i + 1;
      }
      return this;
    }

    /**
     * trim(): drops leading and trailing whitespace; an all-whitespace view
     * becomes the empty view at start, and an empty or inverted view is
     * returned as it is.
     */
    function Trimmed(): (t: View)
      requires Valid()
      ensures t.Valid() && t.source == source
      ensures IsEmpty() ==> t == this
      ensures !IsEmpty() ==> start <= t.start <= t.end <= end
      ensures !IsEmpty() && IsBlankText(Text()) ==> t.start == t.end == start
      ensures !IsEmpty() && t.start < t.end ==> !IsWhitespace(source[t.start]) && !IsWhitespace(source[t.end - 1])
    {
      if end <= start then this
      else
        var s := Text();
        var r := LastSolid(s);
        if r < 0 then View(source, start, start)
        else View(source, start + FirstSolid(s), start + r + 1)
    }

    /** trim() as the two counter loops of the source. */
    method Trim() returns (t: View)
      requires Valid()
      ensures t == Trimmed()
    {
      ghost var s := Text();
      var n := end - start;
      var r := n - 1;
      while r >= 0 && IsWhitespace(source[start + r])
        invariant r <= n - 1 && (r >= -1 || r == n - 1)
        invariant forall j :: r < j < n ==> IsWhitespace(s[j])
        decreases r + 1
      {
        r := r - 1;
      }
      var l := 0;
      while l < r && IsWhitespace(source[start + l])
        invariant 0 <= l && (l <= r || l == 0)
        invariant forall j :: 0 <= j < l ==> IsWhitespace(s[j])
      {
        l := l + 1;
      }
      if n > 0 {
        TrimCounters(this, l, r);
      }
      return View(source, start + l, start + r + 1);
    }

    /** isBlank(): every character of the view is whitespace. */
    method IsBlank() returns (b: bool)
      requires Valid()
      ensures b <==> IsBlankText(Text())
    {
      ghost var s := Text();
      var i := 0;
      while i < end - start
        invariant 0 <= i && (i <= |s| || i == 0)
        invariant forall j :: 0 <= j < i ==> IsWhitespace(s[j])
      {
        if !IsWhitespace(source[start + i]) {
          return false;
        }
        i := i + 1;
      }
      return true;
    }

    /** The remainder after a word and its delimiter: tail(head).substring(1). */
    function AfterWord(head: View): (r: View)
      requires Valid() && head.Valid() && head.source == source && head.end >= start
      ensures r.Valid() && r.source == source && r.end == end
      ensures r.start == Min(head.end + 1, |source|)
    {
      Tail(head).value.SubstringFrom(1).value
    }

    /** split(ch, q): the successive firstWord segments, each after the previous delimiter. */
    function Words(ch: char, q: Quoted): (ws: seq<View>)
      requires Valid()
      decreases |source| - start
    {
      if IsEmpty() then []
      else
        var head := WordBefore(ch, q);
        [head] + AfterWord(head).Words(ch, q)
    }

    /** split(ch, q) as the source's while loop over a shrinking tail. */
    method Split(ch: char, q: Quoted) returns (words: seq<View>)
      requires Valid()
      ensures words == Words(ch, q)
    {
      ghost var total := Words(ch, q);
      words := [];
      var tail := this;
      assert [] + tail.Words(ch, q) == total;
      while !tail.IsEmpty()
        invariant tail.Valid() && tail.source == source
        invariant words + tail.Words(ch, q) == total
        decreases |source| - tail.start
      {
        var head := tail.FirstWord(ch, q);
        SplitStep(words, tail, ch, q, total);
        words := words + [head];
        tail := tail.AfterWord(head);
      }
      assert words + [] == words;
    }
  }

  lemma AppendAssoc<T>(a: seq<T>, b: T, c: seq<T>)
    ensures a + ([b] + c) == (a + [b]) + c
  {
  }

  /** One iteration of split's loop moves the first word of the tail onto the result. */
  lemma SplitStep(words: seq<View>, t: View, ch: char, q: Quoted, total: seq<View>)
    requires t.Valid() && !t.IsEmpty() && words + t.Words(ch, q) == total
    ensures var head := t.WordBefore(ch, q); var rest := t.AfterWord(head);
      rest.start > t.start && (words + [head]) + rest.Words(ch, q) == total
  {
    var head := t.WordBefore(ch, q);
    var rest := t.AfterWord(head);
    WordsUnfold(t, ch, q);
    AppendAssoc(words, head, rest.Words(ch, q));
  }

  /** One step of split: the first word, then the words of what follows it. */
  lemma WordsUnfold(t: View, ch: char, q: Quoted)
    requires t.Valid() && !t.IsEmpty()
    ensures var head := t.WordBefore(ch, q); var rest := t.Tail(head).value.SubstringFrom(1).value;
      rest.start > t.start && rest.source == t.source
      && t.Words(ch, q) == [head] + rest.Words(ch, q)
  {
  }

  /** Joins the texts of views with ch between consecutive ones. */
  function Join(ws: seq<View>, ch: char): string
  {
    if ws == [] then []
    else if |ws| == 1 then ws[0].Text()
    else ws[0].Text() + [ch] + Join(ws[1..], ch)
  }

  /**
   * firstWord's text is the longest prefix holding no delimiter outside
   * quotes; when it is shorter than the view, such a delimiter follows it.
   */
  lemma WordBeforeText(v: View, ch: char, q: Quoted)
    requires v.Valid()
    ensures var s := v.Text(); var w := v.WordBefore(ch, q); var n := |w.Text()|;
      n <= |s| && w.Text() == s[..n]
      && (forall j :: 0 <= j < n ==> !DelimiterAt(s, ch, q, j))
      && (n < |s| ==> DelimiterAt(s, ch, q, n))
  {
  }

  /** A view's text is its first word, the delimiter, then the text after it. */
  lemma WordSplitsText(v: View, ch: char, q: Quoted)
    requires v.Valid() && !v.IsEmpty()
    ensures var w := v.WordBefore(ch, q);
      if w.end < v.end then v.Text() == w.Text() + [ch] + v.AfterWord(w).Text()
      else v.Text() == w.Text() && v.AfterWord(w).IsEmpty()
  {
    var w := v.WordBefore(ch, q);
    var s := v.Text();
    WordBeforeText(v, ch, q);
    if w.end < v.end {
      var n := |w.Text()|;
      assert DelimiterAt(s, ch, q, n);
      assert s == s[..n] + [s[n]] + s[n + 1..];
    }
  }

  /**
   * Splitting loses nothing but delimiters: joining the segments with the
   * delimiter gives back the text, or the text without one final delimiter.
   */
  lemma {:induction false} SplitJoin(v: View, ch: char, q: Quoted)
    requires v.Valid()
    ensures var ws := v.Words(ch, q);
      Join(ws, ch) == v.Text() || Join(ws, ch) + [ch] == v.Text()
    decreases |v.source| - v.start
  {
    if !v.IsEmpty() {
      var w := v.WordBefore(ch, q);
      var rest := v.AfterWord(w);
      if rest.Words(ch, q) == [] {
        SplitJoinLast(v, ch, q);
      } else {
        SplitJoin(rest, ch, q);
        SplitJoinNext(v, ch, q);
        JoinPrefix(w.Text() + [ch], Join(rest.Words(ch, q), ch), rest.Text(), ch);
      }
    }
  }

  /** Putting the same prefix before both sides keeps the join relation. */
  lemma JoinPrefix(pre: string, joined: string, text: string, ch: char)
    requires joined == text || joined + [ch] == text
    ensures pre + joined == pre + text || (pre + joined) + [ch] == pre + text
  {
    if joined != text {
      assert (pre + joined) + [ch] == pre + (joined + [ch]);
    }
  }

  /** The last segment: what remains after it is empty. */
  lemma SplitJoinLast(v: View, ch: char, q: Quoted)
    requires v.Valid() && !v.IsEmpty()
    requires v.AfterWord(v.WordBefore(ch, q)).Words(ch, q) == []
    ensures Join(v.Words(ch, q), ch) == v.Text() || Join(v.Words(ch, q), ch) + [ch] == v.Text()
  {
    var w := v.WordBefore(ch, q);
    var rest := v.AfterWord(w);
    assert v.Words(ch, q) == [w];
    WordSplitsText(v, ch, q);
    if w.end < v.end {
      assert rest.Text() == [];
    }
  }

  /** A segment followed by more segments contributes its text and one delimiter. */
  lemma SplitJoinNext(v: View, ch: char, q: Quoted)
    requires v.Valid() && !v.IsEmpty()
    requires v.AfterWord(v.WordBefore(ch, q)).Words(ch, q) != []
    ensures var w := v.WordBefore(ch, q); var rest := v.AfterWord(w);
      Join(v.Words(ch, q), ch) == w.Text() + [ch] + Join(rest.Words(ch, q), ch)
      && v.Text() == w.Text() + [ch] + rest.Text()
  {
    var w := v.WordBefore(ch, q);
    var rest := v.AfterWord(w);
    assert v.Words(ch, q) == [w] + rest.Words(ch, q);
    WordSplitsText(v, ch, q);
    JoinCons(w, rest.Words(ch, q), ch);
  }

  lemma JoinCons(w: View, ws: seq<View>, ch: char)
    requires ws != []
    ensures Join([w] + ws, ch) == w.Text() + [ch] + Join(ws, ch)
  {
    assert ([w] + ws)[1..] == ws;
  }

  /** No position of t holds the delimiter outside quotes. */
  predicate NoDelimiter(t: string, ch: char, q: Quoted)
  {
    forall j :: 0 <= j < |t| ==> !DelimiterAt(t, ch, q, j)
  }

  /** The first word holds no delimiter outside quotes, counting quotes from its own start. */
  lemma WordHasNoDelimiter(v: View, ch: char, q: Quoted)
    requires v.Valid()
    ensures NoDelimiter(v.WordBefore(ch, q).Text(), ch, q)
  {
    var s := v.Text();
    var t := v.WordBefore(ch, q).Text();
    WordBeforeText(v, ch, q);
    forall j | 0 <= j < |t|
      ensures !DelimiterAt(t, ch, q, j)
    {
      assert !DelimiterAt(s, ch, q, j);
      assert t[..j] == s[..j];
    }
  }

  /**
   * Segments follow one another: the first starts where the view starts and
   * each next one starts one past the end of the previous one, just after
   * its delimiter.
   */
  lemma {:induction false} SplitAdjacent(v: View, ch: char, q: Quoted)
    requires v.Valid()
    ensures var ws := v.Words(ch, q);
      (|ws| > 0 ==> ws[0].start == v.start)
      && (forall i :: 0 < i < |ws| ==> ws[i].start == ws[i - 1].end + 1)
    decreases |v.source| - v.start
  {
    if !v.IsEmpty() {
      var w := v.WordBefore(ch, q);
      var rest := v.AfterWord(w);
      var rw := rest.Words(ch, q);
      SplitAdjacent(rest, ch, q);
      WordsUnfold(v, ch, q);
      if |rw| > 0 {
        WordSplitsText(v, ch, q);
        assert w.end < v.end;
      }
    }
  }

  /** Segments lie inside the view and hold no delimiter outside quotes. */
  lemma {:induction false} SplitSegments(v: View, ch: char, q: Quoted)
    requires v.Valid()
    ensures var ws := v.Words(ch, q);
      forall i :: 0 <= i < |ws| ==>
        ws[i].Valid() && ws[i].source == v.source && v.start <= ws[i].start <= ws[i].end <= v.end
        && NoDelimiter(ws[i].Text(), ch, q)
    decreases |v.source| - v.start
  {
    if !v.IsEmpty() {
      var w := v.WordBefore(ch, q);
      var rest := v.AfterWord(w);
      SplitSegments(rest, ch, q);
      WordsUnfold(v, ch, q);
      WordHasNoDelimiter(v, ch, q);
      SegmentsCons(v, rest, w, rest.Words(ch, q), ch, q);
    }
  }

  /** A segment inside v followed by segments inside a suffix of v are all inside v. */
  lemma SegmentsCons(v: View, rest: View, w: View, ws: seq<View>, ch: char, q: Quoted)
    requires w.Valid() && w.source == v.source && v.start <= w.start <= w.end <= v.end
    requires NoDelimiter(w.Text(), ch, q)
    requires rest.source == v.source && v.start <= rest.start && rest.end == v.end
    requires forall i :: 0 <= i < |ws| ==>
      ws[i].Valid() && ws[i].source == rest.source && rest.start <= ws[i].start <= ws[i].end <= rest.end
      && NoDelimiter(ws[i].Text(), ch, q)
    ensures forall i :: 0 <= i < |[w] + ws| ==>
      ([w] + ws)[i].Valid() && ([w] + ws)[i].source == v.source && v.start <= ([w] + ws)[i].start <= ([w] + ws)[i].end <= v.end
      && NoDelimiter(([w] + ws)[i].Text(), ch, q)
  {
    forall i | 0 < i < |[w] + ws| ensures ([w] + ws)[i] == ws[i - 1] { }
  }

  /** Within the view's own range, substring(a, b) is the slice a..b of the text. */
  lemma SubstringWithin(v: View, a: int, b: int)
    requires v.Valid() && 0 <= a <= b <= v.Length()
    ensures v.Substring(a, b).Ok?
    ensures v.Substring(a, b).value.Text() == v.Text()[a..b]
  {
  }

  /** The clamp is to the source, so a substring can reach past the view's own end. */
  lemma SubstringClampsToSource()
    ensures View("abcd", 0, 2).Substring(0, 3).value.Text() == "abc"
    ensures View("abcd", 0, 2).Substring(1, 9).value == View("abcd", 1, 4)
  {
  }

  /** A prefix view and its tail together make up the view. */
  lemma TailAfterPrefix(v: View, head: View)
    requires v.Valid() && head.Valid() && head.source == v.source
    requires head.start == v.start && v.start <= head.end <= v.end
    ensures v.Tail(head).Ok?
    ensures v.Text() == head.Text() + v.Tail(head).value.Text()
  {
  }

  /** Trimming yields the text without its leading and trailing whitespace. */
  lemma TrimmedText(v: View)
    requires v.Valid() && !v.IsEmpty()
    ensures var t := v.Trimmed(); var s := v.Text(); var a := t.start - v.start; var b := t.end - v.start;
      0 <= a <= b <= |s| && t.Text() == s[a..b]
      && (forall j :: 0 <= j < a ==> IsWhitespace(s[j]))
      && (forall j :: b <= j < |s| ==> IsWhitespace(s[j]))
      && (a < b ==> !IsWhitespace(s[a]) && !IsWhitespace(s[b - 1]))
  {
    var s := v.Text();
    var r := LastSolid(s);
    if r < 0 {
      assert v.Trimmed() == View(v.source, v.start, v.start);
    } else {
      TrimmedSolidView(v, s, r);
      TrimmedSolid(v, s, r);
    }
  }

  /** The case of TrimmedText where some character is not whitespace. */
  lemma TrimmedSolid(v: View, s: string, r: int)
    requires v.Valid() && !v.IsEmpty() && s == v.Text() && r == LastSolid(s) && r >= 0
    ensures FirstSolid(s) <= r && v.Trimmed().Text() == s[FirstSolid(s)..r + 1]
  {
    TrimmedSolidView(v, s, r);
    FirstSolidBefore(s, r);
    SubviewText(v, v.Trimmed(), FirstSolid(s), r + 1);
  }

  lemma TrimmedSolidView(v: View, s: string, r: int)
    requires v.Valid() && !v.IsEmpty() && s == v.Text() && r == LastSolid(s) && r >= 0
    ensures v.Trimmed() == View(v.source, v.start + FirstSolid(s), v.start + r + 1)
  {
  }

  /** A view over part of another view's range has that part of its text. */
  lemma SubviewText(v: View, t: View, a: nat, b: nat)
    requires v.Valid() && !v.IsEmpty() && a <= b <= |v.Text()| && t == View(v.source, v.start + a, v.start + b)
    ensures t.Text() == v.Text()[a..b]
  {
    SliceOfText(v, a, b);
  }

  /** Nothing before a non-whitespace character is skipped past it. */
  lemma FirstSolidBefore(s: string, r: int)
    requires 0 <= r < |s| && !IsWhitespace(s[r])
    ensures FirstSolid(s) <= r
  {
  }

  lemma SliceOfText(v: View, a: nat, b: nat)
    requires v.Valid() && !v.IsEmpty() && a <= b <= |v.Text()|
    ensures v.source[v.start + a..v.start + b] == v.Text()[a..b]
  {
    assert v.Text() == v.source[v.start..v.end];
  }

  /** Where trim()'s two counter loops stop is where Trimmed cuts the view. */
  lemma TrimCounters(v: View, l: int, r: int)
    requires v.Valid() && !v.IsEmpty()
    requires -1 <= r < v.Length() && (r >= 0 ==> !IsWhitespace(v.source[v.start + r]))
    requires forall j :: r < j < v.Length() ==> IsWhitespace(v.Text()[j])
    requires 0 <= l && (l <= r || l == 0) && (l < r ==> !IsWhitespace(v.source[v.start + l]))
    requires forall j :: 0 <= j < l ==> IsWhitespace(v.Text()[j])
    ensures View(v.source, v.start + l, v.start + r + 1) == v.Trimmed()
  {
    var s := v.Text();
    assert r >= 0 ==> s[r] == v.source[v.start + r];
    assert r == LastSolid(s);
    if r >= 0 {
      assert l < r ==> s[l] == v.source[v.start + l];
      assert l == FirstSolid(s);
    }
  }

  /** Trimming twice is the same as trimming once. */
  lemma TrimIdempotent(v: View)
    requires v.Valid()
    ensures v.Trimmed().Trimmed() == v.Trimmed()
  {
    TrimmedTwice(v, v.Trimmed());
  }

  lemma TrimmedTwice(v: View, t: View)
    requires v.Valid() && t == v.Trimmed()
    ensures t.Trimmed() == t
  {
    if t.IsEmpty() {
    } else {
      TrimSolidEnds(t);
    }
  }

  /** A view whose text starts and ends with non-whitespace is its own trim. */
  lemma TrimSolidEnds(t: View)
    requires t.Valid() && !t.IsEmpty()
    requires !IsWhitespace(t.source[t.start]) && !IsWhitespace(t.source[t.end - 1])
    ensures t.Trimmed() == t
  {
    var s := t.Text();
    assert s[0] == t.source[t.start] && s[|s| - 1] == t.source[t.end - 1];
    assert LastSolid(s) == |s| - 1;
    assert FirstSolid(s) == 0;
  }
}
