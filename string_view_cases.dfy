/**
 * The unit-test cases of the older StringView copy, stated about the model.
 * That copy has the same record, substring, firstWord, trim, tail and split
 * as the newer one, and only the quote-unaware indexOf. Each case takes its
 * text as a parameter fixed by the precondition.
 */
module StringViewCases {
  import opened Base
  import opened Chars
  import opened StringViews

  lemma FirstWordStopsAtSpace(s: string)
    requires s == "abc 123"
    ensures Of(s).WordBefore(' ', Keep).Text() == "abc"
  {
    DelimiterIndexAt(s, ' ', Keep, 3);
  }

  /** Under Ignore the space between the quotes is not a delimiter. */
  lemma FirstWordSkipsQuotedSpace(s: string)
    requires s == "ab\"c 1\"23"
    ensures Of(s).WordBefore(' ', Ignore).Text() == s
  {
    assert s[..4] == "ab\"c";
    assert QuoteCount("ab\"c") == 1 by {
      QuoteFree("ab");
      assert "ab\"c"[..3] == "ab\"" && "ab\""[..2] == "ab";
    }
    forall j | 0 <= j < |s| ensures !DelimiterAt(s, ' ', Ignore, j) {
      assert s[j] == ' ' ==> j == 4;
    }
  }

  lemma FirstWordLeadingSpace(s: string)
    requires s == " abc"
    ensures Of(s).WordBefore(' ', Keep).Text() == ""
  {
    DelimiterIndexAt(s, ' ', Keep, 0);
  }

  /** Under Keep the quote is an ordinary character. */
  lemma FirstWordKeepsQuote(s: string)
    requires s == "ab\"c 1\"23"
    ensures Of(s).WordBefore(' ', Keep).Text() == "ab\"c"
  {
    DelimiterIndexAt(s, ' ', Keep, 4);
  }

  lemma FirstWordOfEmpty(s: string, t: string)
    requires s == "" && t == "abc"
    ensures Of(s).WordBefore(' ', Ignore).Text() == ""
    ensures View(t, 3, 3).WordBefore(' ', Ignore).Text() == ""
  {
  }

  lemma TrimUntouched(s: string)
    requires s == "abc"
    ensures Of(s).Trimmed().Text() == "abc"
  {
    assert !IsWhitespace(s[0]) && !IsWhitespace(s[2]);
    assert LastSolid(s) == 2 && FirstSolid(s) == 0;
  }

  lemma TrimLeading(s: string)
    requires s == " abc"
    ensures Of(s).Trimmed().Text() == "abc"
  {
    assert IsWhitespace(s[0]) && !IsWhitespace(s[1]) && !IsWhitespace(s[3]);
    assert LastSolid(s) == 3 && FirstSolid(s) == 1;
    assert s[1..4] == "abc";
  }

  lemma TrimTrailing(s: string)
    requires s == "abc "
    ensures Of(s).Trimmed().Text() == "abc"
  {
    assert !IsWhitespace(s[0]) && !IsWhitespace(s[2]) && IsWhitespace(s[3]);
    assert LastSolid(s) == 2 && FirstSolid(s) == 0;
    assert s[0..3] == "abc";
  }

  lemma TrimBothEnds(s: string)
    requires s == " abc "
    ensures Of(s).Trimmed().Text() == "abc"
  {
    assert IsWhitespace(s[0]) && !IsWhitespace(s[1]) && !IsWhitespace(s[3]) && IsWhitespace(s[4]);
    assert LastSolid(s) == 3 && FirstSolid(s) == 1;
    assert s[1..4] == "abc";
  }

  lemma TrimBlank(s: string, t: string)
    requires s == "" && t == "     "
    ensures Of(s).Trimmed().Text() == ""
    ensures Of(t).Trimmed().Text() == ""
  {
    assert forall j :: 0 <= j < |t| ==> IsWhitespace(t[j]);
    assert LastSolid(t) == -1;
  }

  lemma TailCase(s: string)
    requires s == "abc 123"
    ensures var v := Of(s); v.Tail(v.WordBefore(' ', Ignore)).value.Text() == " 123"
  {
    QuoteFree(s);
    DelimiterIndexAt(s, ' ', Ignore, 3);
    assert s[3..7] == " 123";
  }

  lemma SplitThreeWords(s: string)
    requires s == "abc 123 xyz"
    ensures |Of(s).Words(' ', Ignore)| == 3
    ensures Of(s).Words(' ', Ignore)[0].Text() == "abc"
    ensures Of(s).Words(' ', Ignore)[1].Text() == "123"
    ensures Of(s).Words(' ', Ignore)[2].Text() == "xyz"
  {
    var v0 := Of(s);
    SampleQuoteFree(s);
    DelimiterIndexAt(s, ' ', Ignore, 3);
    WordsUnfold(v0, ' ', Ignore);
    var v1 := View(s, 4, 11);
    SplitLastTwo(s, v1);
    assert s[0..3] == "abc";
  }

  lemma SampleQuoteFree(s: string)
    requires s == "abc 123 xyz"
    ensures forall i :: 0 <= i <= |s| ==> QuoteCount(s[..i]) == 0
  {
    QuoteFree(s);
  }

  lemma SplitLastTwo(s: string, v1: View)
    requires s == "abc 123 xyz" && v1 == View(s, 4, 11)
    ensures |v1.Words(' ', Ignore)| == 2
    ensures v1.Words(' ', Ignore)[0].Text() == "123"
    ensures v1.Words(' ', Ignore)[1].Text() == "xyz"
  {
    var t := v1.Text();
    assert t == "123 xyz";
    QuoteFree(t);
    DelimiterIndexAt(t, ' ', Ignore, 3);
    WordsUnfold(v1, ' ', Ignore);
    SplitLastOne(s, View(s, 8, 11));
    assert s[4..7] == "123";
  }

  lemma SplitLastOne(s: string, v2: View)
    requires s == "abc 123 xyz" && v2 == View(s, 8, 11)
    ensures v2.Words(' ', Ignore) == [v2] && v2.Text() == "xyz"
  {
    assert s[8..11] == "xyz";
    assert v2.Text() == "xyz";
    assert DelimiterIndex(v2.Text(), ' ', Ignore) == -1;
    WordsUnfold(v2, ' ', Ignore);
  }

  lemma SplitLeadingDelimiter(t: string)
    requires t == " abc"
    ensures |Of(t).Words(' ', Ignore)| == 2
    ensures Of(t).Words(' ', Ignore)[0].Text() == ""
    ensures Of(t).Words(' ', Ignore)[1].Text() == "abc"
  {
    var w0 := Of(t);
    DelimiterIndexAt(t, ' ', Ignore, 0);
    var w1 := View(t, 1, 4);
    WordsUnfold(w0, ' ', Ignore);
    assert w1.Text() == "abc";
    assert DelimiterIndex("abc", ' ', Ignore) == -1;
    WordsUnfold(w1, ' ', Ignore);
  }
}
