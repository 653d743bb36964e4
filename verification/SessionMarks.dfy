/** Which simple queries leave session state behind (internal/proxy/backend.go), in terms of the text in
    capitals behind leading spaces and comments. */
module SessionMarks {
  import opened SqlText
  import Router
  import TransactionText
  import Turns

  predicate Letters(word: string) {
    forall i | 0 <= i < |word| :: 'A' <= word[i] <= 'Z'
  }

  lemma FoldIsUpper(s: string, word: string)
    requires Letters(word)
    ensures Router.EqualFold(s, word) <==> word <= Upper(s)
  {
    hide Router.Fold, UpperChar;
    if Router.EqualFold(s, word) {
      forall i | 0 <= i < |word| ensures word[i] == Upper(s)[i] { Router.FoldLetter(s[i], word[i]); }
    }
    if word <= Upper(s) { TransactionText.UpperEqualFold(s, word); }
  }

  /** The text behind spaces and tabs. */
  function PastGaps(u: string): string {
    if u != [] && (u[0] == ' ' || u[0] == '\t') then PastGaps(u[1..]) else u
  }

  lemma {:induction false} GapsInCapitals(s: string)
    ensures Upper(s[Turns.GapRun(s)..]) == PastGaps(Upper(s))
  {
    if s != [] && Turns.IsGap(s[0]) {
      GapsInCapitals(s[1..]);
      assert Upper(s)[1..] == Upper(s[1..]) && s[1 + Turns.GapRun(s[1..])..] == s[1..][Turns.GapRun(s[1..])..];
    } else {
      assert s[0..] == s;
    }
  }

  /** The word stands first, alone or before a space or tab. */
  predicate FirstWord(u: string, word: string) {
    word <= u && (|u| == |word| || u[|word|] == ' ' || u[|word|] == '\t')
  }

  const STATEFUL: seq<string> := ["PREPARE", "DECLARE", "DEALLOCATE", "LISTEN", "LOAD", "UNLISTEN"]

  /** SET, unless it is SET LOCAL, SET TRANSACTION or SET CONSTRAINTS with something after it. */
  predicate SetsForGood(u: string) {
    && |u| >= 4 && FirstWord(u, "SET")
    && var t := PastGaps(u[4..]);
       && !(|t| > 5 && FirstWord(t, "LOCAL"))
       && !(|t| > 11 && ("TRANSACTION" <= t || "CONSTRAINTS" <= t))
  }

  lemma CommandIs(s: string, word: string)
    requires Letters(word)
    ensures Turns.Command(s, word) <==> FirstWord(Upper(s), word)
  {
    hide Router.EqualFold;
    FoldIsUpper(s, word);
  }

  lemma SetsIs(s: string)
    ensures Turns.SetsSession(s) <==> SetsForGood(Upper(s))
  {
    hide Router.EqualFold, Turns.GapRun, PastGaps;
    FoldIsUpper(s, "SET");
    if |s| >= 4 {
      var r := s[4..];
      assert Upper(s)[4..] == Upper(r);
      GapsInCapitals(r);
      var t := r[Turns.GapRun(r)..];
      FoldIsUpper(t, "LOCAL");
      FoldIsUpper(t, "TRANSACTION");
      FoldIsUpper(t, "CONSTRAINTS");
    }
  }

  lemma CreatesIs(s: string)
    ensures Turns.CreatesTemp(s) <==> "CREATE" <= Upper(s) && "TEMP" <= PastGaps(Upper(s)[6..])
  {
    hide Router.EqualFold, Turns.GapRun, PastGaps;
    FoldIsUpper(s, "CREATE");
    if |s| >= 6 {
      var r := s[6..];
      assert Upper(s)[6..] == Upper(r);
      GapsInCapitals(r);
      FoldIsUpper(r[Turns.GapRun(r)..], "TEMP");
    }
  }

  lemma CommandsAre(s: string)
    ensures (exists word | word in STATEFUL :: FirstWord(Upper(s), word)) <==>
            || Turns.Command(s, "PREPARE") || Turns.Command(s, "DECLARE") || Turns.Command(s, "DEALLOCATE")
            || Turns.Command(s, "LISTEN") || Turns.Command(s, "LOAD") || Turns.Command(s, "UNLISTEN")
  {
    hide Turns.Command, FirstWord;
    forall word | word in STATEFUL ensures Turns.Command(s, word) <==> FirstWord(Upper(s), word) {
      CommandIs(s, word);
    }
    assert STATEFUL[0] in STATEFUL && STATEFUL[1] in STATEFUL && STATEFUL[2] in STATEFUL && STATEFUL[3] in STATEFUL
        && STATEFUL[4] in STATEFUL && STATEFUL[5] in STATEFUL;
  }

  /** A query leaves session state behind if and only if, in capitals and past its noise, it is a SET for good, a
      CREATE TEMP or one of six commands. */
  lemma LeavesStateIff(query: string)
    ensures var u := Upper(query[Router.Noise(query)..]);
            Turns.IsSessionModifying(query) <==>
            || SetsForGood(u) || ("CREATE" <= u && "TEMP" <= PastGaps(u[6..]))
            || exists word | word in STATEFUL :: FirstWord(u, word)
  {
    hide Turns.SetsSession, Turns.CreatesTemp, Turns.Command, SetsForGood, FirstWord, PastGaps;
    var s := query[Router.Noise(query)..];
    SetsIs(s);
    CreatesIs(s);
    CommandsAre(s);
  }
}
