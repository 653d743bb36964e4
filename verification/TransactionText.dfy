/** Which query texts the fast path of transaction tracking overlooks, and which are routed differently when
    prepared (internal/router/router.go): conditions read off the text alone. */
module TransactionText {
  import opened SqlText
  import opened Lexer
  import opened Options
  import opened Router
  import Classifier

  /** The commands routeLocked knows. */
  const PREPARED_COMMANDS: seq<string> := ["BEGIN", "START TRANSACTION", "COMMIT", "ROLLBACK"]

  /** The commands the fast path and the scan know. */
  const COMMANDS: seq<string> := PREPARED_COMMANDS + ["END", "ABORT"]

  // ---- Reading a text past its comments ----

  /** The first character that is neither a blank nor part of a comment. */
  function Lead(s: string): (n: nat)
    ensures n <= |s|
    decreases |s|
  {
    if s == [] then 0
    else if IsBlank(s[0]) then 1 + Lead(s[1..])
    else if AtBlockComment(s) then BlockSpan(s) + Lead(s[BlockSpan(s)..])
    else if AtLineComment(s) then LineLen(s) + Lead(s[LineLen(s)..])
    else 0
  }

  /** Read letter by letter and past comments, s starts with the word. */
  predicate Spells(s: string, word: string)
    decreases |s|
  {
    || word == []
    || (s != [] &&
        if AtBlockComment(s) then Spells(s[BlockSpan(s)..], word)
        else if AtLineComment(s) then Spells(s[LineLen(s)..], word)
        else UpperChar(s[0]) == word[0] && Spells(s[1..], word[1..]))
  }

  // ---- What the fast path overlooks ----

  /** A vertical tab or form feed, which the fast path does not skip, stands before the word. */
  predicate BehindBlank(q: string, word: string) {
    Noise(q) < |q| && IsBlank(q[Noise(q)]) && Spells(q[Lead(q)..], word)
  }

  /** After i letters of the word comes a block comment, and then the rest of the word. */
  predicate BreaksAt(s: string, word: string, i: nat) {
    && i < |word| && i <= |s| && Upper(s[..i]) == word[..i]
    && AtBlockComment(s[i..]) && Spells(s[i..][BlockSpan(s[i..])..], word[i..])
  }

  predicate Interrupted(s: string, word: string) {
    exists i: nat | i < |word| :: BreaksAt(s, word, i)
  }

  /** The word is there, and the byte after it is no space the fast path knows and no semicolon. */
  predicate RunsOn(s: string, word: string) {
    word <= Upper(s) && |word| < |s| && !IsSpace(s[|word|]) && s[|word|] != ';'
  }

  predicate Overlooked(q: string, word: string) {
    BehindBlank(q, word) || Interrupted(q[Noise(q)..], word) || RunsOn(q[Noise(q)..], word)
  }

  /** On raw bytes only: a NUL stands for the space of START TRANSACTION. */
  predicate JoinedByNul(q: string) {
    var s := q[Noise(q)..];
    LedBy(s, "START TRANSACTION") && s[5] == NUL
  }

  // ---- Comments left out, blanks trimmed ----

  lemma {:induction false} SpellsIff(s: string, word: string)
    ensures Spells(s, word) <==> word <= Upper(Classifier.StripComments(s))
    decreases |s|
  {
    if s != [] && word != [] {
      if AtBlockComment(s) {
        SpellsIff(s[BlockSpan(s)..], word);
      } else if AtLineComment(s) {
        SpellsIff(s[LineLen(s)..], word);
      } else {
        SpellsIff(s[1..], word[1..]);
        PrefixStep(s[0], Classifier.StripComments(s[1..]), word);
      }
    }
  }

  lemma ConsPrefix(c: char, u: string, word: string)
    requires word != []
    ensures word <= [c] + u <==> c == word[0] && word[1..] <= u
  {
    var s, rest := [c] + u, word[1..];
    if |word| <= |s| {
      assert forall i | 0 <= i < |rest| :: rest[i] == word[i + 1] && s[i + 1] == u[i];
      assert word <= s <==> forall i | 0 <= i < |word| :: word[i] == s[i];
      assert rest <= u <==> forall i | 0 <= i < |rest| :: rest[i] == u[i];
      forall i | 0 <= i < |word| && c == word[0] && rest <= u ensures word[i] == s[i] {
        if i > 0 { assert rest[i - 1] == u[i - 1]; }
      }
    }
  }

  lemma PrefixStep(c: char, t: string, word: string)
    requires word != []
    ensures word <= Upper([c] + t) <==> UpperChar(c) == word[0] && word[1..] <= Upper(t)
  {
    hide UpperChar;
    assert Upper([c] + t) == [UpperChar(c)] + Upper(t);
    ConsPrefix(UpperChar(c), Upper(t), word);
  }

  lemma LeadStep(s: string)
    ensures Lead(s) == if s == [] then 0
                       else if IsBlank(s[0]) then 1 + Lead(s[1..])
                       else if AtBlockComment(s) then BlockSpan(s) + Lead(s[BlockSpan(s)..])
                       else if AtLineComment(s) then LineLen(s) + Lead(s[LineLen(s)..])
                       else 0
  {
    hide BlockSpan, LineLen;
  }

  lemma TrimLeftStep(s: string)
    ensures TrimLeft(s) == if s != [] && IsBlank(s[0]) then TrimLeft(s[1..]) else s
  {
  }

  lemma BlankIsText(s: string)
    requires s != [] && IsBlank(s[0])
    ensures !AtBlockComment(s) && !AtLineComment(s)
  {
  }

  /** One blank or comment skipped, or nothing to skip. */
  lemma SkipOne(s: string) returns (n: nat)
    ensures n <= |s| && Lead(s) == if n == 0 then 0 else n + Lead(s[n..])
    ensures n == 0 ==> TrimLeft(Classifier.StripComments(s)) == Classifier.StripComments(s)
    ensures n > 0 ==> TrimLeft(Classifier.StripComments(s)) == TrimLeft(Classifier.StripComments(s[n..]))
  {
    hide *;
    LeadStep(s);
    Classifier.StripCommentsStep(s);
    if s == [] {
      n := 0;
      TrimLeftStep([]);
    } else if IsBlank(s[0]) {
      n := 1;
      BlankIsText(s);
      TrimLeftCons(s[0], Classifier.StripComments(s[1..]));
    } else if AtBlockComment(s) {
      n := BlockSpan(s);
    } else if AtLineComment(s) {
      n := LineLen(s);
      Classifier.LineHasText(s);
    } else {
      n := 0;
      TrimLeftCons(s[0], Classifier.StripComments(s[1..]));
    }
  }

  lemma TrimLeftCons(c: char, t: string)
    ensures TrimLeft([c] + t) == if IsBlank(c) then TrimLeft(t) else [c] + t
  {
    hide TrimLeft;
    TrimLeftStep([c] + t);
    assert ([c] + t)[1..] == t;
  }

  lemma {:induction false} LeadIs(s: string)
    ensures TrimLeft(Classifier.StripComments(s)) == Classifier.StripComments(s[Lead(s)..])
    decreases |s|
  {
    hide *;
    var n := SkipOne(s);
    if n == 0 {
      assert s[0..] == s;
    } else {
      LeadIs(s[n..]);
      SliceSlice(s, n, Lead(s[n..]));
    }
  }

  lemma PrefixOfTrimmed(t: string, word: string)
    requires IsWord(word)
    ensures word <= Upper(TrimRight(t)) <==> word <= Upper(t)
  {
    hide TrimRight;
    var r := TrimRight(t);
    assert Upper(r) == Upper(t)[..|r|];
    if word <= Upper(t) {
      var k := |word| - 1;
      assert word[k] == Upper(t)[k] == UpperChar(t[k]);
      TrimRightKeeps(t, |word|);
    }
  }

  /** The comment-free, trimmed text starts with the word exactly when the raw text spells it. */
  lemma NormalSpells(q: string, word: string)
    requires IsWord(word)
    ensures word <= Normal(q) <==> Spells(q[Lead(q)..], word)
  {
    hide Classifier.StripComments, TrimLeft, TrimRight, Lead, Spells, Upper, IsWord;
    LeadIs(q);
    SpellsIff(q[Lead(q)..], word);
    PrefixOfTrimmed(TrimLeft(Classifier.StripComments(q)), word);
  }

  // ---- The only statement leads with what the query leads with ----

  /** Blanks and semicolons. */
  predicate IsTail(t: string) {
    forall c | c in t :: IsBlank(c) || c == ';'
  }

  lemma {:induction false} TailStays(t: string)
    requires IsTail(t)
    ensures Classifier.StripComments(t) == t
  {
    if t != [] {
      assert t[0] in t && forall c | c in t[1..] :: c in t;
      TailStays(t[1..]);
    }
  }

  lemma TailSlice(t: string, n: nat)
    requires IsTail(t) && n <= |t|
    ensures IsTail(t[n..])
  {
  }

  lemma {:induction false} TailInBlock(t: string, depth: nat)
    requires IsTail(t) && depth > 0
    ensures BlockTail(t, depth) == |t|
  {
    if t != [] {
      assert t[0] in t;
      TailSlice(t, 1);
      TailInBlock(t[1..], depth);
    }
  }

  /** What follows the text of a comment either stays outside the comment or is all inside. */
  lemma {:induction false} BlockAppend(z: string, t: string, depth: nat)
    requires IsTail(t)
    ensures BlockTail(z + t, depth) == BlockTail(z, depth) || BlockTail(z + t, depth) == |z + t|
    ensures BlockTail(z + t, depth) != BlockTail(z, depth) ==> BlockTail(z, depth) == |z|
    decreases |z|
  {
    var s := z + t;
    if z == [] {
      assert s == t;
      if depth > 0 { TailInBlock(t, depth); }
    } else if depth > 0 {
      assert t != [] ==> t[0] in t;
      assert AtBlockComment(s) == AtBlockComment(z) && AtBlockEnd(s) == AtBlockEnd(z);
      assert s[1..] == z[1..] + t;
      if AtBlockComment(z) {
        assert s[2..] == z[2..] + t;
        BlockAppend(z[2..], t, depth + 1);
      } else if AtBlockEnd(z) {
        assert s[2..] == z[2..] + t;
        BlockAppend(z[2..], t, depth - 1);
      } else {
        BlockAppend(z[1..], t, depth);
      }
    }
  }

  lemma SameComments(z: string, t: string)
    requires z != [] && IsTail(t)
    ensures AtBlockComment(z + t) == AtBlockComment(z) && AtLineComment(z + t) == AtLineComment(z)
    ensures forall n: nat | n <= |z| :: (z + t)[n..] == z[n..] + t
  {
    assert t != [] ==> t[0] in t;
  }

  lemma StripBlockAppend(z: string, t: string)
    requires AtBlockComment(z) && AtBlockComment(z + t) && IsTail(t)
    ensures BlockSpan(z + t) == BlockSpan(z) || (BlockSpan(z + t) == |z + t| && BlockSpan(z) == |z|)
  {
    assert (z + t)[2..] == z[2..] + t;
    BlockAppend(z[2..], t, 1);
  }

  /** Stripping keeps what comes first; of a tail it keeps a tail. */
  lemma {:induction false} StripAppend(z: string, t: string) returns (x: string)
    requires IsTail(t)
    ensures Classifier.StripComments(z + t) == Classifier.StripComments(z) + x && IsTail(x)
    decreases |z|
  {
    hide BlockSpan, LineLen, AtBlockComment, AtLineComment;
    if z == [] {
      assert z + t == t;
      TailStays(t);
      x := t;
    } else {
      SameComments(z, t);
      if AtBlockComment(z) {
        StripBlockAppend(z, t);
        if BlockSpan(z + t) == BlockSpan(z) {
          x := StripAppend(z[BlockSpan(z)..], t);
        } else {
          x := [];
        }
      } else if AtLineComment(z) {
        LineLenPrefix(z, t);
        Classifier.LineHasText(z);
        if LineLen(z + t) < |z| {
          x := StripAppend(z[LineLen(z)..], t);
        } else {
          x := (z + t)[LineLen(z + t)..];
          CutTail(z, t, LineLen(z + t));
          TailStays(x);
        }
      } else {
        x := StripAppend(z[1..], t);
        Associative([z[0]], Classifier.StripComments(z[1..]), x);
      }
    }
  }

  lemma CutTail(z: string, t: string, n: nat)
    requires IsTail(t) && |z| <= n <= |z + t|
    ensures IsTail((z + t)[n..])
  {
    assert (z + t)[n..] == t[n - |z|..];
  }

  lemma {:induction false} TrimLeftDrop(w: string, t: string)
    requires AllBlank(w)
    ensures TrimLeft(w + t) == TrimLeft(t)
  {
    if w == [] {
      assert w + t == t;
    } else {
      assert w[0] in w && (w + t)[1..] == w[1..] + t;
      TrimLeftDrop(w[1..], t);
    }
  }

  lemma {:induction false} TrimLeftAppend(t: string, x: string)
    requires TrimLeft(t) != []
    ensures TrimLeft(t + x) == TrimLeft(t) + x
  {
    hide *;
    TrimLeftStep(t);
    TrimLeftStep(t + x);
    if t != [] && IsBlank(t[0]) {
      assert (t + x)[1..] == t[1..] + x;
      TrimLeftAppend(t[1..], x);
    }
  }

  lemma NoWordInTail(x: string, word: string)
    requires IsTail(x) && IsWord(word)
    ensures !(word <= Upper(x))
  {
    assert x != [] ==> x[0] in x;
  }

  lemma WordBeforeTail(t: string, x: string, word: string)
    requires IsTail(x) && IsWord(word)
    ensures word <= Upper(t + x) <==> word <= Upper(t)
  {
    var u := Upper(t + x);
    assert u[..|t|] == Upper(t);
    forall i | 0 <= i < |x| ensures IsBlank(x[i]) || x[i] == ';' { assert x[i] in x; }
    var k := |word| - 1;
    assert |t| <= k < |u| ==> u[k] == UpperChar(x[k - |t|]);
  }

  /** Blanks in front and a tail behind change nothing about the leading word. */
  lemma SameLeadingWord(w: string, t: string, x: string, word: string)
    requires AllBlank(w) && IsTail(x) && IsWord(word)
    ensures word <= Upper(TrimLeft(w + (t + x))) <==> word <= Upper(TrimLeft(t))
  {
    hide TrimLeft, IsTail, IsWord, Upper;
    TrimLeftDrop(w, t + x);
    if TrimLeft(t) == [] {
      BlankThenTail(t, x);
      NoWordInTail(TrimLeft(t + x), word);
      NoWordInTail([], word);
    } else {
      TrimLeftAppend(t, x);
      WordBeforeTail(TrimLeft(t), x, word);
    }
  }

  lemma BlankThenTail(t: string, x: string)
    requires TrimLeft(t) == [] && IsTail(x)
    ensures IsTail(TrimLeft(t + x)) && IsTail([])
  {
    hide TrimLeft;
    assert t[..|t|] == t;
    TrimLeftDrop(t, x);
    TailSlice(x, |x| - |TrimLeft(x)|);
  }

  lemma NormalLeads(t: string, word: string)
    requires IsWord(word)
    ensures word <= Normal(t) <==> word <= Upper(TrimLeft(Classifier.StripComments(t)))
  {
    hide Classifier.StripComments, TrimLeft, TrimRight, Upper, IsWord;
    PrefixOfTrimmed(TrimLeft(Classifier.StripComments(t)), word);
  }

  lemma NormalOfPart(w: string, t: string, r: string, word: string)
    requires AllBlank(w) && IsTail(r) && IsWord(word)
    ensures word <= Normal(w + (t + r)) <==> word <= Normal(t)
  {
    hide *;
    var x := StripAppend(t, r);
    StripBlanks(w, t + r);
    SameLeadingWord(w, Classifier.StripComments(t), x, word);
    NormalLeads(t, word);
    NormalLeads(w + (t + r), word);
  }

  lemma StripBlanks(w: string, t: string)
    requires AllBlank(w)
    ensures Classifier.StripComments(w + t) == w + Classifier.StripComments(t)
  {
    hide Classifier.StripComments;
    var q := w + t;
    forall i | 0 <= i < |w| ensures IsOrdinary(q[i]) { assert w[i] in w; }
    StripPlain(q, |w|);
    assert q[..|w|] == w && q[|w|..] == t;
  }

  /** A single-statement query is blanks, the statement, and a tail. */
  lemma SingleShape(q: string) returns (a: nat, b: nat)
    requires Classifier.IsSingle(q)
    ensures a <= b <= |q| && AllBlank(q[..a]) && IsTail(q[b..])
    ensures Split(q) == if a == b then [] else [q[a..b]]
  {
    hide ChunkLen, Trim, AllBlank, IsTail, Split, Classifier.IsSingle;
    Classifier.SingleSplit(q);
    var k := ChunkLen(q);
    var p := q[..k];
    a, b := TrimShape(p);
    assert p[..a] == q[..a] && p[a..b] == q[a..b];
    SingleTail(q, b);
  }

  lemma SingleTail(q: string, b: nat)
    requires Classifier.IsSingle(q) && b <= ChunkLen(q) && AllBlank(q[..ChunkLen(q)][b..])
    ensures IsTail(q[b..])
  {
    hide ChunkLen;
    var k := ChunkLen(q);
    var w := q[..k][b..];
    if k < |q| {
      assert q[k..k + 1] == ";";
      IndexFinds(q, ";", k);
      var idx := Index(q, ";");
      assert q[idx..idx + 1][0] == ';';
      assert idx < k ==> q[k] in q[idx + 1..];
    }
    forall i | b <= i < |q| ensures IsBlank(q[i]) || q[i] == ';' {
      if i < k { assert q[i] == w[i - b]; }
      if i > k { assert q[i] in q[k + 1..]; }
    }
  }

  lemma CommandsAreWords()
    ensures forall kw | kw in COMMANDS :: IsWord(kw)
  {
    forall kw | kw in COMMANDS ensures IsWord(kw) {
    }
  }

  /** The first letter tells the commands apart. */
  lemma FirstLetters(kw: string, other: string)
    requires kw in COMMANDS && other in COMMANDS && kw[0] == other[0]
    ensures kw == other
  {
  }

  lemma SeesIff(upper: string)
    ensures IsOpening(upper) || IsClosing(upper) <==> exists kw | kw in COMMANDS :: kw <= upper
    ensures LooksLikeTx(upper) <==> exists kw | kw in PREPARED_COMMANDS :: kw <= upper
  {
    assert COMMANDS == ["BEGIN", "START TRANSACTION", "COMMIT", "ROLLBACK", "END", "ABORT"];
    assert COMMANDS[0] in COMMANDS && COMMANDS[1] in COMMANDS && COMMANDS[2] in COMMANDS && COMMANDS[3] in COMMANDS
        && COMMANDS[4] in COMMANDS && COMMANDS[5] in COMMANDS;
    var p := PREPARED_COMMANDS;
    assert p[0] in p && p[1] in p && p[2] in p && p[3] in p;
  }

  /** What the scan sees of a single statement, read off the query. */
  lemma ScanSees(q: string)
    requires Classifier.IsSingle(q)
    ensures |Split(q)| <= 1
    ensures HasTxKeyword(Split(q)) <==> exists kw | kw in COMMANDS :: kw <= Normal(q)
  {
    hide Normal, Split, IsWord, IsOpening, IsClosing, IsTail, AllBlank, Classifier.IsSingle;
    var a, b := SingleShape(q);
    var stmt := q[a..b];
    CommandsAreWords();
    SeesIff(Normal(stmt));
    assert q == q[..a] + (stmt + q[b..]);
    forall kw | kw in COMMANDS ensures kw <= Normal(q) <==> kw <= Normal(stmt) {
      NormalOfPart(q[..a], stmt, q[b..], kw);
    }
    if a == b { NothingSeen(); }
  }

  lemma NothingSeen()
    ensures forall kw | kw in COMMANDS :: !(kw <= Normal([]))
  {
    CommandsAreWords();
    assert Trim([]) == [];
    assert Normal([]) == [];
  }

  // ---- Overlooked: seen by the scan and not by the fast path ----

  /** Where the fast path stops skipping, the scan stops too, unless it knows the blank there. */
  lemma {:induction false} LeadIsNoise(s: string)
    requires Noise(s) == |s| || !IsBlank(s[Noise(s)])
    ensures Lead(s) == Noise(s)
    decreases |s|
  {
    var u := NoiseUnit(s);
    NoiseStep(s);
    if u > 0 {
      hide Noise, BlockSpan, LineLen;
      var r := s[u..];
      assert Noise(s) < |s| ==> r[Noise(r)] == s[Noise(s)];
      LeadIsNoise(r);
      if !IsSpace(s[0]) && !AtBlockComment(s) { LeadPastLine(s); }
    }
  }

  lemma LeadPastLine(s: string)
    requires AtLineComment(s)
    ensures Lead(s) == LineSpan(s) + Lead(s[LineSpan(s)..])
  {
    var n := LineLen(s);
    if n < |s| { assert s[n..][1..] == s[n + 1..]; }
  }

  lemma NoiseEnds(s: string)
    ensures NoiseUnit(s[Noise(s)..]) == 0
    decreases |s|
  {
    hide NoiseUnit;
    NoiseStep(s);
    var u := NoiseUnit(s);
    if u == 0 {
      assert s[0..] == s;
    } else {
      NoiseEnds(s[u..]);
      SliceSlice(s, u, Noise(s[u..]));
    }
  }

  /** Letters and spaces. */
  predicate Plain(word: string) {
    forall i | 0 <= i < |word| :: 'A' <= word[i] <= 'Z' || word[i] == ' '
  }

  lemma NotAtComment(s: string, word: string)
    requires s != [] && word != [] && Plain(word) && UpperChar(s[0]) == word[0]
    ensures !AtBlockComment(s) && !AtLineComment(s)
  {
  }

  lemma LineSpellsNothing(s: string, word: string)
    requires AtLineComment(s) && word != [] && Plain(word)
    ensures !Spells(s, word)
  {
    var r := s[LineLen(s)..];
    Classifier.LineHasText(s);
    assert r != [] ==> r[0] == '\n';
  }

  lemma BreakStep(s: string, word: string, i: nat)
    requires s != [] && word != [] && UpperChar(s[0]) == word[0]
    ensures BreaksAt(s[1..], word[1..], i) <==> BreaksAt(s, word, i + 1)
  {
    hide Spells, BlockSpan;
    if i <= |s| - 1 && i < |word| - 1 {
      SliceSlice(s, 1, i);
      SliceSlice(word, 1, i);
      assert s[..i + 1] == [s[0]] + s[1..][..i] && word[..i + 1] == [word[0]] + word[1..][..i];
      assert Upper(s[..i + 1]) == [UpperChar(s[0])] + Upper(s[1..][..i]);
      HeadEqual(UpperChar(s[0]), Upper(s[1..][..i]), word[1..][..i]);
    }
  }

  lemma HeadEqual(c: char, a: string, b: string)
    ensures [c] + a == [c] + b <==> a == b
  {
    assert ([c] + a)[1..] == a && ([c] + b)[1..] == b;
  }

  lemma UpperStep(s: string, word: string)
    requires s != [] && word != []
    ensures word <= Upper(s) <==> UpperChar(s[0]) == word[0] && word[1..] <= Upper(s[1..])
  {
    assert s == [s[0]] + s[1..];
    PrefixStep(s[0], s[1..], word);
  }

  /** A word is spelled in one piece or broken by a block comment. */
  lemma {:induction false} SpellsCases(s: string, word: string)
    requires Plain(word)
    ensures Spells(s, word) <==> word <= Upper(s) || Interrupted(s, word)
    decreases |s|
  {
    hide Upper, BlockSpan, LineLen, BreaksAt;
    if word == [] {
    } else if s == [] {
      NoBreak(s, word);
    } else if AtBlockComment(s) {
      BreakHere(s, word);
    } else if AtLineComment(s) {
      LineSpellsNothing(s, word);
      NoBreak(s, word);
    } else {
      SpellsCases(s[1..], word[1..]);
      UpperStep(s, word);
      if UpperChar(s[0]) == word[0] { BreakLater(s, word); } else { NoBreak(s, word); }
    }
  }

  lemma NoBreak(s: string, word: string)
    requires word != [] && Plain(word) && (s == [] || (!AtBlockComment(s) && UpperChar(s[0]) != word[0]))
    ensures !Interrupted(s, word) && !(word <= Upper(s))
  {
    hide Spells, BlockSpan;
    assert s[0..] == s;
    forall i: nat | i < |word| && i <= |s| && AtBlockComment(s[i..]) ensures Upper(s[..i]) != word[..i] {
      assert Upper(s[..i])[0] == UpperChar(s[0]);
    }
  }

  lemma BreakHere(s: string, word: string)
    requires word != [] && Plain(word) && AtBlockComment(s)
    ensures !(word <= Upper(s)) && (Spells(s, word) <==> Interrupted(s, word))
  {
    hide BlockSpan;
    assert s[0..] == s && word[0..] == word && s[..0] == [] && word[..0] == [] == Upper([]);
    assert BreaksAt(s, word, 0) <==> Spells(s, word);
    forall i: nat | 0 < i < |word| && i <= |s| ensures Upper(s[..i]) != word[..i] {
      assert Upper(s[..i])[0] == UpperChar(s[0]) == '/';
    }
  }

  lemma BreakLater(s: string, word: string)
    requires s != [] && word != [] && Plain(word) && UpperChar(s[0]) == word[0]
    ensures Interrupted(s, word) <==> Interrupted(s[1..], word[1..])
  {
    hide BreaksAt;
    forall i: nat ensures BreaksAt(s[1..], word[1..], i) <==> BreaksAt(s, word, i + 1) { BreakStep(s, word, i); }
    NotAtComment(s, word);
    BreaksInside(s, word);
    if Interrupted(s, word) {
      var i: nat :| i < |word| && BreaksAt(s, word, i);
      var k := i - 1;
      assert BreaksAt(s[1..], word[1..], k);
    }
    if Interrupted(s[1..], word[1..]) {
      var k: nat :| k < |word[1..]| && BreaksAt(s[1..], word[1..], k);
      var i := k + 1;
      assert BreaksAt(s, word, i);
    }
  }

  lemma BreaksInside(s: string, word: string)
    requires !AtBlockComment(s)
    ensures !BreaksAt(s, word, 0)
  {
    assert s[0..] == s;
  }

  lemma UpperIsFold(c: char, k: char)
    requires ('A' <= k <= 'Z' || k == ' ') && UpperChar(c) == k
    ensures Fold(c) == Fold(k)
  {
  }

  lemma UpperEqualFold(s: string, word: string)
    requires Plain(word) && word <= Upper(s)
    ensures EqualFold(s, word)
  {
    hide Fold, UpperChar;
    forall i | 0 <= i < |word| ensures Fold(s[i]) == Fold(word[i]) {
      assert word[i] == Upper(s)[i];
      UpperIsFold(s[i], word[i]);
    }
  }

  lemma BrokenNotFold(s: string, word: string)
    requires Plain(word) && Interrupted(s, word)
    ensures !EqualFold(s, word)
  {
    hide Spells, BlockSpan;
    var i: nat :| i < |word| && BreaksAt(s, word, i);
    assert s[i..][0] == s[i] == '/';
    assert Fold('/') == 47 && forall k: char | 'A' <= k <= 'Z' || k == ' ' :: Fold(k) != 47;
  }

  /** Behind a blank that is no space there is no word at the place where the fast path looks. */
  lemma BlankIsNoWord(s: string, word: string)
    requires IsWord(word) && s != [] && IsBlank(s[0]) && !IsSpace(s[0])
    ensures !EqualFold(s, word) && !(word <= Upper(s)) && !Interrupted(s, word)
  {
    hide Spells, BlockSpan;
    assert !EqualFold(s, word) by { FirstNotFold(s, word); }
    NoBreak(s, word);
  }

  lemma FirstNotFold(s: string, word: string)
    requires IsWord(word) && s != [] && IsBlank(s[0]) && !IsSpace(s[0])
    ensures Fold(s[0]) != Fold(word[0])
  {
  }

  /** The three ways to be overlooked are exactly: the scan finds the word in front and the fast path does not. */
  lemma OverlookedIff(q: string, word: string)
    requires IsWord(word)
    ensures Overlooked(q, word) <==> word <= Normal(q) && !LedBy(q[Noise(q)..], word)
  {
    hide Noise, Lead, Spells, Interrupted, EqualFold, Normal, Upper, IsBlank, IsSpace;
    var n := Noise(q);
    var rest := q[n..];
    assert n < |q| ==> rest[0] == q[n];
    NormalSpells(q, word);
    if n < |q| && IsBlank(q[n]) {
      BlankIsNoWord(rest, word);
    } else {
      LeadIsNoise(q);
      SpellsCases(rest, word);
      if word <= Upper(rest) { UpperEqualFold(rest, word); }
      if Interrupted(rest, word) { BrokenNotFold(rest, word); }
    }
  }

  /** Where the fast comparison finds a word, the scan finds it too, unless a NUL stood for a space. */
  lemma FoldedIsSeen(q: string, word: string)
    requires IsWord(word) && EqualFold(q[Noise(q)..], word)
    ensures word <= Normal(q) <==> word <= Upper(q[Noise(q)..])
  {
    hide Noise, Lead, Spells, Interrupted, Normal, Upper, IsBlank, IsSpace, Fold;
    var n := Noise(q);
    var rest := q[n..];
    assert n < |q| ==> rest[0] == q[n];
    NormalSpells(q, word);
    if IsBlank(q[n]) { BlankIsNoWord(rest, word); }
    LeadIsNoise(q);
    SpellsCases(rest, word);
    if Interrupted(rest, word) { BrokenNotFold(rest, word); }
  }

  lemma OneWordCommand(kw: string)
    requires kw in COMMANDS && kw != "START TRANSACTION"
    ensures kw[0] != 'S' && forall i | 0 <= i < |kw| :: kw[i] != ' '
  {
  }

  lemma NotStart(s: string, kw: string)
    requires IsWord(kw) && kw[0] != 'S' && EqualFold(s, kw)
    ensures !LedBy(s, "START TRANSACTION")
  {
    hide Fold, UpperChar;
    FoldLetter(s[0], kw[0]);
    if LedBy(s, "START TRANSACTION") { FoldLetter(s[0], 'S'); }
  }

  /** The only space in a command is that of START TRANSACTION. */
  lemma FoldedCommand(s: string, kw: string)
    requires kw in COMMANDS && IsWord(kw) && LedBy(s, kw)
    ensures kw <= Upper(s) <==> !(LedBy(s, "START TRANSACTION") && s[5] == NUL)
  {
    hide IsWord, Fold, Upper;
    KeywordUpper(s, kw);
    HeadUpper(s, |kw|);
    if kw == "START TRANSACTION" {
      StartIsWord();
      assert Upper(s)[5] == UpperChar(s[5]);
    } else {
      OneWordCommand(kw);
      NotStart(s, kw);
    }
  }

  lemma HeadUpper(s: string, n: nat)
    requires n <= |s|
    ensures Upper(s[..n]) == Upper(s)[..n]
  {
  }

  lemma LedIsSeen(q: string, kw: string)
    requires kw in COMMANDS && LedBy(q[Noise(q)..], kw)
    ensures kw <= Normal(q) <==> !JoinedByNul(q)
  {
    hide Noise, Normal, Upper, Fold, IsWord;
    CommandsAreWords();
    FoldedIsSeen(q, kw);
    FoldedCommand(q[Noise(q)..], kw);
  }

  /** A START joined by a NUL is no command for the scan. */
  lemma NulUnspotted(q: string)
    requires JoinedByNul(q)
    ensures forall kw | kw in COMMANDS :: !(kw <= Normal(q))
  {
    hide Normal, Noise, Upper, Spells, Lead, EqualFold, IsWord;
    CommandsAreWords();
    var rest := q[Noise(q)..];
    LedByStart(rest);
    LeadIsNoise(q);
    forall kw | kw in COMMANDS ensures !(kw <= Normal(q)) {
      NormalSpells(q, kw);
      if Spells(rest, kw) {
        FirstSpelled(rest, kw);
        if kw != "START TRANSACTION" { OneWordCommand(kw); }
        LedIsSeen(q, kw);
      }
    }
  }

  lemma LedByStart(s: string)
    requires LedBy(s, "START TRANSACTION")
    ensures s != [] && UpperChar(s[0]) == 'S' && IsOrdinary(s[0]) && !IsBlank(s[0])
  {
    hide Fold, UpperChar, IsBlank;
    FoldLetter(s[0], 'S');
  }

  lemma FirstSpelled(s: string, word: string)
    requires s != [] && IsOrdinary(s[0]) && IsWord(word) && Spells(s, word)
    ensures UpperChar(s[0]) == word[0]
  {
  }

  // ---- Transaction tracking ----

  /** The flag a query leaves: the fast path's on a single statement, the scan's otherwise. */
  function NewFlag(query: string, inTx: bool): bool {
    if !Classifier.IsSingle(query) then TrackTx(Split(query), inTx)
    else if TxPrefix(query) == NoTx then inTx
    else TxPrefix(query).Opens?
  }

  lemma RouteFlag(p: Policy, t: Tracking, query: string, parsed: Option<Classifier.QueryType>, now: int)
    ensures RouteQuery(p, t, query, parsed, now).1.inTx == NewFlag(query, t.inTx)
  {
    hide Classifier.IsSingle, TxPrefix, TrackTx, Split, Classifier.Classify, HasTxKeyword, RecentWrite;
  }

  lemma OneStatementTx(stmts: seq<string>)
    requires |stmts| <= 1
    ensures HasTxKeyword(stmts) <==> exists inTx :: TrackTx(stmts, inTx) != inTx
  {
    hide Normal, IsOpening, IsClosing;
    if stmts != [] {
      OneStatement(stmts, true);
      OneStatement(stmts, false);
      var u := Normal(stmts[0]);
      assert HasTxKeyword(stmts) <==> IsOpening(u) || IsClosing(u);
      assert IsClosing(u) ==> TrackTx(stmts, true) != true;
      assert IsOpening(u) && !IsClosing(u) ==> TrackTx(stmts, false) != false;
      assert forall inTx :: TrackTx(stmts, inTx) in {TrackTx(stmts, true), TrackTx(stmts, false)};
    }
  }

  lemma PrefixLed(q: string)
    ensures TxPrefix(q) != NoTx <==> exists kw | kw in COMMANDS :: LedBy(q[Noise(q)..], kw)
  {
    hide LedBy, Noise;
    assert COMMANDS == ["BEGIN", "START TRANSACTION", "COMMIT", "ROLLBACK", "END", "ABORT"];
    assert COMMANDS[0] in COMMANDS && COMMANDS[1] in COMMANDS && COMMANDS[2] in COMMANDS && COMMANDS[3] in COMMANDS
        && COMMANDS[4] in COMMANDS && COMMANDS[5] in COMMANDS;
  }

  lemma SameCommand(text: string, kw: string, other: string)
    requires kw in COMMANDS && other in COMMANDS && kw <= text && other <= text
    ensures kw == other
  {
    CommandsAreWords();
    assert kw[0] == text[0] == other[0];
    FirstLetters(kw, other);
  }

  /** With nothing seen by the fast path, overlooked is what the scan sees. */
  lemma OverlookedWithoutPrefix(q: string, kw: string)
    requires TxPrefix(q) == NoTx && kw in COMMANDS
    ensures Overlooked(q, kw) <==> kw <= Normal(q)
  {
    hide TxPrefix, Overlooked, LedBy, Noise, Normal, IsWord;
    CommandsAreWords();
    PrefixLed(q);
    OverlookedIff(q, kw);
  }

  /** With a command seen by the fast path, nothing is overlooked. */
  lemma NoneOverlooked(q: string, kw: string)
    requires TxPrefix(q) != NoTx && !JoinedByNul(q) && kw in COMMANDS
    ensures !Overlooked(q, kw)
  {
    hide TxPrefix, Overlooked, LedBy, Noise, Normal, IsWord, JoinedByNul;
    CommandsAreWords();
    PrefixLed(q);
    var led :| led in COMMANDS && LedBy(q[Noise(q)..], led);
    LedIsSeen(q, led);
    OverlookedIff(q, kw);
    if kw <= Normal(q) { SameCommand(Normal(q), kw, led); }
  }

  /** The texts on which tracking goes right. */
  predicate TrackedRight(q: string) {
    Classifier.IsSingle(q) ==> !JoinedByNul(q) && forall kw | kw in COMMANDS :: !Overlooked(q, kw)
  }

  lemma NulMeans(q: string)
    requires TxPrefix(q) != NoTx
    ensures JoinedByNul(q) <==> StartsWithNul(q)
  {
    if StartsWithNul(q) { OneCommand(q); }
    hide TxPrefix, Noise;
    if JoinedByNul(q) { StartLength(q); }
  }

  lemma FlagIff(q: string)
    ensures TrackedRight(q) <==> forall inTx :: NewFlag(q, inTx) == TrackTx(Split(q), inTx)
  {
    hide Classifier.IsSingle, TxPrefix, StartsWithNul, TrackTx, Split, HasTxKeyword, Overlooked, JoinedByNul, Normal;
    if Classifier.IsSingle(q) {
      if TxPrefix(q) == NoTx {
        NoPrefixNoNul(q);
        ScanSees(q);
        OneStatementTx(Split(q));
        forall kw | kw in COMMANDS ensures Overlooked(q, kw) <==> kw <= Normal(q) { OverlookedWithoutPrefix(q, kw); }
      } else {
        FastTxRefinesSlow(q);
        NulMeans(q);
        if !JoinedByNul(q) {
          forall kw | kw in COMMANDS ensures !Overlooked(q, kw) { NoneOverlooked(q, kw); }
        }
      }
    }
  }

  lemma NoPrefixNoNul(q: string)
    requires TxPrefix(q) == NoTx
    ensures !JoinedByNul(q)
  {
    hide Noise, LedBy;
  }

  /** Whichever path runs, the flag afterwards is the one the full scan of the statements gives, from every state, if
      and only if the query is no single statement, or no command in it is overlooked: none behind a vertical tab or
      form feed, none broken by a comment, none that runs on into another byte. */
  lemma RouteTracksIff(p: Policy, query: string, parsed: Option<Classifier.QueryType>, now: int)
    ensures TrackedRight(query) <==>
            forall t :: RouteQuery(p, t, query, parsed, now).1.inTx == TrackTx(Split(query), t.inTx)
  {
    hide *;
    FlagIff(query);
    forall t ensures RouteQuery(p, t, query, parsed, now).1.inTx == NewFlag(query, t.inTx) {
      RouteFlag(p, t, query, parsed, now);
    }
    if !TrackedRight(query) {
      var inTx :| NewFlag(query, inTx) != TrackTx(Split(query), inTx);
      var t := Tracking(inTx, false, None);
      assert RouteQuery(p, t, query, parsed, now).1.inTx != TrackTx(Split(query), t.inTx);
    }
  }

  /** An overlooked command moves the scan's flag and leaves the tracked one alone. */
  lemma OverlookedMoves(q: string, kw: string, inTx: bool)
    requires Classifier.IsSingle(q) && kw in COMMANDS && Overlooked(q, kw)
    ensures NewFlag(q, inTx) == inTx && TrackTx(Split(q), inTx) == (kw in ["BEGIN", "START TRANSACTION"])
  {
    hide Classifier.IsSingle, TxPrefix, TrackTx, Split, Overlooked, JoinedByNul, Normal, Noise, LedBy, IsWord, IsTail,
         AllBlank, IsClosing, IsOpening;
    CommandsAreWords();
    OverlookedIff(q, kw);
    if JoinedByNul(q) { NulUnspotted(q); }
    if TxPrefix(q) != NoTx { NoneOverlooked(q, kw); }
    var a, b := SingleShape(q);
    var stmt := q[a..b];
    assert q == q[..a] + (stmt + q[b..]);
    NormalOfPart(q[..a], stmt, q[b..], kw);
    if a == b { NothingSeen(); }
    OneStatement(Split(q), inTx);
    CommandEffect(Normal(stmt), kw);
  }

  lemma CommandEffect(upper: string, kw: string)
    requires kw in COMMANDS && kw <= upper
    ensures IsOpening(upper) <==> kw in ["BEGIN", "START TRANSACTION"]
    ensures IsClosing(upper) <==> kw !in ["BEGIN", "START TRANSACTION"]
  {
    assert kw[0] == upper[0];
  }

  // ---- Prepared statements ----

  /** The texts that the two ways of spotting a command tell apart. */
  predicate SpottedOnce(q: string) {
    var rest := q[Noise(q)..];
    || LedBy(rest, "END") || LedBy(rest, "ABORT") || JoinedByNul(q)
    || exists kw | kw in PREPARED_COMMANDS :: Overlooked(q, kw)
  }

  /** routeLocked and the fast path spot a command in different texts, exactly these. */
  lemma SpottedIff(q: string)
    ensures SpottedOnce(q) <==> (TxPrefix(q) != NoTx <==> !LooksLikeTx(Normal(q)))
  {
    hide TxPrefix, LooksLikeTx, Normal, Overlooked, JoinedByNul, LedBy, Noise;
    SeesIff(Normal(q));
    PrefixLed(q);
    if TxPrefix(q) == NoTx {
      NoPrefixNoNul(q);
      assert "END" == COMMANDS[4] && "ABORT" == COMMANDS[5];
      forall kw | kw in PREPARED_COMMANDS ensures Overlooked(q, kw) <==> kw <= Normal(q) {
        OverlookedWithoutPrefix(q, kw);
      }
    } else if JoinedByNul(q) {
      NulUnspotted(q);
      CommandKinds();
    } else {
      SpottedLed(q);
    }
  }

  lemma SpottedLed(q: string)
    requires TxPrefix(q) != NoTx && !JoinedByNul(q)
    ensures SpottedOnce(q) <==> !LooksLikeTx(Normal(q))
  {
    hide TxPrefix, LooksLikeTx, Normal, Overlooked, JoinedByNul, LedBy, Noise;
    PrefixLed(q);
    SeesIff(Normal(q));
    var led :| led in COMMANDS && LedBy(q[Noise(q)..], led);
    LedIsSeen(q, led);
    forall kw | kw in COMMANDS ensures !Overlooked(q, kw) { NoneOverlooked(q, kw); }
    forall kw | kw in COMMANDS && kw <= Normal(q) ensures kw == led { SameCommand(Normal(q), kw, led); }
    forall kw | kw in COMMANDS && LedBy(q[Noise(q)..], kw) ensures kw == led {
      LedIsSeen(q, kw);
      SameCommand(Normal(q), kw, led);
    }
    CommandKinds();
  }

  lemma CommandKinds()
    ensures forall kw :: kw in COMMANDS <==> kw in PREPARED_COMMANDS || kw == "END" || kw == "ABORT"
    ensures "END" !in PREPARED_COMMANDS && "ABORT" !in PREPARED_COMMANDS
  {
    assert COMMANDS[4] == "END" && COMMANDS[5] == "ABORT";
  }

  /** The writer is due whatever the text: transaction, pin, write or recent write. */
  predicate WriterDue(p: Policy, t: Tracking, kind: Classifier.QueryType, now: int) {
    t.inTx || t.pinned || kind.Write? || (!p.causal && RecentWrite(p, t, now))
  }

  lemma RoutesIs(p: Policy, t: Tracking, query: string, parsed: Option<Classifier.QueryType>, now: int)
    requires Classifier.IsSingle(query)
    ensures var kind := if parsed.Some? then parsed.value else Classifier.Classify(query);
            && (RouteStatement(p, t, query, parsed, now) == Writer <==>
                WriterDue(p, t, kind, now) || LooksLikeTx(Normal(query)))
            && (RouteQuery(p, t, query, parsed, now).0 == Writer <==>
                WriterDue(p, t, kind, now) || TxPrefix(query) != NoTx)
  {
    hide Classifier.IsSingle, TxPrefix, Classifier.Classify, Normal, LooksLikeTx;
  }

  /** A single statement is routed alike prepared or as a simple query, from any state and under any policy, if and
      only if the writer is due anyway or it is none of these: led by END or ABORT, or hiding BEGIN, START TRANSACTION,
      COMMIT or ROLLBACK from the fast path. */
  lemma PreparedRoutesAlikeIff(p: Policy, t: Tracking, query: string, parsed: Option<Classifier.QueryType>, now: int)
    requires Classifier.IsSingle(query)
    ensures var kind := if parsed.Some? then parsed.value else Classifier.Classify(query);
            RouteStatement(p, t, query, parsed, now) == RouteQuery(p, t, query, parsed, now).0 <==>
            WriterDue(p, t, kind, now) || !SpottedOnce(query)
  {
    hide *;
    RoutesIs(p, t, query, parsed, now);
    SpottedIff(query);
  }

  // ---- Texts of each kind ----

  lemma SpellsItself(s: string, word: string)
    requires IsWord(word) && word <= Upper(s)
    ensures Spells(s, word)
  {
    hide Upper, Spells, Interrupted;
    SpellsCases(s, word);
  }

  lemma CommitIsWord()
    ensures IsWord("COMMIT") && Upper("COMMIT") == "COMMIT" && "COMMIT" == COMMANDS[2] && ';' !in "COMMIT"
  {
  }

  const COMMENT_AFTER := "COMMIT/**/"

  lemma CommentAfter()
    ensures Noise(COMMENT_AFTER) == 0 && RunsOn(COMMENT_AFTER, "COMMIT") && ';' !in COMMENT_AFTER
  {
    var q := COMMENT_AFTER;
    assert q[0] == 'C' && q[6] == '/' && NoiseUnit(q) == 0;
    assert "COMMIT" <= Upper(q);
  }

  const COMMENT_INSIDE := "COM/**/MIT"

  lemma EmptyComment(s: string)
    requires |s| >= 4 && s[0] == '/' && s[1] == '*' && s[2] == '*' && s[3] == '/'
    ensures AtBlockComment(s) && BlockSpan(s) == 4
  {
    var r := s[2..];
    assert AtBlockEnd(r) && BlockTail(r[2..], 0) == 0;
  }

  lemma CommentInside()
    ensures Noise(COMMENT_INSIDE) == 0 && BreaksAt(COMMENT_INSIDE, "COMMIT", 3) && ';' !in COMMENT_INSIDE
  {
    hide BlockSpan, Spells;
    var q := COMMENT_INSIDE;
    assert q[0] == 'C' && NoiseUnit(q) == 0;
    var r := q[3..];
    EmptyComment(r);
    assert r[4..] == "MIT" == "COMMIT"[3..] && q[..3] == "COM" == "COMMIT"[..3];
    SpellsItself("MIT", "MIT");
  }

  const BLANK_BEFORE := [FF] + "COMMIT"

  lemma BlankBefore()
    ensures BehindBlank(BLANK_BEFORE, "COMMIT") && ';' !in BLANK_BEFORE
  {
    var q := BLANK_BEFORE;
    assert q[0] == FF && NoiseUnit(q) == 0 && q[1..] == "COMMIT";
    assert Lead("COMMIT") == 0;
    CommitIsWord();
    SpellsItself("COMMIT", "COMMIT");
  }

  /** Each way happens: COMMIT before a comment, around a comment and behind a form feed. */
  lemma EachOverlooked()
    ensures forall q | q in [COMMENT_AFTER, COMMENT_INSIDE, BLANK_BEFORE] ::
              && Classifier.IsSingle(q) && Overlooked(q, "COMMIT") && !TrackedRight(q)
              && NewFlag(q, true) && !TrackTx(Split(q), true)
  {
    hide Noise, Spells, Lead, RunsOn, BreaksAt, Upper, Classifier.IsSingle, BehindBlank, NewFlag, TrackTx, Split;
    CommitIsWord();
    CommentAfter();
    CommentInside();
    BlankBefore();
    Classifier.NoSemicolon(COMMENT_AFTER);
    Classifier.NoSemicolon(COMMENT_INSIDE);
    Classifier.NoSemicolon(BLANK_BEFORE);
    assert COMMENT_AFTER[0..] == COMMENT_AFTER && COMMENT_INSIDE[0..] == COMMENT_INSIDE;
    assert COMMANDS[2] in COMMANDS;
    OverlookedMoves(COMMENT_AFTER, "COMMIT", true);
    OverlookedMoves(COMMENT_INSIDE, "COMMIT", true);
    OverlookedMoves(BLANK_BEFORE, "COMMIT", true);
  }

  lemma EndText()
    ensures Noise("END") == 0 && LedBy("END", "END") && "END"[0..] == "END" && TxPrefix("END") == Closes
  {
    var q := "END";
    assert q[0] == 'E' && NoiseUnit(q) == 0 && q[0..] == q;
    LedByFirst(q);
  }

  lemma EndIsRead()
    ensures Classifier.IsSingle("END") && Classifier.Classify("END") == Classifier.Read
  {
    var q := "END";
    assert q[..3] == q && Upper(q) == q && !Classifier.IsKeyword(q) && Classifier.NoComment(q);
    hide Classifier.ClassifyFast, Classifier.IsSingle, Classifier.IsKeyword, Classifier.NoComment;
    Classifier.FastReads(q, 3);
  }

  /** Outside a transaction, with no write before, a prepared END goes to a reader and a simple one to the writer. */
  lemma PreparedEndDiffers(p: Policy, now: int)
    ensures var t := Tracking(false, false, None);
            && RouteStatement(p, t, "END", None, now) == Reader
            && RouteQuery(p, t, "END", None, now).0 == Writer
  {
    hide Noise, TxPrefix, Normal, Classifier.IsSingle, Classifier.Classify, LedBy, RouteStatement, RouteQuery;
    EndText();
    EndIsRead();
    var t := Tracking(false, false, None);
    RoutesIs(p, t, "END", None, now);
    PreparedRoutesAlikeIff(p, t, "END", None, now);
  }
}
