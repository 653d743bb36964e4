/** Session routing (internal/router/router.go): transaction tracking by a byte-level fast path and by a
    scan of every statement, and where a query is sent. */
module Router {
  import opened SqlText
  import opened Lexer
  import opened Options
  import Classifier

  // ---- Leading noise ----

  /** The length of the space or comment at the start of s, 0 if there is none. */
  function NoiseUnit(s: string): (n: nat)
    ensures n <= |s|
  {
    if s == [] then 0
    else if IsSpace(s[0]) then 1
    else if AtBlockComment(s) then BlockSpan(s)
    else if AtLineComment(s) then LineSpan(s)
    else 0
  }

  /** Leading spaces and comments. */
  function Noise(s: string): (n: nat)
    ensures n <= |s|
    ensures n < |s| ==> !IsSpace(s[n])
  {
    var u := NoiseUnit(s);
    if u == 0 then 0 else u + Noise(s[u..])
  }

  // ---- The fast path ----

  /** c | 0x20. */
  function Fold(c: char): int {
    var n := c as int;
    if (n / 32) % 2 == 0 then n + 32 else n
  }

  predicate EqualFold(s: string, target: string) {
    |s| >= |target| && forall i | 0 <= i < |target| :: Fold(s[i]) == Fold(target[i])
  }

  predicate LedBy(s: string, keyword: string) {
    && EqualFold(s, keyword)
    && (|s| == |keyword| || IsSpace(s[|keyword|]) || s[|keyword|] == ';')
  }

  datatype TxMark = NoTx | Opens | Closes

  /** hasTxPrefix. */
  function TxPrefix(query: string): TxMark {
    var rest := query[Noise(query)..];
    if LedBy(rest, "BEGIN") || LedBy(rest, "START TRANSACTION") then Opens
    else if LedBy(rest, "COMMIT") || LedBy(rest, "ROLLBACK") || LedBy(rest, "END") || LedBy(rest, "ABORT")
    then Closes
    else NoTx
  }

  // ---- The slow path ----

  function Normal(stmt: string): string {
    Upper(Trim(Classifier.StripComments(stmt)))
  }

  predicate IsOpening(upper: string) {
    "BEGIN" <= upper || "START TRANSACTION" <= upper
  }

  predicate IsClosing(upper: string) {
    "COMMIT" <= upper || "ROLLBACK" <= upper || "END" <= upper || "ABORT" <= upper
  }

  /** updateTransactionState over the statements of a query. */
  function TrackTx(stmts: seq<string>, inTx: bool): bool {
    if stmts == [] then inTx
    else
      var upper := Normal(stmts[0]);
      TrackTx(stmts[1..], if IsClosing(upper) then false else inTx || IsOpening(upper))
  }

  predicate HasTxKeyword(stmts: seq<string>) {
    exists stmt | stmt in stmts :: IsOpening(Normal(stmt)) || IsClosing(Normal(stmt))
  }

  // ---- The noise is part of the first statement's chunk, and of its comments ----

  lemma NoiseUnitIsUnit(s: string)
    requires NoiseUnit(s) > 0
    ensures s != [] && s[0] != ';' && NoiseUnit(s) == Unit(s)
  {
    hide BlockSpan, LineSpan;
  }

  lemma NoiseStep(s: string)
    ensures Noise(s) == var u := NoiseUnit(s); if u == 0 then 0 else u + Noise(s[u..])
  {
  }

  lemma ChunkStep(s: string)
    requires s != [] && s[0] != ';'
    ensures ChunkLen(s) == Unit(s) + ChunkLen(s[Unit(s)..])
  {
    hide Unit;
  }

  lemma {:induction false} ChunkPastNoise(s: string)
    ensures ChunkLen(s) == Noise(s) + ChunkLen(s[Noise(s)..])
    decreases |s|
  {
    hide *;
    var u := NoiseUnit(s);
    NoiseStep(s);
    if u == 0 {
      assert s[0..] == s;
    } else {
      NoiseUnitIsUnit(s);
      ChunkStep(s);
      ChunkPastNoise(s[u..]);
      SliceSlice(s, u, Noise(s[u..]));
    }
  }

  lemma {:induction false} ChunkPastOrdinary(s: string, n: nat)
    requires n <= |s| && forall i | 0 <= i < n :: IsOrdinary(s[i])
    ensures ChunkLen(s) >= n
  {
    hide ChunkLen, IsOrdinary;
    if n > 0 {
      assert s == [s[0]] + s[1..];
      ChunkPastChar(s[0], s[1..]);
      assert forall i | 0 <= i < n - 1 :: s[1..][i] == s[i + 1];
      ChunkPastOrdinary(s[1..], n - 1);
    }
  }

  lemma BlockSpanPrefix(s: string, m: nat)
    requires AtBlockComment(s) && BlockSpan(s) < m <= |s|
    ensures AtBlockComment(s[..m]) && BlockSpan(s[..m]) == BlockSpan(s)
  {
    hide BlockTail;
    var z, w := s[..m][2..], s[m..];
    assert s[2..] == z + w;
    BlockTailCut(z, w, 1);
  }

  /** Stripping one unit of noise in front of a longer text leaves at most a blank. */
  lemma StripNoiseUnit(s: string, m: nat) returns (w: string)
    requires 0 < NoiseUnit(s) < m <= |s|
    ensures AllBlank(w)
    ensures Classifier.StripComments(s[..m])
         == w + Classifier.StripComments(s[NoiseUnit(s)..][..m - NoiseUnit(s)])
  {
    hide BlockTail, LineLen;
    var u, t := NoiseUnit(s), s[..m];
    assert t[u..] == s[u..][..m - u];
    if IsSpace(s[0]) {
      w := [s[0]];
    } else if AtBlockComment(s) {
      BlockSpanPrefix(s, m);
      w := [];
    } else {
      assert s == t + s[m..];
      LineLenPrefix(t, s[m..]);
      w := ['\n'];
      StripNewline(t, u - 1);
    }
  }

  lemma StripNewline(t: string, n: nat)
    requires AtLineComment(t) && n == LineLen(t) < |t|
    ensures Classifier.StripComments(t) == ['\n'] + Classifier.StripComments(t[n + 1..])
  {
    hide LineLen;
    var r := t[n..];
    assert r[0] == '\n' && r[1..] == t[n + 1..];
  }

  lemma {:induction false} StripNoise(s: string, m: nat) returns (w: string)
    requires Noise(s) < m <= |s|
    ensures AllBlank(w)
    ensures Classifier.StripComments(s[..m]) == w + Classifier.StripComments(s[Noise(s)..][..m - Noise(s)])
    decreases |s|
  {
    hide NoiseUnit, Classifier.StripComments;
    var u := NoiseUnit(s);
    if u == 0 {
      w := [];
      assert s[0..][..m - 0] == s[..m];
    } else {
      var w1 := StripNoiseUnit(s, m);
      var w2 := StripNoise(s[u..], m - u);
      w := w1 + w2;
      SliceSlice(s, u, Noise(s[u..]));
      Associative(w1, w2, Classifier.StripComments(s[Noise(s)..][..m - Noise(s)]));
    }
  }

  lemma {:induction false} StripPlain(s: string, n: nat)
    requires n <= |s| && forall i | 0 <= i < n :: IsOrdinary(s[i])
    ensures Classifier.StripComments(s) == s[..n] + Classifier.StripComments(s[n..])
  {
    hide Classifier.StripComments;
    if n == 0 {
      assert s[0..] == s;
    } else {
      var r := s[1..];
      Classifier.StripCommentsStep(s);
      assert forall i | 0 <= i < n - 1 :: r[i] == s[i + 1];
      StripPlain(r, n - 1);
      SliceSlice(s, 1, n - 1);
      assert [s[0]] + r[..n - 1] == s[..n];
      Associative([s[0]], r[..n - 1], Classifier.StripComments(s[n..]));
    }
  }

  /** Blanks in front of the first keyword are spaces the noise scan skips. */
  lemma {:induction false} NoiseAfterBlanks(s: string, a: nat)
    requires a <= Noise(s) < |s| && AllBlank(s[..a]) && !IsBlank(s[Noise(s)])
    ensures Noise(s[a..]) == Noise(s) - a
  {
    if a == 0 {
      assert s[0..] == s;
    } else {
      assert s[0] == s[..a][0] && s[0] in s[..a];
      assert NoiseUnit(s) == 1;
      assert s[1..][..a - 1] == s[..a][1..];
      NoiseAfterBlanks(s[1..], a - 1);
      assert s[1..][a - 1..] == s[a..];
    }
  }

  lemma BlankEnds(p: string, a: nat, b: nat, i: nat)
    requires a <= b <= |p| && AllBlank(p[..a]) && AllBlank(p[b..]) && i < |p| && !IsBlank(p[i])
    ensures a <= i < b
  {
    var w, v := p[..a], p[b..];
    forall j | 0 <= j < a ensures IsBlank(p[j]) { assert p[j] == w[j]; }
    forall j | b <= j < |p| ensures IsBlank(p[j]) { assert p[j] == v[j - b]; }
  }

  /** Text that starts with a word, behind blanks: trimming keeps the word in front. */
  lemma TrimKeepsWord(w: string, word: string, rest: string)
    requires AllBlank(w) && word != [] && !IsBlank(word[0]) && !IsBlank(word[|word| - 1])
    ensures word <= Trim(w + (word + rest))
  {
    hide TrimLeft, TrimRight, Trim;
    var x := word + rest;
    TrimLeftPrepend(w, x);
    TrimRightKeeps(x, |word|);
    assert TrimRight(x) <= x;
    assert word == x[..|word|];
  }

  predicate WordAt(q: string, n: nat, len: nat) {
    && 1 <= len && n + len <= |q| && !IsBlank(q[n]) && !IsBlank(q[n + len - 1])
    && forall i | n <= i < n + len :: IsOrdinary(q[i])
  }

  lemma StripSlice(q: string, a: nat, b: nat) returns (w: string)
    requires a <= Noise(q) < b <= |q| && AllBlank(q[..a]) && !IsBlank(q[Noise(q)])
    ensures AllBlank(w)
    ensures Classifier.StripComments(q[a..b]) == w + Classifier.StripComments(q[Noise(q)..b])
  {
    hide *;
    NoiseAfterBlanks(q, a);
    SlicePieces(q, a, Noise(q), b);
    w := StripNoise(q[a..], b - a);
  }

  /** A statement cut from the query around the word behind the noise still leads with that word. */
  lemma NormalOfSlice(q: string, a: nat, b: nat, len: nat)
    requires WordAt(q, Noise(q), len) && a <= Noise(q) && Noise(q) + len <= b <= |q| && AllBlank(q[..a])
    ensures Upper(q[Noise(q)..][..len]) <= Normal(q[a..b])
  {
    hide *;
    var n := Noise(q);
    WordWithin(q, n, len, b);
    var w := StripSlice(q, a, b);
    WordStaysInFront(w, q[n..b], len);
    NormalIs(q[a..b]);
  }

  lemma NormalIs(stmt: string)
    ensures Normal(stmt) == Upper(Trim(Classifier.StripComments(stmt)))
  {
  }

  lemma WordWithin(q: string, n: nat, len: nat, b: nat)
    requires WordAt(q, n, len) && n + len <= b <= |q|
    ensures WordAt(q[n..b], 0, len) && q[n..b][..len] == q[n..][..len] && 1 <= len && !IsBlank(q[n])
  {
    hide IsOrdinary, IsBlank;
    var t := q[n..b];
    forall i | 0 <= i < len ensures IsOrdinary(t[i]) { assert t[i] == q[n + i]; }
  }

  lemma WordStaysInFront(w: string, t: string, len: nat)
    requires AllBlank(w) && WordAt(t, 0, len)
    ensures Upper(t[..len]) <= Upper(Trim(w + Classifier.StripComments(t)))
  {
    hide Classifier.StripComments, Trim, IsBlank, IsOrdinary;
    StripPlain(t, len);
    TrimKeepsWord(w, t[..len], Classifier.StripComments(t[len..]));
  }

  lemma SlicePieces(q: string, a: nat, n: nat, b: nat)
    requires a <= n <= b <= |q|
    ensures q[a..][..b - a] == q[a..b] && q[a..][n - a..][..b - a - (n - a)] == q[n..b]
  {
  }

  /** A single-statement query with a word behind its noise is one statement that leads with the word. */
  lemma SingleWord(q: string, len: nat)
    requires Classifier.IsSingle(q) && WordAt(q, Noise(q), len)
    ensures |Split(q)| == 1 && Upper(q[Noise(q)..][..len]) <= Normal(Split(q)[0])
  {
    hide Noise, ChunkLen, Trim, IsOrdinary, IsBlank, Split, Normal, Upper, Classifier.IsSingle, AllBlank;
    var n, k := Noise(q), ChunkLen(q);
    Classifier.SingleSplit(q);
    ChunkPastNoise(q);
    var r := q[n..];
    forall i | 0 <= i < len ensures IsOrdinary(r[i]) { assert r[i] == q[n + i]; }
    ChunkPastOrdinary(r, len);
    var p := q[..k];
    var a, b := TrimShape(p);
    BlankEnds(p, a, b, n);
    BlankEnds(p, a, b, n + len - 1);
    assert p[..a] == q[..a] && p[a..b] == q[a..b];
    NormalOfSlice(q, a, b, len);
  }

  // ---- Fast against slow ----

  lemma FoldLetter(c: char, k: char)
    requires 'A' <= k <= 'Z' && Fold(c) == Fold(k)
    ensures UpperChar(c) == k && IsOrdinary(c) && !IsBlank(c)
  {
  }

  lemma FoldSpace(c: char)
    requires Fold(c) == Fold(' ')
    ensures (c == ' ' || c == NUL) && IsOrdinary(c)
  {
  }

  predicate IsWord(keyword: string) {
    && keyword != [] && (forall i | 0 <= i < |keyword| :: 'A' <= keyword[i] <= 'Z' || keyword[i] == ' ')
    && keyword[0] != ' ' && keyword[|keyword| - 1] != ' '
  }

  lemma KeywordWord(q: string, n: nat, keyword: string)
    requires n <= |q| && IsWord(keyword) && EqualFold(q[n..], keyword)
    ensures WordAt(q, n, |keyword|)
  {
    hide Fold, IsOrdinary, IsBlank;
    var s := q[n..];
    forall i | 0 <= i < |keyword|
      ensures IsOrdinary(s[i]) && (keyword[i] != ' ' ==> !IsBlank(s[i]))
    {
      if keyword[i] == ' ' { FoldSpace(s[i]); } else { FoldLetter(s[i], keyword[i]); }
    }
    forall i | n <= i < n + |keyword| ensures IsOrdinary(q[i]) { assert q[i] == s[i - n]; }
    assert s[0] == q[n] && s[|keyword| - 1] == q[n + |keyword| - 1];
  }

  lemma KeywordUpper(s: string, keyword: string)
    requires IsWord(keyword) && EqualFold(s, keyword)
    ensures forall i | 0 <= i < |keyword| ::
              Upper(s[..|keyword|])[i] == (if keyword[i] == ' ' then s[i] else keyword[i])
    ensures forall i | 0 <= i < |keyword| :: keyword[i] == ' ' ==> s[i] == ' ' || s[i] == NUL
  {
    hide Fold;
    var u := Upper(s[..|keyword|]);
    forall i | 0 <= i < |keyword|
      ensures u[i] == (if keyword[i] == ' ' then s[i] else keyword[i])
      ensures keyword[i] == ' ' ==> s[i] == ' ' || s[i] == NUL
    {
      if keyword[i] == ' ' { FoldSpace(s[i]); } else { FoldLetter(s[i], keyword[i]); }
    }
  }

  /** The statement both paths look at, and its leading text: the keyword, except that the fast
      comparison also takes a NUL for the space of START TRANSACTION. */
  lemma StatementLedBy(q: string, keyword: string)
    requires Classifier.IsSingle(q) && IsWord(keyword) && LedBy(q[Noise(q)..], keyword)
    ensures |Split(q)| == 1
    ensures var u, s := Normal(Split(q)[0]), q[Noise(q)..];
            && |u| >= |keyword|
            && (forall i | 0 <= i < |keyword| :: u[i] == if keyword[i] == ' ' then s[i] else keyword[i])
            && (forall i | 0 <= i < |keyword| :: keyword[i] == ' ' ==> s[i] == ' ' || s[i] == NUL)
  {
    hide Noise, Split, Normal, Fold, Classifier.IsSingle, WordAt;
    var n := Noise(q);
    KeywordWord(q, n, keyword);
    KeywordUpper(q[n..], keyword);
    SingleWord(q, |keyword|);
  }

  lemma OneStatement(stmts: seq<string>, inTx: bool)
    requires |stmts| == 1
    ensures var upper := Normal(stmts[0]);
            TrackTx(stmts, inTx) == if IsClosing(upper) then false else inTx || IsOpening(upper)
  {
    hide Normal, IsClosing, IsOpening;
    assert stmts[1..] == [];
  }

  /** The five one-word commands. */
  lemma OneWordTx(q: string, keyword: string)
    requires Classifier.IsSingle(q) && LedBy(q[Noise(q)..], keyword)
    requires keyword in ["BEGIN", "COMMIT", "ROLLBACK", "END", "ABORT"]
    ensures |Split(q)| == 1 && forall inTx :: TrackTx(Split(q), inTx) == (keyword == "BEGIN")
  {
    hide Noise, Split, Normal, LedBy, TrackTx;
    StatementLedBy(q, keyword);
    var u := Normal(Split(q)[0]);
    assert keyword <= u;
    forall inTx ensures TrackTx(Split(q), inTx) == (keyword == "BEGIN") { OneStatement(Split(q), inTx); }
  }

  predicate StartsWithNul(q: string) {
    var s := q[Noise(q)..];
    |s| > 5 && Fold(s[0]) == Fold('S') && s[5] == NUL
  }

  lemma StartEffect(u: string, c: char)
    requires |u| >= 17 && (c == ' ' || c == NUL)
    requires forall i | 0 <= i < 17 :: u[i] == if i == 5 then c else "START TRANSACTION"[i]
    ensures !IsClosing(u) && (IsOpening(u) <==> c == ' ')
  {
    assert u[0] == 'S' && u[5] == c;
    if c == ' ' { assert "START TRANSACTION" <= u; }
  }

  lemma StartLength(q: string)
    requires LedBy(q[Noise(q)..], "START TRANSACTION")
    ensures |q[Noise(q)..]| >= 17 && (StartsWithNul(q) <==> q[Noise(q)..][5] == NUL)
  {
    hide Noise;
  }

  lemma StartIsWord()
    ensures IsWord("START TRANSACTION")
    ensures forall i | 0 <= i < 17 :: "START TRANSACTION"[i] == ' ' <==> i == 5
  {
  }

  lemma StartTx(q: string)
    requires Classifier.IsSingle(q) && LedBy(q[Noise(q)..], "START TRANSACTION")
    ensures |Split(q)| == 1
    ensures forall inTx :: TrackTx(Split(q), inTx) == (inTx || !StartsWithNul(q))
  {
    var s := q[Noise(q)..];
    StartLength(q);
    StartIsWord();
    hide *;
    StatementLedBy(q, "START TRANSACTION");
    StartEffect(Normal(Split(q)[0]), s[5]);
    forall inTx ensures TrackTx(Split(q), inTx) == (inTx || !StartsWithNul(q)) { OneStatement(Split(q), inTx); }
  }

  lemma LedByFirst(s: string)
    ensures s == [] || Fold(s[0]) != Fold('b') ==> !LedBy(s, "BEGIN")
    ensures s == [] || Fold(s[0]) != Fold('s') ==> !LedBy(s, "START TRANSACTION")
    ensures s == [] || Fold(s[0]) != Fold('c') ==> !LedBy(s, "COMMIT")
    ensures s == [] || Fold(s[0]) != Fold('r') ==> !LedBy(s, "ROLLBACK")
    ensures s == [] || Fold(s[0]) != Fold('e') ==> !LedBy(s, "END")
    ensures s == [] || Fold(s[0]) != Fold('a') ==> !LedBy(s, "ABORT")
  {
  }

  lemma NulFirst(q: string)
    requires StartsWithNul(q)
    ensures q[Noise(q)..] != []
    ensures var c := Fold(q[Noise(q)..][0]);
            c != Fold('b') && c != Fold('c') && c != Fold('r') && c != Fold('e') && c != Fold('a')
  {
    hide Noise;
  }

  /** The first byte already tells the six commands apart. */
  lemma OneCommand(q: string)
    requires StartsWithNul(q) && TxPrefix(q) != NoTx
    ensures LedBy(q[Noise(q)..], "START TRANSACTION")
  {
    hide LedBy, Noise, Fold, StartsWithNul;
    NulFirst(q);
    LedByFirst(q[Noise(q)..]);
  }

  /** Fast transaction detection refines the slow scan: one statement, and the same new flag whatever the
      old one was, if and only if START and TRANSACTION are not joined by a NUL. */
  lemma FastTxRefinesSlow(q: string)
    requires Classifier.IsSingle(q) && TxPrefix(q) != NoTx
    ensures |Split(q)| == 1
    ensures (forall inTx :: TrackTx(Split(q), inTx) == TxPrefix(q).Opens?) <==> !StartsWithNul(q)
  {
    if StartsWithNul(q) { OneCommand(q); }
    hide Noise, Split, LedBy, StartsWithNul, TrackTx, Classifier.IsSingle;
    var s := q[Noise(q)..];
    if LedBy(s, "START TRANSACTION") {
      StartTx(q);
      assert TrackTx(Split(q), false) == !StartsWithNul(q);
    } else if LedBy(s, "BEGIN") {
      OneWordTx(q, "BEGIN");
    } else if LedBy(s, "COMMIT") {
      OneWordTx(q, "COMMIT");
    } else if LedBy(s, "ROLLBACK") {
      OneWordTx(q, "ROLLBACK");
    } else if LedBy(s, "END") {
      OneWordTx(q, "END");
    } else {
      OneWordTx(q, "ABORT");
    }
  }

  /** Query text never holds a NUL, as the wire format ends it there: fast detection always refines the slow scan. */
  lemma FastTxAgrees(q: string)
    requires Classifier.IsSingle(q) && TxPrefix(q) != NoTx && NUL !in q
    ensures |Split(q)| == 1 && forall inTx :: TrackTx(Split(q), inTx) == TxPrefix(q).Opens?
  {
    hide TxPrefix, Split, TrackTx, Noise, Fold;
    FastTxRefinesSlow(q);
  }

  const NUL_START := "START" + [NUL] + "TRANSACTION"

  lemma NulStartLed()
    ensures Noise(NUL_START) == 0 && LedBy(NUL_START, "START TRANSACTION") && ';' !in NUL_START
  {
    assert NUL_START[0] == 'S' && NoiseUnit(NUL_START) == 0;
  }

  /** On raw bytes the folding comparison takes a NUL for a space. */
  lemma NulIsTakenForSpace()
    ensures Classifier.IsSingle(NUL_START) && TxPrefix(NUL_START) == Opens && !TrackTx(Split(NUL_START), false)
  {
    NulStartLed();
    var q := NUL_START;
    assert q[5] == NUL && Fold(q[0]) == Fold('S');
    hide Noise, Split, LedBy, TrackTx, Fold, Classifier.IsSingle;
    assert q[0..] == q;
    Classifier.NoSemicolon(q);
    StartTx(q);
  }

  // ---- Routing ----

  datatype Route = Writer | Reader

  /** A session's routing state. The flags below it are fixed when it is created. */
  datatype Tracking = Tracking(inTx: bool, pinned: bool, lastWrite: Option<int>)

  datatype Policy = Policy(causal: bool, delay: int)

  predicate RecentWrite(p: Policy, t: Tracking, now: int) {
    p.delay > 0 && t.lastWrite.Some? && now - t.lastWrite.value < p.delay
  }

  /** routeQueryLocked below the transaction checks: what the classification decides. */
  function RouteByType(p: Policy, t: Tracking, kind: Classifier.QueryType, now: int): (Route, Tracking) {
    if kind.Write? then (Writer, if p.causal then t else t.(lastWrite := Some(now)))
    else if p.causal then (Reader, t)
    else if RecentWrite(p, t, now) then (Writer, t)
    else (Reader, t)
  }

  /** routeQueryLocked; `parsed` is the AST classifier's answer when that classifier is switched on. */
  function RouteQuery(p: Policy, t: Tracking, query: string, parsed: Option<Classifier.QueryType>,
                      now: int): (Route, Tracking)
  {
    var kind := if parsed.Some? then parsed.value else Classifier.Classify(query);
    if Classifier.IsSingle(query) then
      var mark := TxPrefix(query);
      var t' := if mark.NoTx? then t else t.(inTx := mark.Opens?);
      if t'.pinned || !mark.NoTx? || t'.inTx then (Writer, t') else RouteByType(p, t', kind, now)
    else
      var t' := t.(inTx := TrackTx(Split(query), t.inTx));
      if t'.pinned || t.inTx || t'.inTx || HasTxKeyword(Split(query)) then (Writer, t')
      else RouteByType(p, t', kind, now)
  }

  /** In a transaction before or after the query, or pinned: always the writer. */
  lemma TransactionForcesWriter(p: Policy, t: Tracking, query: string,
                                parsed: Option<Classifier.QueryType>, now: int)
    ensures var (route, t') := RouteQuery(p, t, query, parsed, now);
            && t'.pinned == t.pinned
            && (t.inTx || t'.inTx || t.pinned ==> route == Writer)
            && (t'.lastWrite != t.lastWrite ==> route == Writer && !p.causal && t'.lastWrite == Some(now))
  {
    hide Classifier.IsSingle, TxPrefix, TrackTx, Split, Classifier.Classify, HasTxKeyword, RecentWrite;
  }

  /** The commands routeLocked knows: not END, not ABORT. */
  predicate LooksLikeTx(upper: string) {
    "BEGIN" <= upper || "START TRANSACTION" <= upper || "COMMIT" <= upper || "ROLLBACK" <= upper
  }

  /** routeLocked: where a prepared statement goes. */
  function RouteStatement(p: Policy, t: Tracking, query: string, parsed: Option<Classifier.QueryType>,
                          now: int): Route
  {
    var upper := Normal(query);
    var kind := if parsed.Some? then parsed.value else Classifier.Classify(query);
    if LooksLikeTx(upper) then Writer
    else if t.pinned || t.inTx || kind.Write? then Writer
    else if !p.causal && RecentWrite(p, t, now) then Writer
    else Reader
  }

  // ---- The code ----

  method SkipLeadingNoise(query: string) returns (i: nat)
    ensures i == Noise(query)
  {
    hide *;
    i := 0;
    assert query[0..] == query;
    while i < |query|
      invariant 0 <= i <= |query| && i + Noise(query[i..]) == Noise(query)
    {
      NoiseStep(query[i..]);
      var j := NoiseTurn(query, i);
      if j == i { return; }
      SliceSlice(query, i, j - i);
      i := j;
    }
  }

  /** One turn of the loop. */
  method NoiseTurn(query: string, i: nat) returns (j: nat)
    requires i < |query|
    ensures j == i + NoiseUnit(query[i..])
  {
    ghost var s := query[i..];
    j := i;
    if IsSpace(query[i]) {
      j := i + 1;
    } else if i + 1 < |query| && query[i] == '/' && query[i + 1] == '*' {
      j := SkipBlockComment(query, i);
    } else if i + 1 < |query| && query[i] == '-' && query[i + 1] == '-' {
      j := SkipLine(query, i);
      if j < |query| { j := j + 1; }
    }
  }

  method MatchesFold(s: string, target: string) returns (same: bool)
    ensures same == EqualFold(s, target)
  {
    if |s| < |target| { return false; }
    for i := 0 to |target|
      invariant forall k | 0 <= k < i :: Fold(s[k]) == Fold(target[k])
    {
      if Fold(s[i]) != Fold(target[i]) { return false; }
    }
    return true;
  }

  method IsLedBy(s: string, keyword: string) returns (led: bool)
    ensures led == LedBy(s, keyword)
  {
    led := MatchesFold(s, keyword);
    led := led && (|s| == |keyword| || IsSpace(s[|keyword|]) || s[|keyword|] == ';');
  }

  /** hasTxPrefix: the first byte picks the only command the text can be. */
  method HasTxPrefix(query: string) returns (mark: TxMark)
    ensures mark == TxPrefix(query)
  {
    var i := SkipLeadingNoise(query);
    var rest := query[i..];
    hide LedBy, Noise;
    LedByFirst(rest);
    if i >= |query| { return NoTx; }
    var c := Fold(rest[0]);
    var led: bool;
    mark := NoTx;
    if c == Fold('b') {
      led := IsLedBy(rest, "BEGIN");
      if led { return Opens; }
    } else if c == Fold('s') {
      led := IsLedBy(rest, "START TRANSACTION");
      if led { return Opens; }
    } else if c == Fold('c') {
      led := IsLedBy(rest, "COMMIT");
      if led { return Closes; }
    } else if c == Fold('r') {
      led := IsLedBy(rest, "ROLLBACK");
      if led { return Closes; }
    } else if c == Fold('e') {
      led := IsLedBy(rest, "END");
      if led { return Closes; }
    } else if c == Fold('a') {
      led := IsLedBy(rest, "ABORT");
      if led { return Closes; }
    }
  }

  class Session {
    var inTransaction: bool
    var pinned: bool
    var lastWriteTime: Option<int>
    var stmtRoutes: map<string, Route>
    const policy: Policy

    ghost function View(): Tracking
      reads this`inTransaction, this`pinned, this`lastWriteTime
    {
      Tracking(inTransaction, pinned, lastWriteTime)
    }

    constructor (policy: Policy)
      ensures View() == Tracking(false, false, None) && stmtRoutes == map[] && this.policy == policy
    {
      inTransaction, pinned, lastWriteTime, stmtRoutes := false, false, None, map[];
      this.policy := policy;
    }

    method UpdateTransactionState(query: string)
      modifies this`inTransaction
      ensures View() == old(View()).(inTx := TrackTx(Split(query), old(inTransaction)))
    {
      hide Normal, Split, IsOpening, IsClosing;
      var stmts := SplitStatements(query);
      assert stmts[0..] == stmts;
      for i := 0 to |stmts|
        invariant pinned == old(pinned) && lastWriteTime == old(lastWriteTime)
        invariant TrackTx(stmts[i..], inTransaction) == TrackTx(stmts, old(inTransaction))
      {
        assert stmts[i..][1..] == stmts[i + 1..];
        var upper := Normal(stmts[i]);
        if IsOpening(upper) { inTransaction := true; }
        if IsClosing(upper) { inTransaction := false; }
      }
    }

    method RouteWithTxState(query: string, parsed: Option<Classifier.QueryType>, now: int)
      returns (route: Route, wasInTx: bool, nowInTx: bool)
      modifies this`inTransaction, this`lastWriteTime
      ensures (route, View()) == RouteQuery(policy, old(View()), query, parsed, now)
      ensures wasInTx == old(inTransaction) && nowInTx == inTransaction
    {
      hide TxPrefix, TrackTx, Split, Classifier.IsSingle, Classifier.Classify, HasTxKeyword;
      wasInTx := inTransaction;
      var hasTxKeyword := false;
      if Classifier.IsSingle(query) {
        var mark := HasTxPrefix(query);
        if mark != NoTx {
          inTransaction := mark == Opens;
          hasTxKeyword := true;
        }
      } else {
        UpdateTransactionState(query);
        if pinned || wasInTx || inTransaction { return Writer, wasInTx, inTransaction; }
        var stmts := SplitStatements(query);
        if HasTxKeyword(stmts) { return Writer, wasInTx, inTransaction; }
      }
      nowInTx := inTransaction;
      if pinned || hasTxKeyword || inTransaction { return Writer, wasInTx, nowInTx; }
      var kind := if parsed.Some? then parsed.value else Classifier.Classify(query);
      route := Reader;
      if kind.Write? {
        if !policy.causal { lastWriteTime := Some(now); }
        route := Writer;
      } else if !policy.causal && policy.delay > 0 && lastWriteTime.Some? && now - lastWriteTime.value < policy.delay {
        route := Writer;
      }
    }

    method RegisterStatement(name: string, query: string, parsed: Option<Classifier.QueryType>, now: int)
      returns (route: Route)
      modifies this`stmtRoutes
      ensures route == RouteStatement(policy, View(), query, parsed, now)
      ensures stmtRoutes == old(stmtRoutes)[name := route]
      ensures inTransaction || pinned ==> route.Writer?
    {
      hide Normal, LooksLikeTx, Classifier.Classify, RecentWrite;
      route := RouteStatement(policy, Tracking(inTransaction, pinned, lastWriteTime), query, parsed, now);
      stmtRoutes := stmtRoutes[name := route];
    }

    /** An unknown statement goes to the writer. */
    method StatementRoute(name: string) returns (route: Route)
      ensures route == if name in stmtRoutes then stmtRoutes[name] else Writer
    {
      route := if name in stmtRoutes then stmtRoutes[name] else Writer;
    }

    method CloseStatement(name: string)
      modifies this`stmtRoutes
      ensures stmtRoutes == old(stmtRoutes) - {name}
    {
      stmtRoutes := stmtRoutes - {name};
    }

    method Pin()
      modifies this`pinned
      ensures pinned
    {
      pinned := true;
    }

    method SetInTransaction(v: bool)
      modifies this`inTransaction
      ensures inTransaction == v
    {
      inTransaction := v;
    }
  }
}
