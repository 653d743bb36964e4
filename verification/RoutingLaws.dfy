/** Where a query goes and what is remembered of it (internal/router/router.go), for every query, and reads after
    writes over runs of queries. */
module RoutingLaws {
  import opened Options
  import opened Lexer
  import opened Router
  import Classifier
  import TransactionText

  function Kind(query: string, parsed: Option<Classifier.QueryType>): Classifier.QueryType {
    if parsed.Some? then parsed.value else Classifier.Classify(query)
  }

  /** A transaction command leads the text, or one of several statements. */
  predicate HasCommand(query: string) {
    if Classifier.IsSingle(query)
    then exists kw | kw in TransactionText.COMMANDS :: LedBy(query[Noise(query)..], kw)
    else exists stmt | stmt in Split(query) :: exists kw | kw in TransactionText.COMMANDS :: kw <= Normal(stmt)
  }

  lemma CommandIs(query: string)
    ensures HasCommand(query) <==>
            if Classifier.IsSingle(query) then TxPrefix(query) != NoTx else HasTxKeyword(Split(query))
  {
    hide Classifier.IsSingle, TxPrefix, Normal, Split, LedBy, Noise, IsOpening, IsClosing;
    TransactionText.PrefixLed(query);
    forall stmt | stmt in Split(query)
      ensures IsOpening(Normal(stmt)) || IsClosing(Normal(stmt)) <==>
              exists kw | kw in TransactionText.COMMANDS :: kw <= Normal(stmt)
    {
      TransactionText.SeesIff(Normal(stmt));
    }
  }

  /** The query runs inside, opens or closes a transaction, or the session is pinned. */
  predicate Bound(t: Tracking, t': Tracking, query: string) {
    t.pinned || t.inTx || t'.inTx || HasCommand(query)
  }

  /** A query goes to the writer if and only if a transaction, a pin or a command binds it there, it writes, or a write
      was remembered less than the delay ago and causal mode is off. */
  lemma RouteWriterIff(p: Policy, t: Tracking, query: string, parsed: Option<Classifier.QueryType>, now: int)
    ensures var (route, t') := RouteQuery(p, t, query, parsed, now);
            route == Writer <==>
            || Bound(t, t', query) || Kind(query, parsed) == Classifier.Write
            || (!p.causal && p.delay > 0 && t.lastWrite.Some? && now - t.lastWrite.value < p.delay)
  {
    hide Classifier.IsSingle, TxPrefix, TrackTx, Split, Classifier.Classify, HasTxKeyword, HasCommand;
    CommandIs(query);
  }

  /** A write is remembered, with its time, if and only if nothing binds it and causal mode is off; nothing else
      changes what is remembered. */
  lemma RemembersWriteIff(p: Policy, t: Tracking, query: string, parsed: Option<Classifier.QueryType>, now: int)
    ensures var t' := RouteQuery(p, t, query, parsed, now).1;
            && t'.pinned == t.pinned
            && t'.lastWrite == if !Bound(t, t', query) && Kind(query, parsed) == Classifier.Write && !p.causal
                               then Some(now) else t.lastWrite
  {
    hide Classifier.IsSingle, TxPrefix, TrackTx, Split, Classifier.Classify, HasTxKeyword, HasCommand, RecentWrite;
    CommandIs(query);
  }

  /** A prepared statement goes to the writer if and only if a transaction or a pin binds it there, its text without
      comments starts with one of four commands, it writes, or a write was remembered less than the delay ago. */
  lemma PreparedWriterIff(p: Policy, t: Tracking, query: string, parsed: Option<Classifier.QueryType>, now: int)
    ensures RouteStatement(p, t, query, parsed, now) == Writer <==>
            || t.pinned || t.inTx || Kind(query, parsed) == Classifier.Write
            || (exists kw | kw in TransactionText.PREPARED_COMMANDS :: kw <= Normal(query))
            || (!p.causal && p.delay > 0 && t.lastWrite.Some? && now - t.lastWrite.value < p.delay)
  {
    hide Classifier.Classify, Normal, LooksLikeTx;
    TransactionText.SeesIff(Normal(query));
  }

  // ---- Reads after writes ----

  datatype Asked = Asked(text: string, parsed: Option<Classifier.QueryType>, time: int)

  function Ask(p: Policy, t: Tracking, a: Asked): (Route, Tracking) {
    RouteQuery(p, t, a.text, a.parsed, a.time)
  }

  /** The routing state after the first n queries. */
  function After(p: Policy, t: Tracking, qs: seq<Asked>, n: nat): Tracking
    requires n <= |qs|
  {
    if n == 0 then t else Ask(p, After(p, t, qs, n - 1), qs[n - 1]).1
  }

  predicate InTime(qs: seq<Asked>) {
    forall i, j | 0 <= i < j < |qs| :: qs[i].time <= qs[j].time
  }

  /** Query i is a write that nothing binds to the writer but what it does. */
  predicate Writes(p: Policy, t: Tracking, qs: seq<Asked>, i: nat)
    requires i < |qs|
  {
    && !Bound(After(p, t, qs, i), After(p, t, qs, i + 1), qs[i].text)
    && Kind(qs[i].text, qs[i].parsed) == Classifier.Write
  }

  lemma {:induction false} WriteIsRemembered(p: Policy, t: Tracking, qs: seq<Asked>, i: nat, n: nat)
    requires i < n <= |qs| && InTime(qs) && !p.causal && Writes(p, t, qs, i)
    ensures var last := After(p, t, qs, n).lastWrite; last.Some? && last.value >= qs[i].time
  {
    hide RouteQuery, Bound, Kind;
    var m := n - 1;
    var a := qs[m];
    RemembersWriteIff(p, After(p, t, qs, m), a.text, a.parsed, a.time);
    if i < m { WriteIsRemembered(p, t, qs, i, m); }
  }

  /** Read-after-write protection: with causal mode off, every query less than the delay after a write goes to the
      writer, whatever came between. */
  lemma ReadsFollowWrites(p: Policy, t: Tracking, qs: seq<Asked>, i: nat, j: nat)
    requires i < j < |qs| && InTime(qs) && !p.causal && Writes(p, t, qs, i)
    requires qs[j].time - qs[i].time < p.delay
    ensures Ask(p, After(p, t, qs, j), qs[j]).0 == Writer
  {
    hide RouteQuery, Bound, Kind, After;
    WriteIsRemembered(p, t, qs, i, j);
    RouteWriterIff(p, After(p, t, qs, j), qs[j].text, qs[j].parsed, qs[j].time);
  }

  // ---- Several statements ----

  predicate Commands(stmt: string) {
    exists kw | kw in TransactionText.COMMANDS :: kw <= Normal(stmt)
  }

  predicate OpensTx(stmt: string) {
    "BEGIN" <= Normal(stmt) || "START TRANSACTION" <= Normal(stmt)
  }

  lemma OneEffect(stmt: string)
    ensures IsClosing(Normal(stmt)) <==> Commands(stmt) && !OpensTx(stmt)
    ensures IsOpening(Normal(stmt)) <==> OpensTx(stmt)
    ensures OpensTx(stmt) ==> Commands(stmt)
  {
    hide Normal;
    var u := Normal(stmt);
    TransactionText.SeesIff(u);
    assert IsOpening(u) ==> u[0] == 'B' || u[0] == 'S';
  }

  lemma TrackStep(stmts: seq<string>, inTx: bool)
    requires stmts != []
    ensures TrackTx(stmts, inTx) ==
            TrackTx(stmts[1..], if Commands(stmts[0]) then OpensTx(stmts[0]) else inTx)
  {
    hide Normal, IsOpening, IsClosing, Commands, OpensTx;
    OneEffect(stmts[0]);
  }

  lemma {:induction false} NoCommandKeeps(stmts: seq<string>, inTx: bool)
    requires forall i | 0 <= i < |stmts| :: !Commands(stmts[i])
    ensures TrackTx(stmts, inTx) == inTx
  {
    hide *;
    if stmts == [] {
      NothingTracked(inTx);
    } else {
      TrackStep(stmts, inTx);
      assert forall i | 0 <= i < |stmts| - 1 :: stmts[1..][i] == stmts[i + 1];
      NoCommandKeeps(stmts[1..], inTx);
    }
  }

  lemma NothingTracked(inTx: bool)
    ensures TrackTx([], inTx) == inTx
  {
  }

  /** The last statement with a command decides the flag, whatever came before it. */
  lemma {:induction false} LastCommandDecides(stmts: seq<string>, inTx: bool, i: nat)
    requires i < |stmts| && Commands(stmts[i]) && forall j | i < j < |stmts| :: !Commands(stmts[j])
    ensures TrackTx(stmts, inTx) == OpensTx(stmts[i])
  {
    hide Commands, OpensTx, TrackTx;
    var rest := stmts[1..];
    TrackStep(stmts, inTx);
    assert forall j | 0 <= j < |rest| :: rest[j] == stmts[j + 1];
    if i == 0 {
      NoCommandKeeps(rest, OpensTx(stmts[0]));
    } else {
      LastCommandDecides(rest, if Commands(stmts[0]) then OpensTx(stmts[0]) else inTx, i - 1);
    }
  }
}
