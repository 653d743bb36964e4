/** What a session may do with the connections it borrows, told as a log of events. A lease is one
    borrow: the same connection borrowed again is a new lease. */
module Ownership {
  import opened Options

  type Lease = nat
  type PoolId = nat

  /** What ran on a connection: a simple query on the writer path, or anything else. */
  datatype Work = SimpleWrite(modifying: bool) | Batch | Read

  datatype Event =
    | Took(lease: Lease, pool: PoolId)
    | Ran(lease: Lease, work: Work, was: bool, now: bool, ok: bool)
    | Reset(lease: Lease, ok: bool)
    | Released(lease: Lease, pool: PoolId)
    | Discarded(lease: Lease, pool: PoolId)
    | Reloaded
    | Chose(reader: Option<PoolId>)  // the reader pool picked for a read, if any
    | Trouble                        // no connection to be had, or the client is gone

  /** The ledger after a log: the leases out and their pools, those with session state left behind, those
      an exchange failed on, and the lease the open transaction runs on. */
  datatype Ledger = Ledger(next: Lease, held: map<Lease, PoolId>, dirty: set<Lease>, broken: set<Lease>,
                           tx: Option<Lease>)

  const EMPTY := Ledger(0, map[], {}, {}, None)

  predicate GivesBack(e: Event, l: Lease) {
    (e.Released? || e.Discarded?) && e.lease == l
  }

  predicate Modifies(e: Event, l: Lease) {
    e.Ran? && e.work.SimpleWrite? && e.work.modifying && e.lease == l
  }

  predicate Fails(e: Event, l: Lease) {
    (e.Ran? || e.Reset?) && e.lease == l && !e.ok
  }

  function Record(g: Ledger, e: Event): Ledger {
    match e
    case Took(l, p) => g.(next := l + 1, held := g.held[l := p])
    case Ran(l, work, was, now, ok) =>
      g.(dirty := if Modifies(e, l) then g.dirty + {l} else g.dirty,
         broken := if ok then g.broken else g.broken + {l},
         tx := if now then Some(l) else None)
    case Reset(l, ok) => if ok then g.(dirty := g.dirty - {l}) else g.(broken := g.broken + {l})
    case Released(l, _) => g.(held := g.held - {l})
    case Discarded(l, _) => g.(held := g.held - {l})
    case Reloaded => g
    case Chose(_) => g
    case Trouble => g
  }

  /** A lease is new when taken and goes back to the pool it came from; it is put back idle only clean and
      sound, and thrown away only broken. What runs while a transaction is open knows of it and runs on its one
      lease; what runs outside finds none open. */
  predicate Allowed(g: Ledger, e: Event) {
    match e
    case Took(l, _) => l == g.next
    case Ran(l, _, was, _, _) => l in g.held && g.tx == if was then Some(l) else None
    case Reset(l, _) => l in g.held
    case Released(l, p) => l in g.held && g.held[l] == p && l !in g.dirty && l !in g.broken
    case Discarded(l, p) => l in g.held && g.held[l] == p && l in g.broken
    case Reloaded => true
    case Chose(_) => true
    case Trouble => true
  }

  lemma RanFacts(g: Ledger, l: Lease, work: Work, was: bool, now: bool, ok: bool)
    ensures Allowed(g, Ran(l, work, was, now, ok)) <==>
            l in g.held && g.tx == if was then Some(l) else None
    ensures var g' := Record(g, Ran(l, work, was, now, ok));
            g'.next == g.next && g'.held == g.held && g'.tx == if now then Some(l) else None
  {
  }

  function Replay(log: seq<Event>): Ledger {
    if log == [] then EMPTY else Record(Replay(log[..|log| - 1]), log[|log| - 1])
  }

  predicate Lawful(log: seq<Event>) {
    log == [] || (Lawful(log[..|log| - 1]) && Allowed(Replay(log[..|log| - 1]), log[|log| - 1]))
  }

  lemma Append(log: seq<Event>, e: Event)
    ensures Replay(log + [e]) == Record(Replay(log), e)
    ensures Lawful(log + [e]) <==> Lawful(log) && Allowed(Replay(log), e)
  {
    assert (log + [e])[..|log|] == log;
  }

  // ---- Stepping through a lawful log ----

  lemma {:induction false} AllowedAt(log: seq<Event>, i: nat)
    requires Lawful(log) && i < |log|
    ensures Lawful(log[..i]) && Allowed(Replay(log[..i]), log[i])
    ensures Lawful(log[..i + 1]) && Replay(log[..i + 1]) == Record(Replay(log[..i]), log[i])
  {
    if i == |log| - 1 {
      assert log[..i + 1] == log;
    } else {
      var prefix := log[..|log| - 1];
      AllowedAt(prefix, i);
      assert prefix[..i] == log[..i] && prefix[..i + 1] == log[..i + 1];
    }
  }

  /** Leases are numbered as they are taken, and what is held was taken. */
  lemma {:induction false} HeldWasTaken(log: seq<Event>, i: nat)
    requires Lawful(log) && i <= |log|
    ensures forall l | l in Replay(log[..i]).held :: l < Replay(log[..i]).next
  {
    if i == 0 {
      assert log[..0] == [];
    } else {
      HeldWasTaken(log, i - 1);
      AllowedAt(log, i - 1);
    }
  }

  lemma {:induction false} NextGrows(log: seq<Event>, i: nat, j: nat)
    requires Lawful(log) && i <= j <= |log|
    ensures Replay(log[..i]).next <= Replay(log[..j]).next
  {
    if i < j {
      NextGrows(log, i, j - 1);
      AllowedAt(log, j - 1);
    }
  }

  lemma {:induction false} HeldSince(log: seq<Event>, j: nat, l: Lease) returns (i: nat)
    requires Lawful(log) && j <= |log| && l in Replay(log[..j]).held
    ensures i < j && log[i] == Took(l, Replay(log[..j]).held[l])
    ensures forall k | i < k < j :: !GivesBack(log[k], l)
  {
    assert Replay(log[..0]) == EMPTY;
    if j > 0 {
      AllowedAt(log, j - 1);
      hide *;
      HeldStep(Replay(log[..j - 1]), log[j - 1], l);
      if l !in Replay(log[..j - 1]).held || log[j - 1] == Took(l, Replay(log[..j]).held[l]) {
        i := j - 1;
      } else {
        i := HeldSince(log, j - 1, l);
      }
    }
  }

  lemma HeldStep(g: Ledger, e: Event, l: Lease)
    requires l in Record(g, e).held
    ensures || e == Took(l, Record(g, e).held[l])
            || (l in g.held && g.held[l] == Record(g, e).held[l] && !GivesBack(e, l))
  {
  }

  /** Once taken, a lease stays out until it is given back. */
  lemma {:induction false} StillHeld(log: seq<Event>, i: nat, j: nat)
    requires Lawful(log) && i < j <= |log| && log[i].Took?
    requires forall k | i < k < j :: !GivesBack(log[k], log[i].lease)
    ensures log[i].lease in Replay(log[..j]).held && Replay(log[..j]).held[log[i].lease] == log[i].pool
  {
    AllowedAt(log, j - 1);
    if i < j - 1 {
      StillHeld(log, i, j - 1);
      HeldWasTaken(log, j - 1);
    }
  }

  lemma {:induction false} Gone(log: seq<Event>, i: nat, j: nat, l: Lease)
    requires Lawful(log) && i < j <= |log| && GivesBack(log[i], l)
    ensures l !in Replay(log[..j]).held && l < Replay(log[..j]).next
  {
    AllowedAt(log, j - 1);
    if i == j - 1 {
      HeldWasTaken(log, i);
    } else {
      Gone(log, i, j - 1, l);
    }
  }

  // ---- Exactly once ----

  /** Event j is the one give-back of the lease taken by event i, and goes to the same pool. */
  predicate Returns(log: seq<Event>, i: nat, j: nat) {
    && i < j < |log| && log[i].Took? && GivesBack(log[j], log[i].lease) && log[j].pool == log[i].pool
    && forall k | 0 <= k < |log| && GivesBack(log[k], log[i].lease) :: k == j
  }

  lemma OneGiveBack(log: seq<Event>, j: nat, k: nat, l: Lease)
    requires Lawful(log) && j < |log| && k < |log| && GivesBack(log[j], l) && GivesBack(log[k], l)
    ensures j == k
  {
    AllowedAt(log, j);
    AllowedAt(log, k);
    if j < k { Gone(log, j, k, l); }
    if k < j { Gone(log, k, j, l); }
  }

  /** Every give-back belongs to one borrow. */
  lemma GiveBackWasTaken(log: seq<Event>, j: nat) returns (i: nat)
    requires Lawful(log) && j < |log| && (log[j].Released? || log[j].Discarded?)
    ensures Returns(log, i, j)
  {
    var l := log[j].lease;
    AllowedAt(log, j);
    i := HeldSince(log, j, l);
    forall k | 0 <= k < |log| && GivesBack(log[k], l) ensures k == j {
      OneGiveBack(log, j, k, l);
    }
  }

  /** Exactly-once ownership: with nothing held at the end, every borrow of the run was given back once, to
      the pool it came from; otherwise the leases still out are exactly those never given back. */
  lemma ExactlyOnce(log: seq<Event>, i: nat)
    requires Lawful(log) && i < |log| && log[i].Took?
    ensures log[i].lease !in Replay(log).held <==> exists j :: Returns(log, i, j)
  {
    var l := log[i].lease;
    assert log[..|log|] == log;
    if exists j | i < j < |log| :: GivesBack(log[j], l) {
      var j :| i < j < |log| && GivesBack(log[j], l);
      var i' := GiveBackWasTaken(log, j);
      TakenOnce(log, i, i');
      assert Returns(log, i, j);
      Gone(log, j, |log|, l);
    } else {
      StillHeld(log, i, |log|);
    }
  }

  lemma TakenOnce(log: seq<Event>, i: nat, k: nat)
    requires Lawful(log) && i < |log| && k < |log| && log[i].Took? && log[k].Took? && log[i].lease == log[k].lease
    ensures i == k
  {
    AllowedAt(log, i);
    AllowedAt(log, k);
    if i < k { NextGrows(log, i + 1, k); }
    if k < i { NextGrows(log, k + 1, i); }
  }

  // ---- What a pool sees ----

  function BorrowedFrom(g: Ledger, p: PoolId): set<Lease> {
    set l | l in g.held && g.held[l] == p
  }

  /** Every call a lawful log makes on a pool is one the pool expects: a borrow adds a connection that was not
      out, a Release or Discard names one that is, and nothing else touches the pool's borrowers. */
  lemma PoolSeesBorrowers(log: seq<Event>, i: nat, p: PoolId)
    requires Lawful(log) && i < |log|
    ensures var before, after := BorrowedFrom(Replay(log[..i]), p), BorrowedFrom(Replay(log[..i + 1]), p);
            match log[i]
            case Took(l, p') => l !in before && after == if p' == p then before + {l} else before
            case Released(l, p') => (l in before <==> p' == p) && after == before - {l}
            case Discarded(l, p') => (l in before <==> p' == p) && after == before - {l}
            case _ => after == before
  {
    AllowedAt(log, i);
    HeldWasTaken(log, i);
  }

  // ---- Dirty means reset ----

  lemma {:induction false} DirtyUntilReset(log: seq<Event>, i: nat, j: nat, l: Lease)
    requires Lawful(log) && i < j <= |log| && Modifies(log[i], l)
    requires forall k | i < k < j :: log[k] != Reset(l, true)
    ensures l in Replay(log[..j]).dirty
  {
    AllowedAt(log, j - 1);
    if i < j - 1 { DirtyUntilReset(log, i, j - 1, l); }
  }

  /** A connection that ran a session-modifying query on the writer path is put back idle only after a
      successful reset that came later than the query. */
  lemma DirtyMeansReset(log: seq<Event>, i: nat, j: nat, l: Lease)
    requires Lawful(log) && i < j < |log| && Modifies(log[i], l) && log[j].Released? && log[j].lease == l
    ensures exists k | i < k < j :: log[k] == Reset(l, true)
  {
    AllowedAt(log, j);
    if forall k | i < k < j :: log[k] != Reset(l, true) {
      DirtyUntilReset(log, i, j, l);
    }
  }

  // ---- Broken means discarded ----

  lemma {:induction false} BrokenStays(log: seq<Event>, i: nat, j: nat, l: Lease)
    requires Lawful(log) && i < j <= |log| && Fails(log[i], l)
    ensures l in Replay(log[..j]).broken
  {
    AllowedAt(log, j - 1);
    if i < j - 1 { BrokenStays(log, i, j - 1, l); }
  }

  lemma {:induction false} BrokenFailed(log: seq<Event>, j: nat, l: Lease) returns (i: nat)
    requires Lawful(log) && j <= |log| && l in Replay(log[..j]).broken
    ensures i < j && Fails(log[i], l)
  {
    assert log[..0] == [];
    if j > 0 {
      AllowedAt(log, j - 1);
      if Fails(log[j - 1], l) {
        i := j - 1;
      } else {
        i := BrokenFailed(log, j - 1, l);
      }
    }
  }

  /** A lease is discarded if and only if some exchange on it had failed. */
  lemma DiscardedIffFailed(log: seq<Event>, j: nat)
    requires Lawful(log) && j < |log| && (log[j].Released? || log[j].Discarded?)
    ensures log[j].Discarded? <==> exists i | 0 <= i < j :: Fails(log[i], log[j].lease)
  {
    var l := log[j].lease;
    AllowedAt(log, j);
    if log[j].Discarded? {
      var i := BrokenFailed(log, j, l);
    } else if exists i | 0 <= i < j :: Fails(log[i], l) {
      var i :| 0 <= i < j && Fails(log[i], l);
      BrokenStays(log, i, j, l);
    }
  }

  // ---- Transaction affinity ----

  lemma {:induction false} TxLease(log: seq<Event>, i: nat, j: nat)
    requires Lawful(log) && i < j <= |log| && log[i].Ran? && log[i].now
    requires forall k | i < k < j && log[k].Ran? :: log[k].now
    ensures Replay(log[..j]).tx == Some(log[i].lease)
  {
    AllowedAt(log, j - 1);
    if i < j - 1 { TxLease(log, i, j - 1); }
  }

  /** From the query that leaves a transaction open up to and including the one that closes it, whatever runs
      knows it is in that transaction and runs on its one lease, which is not given back in between. */
  lemma TransactionAffinity(log: seq<Event>, i: nat, j: nat)
    requires Lawful(log) && i < j < |log| && log[i].Ran? && log[i].now && log[j].Ran?
    requires forall k | i < k < j && log[k].Ran? :: log[k].now
    ensures log[j].was && log[j].lease == log[i].lease
    ensures forall k | i < k < j :: !GivesBack(log[k], log[i].lease)
  {
    TxLease(log, i, j);
    AllowedAt(log, j);
    forall k | i < k < j ensures !GivesBack(log[k], log[i].lease) {
      if GivesBack(log[k], log[i].lease) { Gone(log, k, j, log[i].lease); }
    }
  }
}
