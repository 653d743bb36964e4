/** The session loop (internal/proxy/query.go with backend.go, query_extended.go, query_read.go): one
    client's messages against pools that a reload may swap at any time. Every I/O outcome, breaker answer
    and reload is an arbitrary choice. */
module QueryLoop {
  import opened Options
  import opened Ownership
  import Classifier
  import Router
  import opened Turns

  // ---- What the loop's variables say about the ledger ----

  predicate Paired(lease: Option<Lease>, pool: Option<PoolId>, g: Ledger) {
    && (lease.Some? <==> pool.Some?)
    && (lease.Some? ==> lease.value in g.held && g.held[lease.value] == pool.value)
  }

  /** The leases out are those of the bound writer, the bound reader and x, each paired with the pool it came
      from, and the ones the loop lost track of. Those it knows are sound, and only the flag allows one of
      them, never the reader, to be dirty. */
  ghost predicate Accounts(g: Ledger, w: Option<Lease>, wp: Option<PoolId>, r: Option<Lease>, rp: Option<PoolId>,
                           x: Option<Lease>, xp: Option<PoolId>, flagged: bool, lost: set<Lease>)
  {
    && Paired(w, wp, g) && Paired(r, rp, g) && Paired(x, xp, g)
    && (w.Some? ==> w != r && w != x && w.value !in lost) && (r.Some? ==> r != x && r.value !in lost)
    && (x.Some? ==> x.value !in lost)
    && (forall l | l in g.held :: w == Some(l) || r == Some(l) || x == Some(l) || l in lost)
    && (forall l | l in g.held :: l < g.next)
    && (forall l | l in g.held && l !in lost :: l !in g.broken && (l in g.dirty ==> flagged && r != Some(l)))
    && (forall l | l in g.dirty || l in g.broken :: l < g.next)
    && (forall l | l in lost :: l in g.held)
  }

  /** Lease l went back; nothing else changed. */
  predicate Freed(g: Ledger, g': Ledger, l: Lease) {
    && g'.next == g.next && g'.tx == g.tx && g'.held == g.held - {l}
    && g'.dirty <= g.dirty && g'.broken <= g.broken + {l}
  }

  lemma FreedFields(g: Ledger, g': Ledger, l: Lease, freed: bool)
    requires freed ==> Freed(g, g', l)
    ensures freed ==> g'.next == g.next && g'.tx == g.tx
  {
  }

  lemma AccountsFlagged(g: Ledger, w: Option<Lease>, wp: Option<PoolId>, r: Option<Lease>, rp: Option<PoolId>,
                        x: Option<Lease>, xp: Option<PoolId>, flagged: bool, lost: set<Lease>)
    requires Accounts(g, w, wp, r, rp, x, xp, flagged, lost)
    ensures Accounts(g, w, wp, r, rp, x, xp, true, lost)
  {
  }

  lemma AccountsRan(g: Ledger, w: Option<Lease>, wp: Option<PoolId>, r: Option<Lease>, rp: Option<PoolId>,
                    x: Option<Lease>, xp: Option<PoolId>, flagged: bool, lost: set<Lease>, e: Event)
    requires Accounts(g, w, wp, r, rp, x, xp, flagged, lost)
    requires e.Ran? && e.ok && e.lease in g.held && (Modifies(e, e.lease) ==> r != Some(e.lease))
    ensures Accounts(Record(g, e), w, wp, r, rp, x, xp, flagged || Modifies(e, e.lease), lost)
  {
  }

  lemma ModifiesIs(lease: Lease, work: Work, was: bool, now: bool)
    ensures Modifies(Ran(lease, work, was, now, true), lease) <==> work.SimpleWrite? && work.modifying
  {
  }

  /** The lease in hand becomes the bound writer, the bound reader, or is forgotten. */
  lemma AccountsBind(g: Ledger, r: Option<Lease>, rp: Option<PoolId>, x: Option<Lease>, xp: Option<PoolId>,
                     flagged: bool, lost: set<Lease>)
    requires Accounts(g, None, None, r, rp, x, xp, flagged, lost) && x.Some?
    ensures Accounts(g, x, xp, r, rp, None, None, flagged, lost)
    ensures r == None && x.value !in g.dirty ==> Accounts(g, None, None, x, xp, None, None, flagged, lost)
    ensures Accounts(g, None, None, r, rp, None, None, flagged, lost + {x.value})
  {
  }

  /** The only lease but the reader's went back: the flag may be cleared. */
  lemma AccountsFreed(g: Ledger, w: Option<Lease>, wp: Option<PoolId>, r: Option<Lease>, rp: Option<PoolId>,
                      x: Option<Lease>, xp: Option<PoolId>, flagged: bool, lost: set<Lease>, l: Lease, g': Ledger)
    requires Accounts(g, w, wp, r, rp, x, xp, flagged, lost) && Freed(g, g', l)
    requires (w == Some(l) && x == None) || (w == None && x == Some(l))
    ensures Accounts(g', None, None, r, rp, None, None, false, lost)
  {
  }

  /** The lease in hand, or the reader's, went back. */
  lemma AccountsReturned(g: Ledger, w: Option<Lease>, wp: Option<PoolId>, r: Option<Lease>, rp: Option<PoolId>,
                         x: Option<Lease>, xp: Option<PoolId>, flagged: bool, lost: set<Lease>, l: Lease, g': Ledger)
    requires Accounts(g, w, wp, r, rp, x, xp, flagged, lost) && Freed(g, g', l)
    ensures x == Some(l) ==> Accounts(g', w, wp, r, rp, None, None, flagged, lost)
    ensures r == Some(l) ==> Accounts(g', w, wp, None, None, x, xp, flagged, lost)
  {
  }

  /** A forgotten lease may turn out broken. */
  lemma AccountsForgotten(g: Ledger, r: Option<Lease>, rp: Option<PoolId>, flagged: bool, lost: set<Lease>,
                          l: Lease, g': Ledger)
    requires Accounts(g, None, None, r, rp, None, None, flagged, lost) && l in lost
    requires g' == g.(dirty := g'.dirty, broken := g'.broken) && g'.dirty <= g.dirty && g'.broken <= g.broken + {l}
    ensures Accounts(g', None, None, r, rp, None, None, false, lost)
  {
  }

  /** A failed exchange followed by the give-back of its lease, from either slot. */
  lemma AccountsLost(g: Ledger, w: Option<Lease>, wp: Option<PoolId>, r: Option<Lease>, rp: Option<PoolId>,
                     x: Option<Lease>, xp: Option<PoolId>, flagged: bool, lost: set<Lease>, e: Event, g': Ledger)
    requires Accounts(g, w, wp, r, rp, x, xp, flagged, lost)
    requires e.Ran? && !e.ok && Freed(Record(g, e), g', e.lease)
    ensures x == Some(e.lease) ==> Accounts(g', w, wp, r, rp, None, None, flagged, lost)
    ensures w == Some(e.lease) ==> Accounts(g', None, None, r, rp, x, xp, flagged, lost)
    ensures r == Some(e.lease) ==> Accounts(g', w, wp, None, None, x, xp, flagged, lost)
  {
  }

  class Loop {
    const session: Router.Session
    var writerPool: Option<PoolId>
    var boundWriter: Option<Lease>
    var boundWriterPool: Option<PoolId>
    var boundReader: Option<Lease>
    var boundReaderPool: Option<PoolId>
    var connDirty: bool
    var extLen: nat
    var extRoute: Router.Route
    var extTxStart: bool
    var extTxEnd: bool
    var extHasExecute: bool
    var extBlocked: bool
    var leases: nat
    var crashed: bool
    ghost var log: seq<Event>
    ghost var lost: set<Lease>

    ghost function Book(): Ledger
      reads this`log
    {
      Replay(log)
    }

    ghost predicate Sound(x: Option<Lease>, xp: Option<PoolId>)
      reads this`log, this`leases, this`boundWriter, this`boundWriterPool, this`boundReader, this`boundReaderPool
      reads this`connDirty, this`lost
    {
      && Lawful(log) && Book().next == leases
      && Accounts(Book(), boundWriter, boundWriterPool, boundReader, boundReaderPool, x, xp, connDirty, lost)
    }

    /** In a transaction a writer is bound, and it is the lease the transaction runs on. */
    ghost predicate TxBound(inTx: bool)
      reads this`log, this`boundWriter
    {
      if inTx then boundWriter.Some? && Book().tx == boundWriter else Book().tx == None
    }

    lemma TxIs(inTx: bool)
      ensures TxBound(inTx) <==> if inTx then boundWriter.Some? && Book().tx == boundWriter else Book().tx == None
    {
    }

    /** The session as a state of the machine. */
    ghost function Now(): State
      reads this`boundWriter, this`extLen, this`extRoute, this`extTxStart, this`extTxEnd, this`extHasExecute
      reads this`extBlocked
      reads session`inTransaction, session`pinned, session`lastWriteTime, session`stmtRoutes
    {
      State(session.inTransaction, session.pinned, session.lastWriteTime, session.stmtRoutes, boundWriter.Some?, extLen,
            extRoute, extTxStart, extTxEnd, extHasExecute, extBlocked)
    }

    lemma NowIs()
      ensures Now() == State(session.inTransaction, session.pinned, session.lastWriteTime, session.stmtRoutes,
                             boundWriter.Some?, extLen, extRoute, extTxStart, extTxEnd, extHasExecute, extBlocked)
      ensures Tracked(Now()) == session.View()
      ensures session.View() == Router.Tracking(session.inTransaction, session.pinned, session.lastWriteTime)
    {
    }

    ghost predicate Fresh()
      reads this
    {
      && log == [] && lost == {} && leases == 0 && !crashed && !connDirty
      && boundWriter == None && boundWriterPool == None && boundReader == None && boundReaderPool == None
      && extLen == 0 && extRoute.Writer? && !extTxStart && !extTxEnd && !extHasExecute && !extBlocked
    }

    constructor (session: Router.Session, writerPool: Option<PoolId>)
      ensures this.session == session && this.writerPool == writerPool && Fresh()
    {
      this.session := session;
      this.writerPool := writerPool;
      boundWriter, boundWriterPool, boundReader, boundReaderPool, connDirty := None, None, None, None, false;
      extLen, extRoute, extTxStart, extTxEnd, extHasExecute, extBlocked := 0, Router.Writer, false, false, false, false;
      leases, crashed, log, lost := 0, false, [], {};
    }

    // ---- Steps on the ledger ----

    ghost method Emit(e: Event)
      requires Lawful(log) && Allowed(Book(), e)
      modifies this`log
      ensures log == old(log) + [e] && Lawful(log) && Book() == Record(old(Book()), e)
    {
      Append(log, e);
      log := log + [e];
    }

    /** A reload may close the writer pool and put a new one, or none, in its place. */
    method Reload()
      requires Lawful(log)
      modifies this`writerPool, this`log
      ensures NoneRan(old(log), log) && old(log) <= log && Lawful(log) && Book() == old(Book())
    {
      NoneRanYet(log);
      if * {
        writerPool := *;
        NoneRanMore(log, Reloaded);
        Emit(Reloaded);
      }
    }

    /** Pool.Acquire: a new lease, or an error. A missing pool is an error too. */
    method Acquire(pool: Option<PoolId>) returns (lease: Option<Lease>)
      requires Lawful(log) && Book().next == leases
      modifies this`leases, this`log
      ensures NoneRan(old(log), log) && old(log) <= log && Lawful(log) && Book().next == leases
      ensures lease.None? ==> Book() == old(Book()) && Troubled(old(log), log)
      ensures lease.Some? ==> pool.Some? && lease.value == old(leases)
                              && Book() == Record(old(Book()), Took(lease.value, pool.value))
      ensures log == old(log) + [if lease.Some? then Took(lease.value, pool.value) else Trouble]
    {
      NoneRanYet(log);
      var up: bool := *;
      if pool.None? || !up {
        NoneRanMore(log, Trouble);
        TroubleNow(log, Trouble);
        Emit(Trouble);
        return None;
      }
      lease := Some(leases);
      NoneRanMore(log, Took(leases, pool.value));
      Emit(Took(leases, pool.value));
      leases := leases + 1;
    }

    /** Forward to the backend and relay its answer. */
    method Exchange(lease: Lease, work: Work, was: bool, now: bool) returns (ok: bool)
      requires Lawful(log) && Allowed(Book(), Ran(lease, work, was, now, true))
      modifies this`log
      ensures log == old(log) + [Ran(lease, work, was, now, ok)] && Lawful(log)
      ensures Book() == Record(old(Book()), Ran(lease, work, was, now, ok))
    {
      ok := *;
      Emit(Ran(lease, work, was, now, ok));
    }

    method Release(lease: Lease, pool: PoolId)
      requires Lawful(log) && Allowed(Book(), Released(lease, pool))
      modifies this`log
      ensures log == old(log) + [Released(lease, pool)] && Lawful(log) && Freed(old(Book()), Book(), lease)
    {
      Emit(Released(lease, pool));
    }

    method Discard(lease: Lease, pool: PoolId)
      requires Lawful(log) && Allowed(Book(), Discarded(lease, pool))
      modifies this`log
      ensures log == old(log) + [Discarded(lease, pool)] && Lawful(log) && Freed(old(Book()), Book(), lease)
    {
      Emit(Discarded(lease, pool));
    }

    /** resetConn. The configuration replaces an empty reset query by its default, so one is always sent. */
    method ResetConn(lease: Lease) returns (ok: bool)
      requires Lawful(log) && lease in Book().held
      modifies this`log
      ensures log == old(log) + [Reset(lease, ok)] && Lawful(log)
      ensures Book() == Record(old(Book()), Reset(lease, ok))
    {
      ok := *;
      Emit(Reset(lease, ok));
    }

    method ResetAndRelease(lease: Lease, pool: PoolId)
      requires Lawful(log) && lease in Book().held && Book().held[lease] == pool && lease !in Book().broken
      modifies this`log
      ensures Lawful(log) && Freed(old(Book()), Book(), lease)
      ensures log == old(log) + [Reset(lease, true), Released(lease, pool)]
           || log == old(log) + [Reset(lease, false), Discarded(lease, pool)]
    {
      var ok := ResetConn(lease);
      if ok { Release(lease, pool); } else { Discard(lease, pool); }
    }

    /** resetAndReleaseToPool when the flag says so, releaseToPool otherwise; a missing pool crashes. */
    method GiveBack(lease: Lease, pool: Option<PoolId>)
      requires Lawful(log) && lease in Book().held && lease !in Book().broken && !crashed
      requires pool.Some? ==> Book().held[lease] == pool.value
      requires lease in Book().dirty ==> connDirty
      modifies this`log, this`crashed
      ensures NoneRan(old(log), log) && old(log) <= log && Lawful(log)
      ensures crashed <==> pool.None?
      ensures pool.Some? ==>
                if connDirty then DropsFirst(old(log), log, lease, pool.value)
                else log == old(log) + [Released(lease, pool.value)]
      ensures pool.Some? ==> Freed(old(Book()), Book(), lease)
      ensures pool.None? ==> Book() == old(Book()).(dirty := Book().dirty, broken := Book().broken)
      ensures Book().dirty <= old(Book().dirty) && Book().broken <= old(Book().broken) + {lease}
    {
      if pool.None? {
        if connDirty { var ok := ResetConn(lease); }
        crashed := true;
      } else if connDirty {
        ResetAndRelease(lease, pool.value);
      } else {
        Release(lease, pool.value);
      }
    }

    /** acquireWriterConn with the pool captured before it: the bound writer, or a new lease. */
    method AcquireWriter() returns (lease: Option<Lease>, acquired: bool, pool: Option<PoolId>)
      requires Sound(None, None)
      modifies this`leases, this`log, this`writerPool
      ensures NoneRan(old(log), log) && old(log) <= log && Book().tx == old(Book().tx)
      ensures if lease.Some? then Working(lease.value, acquired, pool) else Sound(None, None)
      ensures lease.Some? && acquired ==> boundWriter == None && lease.value !in Book().dirty
      ensures lease.Some? && !acquired ==> boundWriter == lease
      ensures boundWriter.Some? ==> lease == boundWriter && !acquired
      ensures lease.None? ==> Troubled(old(log), log)
    {
      NoneRanYet(log);
      if boundWriter.Some? { return boundWriter, false, writerPool; }
      var open: bool := *;
      if !open {
        NoneRanMore(log, Trouble);
        TroubleNow(log, Trouble);
        Emit(Trouble);
        return None, false, writerPool;
      }
      Reload();
      pool := writerPool;
      ghost var mid := log;
      lease := Acquire(pool);
      NoneRanTwice(old(log), mid, log);
      if lease.None? { TroubleWithin(old(log), mid, log, log); }
      acquired := true;
    }

    // ---- Simple queries ----

    /** The lease the writer path is working on: acquired for this query, or the bound one. */
    ghost predicate Working(lease: Lease, acquired: bool, pool: Option<PoolId>)
      reads this`log, this`leases, this`boundWriter, this`boundWriterPool, this`boundReader, this`boundReaderPool
      reads this`connDirty, this`lost
    {
      if acquired then boundWriter == None && Sound(Some(lease), pool)
      else boundWriter == Some(lease) && Sound(None, None)
    }

    lemma WorkingIsSound(lease: Lease, acquired: bool, pool: Option<PoolId>)
      requires Working(lease, acquired, pool)
      ensures lease in Book().held && lease !in Book().broken && lease !in lost && boundReader != Some(lease)
      ensures acquired ==> pool == Some(Book().held[lease]) && boundWriter == None
      ensures !acquired ==> boundWriterPool == Some(Book().held[lease])
      ensures lease in Book().dirty ==> connDirty
    {
    }

    /** Unbinds the writer and gives the lease to the pool the writer was bound with. */
    method FreeToBoundPool(lease: Lease)
      requires Sound(None, None) && !crashed
      requires boundWriter == Some(lease) || (boundWriter == None && lease in lost && lease !in Book().broken)
      requires lease in Book().dirty ==> connDirty
      modifies this`log, this`crashed, this`boundWriter, this`boundWriterPool, this`connDirty
      ensures NoneRan(old(log), log) && old(log) <= log && Sound(None, None) && boundWriter == None && !connDirty
      ensures Book().tx == old(Book().tx)
      ensures crashed <==> old(boundWriter) == None
    {
      hide *;
      SoundIs(None, None);
      BoundIs(lease);
      var bwp := boundWriterPool;
      ghost var g, w, flagged := Book(), boundWriter, connDirty;
      boundWriter, boundWriterPool := None, None;
      GiveBack(lease, bwp);
      connDirty := false;
      FreedFields(g, Book(), lease, w.Some?);
      if w.Some? {
        AccountsFreed(g, w, bwp, boundReader, boundReaderPool, None, None, flagged, lost, lease, Book());
      } else {
        AccountsForgotten(g, boundReader, boundReaderPool, flagged, lost, lease, Book());
      }
      SoundIs(None, None);
    }

    lemma SoundIs(x: Option<Lease>, xp: Option<PoolId>)
      ensures Sound(x, xp) <==>
              && Lawful(log) && Book().next == leases
              && Accounts(Book(), boundWriter, boundWriterPool, boundReader, boundReaderPool, x, xp, connDirty, lost)
    {
      hide Accounts, Replay, Lawful;
    }

    lemma BoundIs(lease: Lease)
      requires Sound(None, None) && (boundWriter == Some(lease) || (boundWriter == None && lease in lost))
      ensures boundWriterPool.None? <==> boundWriter == None
      ensures lease in Book().held && (boundWriter.Some? ==> lease !in Book().broken)
      ensures boundWriterPool.Some? ==> Book().held[lease] == boundWriterPool.value
    {
    }

    /** Gives the lease in hand to the pool it was acquired from. */
    method FreeAcquired(lease: Lease, pool: Option<PoolId>)
      requires boundWriter == None && Sound(Some(lease), pool) && !crashed
      modifies this`log, this`crashed, this`connDirty
      ensures NoneRan(old(log), log) && old(log) <= log && Sound(None, None) && !connDirty && !crashed
      ensures Book().tx == old(Book().tx)
    {
      ghost var g, flagged := Book(), connDirty;
      GiveBack(lease, pool);
      connDirty := false;
      hide Accounts, Replay, Lawful;
      AccountsFreed(g, None, None, boundReader, boundReaderPool, Some(lease), pool, flagged, lost, lease, Book());
    }

    /** The lifecycle switch after a simple query succeeded on the writer path. */
    method SettleSimple(lease: Lease, acquired: bool, pool: Option<PoolId>, was: bool, now: bool)
      requires Working(lease, acquired, pool) && !crashed && (was ==> !acquired)
      requires Book().tx == if now then Some(lease) else None
      modifies this`log, this`crashed, this`boundWriter, this`boundWriterPool, this`connDirty
      ensures NoneRan(old(log), log) && old(log) <= log && Sound(None, None) && TxBound(now) && !crashed
      ensures boundWriter.Some? <==> BoundAfterQuery(old(boundWriter).Some?, was, now, session.pinned)
    {
      WorkingIsSound(lease, acquired, pool);
      NoneRanYet(log);
      if acquired { AccountsBind(Book(), boundReader, boundReaderPool, Some(lease), pool, connDirty, lost); }
      hide Accounts, Replay, Lawful, NoneRan;
      if !was && now {
        if acquired { boundWriter, boundWriterPool := Some(lease), pool; }
      } else if was && !now {
        if !session.pinned { FreeToBoundPool(lease); }
      } else if acquired {
        if session.pinned {
          boundWriter, boundWriterPool := Some(lease), pool;
        } else {
          FreeAcquired(lease, pool);
        }
      }
    }

    /** Both failure exits of the writer path, after exchange e broke the lease. */
    method DiscardWriter(lease: Lease, acquired: bool, pool: Option<PoolId>, ghost g: Ledger, ghost e: Event)
      requires Lawful(log) && g.next == leases && Book() == Record(g, e)
      requires e.Ran? && !e.ok && e.lease == lease
      requires acquired ==> boundWriter == None && pool.Some?
      requires !acquired ==> boundWriter == Some(lease)
      requires Accounts(g, boundWriter, boundWriterPool, boundReader, boundReaderPool,
                        if acquired then Some(lease) else None, if acquired then pool else None, connDirty, lost)
      modifies this`log, this`boundWriter, this`boundWriterPool
      ensures old(log) <= log && Sound(None, None)
    {
      ghost var w, wp, x, xp := boundWriter, boundWriterPool, if acquired then Some(lease) else None,
                                if acquired then pool else None;
      if acquired {
        Discard(lease, pool.value);
      } else {
        Discard(boundWriter.value, boundWriterPool.value);
        boundWriter, boundWriterPool := None, None;
      }
      AccountsLost(g, w, wp, boundReader, boundReaderPool, x, xp, connDirty, lost, e, Book());
    }

    /** The exchange on the writer path, with its failure exit and the flag. */
    method RunOnWriter(lease: Lease, acquired: bool, pool: Option<PoolId>, work: Work, was: bool, now: bool)
      returns (ok: bool)
      requires Working(lease, acquired, pool) && Book().tx == if was then Some(lease) else None
      modifies this`log, this`writerPool, this`boundWriter, this`boundWriterPool, this`connDirty
      ensures old(log) <= log
      ensures !ok ==> Sound(None, None) && Troubled(old(log), log)
      ensures ok ==> boundWriter == old(boundWriter) && boundWriterPool == old(boundWriterPool)
      ensures ok ==> Working(lease, acquired, pool) && Book().tx == if now then Some(lease) else None
      ensures ok ==> |old(log)| < |log| && log[|log| - 1] == Ran(lease, work, was, now, true)
                     && NoneRan(old(log), log[..|log| - 1])
    {
      hide *;
      WorkingIsSound(lease, acquired, pool);
      WorkingIs(lease, acquired, pool);
      Reload();
      ghost var g := Book();
      RanFacts(g, lease, work, was, now, true);
      ghost var mid := log;
      ok := Exchange(lease, work, was, now);
      assert log[..|log| - 1] == mid;
      ghost var e := Ran(lease, work, was, now, ok);
      RanFacts(g, lease, work, was, now, ok);
      if !ok {
        TroubleNow(mid, e);
        ghost var broke := log;
        DiscardWriter(lease, acquired, pool, g, e);
        TroubleWithin(old(log), mid, broke, log);
      } else {
        AccountsRan(g, boundWriter, boundWriterPool, boundReader, boundReaderPool,
                    if acquired then Some(lease) else None, if acquired then pool else None, connDirty, lost, e);
        if work.SimpleWrite? && work.modifying { connDirty := true; }
        ModifiesIs(lease, work, was, now);
        WorkingIs(lease, acquired, pool);
      }
    }

    lemma WorkingIs(lease: Lease, acquired: bool, pool: Option<PoolId>)
      ensures Working(lease, acquired, pool) <==>
              && Lawful(log) && Book().next == leases
              && boundWriter == (if acquired then None else Some(lease))
              && Accounts(Book(), boundWriter, boundWriterPool, boundReader, boundReaderPool,
                          if acquired then Some(lease) else None, if acquired then pool else None, connDirty, lost)
    {
      hide Accounts, Lawful, Replay;
    }

    /** A simple query routed to the writer. */
    method WriteQuery(query: string, was: bool, now: bool) returns (go: bool)
      requires Sound(None, None) && TxBound(was) && !crashed
      modifies this`log, this`leases, this`writerPool, this`crashed
      modifies this`boundWriter, this`boundWriterPool, this`connDirty
      ensures old(log) <= log && Sound(None, None) && !crashed
      ensures if go then TxBound(now) else Troubled(old(log), log)
      ensures go ==> (boundWriter.Some? <==> BoundAfterQuery(old(boundWriter).Some?, was, now, session.pinned))
      ensures go ==> RunsOn(old(log), log, SimpleWrite(IsSessionModifying(query)), was, now, old(boundWriter))
    {
      hide *;
      TxIs(was);
      var lease, acquired, pool := AcquireWriter();
      ghost var start := log;
      if lease.None? { return false; }
      var modifying := IsSessionModifying(query);
      var ok := RunOnWriter(lease.value, acquired, pool, SimpleWrite(modifying), was, now);
      if !ok {
        TroubleWithin(old(log), start, log, log);
        return false;
      }
      ghost var mid, ran := log[..|log| - 1], log;
      assert mid + [Ran(lease.value, SimpleWrite(modifying), was, now, true)] == ran;
      NoneRanTwice(old(log), start, mid);
      SettleSimple(lease.value, acquired, pool, was, now);
      RanThere(old(log), mid, log, lease.value, SimpleWrite(modifying), was, now, old(boundWriter));
      go := true;
    }

    method Borrow(pool: Option<PoolId>) returns (lease: Option<Lease>)
      requires Sound(None, None)
      modifies this`log, this`leases
      ensures NoneRan(old(log), log) && old(log) <= log && Book().tx == old(Book().tx)
      ensures if lease.Some? then pool.Some? && Sound(lease, pool) && lease.value !in Book().dirty
              else Sound(None, None) && Troubled(old(log), log)
      ensures log == old(log) + [if lease.Some? then Took(lease.value, pool.value) else Trouble]
    {
      lease := Acquire(pool);
    }

    lemma SoundInHand(lease: Lease, pool: PoolId)
      requires Sound(Some(lease), Some(pool))
      ensures lease in Book().held && Book().held[lease] == pool && lease !in Book().broken
    {
    }

    /** An exchange on the lease in hand; a failure discards it. */
    method RunInHand(lease: Lease, pool: PoolId, work: Work) returns (ok: bool)
      requires Sound(Some(lease), Some(pool)) && lease !in Book().dirty && Book().tx == None && !work.SimpleWrite?
      modifies this`log
      ensures old(log) <= log && Book().tx == None
      ensures if ok then Sound(Some(lease), Some(pool)) && lease !in Book().dirty else Sound(None, None)
      ensures if ok then log == old(log) + [Ran(lease, work, false, false, true)]
              else NoneSucceeded(old(log), log) && Troubled(old(log), log)
    {
      SoundInHand(lease, pool);
      hide Accounts, Replay, Lawful;
      ghost var g := Book();
      ok := Exchange(lease, work, false, false);
      ghost var e := Ran(lease, work, false, false, ok);
      if ok {
        AccountsRan(g, boundWriter, boundWriterPool, boundReader, boundReaderPool, Some(lease), Some(pool), connDirty,
                    lost, e);
      } else {
        TroubleNow(old(log), e);
        Discard(lease, pool);
        AccountsLost(g, boundWriter, boundWriterPool, boundReader, boundReaderPool, Some(lease), Some(pool), connDirty,
                     lost, e, Book());
      }
    }

    method ReturnInHand(lease: Lease, pool: PoolId, reset: bool)
      requires Sound(Some(lease), Some(pool)) && lease !in Book().dirty
      modifies this`log
      ensures NoneRan(old(log), log) && old(log) <= log && Sound(None, None) && Book().tx == old(Book().tx)
      ensures if reset then DropsFirst(old(log), log, lease, pool) else log == old(log) + [Released(lease, pool)]
    {
      SoundInHand(lease, pool);
      hide Accounts, Replay, Lawful;
      ghost var g := Book();
      if reset { ResetAndRelease(lease, pool); } else { Release(lease, pool); }
      AccountsReturned(g, boundWriter, boundWriterPool, boundReader, boundReaderPool, Some(lease), Some(pool),
                       connDirty, lost, lease, Book());
    }

    /** One exchange on a lease taken for it, which then goes back. */
    method RunOnce(lease: Lease, pool: PoolId, work: Work, reset: bool) returns (ok: bool)
      requires Sound(Some(lease), Some(pool)) && lease !in Book().dirty && Book().tx == None && !work.SimpleWrite?
      modifies this`log, this`writerPool
      ensures old(log) <= log && Sound(None, None) && Book().tx == None
      ensures if ok then RunsOnce(old(log), log, work, false, false)
              else NoneSucceeded(old(log), log) && Troubled(old(log), log)
    {
      hide *;
      SoundIs(Some(lease), Some(pool));
      Reload();
      SoundIs(Some(lease), Some(pool));
      ghost var mid := log;
      NoneRanFails(old(log), mid);
      ok := RunInHand(lease, pool, work);
      if ok {
        ReturnInHand(lease, pool, reset);
        NoneRanFails(mid + [Ran(lease, work, false, false, true)], log);
        RanOnceThere(old(log), mid, log, lease, work, false, false);
      } else {
        NoneSucceededTwice(old(log), mid, log);
        TroubleWithin(old(log), mid, log, log);
      }
    }

    /** fallbackToWriter, and the fallback of the extended read path, which resets. */
    method FallbackToWriter(work: Work, reset: bool) returns (ok: bool, ghost asked: nat)
      requires Sound(None, None) && Book().tx == None && !work.SimpleWrite?
      modifies this`log, this`leases, this`writerPool
      ensures old(log) <= log && Sound(None, None) && Book().tx == None
      ensures |old(log)| <= asked < |log| && (log[asked].Took? || log[asked].Trouble?)
      ensures if ok then RunsOnce(old(log), log, work, false, false) else Troubled(old(log), log)
    {
      hide *;
      SoundIs(None, None);
      Reload();
      SoundIs(None, None);
      var pool := writerPool;
      ghost var mid := log;
      var lease := Borrow(pool);
      asked := |mid|;
      if lease.None? {
        TroubleWithin(old(log), mid, log, log);
        return false, asked;
      }
      ghost var before := log;
      NoneRanTwice(old(log), mid, before);
      NoneRanFails(old(log), before);
      ok := RunOnce(lease.value, pool.value, work, reset);
      if ok {
        RunsLonger(old(log), before, log, work, false, false);
      } else {
        TroubleWithin(old(log), before, log, log);
      }
    }

    /** Choosing a reader: none healthy, breaker open or no pool gives None. */
    method ChooseReader() returns (pool: Option<PoolId>)
      requires Sound(None, None)
      modifies this`log
      ensures log == old(log) + [Chose(pool)] && NoneRan(old(log), log) && old(log) <= log
      ensures Sound(None, None) && Book().tx == old(Book().tx)
    {
      hide Accounts, Replay, Lawful;
      pool := *;
      NoneRanMore(log, Chose(pool));
      Emit(Chose(pool));
    }

    /** A connection of a chosen reader. */
    method BorrowReader() returns (lease: Option<Lease>, pool: Option<PoolId>)
      requires Sound(None, None)
      modifies this`log, this`leases
      ensures NoneRan(old(log), log) && old(log) <= log && Book().tx == old(Book().tx)
      ensures if lease.Some? then pool.Some? && Sound(lease, pool) && lease.value !in Book().dirty
              else Sound(None, None) && Troubled(old(log), log)
      ensures TriesReader(old(log), log) && (log[|old(log)| + 1].Took? <==> lease.Some?)
      ensures |log| == |old(log)| + 2
    {
      hide *;
      pool := ChooseReader();
      ghost var mid := log;
      lease := Borrow(pool);
      NoneRanTwice(old(log), mid, log);
      TriedReader(old(log), pool, log[|log| - 1], log);
      if lease.None? { TroubleWithin(old(log), mid, log, log); }
    }

    /** The read path past the cache: a reader, or the writer when no reader can be had or the query cannot
        even be sent to it. A reader that fails while answering ends the session. */
    method ReadOnReader(work: Work, reset: bool) returns (ok: bool)
      requires Sound(None, None) && Book().tx == None && !work.SimpleWrite?
      modifies this`log, this`leases, this`writerPool
      ensures old(log) <= log && Sound(None, None) && Book().tx == None
      ensures if ok then RunsOnce(old(log), log, work, false, false) else Troubled(old(log), log)
      ensures TriesAgain(old(log), log)
    {
      hide *;
      var lease, pool := BorrowReader();
      ghost var before, borrowed := log, log;
      NoneRanFails(old(log), before);
      if lease.None? {
        ghost var i;
        ok, i := FallbackToWriter(work, reset);
        if ok { RunsLonger(old(log), before, log, work, false, false); }
        TroubleWithin(old(log), old(log), before, log);
        TriedAgain(old(log), borrowed, log, i);
        return;
      }
      ok := RunOnce(lease.value, pool.value, work, false);
      if ok { RunsLonger(old(log), before, log, work, false, false); }
      if !ok {
        var notSent: bool := *;
        NoneSucceededTwice(old(log), before, log);
        TroubleWithin(old(log), before, log, log);
        before := log;
        if notSent {
          ghost var i;
          ok, i := FallbackToWriter(work, reset);
        }
        TroubleWithin(old(log), old(log), before, log);
        if ok { RunsLonger(old(log), before, log, work, false, false); }
      }
      TriedAgain(old(log), borrowed, log, 0);
    }

    /** The answer cannot be sent to the client. */
    method ClientGone()
      requires Sound(None, None)
      modifies this`log
      ensures old(log) <= log && Sound(None, None) && Book().tx == old(Book().tx)
      ensures Troubled(old(log), log) && NoneRan(old(log), log)
    {
      hide Accounts, Replay, Lawful;
      NoneRanMore(log, Trouble);
      TroubleNow(log, Trouble);
      Emit(Trouble);
    }

    /** handleReadQueryTraced. */
    method ReadQuery() returns (go: bool, cached: bool)
      requires Sound(None, None) && Book().tx == None
      modifies this`log, this`leases, this`writerPool
      ensures old(log) <= log && Sound(None, None) && Book().tx == None
      ensures go ==> if cached then log == old(log) else RunsOnce(old(log), log, Read, false, false)
      ensures !cached ==> TriesReader(old(log), log) && TriesAgain(old(log), log)
      ensures !go ==> Troubled(old(log), log) && (cached ==> NoneRan(old(log), log))
    {
      hide *;
      SoundIs(None, None);
      cached := *;
      if cached {
        go := *;
        if !go { ClientGone(); }
        return;
      }
      go := ReadOnReader(Read, false);
      AgainIs(old(log), log);
    }

    method MarkDirty()
      requires Sound(None, None)
      modifies this`connDirty
      ensures Sound(None, None) && connDirty
    {
      hide Accounts, Replay, Lawful;
      AccountsFlagged(Book(), boundWriter, boundWriterPool, boundReader, boundReaderPool, None, None, connDirty, lost);
      connDirty := true;
    }

    lemma NoTxBound()
      ensures TxBound(false) <==> Book().tx == None
    {
    }

    /** The guard's pin, then the routing. */
    method RouteSimple(m: Message) returns (route: Router.Route, was: bool, now: bool)
      requires m.Query? && !m.guard.Block? && Sound(None, None)
      modifies this`connDirty, session`inTransaction, session`lastWriteTime, session`pinned
      ensures Sound(None, None) && (route, session.View()) == Routing(session.policy, old(Now()), m)
      ensures was == old(session.inTransaction) && now == session.inTransaction
      ensures old(session.pinned) ==> session.pinned
      ensures route.Reader? ==> !was && !now && !session.pinned
    {
      hide Accounts, Replay, Lawful, Router.RouteQuery;
      NowIs();
      if m.guard.Pin? {
        session.Pin();
        MarkDirty();
      }
      Router.TransactionForcesWriter(session.policy, session.View(), m.text, m.parsed, m.time);
      route, was, now := session.RouteWithTxState(m.text, m.parsed, m.time);
    }

    method SimpleQuery(m: Message) returns (go: bool)
      requires m.Query? && Sound(None, None) && TxBound(session.inTransaction) && !crashed
      modifies this`log, this`leases, this`writerPool, this`crashed
      modifies this`boundWriter, this`boundWriterPool, this`connDirty
      modifies session`inTransaction, session`lastWriteTime, session`pinned
      ensures old(log) <= log && Sound(None, None) && !crashed
      ensures if go then TxBound(session.inTransaction) else Troubled(old(log), log)
      ensures session.View() == Tracked(AfterQuery(session.policy, old(Now()), m))
      ensures go ==> Now() == AfterQuery(session.policy, old(Now()), m)
      ensures go ==> Did(session.policy, old(Now()), m, old(boundWriter), old(log), log)
    {
      hide *;
      ghost var p, s, writer := session.policy, Now(), boundWriter;
      NowIs();
      QueryIs(p, s, m);
      if m.guard.Block? {
        DidNothing(p, s, m, writer, log);
        return true;
      }
      var route, was, now := RouteSimple(m);
      NowIs();
      go := AnswerQuery(m.text, route, was, now);
      if go {
        NowIs();
        DidQuery(p, s, m, writer, old(log), log);
      }
    }

    /** The path the routing chose. */
    method AnswerQuery(query: string, route: Router.Route, was: bool, now: bool) returns (go: bool)
      requires Sound(None, None) && TxBound(was) && !crashed && (route.Reader? ==> !was && !now)
      modifies this`log, this`leases, this`writerPool, this`crashed
      modifies this`boundWriter, this`boundWriterPool, this`connDirty
      ensures old(log) <= log && Sound(None, None) && !crashed && if go then TxBound(now) else Troubled(old(log), log)
      ensures go ==> (boundWriter.Some? <==>
                      if route.Reader? then old(boundWriter).Some?
                      else BoundAfterQuery(old(boundWriter).Some?, was, now, session.pinned))
      ensures go && route.Writer? ==>
                RunsOn(old(log), log, SimpleWrite(IsSessionModifying(query)), was, now, old(boundWriter))
      ensures go && route.Reader? ==>
                log == old(log) || (RunsOnce(old(log), log, Read, false, false) && TriesReader(old(log), log))
    {
      hide *;
      if route.Writer? {
        go := WriteQuery(query, was, now);
      } else {
        NoTxBound();
        var cached;
        go, cached := ReadQuery();
        NoTxBound();
      }
    }

    // ---- Extended query batches ----

    /** The session compatibility guard on a Parse. */
    method GuardParse(guard: Guard)
      requires Sound(None, None)
      modifies this`extBlocked, this`connDirty, session`pinned
      ensures Sound(None, None) && extBlocked == (old(extBlocked) || guard.Block?)
      ensures session.pinned == (old(session.pinned) || (guard.Pin? && !old(extBlocked)))
      ensures connDirty == (old(connDirty) || (guard.Pin? && !old(extBlocked)))
    {
      hide *;
      if !extBlocked {
        if guard.Block? {
          extBlocked := true;
        } else if guard.Pin? {
          session.Pin();
          MarkDirty();
        }
      }
    }

    method ParseMessage(m: Message)
      requires m.Parse? && Sound(None, None)
      modifies this`extRoute, this`extTxStart, this`extTxEnd, this`extBlocked, this`extLen, this`connDirty
      modifies session`stmtRoutes, session`pinned
      ensures Sound(None, None) && Now() == AfterParse(session.policy, old(Now()), m)
      ensures connDirty == (old(connDirty) || (m.guard.Pin? && !old(extBlocked)))
    {
      hide *;
      ghost var s := Now();
      NowIs();
      ParseIs(session.policy, s, m);
      var route := session.RegisterStatement(m.name, m.text, m.parsed, m.time);
      var mark := Router.HasTxPrefix(m.text);
      GuardParse(m.guard);
      AddParse(mark, route);
      NowIs();
    }

    method AddParse(mark: Router.TxMark, route: Router.Route)
      modifies this`extRoute, this`extTxStart, this`extTxEnd, this`extLen
      ensures extTxStart == (old(extTxStart) || mark.Opens?) && extTxEnd == (old(extTxEnd) || mark.Closes?)
      ensures extRoute == if session.inTransaction || boundWriter.Some? || session.pinned then Router.Writer else route
      ensures extLen == old(extLen) + 1
    {
      if mark.Opens? { extTxStart := true; } else if mark.Closes? { extTxEnd := true; }
      extRoute := if session.inTransaction || boundWriter.Some? || session.pinned then Router.Writer else route;
      extLen := extLen + 1;
    }

    method BindMessage(m: Message)
      requires m.Bind?
      modifies this`extRoute, this`extLen
      ensures Now() == AfterBind(old(Now()), m.name)
    {
      var route := session.StatementRoute(m.name);
      if route.Writer? { extRoute := Router.Writer; }
      extLen := extLen + 1;
    }

    method EndBatch()
      modifies this`extLen, this`extRoute, this`extTxStart, this`extTxEnd, this`extHasExecute
      ensures Now() == EmptyBatch(old(Now()))
    {
      extLen, extRoute, extTxStart, extTxEnd, extHasExecute := 0, Router.Reader, false, false, false;
    }

    /** Resets the bound reader and gives it back to its own pool. */
    method DropReader()
      requires Sound(None, None) && boundReader.Some?
      modifies this`log, this`boundReader, this`boundReaderPool
      ensures Sound(None, None) && Book().tx == old(Book().tx) && boundReader == None
      ensures old(log) <= log && old(boundReaderPool).Some? && NoneRan(old(log), log)
      ensures DropsFirst(old(log), log, old(boundReader.value), old(boundReaderPool.value))
    {
      hide *;
      ReaderIsSound();
      SoundIs(None, None);
      ghost var g, r, rp := Book(), boundReader, boundReaderPool;
      ResetAndRelease(boundReader.value, boundReaderPool.value);
      DroppedIs(old(log), log, r.value, rp.value);
      boundReader, boundReaderPool := None, None;
      FreedFields(g, Book(), r.value, true);
      AccountsReturned(g, boundWriter, boundWriterPool, r, rp, None, None, connDirty, lost, r.value, Book());
      SoundIs(None, None);
    }

    lemma ReaderIsSound()
      requires Sound(None, None) && boundReader.Some?
      ensures var r := boundReader.value;
              && r in Book().held && r !in Book().broken && r !in Book().dirty
              && boundReaderPool == Some(Book().held[r])
    {
    }

    /** The bound reader's exchange; a failure discards it. */
    method RunOnReader() returns (ok: bool)
      requires Sound(None, None) && boundReader.Some? && Book().tx == None
      modifies this`log, this`boundReader, this`boundReaderPool
      ensures Sound(None, None) && Book().tx == None
      ensures boundReader == (if ok then old(boundReader) else None)
      ensures ok ==> boundReaderPool == old(boundReaderPool)
      ensures log == old(log) + [Ran(old(boundReader.value), Batch, false, false, ok)]
                     + if ok then [] else [Discarded(old(boundReader.value), old(boundReaderPool.value))]
    {
      hide *;
      ReaderIsSound();
      SoundIs(None, None);
      ghost var g, r, rp := Book(), boundReader, boundReaderPool;
      RanFacts(g, r.value, Batch, false, false, true);
      ok := Exchange(boundReader.value, Batch, false, false);
      ghost var e := Ran(r.value, Batch, false, false, ok);
      RanFacts(g, r.value, Batch, false, false, ok);
      if ok {
        ModifiesIs(r.value, Batch, false, false);
        AccountsRan(g, boundWriter, boundWriterPool, r, rp, None, None, connDirty, lost, e);
      } else {
        DiscardFacts(g, e, rp.value);
        Discard(boundReader.value, boundReaderPool.value);
        boundReader, boundReaderPool := None, None;
        FreedFields(Record(g, e), Book(), r.value, true);
        AccountsLost(g, boundWriter, boundWriterPool, r, rp, None, None, connDirty, lost, e, Book());
      }
      SoundIs(None, None);
    }

    lemma DiscardFacts(g: Ledger, e: Event, pool: PoolId)
      requires e.Ran? && !e.ok && e.lease in g.held && g.held[e.lease] == pool
      ensures Allowed(Record(g, e), Discarded(e.lease, pool))
    {
    }

    method ReleaseReader()
      requires Sound(None, None) && boundReader.Some?
      modifies this`log, this`boundReader, this`boundReaderPool
      ensures Sound(None, None) && Book().tx == old(Book().tx) && boundReader == None
      ensures log == old(log) + [Released(old(boundReader.value), old(boundReaderPool.value))]
    {
      ReaderIsSound();
      hide Accounts, Replay, Lawful;
      ghost var g, r, rp := Book(), boundReader, boundReaderPool;
      Release(boundReader.value, boundReaderPool.value);
      boundReader, boundReaderPool := None, None;
      AccountsReturned(g, boundWriter, boundWriterPool, r, rp, None, None, connDirty, lost, r.value, Book());
    }

    /** The batch goes to the reader an earlier Parse-only batch bound. */
    method ReuseReader() returns (go: bool)
      requires Sound(None, None) && boundReader.Some? && Book().tx == None
      modifies this`log, this`boundReader, this`boundReaderPool
      ensures Sound(None, None) && Book().tx == None
      ensures boundReader == (if go && !extHasExecute then old(boundReader) else None)
      ensures var c, p := old(boundReader.value), old(boundReaderPool.value);
              log == old(log) + [Ran(c, Batch, false, false, go)]
                     + if !go then [Discarded(c, p)] else if extHasExecute then [Released(c, p)] else []
    {
      hide Accounts, Replay, Lawful;
      go := RunOnReader();
      if go && extHasExecute { ReleaseReader(); }
    }

    /** acquireReaderForBind: a reader, or else the writer pool. */
    method AcquireReaderForBind() returns (lease: Option<Lease>, pool: Option<PoolId>)
      requires Sound(None, None)
      modifies this`log, this`leases, this`writerPool
      ensures NoneRan(old(log), log) && old(log) <= log && Book().tx == old(Book().tx)
      ensures if lease.Some? then pool.Some? && Sound(lease, pool) && lease.value !in Book().dirty
              else Sound(None, None) && Troubled(old(log), log)
      ensures TriesAgain(old(log), log)
    {
      lease, pool := BorrowReader();
      ghost var borrowed := log;
      if lease.None? {
        ghost var mid := log;
        Reload();
        NoneRanTwice(old(log), mid, log);
        mid := log;
        pool := writerPool;
        lease := Borrow(pool);
        NoneRanTwice(old(log), mid, log);
        if lease.None? { TroubleWithin(old(log), mid, log, log); }
        TriedAgain(old(log), borrowed, log, |mid|);
      } else {
        TriedAgain(old(log), borrowed, log, 0);
      }
    }

    lemma EmptySlots(x: Option<Lease>, xp: Option<PoolId>)
      requires Sound(x, xp)
      ensures boundWriter == None ==> boundWriterPool == None
      ensures boundReader == None ==> boundReaderPool == None
    {
    }

    /** A Parse-only batch: the reader stays bound for the batch that executes. */
    method BindReader() returns (go: bool)
      requires Sound(None, None) && boundReader == None && boundWriter == None && Book().tx == None
      modifies this`log, this`leases, this`writerPool, this`boundReader, this`boundReaderPool
      ensures old(log) <= log && Sound(None, None) && Book().tx == None
      ensures go <==> boundReader.Some?
      ensures TriesReader(old(log), log) && (!go ==> Troubled(old(log), log))
      ensures go ==> RanLast(log, boundReader.value) && RunsOnce(old(log), log, Batch, false, false)
    {
      hide Accounts, Replay, Lawful, NoneRan, NoneSucceeded, RunsOnce, Troubled, TriesReader,
           TriesAgain;
      var lease, pool := AcquireReaderForBind();
      AgainIs(old(log), log);
      ghost var borrowed := log;
      if lease.None? { return false; }
      ghost var mid := log;
      Reload();
      NoneRanTwice(old(log), mid, log);
      mid := log;
      NoneRanFails(old(log), mid);
      go := RunInHand(lease.value, pool.value, Batch);
      TriesLater(old(log), borrowed, log);
      if !go { TroubleWithin(old(log), mid, log, log); }
      if go {
        NoneRanYet(log);
        RanOnceThere(old(log), mid, log, lease.value, Batch, false, false);
        EmptySlots(lease, pool);
        AccountsBind(Book(), boundReader, boundReaderPool, lease, pool, connDirty, lost);
        boundReader, boundReaderPool := lease, pool;
      }
    }

    method ExtendedRead() returns (go: bool, cached: bool)
      requires Sound(None, None) && Book().tx == None
      modifies this`log, this`leases, this`writerPool
      ensures old(log) <= log && Sound(None, None) && Book().tx == None
      ensures go ==> if cached then log == old(log) else RunsOnce(old(log), log, Batch, false, false)
      ensures !cached ==> TriesReader(old(log), log) && TriesAgain(old(log), log)
      ensures !go ==> Troubled(old(log), log) && (cached ==> NoneRan(old(log), log))
    {
      hide *;
      SoundIs(None, None);
      cached := *;
      if cached {
        go := *;
        if !go { ClientGone(); }
        return;
      }
      go := ReadOnReader(Batch, true);
      AgainIs(old(log), log);
    }

    /** The case of a batch that ends a transaction: what was just acquired is forgotten. */
    method SettleEnd(lease: Lease, acquired: bool, pool: Option<PoolId>)
      requires Working(lease, acquired, pool) && !crashed && Book().tx == None
      modifies this`log, this`crashed, this`boundWriter, this`boundWriterPool, this`connDirty, this`lost
      ensures NoneRan(old(log), log) && old(log) <= log && Sound(None, None) && Book().tx == None
      ensures lost == if acquired then old(lost) + {lease} else old(lost)
      ensures |lost| == |old(lost)| + if acquired then 1 else 0
      ensures crashed <==> acquired && !session.pinned
      ensures boundWriter.Some? <==> !acquired && session.pinned
    {
      WorkingIsSound(lease, acquired, pool);
      NoneRanYet(log);
      if acquired {
        AccountsBind(Book(), boundReader, boundReaderPool, Some(lease), pool, connDirty, lost);
        lost := lost + {lease};
      }
      hide Accounts, Replay, Lawful, NoneRan;
      if !session.pinned { FreeToBoundPool(lease); }
    }

    /** The lifecycle switch after a batch succeeded on the writer path. */
    method SettleBatch(lease: Lease, acquired: bool, pool: Option<PoolId>)
      requires Working(lease, acquired, pool) && !crashed && lease !in Book().broken
      requires Book().tx == if session.inTransaction then Some(lease) else None
      requires extTxEnd ==> !session.inTransaction
      requires extTxStart && !extTxEnd ==> session.inTransaction
      requires session.inTransaction && acquired ==> extTxStart && !extTxEnd
      modifies this`log, this`crashed, this`boundWriter, this`boundWriterPool, this`connDirty, this`lost
      ensures NoneRan(old(log), log) && old(log) <= log && Sound(None, None) && TxBound(session.inTransaction)
      ensures lost == if extTxEnd && acquired then old(lost) + {lease} else old(lost)
      ensures |lost| == |old(lost)| + if extTxEnd && acquired then 1 else 0
      ensures crashed <==> extTxEnd && acquired && !session.pinned
      ensures boundWriter.Some? <==>
              if extTxEnd then !acquired && session.pinned
              else extTxStart || (!acquired && session.inTransaction) || !extHasExecute || session.pinned
    {
      WorkingIsSound(lease, acquired, pool);
      NoneRanYet(log);
      if acquired { AccountsBind(Book(), boundReader, boundReaderPool, Some(lease), pool, connDirty, lost); }
      hide Accounts, Replay, Lawful, NoneRan;
      if extTxStart && !extTxEnd {
        if acquired { boundWriter, boundWriterPool := Some(lease), pool; }
      } else if extTxEnd {
        SettleEnd(lease, acquired, pool);
      } else if acquired && !extHasExecute {
        boundWriter, boundWriterPool := Some(lease), pool;
      } else if acquired {
        if session.pinned {
          boundWriter, boundWriterPool := Some(lease), pool;
        } else {
          FreeAcquired(lease, pool);
        }
      } else if extHasExecute && !session.pinned && !session.inTransaction {
        FreeToBoundPool(lease);
      }
    }

    /** A batch on the writer path. */
    method WriterBatch() returns (go: bool)
      requires Sound(None, None) && TxBound(session.inTransaction) && !crashed
      modifies this`log, this`leases, this`writerPool, this`crashed, this`lost
      modifies this`boundWriter, this`boundWriterPool, this`connDirty, session`inTransaction
      ensures old(log) <= log && Sound(None, None) && (go ==> TxBound(session.inTransaction) && !crashed)
      ensures old(lost) <= lost && (!go && !crashed ==> Troubled(old(log), log))
      ensures |lost| == |old(lost)| + if extTxEnd && old(boundWriter) == None && (go || crashed) then 1 else 0
      ensures crashed <==> |lost| > |old(lost)| && !session.pinned
      ensures go || crashed ==> session.inTransaction == InTxAfterBatch(old(Now()))
      ensures go || crashed ==> (boundWriter.Some? <==> BoundAfterBatch(old(Now())))
      ensures go || crashed ==>
                RunsOn(old(log), log, Batch, old(session.inTransaction), session.inTransaction, old(boundWriter))
    {
      hide *;
      ghost var s := Now();
      NowIs();
      BatchIs(s);
      TxIs(session.inTransaction);
      var lease, acquired, pool := AcquireWriter();
      ghost var start := log;
      if lease.None? { return false; }
      var was := session.inTransaction;
      var now := (was || extTxStart) && !extTxEnd;
      var ok := RunOnWriter(lease.value, acquired, pool, Batch, was, now);
      if !ok {
        TroubleWithin(old(log), start, log, log);
        return false;
      }
      ghost var mid, ran := log[..|log| - 1], log;
      assert mid + [Ran(lease.value, Batch, was, now, true)] == ran;
      NoneRanTwice(old(log), start, mid);
      FinishBatch(lease.value, acquired, pool);
      RanThere(old(log), mid, log, lease.value, Batch, was, now, old(boundWriter));
      go := !crashed;
    }

    /** The transaction flag moves and the lease is settled. */
    method FinishBatch(lease: Lease, acquired: bool, pool: Option<PoolId>)
      requires Working(lease, acquired, pool) && !crashed && (session.inTransaction ==> !acquired)
      requires Book().tx == if InTxAfterBatch(Now()) then Some(lease) else None
      modifies this`log, this`crashed, this`boundWriter, this`boundWriterPool, this`connDirty, this`lost
      modifies session`inTransaction
      ensures NoneRan(old(log), log) && old(log) <= log && Sound(None, None) && TxBound(session.inTransaction)
      ensures old(lost) <= lost && |lost| == |old(lost)| + if extTxEnd && acquired then 1 else 0
      ensures crashed <==> extTxEnd && acquired && !session.pinned
      ensures session.inTransaction == InTxAfterBatch(old(Now()))
      ensures boundWriter.Some? <==> BoundAfterBatch(old(Now()))
    {
      hide *;
      ghost var s := Now();
      NowIs();
      BatchIs(s);
      WorkingIsSound(lease, acquired, pool);
      WorkingIs(lease, acquired, pool);
      MoveTx();
      SettleBatch(lease, acquired, pool);
    }

    /** The transaction flag follows the marks of the batch. */
    method MoveTx()
      modifies session`inTransaction
      ensures session.inTransaction == ((old(session.inTransaction) || extTxStart) && !extTxEnd)
    {
      if extTxStart { session.SetInTransaction(true); }
      if extTxEnd { session.SetInTransaction(false); }
    }

    /** A batch on the reader path. */
    method ReaderBatch() returns (go: bool)
      requires Sound(None, None) && Book().tx == None && boundWriter == None
      modifies this`log, this`leases, this`writerPool, this`boundReader, this`boundReaderPool
      ensures old(log) <= log && Sound(None, None) && Book().tx == None
      ensures old(boundReader).Some? ==> RunsFirst(old(log), log, old(boundReader.value))
      ensures old(boundReader).Some? ==> boundReader == (if go && !extHasExecute then old(boundReader) else None)
      ensures old(boundReader) == None && boundReader.Some? ==> go && !extHasExecute
      ensures boundReader.Some? ==> RanLast(log, boundReader.value)
      ensures if go then log == old(log) || RunsOnce(old(log), log, Batch, false, false) else Troubled(old(log), log)
    {
      hide Accounts, Replay, Lawful, RunsOnce;
      if boundReader.Some? {
        go := ReuseReader();
        if go {
          RanOnceThere(old(log), old(log), log, old(boundReader.value), Batch, false, false);
        } else {
          assert !log[|old(log)|].ok;
        }
      } else if !extHasExecute && extLen > 0 {
        go := BindReader();
      } else {
        var cached;
        go, cached := ExtendedRead();
      }
    }

    /** A batch that is not blocked, past the reader it cannot use. */
    method RunBatch() returns (go: bool)
      requires Sound(None, None) && TxBound(session.inTransaction) && !crashed && !extBlocked
      requires boundReader.Some? ==> ToReader(Now())
      modifies this`log, this`leases, this`writerPool, this`crashed, this`lost
      modifies this`boundWriter, this`boundWriterPool, this`boundReader, this`boundReaderPool, this`connDirty
      modifies session`inTransaction
      ensures old(log) <= log && Sound(None, None) && (go ==> TxBound(session.inTransaction) && !crashed)
      ensures old(lost) <= lost && (!go && !crashed ==> Troubled(old(log), log))
      ensures |lost| == |old(lost)| + if EndsUnbound(old(Now())) && (go || crashed) then 1 else 0
      ensures crashed <==> |lost| > |old(lost)| && !session.pinned
      ensures go ==> EmptyBatch(Now()) == AfterSync(old(Now()))
      ensures boundReader.Some? ==> RanLast(log, boundReader.value) && ToReader(old(Now()))
      ensures old(boundReader).Some? ==> RunsFirst(old(log), log, old(boundReader.value))
      ensures go || crashed ==> Did(session.policy, old(Now()), Sync, old(boundWriter), old(log), log)
    {
      hide *;
      NowIs();
      SyncIs(session.policy, Now());
      if extRoute.Reader? && !session.inTransaction && boundWriter.None? {
        go := BatchOnReader();
      } else {
        go := BatchOnWriter();
      }
    }

    method BatchOnWriter() returns (go: bool)
      requires Sound(None, None) && TxBound(session.inTransaction) && !crashed && !extBlocked && !ToReader(Now())
      modifies this`log, this`leases, this`writerPool, this`crashed, this`lost
      modifies this`boundWriter, this`boundWriterPool, this`connDirty, session`inTransaction
      ensures old(log) <= log && Sound(None, None) && (go ==> TxBound(session.inTransaction) && !crashed)
      ensures old(lost) <= lost && (!go && !crashed ==> Troubled(old(log), log))
      ensures |lost| == |old(lost)| + if EndsUnbound(old(Now())) && (go || crashed) then 1 else 0
      ensures crashed <==> |lost| > |old(lost)| && !session.pinned
      ensures go ==> EmptyBatch(Now()) == AfterSync(old(Now()))
      ensures go || crashed ==> Did(session.policy, old(Now()), Sync, old(boundWriter), old(log), log)
    {
      hide *;
      ghost var s := Now();
      NowIs();
      SyncIs(session.policy, s);
      go := WriterBatch();
      if go || crashed {
        NowIs();
        DidBatch(session.policy, s, old(boundWriter), old(log), log);
        EmptiedIs(s, Now());
      }
    }

    method BatchOnReader() returns (go: bool)
      requires Sound(None, None) && TxBound(session.inTransaction) && !extBlocked && ToReader(Now())
      modifies this`log, this`leases, this`writerPool, this`boundReader, this`boundReaderPool
      ensures old(log) <= log && Sound(None, None) && TxBound(session.inTransaction)
      ensures boundReader.Some? ==> RanLast(log, boundReader.value)
      ensures old(boundReader).Some? ==> RunsFirst(old(log), log, old(boundReader.value))
      ensures if go then Did(session.policy, Now(), Sync, boundWriter, old(log), log) else Troubled(old(log), log)
    {
      hide *;
      NowIs();
      SyncIs(session.policy, Now());
      NoTxBound();
      go := ReaderBatch();
      NoTxBound();
      if go { DidBatchRead(session.policy, Now(), boundWriter, old(log), log); }
    }

    /** Gives back a reader left bound that this batch cannot run on. */
    method DropStale()
      requires Sound(None, None) && TxBound(session.inTransaction)
      modifies this`log, this`boundReader, this`boundReaderPool
      ensures old(log) <= log && Sound(None, None) && TxBound(session.inTransaction) && NoneRan(old(log), log)
      ensures ToReader(Now()) || old(boundReader) == None ==>
                log == old(log) && boundReader == old(boundReader) && boundReaderPool == old(boundReaderPool)
      ensures old(boundReader).Some? && !ToReader(Now()) ==>
                && boundReader == None && old(boundReaderPool).Some?
                && DropsFirst(old(log), log, old(boundReader.value), old(boundReaderPool.value))
    {
      hide *;
      NowIs();
      SyncIs(session.policy, Now());
      TxIs(session.inTransaction);
      NoneRanYet(log);
      if boundReader.Some? && (extRoute.Writer? || session.inTransaction || boundWriter.Some?) { DropReader(); }
      TxIs(session.inTransaction);
    }

    /** A blocked batch is dropped, and a bound reader with it. */
    method DropBatch()
      requires Sound(None, None) && TxBound(session.inTransaction) && extBlocked
      modifies this`log, this`boundReader, this`boundReaderPool
      modifies this`extLen, this`extRoute, this`extTxStart, this`extTxEnd, this`extHasExecute, this`extBlocked
      ensures old(log) <= log && Sound(None, None) && TxBound(session.inTransaction) && NoneRan(old(log), log)
      ensures Now() == AfterSync(old(Now())) && boundReader == None
      ensures if old(boundReader) == None then log == old(log)
              else && old(boundReaderPool).Some?
                   && DropsFirst(old(log), log, old(boundReader.value), old(boundReaderPool.value))
    {
      hide *;
      ghost var s := Now();
      NowIs();
      SyncIs(session.policy, s);
      TxIs(session.inTransaction);
      NoneRanYet(log);
      if boundReader.Some? { DropReader(); }
      TxIs(session.inTransaction);
      EndBatch();
      NowIs();
      extBlocked := false;
      NowIs();
    }

    /** Sync: the batch goes to the reader or the writer path. A reader still bound from an earlier batch is
        either what the batch runs on, or is given back to its own pool before anything else happens. */
    method SyncMessage() returns (go: bool)
      requires Sound(None, None) && TxBound(session.inTransaction) && !crashed
      modifies this`log, this`leases, this`writerPool, this`crashed, this`lost
      modifies this`boundWriter, this`boundWriterPool, this`boundReader, this`boundReaderPool, this`connDirty
      modifies this`extLen, this`extRoute, this`extTxStart, this`extTxEnd, this`extHasExecute, this`extBlocked
      modifies session`inTransaction
      ensures old(log) <= log && Sound(None, None) && (go ==> TxBound(session.inTransaction) && !crashed)
      ensures old(lost) <= lost && (!go && !crashed ==> Troubled(old(log), log))
      ensures |lost| == |old(lost)| + if EndsUnbound(old(Now())) && (go || crashed) then 1 else 0
      ensures crashed <==> |lost| > |old(lost)| && !session.pinned
      ensures go ==> Now() == AfterSync(old(Now()))
      ensures boundReader.Some? ==> RanLast(log, boundReader.value)
      ensures old(boundReader).Some? ==>
                if ToReader(old(Now())) && !old(extBlocked) then RunsFirst(old(log), log, old(boundReader.value))
                else && old(boundReaderPool).Some? && boundReader == None
                     && DropsFirst(old(log), log, old(boundReader.value), old(boundReaderPool.value))
      ensures go || crashed ==> Did(session.policy, old(Now()), Sync, old(boundWriter), old(log), log)
    {
      hide *;
      ghost var s, writer := Now(), boundWriter;
      NowIs();
      SyncIs(session.policy, s);
      DropStale();
      ghost var mid := log;
      if extBlocked {
        DropBatch();
        if old(boundReader).Some? && !ToReader(s) {
          DropsLater(old(log), mid, log, old(boundReader.value), old(boundReaderPool.value));
        }
        NoneRanTwice(old(log), mid, log);
        DidBlocked(session.policy, s, writer, old(log), log);
        return true;
      }
      go := RunBatch();
      if !go && !crashed { TroubleWithin(old(log), mid, log, log); }
      if old(boundReader).Some? && !ToReader(s) {
        DropsLater(old(log), mid, log, old(boundReader.value), old(boundReaderPool.value));
        if go || crashed { DidLater(session.policy, s, writer, old(log), mid, log); }
      }
      if go { EndBatch(); }
    }

    // ---- The loop ----

    lemma NothingBound()
      requires Sound(None, None) && boundWriter == None && boundReader == None
      ensures Book().held.Keys == lost
    {
    }

    /** The deferred cleanup. */
    method Cleanup()
      requires Sound(None, None)
      modifies this`log, this`boundWriter, this`boundWriterPool, this`boundReader, this`boundReaderPool
      modifies this`connDirty
      ensures old(log) <= log && Lawful(log) && Book().held.Keys == lost
    {
      hide Accounts, Replay, Lawful;
      if boundWriter.Some? {
        WorkingIsSound(boundWriter.value, false, None);
        ghost var g, w, wp, flagged := Book(), boundWriter, boundWriterPool, connDirty;
        if connDirty {
          ResetAndRelease(boundWriter.value, boundWriterPool.value);
        } else {
          Release(boundWriter.value, boundWriterPool.value);
        }
        AccountsFreed(g, w, wp, boundReader, boundReaderPool, None, None, flagged, lost, w.value, Book());
        boundWriter, boundWriterPool, connDirty := None, None, false;
      }
      if boundReader.Some? { DropReader(); }
      NothingBound();
    }

    /** Too many messages without a Sync end the session. */
    ghost predicate Takes(m: Message)
      reads this`extLen
    {
      m.Query? || m.Terminate? || extLen < MAX_BUFFERED
    }

    /** One message. */
    method Handle(m: Message) returns (go: bool)
      requires Sound(None, None) && TxBound(session.inTransaction) && !crashed
      modifies this, session
      ensures old(log) <= log && Sound(None, None) && (go ==> TxBound(session.inTransaction) && !crashed)
      ensures go ==> old(Takes(m)) && !m.Terminate? && Now() == After(session.policy, old(Now()), m)
      ensures old(Takes(m)) && !m.Query? && !m.Sync? && !m.Terminate? ==> go
      ensures old(Takes(m)) && !go && !crashed ==> m.Terminate? || Troubled(old(log), log)
      ensures go || crashed ==> Did(session.policy, old(Now()), m, old(boundWriter), old(log), log)
      ensures var loses := m.Sync? && old(Takes(m)) && EndsUnbound(old(Now())) && (go || crashed);
              |lost| == |old(lost)| + (if loses then 1 else 0) && (crashed <==> loses && !old(session.pinned))
      ensures !m.Sync? ==> boundReader == old(boundReader) && boundReaderPool == old(boundReaderPool)
      ensures m.Sync? && old(Takes(m)) && boundReader.Some? ==> RanLast(log, boundReader.value)
      ensures m.Sync? && old(Takes(m)) && old(boundReader).Some? ==>
                if ToReader(old(Now())) && !old(extBlocked) then RunsFirst(old(log), log, old(boundReader.value))
                else DropsFirst(old(log), log, old(boundReader.value), old(boundReaderPool.value))
    {
      hide *;
      ghost var p, s := session.policy, Now();
      NowIs();
      TakesIs(m);
      AfterIs(p, s, m);
      if m.Terminate? { return false; }
      if m.Query? {
        go := SimpleQuery(m);
        return;
      }
      if extLen >= MAX_BUFFERED { return false; }
      if m.Sync? {
        go := SyncMessage();
        return;
      }
      DidNothing(p, s, m, boundWriter, log);
      TxIs(session.inTransaction);
      BufferMessage(m);
      TxIs(session.inTransaction);
      go := true;
    }

    /** The lost lease can be reached: in a fresh session one prepared COMMIT or ROLLBACK is enough. */
    method HandleCommit(m: Message)
      requires Fresh() && !session.inTransaction && m.Parse? && !m.guard.Block? && LedByCommit(m.text)
      modifies this, session
      ensures EndsUnbound(Now()) && Sound(None, None) && TxBound(session.inTransaction) && !crashed
    {
      hide *;
      FreshIsSound();
      ghost var s := Now();
      NowIs();
      TakesIs(m);
      FreshIs(s);
      CommitReachesLoss(session.policy, s, m);
      var go := Handle(m);
    }

    /** A message that only adds to the batch. */
    method BufferMessage(m: Message)
      requires Sound(None, None) && !m.Query? && !m.Sync? && !m.Terminate?
      modifies this`extRoute, this`extTxStart, this`extTxEnd, this`extBlocked, this`extLen, this`extHasExecute
      modifies this`connDirty, session`stmtRoutes, session`pinned
      ensures Sound(None, None) && Now() == After(session.policy, old(Now()), m)
    {
      hide *;
      ghost var s := Now();
      NowIs();
      BufferIs(session.policy, s, m);
      match m {
        case Parse(_, _, _, _, _) => ParseMessage(m);
        case Bind(_) => BindMessage(m);
        case Close(name) =>
          session.CloseStatement(name);
          extLen := extLen + 1;
        case Execute =>
          extHasExecute := true;
          extLen := extLen + 1;
        case Other => extLen := extLen + 1;
      }
      NowIs();
    }

    lemma TakesIs(m: Message)
      ensures Takes(m) <==> m.Query? || m.Terminate? || extLen < MAX_BUFFERED
      ensures extLen == 0 ==> Takes(m)
    {
    }

    /** The state as the head of a turn. */
    ghost function Here(m: Message): Head
      reads this, session
    {
      Head(|log|, |log|, m, false, false, Now(), boundWriter, boundReader, boundReaderPool)
    }

    /** One turn of the loop: a disconnect, a timeout or a shutdown may cut it off, and a message may be refused
        before it is looked at. */
    method Turn(m: Message, fate: Fate) returns (go: bool, ghost h: Head)
      requires Sound(None, None) && TxBound(session.inTransaction) && !crashed
      modifies this, session
      ensures old(log) <= log && Sound(None, None) && (go ==> TxBound(session.inTransaction) && !crashed)
      ensures h == old(Here(m)).(taken := h.taken, through := h.through, to := |log|)
      ensures HeadOk(session.policy, h, log)
      ensures (h.taken <==> TakenUp(fate, h.state, m)) && (go <==> !Stops(fate, h))
      ensures go ==> Follows(session.policy, h, Now(), boundReader, boundReaderPool, log)
      ensures |lost| == |old(lost)| + (if Loses(h) then 1 else 0) && (crashed <==> Loses(h) && !h.state.pinned)
    {
      hide *;
      h := Here(m);
      HereIs(m);
      NowIs();
      HeadNow(h);
      FateIs(fate, h);
      if !fate.Passed? {
        NotTaken(session.policy, h, log);
        return fate.Refused?, h;
      }
      go, h := TakeUp(m, h);
      FateIs(fate, h);
    }

    /** The message is looked at. */
    method TakeUp(m: Message, ghost h0: Head) returns (go: bool, ghost h: Head)
      requires Sound(None, None) && TxBound(session.inTransaction) && !crashed && h0 == Here(m) && InTxBound(h0, log)
      modifies this, session
      ensures old(log) <= log && Sound(None, None) && (go ==> TxBound(session.inTransaction) && !crashed)
      ensures h == h0.(taken := h.taken, through := h.through, to := |log|) && HeadOk(session.policy, h, log)
      ensures go ==> Follows(session.policy, h, Now(), boundReader, boundReaderPool, log)
      ensures h.taken <==> m.Query? || m.Terminate? || h0.state.len < MAX_BUFFERED
      ensures go <==> h.taken && h.through && !(Loses(h) && !h.state.pinned)
      ensures |lost| == |old(lost)| + (if Loses(h) then 1 else 0) && (crashed <==> Loses(h) && !h.state.pinned)
    {
      hide *;
      HereIs(m);
      NowIs();
      if boundReader.Some? { ReaderIsSound(); }
      TakesIs(m);
      ghost var taken, before := Takes(m), log;
      go := Handle(m);
      h := h0.(taken := taken, through := taken && (go || crashed), to := |log|);
      HeadIs(h);
      HeadStands(session.policy, h0, h, before, log);
      if go { TurnFollows(session.policy, h, Now(), boundReader, boundReaderPool, log); }
    }

    lemma HereIs(m: Message)
      ensures Here(m) == Head(|log|, |log|, m, false, false, Now(), boundWriter, boundReader, boundReaderPool)
    {
    }

    lemma HeadNow(h: Head)
      requires TxBound(h.state.inTx) && h.at == |log| && h.writer == boundWriter && h.state == Now()
      ensures InTxBound(h, log)
    {
      assert log[..|log|] == log;
    }

    /** relayQueries: any run of messages is a run of the session machine whose turns did what the machine says. A
        lease is never given back exactly if it is one of those lost, and there are as many of them as Syncs that end
        a transaction on the writer path with no writer bound and get through: none when no Parse ends a
        transaction. Every other borrow is given back exactly once, to its own pool. */
    method RelayQueries(msgs: seq<Message>, fates: seq<Fate>) returns (ghost heads: seq<Head>)
      requires Fresh() && !session.inTransaction && |fates| == |msgs|
      modifies this, session
      ensures Lawful(log) && Book().held.Keys == lost
      ensures |heads| <= |msgs| && forall k | 0 <= k < |heads| :: heads[k].msg == msgs[k]
      ensures Story(session.policy, heads, log)
      ensures forall k | 0 <= k < |heads| :: heads[k].taken <==> TakenUp(fates[k], heads[k].state, msgs[k])
      ensures forall k | 0 <= k < |heads| && Stops(fates[k], heads[k]) :: k == |heads| - 1
      ensures |heads| < |msgs| ==> heads != [] && Stops(fates[|heads| - 1], heads[|heads| - 1])
      ensures |lost| == Losses(heads)
      ensures crashed <==> heads != [] && Loses(heads[|heads| - 1]) && !heads[|heads| - 1].state.pinned
      ensures forall i | 0 <= i < |log| && log[i].Took? :: log[i].lease !in lost <==> exists j :: Returns(log, i, j)
      ensures (forall m | m in msgs :: !EndsTx(m)) ==> lost == {}
      ensures SimpleOnly(msgs) ==> forall h | h in heads :: h.state.bound ==> h.state.inTx || h.state.pinned
    {
      hide *;
      heads := [];
      var n, go := 0, true;
      FreshIsSound();
      NoStory(session.policy, log);
      while n < |msgs| && go
        invariant |heads| == n <= |msgs| && Sound(None, None) && (go ==> TxBound(session.inTransaction) && !crashed)
        invariant forall k | 0 <= k < n :: heads[k].msg == msgs[k]
        invariant Story(session.policy, heads, log) && |lost| == Losses(heads)
        invariant forall k | 0 <= k < n :: heads[k].taken <==> TakenUp(fates[k], heads[k].state, msgs[k])
        invariant forall k | 0 <= k < n && Stops(fates[k], heads[k]) :: k == n - 1
        invariant go <==> n == 0 || !Stops(fates[n - 1], heads[n - 1])
        invariant n == 0 ==> FreshState(Now()) && log == [] && boundReader == None && boundReaderPool == None
        invariant n > 0 && go ==> Follows(session.policy, heads[n - 1], Now(), boundReader, boundReaderPool, log)
        invariant crashed <==> n > 0 && Loses(heads[n - 1]) && !heads[n - 1].state.pinned
      {
        ghost var before, here := log, Here(msgs[n]);
        ghost var h: Head;
        HereIs(msgs[n]);
        go, h := Turn(msgs[n], fates[n]);
        StoryLater(session.policy, heads, before, log);
        TakesUp(session.policy, heads, here, h, before, log);
        StoryMore(session.policy, heads, h, log);
        heads := heads + [h];
        n := n + 1;
      }
      ghost var before := log;
      Cleanup();
      StoryLater(session.policy, heads, before, log);
      forall i | 0 <= i < |log| && log[i].Took?
        ensures log[i].lease !in lost <==> exists j :: Returns(log, i, j)
      {
        BookIs();
        ExactlyOnce(log, i);
      }
      if forall m | m in msgs :: !EndsTx(m) { NothingLost(session.policy, heads, msgs, log); }
      if SimpleOnly(msgs) { SimpleRun(session.policy, heads, msgs, log); }
    }

    lemma BookIs()
      ensures Book() == Replay(log)
    {
    }

    lemma FreshIsSound()
      requires Fresh() && !session.inTransaction
      ensures Sound(None, None) && TxBound(session.inTransaction) && FreshState(Now())
      ensures log == [] && lost == {} && !crashed && boundReader == None && boundReaderPool == None
    {
    }
  }
}
