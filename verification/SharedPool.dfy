/** One pool and the sessions that share it: what the sessions' laws (internal/proxy) give the pool's lock sections
    (internal/pool/pool.go) to rely on. */
module SharedPool {
  import opened Options
  import S = Ownership
  import P = ConnectionPool

  /** The pool, the log of each session, and the connection behind each lease that is out of this pool. */
  datatype World = World(pool: P.State, logs: seq<seq<S.Event>>, conn: map<(nat, S.Lease), nat>)

  datatype Step =
    | Borrow(who: nat, call: P.Event)            // a lock section that hands a connection to a session
    | Return(who: nat, event: S.Event, conn: P.Conn, now: int)
    | Elsewhere(who: nat, event: S.Event)        // what a session does without calling this pool
    | Inside(call: P.Event)                      // every other lock section

  /** The connection a lock section hands out. */
  function Handed(cfg: P.Config, s: P.State, call: P.Event): Option<nat> {
    match call
    case Acquire(now, _) =>
      var idle := P.DropStale(cfg, s.idle, now);
      if !s.closed && idle != [] then Some(idle[|idle| - 1].id) else None
    case DialDone(_) => if s.closed then None else Some(s.nextId)
    case _ => None
  }

  predicate CallsPool(e: S.Event, p: S.PoolId) {
    (e.Took? || e.Released? || e.Discarded?) && e.pool == p
  }

  function Ledger(w: World, who: nat): S.Ledger
    requires who < |w.logs|
  {
    S.Replay(w.logs[who])
  }

  /** Sessions keep their own law. That a Release or Discard names a connection the pool has out is not asked. */
  predicate Possible(cfg: P.Config, p: S.PoolId, w: World, step: Step) {
    match step
    case Borrow(who, call) =>
      who < |w.logs| && P.Enabled(cfg, w.pool, call) && Handed(cfg, w.pool, call).Some?
    case Return(who, e, c, _) =>
      && who < |w.logs| && (e.Released? || e.Discarded?) && e.pool == p && S.Allowed(Ledger(w, who), e)
      && ((who, e.lease) in w.conn ==> c.id == w.conn[(who, e.lease)])
    case Elsewhere(who, e) => who < |w.logs| && !CallsPool(e, p) && S.Allowed(Ledger(w, who), e)
    case Inside(call) =>
      P.Enabled(cfg, w.pool, call) && !call.Release? && !call.Discard? && Handed(cfg, w.pool, call).None?
  }

  /** The lock section a step runs, if any. */
  function Call(step: Step): Option<P.Event> {
    match step
    case Borrow(_, call) => Some(call)
    case Return(_, e, c, now) => Some(if e.Released? then P.Event.Release(c, now) else P.Event.Discard(c.id))
    case Elsewhere(_, _) => None
    case Inside(call) => Some(call)
  }

  function Logged(w: World, who: nat, e: S.Event): seq<seq<S.Event>>
    requires who < |w.logs|
  {
    w.logs[who := w.logs[who] + [e]]
  }

  /** The lock section's effect; a call the pool does not expect would be lost. */
  function Section(cfg: P.Config, s: P.State, call: Option<P.Event>): P.State {
    if call.Some? && P.Enabled(cfg, s, call.value) then P.Apply(cfg, s, call.value) else s
  }

  function Next(cfg: P.Config, p: S.PoolId, w: World, step: Step): World
    requires Possible(cfg, p, w, step)
  {
    var pool := Section(cfg, w.pool, Call(step));
    match step
    case Borrow(who, call) =>
      var l := Ledger(w, who).next;
      World(pool, Logged(w, who, S.Took(l, p)), w.conn[(who, l) := Handed(cfg, w.pool, call).value])
    case Return(who, e, _, _) => World(pool, Logged(w, who, e), w.conn - {(who, e.lease)})
    case Elsewhere(who, e) => World(pool, Logged(w, who, e), w.conn)
    case Inside(_) => World(pool, w.logs, w.conn)
  }

  predicate ValidSteps(cfg: P.Config, p: S.PoolId, w: World, steps: seq<Step>)
    decreases |steps|
  {
    steps == [] || (Possible(cfg, p, w, steps[0]) && ValidSteps(cfg, p, Next(cfg, p, w, steps[0]), steps[1..]))
  }

  function After(cfg: P.Config, p: S.PoolId, w: World, steps: seq<Step>): World
    requires ValidSteps(cfg, p, w, steps)
    decreases |steps|
  {
    if steps == [] then w else After(cfg, p, Next(cfg, p, w, steps[0]), steps[1..])
  }

  /** The lock sections of a history, in order. */
  function Calls(steps: seq<Step>): seq<P.Event> {
    if steps == [] then []
    else (if Call(steps[0]).Some? then [Call(steps[0]).value] else []) + Calls(steps[1..])
  }

  // ---- The link between the sessions' ledgers and the pool's borrowers ----

  /** Lease l of session `who` is out of pool p. */
  predicate Out(logs: seq<seq<S.Event>>, p: S.PoolId, who: nat, l: S.Lease) {
    who < |logs| && l in S.Replay(logs[who]).held && S.Replay(logs[who]).held[l] == p
  }

  predicate AllLawful(logs: seq<seq<S.Event>>) {
    forall log | log in logs :: S.Lawful(log)
  }

  /** The leases with a connection are those out of the pool. */
  ghost predicate Known(p: S.PoolId, logs: seq<seq<S.Event>>, conn: map<(nat, S.Lease), nat>) {
    forall who: nat, l: S.Lease :: Out(logs, p, who, l) <==> (who, l) in conn
  }

  /** Each has a connection of its own, and these are the connections the pool has out. */
  ghost predicate Matched(conn: map<(nat, S.Lease), nat>, borrowed: set<nat>) {
    && (forall k | k in conn :: conn[k] in borrowed)
    && (forall k, k' | k in conn && k' in conn && conn[k] == conn[k'] :: k == k')
    && (forall id | id in borrowed :: exists k | k in conn :: conn[k] == id)
  }

  ghost predicate Linked(cfg: P.Config, p: S.PoolId, w: World) {
    P.Conserved(cfg, w.pool) && AllLawful(w.logs) && Known(p, w.logs, w.conn) && Matched(w.conn, w.pool.borrowed)
  }

  lemma AcquiredIsNew(cfg: P.Config, s: P.State, now: int, retry: bool)
    requires P.Conserved(cfg, s) && (retry ==> s.woken > 0)
    ensures var id := Handed(cfg, s, P.Event.Acquire(now, retry));
            var s' := P.ApplyAcquire(cfg, s, now, retry);
            && (id.Some? ==> id.value !in s.borrowed && s'.borrowed == s.borrowed + {id.value})
            && (id.None? ==> s'.borrowed == s.borrowed)
  {
    hide P.DropStale;
    var idle := P.DropStale(cfg, s.idle, now);
    if idle != [] { assert idle[|idle| - 1] == s.idle[|idle| - 1] && idle[|idle| - 1] in s.idle; }
  }

  lemma HandedIsNew(cfg: P.Config, s: P.State, call: P.Event)
    requires P.Conserved(cfg, s) && P.Enabled(cfg, s, call)
    ensures var id := Handed(cfg, s, call);
            && (id.Some? ==> id.value !in s.borrowed && P.Apply(cfg, s, call).borrowed == s.borrowed + {id.value})
            && (id.None? && !call.Release? && !call.Discard? ==> P.Apply(cfg, s, call).borrowed == s.borrowed)
  {
    hide P.DropStale, P.ApplyAcquire;
    if call.Acquire? { AcquiredIsNew(cfg, s, call.now, call.retry); }
  }

  /** The pool always has out what a session's law lets it give back. */
  lemma CallExpected(cfg: P.Config, p: S.PoolId, w: World, step: Step)
    requires Linked(cfg, p, w) && Possible(cfg, p, w, step)
    ensures Call(step).Some? ==> P.Enabled(cfg, w.pool, Call(step).value)
  {
    hide S.Replay, P.Conserved;
    if step.Return? { assert Out(w.logs, p, step.who, step.event.lease); }
  }

  lemma LoggedLawful(w: World, who: nat, e: S.Event)
    requires who < |w.logs| && AllLawful(w.logs) && S.Allowed(Ledger(w, who), e)
    ensures AllLawful(Logged(w, who, e)) && S.Replay(Logged(w, who, e)[who]) == S.Record(Ledger(w, who), e)
  {
    hide S.Replay, S.Lawful;
    S.Append(w.logs[who], e);
    assert w.logs[who] in w.logs;
    var logs := Logged(w, who, e);
    forall i | 0 <= i < |logs| ensures S.Lawful(logs[i]) { assert i != who ==> logs[i] in w.logs; }
  }

  /** How one event of a session changes which leases are out. */
  lemma OutAfter(w: World, p: S.PoolId, who: nat, e: S.Event)
    requires who < |w.logs| && AllLawful(w.logs) && S.Allowed(Ledger(w, who), e)
    ensures forall i: nat, l: S.Lease :: Out(Logged(w, who, e), p, i, l) <==>
              if i == who && e.Took? && l == e.lease then e.pool == p
              else Out(w.logs, p, i, l) && !(i == who && S.GivesBack(e, l))
  {
    hide S.Replay, S.Lawful;
    LoggedLawful(w, who, e);
  }

  lemma Unheard(w: World, p: S.PoolId, who: nat)
    requires who < |w.logs| && AllLawful(w.logs)
    ensures !Out(w.logs, p, who, Ledger(w, who).next)
  {
    var log := w.logs[who];
    assert log in w.logs && log[..|log|] == log;
    S.HeldWasTaken(log, |log|);
  }

  lemma MatchedMore(conn: map<(nat, S.Lease), nat>, borrowed: set<nat>, k: (nat, S.Lease), id: nat)
    requires Matched(conn, borrowed) && k !in conn && id !in borrowed
    ensures Matched(conn[k := id], borrowed + {id})
  {
    var conn' := conn[k := id];
    forall x | x in borrowed + {id} ensures exists k' | k' in conn' :: conn'[k'] == x {
      if x == id {
        assert conn'[k] == id;
      } else {
        var k' :| k' in conn && conn[k'] == x;
        assert conn'[k'] == x;
      }
    }
  }

  lemma MatchedLess(conn: map<(nat, S.Lease), nat>, borrowed: set<nat>, k: (nat, S.Lease))
    requires Matched(conn, borrowed) && k in conn
    ensures Matched(conn - {k}, borrowed - {conn[k]})
  {
    var conn' := conn - {k};
    forall x | x in borrowed - {conn[k]} ensures exists k' | k' in conn' :: conn'[k'] == x {
      var k' :| k' in conn && conn[k'] == x;
      assert conn'[k'] == x;
    }
  }

  lemma BorrowLinks(cfg: P.Config, p: S.PoolId, w: World, step: Step)
    requires P.ValidConfig(cfg) && Linked(cfg, p, w) && Possible(cfg, p, w, step) && step.Borrow?
    ensures Linked(cfg, p, Next(cfg, p, w, step))
  {
    hide S.Replay, S.Lawful, P.Conserved, P.Enabled, P.Apply, Out, Matched, AllLawful, Handed;
    var who, l := step.who, Ledger(w, step.who).next;
    P.StepConserves(cfg, w.pool, step.call);
    HandedIsNew(cfg, w.pool, step.call);
    LoggedLawful(w, who, S.Took(l, p));
    OutAfter(w, p, who, S.Took(l, p));
    Unheard(w, p, who);
    MatchedMore(w.conn, w.pool.borrowed, (who, l), Handed(cfg, w.pool, step.call).value);
  }

  lemma ReturnLinks(cfg: P.Config, p: S.PoolId, w: World, step: Step)
    requires P.ValidConfig(cfg) && Linked(cfg, p, w) && Possible(cfg, p, w, step) && step.Return?
    ensures Linked(cfg, p, Next(cfg, p, w, step))
  {
    hide S.Replay, S.Lawful, P.Conserved, P.Apply, P.Enabled, Out, Matched, AllLawful, S.Allowed;
    var who, e := step.who, step.event;
    ReturnedWasOut(w, p, who, e);
    CallExpected(cfg, p, w, step);
    P.StepConserves(cfg, w.pool, Call(step).value);
    Gone(cfg, w.pool, Call(step).value);
    LoggedLawful(w, who, e);
    OutAfter(w, p, who, e);
    MatchedLess(w.conn, w.pool.borrowed, (who, e.lease));
  }

  lemma ReturnedWasOut(w: World, p: S.PoolId, who: nat, e: S.Event)
    requires who < |w.logs| && (e.Released? || e.Discarded?) && e.pool == p && S.Allowed(Ledger(w, who), e)
    ensures Out(w.logs, p, who, e.lease)
  {
    hide S.Replay;
  }

  lemma Gone(cfg: P.Config, s: P.State, call: P.Event)
    requires P.Enabled(cfg, s, call) && (call.Release? || call.Discard?)
    ensures P.Apply(cfg, s, call).borrowed == s.borrowed - {if call.Release? then call.conn.id else call.id}
  {
  }

  lemma OtherLinks(cfg: P.Config, p: S.PoolId, w: World, step: Step)
    requires P.ValidConfig(cfg) && Linked(cfg, p, w) && Possible(cfg, p, w, step) && (step.Elsewhere? || step.Inside?)
    ensures Linked(cfg, p, Next(cfg, p, w, step))
  {
    hide S.Replay, S.Lawful, P.Conserved, P.Apply, P.Enabled, Out, Matched, AllLawful, Handed;
    if step.Inside? {
      P.StepConserves(cfg, w.pool, step.call);
      HandedIsNew(cfg, w.pool, step.call);
    } else {
      LoggedLawful(w, step.who, step.event);
      OutAfter(w, p, step.who, step.event);
      NotOut(w, p, step.who, step.event);
    }
  }

  lemma NotOut(w: World, p: S.PoolId, who: nat, e: S.Event)
    requires who < |w.logs| && AllLawful(w.logs) && !CallsPool(e, p) && S.Allowed(Ledger(w, who), e)
    ensures e.Took? || e.Released? || e.Discarded? ==> !Out(w.logs, p, who, e.lease)
  {
    hide S.Replay;
    if e.Took? { Unheard(w, p, who); }
  }

  /** A new pool and n sessions that have done nothing. */
  predicate Start(w: World) {
    w.pool == P.INIT && (forall log | log in w.logs :: log == []) && w.conn == map[]
  }

  lemma StartLinked(cfg: P.Config, p: S.PoolId, w: World)
    requires Start(w)
    ensures Linked(cfg, p, w)
  {
    forall who: nat, l: S.Lease ensures !Out(w.logs, p, who, l) {
      if who < |w.logs| { assert w.logs[who] in w.logs; }
    }
    P.NewPool(cfg);
  }

  lemma {:induction false} RunLinked(cfg: P.Config, p: S.PoolId, w: World, steps: seq<Step>)
    requires P.ValidConfig(cfg) && Linked(cfg, p, w) && ValidSteps(cfg, p, w, steps)
    ensures Linked(cfg, p, After(cfg, p, w, steps))
    ensures P.ValidRun(cfg, w.pool, Calls(steps))
    ensures P.Run(cfg, w.pool, Calls(steps)) == After(cfg, p, w, steps).pool
    decreases |steps|
  {
    hide Linked, Possible, P.Enabled, P.Apply;
    if steps != [] {
      var step := steps[0];
      var w' := Next(cfg, p, w, step);
      CallExpected(cfg, p, w, step);
      if step.Borrow? { BorrowLinks(cfg, p, w, step); }
      else if step.Return? { ReturnLinks(cfg, p, w, step); }
      else { OtherLinks(cfg, p, w, step); }
      RunLinked(cfg, p, w', steps[1..]);
      if Call(step).Some? { assert Calls(steps)[1..] == Calls(steps[1..]); }
      else { assert Calls(steps) == Calls(steps[1..]); }
    }
  }

  /** Sessions that keep their own law never surprise the pool: in every interleaving, from a new pool, the lock
      sections are a valid run of the pool, Release and Discard included, and at its end the connections the pool has
      out are, one for one, the leases the sessions hold from it. */
  lemma SessionsDriveThePool(cfg: P.Config, p: S.PoolId, w: World, steps: seq<Step>)
    requires P.ValidConfig(cfg) && Start(w) && ValidSteps(cfg, p, w, steps)
    ensures P.ValidRun(cfg, P.INIT, Calls(steps))
    ensures var w' := After(cfg, p, w, steps);
            && P.Run(cfg, P.INIT, Calls(steps)) == w'.pool && AllLawful(w'.logs)
            && Known(p, w'.logs, w'.conn) && Matched(w'.conn, w'.pool.borrowed)
  {
    StartLinked(cfg, p, w);
    RunLinked(cfg, p, w, steps);
  }
}
