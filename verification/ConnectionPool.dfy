/** The backend connection pool (internal/pool/pool.go).

    The pool is a monitor that drops its lock while it dials, so its behaviour is a machine whose steps
    are its lock sections. `Apply` is that machine on values; class `Pool` is the code, one method per
    lock section, each proved to take exactly the machine's step. */
module ConnectionPool {
  import opened Options

  datatype Conn = Conn(id: nat, createdAt: int, lastUsedAt: int)

  datatype Config = Config(min: nat, max: nat, idleTimeout: int, maxLifetime: int)

  /** What the configuration check accepts (internal/config/config.go:498-506). */
  predicate ValidConfig(cfg: Config) {
    cfg.min <= cfg.max && 1 <= cfg.max
  }

  /** Expired or idle for too long; a non-positive limit means no limit. */
  predicate Stale(cfg: Config, c: Conn, now: int) {
    || (cfg.maxLifetime > 0 && now - c.createdAt > cfg.maxLifetime)
    || (cfg.idleTimeout > 0 && now - c.lastUsedAt > cfg.idleTimeout)
  }

  /** The pool's fields, the connections out of its hands, and its callers.
      `tokens` is the number of signals buffered in waitCh, `waiting` the callers that found no capacity
      and have not yet received a signal, `woken` those that received one and have not yet retried,
      `signalling` the Discards that have given up their slot and not yet signalled. */
  datatype State = State(
    idle: seq<Conn>, numOpen: int, closed: bool, tokens: nat,
    borrowed: set<nat>, dialing: nat, filling: nat, nextId: nat,
    waiting: nat, woken: nat, signalling: nat)

  datatype Event =
    | Acquire(now: int, retry: bool)   // one turn of Acquire's loop under the lock
    | DialFailed                       // an Acquire that reserved a slot could not dial
    | DialDone(now: int)
    | Release(conn: Conn, now: int)
    | Discard(id: nat)                 // its lock section; the signal is a later step
    | Signal
    | Wake                             // a waiter receives a signal
    | GiveUp                           // a waiter times out or is cancelled
    | Prune(now: int)                  // healthCheck's filter
    | Reserve                          // Warm or healthCheck takes a slot below the minimum
    | FillFailed
    | FillDone(now: int)
    | Close

  const INIT := State([], 0, false, 0, {}, 0, 0, 0, 0, 0, 0)

  function DropStale(cfg: Config, idle: seq<Conn>, now: int): (r: seq<Conn>)
    ensures r <= idle
    ensures |r| > 0 ==> !Stale(cfg, r[|r| - 1], now)
    ensures forall i | |r| <= i < |idle| :: Stale(cfg, idle[i], now)
  {
    if |idle| > 0 && Stale(cfg, idle[|idle| - 1], now)
    then DropStale(cfg, idle[..|idle| - 1], now)
    else idle
  }

  function Fresh(cfg: Config, idle: seq<Conn>, now: int): (r: seq<Conn>)
    ensures |r| <= |idle|
    ensures forall c :: c in r <==> c in idle && !Stale(cfg, c, now)
  {
    if idle == [] then [] else
      var r := Fresh(cfg, idle[..|idle| - 1], now);
      var c := idle[|idle| - 1];
      if Stale(cfg, c, now) then r else r + [c]
  }

  lemma FreshNone(cfg: Config, now: int)
    ensures Fresh(cfg, [], now) == []
  {
  }

  lemma FreshStep(cfg: Config, idle: seq<Conn>, i: nat, now: int)
    requires i < |idle|
    ensures Fresh(cfg, idle[..i + 1], now)
         == Fresh(cfg, idle[..i], now) + if Stale(cfg, idle[i], now) then [] else [idle[i]]
  {
    assert idle[..i + 1][..i] == idle[..i];
  }

  function AddToken(cfg: Config, tokens: nat): nat {
    if tokens < cfg.max then tokens + 1 else tokens
  }

  function GiveBackSlot(numOpen: int): int {
    if numOpen > 0 then numOpen - 1 else numOpen
  }

  predicate Enabled(cfg: Config, s: State, e: Event) {
    match e
    case Acquire(_, retry) => retry ==> s.woken > 0
    case DialFailed => s.dialing > 0
    case DialDone(_) => s.dialing > 0
    case Release(c, _) => c.id in s.borrowed
    case Discard(id) => id in s.borrowed
    case Signal => s.signalling > 0
    case Wake => s.waiting > 0 && s.tokens > 0
    case GiveUp => s.waiting > 0
    case Prune(_) => !s.closed
    case Reserve => !s.closed && s.numOpen < cfg.min
    case FillFailed => s.filling > 0
    case FillDone(_) => s.filling > 0
    case Close => true
  }

  function ApplyAcquire(cfg: Config, s0: State, now: int, retry: bool): State
    requires retry ==> s0.woken > 0
  {
    var s := if retry then s0.(woken := s0.woken - 1) else s0;
    if s.closed then s else
      var idle := DropStale(cfg, s.idle, now);
      var open := s.numOpen - (|s.idle| - |idle|);
      if |idle| > 0 then
        s.(idle := idle[..|idle| - 1], numOpen := open, borrowed := s.borrowed + {idle[|idle| - 1].id})
      else if open < cfg.max then
        s.(idle := [], numOpen := open + 1, dialing := s.dialing + 1)
      else
        s.(idle := [], numOpen := open, waiting := s.waiting + 1)
  }

  function Apply(cfg: Config, s: State, e: Event): State
    requires Enabled(cfg, s, e)
  {
    match e
    case Acquire(now, retry) => ApplyAcquire(cfg, s, now, retry)
    case DialFailed => s.(dialing := s.dialing - 1, numOpen := s.numOpen - 1)
    case DialDone(now) =>
      if s.closed then s.(dialing := s.dialing - 1, numOpen := s.numOpen - 1, nextId := s.nextId + 1)
      else s.(dialing := s.dialing - 1, borrowed := s.borrowed + {s.nextId}, nextId := s.nextId + 1)
    case Release(c, now) =>
      if s.closed then s.(borrowed := s.borrowed - {c.id}, numOpen := GiveBackSlot(s.numOpen))
      else s.(borrowed := s.borrowed - {c.id}, idle := s.idle + [c.(lastUsedAt := now)],
              tokens := AddToken(cfg, s.tokens))
    case Discard(id) =>
      s.(borrowed := s.borrowed - {id}, numOpen := GiveBackSlot(s.numOpen), signalling := s.signalling + 1)
    case Signal => s.(signalling := s.signalling - 1, tokens := AddToken(cfg, s.tokens))
    case Wake => s.(waiting := s.waiting - 1, tokens := s.tokens - 1, woken := s.woken + 1)
    case GiveUp => s.(waiting := s.waiting - 1)
    case Prune(now) =>
      var idle := Fresh(cfg, s.idle, now);
      s.(idle := idle, numOpen := s.numOpen - (|s.idle| - |idle|))
    case Reserve => s.(numOpen := s.numOpen + 1, filling := s.filling + 1)
    case FillFailed => s.(filling := s.filling - 1, numOpen := s.numOpen - 1)
    case FillDone(now) =>
      if s.closed then s.(filling := s.filling - 1, numOpen := s.numOpen - 1, nextId := s.nextId + 1)
      else s.(filling := s.filling - 1, idle := s.idle + [Conn(s.nextId, now, now)], nextId := s.nextId + 1)
    case Close =>
      if s.closed then s else s.(closed := true, idle := [], numOpen := s.numOpen - |s.idle|)
  }

  // ---- Runs ----

  predicate ValidRun(cfg: Config, s: State, es: seq<Event>)
    decreases |es|
  {
    es == [] || (Enabled(cfg, s, es[0]) && ValidRun(cfg, Apply(cfg, s, es[0]), es[1..]))
  }

  function Run(cfg: Config, s: State, es: seq<Event>): State
    requires ValidRun(cfg, s, es)
    decreases |es|
  {
    if es == [] then s else Run(cfg, Apply(cfg, s, es[0]), es[1..])
  }

  // ---- Conservation ----

  ghost predicate DistinctIds(cs: seq<Conn>) {
    forall i, j | 0 <= i < j < |cs| :: cs[i].id != cs[j].id
  }

  /** Every open connection is idle, borrowed or being dialled, never twice, and never more than max. */
  ghost predicate Conserved(cfg: Config, s: State) {
    && s.numOpen == |s.idle| + |s.borrowed| + s.dialing + s.filling
    && s.numOpen <= cfg.max
    && s.tokens <= cfg.max
    && DistinctIds(s.idle)
    && (forall c | c in s.idle :: c.id !in s.borrowed && c.id < s.nextId)
    && (forall id | id in s.borrowed :: id < s.nextId)
    && (s.closed ==> s.idle == [])
  }

  lemma {:induction false} FreshKeepsOrder(cfg: Config, idle: seq<Conn>, now: int)
    requires DistinctIds(idle)
    ensures DistinctIds(Fresh(cfg, idle, now))
  {
    if idle != [] {
      var init := idle[..|idle| - 1];
      FreshKeepsOrder(cfg, init, now);
      var r := Fresh(cfg, init, now);
      forall i | 0 <= i < |r| ensures r[i].id != idle[|idle| - 1].id {
        assert r[i] in r && r[i] in init;
      }
    }
  }

  lemma AcquireConserves(cfg: Config, s: State, now: int, retry: bool)
    requires ValidConfig(cfg) && Conserved(cfg, s) && Enabled(cfg, s, Acquire(now, retry))
    ensures Conserved(cfg, ApplyAcquire(cfg, s, now, retry))
  {
    var idle := DropStale(cfg, s.idle, now);
    if !s.closed && |idle| > 0 {
      var c := idle[|idle| - 1];
      assert c == s.idle[|idle| - 1] && c in s.idle;
      assert |s.borrowed + {c.id}| == |s.borrowed| + 1;
      var rest := idle[..|idle| - 1];
      forall d | d in rest ensures d in s.idle && d.id != c.id {
        var i :| 0 <= i < |rest| && rest[i] == d;
        assert s.idle[i] == d;
      }
    }
  }

  lemma ReturnConserves(cfg: Config, s: State, e: Event)
    requires ValidConfig(cfg) && Conserved(cfg, s) && Enabled(cfg, s, e)
    requires e.Release? || e.Discard?
    ensures Conserved(cfg, Apply(cfg, s, e))
  {
    var id := if e.Release? then e.conn.id else e.id;
    assert |s.borrowed - {id}| == |s.borrowed| - 1;
  }

  lemma DialConserves(cfg: Config, s: State, e: Event)
    requires ValidConfig(cfg) && Conserved(cfg, s) && Enabled(cfg, s, e)
    requires e.DialFailed? || e.DialDone? || e.Reserve? || e.FillFailed? || e.FillDone?
    ensures Conserved(cfg, Apply(cfg, s, e))
  {
    assert |s.borrowed + {s.nextId}| == |s.borrowed| + 1;
  }

  /** Every step of every client keeps the pool's books. */
  lemma StepConserves(cfg: Config, s: State, e: Event)
    requires ValidConfig(cfg) && Conserved(cfg, s) && Enabled(cfg, s, e)
    ensures Conserved(cfg, Apply(cfg, s, e))
  {
    match e
    case Acquire(now, retry) => AcquireConserves(cfg, s, now, retry);
    case Release(_, _) => ReturnConserves(cfg, s, e);
    case Discard(_) => ReturnConserves(cfg, s, e);
    case Prune(now) => FreshKeepsOrder(cfg, s.idle, now);
    case Signal =>
    case Wake =>
    case GiveUp =>
    case Close =>
    case _ => DialConserves(cfg, s, e);
  }

  /** Conservation: in every interleaving of the pool's four kinds of client, at every lock release. */
  lemma {:induction false} RunConserves(cfg: Config, s: State, es: seq<Event>)
    requires ValidConfig(cfg) && Conserved(cfg, s) && ValidRun(cfg, s, es)
    ensures Conserved(cfg, Run(cfg, s, es))
    decreases |es|
  {
    if es != [] {
      StepConserves(cfg, s, es[0]);
      RunConserves(cfg, Apply(cfg, s, es[0]), es[1..]);
    }
  }

  // ---- Wake-ups ----

  /** Connections the pool could hand out or dial right now. */
  function Free(cfg: Config, s: State): int {
    |s.idle| + cfg.max - s.numOpen
  }

  /** While someone waits, every free slot has a wake-up on its way: a buffered signal, a caller already
      woken, or a Discard about to signal. */
  predicate NoLostWakeup(cfg: Config, s: State) {
    !s.closed && s.waiting > 0 ==> Free(cfg, s) <= s.tokens + s.woken + s.signalling
  }

  /** The steps that give capacity back without signalling. */
  predicate Silent(e: Event) {
    e.DialFailed? || e.FillFailed? || e.FillDone?
  }

  predicate StrandsWaiter(cfg: Config, s: State, e: Event) {
    Silent(e) && !s.closed && s.waiting > 0 && Free(cfg, s) == s.tokens + s.woken + s.signalling
  }

  /** A caller is served (handed an idle connection or given a slot to dial) exactly when capacity is
      free, and then uses up one unit of it; otherwise it joins the waiters. */
  lemma AcquireServedIffFree(cfg: Config, s: State, now: int, retry: bool)
    requires Conserved(cfg, s) && !s.closed && Enabled(cfg, s, Acquire(now, retry))
    ensures var t := ApplyAcquire(cfg, s, now, retry);
            if Free(cfg, s) > 0
            then t.waiting == s.waiting && Free(cfg, t) == Free(cfg, s) - 1
            else t.waiting == s.waiting + 1 && Free(cfg, t) == 0
  {
    var idle := DropStale(cfg, s.idle, now);
    assert |s.idle| > 0 && idle == [] ==> s.numOpen - |s.idle| < cfg.max;
  }

  lemma BorrowedIsOpen(cfg: Config, s: State, id: nat)
    requires Conserved(cfg, s) && id in s.borrowed
    ensures s.numOpen > 0
  {
    assert s.borrowed == (s.borrowed - {id}) + {id};
  }

  /** Exactly the silent steps taken while the account is tight lose a wake-up; every other step of every
      client keeps the promise. */
  lemma WakeupKeptUnlessStranding(cfg: Config, s: State, e: Event)
    requires ValidConfig(cfg) && Conserved(cfg, s) && Enabled(cfg, s, e) && NoLostWakeup(cfg, s)
    ensures NoLostWakeup(cfg, Apply(cfg, s, e)) <==> !StrandsWaiter(cfg, s, e)
  {
    match e
    case Acquire(now, retry) =>
      if !s.closed { AcquireServedIffFree(cfg, s, now, retry); }
    case Release(c, _) => BorrowedIsOpen(cfg, s, c.id);
    case Discard(id) => BorrowedIsOpen(cfg, s, id);
    case _ =>
  }

  /** No lost wake-up: in every run of Acquire with successful dials, Release and Discard (and waiters
      leaving, pruning, reserving and closing), nobody waits with capacity free and no wake-up coming. */
  lemma {:induction false} RunLosesNoWakeup(cfg: Config, s: State, es: seq<Event>)
    requires ValidConfig(cfg) && Conserved(cfg, s) && NoLostWakeup(cfg, s) && ValidRun(cfg, s, es)
    requires forall e | e in es :: !Silent(e)
    ensures NoLostWakeup(cfg, Run(cfg, s, es))
    ensures var t := Run(cfg, s, es);
            !t.closed && t.waiting > 0 && Free(cfg, t) > 0 ==> t.tokens > 0 || t.woken > 0 || t.signalling > 0
    decreases |es|
  {
    if es != [] {
      StepConserves(cfg, s, es[0]);
      WakeupKeptUnlessStranding(cfg, s, es[0]);
      RunLosesNoWakeup(cfg, Apply(cfg, s, es[0]), es[1..]);
    }
  }

  const ONE_SLOT := Config(0, 1, 0, 0)

  lemma StrandingSteps()
    ensures Apply(ONE_SLOT, INIT, Acquire(0, false)) == INIT.(numOpen := 1, dialing := 1)
    ensures Apply(ONE_SLOT, INIT.(numOpen := 1, dialing := 1), Acquire(0, false))
         == INIT.(numOpen := 1, dialing := 1, waiting := 1)
    ensures Apply(ONE_SLOT, INIT.(numOpen := 1, dialing := 1, waiting := 1), DialFailed) == INIT.(waiting := 1)
    ensures !NoLostWakeup(ONE_SLOT, INIT.(waiting := 1))
  {
  }

  /** A failed dial leaves a waiter with a free slot and nothing to wake it: the promise needs successful
      dials. */
  lemma FailedDialStrandsWaiter()
    ensures var es := [Acquire(0, false)] + ([Acquire(0, false)] + ([DialFailed] + []));
            ValidRun(ONE_SLOT, INIT, es) && !NoLostWakeup(ONE_SLOT, Run(ONE_SLOT, INIT, es))
  {
    StrandingSteps();
    var s1 := INIT.(numOpen := 1, dialing := 1);
    var s2 := s1.(waiting := 1);
    assert Run(ONE_SLOT, INIT.(waiting := 1), []) == INIT.(waiting := 1);
    hide Apply, NoLostWakeup;
    RunStep(ONE_SLOT, s2, DialFailed, []);
    RunStep(ONE_SLOT, s1, Acquire(0, false), [DialFailed] + []);
    RunStep(ONE_SLOT, INIT, Acquire(0, false), [Acquire(0, false)] + ([DialFailed] + []));
  }

  lemma RunStep(cfg: Config, s: State, e: Event, es: seq<Event>)
    requires Enabled(cfg, s, e) && ValidRun(cfg, Apply(cfg, s, e), es)
    ensures ValidRun(cfg, s, [e] + es) && Run(cfg, s, [e] + es) == Run(cfg, Apply(cfg, s, e), es)
  {
    hide Apply, Enabled;
    assert ([e] + es)[1..] == es;
  }

  // ---- Histories of a pool ----

  lemma {:induction false} RunAppend(cfg: Config, s: State, es: seq<Event>, e: Event)
    requires ValidRun(cfg, s, es) && Enabled(cfg, Run(cfg, s, es), e)
    ensures ValidRun(cfg, s, es + [e]) && Run(cfg, s, es + [e]) == Apply(cfg, Run(cfg, s, es), e)
    decreases |es|
  {
    hide Apply, Enabled;
    if es == [] {
      assert es + [e] == [e] && [e][1..] == [];
    } else {
      assert (es + [e])[1..] == es[1..] + [e];
      RunAppend(cfg, Apply(cfg, s, es[0]), es[1..], e);
    }
  }

  /** From a new pool, every history keeps the books, and one without a silent give-back loses no wake-up. */
  lemma HistoryKeepsBooks(cfg: Config, es: seq<Event>)
    requires ValidConfig(cfg) && ValidRun(cfg, INIT, es)
    ensures Conserved(cfg, Run(cfg, INIT, es))
    ensures (forall e | e in es :: !Silent(e)) ==> NoLostWakeup(cfg, Run(cfg, INIT, es))
  {
    NewPool(cfg);
    hide *;
    RunConserves(cfg, INIT, es);
    if forall e | e in es :: !Silent(e) { RunLosesNoWakeup(cfg, INIT, es); }
  }

  lemma NewPool(cfg: Config)
    ensures Conserved(cfg, INIT) && NoLostWakeup(cfg, INIT)
  {
  }

  // ---- After Close ----

  /** The steps by which a borrower or a dial finishes. */
  predicate Finishing(e: Event) {
    e.Release? || e.Discard? || e.DialFailed? || e.DialDone? || e.FillFailed? || e.FillDone?
  }

  function Finishes(es: seq<Event>): nat {
    if es == [] then 0 else (if Finishing(es[0]) then 1 else 0) + Finishes(es[1..])
  }

  lemma ClosedStep(cfg: Config, s: State, e: Event)
    requires Conserved(cfg, s) && s.closed && Enabled(cfg, s, e)
    ensures var t := Apply(cfg, s, e);
            && t.closed && t.borrowed <= s.borrowed && t.dialing <= s.dialing && t.filling <= s.filling
            && t.numOpen == s.numOpen - (if Finishing(e) then 1 else 0)
  {
    match e
    case Release(c, _) => BorrowedIsOpen(cfg, s, c.id);
    case Discard(id) => BorrowedIsOpen(cfg, s, id);
    case _ =>
  }

  /** Once closed a pool stays closed and empty, no Acquire succeeds, and numOpen is exactly what is still
      out, falling by one as each borrower or dial finishes. */
  lemma {:induction false} ClosedPoolDrains(cfg: Config, s: State, es: seq<Event>)
    requires ValidConfig(cfg) && Conserved(cfg, s) && s.closed && ValidRun(cfg, s, es)
    ensures var t := Run(cfg, s, es);
            && t.closed && t.idle == []
            && t.borrowed <= s.borrowed && t.dialing <= s.dialing && t.filling <= s.filling
            && t.numOpen == |t.borrowed| + t.dialing + t.filling == s.numOpen - Finishes(es)
    decreases |es|
  {
    if es != [] {
      ClosedStep(cfg, s, es[0]);
      StepConserves(cfg, s, es[0]);
      ClosedPoolDrains(cfg, Apply(cfg, s, es[0]), es[1..]);
    }
  }

  // ---- The code ----

  datatype Outcome = ErrPoolClosed | ErrDial | Got(conn: Conn) | MustDial | MustWait

  /** Every method is one lock section, or one step of a waiter, and takes one step of the machine. */
  class Pool {
    const cfg: Config
    var idle: seq<Conn>
    var numOpen: int
    var closed: bool
    var tokens: nat
    var nextId: nat
    ghost var borrowed: set<nat>
    ghost var dialing: nat
    ghost var filling: nat
    ghost var waiting: nat
    ghost var woken: nat
    ghost var signalling: nat
    ghost var history: seq<Event>

    ghost function View(): State
      reads this`idle, this`numOpen, this`closed, this`tokens, this`borrowed, this`dialing, this`filling, this`nextId
      reads this`waiting, this`woken, this`signalling
    {
      State(idle, numOpen, closed, tokens, borrowed, dialing, filling, nextId, waiting, woken, signalling)
    }

    /** The object is where its history leads. */
    ghost predicate Lived()
      reads this
    {
      ValidRun(cfg, INIT, history) && View() == Run(cfg, INIT, history)
    }

    /** The object took step e, from the state it was in. */
    twostate predicate Stepped(e: Event)
      reads this
    {
      && old(Enabled(cfg, View(), e)) && View() == Apply(cfg, old(View()), e)
      && history == old(history) + [e] && (old(Lived()) ==> Lived())
    }

    twostate lemma Step(e: Event)
      requires old(Enabled(cfg, View(), e)) && View() == Apply(cfg, old(View()), e) && history == old(history) + [e]
      ensures Stepped(e)
    {
      hide Apply, Enabled, Run, ValidRun;
      if old(Lived()) { RunAppend(cfg, INIT, old(history), e); }
    }

    /** So whatever its callers did, the books are kept. */
    lemma BooksKept()
      requires Lived() && ValidConfig(cfg)
      ensures Conserved(cfg, View())
      ensures (forall e | e in history :: !Silent(e)) ==> NoLostWakeup(cfg, View())
    {
      hide Run, ValidRun, Conserved, NoLostWakeup;
      HistoryKeepsBooks(cfg, history);
    }

    constructor (cfg: Config)
      ensures this.cfg == cfg && View() == INIT && history == [] && Lived()
    {
      this.cfg := cfg;
      idle, numOpen, closed, tokens, nextId := [], 0, false, 0, 0;
      borrowed, dialing, filling, waiting, woken, signalling, history := {}, 0, 0, 0, 0, 0, [];
    }

    /** Acquire's inner loop: drop stale connections from the end until one is good. */
    method PopFresh(now: int) returns (r: Option<Conn>)
      modifies this`idle, this`numOpen
      ensures var kept := DropStale(cfg, old(idle), now);
              && numOpen == old(numOpen) - (|old(idle)| - |kept|)
              && (if kept == [] then r == None && idle == []
                  else r == Some(kept[|kept| - 1].(lastUsedAt := now)) && idle == kept[..|kept| - 1])
      ensures r.Some? ==> !Stale(cfg, r.value, now)
    {
      while |idle| > 0
        invariant DropStale(cfg, idle, now) == DropStale(cfg, old(idle), now)
        invariant numOpen - |idle| == old(numOpen) - |old(idle)|
      {
        var conn := idle[|idle| - 1];
        idle := idle[..|idle| - 1];
        if Stale(cfg, conn, now) {
          numOpen := numOpen - 1;
        } else {
          return Some(conn.(lastUsedAt := now));
        }
      }
      return None;
    }

    /** One turn of Acquire's loop, from Lock to Unlock. */
    method AcquireTurn(now: int, ghost retry: bool) returns (r: Outcome)
      requires Enabled(cfg, View(), Acquire(now, retry))
      modifies this
      ensures Stepped(Acquire(now, retry))
      ensures r.ErrPoolClosed? <==> old(closed)
      ensures r.Got? ==> !Stale(cfg, r.conn, now) && borrowed == old(borrowed) + {r.conn.id}
      ensures r.MustDial? <==> dialing == old(dialing) + 1
      ensures r.MustWait? <==> waiting == old(waiting) + 1
    {
      hide DropStale, Stale, Run, ValidRun;
      if retry { woken := woken - 1; }
      if closed {
        r := ErrPoolClosed;
      } else {
        var popped := PopFresh(now);
        if popped.Some? {
          borrowed := borrowed + {popped.value.id};
          r := Got(popped.value);
        } else if numOpen < cfg.max {
          numOpen, dialing := numOpen + 1, dialing + 1;
          r := MustDial;
        } else {
          waiting := waiting + 1;
          r := MustWait;
        }
      }
      history := history + [Acquire(now, retry)];
      Step(Acquire(now, retry));
    }

    /** A waiter receives a signal. */
    method ReceiveSignal()
      requires waiting > 0 && tokens > 0
      modifies this
      ensures Stepped(Wake)
    {
      hide Run, ValidRun;
      tokens := tokens - 1;
      waiting, woken, history := waiting - 1, woken + 1, history + [Wake];
      Step(Wake);
    }

    /** A waiter times out or is cancelled. */
    ghost method StopWaiting()
      requires waiting > 0
      modifies this
      ensures Stepped(GiveUp)
    {
      hide Run, ValidRun;
      waiting, history := waiting - 1, history + [GiveUp];
      Step(GiveUp);
    }

    /** The end of a dial made by Acquire; `dialed` says whether newConn succeeded. */
    method FinishDial(dialed: bool, now: int) returns (r: Outcome)
      requires dialing > 0
      modifies this
      ensures Stepped(if dialed then DialDone(now) else DialFailed)
      ensures r.Got? <==> dialed && !old(closed)
      ensures r.Got? ==> r.conn == Conn(old(nextId), now, now)
      ensures r.ErrPoolClosed? <==> dialed && old(closed)
      ensures r.ErrDial? <==> !dialed
    {
      hide Run, ValidRun;
      ghost var e := if dialed then DialDone(now) else DialFailed;
      dialing, history := dialing - 1, history + [e];
      if !dialed {
        numOpen := numOpen - 1;
        r := ErrDial;
      } else {
        var conn := Conn(nextId, now, now);
        nextId := nextId + 1;
        if closed {
          numOpen := numOpen - 1;
          r := ErrPoolClosed;
        } else {
          borrowed := borrowed + {conn.id};
          r := Got(conn);
        }
      }
      Step(e);
    }

    method Release(conn: Conn, now: int)
      requires conn.id in borrowed
      modifies this
      ensures Stepped(Event.Release(conn, now))
    {
      hide Run, ValidRun;
      borrowed, history := borrowed - {conn.id}, history + [Event.Release(conn, now)];
      if closed {
        if numOpen > 0 { numOpen := numOpen - 1; }
      } else {
        idle := idle + [conn.(lastUsedAt := now)];
        if tokens < cfg.max { tokens := tokens + 1; }
      }
      Step(Event.Release(conn, now));
    }

    /** Discard's lock section; SignalWaiters is what it does after Unlock. */
    method Discard(conn: Conn)
      requires conn.id in borrowed
      modifies this
      ensures Stepped(Event.Discard(conn.id))
    {
      hide Run, ValidRun;
      borrowed, signalling := borrowed - {conn.id}, signalling + 1;
      if numOpen > 0 { numOpen := numOpen - 1; }
      history := history + [Event.Discard(conn.id)];
      Step(Event.Discard(conn.id));
    }

    method SignalWaiters()
      requires signalling > 0
      modifies this
      ensures Stepped(Signal)
    {
      hide Run, ValidRun;
      signalling, history := signalling - 1, history + [Signal];
      if tokens < cfg.max { tokens := tokens + 1; }
      Step(Signal);
    }

    method Close()
      modifies this
      ensures Stepped(Event.Close)
    {
      hide Run, ValidRun;
      history := history + [Event.Close];
      if !closed {
        closed := true;
        numOpen := numOpen - |idle|;
        idle := [];
      }
      Step(Event.Close);
    }

    /** healthCheck's filter over the idle list. */
    method PruneIdle(now: int)
      requires !closed
      modifies this`idle, this`numOpen, this`history
      ensures Stepped(Prune(now))
    {
      hide Fresh, Stale, Run, ValidRun;
      var alive: seq<Conn> := [];
      var i := 0;
      FreshNone(cfg, now);
      assert idle[..0] == [];
      while i < |idle|
        invariant 0 <= i <= |idle| && idle == old(idle) && history == old(history)
        invariant alive == Fresh(cfg, idle[..i], now)
        invariant numOpen == old(numOpen) - (i - |alive|)
      {
        FreshStep(cfg, idle, i, now);
        if Stale(cfg, idle[i], now) {
          numOpen := numOpen - 1;
        } else {
          alive := alive + [idle[i]];
        }
        i := i + 1;
      }
      assert idle[..|idle|] == idle;
      idle := alive;
      history := history + [Prune(now)];
      Step(Prune(now));
    }

    /** Warm and healthCheck take a slot only below the minimum. */
    method ReserveSlot() returns (reserved: bool)
      modifies this
      ensures reserved <==> Enabled(cfg, old(View()), Reserve)
      ensures if reserved then Stepped(Reserve) else View() == old(View()) && history == old(history)
    {
      hide Run, ValidRun;
      if closed || numOpen >= cfg.min { return false; }
      numOpen, filling, history := numOpen + 1, filling + 1, history + [Reserve];
      Step(Reserve);
      return true;
    }

    method FinishFill(dialed: bool, now: int)
      requires filling > 0
      modifies this
      ensures Stepped(if dialed then FillDone(now) else FillFailed)
    {
      hide Run, ValidRun;
      ghost var e := if dialed then FillDone(now) else FillFailed;
      filling, history := filling - 1, history + [e];
      if !dialed {
        numOpen := numOpen - 1;
      } else {
        var conn := Conn(nextId, now, now);
        nextId := nextId + 1;
        if closed { numOpen := numOpen - 1; } else { idle := idle + [conn]; }
      }
      Step(e);
    }
  }
}
