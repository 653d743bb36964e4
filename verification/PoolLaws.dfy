/** Which connection the pool hands out (internal/pool/pool.go), and how old it may be. */
module PoolLaws {
  import opened Options
  import opened ConnectionPool
  import SharedPool

  /** Neither open nor idle for longer than allowed; a limit that is not positive allows anything. */
  predicate WithinLimits(cfg: Config, c: Conn, now: int) {
    && (cfg.maxLifetime > 0 ==> now <= c.createdAt + cfg.maxLifetime)
    && (cfg.idleTimeout > 0 ==> now <= c.lastUsedAt + cfg.idleTimeout)
  }

  /** The last idle connection within its limits: everything behind it is past one. */
  predicate LastWithin(cfg: Config, idle: seq<Conn>, now: int, i: nat) {
    && i < |idle| && WithinLimits(cfg, idle[i], now)
    && forall j | i < j < |idle| :: !WithinLimits(cfg, idle[j], now)
  }

  lemma StaleIs(cfg: Config, c: Conn, now: int)
    ensures Stale(cfg, c, now) <==> !WithinLimits(cfg, c, now)
  {
  }

  lemma {:induction false} DropsTo(cfg: Config, idle: seq<Conn>, now: int, i: nat)
    requires LastWithin(cfg, idle, now, i)
    ensures DropStale(cfg, idle, now) == idle[..i + 1]
  {
    var n := |idle| - 1;
    StaleIs(cfg, idle[n], now);
    if i < n {
      assert idle[..n][..i + 1] == idle[..i + 1];
      DropsTo(cfg, idle[..n], now, i);
    } else {
      assert idle[..i + 1] == idle;
    }
  }

  lemma {:induction false} DropsAll(cfg: Config, idle: seq<Conn>, now: int)
    requires forall j | 0 <= j < |idle| :: !WithinLimits(cfg, idle[j], now)
    ensures DropStale(cfg, idle, now) == []
  {
    if idle != [] {
      var n := |idle| - 1;
      StaleIs(cfg, idle[n], now);
      DropsAll(cfg, idle[..n], now);
    }
  }

  /** An open pool hands out the last idle connection within its limits, closes what lay behind it and keeps what lay
      before it. */
  lemma HandsOutLastWithin(cfg: Config, s: State, now: int, retry: bool, i: nat)
    requires Enabled(cfg, s, Acquire(now, retry)) && !s.closed && LastWithin(cfg, s.idle, now, i)
    ensures var s' := Apply(cfg, s, Acquire(now, retry));
            && SharedPool.Handed(cfg, s, Acquire(now, retry)) == Some(s.idle[i].id)
            && s'.idle == s.idle[..i] && s'.borrowed == s.borrowed + {s.idle[i].id}
            && s'.numOpen == s.numOpen - (|s.idle| - i - 1)
  {
    hide DropStale, WithinLimits;
    DropsTo(cfg, s.idle, now, i);
    assert s.idle[..i + 1][..i] == s.idle[..i];
  }

  /** With none within its limits it closes them all and dials, or makes the caller wait. */
  lemma HandsOutNone(cfg: Config, s: State, now: int, retry: bool)
    requires Enabled(cfg, s, Acquire(now, retry)) && !s.closed
    requires forall j | 0 <= j < |s.idle| :: !WithinLimits(cfg, s.idle[j], now)
    ensures var s', open := Apply(cfg, s, Acquire(now, retry)), s.numOpen - |s.idle|;
            && SharedPool.Handed(cfg, s, Acquire(now, retry)) == None && s'.idle == [] && s'.borrowed == s.borrowed
            && if open < cfg.max then s'.dialing == s.dialing + 1 && s'.numOpen == open + 1 && s'.waiting == s.waiting
               else s'.dialing == s.dialing && s'.numOpen == open && s'.waiting == s.waiting + 1
  {
    hide DropStale, WithinLimits;
    DropsAll(cfg, s.idle, now);
  }

  lemma Within(cfg: Config, idle: seq<Conn>, c: Conn, now: int)
    requires WithinLimits(cfg, c, now)
    ensures LastWithin(cfg, idle + [c], now, |idle|)
  {
  }

  /** What was given back last is handed out first, for as long as its age and the time since then allow. */
  lemma ReleasedIsReused(cfg: Config, s: State, c: Conn, now: int, later: int, retry: bool)
    requires Enabled(cfg, s, Event.Release(c, now)) && !s.closed && (retry ==> s.woken > 0) && Conserved(cfg, s)
    ensures SharedPool.Handed(cfg, Apply(cfg, s, Event.Release(c, now)), Acquire(later, retry)) == Some(c.id) <==>
            && (cfg.maxLifetime > 0 ==> later <= c.createdAt + cfg.maxLifetime)
            && (cfg.idleTimeout > 0 ==> later <= now + cfg.idleTimeout)
  {
    var s' := Apply(cfg, s, Event.Release(c, now));
    var d := c.(lastUsedAt := now);
    if WithinLimits(cfg, d, later) {
      Within(cfg, s.idle, d, later);
      HandsOutLastWithin(cfg, s', later, retry, |s.idle|);
    } else {
      StaleIs(cfg, d, later);
      var idle := DropStale(cfg, s'.idle, later);
      assert s'.idle[..|s.idle|] == s.idle;
      if !s'.closed && idle != [] { assert idle[|idle| - 1] == s.idle[|idle| - 1] && idle[|idle| - 1] in s.idle; }
    }
  }

  /** A connection filled in the background is fresh from the moment it is there. */
  lemma FilledIsFresh(cfg: Config, s: State, now: int, later: int, retry: bool)
    requires Enabled(cfg, s, FillDone(now)) && !s.closed && (retry ==> s.woken > 0)
    requires (cfg.maxLifetime > 0 ==> later <= now + cfg.maxLifetime)
             && (cfg.idleTimeout > 0 ==> later <= now + cfg.idleTimeout)
    ensures SharedPool.Handed(cfg, Apply(cfg, s, FillDone(now)), Acquire(later, retry)) == Some(s.nextId)
  {
    Within(cfg, s.idle, Conn(s.nextId, now, now), later);
    HandsOutLastWithin(cfg, Apply(cfg, s, FillDone(now)), later, retry, |s.idle|);
  }

  /** The health check keeps exactly the idle connections within their limits. */
  lemma PruneKeepsWithin(cfg: Config, s: State, now: int, c: Conn)
    requires Enabled(cfg, s, Prune(now))
    ensures var s' := Apply(cfg, s, Prune(now));
            && (c in s'.idle <==> c in s.idle && WithinLimits(cfg, c, now))
            && s'.numOpen == s.numOpen - (|s.idle| - |s'.idle|)
  {
    hide Fresh;
    StaleIs(cfg, c, now);
  }
}
