/** What a caller of the rate limiter can count on (internal/resilience): a full burst at once and not one call more,
    and no refusal for a key that keeps to its rate; each key under its own limit. */
module Admission {
  import opened RateLimit

  predicate IsLimitOf(c: Config, key: string, m: Limit) {
    if key in c.overrides then m == c.overrides[key] else m == c.usual
  }

  function AllFalse(k: nat): seq<bool> {
    if k == 0 then [] else [false] + AllFalse(k - 1)
  }

  /** The first n of k answers are yes, if there are as many. */
  function FirstTrue(n: nat, k: nat): seq<bool> {
    if k == 0 then [] else if n > 0 then [true] + FirstTrue(n - 1, k - 1) else [false] + FirstTrue(0, k - 1)
  }

  lemma NoTime(m: Limit, b: Bucket, now: real)
    requires b.lastTime == now && b.tokens <= m.burst as real
    ensures Level(m, b, now) == b.tokens
  {
  }

  lemma OneToken(c: Config, r: Registry, key: string, now: real, n: nat)
    requires key in r && r[key] == Bucket(n as real, now) && n <= LimitOf(c, key).burst
    ensures var r' := AfterAsk(c, r, key, now);
            && (Answer(c, r, key, now) <==> n > 0)
            && key in r' && r'[key] == Bucket((if n > 0 then n - 1 else 0) as real, now)
  {
    NoTime(LimitOf(c, key), r[key], now);
  }

  /** A bucket with n tokens left, asked k times at the instant of its last refill. */
  lemma {:induction false} TokensLeft(c: Config, evicting: bool, r: Registry, key: string, now: real, n: nat, k: nat)
    requires key in r && r[key] == Bucket(n as real, now) && n <= LimitOf(c, key).burst
    ensures Answers(c, evicting, r, Asks(key, now, k), key) == FirstTrue(n, k)
    decreases k
  {
    hide Answer, AfterAsk, LimitOf;
    if k > 0 {
      hide Answers, Asks;
      AsksStep(c, evicting, r, key, now, k);
      OneToken(c, r, key, now, n);
      TokensLeft(c, evicting, AfterAsk(c, r, key, now), key, now, if n > 0 then n - 1 else 0, k - 1);
    }
  }

  lemma {:induction false} FirstTrueIs(n: nat, k: nat)
    ensures FirstTrue(n, k) == if k <= n then AllTrue(k) else AllTrue(n) + AllFalse(k - n)
    decreases k
  {
    if k > 0 {
      if n > 0 {
        FirstTrueIs(n - 1, k - 1);
        if k > n { assert [true] + (AllTrue(n - 1) + AllFalse(k - n)) == [true] + AllTrue(n - 1) + AllFalse(k - n); }
      } else {
        FirstTrueIs(0, k - 1);
        assert AllTrue(0) + AllFalse(k - 1) == AllFalse(k - 1) && AllTrue(0) + AllFalse(k) == AllFalse(k);
        if k == 1 { assert AllTrue(0) == AllFalse(0); }
      }
    }
  }

  /** A new key is admitted exactly its burst at one instant: of k calls the first `burst`, and no other. */
  lemma BurstAtOnce(c: Config, evicting: bool, key: string, m: Limit, now: real, k: nat)
    requires IsLimitOf(c, key, m)
    ensures Answers(c, evicting, map[], Asks(key, now, k), key) ==
            if k <= m.burst then AllTrue(k) else AllTrue(m.burst) + AllFalse(k - m.burst)
  {
    FirstTrueIs(m.burst, k);
    if k > 0 {
      hide Asks, Answers, AllTrue, AllFalse;
      var r: Registry := map[];
      AsksStep(c, evicting, r, key, now, k);
      FullLevel(m, now);
      TokensLeft(c, evicting, AfterAsk(c, r, key, now), key, now, if m.burst > 0 then m.burst - 1 else 0, k - 1);
    }
  }

  /** Calls for the key come at least the time of one token apart. */
  predicate KeepsToRate(ops: seq<Op>, key: string, m: Limit, last: real) {
    ops == [] ||
    if ops[0].Ask? && ops[0].key == key
    then ops[0].now >= last && (ops[0].now - last) * m.rate >= 1.0 && KeepsToRate(ops[1..], key, m, ops[0].now)
    else KeepsToRate(ops[1..], key, m, last)
  }

  /** How many calls for the key there are. */
  function Count(ops: seq<Op>, key: string): nat {
    if ops == [] then 0 else Count(ops[1..], key) + if ops[0].Ask? && ops[0].key == key then 1 else 0
  }

  /** The key's bucket, if there is one, was last used at `last`. */
  predicate LastUsed(r: Registry, key: string, last: real) {
    key in r ==> r[key].lastTime == last && r[key].tokens >= 0.0
  }

  lemma PacedStep(c: Config, evicting: bool, r: Registry, op: Op, key: string, m: Limit, last: real)
    requires ValidConfig(c) && IsLimitOf(c, key, m) && m.burst >= 1 && LastUsed(r, key, last)
    requires op.Ask? && op.key == key ==> op.now >= last && (op.now - last) * m.rate >= 1.0
    ensures op.Ask? && op.key == key ==> Answer(c, r, key, op.now)
    ensures LastUsed(Step(c, evicting, r, op), key, if op.Ask? && op.key == key then op.now else last)
  {
    if op.Ask? && op.key == key {
      var b := BucketOf(c, r, key, op.now);
      FullLevel(m, op.now);
      TokensStay(m, b, op.now);
    }
  }

  lemma {:induction false} PacedRun(c: Config, evicting: bool, r: Registry, ops: seq<Op>, key: string, m: Limit,
                                    last: real)
    requires ValidConfig(c) && IsLimitOf(c, key, m) && m.burst >= 1 && LastUsed(r, key, last)
    requires KeepsToRate(ops, key, m, last)
    ensures Answers(c, evicting, r, ops, key) == AllTrue(Count(ops, key))
    decreases |ops|
  {
    hide Step, LastUsed, Answer, ValidConfig, IsLimitOf;
    if ops != [] {
      var op := ops[0];
      PacedStep(c, evicting, r, op, key, m, last);
      PacedRun(c, evicting, Step(c, evicting, r, op), ops[1..], key, m,
               if op.Ask? && op.key == key then op.now else last);
    }
  }

  /** A key that keeps to its own rate is never refused, whatever other keys do and whenever idle keys are evicted. */
  lemma PacedIsAdmitted(c: Config, evicting: bool, ops: seq<Op>, key: string, m: Limit, last: real)
    requires ValidConfig(c) && IsLimitOf(c, key, m) && m.burst >= 1 && KeepsToRate(ops, key, m, last)
    ensures Answers(c, evicting, map[], ops, key) == AllTrue(Count(ops, key))
  {
    PacedRun(c, evicting, map[], ops, key, m, last);
  }
}
