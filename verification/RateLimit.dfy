/** Per-key token buckets with eviction of idle keys (internal/resilience). Tokens and time are real numbers,
    and one call reads the clock once. */
module RateLimit {

  // ---- One bucket ----

  /** Tokens per second and capacity. */
  datatype Limit = Limit(rate: real, burst: nat)

  predicate ValidLimit(m: Limit) {
    m.rate >= 0.0
  }

  /** What a span of time adds. */
  function Gain(m: Limit, span: real): real {
    span * m.rate
  }

  datatype Bucket = Bucket(tokens: real, lastTime: real)

  function Full(m: Limit, now: real): Bucket {
    Bucket(m.burst as real, now)
  }

  function Elapsed(b: Bucket, now: real): (t: real)
    ensures t >= 0.0
  {
    if now < b.lastTime then 0.0 else now - b.lastTime
  }

  /** The tokens a call at `now` finds. */
  function Level(m: Limit, b: Bucket, now: real): (t: real)
    ensures t <= m.burst as real
  {
    var t := b.tokens + Gain(m, Elapsed(b, now));
    if t > m.burst as real then m.burst as real else t
  }

  predicate Admits(m: Limit, b: Bucket, now: real) {
    Level(m, b, now) >= 1.0
  }

  function AfterAllow(m: Limit, b: Bucket, now: real): Bucket {
    Bucket(if Admits(m, b, now) then Level(m, b, now) - 1.0 else Level(m, b, now), now)
  }

  // ---- The registry ----

  /** Every limit, and how long a key may be idle. */
  datatype Config = Config(usual: Limit, overrides: map<string, Limit>, ttl: real)

  predicate ValidConfig(c: Config) {
    ValidLimit(c.usual) && (forall k | k in c.overrides :: ValidLimit(c.overrides[k])) && c.ttl > 0.0
  }

  function LimitOf(c: Config, key: string): Limit {
    if key in c.overrides then c.overrides[key] else c.usual
  }

  type Registry = map<string, Bucket>

  datatype Op = Ask(key: string, now: real) | Evict(now: real)

  /** The bucket a call for the key works on: the key's own, or a new full one. */
  function BucketOf(c: Config, r: Registry, key: string, now: real): Bucket {
    if key in r then r[key] else Full(LimitOf(c, key), now)
  }

  predicate Answer(c: Config, r: Registry, key: string, now: real) {
    Admits(LimitOf(c, key), BucketOf(c, r, key, now), now)
  }

  function AfterAsk(c: Config, r: Registry, key: string, now: real): Registry {
    r[key := AfterAllow(LimitOf(c, key), BucketOf(c, r, key, now), now)]
  }

  /** A key's last call is when its bucket was last refilled. */
  function AfterEvict(c: Config, r: Registry, now: real): Registry {
    map key | key in r && r[key].lastTime >= now - c.ttl :: r[key]
  }

  function Step(c: Config, evicting: bool, r: Registry, op: Op): Registry {
    match op
    case Ask(key, now) => AfterAsk(c, r, key, now)
    case Evict(now) => if evicting then AfterEvict(c, r, now) else r
  }

  function Run(c: Config, evicting: bool, r: Registry, ops: seq<Op>): Registry
    decreases |ops|
  {
    if ops == [] then r else Run(c, evicting, Step(c, evicting, r, ops[0]), ops[1..])
  }

  /** The answers to the calls for one key, in order. */
  function Answers(c: Config, evicting: bool, r: Registry, ops: seq<Op>, key: string): seq<bool>
    decreases |ops|
  {
    if ops == [] then []
    else
      var rest := Answers(c, evicting, Step(c, evicting, r, ops[0]), ops[1..], key);
      if ops[0].Ask? && ops[0].key == key then [Answer(c, r, key, ops[0].now)] + rest else rest
  }

  /** The clock does not go back. */
  predicate InOrder(ops: seq<Op>, from: real) {
    ops == [] || (ops[0].now >= from && InOrder(ops[1..], ops[0].now))
  }

  // ---- Eviction is invisible ----

  /** A key's bucket is in both registries and the same; or only in the one that never evicts, and full
      again; or in neither. */
  predicate Alike(c: Config, e: Registry, n: Registry, key: string, now: real) {
    && (key in e ==> key in n && e[key] == n[key])
    && (key in n ==> n[key].lastTime <= now && n[key].tokens >= 0.0)
    && (key in n && key !in e ==> Level(LimitOf(c, key), n[key], now) == LimitOf(c, key).burst as real)
  }

  lemma NonNegative(a: real, b: real)
    requires a >= 0.0 && b >= 0.0
    ensures a * b >= 0.0
  {
  }

  lemma GainParts(m: Limit, a: real, b: real)
    requires ValidLimit(m) && a >= 0.0 && b >= 0.0
    ensures Gain(m, a) >= 0.0 && Gain(m, a + b) == Gain(m, a) + Gain(m, b)
  {
    NonNegative(a, m.rate);
  }

  lemma GainGrows(m: Limit, a: real, b: real)
    requires ValidLimit(m) && 0.0 <= a <= b
    ensures 0.0 <= Gain(m, a) <= Gain(m, b)
  {
    hide Gain;
    GainParts(m, a, b - a);
    GainParts(m, b - a, a);
    assert a + (b - a) == b;
  }

  /** A full bucket stays full. */
  lemma StaysFull(m: Limit, b: Bucket, now: real, later: real)
    requires ValidLimit(m) && now <= later && Level(m, b, now) == m.burst as real
    ensures Level(m, b, later) == m.burst as real
  {
    hide Gain;
    GainGrows(m, Elapsed(b, now), Elapsed(b, later));
  }

  /** The exact bound: an idle key's bucket is full again when it is evicted. */
  predicate RefillsInTime(c: Config, key: string) {
    LimitOf(c, key).burst == 0 || Gain(LimitOf(c, key), c.ttl) >= LimitOf(c, key).burst as real
  }

  lemma IdleIsFull(c: Config, b: Bucket, key: string, now: real)
    requires ValidConfig(c) && RefillsInTime(c, key) && b.tokens >= 0.0 && b.lastTime < now - c.ttl
    ensures Level(LimitOf(c, key), b, now) == LimitOf(c, key).burst as real
  {
    var m := LimitOf(c, key);
    hide Gain;
    GainGrows(m, c.ttl, Elapsed(b, now));
  }

  lemma AlikeLater(c: Config, e: Registry, n: Registry, key: string, now: real, later: real)
    requires ValidConfig(c) && Alike(c, e, n, key, now) && now <= later
    ensures Alike(c, e, n, key, later)
  {
    if key in n && key !in e { StaysFull(LimitOf(c, key), n[key], now, later); }
  }

  lemma TokensStay(m: Limit, b: Bucket, now: real)
    requires ValidLimit(m) && b.tokens >= 0.0
    ensures Level(m, b, now) >= 0.0 && AfterAllow(m, b, now).tokens >= 0.0
  {
    hide Gain;
    GainGrows(m, 0.0, Elapsed(b, now));
    GainGrows(m, Elapsed(b, now), Elapsed(b, now));
  }

  lemma AlikeStep(c: Config, e: Registry, n: Registry, key: string, op: Op)
    requires ValidConfig(c) && RefillsInTime(c, key) && Alike(c, e, n, key, op.now)
    ensures Alike(c, Step(c, true, e, op), Step(c, false, n, op), key, op.now)
    ensures op.Ask? && op.key == key ==> Answer(c, e, key, op.now) == Answer(c, n, key, op.now)
  {
    var m := LimitOf(c, key);
    match op
    case Ask(k, now) =>
      if k == key {
        TokensStay(m, BucketOf(c, n, key, now), now);
        FullLevel(m, now);
      }
    case Evict(now) =>
      if key in e && e[key].lastTime < now - c.ttl { IdleIsFull(c, n[key], key, now); }
  }

  lemma FullLevel(m: Limit, now: real)
    ensures Level(m, Full(m, now), now) == m.burst as real
  {
  }

  lemma {:induction false} AlikeRun(c: Config, e: Registry, n: Registry, ops: seq<Op>, key: string, from: real)
    requires ValidConfig(c) && RefillsInTime(c, key) && Alike(c, e, n, key, from) && InOrder(ops, from)
    ensures Answers(c, true, e, ops, key) == Answers(c, false, n, ops, key)
    decreases |ops|
  {
    hide Alike, Answer, Step, RefillsInTime;
    if ops != [] {
      AlikeLater(c, e, n, key, from, ops[0].now);
      AlikeStep(c, e, n, key, ops[0]);
      AlikeRun(c, Step(c, true, e, ops[0]), Step(c, false, n, ops[0]), ops[1..], key, ops[0].now);
    }
  }

  // ---- And it is visible otherwise ----

  function Asks(key: string, now: real, k: nat): seq<Op> {
    if k == 0 then [] else [Ask(key, now)] + Asks(key, now, k - 1)
  }

  function AllTrue(k: nat): seq<bool> {
    if k == 0 then [] else [true] + AllTrue(k - 1)
  }

  lemma AsksStep(c: Config, evicting: bool, r: Registry, key: string, now: real, k: nat)
    requires k > 0
    ensures var r' := AfterAsk(c, r, key, now);
            && Answers(c, evicting, r, Asks(key, now, k), key)
               == [Answer(c, r, key, now)] + Answers(c, evicting, r', Asks(key, now, k - 1), key)
            && Run(c, evicting, r, Asks(key, now, k)) == Run(c, evicting, r', Asks(key, now, k - 1))
  {
    var ops := Asks(key, now, k);
    assert ops[0] == Ask(key, now) && ops[1..] == Asks(key, now, k - 1);
  }

  lemma LevelAgain(m: Limit, b: Bucket, now: real)
    ensures Level(m, AfterAllow(m, b, now), now) == AfterAllow(m, b, now).tokens
  {
  }

  /** Calls at one instant are admitted while tokens last. */
  lemma {:induction false} AllAdmitted(c: Config, evicting: bool, r: Registry, key: string, now: real, k: nat)
    requires Level(LimitOf(c, key), BucketOf(c, r, key, now), now) >= k as real
    ensures Answers(c, evicting, r, Asks(key, now, k), key) == AllTrue(k)
    ensures k > 0 ==>
              var r' := Run(c, evicting, r, Asks(key, now, k));
              key in r' && r'[key] == Bucket(Level(LimitOf(c, key), BucketOf(c, r, key, now), now) - k as real, now)
    decreases k
  {
    var m, b := LimitOf(c, key), BucketOf(c, r, key, now);
    if k > 0 {
      AsksStep(c, evicting, r, key, now, k);
      LevelAgain(m, b, now);
      AllAdmitted(c, evicting, AfterAsk(c, r, key, now), key, now, k - 1);
    }
  }

  lemma {:induction false} SomeDenied(c: Config, evicting: bool, r: Registry, key: string, now: real, k: nat)
    requires k > 0 && Level(LimitOf(c, key), BucketOf(c, r, key, now), now) < k as real
    ensures Answers(c, evicting, r, Asks(key, now, k), key) != AllTrue(k)
    decreases k
  {
    var m, b := LimitOf(c, key), BucketOf(c, r, key, now);
    AsksStep(c, evicting, r, key, now, k);
    var all := Answers(c, evicting, r, Asks(key, now, k), key);
    assert all[0] == Admits(m, b, now) && AllTrue(k)[0];
    if Admits(m, b, now) {
      LevelAgain(m, b, now);
      SomeDenied(c, evicting, AfterAsk(c, r, key, now), key, now, k - 1);
      assert AllTrue(k)[1..] == AllTrue(k - 1);
      assert all[1..] == Answers(c, evicting, AfterAsk(c, r, key, now), Asks(key, now, k - 1), key);
    }
  }

  lemma {:induction false} Concat(c: Config, evicting: bool, r: Registry, a: seq<Op>, b: seq<Op>, key: string)
    ensures Answers(c, evicting, r, a + b, key)
         == Answers(c, evicting, r, a, key) + Answers(c, evicting, Run(c, evicting, r, a), b, key)
    decreases |a|
  {
    if a == [] {
      assert a + b == b;
    } else {
      assert (a + b)[1..] == a[1..] + b;
      Concat(c, evicting, Step(c, evicting, r, a[0]), a[1..], b, key);
    }
  }

  lemma {:induction false} AsksInOrder(key: string, now: real, k: nat, rest: seq<Op>, from: real)
    requires from <= now && InOrder(rest, now)
    ensures InOrder(Asks(key, now, k) + rest, from)
    decreases k
  {
    if k == 0 {
      assert Asks(key, now, k) + rest == rest;
    } else {
      var ops := Asks(key, now, k) + rest;
      assert ops[0] == Ask(key, now) && ops[1..] == Asks(key, now, k - 1) + rest;
      AsksInOrder(key, now, k - 1, rest, now);
    }
  }

  /** A moment past the time to live at which a drained bucket is still not full. */
  lemma TooSoon(m: Limit, ttl: real) returns (at: real)
    requires ValidLimit(m) && ttl > 0.0 && m.burst > 0 && Gain(m, ttl) < m.burst as real
    ensures at > ttl && Gain(m, at) < m.burst as real
  {
    if m.rate == 0.0 {
      at := ttl + 1.0;
    } else {
      var d := m.burst as real / m.rate;
      assert d * m.rate == m.burst as real;
      if d <= ttl { GainGrows(m, d, ttl); }
      at := (ttl + d) / 2.0;
      assert at * m.rate == (ttl * m.rate + d * m.rate) / 2.0;
    }
  }

  /** Drain, wait past the time to live, evict, drain again. */
  function Probe(key: string, burst: nat, at: real): seq<Op> {
    Asks(key, 0.0, burst) + ([Evict(at)] + Asks(key, at, burst))
  }

  lemma ProbeInOrder(key: string, burst: nat, at: real)
    requires at >= 0.0
    ensures InOrder(Probe(key, burst, at), 0.0)
  {
    var tail := [Evict(at)] + Asks(key, at, burst);
    AsksInOrder(key, at, burst, [], at);
    assert Asks(key, at, burst) + [] == Asks(key, at, burst) == tail[1..];
    AsksInOrder(key, 0.0, burst, tail, 0.0);
  }

  lemma ProbeAnswers(c: Config, evicting: bool, key: string, at: real)
    requires var m := LimitOf(c, key); m.burst > 0 && at > c.ttl > 0.0 && Gain(m, at) < m.burst as real
    ensures var k := LimitOf(c, key).burst;
            evicting <==> Answers(c, evicting, map[], Probe(key, k, at), key) == AllTrue(k) + AllTrue(k)
  {
    var m := LimitOf(c, key);
    var k := m.burst;
    var first, tail := Asks(key, 0.0, k), [Evict(at)] + Asks(key, at, k);
    FullLevel(m, 0.0);
    AllAdmitted(c, evicting, map[], key, 0.0, k);
    Concat(c, evicting, map[], first, tail, key);
    var drained := Run(c, evicting, map[], first);
    assert drained[key] == Bucket(0.0, 0.0);
    var after := Step(c, evicting, drained, Evict(at));
    assert tail[0] == Evict(at) && tail[1..] == Asks(key, at, k);
    assert Answers(c, evicting, drained, tail, key) == Answers(c, evicting, after, Asks(key, at, k), key);
    FullLevel(m, at);
    if evicting {
      AllAdmitted(c, evicting, after, key, at, k);
    } else {
      SomeDenied(c, evicting, after, key, at, k);
      Halves(AllTrue(k), Answers(c, evicting, drained, tail, key), AllTrue(k));
    }
  }

  lemma Halves(a: seq<bool>, b: seq<bool>, b': seq<bool>)
    ensures a + b == a + b' <==> b == b'
  {
    if a + b == a + b' {
      assert b == (a + b)[|a|..] && b' == (a + b')[|a|..];
    }
  }

  /** Eviction is invisible for a key, on every trace with a clock that does not go back, if and only if an
      idle bucket refills completely within the time to live. */
  lemma EvictionInvisible(c: Config, key: string)
    requires ValidConfig(c)
    ensures RefillsInTime(c, key) <==>
            forall ops: seq<Op> | InOrder(ops, 0.0) ::
              Answers(c, true, map[], ops, key) == Answers(c, false, map[], ops, key)
  {
    if RefillsInTime(c, key) {
      forall ops: seq<Op> | InOrder(ops, 0.0)
        ensures Answers(c, true, map[], ops, key) == Answers(c, false, map[], ops, key)
      {
        AlikeRun(c, map[], map[], ops, key, 0.0);
      }
    } else {
      var m := LimitOf(c, key);
      var at := TooSoon(m, c.ttl);
      ProbeInOrder(key, m.burst, at);
      ProbeAnswers(c, true, key, at);
      ProbeAnswers(c, false, key, at);
      assert Answers(c, true, map[], Probe(key, m.burst, at), key)
          != Answers(c, false, map[], Probe(key, m.burst, at), key);
    }
  }

  // ---- How much is admitted ----

  function Count(answers: seq<bool>): nat {
    if answers == [] then 0 else (if answers[0] then 1 else 0) + Count(answers[1..])
  }

  /** What a call for the key would find now. */
  function Available(c: Config, r: Registry, key: string, now: real): real {
    Level(LimitOf(c, key), BucketOf(c, r, key, now), now)
  }

  predicate Sane(r: Registry, key: string, now: real) {
    key in r ==> r[key].tokens >= 0.0 && r[key].lastTime <= now
  }

  lemma AvailableGrows(c: Config, r: Registry, key: string, now: real, later: real)
    requires ValidConfig(c) && Sane(r, key, now) && now <= later
    ensures 0.0 <= Available(c, r, key, now) <= LimitOf(c, key).burst as real
    ensures Available(c, r, key, later) <= Available(c, r, key, now) + Gain(LimitOf(c, key), later - now)
  {
    hide Gain;
    var m := LimitOf(c, key);
    GainGrows(m, later - now, later - now);
    if key in r {
      TokensStay(m, r[key], now);
      GainParts(m, Elapsed(r[key], now), later - now);
      assert Elapsed(r[key], later) == Elapsed(r[key], now) + (later - now);
    } else {
      FullLevel(m, now);
      FullLevel(m, later);
    }
  }

  lemma AvailableStep(c: Config, evicting: bool, r: Registry, key: string, op: Op)
    requires ValidConfig(c) && Sane(r, key, op.now) && (evicting ==> RefillsInTime(c, key))
    ensures Sane(Step(c, evicting, r, op), key, op.now)
    ensures Available(c, Step(c, evicting, r, op), key, op.now)
            == Available(c, r, key, op.now)
               - if op.Ask? && op.key == key && Answer(c, r, key, op.now) then 1.0 else 0.0
  {
    var m := LimitOf(c, key);
    FullLevel(m, op.now);
    match op
    case Ask(k, now) =>
      if k == key {
        TokensStay(m, BucketOf(c, r, key, now), now);
        LevelAgain(m, BucketOf(c, r, key, now), now);
      }
    case Evict(now) =>
      if key in r && r[key].lastTime < now - c.ttl && evicting { IdleIsFull(c, r[key], key, now); }
  }

  lemma {:induction false} AdmittedWithin(c: Config, evicting: bool, r: Registry, ops: seq<Op>, key: string, from: real,
                                          to: real)
    requires ValidConfig(c) && Sane(r, key, from) && (evicting ==> RefillsInTime(c, key))
    requires from <= to && InOrder(ops, from) && forall op | op in ops :: op.now <= to
    ensures Count(Answers(c, evicting, r, ops, key)) as real
            <= Available(c, r, key, from) + Gain(LimitOf(c, key), to - from)
    decreases |ops|
  {
    hide Available, Step, Answer, Sane, Gain;
    var m := LimitOf(c, key);
    AvailableGrows(c, r, key, from, to);
    if ops == [] {
      assert Count(Answers(c, evicting, r, ops, key)) == 0;
      GainParts(m, to - from, 0.0);
    } else {
      var op, rest := ops[0], ops[1..];
      assert op in ops;
      AvailableGrows(c, r, key, from, op.now);
      SaneLater(r, key, from, op.now);
      AvailableStep(c, evicting, r, key, op);
      AdmittedWithin(c, evicting, Step(c, evicting, r, op), rest, key, op.now, to);
      GainParts(m, op.now - from, to - op.now);
      assert (op.now - from) + (to - op.now) == to - from;
      CountAnswers(c, evicting, r, ops, key);
    }
  }

  lemma SaneLater(r: Registry, key: string, now: real, later: real)
    requires Sane(r, key, now) && now <= later
    ensures Sane(r, key, later)
  {
  }

  lemma CountAnswers(c: Config, evicting: bool, r: Registry, ops: seq<Op>, key: string)
    requires ops != []
    ensures var op := ops[0];
            Count(Answers(c, evicting, r, ops, key))
            == (if op.Ask? && op.key == key && Answer(c, r, key, op.now) then 1 else 0)
               + Count(Answers(c, evicting, Step(c, evicting, r, op), ops[1..], key))
  {
    var rest := Answers(c, evicting, Step(c, evicting, r, ops[0]), ops[1..], key);
    if ops[0].Ask? && ops[0].key == key {
      assert ([Answer(c, r, key, ops[0].now)] + rest)[1..] == rest;
    }
  }

  lemma {:induction false} SaneRun(c: Config, evicting: bool, r: Registry, ops: seq<Op>, key: string, from: real,
                                   to: real)
    requires ValidConfig(c) && Sane(r, key, from) && (evicting ==> RefillsInTime(c, key))
    requires from <= to && InOrder(ops, from) && forall op | op in ops :: op.now <= to
    ensures Sane(Run(c, evicting, r, ops), key, to)
    decreases |ops|
  {
    hide Step, Sane;
    if ops == [] {
      SaneLater(r, key, from, to);
    } else {
      assert ops[0] in ops;
      SaneLater(r, key, from, ops[0].now);
      AvailableStep(c, evicting, r, key, ops[0]);
      SaneRun(c, evicting, Step(c, evicting, r, ops[0]), ops[1..], key, ops[0].now, to);
    }
  }

  /** In any span of a run, from any point on, a key is admitted at most burst + rate * span times. */
  lemma AdmissionBound(c: Config, evicting: bool, before: seq<Op>, during: seq<Op>, key: string, from: real, to: real)
    requires ValidConfig(c) && (evicting ==> RefillsInTime(c, key)) && 0.0 <= from <= to
    requires InOrder(before, 0.0) && (forall op | op in before :: op.now <= from)
    requires InOrder(during, from) && forall op | op in during :: op.now <= to
    ensures Count(Answers(c, evicting, Run(c, evicting, map[], before), during, key)) as real
            <= LimitOf(c, key).burst as real + LimitOf(c, key).rate * (to - from)
  {
    SaneRun(c, evicting, map[], before, key, 0.0, from);
    var r := Run(c, evicting, map[], before);
    AvailableGrows(c, r, key, from, to);
    AdmittedWithin(c, evicting, r, during, key, from, to);
  }

  // ---- The code ----

  class RateLimiter {
    const limit: Limit
    var tokens: real
    var lastTime: real

    ghost function View(): Bucket
      reads this
    {
      Bucket(tokens, lastTime)
    }

    constructor (limit: Limit, now: real)
      ensures this.limit == limit && View() == Full(limit, now)
    {
      this.limit := limit;
      tokens, lastTime := limit.burst as real, now;
    }

    method Allow(now: real) returns (ok: bool)
      modifies this
      ensures ok == Admits(limit, old(View()), now) && View() == AfterAllow(limit, old(View()), now)
    {
      var elapsed := now - lastTime;
      lastTime := now;
      if elapsed < 0.0 { elapsed := 0.0; }
      tokens := tokens + elapsed * limit.rate;
      if tokens > limit.burst as real { tokens := limit.burst as real; }
      ok := tokens >= 1.0;
      if ok { tokens := tokens - 1.0; }
    }
  }

  /** A registered key. */
  datatype Entry = Entry(limiter: Bucket, lastAccess: real)

  class Limiters {
    const cfg: Config
    var limiters: map<string, Entry>

    /** A key's last access is its bucket's last refill. */
    ghost predicate Valid()
      reads this
    {
      forall k | k in limiters :: limiters[k].lastAccess == limiters[k].limiter.lastTime
    }

    ghost function View(): Registry
      reads this
    {
      map k | k in limiters :: limiters[k].limiter
    }

    constructor (cfg: Config)
      ensures Valid() && View() == map[] && this.cfg == cfg
    {
      this.cfg := cfg;
      limiters := map[];
    }

    method Allow(key: string, now: real) returns (ok: bool)
      requires Valid()
      modifies this
      ensures Valid()
      ensures ok == Answer(cfg, old(View()), key, now) && View() == AfterAsk(cfg, old(View()), key, now)
    {
      hide Admits, AfterAllow;
      var limit := if key in cfg.overrides then cfg.overrides[key] else cfg.usual;
      var b := if key in limiters then limiters[key].limiter else Full(limit, now);
      ok := Admits(limit, b, now);
      var b' := AfterAllow(limit, b, now);
      TouchedNow(limit, b, now);
      limiters := limiters[key := Entry(b', now)];
    }

    lemma TouchedNow(m: Limit, b: Bucket, now: real)
      ensures AfterAllow(m, b, now).lastTime == now
    {
    }

    /** evict: every key idle for longer than the time to live goes. */
    method DropIdle(now: real)
      requires Valid()
      modifies this
      ensures Valid() && View() == AfterEvict(cfg, old(View()), now)
    {
      var cutoff := now - cfg.ttl;
      var todo := limiters.Keys;
      ghost var before := limiters;
      while todo != {}
        invariant todo <= limiters.Keys <= before.Keys
        invariant forall k | k in before :: k in limiters <==> k in todo || before[k].lastAccess >= cutoff
        invariant forall k | k in limiters :: limiters[k] == before[k]
      {
        var key :| key in todo;
        todo := todo - {key};
        if limiters[key].lastAccess < cutoff { limiters := limiters - {key}; }
      }
    }
  }
}
