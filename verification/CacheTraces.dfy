/** What the query-result cache (internal/cache/cache.go) answers, read off the calls made on it: which Set a Get
    sees, when an entry has gone, and which key makes room. */
module CacheTraces {
  import opened Options
  import opened QueryCache

  /** The cache after the first n calls. */
  function At(c: Config, ops: seq<Op>, n: nat): seq<Entry>
    requires n <= |ops|
  {
    if n == 0 then [] else Step(c, At(c, ops, n - 1), ops[n - 1])
  }

  predicate Admitted(c: Config, op: Op) {
    op.Set? && (c.maxSize > 0 ==> |op.result| <= c.maxSize)
  }

  /** Call i is the last admitted Set of the key before n. */
  predicate Stored(c: Config, ops: seq<Op>, key: Key, i: nat, n: nat) {
    && i < n <= |ops| && Admitted(c, ops[i]) && ops[i].key == key
    && forall m | i < m < n && Admitted(c, ops[m]) :: ops[m].key != key
  }

  /** Call m ends what call i stored: a flush, an invalidation of one of its tables, or a Get that comes too late. */
  predicate Ends(c: Config, ops: seq<Op>, i: nat, m: nat)
    requires i < m < |ops| && ops[i].Set?
  {
    match ops[m]
    case Get(key, now) => key == ops[i].key && now > ops[i].now + c.ttl
    case Set(_, _, _, _) => false
    case Invalidate(table) => table in ops[i].tables
    case Flush => true
  }

  predicate Cached(c: Config, ops: seq<Op>, key: Key, n: nat)
    requires n <= |ops|
  {
    Has(At(c, ops, n), key)
  }

  /** Call n uses the key: it stores it, or asks for it and is answered. */
  predicate Uses(c: Config, ops: seq<Op>, key: Key, n: nat)
    requires n < |ops|
  {
    || (Admitted(c, ops[n]) && ops[n].key == key)
    || (ops[n].Get? && ops[n].key == key && Lookup(At(c, ops, n), key, ops[n].now).Some?)
  }

  /** The last call before n that used the key, or -1. */
  function LastUse(c: Config, ops: seq<Op>, key: Key, n: nat): (r: int)
    requires n <= |ops|
    ensures -1 <= r < n
    ensures r >= 0 ==> Uses(c, ops, key, r)
    ensures forall m | r < m < n :: !Uses(c, ops, key, m)
  {
    if n == 0 then -1 else if Uses(c, ops, key, n - 1) then n - 1 else LastUse(c, ops, key, n - 1)
  }

  /** Call m stores a key that is not there into a full cache, and this key is the least recently used one. */
  predicate Evicts(c: Config, ops: seq<Op>, key: Key, m: nat)
    requires m < |ops|
  {
    && Admitted(c, ops[m]) && !Cached(c, ops, ops[m].key, m) && 0 < c.maxEntries <= |At(c, ops, m)|
    && Cached(c, ops, key, m)
    && forall e | e in At(c, ops, m) && e.key != key :: LastUse(c, ops, key, m) < LastUse(c, ops, e.key, m)
  }

  // ---- One step ----

  predicate MakesRoom(c: Config, l: seq<Entry>, op: Op) {
    Admitted(c, op) && !Has(l, op.key) && 0 < c.maxEntries <= |l|
  }

  lemma StepDistinct(c: Config, l: seq<Entry>, op: Op)
    requires DistinctKeys(l)
    ensures DistinctKeys(Step(c, l, op))
  {
    hide Keep, Find;
    match op {
      case Get(key, now) =>
        KeepDistinct(NotKey(key), l);
        if Has(l, key) { FrontDistinct(Find(l, key), Keep(NotKey(key), l)); }
      case Set(key, result, tables, now) =>
        var e := Entry(key, result, tables, now + c.ttl);
        KeepDistinct(NotKey(key), l);
        FrontDistinct(e, Keep(NotKey(key), l));
        if !Has(l, key) {
          FrontDistinct(e, l);
          if l != [] { FrontDistinct(e, l[..|l| - 1]); }
        }
      case Invalidate(table) => KeepDistinct(NotOn(table), l);
      case Flush =>
    }
  }

  /** Which entries a call leaves: its own, and those it does not end. */
  lemma StepEntries(c: Config, l: seq<Entry>, op: Op, e: Entry)
    requires DistinctKeys(l)
    ensures e in Step(c, l, op) <==>
            if Admitted(c, op) && op.key == e.key then e == Entry(op.key, op.result, op.tables, op.now + c.ttl)
            else && e in l && op != Flush && !(op.Get? && op.key == e.key && op.now > e.expiresAt)
                 && !(op.Invalidate? && op.table in e.tables) && !(MakesRoom(c, l, op) && e == l[|l| - 1])
  {
    hide Keep, Find;
    if op.Get? && Has(l, op.key) && e in l && e.key == op.key { OneEntry(l, e, Find(l, op.key)); }
    if MakesRoom(c, l, op) { InitEntries(l, e); }
  }

  lemma InitEntries(l: seq<Entry>, e: Entry)
    requires DistinctKeys(l) && l != []
    ensures e in l[..|l| - 1] <==> e in l && e != l[|l| - 1]
  {
    var init := l[..|l| - 1];
    assert l == init + [l[|l| - 1]];
    if e in init {
      var i :| 0 <= i < |init| && init[i] == e;
      assert l[i].key != l[|l| - 1].key;
    }
  }

  lemma {:induction false} AtDistinct(c: Config, ops: seq<Op>, n: nat)
    requires n <= |ops|
    ensures DistinctKeys(At(c, ops, n))
  {
    if n > 0 {
      AtDistinct(c, ops, n - 1);
      StepDistinct(c, At(c, ops, n - 1), ops[n - 1]);
    }
  }

  // ---- The list is in order of use ----

  predicate InOrder(c: Config, ops: seq<Op>, n: nat, l: seq<Entry>)
    requires n <= |ops|
  {
    forall a, b | 0 <= a < b < |l| :: LastUse(c, ops, l[a].key, n) > LastUse(c, ops, l[b].key, n)
  }

  /** The key was used later than those of all the entries. */
  predicate Later(c: Config, ops: seq<Op>, n: nat, key: Key, l: seq<Entry>)
    requires n <= |ops|
  {
    forall e | e in l :: LastUse(c, ops, key, n) > LastUse(c, ops, e.key, n)
  }

  lemma OrderStep(c: Config, ops: seq<Op>, n: nat, e: Entry, l: seq<Entry>)
    requires n <= |ops|
    ensures InOrder(c, ops, n, [e] + l) <==> InOrder(c, ops, n, l) && Later(c, ops, n, e.key, l)
  {
    hide LastUse;
    var all := [e] + l;
    if InOrder(c, ops, n, all) {
      forall x | x in l ensures LastUse(c, ops, e.key, n) > LastUse(c, ops, x.key, n) {
        var i :| 0 <= i < |l| && l[i] == x;
        assert all[i + 1] == x && all[0] == e;
      }
      forall a, b | 0 <= a < b < |l| ensures LastUse(c, ops, l[a].key, n) > LastUse(c, ops, l[b].key, n) {
        assert all[a + 1] == l[a] && all[b + 1] == l[b];
      }
    }
    if InOrder(c, ops, n, l) && Later(c, ops, n, e.key, l) {
      forall a, b | 0 <= a < b < |all| ensures LastUse(c, ops, all[a].key, n) > LastUse(c, ops, all[b].key, n) {
        assert all[b] == l[b - 1] && l[b - 1] in l;
      }
    }
  }

  lemma {:induction false} KeepInOrder(c: Config, ops: seq<Op>, n: nat, f: Entry -> bool, l: seq<Entry>)
    requires n <= |ops| && InOrder(c, ops, n, l)
    ensures InOrder(c, ops, n, Keep(f, l))
  {
    hide LastUse, Keep, InOrder;
    if l == [] {
      NothingKept(f);
    } else {
      assert l == [l[0]] + l[1..];
      OrderStep(c, ops, n, l[0], l[1..]);
      KeepStep(f, l);
      KeepInOrder(c, ops, n, f, l[1..]);
      OrderStep(c, ops, n, l[0], Keep(f, l[1..]));
    }
  }

  lemma NothingKept(f: Entry -> bool)
    ensures Keep(f, []) == []
  {
  }

  lemma UseStep(c: Config, ops: seq<Op>, key: Key, n: nat)
    requires n < |ops|
    ensures LastUse(c, ops, key, n + 1) == if Uses(c, ops, key, n) then n as int else LastUse(c, ops, key, n)
  {
    hide Uses;
  }

  /** Entries of keys that call n does not use stay in order. */
  lemma RestInOrder(c: Config, ops: seq<Op>, n: nat, l: seq<Entry>)
    requires n < |ops| && InOrder(c, ops, n, l) && forall e | e in l :: !Uses(c, ops, e.key, n)
    ensures InOrder(c, ops, n + 1, l)
  {
    hide LastUse, Uses;
    forall i | 0 <= i < |l| ensures LastUse(c, ops, l[i].key, n + 1) == LastUse(c, ops, l[i].key, n) {
      assert l[i] in l;
      UseStep(c, ops, l[i].key, n);
    }
  }

  /** The key used comes first. */
  lemma FrontInOrder(c: Config, ops: seq<Op>, n: nat, e: Entry, l: seq<Entry>)
    requires n < |ops| && InOrder(c, ops, n, l) && Uses(c, ops, e.key, n)
    requires forall x | x in l :: !Uses(c, ops, x.key, n)
    ensures InOrder(c, ops, n + 1, [e] + l)
  {
    hide Uses;
    RestInOrder(c, ops, n, l);
    UseStep(c, ops, e.key, n);
    forall i | 0 <= i < |l| ensures LastUse(c, ops, l[i].key, n + 1) < n {
      assert l[i] in l;
      UseStep(c, ops, l[i].key, n);
    }
  }

  lemma OneUse(c: Config, ops: seq<Op>, key: Key, n: nat)
    requires n < |ops| && Uses(c, ops, key, n)
    ensures (ops[n].Get? || ops[n].Set?) && ops[n].key == key
  {
  }

  lemma GetInOrder(c: Config, ops: seq<Op>, n: nat)
    requires n < |ops| && InOrder(c, ops, n, At(c, ops, n)) && ops[n].Get?
    ensures InOrder(c, ops, n + 1, At(c, ops, n + 1))
  {
    hide LastUse, Keep, Find, InOrder;
    var l, key, now := At(c, ops, n), ops[n].key, ops[n].now;
    KeepInOrder(c, ops, n, NotKey(key), l);
    forall e | e in Keep(NotKey(key), l) ensures !Uses(c, ops, e.key, n) { }
    if !Has(l, key) {
      RestInOrder(c, ops, n, l);
    } else if now > Find(l, key).expiresAt {
      RestInOrder(c, ops, n, Keep(NotKey(key), l));
    } else {
      FrontInOrder(c, ops, n, Find(l, key), Keep(NotKey(key), l));
    }
  }

  lemma SetInOrder(c: Config, ops: seq<Op>, n: nat)
    requires n < |ops| && InOrder(c, ops, n, At(c, ops, n)) && ops[n].Set?
    ensures InOrder(c, ops, n + 1, At(c, ops, n + 1))
  {
    hide LastUse, Keep, InOrder;
    var l, key := At(c, ops, n), ops[n].key;
    var e := Entry(key, ops[n].result, ops[n].tables, ops[n].now + c.ttl);
    if !Admitted(c, ops[n]) {
      RestInOrder(c, ops, n, l);
    } else if Has(l, key) {
      KeepInOrder(c, ops, n, NotKey(key), l);
      FrontInOrder(c, ops, n, e, Keep(NotKey(key), l));
    } else if MakesRoom(c, l, ops[n]) {
      InitInOrder(c, ops, n, l);
      FrontInOrder(c, ops, n, e, l[..|l| - 1]);
    } else {
      FrontInOrder(c, ops, n, e, l);
    }
  }

  lemma InitInOrder(c: Config, ops: seq<Op>, n: nat, l: seq<Entry>)
    requires n <= |ops| && l != [] && InOrder(c, ops, n, l)
    ensures InOrder(c, ops, n, l[..|l| - 1]) && forall e | e in l[..|l| - 1] :: e in l
  {
    hide LastUse;
  }

  /** Most recently used first, at every moment of every run. */
  lemma {:induction false} MostRecentFirst(c: Config, ops: seq<Op>, n: nat)
    requires n <= |ops|
    ensures InOrder(c, ops, n, At(c, ops, n))
  {
    hide LastUse, Keep;
    if n > 0 {
      var m := n - 1;
      MostRecentFirst(c, ops, m);
      match ops[m] {
        case Get(_, _) => GetInOrder(c, ops, m);
        case Set(_, _, _, _) => SetInOrder(c, ops, m);
        case Invalidate(table) =>
          KeepInOrder(c, ops, m, NotOn(table), At(c, ops, m));
          RestInOrder(c, ops, m, Keep(NotOn(table), At(c, ops, m)));
        case Flush =>
      }
    }
  }

  /** The key that makes room is the least recently used one. */
  lemma EvictsLast(c: Config, ops: seq<Op>, key: Key, m: nat)
    requires m < |ops|
    ensures Evicts(c, ops, key, m) <==>
            var l := At(c, ops, m); MakesRoom(c, l, ops[m]) && l[|l| - 1].key == key
  {
    hide LastUse, At;
    var l := At(c, ops, m);
    MostRecentFirst(c, ops, m);
    if MakesRoom(c, l, ops[m]) {
      var last := l[|l| - 1];
      assert last in l;
      forall e | e in l && e.key != last.key
        ensures LastUse(c, ops, last.key, m) < LastUse(c, ops, e.key, m)
      {
        var i :| 0 <= i < |l| && l[i] == e;
      }
    }
  }

  // ---- What is cached, and what a Get answers ----

  function EntryOf(c: Config, op: Op): Entry
    requires op.Set?
  {
    Entry(op.key, op.result, op.tables, op.now + c.ttl)
  }

  /** What call i stored is still there before call n. */
  predicate Stands(c: Config, ops: seq<Op>, key: Key, i: nat, n: nat) {
    Stored(c, ops, key, i, n) && forall m | i < m < n :: !Ends(c, ops, i, m) && !Evicts(c, ops, key, m)
  }

  lemma StandsStep(c: Config, ops: seq<Op>, key: Key, i: nat, n: nat)
    requires i < n < |ops|
    ensures Stands(c, ops, key, i, n + 1) <==>
            && Stands(c, ops, key, i, n) && !(Admitted(c, ops[n]) && ops[n].key == key)
            && !Ends(c, ops, i, n) && !Evicts(c, ops, key, n)
  {
    hide Evicts, Ends, Admitted;
  }

  /** Call i stored this entry and it stands before call n. */
  predicate Source(c: Config, ops: seq<Op>, e: Entry, i: nat, n: nat) {
    Stands(c, ops, e.key, i, n) && e == EntryOf(c, ops[i])
  }

  lemma SourceNow(c: Config, ops: seq<Op>, e: Entry, i: nat, m: nat)
    requires m < |ops| && Admitted(c, ops[m]) && ops[m].key == e.key
    ensures Source(c, ops, e, i, m + 1) <==> i == m && e == EntryOf(c, ops[m])
  {
    hide Ends, Evicts;
  }

  lemma SourceBefore(c: Config, ops: seq<Op>, e: Entry, i: nat, m: nat)
    requires m < |ops| && !(Admitted(c, ops[m]) && ops[m].key == e.key) && Source(c, ops, e, i, m + 1)
    ensures i < m
  {
    hide Ends, Evicts;
  }

  /** Call m leaves the entry unless it ends it or makes room with it. */
  predicate Leaves(c: Config, l: seq<Entry>, op: Op, e: Entry) {
    && op != Flush && !(op.Get? && op.key == e.key && op.now > e.expiresAt)
    && !(op.Invalidate? && op.table in e.tables) && !(MakesRoom(c, l, op) && e == l[|l| - 1])
  }

  lemma SourceStep(c: Config, ops: seq<Op>, e: Entry, i: nat, m: nat)
    requires i < m < |ops| && !(Admitted(c, ops[m]) && ops[m].key == e.key) && e in At(c, ops, m)
    ensures Source(c, ops, e, i, m + 1) <==> Source(c, ops, e, i, m) && Leaves(c, At(c, ops, m), ops[m], e)
  {
    hide At, Evicts, MakesRoom, Stored, Stands;
    EvictsLast(c, ops, e.key, m);
    AtDistinct(c, ops, m);
    LastIs(c, At(c, ops, m), ops[m], e);
    StandsStep(c, ops, e.key, i, m);
    if Stands(c, ops, e.key, i, m) { StandsStored(c, ops, e.key, i, m); }
  }

  lemma SourceEarlier(c: Config, ops: seq<Op>, e: Entry, i: nat, m: nat)
    requires i < m < |ops| && Source(c, ops, e, i, m + 1)
    ensures Source(c, ops, e, i, m)
  {
    hide Evicts, Ends;
  }

  lemma StandsStored(c: Config, ops: seq<Op>, key: Key, i: nat, n: nat)
    requires Stands(c, ops, key, i, n)
    ensures Stored(c, ops, key, i, n) && i < n <= |ops| && ops[i].Set? && ops[i].key == key
  {
    hide Ends, Evicts;
  }

  lemma LastIs(c: Config, l: seq<Entry>, op: Op, e: Entry)
    requires DistinctKeys(l)
    ensures e in l && MakesRoom(c, l, op) ==> (e == l[|l| - 1] <==> e.key == l[|l| - 1].key)
  {
    if e in l && e.key == l[|l| - 1].key { OneEntry(l, e, l[|l| - 1]); }
  }

  lemma AtStep(c: Config, ops: seq<Op>, m: nat)
    requires m < |ops|
    ensures At(c, ops, m + 1) == Step(c, At(c, ops, m), ops[m])
  {
  }

  lemma NoSource(c: Config, ops: seq<Op>, e: Entry, i: nat)
    ensures !Source(c, ops, e, i, 0)
  {
  }

  /** The entries of the cache are exactly what stands of the Sets made on it. */
  lemma {:induction false} EntriesStand(c: Config, ops: seq<Op>, e: Entry, n: nat)
    requires n <= |ops|
    ensures e in At(c, ops, n) <==> exists i: nat :: Source(c, ops, e, i, n)
  {
    hide Source, Leaves;
    if n == 0 {
      forall i: nat ensures !Source(c, ops, e, i, n) { NoSource(c, ops, e, i); }
    } else {
      var m := n - 1;
      EntriesStand(c, ops, e, m);
      AtDistinct(c, ops, m);
      StepEntries(c, At(c, ops, m), ops[m], e);
      if Admitted(c, ops[m]) && ops[m].key == e.key {
        forall i: nat ensures Source(c, ops, e, i, n) <==> i == m && e == EntryOf(c, ops[m]) {
          SourceNow(c, ops, e, i, m);
        }
        assert Source(c, ops, e, m, n) <==> e == EntryOf(c, ops[m]);
      } else {
        OldEntry(c, ops, e, m, n);
      }
    }
  }

  lemma OldEntry(c: Config, ops: seq<Op>, e: Entry, m: nat, n: nat)
    requires m < |ops| && n == m + 1 && !(Admitted(c, ops[m]) && ops[m].key == e.key)
    requires e in At(c, ops, m) <==> exists i: nat :: Source(c, ops, e, i, m)
    ensures e in At(c, ops, n) <==> exists i: nat :: Source(c, ops, e, i, n)
  {
    hide Source, At, Leaves, MakesRoom, Step;
    AtStep(c, ops, m);
    AtDistinct(c, ops, m);
    StepLeaves(c, At(c, ops, m), ops[m], e);
    forall i: nat | Source(c, ops, e, i, n) ensures e in At(c, ops, n) {
      SourceBefore(c, ops, e, i, m);
      SourceEarlier(c, ops, e, i, m);
      SourceStep(c, ops, e, i, m);
    }
    if e in At(c, ops, n) {
      var i: nat :| Source(c, ops, e, i, m);
      SourceWithin(c, ops, e, i, m);
      SourceStep(c, ops, e, i, m);
      assert Source(c, ops, e, i, n);
    }
  }

  lemma SourceWithin(c: Config, ops: seq<Op>, e: Entry, i: nat, n: nat)
    requires Source(c, ops, e, i, n)
    ensures i < n <= |ops| && Stored(c, ops, e.key, i, n) && ops[i].Set? && e == EntryOf(c, ops[i])
  {
    hide Ends, Evicts;
  }

  lemma StepLeaves(c: Config, l: seq<Entry>, op: Op, e: Entry)
    requires DistinctKeys(l) && !(Admitted(c, op) && op.key == e.key)
    ensures e in Step(c, l, op) <==> e in l && Leaves(c, l, op, e)
  {
    hide Step;
    StepEntries(c, l, op, e);
  }

  /** What a Get answers, over every run from an empty cache: the result of the last admitted Set of the key, if the
      time to live has not passed since, no flush, no invalidation of one of its tables and no late Get came after it,
      and the key was never the least recently used one when room was made. */
  lemma GetAnswers(c: Config, ops: seq<Op>, key: Key, now: int, r: Bytes)
    ensures Lookup(At(c, ops, |ops|), key, now) == Some(r) <==>
            exists i: nat :: Stands(c, ops, key, i, |ops|) && now <= ops[i].now + c.ttl && ops[i].result == r
  {
    hide At, Ends, Evicts;
    var n := |ops|;
    var l := At(c, ops, n);
    AtDistinct(c, ops, n);
    forall i: nat | Stands(c, ops, key, i, n)
      ensures i < n && ops[i].Set? && EntryOf(c, ops[i]) in l && ops[i].key == key
    {
      StandsCached(c, ops, key, i);
    }
    if Has(l, key) {
      var e := Find(l, key);
      EntriesStand(c, ops, e, n);
      var i: nat :| Source(c, ops, e, i, n);
      forall j: nat | Stands(c, ops, key, j, n) ensures j == i { OneStands(c, ops, key, i, j, n); }
    }
  }

  lemma StandsCached(c: Config, ops: seq<Op>, key: Key, i: nat)
    requires Stands(c, ops, key, i, |ops|)
    ensures i < |ops| && ops[i].Set? && ops[i].key == key && EntryOf(c, ops[i]) in At(c, ops, |ops|)
  {
    hide At, Ends, Evicts;
    EntriesStand(c, ops, EntryOf(c, ops[i]), |ops|);
    assert Source(c, ops, EntryOf(c, ops[i]), i, |ops|);
  }

  lemma OneStands(c: Config, ops: seq<Op>, key: Key, i: nat, j: nat, n: nat)
    requires Stands(c, ops, key, i, n) && Stands(c, ops, key, j, n)
    ensures i == j
  {
    hide Ends, Evicts;
  }

  // ---- A key in use stays ----

  /** The other keys used after call u and before call n. */
  ghost function Others(c: Config, ops: seq<Op>, key: Key, u: nat, n: nat): set<Key>
    requires n <= |ops|
  {
    set m: nat | u < m < n && (ops[m].Get? || ops[m].Set?) && ops[m].key != key && Uses(c, ops, ops[m].key, m)
      :: ops[m].key
  }

  function KeysOf(l: seq<Entry>): set<Key> {
    set e | e in l :: e.key
  }

  lemma {:induction false} CountKeys(l: seq<Entry>)
    requires DistinctKeys(l)
    ensures |KeysOf(l)| == |l|
  {
    if l != [] {
      CountKeys(l[1..]);
      assert l == [l[0]] + l[1..];
      forall e | e in l[1..] ensures e.key != l[0].key {
        var i :| 0 <= i < |l| - 1 && l[1..][i] == e;
      }
      assert KeysOf(l) == {l[0].key} + KeysOf(l[1..]);
    }
  }

  lemma UsedAfter(c: Config, ops: seq<Op>, key: Key, other: Key, u: nat, m: nat, n: nat)
    requires u < m < n <= |ops| && other != key && Uses(c, ops, key, u)
    requires LastUse(c, ops, key, m) < LastUse(c, ops, other, m)
    ensures other in Others(c, ops, key, u, n)
  {
    hide Uses;
    var v := LastUse(c, ops, other, m);
    assert v > LastUse(c, ops, key, m) >= u;
    OneUse(c, ops, other, v);
  }

  /** Making room with a key takes as many other keys, used since, as the cache holds. */
  lemma EvictionIsCrowded(c: Config, ops: seq<Op>, key: Key, u: nat, m: nat, n: nat)
    requires u < m < n <= |ops| && Uses(c, ops, key, u) && Evicts(c, ops, key, m)
    ensures |Others(c, ops, key, u, n)| >= c.maxEntries
  {
    hide Uses, LastUse, At;
    var l, newcomer := At(c, ops, m), ops[m].key;
    AtDistinct(c, ops, m);
    CountKeys(l);
    assert key in KeysOf(l) && newcomer !in KeysOf(l);
    var crowd := KeysOf(l) - {key} + {newcomer};
    assert |crowd| == |l|;
    forall k | k in crowd ensures k in Others(c, ops, key, u, n) {
      if k == newcomer {
        StoringUses(c, ops, m);
      } else {
        UsedAfter(c, ops, key, k, u, m, n);
      }
    }
    Fits(crowd, Others(c, ops, key, u, n));
  }

  lemma StoringUses(c: Config, ops: seq<Op>, m: nat)
    requires m < |ops| && Admitted(c, ops[m])
    ensures Uses(c, ops, ops[m].key, m)
  {
  }

  lemma {:induction false} Fits(a: set<Key>, b: set<Key>)
    requires a <= b
    ensures |a| <= |b|
  {
    if a != {} {
      var x :| x in a;
      Fits(a - {x}, b - {x});
    }
  }

  /** The promise to the caller: what was stored under a key, and not ended since, is still there if since some use of
      the key fewer other keys than the cache may hold were used. */
  lemma KeptWhileFewOthers(c: Config, ops: seq<Op>, key: Key, i: nat, u: nat)
    requires var n := |ops|;
             && Stored(c, ops, key, i, n) && i <= u < n && Uses(c, ops, key, u)
             && (forall m | i < m < n :: !Ends(c, ops, i, m))
             && (c.maxEntries > 0 ==> |Others(c, ops, key, u, n)| < c.maxEntries)
    ensures Stands(c, ops, key, i, |ops|)
  {
    hide Uses, Evicts, Ends, Others, At;
    var n := |ops|;
    forall m | i < m < n ensures !Evicts(c, ops, key, m) {
      if Evicts(c, ops, key, m) {
        EvictsOther(c, ops, key, m);
        if m == u {
          OneUse(c, ops, key, u);
        } else if m < u {
          UsedStands(c, ops, key, i, u);
        } else {
          EvictionIsCrowded(c, ops, key, u, m, n);
        }
      }
    }
  }

  lemma EvictsOther(c: Config, ops: seq<Op>, key: Key, m: nat)
    requires m < |ops| && Evicts(c, ops, key, m)
    ensures ops[m].Set? && ops[m].key != key && c.maxEntries > 0
  {
    hide At;
  }

  /** A key that a Get finds is one that stands. */
  lemma UsedStands(c: Config, ops: seq<Op>, key: Key, i: nat, u: nat)
    requires i < u < |ops| && Stored(c, ops, key, i, |ops|) && Uses(c, ops, key, u)
    ensures Stands(c, ops, key, i, u)
  {
    hide At, Ends, Evicts;
    var l := At(c, ops, u);
    var e := Find(l, key);
    EntriesStand(c, ops, e, u);
    var j: nat :| Source(c, ops, e, j, u);
    StandsStored(c, ops, key, j, u);
  }

  lemma {:induction false} RunThenOne(c: Config, l: seq<Entry>, ops: seq<Op>, op: Op)
    ensures Run(c, l, ops + [op]) == Step(c, Run(c, l, ops), op)
    decreases |ops|
  {
    hide Step;
    if ops == [] {
      assert ([] + [op])[1..] == [];
    } else {
      assert (ops + [op])[1..] == ops[1..] + [op];
      RunThenOne(c, Step(c, l, ops[0]), ops[1..], op);
    }
  }

  lemma {:induction false} AtIsRun(c: Config, ops: seq<Op>, n: nat)
    requires n <= |ops|
    ensures At(c, ops, n) == Run(c, [], ops[..n])
  {
    hide Step;
    if n > 0 {
      AtIsRun(c, ops, n - 1);
      RunThenOne(c, [], ops[..n - 1], ops[n - 1]);
      assert ops[..n] == ops[..n - 1] + [ops[n - 1]];
    }
  }
}
