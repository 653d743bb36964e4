/** The query-result cache (internal/cache/cache.go): a recency list with a time to live, and a reverse index
    from tables to keys. */
module QueryCache {
  import opened Options

  type Key = nat
  type Bytes = seq<int>

  datatype Entry = Entry(key: Key, result: Bytes, tables: seq<string>, expiresAt: int)

  datatype Config = Config(maxEntries: int, ttl: int, maxSize: int)

  // ---- The simple cache: one list, most recent first ----

  function NotKey(key: Key): Entry -> bool {
    (e: Entry) => e.key != key
  }

  function NotIn(keys: set<Key>): Entry -> bool {
    (e: Entry) => e.key !in keys
  }

  function NotOn(table: string): Entry -> bool {
    (e: Entry) => table !in e.tables
  }

  function Keep(f: Entry -> bool, l: seq<Entry>): (r: seq<Entry>)
    ensures |r| <= |l|
    ensures forall e :: e in r <==> e in l && f(e)
  {
    if l == [] then [] else (if f(l[0]) then [l[0]] else []) + Keep(f, l[1..])
  }

  predicate Has(l: seq<Entry>, key: Key) {
    exists e | e in l :: e.key == key
  }

  function Find(l: seq<Entry>, key: Key): (e: Entry)
    requires Has(l, key)
    ensures e in l && e.key == key
  {
    if l[0].key == key then l[0] else Find(l[1..], key)
  }

  function Lookup(l: seq<Entry>, key: Key, now: int): Option<Bytes> {
    if Has(l, key) && now <= Find(l, key).expiresAt then Some(Find(l, key).result) else None
  }

  function AfterGet(l: seq<Entry>, key: Key, now: int): seq<Entry> {
    if !Has(l, key) then l
    else if now > Find(l, key).expiresAt then Keep(NotKey(key), l)
    else [Find(l, key)] + Keep(NotKey(key), l)
  }

  function AfterSet(c: Config, l: seq<Entry>, e: Entry): seq<Entry> {
    if c.maxSize > 0 && |e.result| > c.maxSize then l
    else if Has(l, e.key) then [e] + Keep(NotKey(e.key), l)
    else if c.maxEntries > 0 && |l| >= c.maxEntries then [e] + l[..|l| - 1]
    else [e] + l
  }

  datatype Op =
    | Get(key: Key, now: int)
    | Set(key: Key, result: Bytes, tables: seq<string>, now: int)
    | Invalidate(table: string)
    | Flush

  function Step(c: Config, l: seq<Entry>, op: Op): seq<Entry> {
    match op
    case Get(key, now) => AfterGet(l, key, now)
    case Set(key, result, tables, now) => AfterSet(c, l, Entry(key, result, tables, now + c.ttl))
    case Invalidate(table) => Keep(NotOn(table), l)
    case Flush => []
  }

  function Run(c: Config, l: seq<Entry>, ops: seq<Op>): seq<Entry>
    decreases |ops|
  {
    if ops == [] then l else Run(c, Step(c, l, ops[0]), ops[1..])
  }

  predicate DistinctKeys(l: seq<Entry>) {
    forall i, j | 0 <= i < j < |l| :: l[i].key != l[j].key
  }

  lemma KeepStep(f: Entry -> bool, l: seq<Entry>)
    requires l != []
    ensures Keep(f, l) == if f(l[0]) then [l[0]] + Keep(f, l[1..]) else Keep(f, l[1..])
  {
  }

  lemma {:induction false} KeepDistinct(f: Entry -> bool, l: seq<Entry>)
    requires DistinctKeys(l)
    ensures DistinctKeys(Keep(f, l))
  {
    if l != [] {
      hide Keep;
      KeepDistinct(f, l[1..]);
      KeepStep(f, l);
      var t := Keep(f, l[1..]);
      forall e | e in l[1..] ensures e.key != l[0].key {
        var i :| 1 <= i < |l| && l[i] == e;
      }
      assert forall i | 0 <= i < |t| :: t[i] in l[1..];
    }
  }

  lemma {:induction false} KeepAll(f: Entry -> bool, l: seq<Entry>)
    requires forall e | e in l :: f(e)
    ensures Keep(f, l) == l
  {
    if l != [] {
      assert l[0] in l;
      KeepAll(f, l[1..]);
    }
  }

  lemma {:induction false} KeepSame(f: Entry -> bool, g: Entry -> bool, l: seq<Entry>)
    requires forall e | e in l :: f(e) == g(e)
    ensures Keep(f, l) == Keep(g, l)
  {
    if l != [] {
      assert l[0] in l;
      KeepSame(f, g, l[1..]);
    }
  }

  // ---- Nothing stale after an invalidation ----

  predicate SetsOn(op: Op, table: string) {
    op.Set? && table in op.tables
  }

  lemma StepAddsNothing(c: Config, l: seq<Entry>, op: Op, table: string)
    requires (forall e | e in l :: table !in e.tables) && !SetsOn(op, table)
    ensures forall e | e in Step(c, l, op) :: table !in e.tables
  {
  }

  lemma {:induction false} RunAddsNothing(c: Config, l: seq<Entry>, ops: seq<Op>, table: string)
    requires (forall e | e in l :: table !in e.tables) && forall op | op in ops :: !SetsOn(op, table)
    ensures forall e | e in Run(c, l, ops) :: table !in e.tables
    decreases |ops|
  {
    if ops != [] {
      assert ops[0] in ops;
      StepAddsNothing(c, l, ops[0], table);
      RunAddsNothing(c, Step(c, l, ops[0]), ops[1..], table);
    }
  }

  /** After InvalidateTable(t), whatever was there before, no result that mentions t is returned until some
      later Set puts one in. */
  lemma InvalidatedStaysOut(c: Config, l: seq<Entry>, ops: seq<Op>, table: string, key: Key, now: int)
    requires forall op | op in ops :: !SetsOn(op, table)
    ensures var l' := Run(c, Step(c, l, Invalidate(table)), ops);
            Lookup(l', key, now).Some? ==> table !in Find(l', key).tables
  {
    RunAddsNothing(c, Step(c, l, Invalidate(table)), ops, table);
  }

  // ---- A smaller cache holds part of what a larger one holds ----

  /** a is a subsequence of b. */
  predicate Sub(a: seq<Entry>, b: seq<Entry>) {
    a == [] || (b != [] && if a[0] == b[0] then Sub(a[1..], b[1..]) else Sub(a, b[1..]))
  }

  lemma {:induction false} SubTail(a: seq<Entry>, b: seq<Entry>)
    requires a != [] && Sub(a, b)
    ensures Sub(a[1..], b)
  {
    if a[0] == b[0] {
      if a[1..] != [] && a[1] == b[0] {
        SubTail(a[1..], b[1..]);
      }
    } else {
      SubTail(a, b[1..]);
      if a[1..] != [] && a[1] == b[0] {
        SubTail(a[1..], b[1..]);
      }
    }
  }

  lemma SubCons(a: seq<Entry>, b: seq<Entry>, x: Entry)
    requires Sub(a, b)
    ensures Sub(a, [x] + b) && Sub([x] + a, [x] + b)
  {
    assert ([x] + b)[1..] == b && ([x] + a)[1..] == a;
    if a != [] && a[0] == x { SubTail(a, b); }
  }

  lemma {:induction false} SubMember(a: seq<Entry>, b: seq<Entry>, e: Entry)
    requires Sub(a, b) && e in a
    ensures e in b
  {
    if a[0] == b[0] {
      if e != a[0] { SubMember(a[1..], b[1..], e); }
    } else {
      SubMember(a, b[1..], e);
    }
  }

  lemma {:induction false} SubKeep(f: Entry -> bool, a: seq<Entry>, b: seq<Entry>)
    requires Sub(a, b)
    ensures Sub(Keep(f, a), Keep(f, b)) && |Keep(f, b)| - |Keep(f, a)| <= |b| - |a|
    ensures |a| <= |b|
  {
    if a != [] {
      KeepStep(f, a);
      KeepStep(f, b);
      if a[0] == b[0] {
        SubKeep(f, a[1..], b[1..]);
        SubCons(Keep(f, a[1..]), Keep(f, b[1..]), a[0]);
      } else {
        SubKeep(f, a, b[1..]);
        SubCons(Keep(f, a), Keep(f, b[1..]), b[0]);
      }
    }
  }

  lemma {:induction false} SubInit(a: seq<Entry>, b: seq<Entry>)
    requires Sub(a, b) && a != []
    ensures Sub(a[..|a| - 1], b) && Sub(a[..|a| - 1], b[..|b| - 1])
  {
    var p, q := a[..|a| - 1], b[..|b| - 1];
    if a[0] == b[0] {
      if |a| > 1 {
        SubInit(a[1..], b[1..]);
        assert p[1..] == a[1..][..|a| - 2] && q[1..] == b[1..][..|b| - 2];
      }
    } else {
      SubInit(a, b[1..]);
      assert q[1..] == b[1..][..|b| - 2];
    }
  }

  /** The larger cache is never full while the smaller one still has room. */
  predicate Within(c1: Config, a: seq<Entry>, c2: Config, b: seq<Entry>) {
    && Sub(a, b) && DistinctKeys(b) && DistinctKeys(a)
    && |a| <= c1.maxEntries
    && (c2.maxEntries > 0 ==> |b| <= c2.maxEntries && |b| - |a| <= c2.maxEntries - c1.maxEntries)
  }

  predicate Comparable(c1: Config, c2: Config) {
    && c1.ttl == c2.ttl && c1.maxSize == c2.maxSize && 1 <= c1.maxEntries
    && (c2.maxEntries > 0 ==> c1.maxEntries <= c2.maxEntries)
  }

  lemma HasSub(a: seq<Entry>, b: seq<Entry>, key: Key)
    requires Sub(a, b) && DistinctKeys(b) && Has(a, key)
    ensures Has(b, key) && Find(a, key) == Find(b, key)
  {
    var e := Find(a, key);
    SubMember(a, b, e);
    OneEntry(b, e, Find(b, key));
  }

  lemma OneEntry(l: seq<Entry>, e: Entry, e': Entry)
    requires DistinctKeys(l) && e in l && e' in l && e.key == e'.key
    ensures e == e'
  {
    var i :| 0 <= i < |l| && l[i] == e;
    var j :| 0 <= j < |l| && l[j] == e';
  }

  /** Removing a key: what one of the lists does not have it does not lose. */
  lemma SubWithout(a: seq<Entry>, b: seq<Entry>, key: Key)
    requires Sub(a, b)
    ensures Sub(Keep(NotKey(key), a), Keep(NotKey(key), b))
    ensures |Keep(NotKey(key), b)| - |Keep(NotKey(key), a)| <= |b| - |a|
    ensures !Has(a, key) ==> Keep(NotKey(key), a) == a
  {
    SubKeep(NotKey(key), a, b);
    if !Has(a, key) { KeepAll(NotKey(key), a); }
  }

  lemma {:induction false} KeepOne(l: seq<Entry>, key: Key)
    requires DistinctKeys(l)
    ensures |Keep(NotKey(key), l)| == if Has(l, key) then |l| - 1 else |l|
  {
    if l == [] {
    } else if l[0].key == key {
      assert l[0] in l;
      forall e | e in l[1..] ensures NotKey(key)(e) {
        var i :| 1 <= i < |l| && l[i] == e;
      }
      KeepAll(NotKey(key), l[1..]);
    } else {
      KeepOne(l[1..], key);
      assert Has(l, key) <==> Has(l[1..], key);
    }
  }

  lemma FrontDistinct(e: Entry, l: seq<Entry>)
    requires DistinctKeys(l) && !Has(l, e.key)
    ensures DistinctKeys([e] + l)
  {
    assert forall i | 0 <= i < |l| :: l[i] in l;
  }

  /** An entry for the key at the front, in place of any other. */
  lemma Refront(a: seq<Entry>, b: seq<Entry>, e: Entry)
    requires Sub(a, b) && DistinctKeys(a) && DistinctKeys(b)
    ensures var k := NotKey(e.key);
            && Sub([e] + Keep(k, a), [e] + Keep(k, b)) && Sub(Keep(k, a), [e] + Keep(k, b))
            && DistinctKeys([e] + Keep(k, a)) && DistinctKeys([e] + Keep(k, b))
  {
    var k := NotKey(e.key);
    SubWithout(a, b, e.key);
    SubCons(Keep(k, a), Keep(k, b), e);
    KeepDistinct(k, a);
    KeepDistinct(k, b);
    FrontDistinct(e, Keep(k, a));
    FrontDistinct(e, Keep(k, b));
  }

  lemma GetInclusion(c1: Config, a: seq<Entry>, c2: Config, b: seq<Entry>, key: Key, now: int)
    requires Comparable(c1, c2) && Within(c1, a, c2, b)
    ensures Within(c1, AfterGet(a, key, now), c2, AfterGet(b, key, now))
    ensures Lookup(a, key, now).Some? ==> Lookup(b, key, now) == Lookup(a, key, now)
  {
    hide Sub, Keep, Find, DistinctKeys;
    if Has(a, key) { HasSub(a, b, key); }
    if Has(b, key) {
      SubWithout(a, b, key);
      Refront(a, b, Find(b, key));
      KeepOne(a, key);
      KeepOne(b, key);
      KeepDistinct(NotKey(key), a);
      KeepDistinct(NotKey(key), b);
    }
  }

  lemma InitDistinct(l: seq<Entry>)
    requires l != [] && DistinctKeys(l)
    ensures DistinctKeys(l[..|l| - 1]) && forall key :: Has(l[..|l| - 1], key) ==> Has(l, key)
  {
    assert forall e | e in l[..|l| - 1] :: e in l;
  }

  lemma PushSub(a: seq<Entry>, b: seq<Entry>, e: Entry)
    requires Sub(a, b) && DistinctKeys(a) && DistinctKeys(b) && !Has(a, e.key) && !Has(b, e.key)
    ensures Sub([e] + a, [e] + b) && DistinctKeys([e] + a) && DistinctKeys([e] + b)
  {
    SubCons(a, b, e);
    FrontDistinct(e, a);
    FrontDistinct(e, b);
  }

  /** The list a new entry is pushed on. */
  function Room(c: Config, l: seq<Entry>): seq<Entry> {
    if c.maxEntries > 0 && |l| >= c.maxEntries && l != [] then l[..|l| - 1] else l
  }

  lemma RoomInclusion(c1: Config, a: seq<Entry>, c2: Config, b: seq<Entry>)
    requires Comparable(c1, c2) && Within(c1, a, c2, b)
    ensures Sub(Room(c1, a), b) && Sub(Room(c1, a), Room(c2, b))
    ensures DistinctKeys(Room(c1, a)) && DistinctKeys(Room(c2, b))
    ensures forall key :: (Has(Room(c1, a), key) ==> Has(a, key)) && (Has(Room(c2, b), key) ==> Has(b, key))
  {
    hide Sub, Has, DistinctKeys;
    if a != [] {
      SubInit(a, b);
      InitDistinct(a);
    }
    if b != [] { InitDistinct(b); }
  }

  lemma SetInclusion(c1: Config, a: seq<Entry>, c2: Config, b: seq<Entry>, e: Entry)
    requires Comparable(c1, c2) && Within(c1, a, c2, b)
    ensures Within(c1, AfterSet(c1, a, e), c2, AfterSet(c2, b, e))
  {
    hide Sub, Keep, Find, DistinctKeys, Has;
    var k := NotKey(e.key);
    if c1.maxSize > 0 && |e.result| > c1.maxSize {
    } else if Has(a, e.key) {
      HasSub(a, b, e.key);
      Refront(a, b, e);
      KeepOne(a, e.key);
      KeepOne(b, e.key);
    } else if Has(b, e.key) {
      SetHeldByLarger(c1, a, c2, b, e);
    } else {
      RoomInclusion(c1, a, c2, b);
      PushSub(Room(c1, a), Room(c2, b), e);
    }
  }

  lemma SetHeldByLarger(c1: Config, a: seq<Entry>, c2: Config, b: seq<Entry>, e: Entry)
    requires Comparable(c1, c2) && Within(c1, a, c2, b) && !Has(a, e.key) && Has(b, e.key)
    ensures var a', b' := [e] + Room(c1, a), [e] + Keep(NotKey(e.key), b);
            Sub(a', b') && DistinctKeys(a') && DistinctKeys(b') && |b'| == |b|
  {
    hide Sub, Find, DistinctKeys;
    var b1 := Keep(NotKey(e.key), b);
    SubWithout(a, b, e.key);
    KeepOne(b, e.key);
    KeepDistinct(NotKey(e.key), b);
    if a != [] {
      SubInit(a, b1);
      InitDistinct(a);
    }
    PushSub(Room(c1, a), b1, e);
  }

  lemma StepInclusion(c1: Config, a: seq<Entry>, c2: Config, b: seq<Entry>, op: Op)
    requires Comparable(c1, c2) && Within(c1, a, c2, b)
    ensures Within(c1, Step(c1, a, op), c2, Step(c2, b, op))
  {
    hide Sub, Keep, Find, DistinctKeys, Has, AfterGet, AfterSet;
    match op
    case Get(key, now) => GetInclusion(c1, a, c2, b, key, now);
    case Set(key, result, tables, now) => SetInclusion(c1, a, c2, b, Entry(key, result, tables, now + c1.ttl));
    case Invalidate(table) =>
      SubKeep(NotOn(table), a, b);
      KeepDistinct(NotOn(table), a);
      KeepDistinct(NotOn(table), b);
    case Flush => EmptyWithin(c1, c2);
  }

  lemma EmptyWithin(c1: Config, c2: Config)
    requires Comparable(c1, c2)
    ensures Within(c1, [], c2, [])
  {
  }

  lemma {:induction false} RunInclusion(c1: Config, a: seq<Entry>, c2: Config, b: seq<Entry>, ops: seq<Op>)
    requires Comparable(c1, c2) && Within(c1, a, c2, b)
    ensures Within(c1, Run(c1, a, ops), c2, Run(c2, b, ops))
    decreases |ops|
  {
    hide Within, Step;
    if ops != [] {
      StepInclusion(c1, a, c2, b, ops[0]);
      RunInclusion(c1, Step(c1, a, ops[0]), c2, Step(c2, b, ops[0]), ops[1..]);
    }
  }

  /** LRU inclusion: on one trace, the smaller cache's recency list is always a subsequence of the larger's,
      so whatever the smaller one answers the larger one answers too, with the same bytes. */
  lemma SmallerIsIncluded(c1: Config, c2: Config, ops: seq<Op>, key: Key, now: int)
    requires Comparable(c1, c2)
    ensures Sub(Run(c1, [], ops), Run(c2, [], ops))
    ensures Lookup(Run(c1, [], ops), key, now).Some? ==>
              Lookup(Run(c2, [], ops), key, now) == Lookup(Run(c1, [], ops), key, now)
  {
    EmptyWithin(c1, c2);
    RunInclusion(c1, [], c2, [], ops);
    GetInclusion(c1, Run(c1, [], ops), c2, Run(c2, [], ops), key, now);
  }

  // ---- The three structures ----

  /** Table t lists key k. */
  predicate Lists(index: map<string, set<Key>>, t: string, k: Key) {
    t in index && k in index[t]
  }

  predicate NoEmptySets(index: map<string, set<Key>>) {
    forall t | t in index :: index[t] != {}
  }

  /** The reverse index holds exactly the live keys' tables. */
  ghost predicate Indexed(index: map<string, set<Key>>, items: map<Key, Entry>) {
    && NoEmptySets(index)
    && forall t, k :: Lists(index, t, k) <==> k in items && t in items[k].tables
  }

  predicate NoRepeats(keys: seq<Key>) {
    forall i, j | 0 <= i < j < |keys| :: keys[i] != keys[j]
  }

  function Drop(keys: seq<Key>, key: Key): (r: seq<Key>)
    ensures forall k :: k in r <==> k in keys && k != key
  {
    if keys == [] then [] else (if keys[0] != key then [keys[0]] else []) + Drop(keys[1..], key)
  }

  lemma {:induction false} DropNoRepeats(keys: seq<Key>, key: Key)
    requires NoRepeats(keys)
    ensures NoRepeats(Drop(keys, key)) && |Drop(keys, key)| == if key in keys then |keys| - 1 else |keys|
  {
    if keys != [] {
      var t := keys[1..];
      DropNoRepeats(t, key);
      assert keys[0] !in t;
      assert forall i | 0 <= i < |Drop(t, key)| :: Drop(t, key)[i] in t;
    }
  }

  function Listed(keys: seq<Key>, items: map<Key, Entry>): (l: seq<Entry>)
    requires forall k | k in keys :: k in items
    ensures |l| == |keys| && forall i | 0 <= i < |l| :: l[i] == items[keys[i]]
  {
    seq(|keys|, i requires 0 <= i < |keys| => items[keys[i]])
  }

  predicate Keyed(keys: seq<Key>, items: map<Key, Entry>) {
    && (forall k | k in keys :: k in items)
    && (forall k | k in items :: k in keys && items[k].key == k)
  }

  lemma ListedCons(k: Key, keys: seq<Key>, items: map<Key, Entry>)
    requires k in items && forall k' | k' in keys :: k' in items
    ensures Listed([k] + keys, items) == [items[k]] + Listed(keys, items)
    ensures Listed([k] + keys, items)[1..] == Listed(keys, items)
  {
  }

  lemma DropStep(keys: seq<Key>, key: Key)
    requires keys != []
    ensures Drop(keys, key) == if keys[0] != key then [keys[0]] + Drop(keys[1..], key) else Drop(keys[1..], key)
  {
  }

  lemma NothingListed(items: map<Key, Entry>, key: Key, items': map<Key, Entry>)
    ensures Listed(Drop([], key), items') == [] == Keep(NotKey(key), Listed([], items))
  {
  }

  lemma {:induction false} ListedDrop(keys: seq<Key>, items: map<Key, Entry>, key: Key, items': map<Key, Entry>)
    requires forall k | k in keys :: k in items && items[k].key == k
    requires forall k | k in keys && k != key :: k in items' && items'[k] == items[k]
    ensures Listed(Drop(keys, key), items') == Keep(NotKey(key), Listed(keys, items))
  {
    hide Listed, Keep, Drop;
    if keys == [] {
      NothingListed(items, key, items');
    } else {
      var t := keys[1..];
      ListedDrop(t, items, key, items');
      DropStep(keys, key);
      assert keys == [keys[0]] + t && keys[0] in keys;
      ListedCons(keys[0], t, items);
      KeepStep(NotKey(key), Listed(keys, items));
      if keys[0] != key { ListedCons(keys[0], Drop(t, key), items'); }
    }
  }

  lemma ListedDistinct(keys: seq<Key>, items: map<Key, Entry>)
    requires Keyed(keys, items) && NoRepeats(keys)
    ensures DistinctKeys(Listed(keys, items))
  {
    var l := Listed(keys, items);
    forall i | 0 <= i < |l| ensures l[i].key == keys[i] { assert keys[i] in keys; }
  }

  lemma ListedHas(keys: seq<Key>, items: map<Key, Entry>, key: Key)
    requires Keyed(keys, items) && NoRepeats(keys)
    ensures Has(Listed(keys, items), key) <==> key in items
    ensures key in items ==> Find(Listed(keys, items), key) == items[key]
  {
    hide Find, DistinctKeys, NoRepeats;
    ListedDistinct(keys, items);
    var l := Listed(keys, items);
    forall e | e in l ensures e.key in items && items[e.key] == e {
      var i :| 0 <= i < |keys| && l[i] == e;
      assert keys[i] in keys;
    }
    if key in items {
      var i :| 0 <= i < |keys| && keys[i] == key;
      assert l[i] in l;
    }
  }

  /** The index of every other key is right and this one is in no set. */
  ghost predicate IndexedBut(index: map<string, set<Key>>, items: map<Key, Entry>, key: Key) {
    && NoEmptySets(index) && (forall t :: !Lists(index, t, key))
    && forall t, k | k != key :: Lists(index, t, k) <==> k in items && t in items[k].tables
  }

  lemma IndexedWithout(index: map<string, set<Key>>, items: map<Key, Entry>, index': map<string, set<Key>>, key: Key)
    requires Indexed(index, items) && NoEmptySets(index')
    requires forall t, k :: Lists(index', t, k) <==>
               Lists(index, t, k) && !(k == key && key in items && t in items[key].tables)
    ensures IndexedBut(index', items, key)
  {
  }

  lemma IndexedWith(index: map<string, set<Key>>, items: map<Key, Entry>, index': map<string, set<Key>>, e: Entry)
    requires IndexedBut(index, items, e.key) && NoEmptySets(index')
    requires forall t, k :: Lists(index', t, k) <==> Lists(index, t, k) || (k == e.key && t in e.tables)
    ensures Indexed(index', items[e.key := e])
  {
  }

  lemma RefreshedList(keys: seq<Key>, items: map<Key, Entry>, e: Entry)
    requires Keyed(keys, items) && e.key in items
    ensures var keys', items' := [e.key] + Drop(keys, e.key), items[e.key := e];
            Keyed(keys', items') && Listed(keys', items') == [e] + Keep(NotKey(e.key), Listed(keys, items))
  {
    hide Keep, Listed, Drop;
    ListedDrop(keys, items, e.key, items[e.key := e]);
    ListedCons(e.key, Drop(keys, e.key), items[e.key := e]);
  }

  class Cache {
    const cfg: Config
    var items: map<Key, Entry>
    var evictList: seq<Key>
    var tableIndex: map<string, set<Key>>

    ghost predicate Valid()
      reads this
    {
      && NoRepeats(evictList) && Keyed(evictList, items) && Indexed(tableIndex, items)
      && (cfg.maxEntries > 0 ==> |evictList| <= cfg.maxEntries)
    }

    /** The recency list as one sequence of entries. */
    ghost function View(): seq<Entry>
      requires Valid()
      reads this
    {
      Listed(evictList, items)
    }

    constructor (cfg: Config)
      ensures Valid() && View() == [] && this.cfg == cfg
    {
      this.cfg := cfg;
      items, evictList, tableIndex := map[], [], map[];
    }

    method RemoveTableIndex(key: Key, tables: seq<string>)
      requires NoEmptySets(tableIndex)
      modifies this`tableIndex
      ensures NoEmptySets(tableIndex)
      ensures forall t, k :: Lists(tableIndex, t, k) <==>
                             Lists(old(tableIndex), t, k) && !(k == key && t in tables)
    {
      hide NoEmptySets, Lists, Unlisted, Enlisted;
      for i := 0 to |tables|
        invariant NoEmptySets(tableIndex)
        invariant forall t, k :: Lists(tableIndex, t, k) <==>
                                 Lists(old(tableIndex), t, k) && !(k == key && t in tables[..i])
      {
        assert tables[..i + 1] == tables[..i] + [tables[i]];
        tableIndex := Unlisted(tableIndex, tables[i], key);
      }
      assert tables[..|tables|] == tables;
    }

    method UpdateTableIndex(key: Key, tables: seq<string>)
      requires NoEmptySets(tableIndex)
      modifies this`tableIndex
      ensures NoEmptySets(tableIndex)
      ensures forall t, k :: Lists(tableIndex, t, k) <==>
                             Lists(old(tableIndex), t, k) || (k == key && t in tables)
    {
      hide NoEmptySets, Lists, Unlisted, Enlisted;
      for i := 0 to |tables|
        invariant NoEmptySets(tableIndex)
        invariant forall t, k :: Lists(tableIndex, t, k) <==>
                                 Lists(old(tableIndex), t, k) || (k == key && t in tables[..i])
      {
        assert tables[..i + 1] == tables[..i] + [tables[i]];
        tableIndex := Enlisted(tableIndex, tables[i], key);
      }
      assert tables[..|tables|] == tables;
    }

    /** The list element and map entry of a live key go, and its tables forget it. */
    method RemoveElement(key: Key)
      requires Valid() && key in items
      modifies this`items, this`evictList, this`tableIndex
      ensures Valid() && View() == Keep(NotKey(key), old(View())) && items == old(items) - {key}
    {
      hide Keep, Listed, Drop;
      var e := items[key];
      ghost var before := items;
      ListedDrop(evictList, items, key, items - {key});
      DropNoRepeats(evictList, key);
      evictList := Drop(evictList, key);
      items := items - {key};
      RemoveTableIndex(key, e.tables);
    }

    method EvictOldest()
      requires Valid()
      modifies this`items, this`evictList, this`tableIndex
      ensures Valid() && View() == if old(View()) == [] then [] else old(View())[..|old(View())| - 1]
    {
      if evictList != [] {
        LastOut(evictList, items);
        RemoveElement(evictList[|evictList| - 1]);
      }
    }

    method Get(key: Key, now: int) returns (result: Option<Bytes>)
      requires Valid()
      modifies this`items, this`evictList, this`tableIndex
      ensures Valid() && result == Lookup(old(View()), key, now) && View() == AfterGet(old(View()), key, now)
    {
      hide Keep, Listed, Drop, Has, Find;
      ListedHas(evictList, items, key);
      if key !in items { return None; }
      var e := items[key];
      if now > e.expiresAt {
        RemoveElement(key);
        return None;
      }
      MoveToFront(key);
      result := Some(e.result);
    }

    method MoveToFront(key: Key)
      requires Valid() && key in items
      modifies this`evictList
      ensures Valid() && View() == [items[key]] + Keep(NotKey(key), old(View()))
      ensures evictList == [key] + Drop(old(evictList), key)
    {
      hide Keep, Listed, Drop;
      ListedDrop(evictList, items, key, items);
      DropNoRepeats(evictList, key);
      ListedCons(key, Drop(evictList, key), items);
      evictList := [key] + Drop(evictList, key);
    }

    /** The tables of a live key's old entry forget it, those of the new one list it. */
    method Reindex(e: Entry)
      requires Indexed(tableIndex, items) && e.key in items
      modifies this`items, this`tableIndex
      ensures items == old(items)[e.key := e] && Indexed(tableIndex, items)
    {
      ghost var before, indexed := items, tableIndex;
      RemoveTableIndex(e.key, items[e.key].tables);
      ghost var index := tableIndex;
      IndexedWithout(indexed, before, index, e.key);
      items := items[e.key := e];
      hide Indexed, IndexedBut, Lists;
      UpdateTableIndex(e.key, e.tables);
      IndexedWith(index, before, tableIndex, e);
    }

    /** A live key gets a new entry, at the front. */
    method Refresh(e: Entry)
      requires Valid() && e.key in items
      modifies this`items, this`evictList, this`tableIndex
      ensures Valid() && View() == [e] + Keep(NotKey(e.key), old(View()))
    {
      hide Keep, Listed, Drop, Indexed, NoRepeats, Keyed;
      RefreshedList(evictList, items, e);
      MoveToFront(e.key);
      Reindex(e);
    }

    /** A key that is not there is pushed on the front. */
    method Insert(e: Entry)
      requires Valid() && e.key !in items && (cfg.maxEntries > 0 ==> |evictList| < cfg.maxEntries)
      modifies this`items, this`evictList, this`tableIndex
      ensures Valid() && View() == [e] + old(View())
    {
      hide Keep, Listed, Drop;
      ListedSame(evictList, items, items[e.key := e]);
      ListedCons(e.key, evictList, items[e.key := e]);
      ghost var before, index := items, tableIndex;
      IndexedWithout(index, before, index, e.key);
      hide Indexed, IndexedBut, Lists;
      evictList := [e.key] + evictList;
      items := items[e.key := e];
      UpdateTableIndex(e.key, e.tables);
      IndexedWith(index, before, tableIndex, e);
    }

    method Set(key: Key, result: Bytes, tables: seq<string>, now: int)
      requires Valid()
      modifies this`items, this`evictList, this`tableIndex
      ensures Valid()
      ensures View() == AfterSet(cfg, old(View()), Entry(key, result, tables, now + cfg.ttl))
    {
      hide Keep, Listed, Drop, Has, Find, Indexed, NoRepeats;
      if cfg.maxSize > 0 && |result| > cfg.maxSize { return; }
      ListedHas(evictList, items, key);
      var e := Entry(key, result, tables, now + cfg.ttl);
      if key in items {
        Refresh(e);
        return;
      }
      if cfg.maxEntries > 0 && |evictList| >= cfg.maxEntries { EvictOldest(); }
      Insert(e);
    }

    /** Every live key the index lists for the table goes; the index forgets the table. */
    method InvalidateTable(table: string)
      requires Valid()
      modifies this`items, this`evictList, this`tableIndex
      ensures Valid() && View() == Keep(NotOn(table), old(View()))
    {
      hide Keep, Listed, Indexed, NoRepeats;
      ghost var before := View();
      ghost var keys: set<Key> := if table in tableIndex then tableIndex[table] else {};
      OnTable(table, keys);
      if table !in tableIndex {
        KeepAll(NotOn(table), before);
        return;
      }
      KeepSame(NotIn(keys), NotOn(table), before);
      KeepAll(NotIn({}), before);
      var todo := tableIndex[table];
      assert keys - todo == {};
      while todo != {}
        invariant Valid() && todo <= keys && View() == Keep(NotIn(keys - todo), before)
      {
        var key :| key in todo;
        ghost var done := keys - todo;
        todo := todo - {key};
        assert keys - todo == done + {key};
        KeepLess(done, key, before);
        if key in items { RemoveElement(key); } else { NotListed(key); }
      }
      assert keys - todo == keys;
      ForgetTable(table);
      tableIndex := tableIndex - {table};
    }

    /** The index names exactly the listed entries that mention the table. */
    lemma OnTable(table: string, keys: set<Key>)
      requires Valid() && keys == if table in tableIndex then tableIndex[table] else {}
      ensures forall e | e in View() :: e.key in keys <==> table in e.tables
    {
      forall e | e in View() ensures e.key in keys <==> table in e.tables {
        var i :| 0 <= i < |evictList| && items[evictList[i]] == e;
        assert Lists(tableIndex, table, e.key) <==> e.key in keys;
      }
    }

    lemma NotListed(key: Key)
      requires Valid() && key !in items
      ensures Keep(NotKey(key), View()) == View()
    {
      ListedHas(evictList, items, key);
      KeepAll(NotKey(key), View());
    }

    lemma ForgetTable(table: string)
      requires Valid() && forall e | e in View() :: table !in e.tables
      ensures Indexed(tableIndex - {table}, items)
    {
      forall k | k in items ensures table !in items[k].tables {
        var i :| 0 <= i < |evictList| && evictList[i] == k;
        assert View()[i] in View();
      }
      var index := tableIndex - {table};
      forall t, k ensures Lists(index, t, k) <==> k in items && t in items[k].tables {
        assert Lists(tableIndex, t, k) <==> k in items && t in items[k].tables;
      }
    }

    method FlushAll()
      requires Valid()
      modifies this`items, this`evictList, this`tableIndex
      ensures Valid() && View() == []
    {
      items, evictList, tableIndex := map[], [], map[];
    }

    method Len() returns (n: nat)
      requires Valid()
      ensures n == |View()|
    {
      n := |evictList|;
    }
  }

  /** One table's set with the key. */
  function Enlisted(index: map<string, set<Key>>, t: string, key: Key): (r: map<string, set<Key>>)
    requires NoEmptySets(index)
    ensures NoEmptySets(r)
    ensures forall t', k :: Lists(r, t', k) <==> Lists(index, t', k) || (t' == t && k == key)
  {
    var keys := if t in index then index[t] else {};
    index[t := keys + {key}]
  }

  /** One table's set without the key; a set that becomes empty goes. */
  function Unlisted(index: map<string, set<Key>>, t: string, key: Key): (r: map<string, set<Key>>)
    requires NoEmptySets(index)
    ensures NoEmptySets(r)
    ensures forall t', k :: Lists(r, t', k) <==> Lists(index, t', k) && !(t' == t && k == key)
  {
    if t !in index then index
    else
      var keys := index[t] - {key};
      assert forall k | k in index[t] :: k in keys || k == key;
      if keys == {} then index - {t} else index[t := keys]
  }

  lemma {:induction false} KeepLess(done: set<Key>, key: Key, l: seq<Entry>)
    ensures Keep(NotKey(key), Keep(NotIn(done), l)) == Keep(NotIn(done + {key}), l)
  {
    if l != [] {
      KeepStep(NotIn(done), l);
      KeepStep(NotIn(done + {key}), l);
      KeepLess(done, key, l[1..]);
      if l[0].key !in done { KeepStep(NotKey(key), [l[0]] + Keep(NotIn(done), l[1..])); }
    }
  }

  lemma ListedSame(keys: seq<Key>, items: map<Key, Entry>, items': map<Key, Entry>)
    requires forall k | k in keys :: k in items && k in items' && items[k] == items'[k]
    ensures Listed(keys, items') == Listed(keys, items)
  {
  }

  lemma {:induction false} KeepAllButLast(f: Entry -> bool, l: seq<Entry>)
    requires l != [] && !f(l[|l| - 1]) && forall i | 0 <= i < |l| - 1 :: f(l[i])
    ensures Keep(f, l) == l[..|l| - 1]
  {
    KeepStep(f, l);
    if |l| == 1 {
      assert Keep(f, l[1..]) == [];
    } else {
      hide *;
      var t := l[1..];
      forall i | 0 <= i < |t| - 1 ensures f(t[i]) { assert t[i] == l[i + 1]; }
      KeepAllButLast(f, t);
      InitStep(l);
    }
  }

  lemma InitStep(l: seq<Entry>)
    requires |l| > 1
    ensures l[..|l| - 1] == [l[0]] + l[1..][..|l[1..]| - 1]
  {
  }

  lemma LastOut(keys: seq<Key>, items: map<Key, Entry>)
    requires Keyed(keys, items) && NoRepeats(keys) && keys != []
    ensures Keep(NotKey(keys[|keys| - 1]), Listed(keys, items)) == Listed(keys, items)[..|keys| - 1]
  {
    var l := Listed(keys, items);
    forall i | 0 <= i < |l| ensures l[i].key == keys[i] { assert keys[i] in keys; }
    KeepAllButLast(NotKey(keys[|keys| - 1]), l);
  }
}
