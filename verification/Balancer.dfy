/** The round-robin balancer over readers (internal/router/balancer.go). */
module Balancer {
  import opened Options

  /** The counter is an unsigned 64-bit word; the probe converts it to a signed one. */
  const HALF: nat := 0x8000_0000_0000_0000
  const FULL: nat := 0x1_0000_0000_0000_0000

  /** int(count) % n, whose sign is that of the converted count. */
  function SlotOf(count: nat, n: nat): int
    requires n > 0 && count < FULL
  {
    if count < HALF then count % n else -((FULL - count) % n)
  }

  function Bump(count: nat): (r: nat)
    ensures r < FULL
  {
    (count + 1) % FULL
  }

  /** What one call finds: a slot, nothing, or a negative index into the slice. */
  datatype Pick = Found(slot: nat, index: nat) | NotFound(index: nat) | OutOfRange(index: nat)

  /** At most `tries` probes from a counter value, over the slots that qualify. */
  function Scan(ok: seq<bool>, index: nat, tries: nat): (p: Pick)
    requires index < FULL && (tries > 0 ==> ok != [])
    ensures p.index < FULL
    ensures p.Found? ==> p.slot < |ok| && ok[p.slot]
    decreases tries
  {
    if tries == 0 then NotFound(index)
    else
      var i, next := SlotOf(index, |ok|), Bump(index);
      if i < 0 then OutOfRange(next) else if ok[i] then Found(i, next) else Scan(ok, next, tries - 1)
  }

  lemma ScanUnfold(ok: seq<bool>, index: nat, tries: nat)
    requires index < FULL && (tries > 0 ==> ok != [])
    ensures tries == 0 ==> Scan(ok, index, tries) == NotFound(index)
    ensures tries > 0 ==>
              var i, next := SlotOf(index, |ok|), Bump(index);
              && i < |ok|
              && Scan(ok, index, tries) == if i < 0 then OutOfRange(next) else if ok[i] then Found(i, next)
                                           else Scan(ok, next, tries - 1)
  {
  }

  /** One call: every slot probed at most once. */
  function Choose(ok: seq<bool>, index: nat): (p: Pick)
    requires index < FULL
    ensures p.index < FULL
    ensures p.Found? ==> p.slot < |ok| && ok[p.slot]
  {
    Scan(ok, index, |ok|)
  }

  lemma ChooseIs(ok: seq<bool>, index: nat)
    requires index < FULL
    ensures Choose(ok, index) == Scan(ok, index, |ok|)
  {
  }

  // ---- Fairness ----

  /** The slots that consecutive calls return, up to the first that returns none. */
  function Calls(ok: seq<bool>, index: nat, k: nat): seq<nat>
    requires index < FULL
    decreases k
  {
    if k == 0 then []
    else
      var p := Choose(ok, index);
      if p.Found? then [p.slot] + Calls(ok, p.index, k - 1) else []
  }

  function Good(ok: seq<bool>): set<nat> {
    set i | 0 <= i < |ok| && ok[i]
  }

  /** The qualifying slots among the probes a, a + 1, ..., b - 1. */
  function Window(ok: seq<bool>, a: nat, b: nat): (w: seq<nat>)
    requires ok != []
    ensures forall i | i in w :: i < |ok| && ok[i]
    decreases b - a
  {
    if a >= b then [] else (if ok[a % |ok|] then [a % |ok|] else []) + Window(ok, a + 1, b)
  }

  lemma ScanStep(ok: seq<bool>, a: nat, tries: nat)
    requires ok != [] && a < HALF && tries > 0
    ensures Scan(ok, a, tries) == if ok[a % |ok|] then Found(a % |ok|, a + 1) else Scan(ok, a + 1, tries - 1)
  {
    assert Bump(a) == a + 1;
  }

  lemma WindowStep(ok: seq<bool>, a: nat, b: nat)
    requires ok != []
    ensures a >= b ==> Window(ok, a, b) == []
    ensures a < b && ok[a % |ok|] ==>
              && Window(ok, a, b) != [] && Window(ok, a, b)[0] == a % |ok|
              && Window(ok, a, b)[1..] == Window(ok, a + 1, b)
    ensures a < b && !ok[a % |ok|] ==> Window(ok, a, b) == Window(ok, a + 1, b)
  {
  }

  lemma {:induction false} ScanTakesHead(ok: seq<bool>, a: nat, b: nat, tries: nat)
    requires ok != [] && b <= HALF && b - a <= tries && Window(ok, a, b) != []
    ensures var p := Scan(ok, a, tries);
            && p.Found? && a < p.index <= b && p.slot == Window(ok, a, b)[0]
            && Window(ok, p.index, b) == Window(ok, a, b)[1..]
    decreases tries
  {
    hide *;
    WindowStep(ok, a, b);
    ScanStep(ok, a, tries);
    if !ok[a % |ok|] { ScanTakesHead(ok, a + 1, b, tries - 1); }
  }

  lemma {:induction false} CallsAreWindow(ok: seq<bool>, a: nat, b: nat)
    requires ok != [] && b <= HALF && b - a <= |ok| && a < FULL
    ensures Calls(ok, a, |Window(ok, a, b)|) == Window(ok, a, b)
    decreases |Window(ok, a, b)|
  {
    var w := Window(ok, a, b);
    if w != [] {
      ScanTakesHead(ok, a, b, |ok|);
      var p := Choose(ok, a);
      CallsAreWindow(ok, p.index, b);
      hide *;
      assert w == [w[0]] + w[1..];
      CallsStep(ok, a, |w|);
    }
  }

  lemma CallsStep(ok: seq<bool>, a: nat, k: nat)
    requires a < FULL && k > 0 && Choose(ok, a).Found?
    ensures Calls(ok, a, k) == [Choose(ok, a).slot] + Calls(ok, Choose(ok, a).index, k - 1)
  {
  }

  lemma Multiples(n: nat, x: int, y: int)
    ensures x < y ==> n * x + n <= n * y
  {
    if x < y {
      var d := y - x;
      assert n * y == n * x + n * d && n * d >= n;
    }
  }

  lemma ModOf(n: nat, q: nat, i: nat)
    requires i < n
    ensures (n * q + i) % n == i
  {
    var x := n * q + i;
    var d, r := x / n, x % n;
    assert x == n * d + r;
    hide *;
    Multiples(n, d, q);
    Multiples(n, q, d);
  }

  /** Within one round the same slot does not come up twice. */
  lemma OncePerRound(n: nat, a: nat, p: nat)
    requires a < p < a + n
    ensures a % n != p % n
  {
    var x, y := a / n, p / n;
    assert p == n * y + p % n && a == n * x + a % n;
    Multiples(n, x, y);
    Multiples(n, y, x);
  }

  lemma {:induction false} InWindow(ok: seq<bool>, a: nat, b: nat, p: nat)
    requires ok != [] && a <= p < b && ok[p % |ok|]
    ensures p % |ok| in Window(ok, a, b)
    decreases b - a
  {
    hide Window;
    WindowStep(ok, a, b);
    var w := Window(ok, a, b);
    if a < p { InWindow(ok, a + 1, b, p); }
    if ok[a % |ok|] { assert w == [w[0]] + w[1..]; }
  }

  lemma {:induction false} FromWindow(ok: seq<bool>, a: nat, b: nat, i: nat) returns (p: nat)
    requires ok != [] && i in Window(ok, a, b)
    ensures a <= p < b && p % |ok| == i
    decreases b - a
  {
    if a % |ok| == i && ok[i] { p := a; } else { p := FromWindow(ok, a + 1, b, i); }
  }

  predicate Distinct(w: seq<nat>) {
    forall i, j | 0 <= i < j < |w| :: w[i] != w[j]
  }

  lemma {:induction false} WindowDistinct(ok: seq<bool>, a: nat, b: nat)
    requires ok != [] && b - a <= |ok|
    ensures Distinct(Window(ok, a, b))
    decreases b - a
  {
    if a < b {
      WindowDistinct(ok, a + 1, b);
      var h, t := a % |ok|, Window(ok, a + 1, b);
      if h in t {
        var p := FromWindow(ok, a + 1, b, h);
        OncePerRound(|ok|, a, p);
      }
      var w := Window(ok, a, b);
      if ok[h] { assert w == [h] + t; }
    }
  }

  lemma RoundSeesSlot(n: nat, a: nat, i: nat) returns (p: nat)
    requires i < n
    ensures a <= p < a + n && p % n == i
  {
    var q, r := a / n, a % n;
    assert a == n * q + r;
    if i >= r {
      p := n * q + i;
      ModOf(n, q, i);
    } else {
      p := n * (q + 1) + i;
      ModOf(n, q + 1, i);
      assert n * (q + 1) == n * q + n;
    }
  }

  lemma {:induction false} DistinctSize(w: seq<nat>, s: set<nat>)
    requires Distinct(w) && forall i :: i in w <==> i in s
    ensures |w| == |s|
  {
    if w == [] {
      assert s == {};
    } else {
      var t := w[1..];
      assert w == [w[0]] + t && w[0] in s;
      forall i ensures i in t <==> i in s - {w[0]} {
        if i in t { assert i in w; }
      }
      DistinctSize(t, s - {w[0]});
    }
  }

  /** While the k qualifying slots stay the same, any k consecutive calls return each of them exactly once,
      from every counter value whose round stays in the signed range. */
  lemma RoundRobinIsFair(ok: seq<bool>, start: nat)
    requires start + |ok| <= HALF
    ensures var slots := Calls(ok, start, |Good(ok)|);
            |slots| == |Good(ok)| && Distinct(slots) && forall i :: i in slots <==> i in Good(ok)
  {
    if ok == [] {
      assert Good(ok) == {};
    } else {
      var w := Window(ok, start, start + |ok|);
      WindowDistinct(ok, start, start + |ok|);
      forall i ensures i in w <==> i in Good(ok) {
        if i in Good(ok) {
          var p := RoundSeesSlot(|ok|, start, i);
          InWindow(ok, start, start + |ok|, p);
        }
      }
      DistinctSize(w, Good(ok));
      CallsAreWindow(ok, start, start + |ok|);
    }
  }

  lemma {:induction false} EmptyWindow(ok: seq<bool>, a: nat, tries: nat)
    requires ok != [] && a + tries <= HALF && Window(ok, a, a + tries) == []
    ensures Scan(ok, a, tries) == NotFound(a + tries)
    decreases tries
  {
    if tries > 0 {
      WindowStep(ok, a, a + tries);
      ScanStep(ok, a, tries);
      hide *;
      EmptyWindow(ok, a + 1, tries - 1);
    }
  }

  /** A call comes back empty-handed only when no slot qualifies. */
  lemma FindsIfAny(ok: seq<bool>, start: nat)
    requires start + |ok| <= HALF
    ensures Choose(ok, start).Found? <==> Good(ok) != {}
    ensures !Choose(ok, start).OutOfRange?
  {
    if ok != [] {
      var w := Window(ok, start, start + |ok|);
      forall i | i in Good(ok) ensures i in w {
        var p := RoundSeesSlot(|ok|, start, i);
        InWindow(ok, start, start + |ok|, p);
      }
      if w == [] {
        EmptyWindow(ok, start, |ok|);
      } else {
        ScanTakesHead(ok, start, start + |ok|, |ok|);
        assert w[0] in Good(ok);
      }
    } else {
      assert Good(ok) == {};
    }
  }

  /** The first counter value at or after `index` whose probe leaves the slice, when there are at least two slots:
      from 2^63 on the converted counter is negative, and only one that divides evenly still means slot 0. */
  function Edge(index: nat, n: nat): nat
    requires n >= 2 && index < FULL
  {
    if index < HALF then (if HALF % n == 0 then HALF + 1 else HALF)
    else if (FULL - index) % n == 0 then index + 1 else index
  }

  lemma NextNotMultiple(x: nat, n: nat)
    requires n >= 2 && x > 0 && x % n == 0
    ensures (x - 1) % n != 0 && x >= 2
  {
    var q := x / n;
    assert x == n * q;
    hide *;
    if (x - 1) % n == 0 {
      var r := (x - 1) / n;
      assert x - 1 == n * r;
      Multiples(n, r, q);
      Multiples(n, q, r);
    }
  }

  lemma EdgeIsFirst(index: nat, n: nat)
    requires n >= 2 && index < FULL
    ensures index <= Edge(index, n) < FULL && SlotOf(Edge(index, n), n) < 0
    ensures forall c | index <= c < Edge(index, n) :: 0 <= SlotOf(c, n) < n
  {
    if index < HALF {
      if HALF % n == 0 { NextNotMultiple(HALF, n); }
    } else if (FULL - index) % n == 0 {
      NextNotMultiple(FULL - index, n);
    }
  }

  lemma {:induction false} ScanToEdge(ok: seq<bool>, a: nat, b: nat, tries: nat)
    requires ok != [] && a <= b < FULL && SlotOf(b, |ok|) < 0
    requires forall c | a <= c < b :: 0 <= SlotOf(c, |ok|) < |ok|
    ensures Scan(ok, a, tries).OutOfRange? <==> b < a + tries && forall c | a <= c < b :: !ok[SlotOf(c, |ok|)]
    decreases b - a
  {
    hide Scan, SlotOf;
    ScanUnfold(ok, a, tries);
    if tries > 0 && a < b {
      BumpBelow(a);
      ScanToEdge(ok, a + 1, b, tries - 1);
    }
  }

  lemma BumpBelow(a: nat)
    requires a + 1 < FULL
    ensures Bump(a) == a + 1
  {
  }

  /** A call leaves the slice if and only if there are at least two slots and the probes reach the edge before a slot
      qualifies. */
  lemma LeavesSliceIff(ok: seq<bool>, index: nat)
    requires index < FULL
    ensures Choose(ok, index).OutOfRange? <==>
            && |ok| >= 2 && Edge(index, |ok|) < index + |ok|
            && forall c | index <= c < Edge(index, |ok|) :: !(0 <= SlotOf(c, |ok|) < |ok| && ok[SlotOf(c, |ok|)])
  {
    if |ok| >= 2 {
      EdgeIsFirst(index, |ok|);
      ScanToEdge(ok, index, Edge(index, |ok|), |ok|);
    } else if |ok| == 1 {
      ScanUnfold(ok, index, 1);
      ScanUnfold(ok, Bump(index), 0);
      OneSlot(index);
    }
  }

  lemma OneSlot(index: nat)
    requires index < FULL
    ensures SlotOf(index, 1) == 0
  {
  }

  // ---- The backend list ----

  datatype Cell = Cell(addr: string, healthy: bool, lsn: nat)

  /** The slots in order, which may share a backend, and what each backend holds. */
  datatype View<Id(==)> = View(order: seq<Id>, cells: map<Id, Cell>)

  predicate ValidView<Id>(v: View<Id>) {
    forall i | 0 <= i < |v.order| :: v.order[i] in v.cells
  }

  /** Which slots a read that needs position `min` may use; position 0 asks for nothing. */
  function Qualifying<Id>(v: View<Id>, min: nat): (ok: seq<bool>)
    requires ValidView(v)
    ensures |ok| == |v.order|
    ensures forall i | 0 <= i < |ok| :: ok[i] == (v.cells[v.order[i]].healthy && v.cells[v.order[i]].lsn >= min)
  {
    seq(|v.order|, i requires 0 <= i < |v.order| => v.cells[v.order[i]].healthy && v.cells[v.order[i]].lsn >= min)
  }

  /** The first slot with the address, or the number of slots. */
  function FirstAt<Id>(v: View<Id>, addr: string, from: nat): (i: nat)
    requires ValidView(v) && from <= |v.order|
    ensures from <= i <= |v.order| && (i < |v.order| ==> v.cells[v.order[i]].addr == addr)
    ensures forall j | from <= j < i :: v.cells[v.order[j]].addr != addr
    decreases |v.order| - from
  {
    if from == |v.order| || v.cells[v.order[from]].addr == addr then from else FirstAt(v, addr, from + 1)
  }

  function StoreLSN<Id>(v: View<Id>, addr: string, lsn: nat): View<Id>
    requires ValidView(v)
  {
    var i := FirstAt(v, addr, 0);
    if i == |v.order| then v else v.(cells := v.cells[v.order[i] := v.cells[v.order[i]].(lsn := lsn)])
  }

  function MarkDown<Id>(v: View<Id>, addr: string): View<Id>
    requires ValidView(v)
  {
    var i := FirstAt(v, addr, 0);
    if i == |v.order| then v else v.(cells := v.cells[v.order[i] := v.cells[v.order[i]].(healthy := false)])
  }

  /** UpdateBackends: a slot keeps the backend of its address with all it holds, if there was one; otherwise
      it gets a new, healthy backend at position 0. */
  ghost predicate Replaced<Id>(v: View<Id>, v': View<Id>, addrs: seq<string>)
    requires ValidView(v)
  {
    && ValidView(v') && |v'.order| == |addrs|
    && forall i | 0 <= i < |addrs| ::
         var id := v'.order[i];
         && v'.cells[id].addr == addrs[i]
         && if FirstAt(v, addrs[i], 0) < |v.order| then id in v.order && v'.cells[id] == v.cells[id]
            else id !in v.order && v'.cells[id] == Cell(addrs[i], true, 0)
  }

  /** One of the first n dials reached the backend. */
  predicate Answers<Id(==)>(order: seq<Id>, dials: seq<bool>, id: Id, n: nat)
    requires n <= |order| == |dials|
  {
    exists i | 0 <= i < n :: order[i] == id && dials[i]
  }

  lemma AnswersStep<Id>(order: seq<Id>, dials: seq<bool>, n: nat)
    requires n < |order| == |dials|
    ensures forall id ::
              Answers(order, dials, id, n + 1) <==> Answers(order, dials, id, n) || (order[n] == id && dials[n])
  {
  }

  // ---- One backend changes, and which ----

  /** The first backend with the address is down with its position, every other one is as it was. */
  lemma DownIsOne<Id>(v: View<Id>, addr: string, id: Id)
    requires ValidView(v) && id in v.cells
    ensures var v', i := MarkDown(v, addr), FirstAt(v, addr, 0);
            && v'.order == v.order && id in v'.cells
            && v'.cells[id] == if i < |v.order| && v.order[i] == id then v.cells[id].(healthy := false) else v.cells[id]
  {
  }

  /** The first backend with the address learns the position, every other one is as it was. */
  lemma LearnsIsOne<Id>(v: View<Id>, addr: string, lsn: nat, id: Id)
    requires ValidView(v) && id in v.cells
    ensures var v', i := StoreLSN(v, addr, lsn), FirstAt(v, addr, 0);
            && v'.order == v.order && id in v'.cells
            && v'.cells[id] == if i < |v.order| && v.order[i] == id then v.cells[id].(lsn := lsn) else v.cells[id]
  {
  }

  /** A backend that is down or behind is never chosen. */
  lemma ChosenQualifies<Id>(v: View<Id>, min: nat, index: nat)
    requires ValidView(v) && index < FULL
    ensures var p := Choose(Qualifying(v, min), index);
            p.Found? ==> && p.slot < |v.order|
                         && v.cells[v.order[p.slot]].healthy && v.cells[v.order[p.slot]].lsn >= min
  {
    hide Choose;
  }

  /** After MarkUnhealthy no call chooses the first backend with that address. */
  lemma DownIsNotChosen<Id>(v: View<Id>, addr: string, min: nat, index: nat)
    requires ValidView(v) && index < FULL
    ensures var i, p := FirstAt(v, addr, 0), Choose(Qualifying(MarkDown(v, addr), min), index);
            p.Found? && i < |v.order| ==> p.slot < |v.order| && v.order[p.slot] != v.order[i]
  {
    hide Choose;
    ChosenQualifies(MarkDown(v, addr), min, index);
  }

  class Backend {
    const addr: string
    var healthy: bool
    var replayLSN: nat

    constructor (addr: string)
      ensures this.addr == addr && healthy && replayLSN == 0
    {
      this.addr := addr;
      healthy, replayLSN := true, 0;
    }
  }

  class RoundRobin {
    var backends: seq<Backend>
    var index: nat

    ghost function Now(): (v: View<Backend>)
      reads this`backends, backends
      ensures ValidView(v)
    {
      View(backends, map b | b in backends :: Cell(b.addr, b.healthy, b.replayLSN))
    }

    constructor (addrs: seq<string>)
      ensures index == 0 && fresh(backends) && |backends| == |addrs|
      ensures forall i | 0 <= i < |addrs| ::
                backends[i].addr == addrs[i] && backends[i].healthy && backends[i].replayLSN == 0
    {
      backends, index := [], 0;
      new;
      for i := 0 to |addrs|
        invariant |backends| == i && fresh(backends) && index == 0
        invariant forall j | 0 <= j < i ::
                    backends[j].addr == addrs[j] && backends[j].healthy && backends[j].replayLSN == 0
      {
        var b := new Backend(addrs[i]);
        backends := backends + [b];
      }
    }

    /** One probe: the counter is taken and raised in one atomic step. */
    method Probe(min: nat) returns (pick: Option<Pick>)
      requires index < FULL && backends != []
      modifies this`index
      ensures index == Bump(old(index))
      ensures var ok, slot := Qualifying(Now(), min), SlotOf(old(index), |backends|);
              && slot < |ok|
              && pick == if slot < 0 then Some(OutOfRange(index)) else if ok[slot] then Some(Found(slot, index))
                         else None
    {
      var slot := SlotOf(index, |backends|);
      index := Bump(index);
      if slot < 0 { return Some(OutOfRange(index)); }
      var b := backends[slot];
      pick := if b.healthy && b.replayLSN >= min then Some(Found(slot, index)) else None;
    }

    /** Next when min is 0, NextWithLSN otherwise: the chosen slot, if any. */
    method NextWithLSN(min: nat) returns (pick: Pick)
      requires index < FULL
      modifies this`index
      ensures pick == Choose(Qualifying(Now(), min), old(index)) && index == pick.index
    {
      hide *;
      ghost var ok := Qualifying(Now(), min);
      NowIs();
      ChooseIs(ok, index);
      for i := 0 to |backends|
        invariant index < FULL && Scan(ok, index, |backends| - i) == Scan(ok, old(index), |backends|)
      {
        ScanUnfold(ok, index, |backends| - i);
        var p := Probe(min);
        if p.Some? { return p.value; }
      }
      ScanUnfold(ok, index, 0);
      pick := NotFound(index);
    }

    lemma NowIs()
      ensures Now().order == backends
    {
    }

    method Find(addr: string) returns (i: nat)
      ensures i == FirstAt(Now(), addr, 0)
    {
      i := 0;
      while i < |backends|
        invariant i <= |backends| && FirstAt(Now(), addr, 0) == FirstAt(Now(), addr, i)
      {
        if backends[i].addr == addr { return; }
        i := i + 1;
      }
    }

    method MarkUnhealthy(addr: string)
      modifies backends
      ensures Now() == MarkDown(old(Now()), addr)
    {
      var i := Find(addr);
      if i < |backends| { backends[i].healthy := false; }
    }

    method SetReplayLSN(addr: string, lsn: nat)
      modifies backends
      ensures Now() == StoreLSN(old(Now()), addr, lsn)
    {
      var i := Find(addr);
      if i < |backends| { backends[i].replayLSN := lsn; }
    }

    /** checkBackends: an unhealthy backend that answers a dial becomes healthy, and nothing else changes. */
    method CheckBackends(dials: seq<bool>)
      requires |dials| == |backends|
      modifies backends
      ensures backends == old(backends)
      ensures forall b | b in backends ::
                && b.replayLSN == old(b.replayLSN)
                && (b.healthy <==> old(b.healthy) || Answers(backends, dials, b, |dials|))
    {
      for i := 0 to |backends|
        invariant backends == old(backends)
        invariant forall b | b in backends ::
                    b.replayLSN == old(b.replayLSN) && (b.healthy <==> old(b.healthy) || Answers(backends, dials, b, i))
      {
        AnswersStep(backends, dials, i);
        if !backends[i].healthy {
          if dials[i] { backends[i].healthy := true; }
        }
      }
    }

    /** The map the update builds: the last backend of each address. */
    method Index() returns (existing: map<string, Backend>)
      ensures forall a | a in existing :: existing[a] in backends && existing[a].addr == a
      ensures forall b | b in backends :: b.addr in existing
    {
      existing := map[];
      for i := 0 to |backends|
        invariant forall a | a in existing :: existing[a] in backends && existing[a].addr == a
        invariant forall j | 0 <= j < i :: backends[j].addr in existing
      {
        existing := existing[backends[i].addr := backends[i]];
      }
    }

    /** UpdateBackends: slots whose address is known keep that very backend; the others get a new one. */
    method UpdateBackends(addrs: seq<string>)
      modifies this`backends
      ensures Replaced(old(Now()), Now(), addrs)
      ensures forall b | b in old(backends) :: b.healthy == old(b.healthy) && b.replayLSN == old(b.replayLSN)
    {
      var existing := Index();
      var list: seq<Backend> := [];
      for i := 0 to |addrs|
        invariant |list| == i && backends == old(backends)
        invariant forall b | b in old(backends) :: b.healthy == old(b.healthy) && b.replayLSN == old(b.replayLSN)
        invariant forall j | 0 <= j < i :: list[j].addr == addrs[j]
        invariant forall j | 0 <= j < i ::
                    if addrs[j] in existing then list[j] == existing[addrs[j]]
                    else fresh(list[j]) && list[j].healthy && list[j].replayLSN == 0
      {
        var b: Backend;
        if addrs[i] in existing { b := existing[addrs[i]]; } else { b := new Backend(addrs[i]); }
        list := list + [b];
      }
      ghost var v := Now();
      forall i | 0 <= i < |addrs| ensures addrs[i] in existing <==> FirstAt(v, addrs[i], 0) < |v.order| {
        var j := FirstAt(v, addrs[i], 0);
        if j < |v.order| { assert backends[j] in backends; }
        if addrs[i] in existing { KnownAddress(v, existing[addrs[i]]); }
      }
      backends := list;
    }
  }

  lemma KnownAddress<Id>(v: View<Id>, id: Id)
    requires ValidView(v) && id in v.order
    ensures FirstAt(v, v.cells[id].addr, 0) < |v.order|
  {
    var i :| 0 <= i < |v.order| && v.order[i] == id;
  }
}
