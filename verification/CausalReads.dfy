/** Causal reads as a protocol: a writer's log, replicas that replay it, the poller that reads a replica's
    position in one step and stores it in another, the balancer, and one session that writes, asks for the
    position of its write and reads. */
module CausalReads {
  import opened Balancer

  datatype Poll = Poll(addr: string, lsn: nat)

  /** `writes` are the positions of the session's writes; `asking` while the position of the last one is
      still to be asked for; `lastLSN` is what the session remembers. */
  datatype World = World(wal: nat, replayed: map<string, nat>, view: View<nat>, index: nat, polls: seq<Poll>,
                         writes: seq<nat>, asking: bool, lastLSN: nat)

  datatype Event =
    | OtherWrite(size: nat)
    | SessionWrite(size: nat)
    | AskLSN
    | AskFails
    | Replay(addr: string, to: nat)
    | PollReads(addr: string)
    | PollStores(i: nat)
    | Update(addrs: seq<string>, view: View<nat>)
    | Down(addr: string)
    | Up(id: nat)
    | Read

  function Replayed(w: World, addr: string): nat {
    if addr in w.replayed then w.replayed[addr] else 0
  }

  /** A write takes room in the log; a replica replays what is there and never goes back; the session does one
      thing at a time. */
  ghost predicate Enabled(w: World, e: Event)
    requires ValidView(w.view)
  {
    match e
    case OtherWrite(size) => size > 0
    case SessionWrite(size) => size > 0 && !w.asking
    case AskLSN => w.asking
    case AskFails => w.asking
    case Replay(addr, to) => Replayed(w, addr) <= to <= w.wal
    case PollReads(_) => true
    case PollStores(i) => i < |w.polls|
    case Update(addrs, view) => Replaced(w.view, view, addrs)
    case Down(_) => true
    case Up(id) => id in w.view.cells
    case Read => !w.asking
  }

  function ReadsFrom(w: World): Pick
    requires ValidView(w.view) && w.index < FULL
  {
    Choose(Qualifying(w.view, w.lastLSN), w.index)
  }

  function Apply(w: World, e: Event): World
    requires ValidView(w.view) && w.index < FULL && Enabled(w, e)
  {
    match e
    case OtherWrite(size) => w.(wal := w.wal + size)
    case SessionWrite(size) => w.(wal := w.wal + size, writes := w.writes + [w.wal + size], asking := true)
    case AskLSN => w.(asking := false, lastLSN := w.wal)
    case AskFails => w.(asking := false)
    case Replay(addr, to) => w.(replayed := w.replayed[addr := to])
    case PollReads(addr) => w.(polls := w.polls + [Poll(addr, Replayed(w, addr))])
    case PollStores(i) =>
      w.(view := StoreLSN(w.view, w.polls[i].addr, w.polls[i].lsn), polls := w.polls[..i] + w.polls[i + 1..])
    case Update(_, view) => w.(view := view)
    case Down(addr) => w.(view := MarkDown(w.view, addr))
    case Up(id) => w.(view := w.view.(cells := w.view.cells[id := w.view.cells[id].(healthy := true)]))
    case Read => w.(index := ReadsFrom(w).index)
  }

  predicate Ready(w: World) {
    ValidView(w.view) && w.index < FULL
  }

  lemma ApplyReady(w: World, e: Event)
    requires Ready(w) && Enabled(w, e)
    ensures Ready(Apply(w, e))
  {
  }

  ghost predicate ValidRun(w: World, events: seq<Event>)
    requires Ready(w)
    decreases |events|
  {
    events == [] || (Enabled(w, events[0]) && (ApplyReady(w, events[0]); ValidRun(Apply(w, events[0]), events[1..])))
  }

  ghost function Run(w: World, events: seq<Event>): (w': World)
    requires Ready(w) && ValidRun(w, events)
    ensures Ready(w')
    decreases |events|
  {
    if events == [] then w else ApplyReady(w, events[0]); Run(Apply(w, events[0]), events[1..])
  }

  /** Nothing polled yet, no writes by the session. */
  predicate Start(w: World) {
    && Ready(w) && w.polls == [] && w.writes == [] && !w.asking && w.lastLSN == 0
    && forall i | 0 <= i < |w.view.order| :: w.view.cells[w.view.order[i]].lsn == 0
  }

  /** What the balancer knows of a replica it has already replayed. */
  predicate KnowsPast(w: World)
    requires ValidView(w.view)
  {
    && (forall i | 0 <= i < |w.view.order| ::
          var c := w.view.cells[w.view.order[i]]; c.lsn <= Replayed(w, c.addr))
    && forall i | 0 <= i < |w.polls| :: w.polls[i].lsn <= Replayed(w, w.polls[i].addr)
  }

  lemma KnowsPastKept(w: World, e: Event)
    requires Ready(w) && KnowsPast(w) && Enabled(w, e)
    ensures KnowsPast(Apply(w, e))
  {
    match e
    case Update(addrs, view) =>
      forall i | 0 <= i < |view.order|
        ensures view.cells[view.order[i]].lsn <= Replayed(w, view.cells[view.order[i]].addr)
      {
        var id := view.order[i];
        if FirstAt(w.view, addrs[i], 0) < |w.view.order| {
          var j :| 0 <= j < |w.view.order| && w.view.order[j] == id;
        }
      }
    case _ =>
  }

  /** Positions are within the log. */
  predicate InLog(w: World) {
    (forall p | p in w.writes :: p <= w.wal) && w.lastLSN <= w.wal
  }

  predicate Remembers(w: World) {
    forall p | p in w.writes :: p <= w.lastLSN
  }

  /** The last position query that failed was followed by no successful one. */
  predicate Forgot(events: seq<Event>) {
    events != [] && (events[|events| - 1].AskFails?
                     || (!events[|events| - 1].AskLSN? && Forgot(events[..|events| - 1])))
  }

  lemma {:induction false} ForgotMeans(events: seq<Event>)
    ensures Forgot(events) <==>
            exists k :: FailsUnrepaired(events, k)
  {
    if events != [] {
      var last, init := |events| - 1, events[..|events| - 1];
      ForgotMeans(init);
      if Forgot(events) {
        if events[last].AskFails? {
          assert FailsUnrepaired(events, last);
        } else {
          var k :| FailsUnrepaired(init, k);
          assert FailsUnrepaired(events, k);
        }
      }
      forall k: nat | FailsUnrepaired(events, k) ensures Forgot(events) {
        if k < last { assert FailsUnrepaired(init, k); }
      }
    }
  }

  predicate FailsUnrepaired(events: seq<Event>, k: nat) {
    k < |events| && events[k].AskFails? && forall j | k < j < |events| :: !events[j].AskLSN?
  }

  lemma {:induction false} RunLast(w: World, events: seq<Event>)
    requires Ready(w) && events != [] && ValidRun(w, events)
    ensures ValidRun(w, events[..|events| - 1])
    ensures var w' := Run(w, events[..|events| - 1]);
            Enabled(w', events[|events| - 1]) && Run(w, events) == Apply(w', events[|events| - 1])
    decreases |events|
  {
    hide Apply, Enabled;
    var init := events[..|events| - 1];
    ApplyReady(w, events[0]);
    if |events| > 1 {
      RunLast(Apply(w, events[0]), events[1..]);
      assert init[1..] == events[1..][..|events| - 2] && init[0] == events[0];
    } else {
      assert events[1..] == [] && init == [];
    }
  }

  lemma {:induction false} RunKeepsPast(w: World, events: seq<Event>)
    requires Ready(w) && ValidRun(w, events) && KnowsPast(w)
    ensures KnowsPast(Run(w, events))
    decreases |events|
  {
    hide KnowsPast, Apply;
    if events != [] {
      ApplyReady(w, events[0]);
      KnowsPastKept(w, events[0]);
      RunKeepsPast(Apply(w, events[0]), events[1..]);
    }
  }

  /** What the session remembers, exactly: between its operations it covers all its writes unless the last failed
      position query was not made good. */
  predicate Accounted(w: World, forgot: bool) {
    && InLog(w)
    && (if w.asking then exists p :: p in w.writes && p > w.lastLSN else forgot <==> !Remembers(w))
    && (forgot ==> exists p :: p in w.writes && p > w.lastLSN)
  }

  lemma AccountedStep(w: World, e: Event, forgot: bool)
    requires Ready(w) && Enabled(w, e) && Accounted(w, forgot)
    ensures Accounted(Apply(w, e), e.AskFails? || (!e.AskLSN? && forgot))
  {
    var w' := Apply(w, e);
    match e
    case SessionWrite(size) =>
      assert w.wal + size in w'.writes;
      forall p | p in w.writes ensures p in w'.writes {}
    case _ =>
  }

  lemma {:induction false} AccountedRun(start: World, events: seq<Event>)
    requires Start(start) && ValidRun(start, events)
    ensures Accounted(Run(start, events), Forgot(events))
    decreases |events|
  {
    hide Accounted, Apply;
    if events == [] {
      NothingWritten(start);
    } else {
      RunLast(start, events);
      var init := events[..|events| - 1];
      AccountedRun(start, init);
      AccountedStep(Run(start, init), events[|events| - 1], Forgot(init));
    }
  }

  lemma NothingWritten(start: World)
    requires Start(start)
    ensures Accounted(start, false)
  {
  }

  /** A read of the session now, if it goes to a replica, goes to one that has replayed every write of the
      session. */
  predicate ReadIsSafe(w: World)
    requires Ready(w)
  {
    ReadsFrom(w).Found? ==>
      var addr := w.view.cells[w.view.order[ReadsFrom(w).slot]].addr;
      forall p | p in w.writes :: p <= Replayed(w, addr)
  }

  lemma RememberedIsSafe(w: World)
    requires Ready(w) && KnowsPast(w) && Remembers(w)
    ensures ReadIsSafe(w)
  {
    if ReadsFrom(w).Found? {
      var c := w.view.cells[w.view.order[ReadsFrom(w).slot]];
      assert c.lsn >= w.lastLSN;
    }
  }

  /** Causal reads: in every run in which the last failed position query, if any, was followed by a successful one,
      a read sent to a replica goes to one that has already replayed every earlier write of the session. */
  lemma ReadsSeeWrites(start: World, events: seq<Event>)
    requires Start(start) && ValidRun(start, events) && !Run(start, events).asking && !Forgot(events)
    ensures ReadIsSafe(Run(start, events))
  {
    AccountedRun(start, events);
    RunKeepsPast(start, events);
    RememberedIsSafe(Run(start, events));
  }

  /** A read goes elsewhere only if no replica is healthy and known to be far enough. */
  lemma ReadsReplicaIfAny(w: World)
    requires Ready(w) && w.index + |w.view.order| <= HALF
    ensures ReadsFrom(w).Found? <==>
            exists i | 0 <= i < |w.view.order| ::
              w.view.cells[w.view.order[i]].healthy && w.view.cells[w.view.order[i]].lsn >= w.lastLSN
  {
    var ok := Qualifying(w.view, w.lastLSN);
    FindsIfAny(ok, w.index);
    if Good(ok) != {} {
      var i :| i in Good(ok);
    }
    forall i | 0 <= i < |ok| && ok[i] ensures i in Good(ok) {}
  }

  // ---- A forgotten write can be missed ----

  /** Steps in which the session takes no part. */
  predicate Quiet(events: seq<Event>) {
    forall e | e in events :: !e.SessionWrite? && !e.AskLSN? && !e.AskFails? && !e.Read?
  }

  lemma FreshAddress(taken: set<string>) returns (addr: string)
    ensures addr !in taken && forall a | a in taken :: |a| < |addr|
  {
    if taken == {} {
      addr := "r";
    } else {
      var a :| a in taken;
      var b := FreshAddress(taken - {a});
      addr := if |a| < |b| then b else a + "r";
      assert forall x | x in taken :: x == a || x in taken - {a};
    }
  }

  lemma FreshId(taken: seq<nat>) returns (id: nat)
    ensures forall i | i in taken :: i < id
  {
    if taken == [] {
      id := 0;
    } else {
      var rest := FreshId(taken[1..]);
      id := if taken[0] < rest then rest else taken[0] + 1;
      assert forall i | i in taken :: i == taken[0] || i in taken[1..];
    }
  }

  lemma {:induction false} QuietKeeps(w: World, events: seq<Event>)
    requires Ready(w) && ValidRun(w, events) && Quiet(events)
    ensures var w' := Run(w, events); w'.writes == w.writes && w'.lastLSN == w.lastLSN && w'.asking == w.asking
    decreases |events|
  {
    if events != [] {
      assert events[0] in events;
      ApplyReady(w, events[0]);
      QuietKeeps(Apply(w, events[0]), events[1..]);
    }
  }

  /** A new reader that has replayed just as far as the session remembers. */
  function Newcomer(w: World, addr: string, id: nat): seq<Event> {
    [Replay(addr, w.lastLSN), PollReads(addr), Update([addr], View([id], map[id := Cell(addr, true, 0)])),
     PollStores(|w.polls|)]
  }

  function Joined(w: World, addr: string, id: nat): World {
    w.(replayed := w.replayed[addr := w.lastLSN], view := View([id], map[id := Cell(addr, true, w.lastLSN)]))
  }

  predicate IsNew(w: World, addr: string, id: nat)
    requires ValidView(w.view)
  {
    && addr !in w.replayed && id !in w.view.order
    && forall i | 0 <= i < |w.view.order| :: w.view.cells[w.view.order[i]].addr != addr
  }

  lemma NewcomerJoins(w: World, addr: string, id: nat)
    requires Ready(w) && InLog(w) && IsNew(w, addr, id)
    ensures ValidRun(w, Newcomer(w, addr, id)) && Run(w, Newcomer(w, addr, id)) == Joined(w, addr, id)
  {
    var es := Newcomer(w, addr, id);
    var v := View([id], map[id := Cell(addr, true, 0)]);
    var w1 := w.(replayed := w.replayed[addr := w.lastLSN]);
    var w2 := w1.(polls := w.polls + [Poll(addr, w.lastLSN)]);
    var w3 := w2.(view := v);
    assert Apply(w, es[0]) == w1 && Apply(w1, es[1]) == w2;
    assert Replaced(w.view, v, [addr]);
    assert Apply(w2, es[2]) == w3;
    StoreOnly(v, id, addr, w.lastLSN);
    assert w3.polls[..|w.polls|] + w3.polls[|w.polls| + 1..] == w.polls;
    assert Apply(w3, es[3]) == Joined(w, addr, id);
    hide Apply, Enabled, Replaced;
    FourSteps(w, w1, w2, w3, Joined(w, addr, id), es);
  }

  lemma StoreOnly(v: View<nat>, id: nat, addr: string, lsn: nat)
    requires v == View([id], map[id := Cell(addr, true, 0)])
    ensures StoreLSN(v, addr, lsn) == View([id], map[id := Cell(addr, true, lsn)])
  {
  }

  lemma OneStep(w: World, e: Event, es: seq<Event>)
    requires Ready(w) && Enabled(w, e) && Ready(Apply(w, e)) && ValidRun(Apply(w, e), es)
    ensures ValidRun(w, [e] + es) && Run(w, [e] + es) == Run(Apply(w, e), es)
  {
    hide Apply, Enabled;
    assert ([e] + es)[1..] == es;
  }

  lemma FourSteps(w: World, w1: World, w2: World, w3: World, w4: World, es: seq<Event>)
    requires |es| == 4 && Ready(w) && Ready(w1) && Ready(w2) && Ready(w3) && Ready(w4)
    requires Enabled(w, es[0]) && Apply(w, es[0]) == w1 && Enabled(w1, es[1]) && Apply(w1, es[1]) == w2
    requires Enabled(w2, es[2]) && Apply(w2, es[2]) == w3 && Enabled(w3, es[3]) && Apply(w3, es[3]) == w4
    ensures ValidRun(w, es) && Run(w, es) == w4
  {
    hide Apply, Enabled;
    assert ValidRun(w4, []) && Run(w4, []) == w4;
    OneStep(w3, es[3], []);
    OneStep(w2, es[2], [es[3]] + []);
    OneStep(w1, es[1], [es[2]] + ([es[3]] + []));
    OneStep(w, es[0], [es[1]] + ([es[2]] + ([es[3]] + [])));
    assert es == [es[0]] + ([es[1]] + ([es[2]] + ([es[3]] + [])));
  }

  lemma NewcomerIsRead(w: World, addr: string, id: nat, p: nat)
    requires Ready(w) && p in w.writes && p > w.lastLSN
    ensures Ready(Joined(w, addr, id)) && !ReadIsSafe(Joined(w, addr, id))
  {
    var w' := Joined(w, addr, id);
    var ok := Qualifying(w'.view, w'.lastLSN);
    assert ok == [true] && SlotOf(w.index, 1) == 0;
    assert ReadsFrom(w').Found? && ReadsFrom(w').slot == 0;
  }

  /** The exact condition: from the end of a run, between operations of the session, every read stays safe whatever
      the rest of the system does, if and only if the last failed position query was made good. */
  lemma SafeIffNotForgotten(start: World, events: seq<Event>)
    requires Start(start) && ValidRun(start, events) && !Run(start, events).asking
    ensures var w := Run(start, events);
            !Forgot(events) <==>
            forall more: seq<Event> | ValidRun(w, more) && Quiet(more) :: ReadIsSafe(Run(w, more))
  {
    var w := Run(start, events);
    AccountedRun(start, events);
    RunKeepsPast(start, events);
    if Forgot(events) {
      var p :| p in w.writes && p > w.lastLSN;
      var addr := FreshAddress(w.replayed.Keys + set i | 0 <= i < |w.view.order| :: w.view.cells[w.view.order[i]].addr);
      var id := FreshId(w.view.order);
      NewcomerJoins(w, addr, id);
      NewcomerIsRead(w, addr, id, p);
      assert Quiet(Newcomer(w, addr, id));
    } else {
      forall more: seq<Event> | ValidRun(w, more) && Quiet(more) ensures ReadIsSafe(Run(w, more)) {
        QuietKeeps(w, more);
        RunKeepsPast(w, more);
        RememberedIsSafe(Run(w, more));
      }
    }
  }

  // ---- A replica that is down ----

  predicate StaysDown(e: Event, id: nat) {
    e != Up(id) && !e.Update?
  }

  lemma DownStep(w: World, e: Event, id: nat)
    requires Ready(w) && Enabled(w, e) && StaysDown(e, id) && id in w.view.cells && !w.view.cells[id].healthy
    ensures id in Apply(w, e).view.cells && !Apply(w, e).view.cells[id].healthy
  {
  }

  lemma {:induction false} DownRun(w: World, events: seq<Event>, id: nat)
    requires Ready(w) && ValidRun(w, events) && id in w.view.cells && !w.view.cells[id].healthy
    requires forall e | e in events :: StaysDown(e, id)
    ensures id in Run(w, events).view.cells && !Run(w, events).view.cells[id].healthy
    decreases |events|
  {
    hide Enabled, Apply, StaysDown;
    if events != [] {
      ApplyReady(w, events[0]);
      assert events[0] in events && forall e | e in events[1..] :: e in events;
      DownStep(w, events[0], id);
      DownRun(Apply(w, events[0]), events[1..], id);
    }
  }

  /** A replica marked down is not read from before it is up again or the backends are updated. */
  lemma DownIsNotRead(w: World, addr: string, events: seq<Event>)
    requires Ready(w) && FirstAt(w.view, addr, 0) < |w.view.order|
    requires ValidRun(Apply(w, Down(addr)), events)
    requires forall e | e in events :: StaysDown(e, w.view.order[FirstAt(w.view, addr, 0)])
    ensures var end := Run(Apply(w, Down(addr)), events);
            ReadsFrom(end).Found? ==>
              ReadsFrom(end).slot < |end.view.order|
              && end.view.order[ReadsFrom(end).slot] != w.view.order[FirstAt(w.view, addr, 0)]
  {
    hide Choose;
    var id := w.view.order[FirstAt(w.view, addr, 0)];
    DownIsOne(w.view, addr, id);
    DownRun(Apply(w, Down(addr)), events, id);
    var end := Run(Apply(w, Down(addr)), events);
    ChosenQualifies(end.view, end.lastLSN, end.index);
  }
}
