/** The state of a session at any turn, read off the messages taken up before it (internal/proxy/query.go): the marks
    and the route of the batch, the prepared statements, the pin, the transaction flag and the bound writer. */
module Batches {
  import opened Options
  import opened Ownership
  import opened Turns
  import Router
  import Classifier
  import RoutingLaws
  import TransactionText

  lemma Step(p: Router.Policy, heads: seq<Head>, log: seq<Event>, k: nat)
    requires Story(p, heads, log) && k + 1 < |heads|
    ensures var h := heads[k]; heads[k + 1].state == if h.taken then After(p, h.state, h.msg) else h.state
  {
    hide HeadOk, After, ReaderFollows, First;
    assert Chained(p, heads[k], heads[k + 1], log);
  }

  lemma Begins(p: Router.Policy, heads: seq<Head>, log: seq<Event>)
    requires Story(p, heads, log) && heads != []
    ensures FreshState(heads[0].state)
  {
    hide HeadOk, Chained, FreshState;
  }

  // ---- The marks of a batch ----

  datatype Mark = Opening | Closing | Blocking | Executing

  predicate Carries(mark: Mark, s: State) {
    match mark
    case Opening => s.starts
    case Closing => s.ends
    case Blocking => s.blocked
    case Executing => s.executes
  }

  predicate Sets(mark: Mark, m: Message) {
    match mark
    case Opening => m.Parse? && Router.TxPrefix(m.text) == Router.Opens
    case Closing => m.Parse? && Router.TxPrefix(m.text) == Router.Closes
    case Blocking => m.Parse? && m.guard.Block?
    case Executing => m.Execute?
  }

  /** The message of turn j sets the mark, was taken up, and no Sync came since. */
  predicate SetSince(heads: seq<Head>, mark: Mark, j: nat, k: nat) {
    && j < k <= |heads| && heads[j].taken && Sets(mark, heads[j].msg)
    && forall l | j < l < k :: !SyncsAt(heads[l])
  }

  lemma MarkStep(p: Router.Policy, s: State, m: Message, mark: Mark)
    ensures Carries(mark, After(p, s, m)) <==> !m.Sync? && (Carries(mark, s) || Sets(mark, m))
  {
    hide Router.TxPrefix, Router.RouteQuery, Router.RouteStatement;
  }

  lemma FreshUnmarked(s: State, mark: Mark)
    requires FreshState(s)
    ensures !Carries(mark, s)
  {
  }

  lemma SetsNoSync(h: Head, mark: Mark)
    requires Sets(mark, h.msg)
    ensures !SyncsAt(h)
  {
    hide Router.TxPrefix;
  }

  /** A batch carries a mark if and only if a message that sets it was taken up since the last Sync. */
  lemma {:induction false} MarkMeans(p: Router.Policy, heads: seq<Head>, log: seq<Event>, mark: Mark, k: nat)
    requires Story(p, heads, log) && k < |heads|
    ensures Carries(mark, heads[k].state) <==> exists j: nat :: SetSince(heads, mark, j, k)
  {
    hide Story, Carries, Sets, After;
    if k == 0 {
      Begins(p, heads, log);
      FreshUnmarked(heads[0].state, mark);
    } else {
      var i := k - 1;
      var h := heads[i];
      MarkMeans(p, heads, log, mark, i);
      Step(p, heads, log, i);
      MarkStep(p, h.state, h.msg, mark);
      if Sets(mark, h.msg) { SetsNoSync(h, mark); }
      if h.taken && Sets(mark, h.msg) { assert SetSince(heads, mark, i, k); }
      if !SyncsAt(h) && Carries(mark, h.state) {
        var j: nat :| SetSince(heads, mark, j, i);
        assert SetSince(heads, mark, j, k);
      }
      forall j: nat | SetSince(heads, mark, j, k) ensures Carries(mark, heads[k].state) {
        if j < i { assert SetSince(heads, mark, j, i); }
      }
    }
  }

  // ---- The pin ----

  /** The guard pins the session on this message. */
  predicate PinsAt(h: Head) {
    h.taken && ((h.msg.Query? && h.msg.guard.Pin?) || (h.msg.Parse? && h.msg.guard.Pin? && !h.state.blocked))
  }

  lemma PinStep(p: Router.Policy, s: State, m: Message)
    ensures After(p, s, m).pinned <==>
            || s.pinned || (m.Query? && m.guard.Pin?) || (m.Parse? && m.guard.Pin? && !s.blocked)
  {
    hide Router.TxPrefix, Router.RouteQuery, Router.RouteStatement;
    if m.Query? {
      Router.TransactionForcesWriter(p, Tracked(s).(pinned := s.pinned || m.guard.Pin?), m.text, m.parsed, m.time);
    }
  }

  /** A session is pinned if and only if it was from the start or a message taken up pinned it. */
  lemma {:induction false} PinMeans(p: Router.Policy, heads: seq<Head>, log: seq<Event>, k: nat)
    requires Story(p, heads, log) && k < |heads|
    ensures heads[k].state.pinned <==> heads[0].state.pinned || exists j | 0 <= j < k :: PinsAt(heads[j])
  {
    hide Story, After;
    if k > 0 {
      var i := k - 1;
      PinMeans(p, heads, log, i);
      Step(p, heads, log, i);
      PinStep(p, heads[i].state, heads[i].msg);
    }
  }

  // ---- Prepared statements ----

  /** Where the statement of this name goes, by the last Parse or Close of the name taken up before turn k. */
  function Registered(p: Router.Policy, heads: seq<Head>, name: string, k: nat): Option<Router.Route>
    requires k < |heads|
  {
    if k == 0 then Held(heads[0].state, name)
    else
      var h := heads[k - 1];
      if h.taken && h.msg.Parse? && h.msg.name == name
      then Some(Router.RouteStatement(p, Tracked(h.state), h.msg.text, h.msg.parsed, h.msg.time))
      else if h.taken && h.msg.Close? && h.msg.name == name then None
      else Registered(p, heads, name, k - 1)
  }

  function Held(s: State, name: string): Option<Router.Route> {
    if name in s.stmts then Some(s.stmts[name]) else None
  }

  lemma HeldStep(p: Router.Policy, s: State, m: Message, name: string)
    ensures Held(After(p, s, m), name) ==
            if m.Parse? && m.name == name
            then Some(Router.RouteStatement(p, Tracked(s), m.text, m.parsed, m.time))
            else if m.Close? && m.name == name then None
            else Held(s, name)
  {
    hide Router.TxPrefix, Router.RouteQuery, Router.RouteStatement;
  }

  lemma {:induction false} StatementMeans(p: Router.Policy, heads: seq<Head>, log: seq<Event>, name: string, k: nat)
    requires Story(p, heads, log) && k < |heads|
    ensures Held(heads[k].state, name) == Registered(p, heads, name, k)
  {
    hide Story, After, Held, Router.RouteStatement;
    if k > 0 {
      StatementMeans(p, heads, log, name, k - 1);
      Step(p, heads, log, k - 1);
      HeldStep(p, heads[k - 1].state, heads[k - 1].msg, name);
    }
  }

  // ---- The route of a batch ----

  /** A Parse that leaves the batch on the reader's side. */
  predicate ParsesToReader(p: Router.Policy, h: Head) {
    && h.msg.Parse? && !h.state.inTx && !h.state.bound && !h.state.pinned
    && !(h.msg.guard.Pin? && !h.state.blocked)
    && Router.RouteStatement(p, Tracked(h.state), h.msg.text, h.msg.parsed, h.msg.time) == Router.Reader
  }

  /** Turn j puts the batch on the reader's side, a Sync by starting anew, and every Bind since names a statement
      registered for the reader. */
  predicate ReaderSince(p: Router.Policy, heads: seq<Head>, j: nat, k: nat) {
    && j < k < |heads| && heads[j].taken && (heads[j].msg.Sync? || ParsesToReader(p, heads[j]))
    && forall l | j < l < k && heads[l].taken :: StaysToReader(p, heads, l)
  }

  predicate StaysToReader(p: Router.Policy, heads: seq<Head>, l: nat)
    requires l < |heads|
  {
    var m := heads[l].msg;
    !m.Sync? && !m.Parse? && (m.Bind? ==> Registered(p, heads, m.name, l) == Some(Router.Reader))
  }

  lemma ParseRoute(p: Router.Policy, h: Head)
    requires h.msg.Parse?
    ensures After(p, h.state, h.msg).route.Reader? <==> ParsesToReader(p, h)
  {
    hide AfterParse, Router.TxPrefix, Router.RouteStatement;
    ParseIs(p, h.state, h.msg);
  }

  lemma OtherRoute(p: Router.Policy, s: State, m: Message)
    requires !m.Parse? && !m.Query?
    ensures After(p, s, m).route.Reader? <==>
            m.Sync? || (s.route.Reader? && (m.Bind? ==> Held(s, m.name) == Some(Router.Reader)))
  {
    hide ToReader, InTxAfterBatch, BoundAfterBatch;
  }

  lemma RouteStep(p: Router.Policy, h: Head)
    ensures After(p, h.state, h.msg).route.Reader? <==>
            || h.msg.Sync? || ParsesToReader(p, h)
            || (!h.msg.Parse? && h.state.route.Reader?
                && (h.msg.Bind? ==> Held(h.state, h.msg.name) == Some(Router.Reader)))
  {
    hide After, AfterQuery, Routing, ParsesToReader, Held;
    ParseIsParse(p, h);
    if h.msg.Parse? {
      ParseRoute(p, h);
    } else if h.msg.Query? {
      QueryIs(p, h.state, h.msg);
    } else {
      OtherRoute(p, h.state, h.msg);
    }
  }

  lemma NoReaderYet(p: Router.Policy, heads: seq<Head>, j: nat)
    ensures !ReaderSince(p, heads, j, 0)
  {
  }

  lemma ReaderLater(p: Router.Policy, heads: seq<Head>, j: nat, i: nat)
    requires i + 1 < |heads| && j < i
    ensures ReaderSince(p, heads, j, i + 1) <==>
            ReaderSince(p, heads, j, i) && (heads[i].taken ==> StaysToReader(p, heads, i))
  {
    hide StaysToReader, ParsesToReader;
  }

  lemma ReaderNow(p: Router.Policy, heads: seq<Head>, i: nat)
    requires i + 1 < |heads|
    ensures ReaderSince(p, heads, i, i + 1) <==>
            heads[i].taken && (heads[i].msg.Sync? || ParsesToReader(p, heads[i]))
  {
  }

  /** A batch is routed to a reader if and only if its last Parse, or the Sync before it, put it there and every Bind
      since names a statement registered for the reader. */
  lemma {:induction false} RouteMeans(p: Router.Policy, heads: seq<Head>, log: seq<Event>, k: nat)
    requires Story(p, heads, log) && k < |heads|
    ensures heads[k].state.route.Reader? <==> exists j: nat :: ReaderSince(p, heads, j, k)
  {
    hide Story, After, ParsesToReader, ReaderSince, Registered;
    if k == 0 {
      Begins(p, heads, log);
      forall j: nat ensures !ReaderSince(p, heads, j, k) { NoReaderYet(p, heads, j); }
    } else {
      var i := k - 1;
      var h := heads[i];
      RouteMeans(p, heads, log, i);
      Step(p, heads, log, i);
      RouteStep(p, h);
      if h.msg.Bind? { StatementMeans(p, heads, log, h.msg.name, i); }
      ReaderNow(p, heads, i);
      forall j: nat | j < i
        ensures ReaderSince(p, heads, j, k) <==>
                ReaderSince(p, heads, j, i) && (h.taken ==> StaysToReader(p, heads, i))
      {
        ReaderLater(p, heads, j, i);
      }
      forall j: nat ensures ReaderSince(p, heads, j, k) ==> j < k { ReaderBefore(p, heads, j, k); }
      forall j: nat ensures ReaderSince(p, heads, j, i) ==> j < i { ReaderBefore(p, heads, j, i); }
      ParseIsParse(p, h);
    }
  }

  lemma ReaderBefore(p: Router.Policy, heads: seq<Head>, j: nat, k: nat)
    ensures ReaderSince(p, heads, j, k) ==> j < k
  {
  }

  lemma ParseIsParse(p: Router.Policy, h: Head)
    ensures ParsesToReader(p, h) ==> h.msg.Parse?
  {
    hide Router.RouteStatement;
  }

  /** A Bind of a statement that went to the writer, was closed or was never parsed keeps its batch off the reader. */
  lemma BindGoesToWriter(p: Router.Policy, heads: seq<Head>, log: seq<Event>, b: nat, k: nat)
    requires Story(p, heads, log) && b < k < |heads| && heads[b].taken && heads[b].msg.Bind?
    requires forall l | b < l < k && heads[l].taken :: !heads[l].msg.Parse? && !heads[l].msg.Sync?
    requires Registered(p, heads, heads[b].msg.name, b) != Some(Router.Reader)
    ensures !ToReader(heads[k].state)
  {
    hide Story, ParsesToReader, Registered;
    RouteMeans(p, heads, log, k);
    assert !StaysToReader(p, heads, b);
    forall j: nat ensures !ReaderSince(p, heads, j, k) {
      if j < |heads| { ParseIsParse(p, heads[j]); }
    }
  }

  // ---- The transaction flag and the bound writer ----

  lemma InTxIsBound(p: Router.Policy, heads: seq<Head>, log: seq<Event>, k: nat)
    requires Story(p, heads, log) && k < |heads|
    ensures heads[k].state.inTx ==> heads[k].state.bound
  {
    hide Served, ReaderServed, Chained, First, Replay;
    assert heads[k] in heads && HeadOk(p, heads[k], log);
  }

  lemma SyncStep(p: Router.Policy, s: State)
    requires !s.blocked && !ToReader(s) && (s.inTx ==> s.bound)
    ensures var s' := After(p, s, Sync);
            && (s'.inTx <==> !Carries(Closing, s) && (s.inTx || Carries(Opening, s)))
            && (s'.bound <==> if Carries(Closing, s) then s.bound && s.pinned
                              else s'.inTx || s.pinned || !Carries(Executing, s))
  {
  }

  /** After a batch on the writer path a transaction is open if and only if no Parse of the batch closed it and one
      opened it or it was open; a writer stays bound for a transaction, a pin or a batch that executed nothing, and
      after a closing batch only if it was bound and the session is pinned. */
  lemma BatchMeans(p: Router.Policy, heads: seq<Head>, log: seq<Event>, k: nat)
    requires Story(p, heads, log) && k + 1 < |heads| && SyncsAt(heads[k])
    requires !heads[k].state.blocked && !ToReader(heads[k].state)
    ensures var s, s' := heads[k].state, heads[k + 1].state;
            && (s'.inTx <==> && !(exists j: nat :: SetSince(heads, Closing, j, k))
                             && (s.inTx || exists j: nat :: SetSince(heads, Opening, j, k)))
            && (s'.bound <==> if exists j: nat :: SetSince(heads, Closing, j, k) then s.bound && s.pinned
                              else s'.inTx || s.pinned || !(exists j: nat :: SetSince(heads, Executing, j, k)))
  {
    hide Story, After, Carries, SetSince, ToReader;
    MarkMeans(p, heads, log, Closing, k);
    MarkMeans(p, heads, log, Opening, k);
    MarkMeans(p, heads, log, Executing, k);
    InTxIsBound(p, heads, log, k);
    Step(p, heads, log, k);
    SyncStep(p, heads[k].state);
  }

  lemma QueryStep(p: Router.Policy, s: State, m: Message)
    requires m.Query? && !m.guard.Block? && (s.inTx ==> s.bound)
    ensures var s' := After(p, s, m);
            && s'.inTx == TransactionText.NewFlag(m.text, s.inTx)
            && (s'.bound <==> s'.inTx || s'.pinned || (s.bound && !s.inTx))
  {
    hide Router.RouteQuery, TransactionText.NewFlag;
    var t := Tracked(s).(pinned := s.pinned || m.guard.Pin?);
    TransactionText.RouteFlag(p, t, m.text, m.parsed, m.time);
    Router.TransactionForcesWriter(p, t, m.text, m.parsed, m.time);
  }

  /** After a simple query the flag is the one its text leaves, and a writer is bound for a transaction or a pin, or
      because a batch left one bound outside a transaction. */
  lemma QueryMeans(p: Router.Policy, heads: seq<Head>, log: seq<Event>, k: nat)
    requires Story(p, heads, log) && k + 1 < |heads| && heads[k].taken
    requires heads[k].msg.Query? && !heads[k].msg.guard.Block?
    ensures var s, s' := heads[k].state, heads[k + 1].state;
            && s'.inTx == TransactionText.NewFlag(heads[k].msg.text, s.inTx)
            && (s'.bound <==> s'.inTx || s'.pinned || (s.bound && !s.inTx))
  {
    hide Story, After, TransactionText.NewFlag;
    InTxIsBound(p, heads, log, k);
    Step(p, heads, log, k);
    QueryStep(p, heads[k].state, heads[k].msg);
  }

  /** The turns that may move the flag, the bound writer or the remembered write. */
  predicate Moves(h: Head) {
    h.taken && ((h.msg.Query? && !h.msg.guard.Block?) || (h.msg.Sync? && !h.state.blocked && !ToReader(h.state)))
  }

  lemma KeepSync(p: Router.Policy, s: State)
    requires s.blocked || ToReader(s)
    ensures var s' := After(p, s, Sync); s'.inTx == s.inTx && s'.bound == s.bound && s'.lastWrite == s.lastWrite
  {
    hide ToReader, InTxAfterBatch, BoundAfterBatch;
  }

  lemma KeepBuffered(p: Router.Policy, s: State, m: Message)
    requires !m.Query? && !m.Sync?
    ensures var s' := After(p, s, m); s'.inTx == s.inTx && s'.bound == s.bound && s'.lastWrite == s.lastWrite
  {
    hide After, AfterParse;
    BufferIs(p, s, m);
    AfterTerminate(p, s);
    if m.Parse? { ParseIs(p, s, m); }
  }

  lemma AfterTerminate(p: Router.Policy, s: State)
    ensures After(p, s, Terminate) == s
  {
  }

  lemma KeepStep(p: Router.Policy, h: Head)
    requires h.taken && !Moves(h)
    ensures var s := After(p, h.state, h.msg);
            s.inTx == h.state.inTx && s.bound == h.state.bound && s.lastWrite == h.state.lastWrite
  {
    hide After, ToReader, AfterQuery, Routing;
    if h.msg.Query? {
      QueryIs(p, h.state, h.msg);
    } else if h.msg.Sync? {
      KeepSync(p, h.state);
    } else {
      KeepBuffered(p, h.state, h.msg);
    }
  }

  /** Every other turn leaves the flag, the bound writer and the remembered write alone. */
  lemma OthersKeep(p: Router.Policy, heads: seq<Head>, log: seq<Event>, k: nat)
    requires Story(p, heads, log) && k + 1 < |heads| && !Moves(heads[k])
    ensures var s, s' := heads[k].state, heads[k + 1].state;
            s'.inTx == s.inTx && s'.bound == s.bound && s'.lastWrite == s.lastWrite
  {
    hide Story, After, Moves;
    Step(p, heads, log, k);
    if heads[k].taken { KeepStep(p, heads[k]); }
  }

  lemma WriteStep(p: Router.Policy, s: State, m: Message)
    requires m.Sync? || (m.Query? && !m.guard.Block?)
    ensures var s' := After(p, s, m);
            s'.lastWrite ==
            if m.Query? && !(s'.pinned || s.inTx || s'.inTx || RoutingLaws.HasCommand(m.text))
               && RoutingLaws.Kind(m.text, m.parsed) == Classifier.Write && !p.causal
            then Some(m.time) else s.lastWrite
  {
    hide Router.RouteQuery, RoutingLaws.HasCommand, RoutingLaws.Kind;
    if m.Query? {
      var t := Tracked(s).(pinned := s.pinned || m.guard.Pin?);
      RoutingLaws.RemembersWriteIff(p, t, m.text, m.parsed, m.time);
    }
  }

  /** A write is remembered exactly when a simple query writes outside any transaction and pin, causal mode off. */
  lemma WriteMeans(p: Router.Policy, heads: seq<Head>, log: seq<Event>, k: nat)
    requires Story(p, heads, log) && k + 1 < |heads| && Moves(heads[k])
    ensures var m, s, s' := heads[k].msg, heads[k].state, heads[k + 1].state;
            s'.lastWrite ==
            if m.Query? && !(s'.pinned || s.inTx || s'.inTx || RoutingLaws.HasCommand(m.text))
               && RoutingLaws.Kind(m.text, m.parsed) == Classifier.Write && !p.causal
            then Some(m.time) else s.lastWrite
  {
    hide Story, After, RoutingLaws.HasCommand, RoutingLaws.Kind;
    Step(p, heads, log, k);
    WriteStep(p, heads[k].state, heads[k].msg);
  }

  // ---- The length of a batch ----

  /** The messages buffered since the last Sync. */
  function Buffered(heads: seq<Head>, k: nat): nat
    requires k <= |heads|
  {
    if k == 0 then 0
    else
      var h := heads[k - 1];
      if SyncsAt(h) then 0
      else Buffered(heads, k - 1) + if h.taken && !h.msg.Query? && !h.msg.Terminate? then 1 else 0
  }

  lemma LenStep(p: Router.Policy, s: State, m: Message)
    ensures After(p, s, m).len == if m.Sync? then 0 else if m.Query? || m.Terminate? then s.len else s.len + 1
  {
    hide Router.TxPrefix, Router.RouteQuery, Router.RouteStatement;
  }

  lemma {:induction false} LenMeans(p: Router.Policy, heads: seq<Head>, log: seq<Event>, k: nat)
    requires Story(p, heads, log) && k < |heads|
    ensures heads[k].state.len == Buffered(heads, k)
  {
    hide Story, After;
    if k == 0 {
      Begins(p, heads, log);
    } else {
      LenMeans(p, heads, log, k - 1);
      Step(p, heads, log, k - 1);
      LenStep(p, heads[k - 1].state, heads[k - 1].msg);
    }
  }
}
