/** What a client's messages make of a session (internal/proxy/query.go): a machine on values, turn by turn, and
    what a run of it means for the log of connection events. */
module Turns {
  import opened Options
  import opened Ownership
  import Classifier
  import Router
  import TransactionText

  // ---- Which queries leave session state behind ----

  predicate IsGap(c: char) {
    c == ' ' || c == '\t'
  }

  function GapRun(s: string): (n: nat)
    ensures n <= |s|
  {
    if s != [] && IsGap(s[0]) then 1 + GapRun(s[1..]) else 0
  }

  predicate Command(s: string, keyword: string) {
    Router.EqualFold(s, keyword) && (|s| == |keyword| || IsGap(s[|keyword|]))
  }

  predicate SetsSession(s: string) {
    && |s| >= 4 && Router.EqualFold(s, "SET") && IsGap(s[3])
    && var t := s[4..][GapRun(s[4..])..];
       && !(|t| > 5 && Router.EqualFold(t, "LOCAL") && IsGap(t[5]))
       && !(|t| > 11 && (Router.EqualFold(t, "TRANSACTION") || Router.EqualFold(t, "CONSTRAINTS")))
  }

  predicate CreatesTemp(s: string) {
    Router.EqualFold(s, "CREATE") && Router.EqualFold(s[6..][GapRun(s[6..])..], "TEMP")
  }

  /** isSessionModifying. */
  predicate IsSessionModifying(query: string) {
    var s := query[Router.Noise(query)..];
    || SetsSession(s) || CreatesTemp(s)
    || Command(s, "PREPARE") || Command(s, "DECLARE") || Command(s, "DEALLOCATE")
    || Command(s, "LISTEN") || Command(s, "LOAD") || Command(s, "UNLISTEN")
  }

  // ---- Messages ----

  /** What the session compatibility guard says of a statement. */
  datatype Guard = Pass | Block | Pin

  /** `Close` closes a prepared statement; closing a portal, Describe and the rest are `Other`. */
  datatype Message =
    | Query(text: string, parsed: Option<Classifier.QueryType>, time: int, guard: Guard)
    | Parse(name: string, text: string, parsed: Option<Classifier.QueryType>, time: int, guard: Guard)
    | Bind(name: string)
    | Close(name: string)
    | Execute
    | Other
    | Sync
    | Terminate

  predicate SimpleOnly(msgs: seq<Message>) {
    forall m | m in msgs :: m.Query? || m.Terminate?
  }

  const MAX_BUFFERED := 10000

  // ---- The session as the messages make it ----

  /** Routing state, prepared statements, whether a writer is bound, and the batch so far. */
  datatype State = State(inTx: bool, pinned: bool, lastWrite: Option<int>, stmts: map<string, Router.Route>,
                         bound: bool, len: nat, route: Router.Route, starts: bool, ends: bool, executes: bool,
                         blocked: bool)

  function Tracked(s: State): Router.Tracking {
    Router.Tracking(s.inTx, s.pinned, s.lastWrite)
  }

  /** What the routing of a simple query yields, with the guard's pin applied first. */
  function Routing(p: Router.Policy, s: State, m: Message): (Router.Route, Router.Tracking)
    requires m.Query?
  {
    Router.RouteQuery(p, Tracked(s).(pinned := s.pinned || m.guard.Pin?), m.text, m.parsed, m.time)
  }

  /** Whether a writer is bound after a simple query on the writer path. */
  predicate BoundAfterQuery(bound: bool, was: bool, now: bool, pinned: bool) {
    if was == now then bound || pinned else now || pinned
  }

  function AfterQuery(p: Router.Policy, s: State, m: Message): State
    requires m.Query?
  {
    if m.guard.Block? then s
    else
      var (route, t) := Routing(p, s, m);
      s.(inTx := t.inTx, pinned := t.pinned, lastWrite := t.lastWrite,
         bound := if route.Reader? then s.bound else BoundAfterQuery(s.bound, s.inTx, t.inTx, t.pinned))
  }

  function AfterParse(p: Router.Policy, s: State, m: Message): State
    requires m.Parse?
  {
    var pinned := s.pinned || (m.guard.Pin? && !s.blocked);
    var route := Router.RouteStatement(p, Tracked(s), m.text, m.parsed, m.time);
    var mark := Router.TxPrefix(m.text);
    s.(stmts := s.stmts[m.name := route], pinned := pinned, len := s.len + 1,
       route := if s.inTx || pinned || s.bound then Router.Writer else route,
       starts := s.starts || mark.Opens?, ends := s.ends || mark.Closes?, blocked := s.blocked || m.guard.Block?)
  }

  function AfterBind(s: State, name: string): State {
    s.(len := s.len + 1,
       route := if name in s.stmts && s.stmts[name].Reader? then s.route else Router.Writer)
  }

  /** Where a Sync sends its batch. */
  predicate ToReader(s: State) {
    s.route.Reader? && !s.inTx && !s.bound
  }

  /** A batch that ends a transaction on the writer path while no writer is bound: its connection is given
      to a pool variable that holds nothing or, in a pinned session, to no one. */
  predicate EndsUnbound(s: State) {
    !ToReader(s) && s.ends && !s.bound && !s.blocked
  }

  function EmptyBatch(s: State): State {
    s.(len := 0, route := Router.Reader, starts := false, ends := false, executes := false)
  }

  predicate InTxAfterBatch(s: State) {
    (s.inTx || s.starts) && !s.ends
  }

  /** Whether a writer is bound after a batch on the writer path. */
  predicate BoundAfterBatch(s: State) {
    if s.ends then s.bound && s.pinned
    else s.starts || (s.bound && s.inTx) || !s.executes || s.pinned
  }

  function AfterSync(s: State): State {
    if s.blocked then EmptyBatch(s).(blocked := false)
    else if ToReader(s) then EmptyBatch(s)
    else EmptyBatch(s).(inTx := InTxAfterBatch(s), bound := BoundAfterBatch(s))
  }

  /** The session after a message that got through. */
  function After(p: Router.Policy, s: State, m: Message): State {
    match m
    case Query(_, _, _, _) => AfterQuery(p, s, m)
    case Parse(_, _, _, _, _) => AfterParse(p, s, m)
    case Bind(name) => AfterBind(s, name)
    case Close(name) => s.(stmts := s.stmts - {name}, len := s.len + 1)
    case Execute => s.(executes := true, len := s.len + 1)
    case Other => s.(len := s.len + 1)
    case Sync => AfterSync(s)
    case Terminate => s
  }

  // ---- What a message makes of the log ----

  /** The first thing after `before` is the batch running on lease c. */
  predicate RunsFirst(before: seq<Event>, after: seq<Event>, c: Lease) {
    |before| < |after| && before <= after && after[|before|].Ran? && after[|before|].lease == c
    && after[|before|].work == Batch
  }

  /** The first thing after `before` is the reset and give-back of lease c to pool p. */
  predicate DropsFirst(before: seq<Event>, after: seq<Event>, c: Lease, p: PoolId) {
    || before + [Reset(c, true), Released(c, p)] <= after
    || before + [Reset(c, false), Discarded(c, p)] <= after
  }

  /** Between the two logs nothing ran. */
  predicate NoneRan(before: seq<Event>, after: seq<Event>) {
    before <= after && forall i | |before| <= i < |after| :: !after[i].Ran?
  }

  /** Between the two logs nothing that ran succeeded. */
  predicate NoneSucceeded(before: seq<Event>, after: seq<Event>) {
    before <= after && forall i | |before| <= i < |after| && after[i].Ran? :: !after[i].ok
  }

  /** Event i is the work, and the only thing that ran and succeeded. */
  predicate OnlySuccess(before: seq<Event>, after: seq<Event>, i: nat, work: Work, was: bool, now: bool) {
    && |before| <= i < |after| && after[i].Ran? && after[i] == Ran(after[i].lease, work, was, now, true)
    && NoneSucceeded(before, after[..i]) && NoneSucceeded(after[..i + 1], after)
  }

  /** Between the two logs the work ran and succeeded, once. */
  predicate RunsOnce(before: seq<Event>, after: seq<Event>, work: Work, was: bool, now: bool) {
    exists i: nat | i < |after| :: OnlySuccess(before, after, i, work, was, now)
  }

  /** Event i is the work, and the only thing that ran at all, on the bound writer if there is one. */
  predicate OnlyRun(before: seq<Event>, after: seq<Event>, i: nat, work: Work, was: bool, now: bool,
                    on: Option<Lease>)
  {
    && |before| <= i < |after| && after[i].Ran? && after[i] == Ran(after[i].lease, work, was, now, true)
    && (on.Some? ==> after[i].lease == on.value)
    && NoneRan(before, after[..i]) && NoneRan(after[..i + 1], after)
  }

  /** The same on the writer path, where a failure is never followed by another try. */
  predicate RunsOn(before: seq<Event>, after: seq<Event>, work: Work, was: bool, now: bool, on: Option<Lease>) {
    exists i: nat | i < |after| :: OnlyRun(before, after, i, work, was, now, on)
  }

  /** A read starts by picking a reader, and the first connection asked for is one of that reader. */
  predicate TriesReader(before: seq<Event>, after: seq<Event>) {
    && before <= after && |before| + 2 <= |after| && after[|before|].Chose?
    && var next := after[|before| + 1];
       next.Trouble? || (next.Took? && after[|before|].reader == Some(next.pool))
  }

  /** After the reader could not be had, another connection was asked for. */
  predicate TriesAgain(before: seq<Event>, after: seq<Event>) {
    TriesReader(before, after) &&
    (after[|before| + 1].Trouble? ==> exists i | |before| + 2 <= i < |after| :: after[i].Took? || after[i].Trouble?)
  }

  lemma TriedReader(before: seq<Event>, choice: Option<PoolId>, e: Event, after: seq<Event>)
    requires before + [Chose(choice)] + [e] <= after && (e.Trouble? || (e.Took? && choice == Some(e.pool)))
    ensures TriesReader(before, after) && after[|before| + 1] == e
  {
    var all := before + [Chose(choice)] + [e];
    assert all[|before|] == Chose(choice) && all[|before| + 1] == e;
    assert after[|before|] == all[|before|] && after[|before| + 1] == all[|before| + 1];
    assert forall i | 0 <= i < |before| :: after[i] == all[i];
  }

  lemma TriesLater(before: seq<Event>, mid: seq<Event>, after: seq<Event>)
    requires TriesReader(before, mid) && mid <= after
    ensures TriesReader(before, after) && after[|before| + 1] == mid[|before| + 1]
  {
  }

  lemma TriedAgain(before: seq<Event>, mid: seq<Event>, after: seq<Event>, i: nat)
    requires TriesReader(before, mid) && mid <= after
    requires mid[|before| + 1].Took? || (|mid| <= i < |after| && (after[i].Took? || after[i].Trouble?))
    ensures TriesAgain(before, after)
  {
    TriesLater(before, mid, after);
  }

  /** Between the two logs something failed: an exchange, or getting a connection, or the client. */
  predicate Troubled(before: seq<Event>, after: seq<Event>) {
    before <= after && exists i | |before| <= i < |after| :: after[i].Trouble? || (after[i].Ran? && !after[i].ok)
  }

  lemma TroubleNow(log: seq<Event>, e: Event)
    requires e.Trouble? || (e.Ran? && !e.ok)
    ensures Troubled(log, log + [e])
  {
    assert (log + [e])[|log|] == e;
  }

  lemma TroubleWithin(log0: seq<Event>, log1: seq<Event>, log2: seq<Event>, log3: seq<Event>)
    requires log0 <= log1 && Troubled(log1, log2) && log2 <= log3
    ensures Troubled(log0, log3)
  {
    var i :| |log1| <= i < |log2| && (log2[i].Trouble? || (log2[i].Ran? && !log2[i].ok));
    assert log3[i] == log2[i];
  }

  lemma NoneRanYet(log: seq<Event>)
    ensures NoneRan(log, log) && NoneSucceeded(log, log)
  {
  }

  lemma NoneRanMore(log: seq<Event>, e: Event)
    requires !e.Ran?
    ensures NoneRan(log, log + [e])
  {
  }

  lemma NoneRanTwice(log0: seq<Event>, log1: seq<Event>, log2: seq<Event>)
    requires NoneRan(log0, log1) && NoneRan(log1, log2)
    ensures NoneRan(log0, log2)
  {
    forall i | |log0| <= i < |log2| ensures !log2[i].Ran? {
      if i < |log1| { assert log2[i] == log1[i]; }
    }
  }

  lemma NoneRanFails(before: seq<Event>, after: seq<Event>)
    requires NoneRan(before, after)
    ensures before <= after && NoneSucceeded(before, after)
  {
  }

  lemma NoneSucceededTwice(log0: seq<Event>, log1: seq<Event>, log2: seq<Event>)
    requires NoneSucceeded(log0, log1) && NoneSucceeded(log1, log2)
    ensures log0 <= log2 && NoneSucceeded(log0, log2)
  {
    forall i | |log0| <= i < |log2| && log2[i].Ran? ensures !log2[i].ok {
      if i < |log1| { assert log2[i] == log1[i]; }
    }
  }

  /** After `before`, nothing ran until mid, then the work did, and then nothing. */
  lemma RanThere(before: seq<Event>, mid: seq<Event>, after: seq<Event>, l: Lease, work: Work, was: bool, now: bool,
                 on: Option<Lease>)
    requires NoneRan(before, mid) && NoneRan(mid + [Ran(l, work, was, now, true)], after)
    requires on.Some? ==> l == on.value
    ensures RunsOn(before, after, work, was, now, on)
  {
    hide NoneRan;
    var e := Ran(l, work, was, now, true);
    NoneRanGrows(mid + [e], after);
    Prefixes(mid, e, after);
    NoneRanGrows(before, mid);
    assert OnlyRun(before, after, |mid|, work, was, now, on);
  }

  lemma NoneRanGrows(before: seq<Event>, after: seq<Event>)
    ensures NoneRan(before, after) ==> before <= after
  {
  }

  lemma Prefixes(mid: seq<Event>, e: Event, after: seq<Event>)
    ensures mid + [e] <= after ==>
              |mid| < |after| && after[..|mid|] == mid && after[|mid|] == e && after[..|mid| + 1] == mid + [e]
  {
  }

  /** The same for a read, which may have failed elsewhere before. */
  lemma RanOnceThere(before: seq<Event>, mid: seq<Event>, after: seq<Event>, l: Lease, work: Work, was: bool, now: bool)
    requires NoneSucceeded(before, mid) && NoneSucceeded(mid + [Ran(l, work, was, now, true)], after)
    ensures RunsOnce(before, after, work, was, now)
  {
    Prefixes(mid, Ran(l, work, was, now, true), after);
    assert OnlySuccess(before, after, |mid|, work, was, now);
  }

  lemma RunsLonger(log0: seq<Event>, log1: seq<Event>, log2: seq<Event>, work: Work, was: bool, now: bool)
    requires NoneSucceeded(log0, log1) && RunsOnce(log1, log2, work, was, now)
    ensures RunsOnce(log0, log2, work, was, now)
  {
    hide NoneSucceeded;
    var i: nat :| i < |log2| && OnlySuccess(log1, log2, i, work, was, now);
    NoneSucceededTwice(log0, log1, log2[..i]);
    assert OnlySuccess(log0, log2, i, work, was, now);
  }

  lemma LaterOn(log0: seq<Event>, log1: seq<Event>, log2: seq<Event>, work: Work, was: bool, now: bool,
                on: Option<Lease>)
    requires NoneRan(log0, log1) && RunsOn(log1, log2, work, was, now, on)
    ensures RunsOn(log0, log2, work, was, now, on)
  {
    hide NoneRan;
    var i: nat :| i < |log2| && OnlyRun(log1, log2, i, work, was, now, on);
    NoneRanTwice(log0, log1, log2[..i]);
    NoneRanGrows(log0, log1);
    assert OnlyRun(log0, log2, i, work, was, now, on);
  }

  /** What a message that got through did: a query or a batch that was neither blocked nor answered from the cache
      ran and succeeded exactly once, on the writer path with the transaction flag before and after it and on the
      bound writer if there was one; nothing else ran, and only a query or a Sync touched a connection. */
  predicate Did(p: Router.Policy, s: State, m: Message, writer: Option<Lease>, before: seq<Event>, after: seq<Event>) {
    var now := After(p, s, m).inTx;
    if m.Query? && !m.guard.Block? then
      if Routing(p, s, m).0.Writer?
      then RunsOn(before, after, SimpleWrite(IsSessionModifying(m.text)), s.inTx, now, writer)
      else after == before || (RunsOnce(before, after, Read, false, false) && TriesReader(before, after))
    else if m.Sync? && !s.blocked then
      if ToReader(s) then after == before || RunsOnce(before, after, Batch, false, false)
      else RunsOn(before, after, Batch, s.inTx, now, writer)
    else if m.Sync? then NoneRan(before, after)
    else after == before
  }

  // ---- The loop, turn by turn ----

  /** One turn: the log's length before and after it, the message, whether it was taken up and then got through, and
      the session and its bound connections when the loop read the message. */
  datatype Head = Head(at: nat, to: nat, msg: Message, taken: bool, through: bool, state: State,
                       writer: Option<Lease>, reader: Option<Lease>, readerPool: Option<PoolId>)

  /** What happens to a message before it is looked at: the session is cut off, the message refused, or neither. */
  datatype Fate = Cut | Refused | Passed

  predicate TakenUp(fate: Fate, s: State, m: Message) {
    fate.Passed? && (m.Query? || m.Terminate? || s.len < MAX_BUFFERED)
  }

  /** The session ends with this turn: cut off, terminated, too many messages without a Sync, something failed, or the
      crash. */
  predicate Stops(fate: Fate, h: Head) {
    fate.Cut? || (fate.Passed? && (!h.taken || !h.through || (Loses(h) && !h.state.pinned)))
  }

  /** A Sync that ran its batch, or gave the bound reader back. */
  predicate SyncsAt(h: Head) {
    h.taken && h.msg.Sync?
  }

  /** A batch that ended a transaction on the writer path, with no writer bound, and got through. */
  predicate Loses(h: Head) {
    SyncsAt(h) && h.through && EndsUnbound(h.state)
  }

  function Losses(heads: seq<Head>): nat {
    if heads == [] then 0 else Losses(heads[..|heads| - 1]) + if Loses(heads[|heads| - 1]) then 1 else 0
  }

  predicate EndsTx(m: Message) {
    m.Parse? && Router.TxPrefix(m.text).Closes?
  }

  lemma AfterEnds(p: Router.Policy, s: State, m: Message)
    ensures After(p, s, m).ends == if m.Sync? then false else s.ends || EndsTx(m)
  {
    hide Router.TxPrefix, Router.RouteQuery, Router.RouteStatement;
  }

  /** In a transaction a writer is bound: the lease the ledger says the transaction runs on. */
  predicate InTxBound(h: Head, log: seq<Event>) {
    && h.at <= |log| && (h.state.bound <==> h.writer.Some?) && (h.state.inTx ==> h.state.bound)
    && Replay(log[..h.at]).tx == if h.state.inTx then h.writer else None
  }

  /** A reader bound when a Sync comes is what the batch runs on, or is given back before anything else. */
  predicate ReaderServed(h: Head, log: seq<Event>)
    requires h.at <= |log|
  {
    SyncsAt(h) && h.reader.Some? ==>
      && h.readerPool.Some?
      && if ToReader(h.state) && !h.state.blocked then RunsFirst(log[..h.at], log, h.reader.value)
         else DropsFirst(log[..h.at], log, h.reader.value, h.readerPool.value)
  }

  predicate Served(p: Router.Policy, h: Head, log: seq<Event>) {
    && h.at <= h.to <= |log|
    && (h.taken && h.through ==> Did(p, h.state, h.msg, h.writer, log[..h.at], log[..h.to]))
    && (h.taken && !h.through ==> h.msg.Terminate? || Troubled(log[..h.at], log[..h.to]))
  }

  predicate HeadOk(p: Router.Policy, h: Head, log: seq<Event>) {
    InTxBound(h, log) && ReaderServed(h, log) && Served(p, h, log)
  }

  /** The last event is a batch that succeeded on the lease. */
  predicate RanLast(log: seq<Event>, l: Lease) {
    log != [] && log[|log| - 1] == Ran(l, Batch, false, false, true)
  }

  /** The bound reader, which only a Sync can change and which is then the one the batch just ran on. */
  predicate ReaderFollows(h: Head, reader: Option<Lease>, readerPool: Option<PoolId>, log: seq<Event>) {
    && (!SyncsAt(h) ==> reader == h.reader && readerPool == h.readerPool)
    && (SyncsAt(h) && reader.Some? ==> RanLast(log, reader.value))
  }

  /** What a turn leaves for the next: the session as the message makes it, and the reader. */
  predicate Follows(p: Router.Policy, h: Head, s: State, reader: Option<Lease>, readerPool: Option<PoolId>,
                    log: seq<Event>)
  {
    && h.to == |log| && s == (if h.taken then After(p, h.state, h.msg) else h.state)
    && ReaderFollows(h, reader, readerPool, log)
  }

  predicate Chained(p: Router.Policy, h: Head, h': Head, log: seq<Event>) {
    h'.at <= |log| && Follows(p, h, h'.state, h'.reader, h'.readerPool, log[..h'.at])
  }

  /** A session before its first message. */
  predicate FreshState(s: State) {
    && !s.inTx && !s.bound && s.len == 0 && s.route.Writer?
    && !s.starts && !s.ends && !s.executes && !s.blocked
  }

  predicate First(h: Head) {
    h.at == 0 && FreshState(h.state) && h.reader == None && h.readerPool == None
  }

  /** A run: from a fresh session, each turn takes up where the one before left off. */
  predicate Story(p: Router.Policy, heads: seq<Head>, log: seq<Event>) {
    && (forall h | h in heads :: HeadOk(p, h, log))
    && (forall k | 0 < k < |heads| :: Chained(p, heads[k - 1], heads[k], log))
    && (heads != [] ==> First(heads[0]))
  }

  lemma ServedLater(p: Router.Policy, h: Head, log: seq<Event>, log': seq<Event>)
    requires Served(p, h, log) && log <= log'
    ensures Served(p, h, log')
  {
    hide Did, Troubled;
    assert log[..h.at] == log'[..h.at] && log[..h.to] == log'[..h.to];
  }

  lemma HeadOkLater(p: Router.Policy, h: Head, log: seq<Event>, log': seq<Event>)
    requires HeadOk(p, h, log) && log <= log'
    ensures HeadOk(p, h, log')
  {
    hide Replay, Served;
    ServedLater(p, h, log, log');
    assert log[..h.at] == log'[..h.at];
  }

  lemma ChainedLater(p: Router.Policy, h: Head, h': Head, log: seq<Event>, log': seq<Event>)
    requires Chained(p, h, h', log) && log <= log'
    ensures Chained(p, h, h', log')
  {
    hide Follows;
    assert log[..h'.at] == log'[..h'.at];
  }

  lemma StoryLater(p: Router.Policy, heads: seq<Head>, log: seq<Event>, log': seq<Event>)
    requires Story(p, heads, log) && log <= log'
    ensures Story(p, heads, log')
  {
    hide HeadOk, Chained, First;
    forall h | h in heads ensures HeadOk(p, h, log') { HeadOkLater(p, h, log, log'); }
    forall k | 0 < k < |heads| ensures Chained(p, heads[k - 1], heads[k], log') {
      ChainedLater(p, heads[k - 1], heads[k], log, log');
    }
  }

  lemma StoryMore(p: Router.Policy, heads: seq<Head>, h: Head, log: seq<Event>)
    requires Story(p, heads, log) && HeadOk(p, h, log)
    requires if heads == [] then First(h) else Chained(p, heads[|heads| - 1], h, log)
    ensures Story(p, heads + [h], log) && Losses(heads + [h]) == Losses(heads) + if Loses(h) then 1 else 0
  {
    hide *;
    StoryIs(p, heads, log);
    StoryIs(p, heads + [h], log);
    ChainMore(p, heads, h, log);
    LossesMore(heads, h);
  }

  lemma StoryIs(p: Router.Policy, heads: seq<Head>, log: seq<Event>)
    ensures Story(p, heads, log) <==>
            && (forall h | h in heads :: HeadOk(p, h, log))
            && (forall k | 0 < k < |heads| :: Chained(p, heads[k - 1], heads[k], log))
            && (heads != [] ==> First(heads[0]))
  {
    hide HeadOk, Chained, First;
  }

  lemma ChainMore(p: Router.Policy, heads: seq<Head>, h: Head, log: seq<Event>)
    requires forall k | 0 < k < |heads| :: Chained(p, heads[k - 1], heads[k], log)
    requires heads != [] ==> Chained(p, heads[|heads| - 1], h, log)
    ensures var more := heads + [h]; forall k | 0 < k < |more| :: Chained(p, more[k - 1], more[k], log)
  {
    hide Chained;
    var more := heads + [h];
    forall k | 0 < k < |more| ensures Chained(p, more[k - 1], more[k], log) {
      if k < |heads| { assert more[k] == heads[k] && more[k - 1] == heads[k - 1]; }
    }
  }

  lemma LossesMore(heads: seq<Head>, h: Head)
    ensures Losses(heads + [h]) == Losses(heads) + if Loses(h) then 1 else 0
  {
    hide Loses;
    assert (heads + [h])[..|heads|] == heads;
  }

  /** The Parse of turn j ends a transaction, was taken up, and no Sync came since. */
  predicate Marks(heads: seq<Head>, j: nat, k: nat) {
    && j < k <= |heads| && heads[j].taken && EndsTx(heads[j].msg)
    && forall l | j < l < k :: !SyncsAt(heads[l])
  }

  lemma EndsFollow(p: Router.Policy, heads: seq<Head>, log: seq<Event>, k: nat)
    requires Story(p, heads, log) && 0 < k < |heads|
    ensures var h := heads[k - 1];
            heads[k].state.ends == if SyncsAt(h) then false else h.state.ends || (h.taken && EndsTx(h.msg))
  {
    hide HeadOk, EndsTx, After, ReaderFollows, First;
    assert Chained(p, heads[k - 1], heads[k], log);
    AfterEnds(p, heads[k - 1].state, heads[k - 1].msg);
  }

  /** A batch carries the mark exactly if a Parse that ends a transaction was taken up since the last Sync. */
  lemma {:induction false} EndsMeans(p: Router.Policy, heads: seq<Head>, log: seq<Event>, k: nat)
    requires Story(p, heads, log) && k < |heads|
    ensures heads[k].state.ends <==> exists j: nat :: Marks(heads, j, k)
  {
    hide HeadOk, EndsTx, Chained;
    if k > 0 {
      EndsMeans(p, heads, log, k - 1);
      EndsFollow(p, heads, log, k);
      var h := heads[k - 1];
      if !SyncsAt(h) && h.state.ends {
        var j :| Marks(heads, j, k - 1);
        assert Marks(heads, j, k);
      } else if !SyncsAt(h) && h.taken && EndsTx(h.msg) {
        assert Marks(heads, k - 1, k);
      }
      forall j: nat | Marks(heads, j, k) ensures heads[k].state.ends {
        if j < k - 1 { assert !SyncsAt(h) && Marks(heads, j, k - 1); } else { NotSync(h); }
      }
    }
  }

  lemma NotSync(h: Head)
    requires EndsTx(h.msg)
    ensures !SyncsAt(h)
  {
    hide Router.TxPrefix;
  }

  /** Without such a Parse nothing can be lost. */
  lemma {:induction false} NoEndNoLoss(p: Router.Policy, heads: seq<Head>, log: seq<Event>, n: nat)
    requires Story(p, heads, log) && n <= |heads| && forall h | h in heads :: !EndsTx(h.msg)
    ensures Losses(heads[..n]) == 0
  {
    hide Story;
    if n == 0 {
      assert heads[..n] == [];
    } else {
      NoEndNoLoss(p, heads, log, n - 1);
      assert heads[..n][..n - 1] == heads[..n - 1];
      EndsMeans(p, heads, log, n - 1);
      assert heads[n - 1] in heads;
      forall j | 0 <= j < n - 1 ensures !EndsTx(heads[j].msg) { assert heads[j] in heads; }
      var k := n - 1;
      assert forall j: nat :: !Marks(heads, j, k);
    }
  }

  /** A bound reader stays bound, with its pool, until a Sync. */
  lemma {:induction false} ReaderStays(p: Router.Policy, heads: seq<Head>, log: seq<Event>, i: nat, j: nat)
    requires Story(p, heads, log) && i <= j < |heads| && forall k | i <= k < j :: !SyncsAt(heads[k])
    ensures heads[j].reader == heads[i].reader && heads[j].readerPool == heads[i].readerPool
  {
    hide HeadOk, After, SyncsAt;
    if i < j {
      ReaderStays(p, heads, log, i, j - 1);
      assert Chained(p, heads[j - 1], heads[j], log);
    }
  }

  /** Bound-reader affinity: a reader that a Sync leaves bound is the one its batch ran on, and at the next Sync,
      whatever came between, the batch runs on it, or it is given back to its own pool before anything else. */
  lemma BoundReaderAffinity(p: Router.Policy, heads: seq<Head>, log: seq<Event>, i: nat, j: nat)
    requires Story(p, heads, log) && i + 1 <= j < |heads| && SyncsAt(heads[i]) && heads[i + 1].reader.Some?
    requires SyncsAt(heads[j]) && forall k | i < k < j :: !SyncsAt(heads[k])
    ensures var c, at := heads[i + 1].reader.value, heads[i + 1].at;
            0 < at <= |log| && log[at - 1] == Ran(c, Batch, false, false, true)
    ensures var c, h := heads[i + 1].reader.value, heads[j];
            && h.readerPool.Some? && h.readerPool == heads[i + 1].readerPool && h.at <= |log|
            && if ToReader(h.state) && !h.state.blocked then RunsFirst(log[..h.at], log, c)
               else DropsFirst(log[..h.at], log, c, h.readerPool.value)
  {
    hide InTxBound, After, RunsFirst, DropsFirst, Served;
    assert Chained(p, heads[i], heads[i + 1], log);
    ReaderStays(p, heads, log, i + 1, j);
    assert heads[j] in heads && HeadOk(p, heads[j], log);
    AtWithin(heads[j], log);
  }

  lemma NothingLost(p: Router.Policy, heads: seq<Head>, msgs: seq<Message>, log: seq<Event>)
    requires Story(p, heads, log) && |heads| <= |msgs| && forall k | 0 <= k < |heads| :: heads[k].msg == msgs[k]
    requires forall m | m in msgs :: !EndsTx(m)
    ensures Losses(heads) == 0
  {
    hide Story, EndsTx;
    NoEndNoLoss(p, heads, log, |heads|);
    assert heads[..|heads|] == heads;
  }

  lemma NoStory(p: Router.Policy, log: seq<Event>)
    ensures Story(p, [], log) && Losses([]) == 0
  {
  }

  /** With simple queries only, a writer is bound exactly for a transaction or a pin. */
  lemma {:induction false} SimpleBound(p: Router.Policy, heads: seq<Head>, log: seq<Event>, k: nat)
    requires Story(p, heads, log) && k < |heads| && forall h | h in heads :: h.msg.Query? || h.msg.Terminate?
    ensures heads[k].state.bound ==> heads[k].state.inTx || heads[k].state.pinned
  {
    hide HeadOk, After, ReaderFollows;
    if k > 0 {
      SimpleBound(p, heads, log, k - 1);
      assert heads[k - 1] in heads && Chained(p, heads[k - 1], heads[k], log);
      QueryBound(p, heads[k - 1].state, heads[k - 1].msg);
    }
  }

  lemma SimpleRun(p: Router.Policy, heads: seq<Head>, msgs: seq<Message>, log: seq<Event>)
    requires Story(p, heads, log) && SimpleOnly(msgs)
    requires |heads| <= |msgs| && forall k | 0 <= k < |heads| :: heads[k].msg == msgs[k]
    ensures forall h | h in heads :: h.state.bound ==> h.state.inTx || h.state.pinned
  {
    hide Story;
    forall k | 0 <= k < |heads| ensures heads[k].state.bound ==> heads[k].state.inTx || heads[k].state.pinned {
      SimpleBound(p, heads, log, k);
    }
  }

  lemma QueryBound(p: Router.Policy, s: State, m: Message)
    requires (m.Query? || m.Terminate?) && (s.bound ==> s.inTx || s.pinned)
    ensures var s' := After(p, s, m); s'.bound ==> s'.inTx || s'.pinned
  {
    hide Router.RouteQuery;
    if m.Query? {
      Router.TransactionForcesWriter(p, Tracked(s).(pinned := s.pinned || m.guard.Pin?), m.text, m.parsed, m.time);
    }
  }

  /** A query or batch taken up inside a transaction, not blocked, that gets through has run on the transaction's
      connection. */
  lemma RanInTransaction(p: Router.Policy, heads: seq<Head>, log: seq<Event>, k: nat)
    requires Story(p, heads, log) && k < |heads| && heads[k].state.inTx && heads[k].taken && heads[k].through
    requires var m := heads[k].msg; (m.Query? && !m.guard.Block?) || (m.Sync? && !heads[k].state.blocked)
    ensures var h := heads[k];
            && h.at <= h.to <= |log| && h.writer.Some? && Replay(log[..h.at]).tx == h.writer
            && exists i | h.at <= i < h.to ::
                 && log[i].Ran? && log[i].lease == h.writer.value && log[i].was && log[i].ok
                 && forall k | h.at <= k < h.to && k != i :: !log[k].Ran?
  {
    hide Replay, After, Router.RouteQuery, NoneRan;
    var h := heads[k];
    assert h in heads && HeadOk(p, h, log);
    var before, after := log[..h.at], log[..h.to];
    if h.msg.Query? { InTxToWriter(p, h.state, h.msg); }
    var work := if h.msg.Query? then SimpleWrite(IsSessionModifying(h.msg.text)) else Batch;
    assert RunsOn(before, after, work, true, After(p, h.state, h.msg).inTx, h.writer);
    var i: nat :| i < |after| && OnlyRun(before, after, i, work, true, After(p, h.state, h.msg).inTx, h.writer);
    assert log[i] == after[i];
    OthersQuiet(before, after, i);
    forall k | h.at <= k < h.to && k != i ensures !log[k].Ran? { assert log[k] == after[k]; }
  }

  lemma OthersQuiet(before: seq<Event>, after: seq<Event>, i: nat)
    requires |before| <= i < |after| && NoneRan(before, after[..i]) && NoneRan(after[..i + 1], after)
    ensures forall k | |before| <= k < |after| && k != i :: !after[k].Ran?
  {
    forall k | |before| <= k < |after| && k != i ensures !after[k].Ran? {
      if k < i { assert after[k] == after[..i][k]; }
    }
  }

  lemma InTxToWriter(p: Router.Policy, s: State, m: Message)
    requires m.Query? && s.inTx
    ensures Routing(p, s, m).0.Writer?
  {
    hide Router.RouteQuery;
    Router.TransactionForcesWriter(p, Tracked(s).(pinned := s.pinned || m.guard.Pin?), m.text, m.parsed, m.time);
  }

  // ---- The lost lease is real ----

  predicate LedByCommit(text: string) {
    var rest := text[Router.Noise(text)..];
    Router.LedBy(rest, "COMMIT") || Router.LedBy(rest, "ROLLBACK")
  }

  lemma CommitToWriter(text: string)
    requires LedByCommit(text)
    ensures Router.TxPrefix(text).Closes? && Router.LooksLikeTx(Router.Normal(text))
  {
    hide Router.Normal, Router.Noise, Router.Fold;
    var rest := text[Router.Noise(text)..];
    var kw := if Router.LedBy(rest, "COMMIT") then "COMMIT" else "ROLLBACK";
    assert kw == TransactionText.COMMANDS[2] || kw == TransactionText.COMMANDS[3];
    TransactionText.LedIsSeen(text, kw);
    FirstByte(rest);
  }

  lemma FirstByte(s: string)
    requires Router.LedBy(s, "COMMIT") || Router.LedBy(s, "ROLLBACK")
    ensures !Router.LedBy(s, "START TRANSACTION") && !Router.LedBy(s, "BEGIN")
  {
    Router.LedByFirst(s);
  }

  lemma FreshIs(s: State)
    ensures FreshState(s) ==> s.len == 0
  {
  }

  /** In a fresh session a prepared COMMIT or ROLLBACK that is not blocked makes a batch that ends unbound. */
  lemma CommitReachesLoss(p: Router.Policy, s: State, m: Message)
    requires FreshState(s) && m.Parse? && !m.guard.Block? && LedByCommit(m.text)
    ensures EndsUnbound(After(p, s, m))
  {
    hide Router.TxPrefix, Router.Normal, LedByCommit, Router.LooksLikeTx, Classifier.Classify, Router.RecentWrite;
    CommitToWriter(m.text);
  }

  lemma CommitText()
    ensures LedByCommit("COMMIT")
  {
    var q := "COMMIT";
    assert q[0] == 'C' && Router.NoiseUnit(q) == 0 && q[0..] == q;
  }

  lemma LossLog(pool: PoolId)
    ensures var log := [Took(0, pool), Ran(0, Batch, false, false, true)];
            Lawful(log) && Replay(log) == Ledger(1, map[0 := pool], {}, {}, None) && Replay(log[..0]) == EMPTY
  {
    Append([], Took(0, pool));
    Append([Took(0, pool)], Ran(0, Batch, false, false, true));
    assert [] + [Took(0, pool)] == [Took(0, pool)];
    assert [Took(0, pool)] + [Ran(0, Batch, false, false, true)] == [Took(0, pool), Ran(0, Batch, false, false, true)];
  }

  /** The shortest run that loses a connection: Parse COMMIT, then Sync. */
  lemma LossHappens(p: Router.Policy, s: State, pool: PoolId) returns (heads: seq<Head>, log: seq<Event>)
    requires FreshState(s)
    ensures Story(p, heads, log) && Losses(heads) == 1 && Lawful(log) && Replay(log).held == map[0 := pool]
    ensures |heads| == 2 && heads[0].msg == Parse("", "COMMIT", None, 0, Pass) && heads[1].msg == Sync
  {
    hide *;
    CommitText();
    var m := Parse("", "COMMIT", None, 0, Pass);
    log := [Took(0, pool), Ran(0, Batch, false, false, true)];
    CommitReachesLoss(p, s, m);
    var s' := After(p, s, m);
    FirstParse(p, s, m);
    var h := Head(0, 0, m, true, true, s, None, None, None);
    var h' := Head(0, 2, Sync, true, true, s', None, None, None);
    LossLog(pool);
    SyncIs(p, s');
    BatchIs(s');
    assert log[1] == Ran(0, Batch, s'.inTx, false, true);
    NoneRanMore([], Took(0, pool));
    NoneRanYet(log);
    assert [] + [Took(0, pool)] == [Took(0, pool)] && [Took(0, pool)] + [log[1]] == log;
    RanThere([], [Took(0, pool)], log, 0, Batch, s'.inTx, InTxAfterBatch(s'), None);
    DidBatch(p, s', None, [], log);
    DidNothing(p, s, m, None, []);
    heads := [h, h'];
    assert log[..0] == [] && log[..2] == log;
    LossHead(p, h, log);
    LossHead(p, h', log);
    FirstIs(h);
    TurnFollows(p, h, s', None, None, []);
    ChainedIs(p, h, h', log);
    StoryIs(p, heads, log);
    assert forall k | 0 < k < |heads| :: Chained(p, heads[k - 1], heads[k], log);
    HeadIs(h);
    HeadIs(h');
    TwoLosses(h, h');
  }

  lemma FirstParse(p: Router.Policy, s: State, m: Message)
    requires FreshState(s) && m.Parse?
    ensures var s' := After(p, s, m); !s.inTx && !s.bound && !s'.inTx && !s'.bound
  {
    hide Router.TxPrefix, Router.RouteStatement;
  }

  lemma LossHead(p: Router.Policy, h: Head, log: seq<Event>)
    requires h.at == 0 <= h.to <= |log| && !h.state.bound && !h.state.inTx && h.writer == None && h.reader == None
    requires h.taken && h.through
    requires Replay(log[..0]) == EMPTY && Did(p, h.state, h.msg, None, [], log[..h.to])
    ensures HeadOk(p, h, log)
  {
    hide Replay, Did;
    assert log[..0] == [];
  }

  lemma FirstIs(h: Head)
    ensures First(h) <==> h.at == 0 && FreshState(h.state) && h.reader == None && h.readerPool == None
  {
    hide FreshState;
  }

  lemma ChainedIs(p: Router.Policy, h: Head, h': Head, log: seq<Event>)
    ensures Chained(p, h, h', log) <==>
            h'.at <= |log| && Follows(p, h, h'.state, h'.reader, h'.readerPool, log[..h'.at])
  {
    hide Follows;
  }

  lemma TwoLosses(h: Head, h': Head)
    ensures Losses([h, h']) == (if Loses(h) then 1 else 0) + if Loses(h') then 1 else 0
  {
    hide Loses;
    LossesMore([], h);
    LossesMore([h], h');
    assert [] + [h] == [h] && [h] + [h'] == [h, h'];
  }

  // ---- Making a head ----

  /** The machine's answer to a simple query, in terms of the routing. */
  lemma QueryIs(p: Router.Policy, s: State, m: Message)
    requires m.Query?
    ensures m.guard.Block? ==> AfterQuery(p, s, m) == s
    ensures !m.guard.Block? ==>
              var (route, t) := Routing(p, s, m);
              AfterQuery(p, s, m) ==
              s.(inTx := t.inTx, pinned := t.pinned, lastWrite := t.lastWrite,
                 bound := if route.Reader? then s.bound else BoundAfterQuery(s.bound, s.inTx, t.inTx, t.pinned))
    ensures !m.guard.Block? ==> Tracked(AfterQuery(p, s, m)) == Routing(p, s, m).1
    ensures After(p, s, m) == AfterQuery(p, s, m)
  {
    hide Routing;
  }

  lemma DidNothing(p: Router.Policy, s: State, m: Message, writer: Option<Lease>, log: seq<Event>)
    requires !m.Sync? && (m.Query? ==> m.guard.Block?)
    ensures Did(p, s, m, writer, log, log)
  {
    hide After, Routing;
  }

  lemma DidQuery(p: Router.Policy, s: State, m: Message, writer: Option<Lease>, before: seq<Event>, after: seq<Event>)
    requires m.Query? && !m.guard.Block?
    requires var work, now := SimpleWrite(IsSessionModifying(m.text)), AfterQuery(p, s, m).inTx;
             if Routing(p, s, m).0.Writer? then RunsOn(before, after, work, s.inTx, now, writer)
             else after == before || (RunsOnce(before, after, Read, false, false) && TriesReader(before, after))
    ensures Did(p, s, m, writer, before, after)
  {
    hide AfterQuery, Routing, RunsOn, RunsOnce, TriesReader;
  }

  lemma AtWithin(h: Head, log: seq<Event>)
    requires InTxBound(h, log)
    ensures h.at <= |log|
  {
    hide Replay;
  }

  lemma InTxLater(h: Head, log: seq<Event>, log': seq<Event>)
    requires InTxBound(h, log) && log <= log'
    ensures InTxBound(h, log') && forall t, u, n :: InTxBound(h.(taken := t, through := u, to := n), log')
  {
    hide Replay;
    assert log[..h.at] == log'[..h.at];
  }

  lemma HeadStands(p: Router.Policy, h0: Head, h: Head, before: seq<Event>, log: seq<Event>)
    requires InTxBound(h0, before) && h0.at == |before| && before <= log && h.to == |log|
    requires h == h0.(taken := h.taken, through := h.through, to := h.to)
    requires SyncsAt(h) && h.reader.Some? ==>
               && h.readerPool.Some?
               && if ToReader(h.state) && !h.state.blocked then RunsFirst(before, log, h.reader.value)
                  else DropsFirst(before, log, h.reader.value, h.readerPool.value)
    requires h.taken && h.through ==> Did(p, h.state, h.msg, h.writer, before, log)
    requires h.taken && !h.through ==> h.msg.Terminate? || Troubled(before, log)
    ensures HeadOk(p, h, log)
  {
    hide RunsFirst, DropsFirst, Did, Troubled;
    InTxLater(h0, before, log);
    assert log[..h.at] == before && log[..h.to] == log;
  }

  lemma NotTaken(p: Router.Policy, h: Head, log: seq<Event>)
    requires !h.taken && InTxBound(h, log) && h.at == h.to == |log|
    ensures HeadOk(p, h, log) && !Loses(h) && Follows(p, h, h.state, h.reader, h.readerPool, log)
  {
    hide Replay, Did, After;
  }

  lemma ParseIs(p: Router.Policy, s: State, m: Message)
    requires m.Parse?
    ensures var pinned := s.pinned || (m.guard.Pin? && !s.blocked);
            var route := Router.RouteStatement(p, Tracked(s), m.text, m.parsed, m.time);
            var mark := Router.TxPrefix(m.text);
            AfterParse(p, s, m) ==
            s.(stmts := s.stmts[m.name := route], pinned := pinned, len := s.len + 1,
               route := if s.inTx || pinned || s.bound then Router.Writer else route,
               starts := s.starts || mark.Opens?, ends := s.ends || mark.Closes?,
               blocked := s.blocked || m.guard.Block?)
  {
    hide Router.TxPrefix, Router.RouteStatement;
  }

  lemma BatchIs(s: State)
    ensures InTxAfterBatch(s) <==> (s.inTx || s.starts) && !s.ends
    ensures BoundAfterBatch(s) <==>
            if s.ends then s.bound && s.pinned else s.starts || (s.bound && s.inTx) || !s.executes || s.pinned
  {
  }

  lemma SyncIs(p: Router.Policy, s: State)
    ensures ToReader(s) <==> s.route.Reader? && !s.inTx && !s.bound
    ensures EndsUnbound(s) <==> !ToReader(s) && s.ends && !s.bound && !s.blocked
    ensures AfterSync(s) == After(p, s, Sync) == if s.blocked then EmptyBatch(s).(blocked := false)
                            else if ToReader(s) then EmptyBatch(s)
                            else EmptyBatch(s.(inTx := InTxAfterBatch(s), bound := BoundAfterBatch(s)))
    ensures EmptyBatch(s) == s.(len := 0, route := Router.Reader, starts := false, ends := false, executes := false)
  {
  }

  lemma EmptiedIs(s: State, s': State)
    requires !s.blocked && !ToReader(s) && s' == s.(inTx := InTxAfterBatch(s), bound := BoundAfterBatch(s))
    ensures EmptyBatch(s') == AfterSync(s)
  {
  }

  lemma AfterIs(p: Router.Policy, s: State, m: Message)
    ensures m.Query? ==> After(p, s, m) == AfterQuery(p, s, m)
    ensures m.Sync? ==> After(p, s, m) == AfterSync(s)
  {
    hide AfterQuery, AfterSync;
  }

  lemma BufferIs(p: Router.Policy, s: State, m: Message)
    ensures m.Parse? ==> After(p, s, m) == AfterParse(p, s, m)
    ensures m.Bind? ==> After(p, s, m) == AfterBind(s, m.name)
    ensures m.Close? ==> After(p, s, m) == s.(stmts := s.stmts - {m.name}, len := s.len + 1)
    ensures m.Execute? ==> After(p, s, m) == s.(executes := true, len := s.len + 1)
    ensures m.Other? ==> After(p, s, m) == s.(len := s.len + 1)
  {
    hide AfterParse, AfterBind;
  }

  lemma SyncInTx(p: Router.Policy, s: State)
    requires !s.blocked && !ToReader(s)
    ensures After(p, s, Sync).inTx == InTxAfterBatch(s)
  {
    hide BoundAfterBatch, InTxAfterBatch, ToReader;
  }

  lemma DidIs(p: Router.Policy, s: State, writer: Option<Lease>, before: seq<Event>, after: seq<Event>)
    ensures Did(p, s, Sync, writer, before, after) <==>
            if s.blocked then NoneRan(before, after)
            else if ToReader(s) then after == before || RunsOnce(before, after, Batch, false, false)
            else RunsOn(before, after, Batch, s.inTx, After(p, s, Sync).inTx, writer)
  {
    hide RunsOn, RunsOnce, NoneRan, ToReader, After, Routing, IsSessionModifying;
  }

  lemma DidBatch(p: Router.Policy, s: State, writer: Option<Lease>, before: seq<Event>, after: seq<Event>)
    requires !s.blocked && !ToReader(s) && RunsOn(before, after, Batch, s.inTx, InTxAfterBatch(s), writer)
    ensures Did(p, s, Sync, writer, before, after)
  {
    hide *;
    SyncInTx(p, s);
    DidIs(p, s, writer, before, after);
  }

  lemma DidBatchRead(p: Router.Policy, s: State, writer: Option<Lease>, before: seq<Event>, after: seq<Event>)
    requires !s.blocked && ToReader(s) && (after == before || RunsOnce(before, after, Batch, false, false))
    ensures Did(p, s, Sync, writer, before, after)
  {
    hide *;
    DidIs(p, s, writer, before, after);
  }

  lemma DidBlocked(p: Router.Policy, s: State, writer: Option<Lease>, before: seq<Event>, after: seq<Event>)
    requires s.blocked && NoneRan(before, after)
    ensures Did(p, s, Sync, writer, before, after)
  {
    hide *;
    DidIs(p, s, writer, before, after);
  }

  /** Giving a reader back first does not change what the batch on the writer path did. */
  lemma DidLater(p: Router.Policy, s: State, writer: Option<Lease>, log0: seq<Event>, log1: seq<Event>,
                 log2: seq<Event>)
    requires !s.blocked && !ToReader(s) && NoneRan(log0, log1) && Did(p, s, Sync, writer, log1, log2)
    ensures Did(p, s, Sync, writer, log0, log2)
  {
    hide *;
    DidIs(p, s, writer, log0, log2);
    DidIs(p, s, writer, log1, log2);
    LaterOn(log0, log1, log2, Batch, s.inTx, After(p, s, Sync).inTx, writer);
  }

  lemma DroppedIs(before: seq<Event>, after: seq<Event>, c: Lease, p: PoolId)
    requires after == before + [Reset(c, true), Released(c, p)] || after == before + [Reset(c, false), Discarded(c, p)]
    ensures before <= after && DropsFirst(before, after, c, p) && NoneRan(before, after)
  {
  }

  lemma DropsLater(before: seq<Event>, after: seq<Event>, log: seq<Event>, c: Lease, p: PoolId)
    requires DropsFirst(before, after, c, p) && after <= log
    ensures DropsFirst(before, log, c, p)
  {
  }

  lemma HeadIs(h: Head)
    ensures SyncsAt(h) <==> h.taken && h.msg.Sync?
    ensures Loses(h) <==> h.taken && h.msg.Sync? && h.through && EndsUnbound(h.state)
  {
  }

  lemma TurnFollows(p: Router.Policy, h: Head, s: State, reader: Option<Lease>, readerPool: Option<PoolId>,
                    log: seq<Event>)
    requires h.taken && h.to == |log| && s == After(p, h.state, h.msg)
    requires !h.msg.Sync? ==> reader == h.reader && readerPool == h.readerPool
    requires h.msg.Sync? && reader.Some? ==> RanLast(log, reader.value)
    ensures Follows(p, h, s, reader, readerPool, log)
  {
    hide After;
  }

  /** The next head takes up where the last turn left off. */
  lemma TakesUp(p: Router.Policy, heads: seq<Head>, here: Head, h: Head, before: seq<Event>, log: seq<Event>)
    requires h == here.(taken := h.taken, through := h.through, to := h.to) && here.at == |before| && before <= log
    requires heads == [] ==> FreshState(here.state) && before == [] && here.reader == None && here.readerPool == None
    requires heads != [] ==> Follows(p, heads[|heads| - 1], here.state, here.reader, here.readerPool, before)
    ensures if heads == [] then First(h) else Chained(p, heads[|heads| - 1], h, log)
  {
    hide Follows, FreshState;
    assert log[..h.at] == before;
  }

  lemma FateIs(fate: Fate, h: Head)
    ensures TakenUp(fate, h.state, h.msg) <==>
            fate.Passed? && (h.msg.Query? || h.msg.Terminate? || h.state.len < MAX_BUFFERED)
    ensures Stops(fate, h) <==>
            fate.Cut? || (fate.Passed? && (!h.taken || !h.through || (Loses(h) && !h.state.pinned)))
  {
    hide Loses;
  }

  lemma AgainIs(before: seq<Event>, after: seq<Event>)
    requires TriesAgain(before, after)
    ensures TriesReader(before, after)
  {
  }
}
