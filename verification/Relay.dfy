/** Relaying a backend's answer to the client (internal/proxy/copy.go), plainly or while collecting it for the
    cache. COPY sub-protocols are those of section 55.2.6 of the PostgreSQL 16 documentation. */
module Relay {
  import opened Options
  import opened Wire

  const READY_FOR_QUERY: Byte := 'Z' as int
  const COPY_IN: Byte := 'G' as int
  const COPY_OUT: Byte := 'H' as int
  const COPY_BOTH: Byte := 'W' as int
  const COPY_DATA: Byte := 'd' as int

  /** What each side will still send, what it was sent, and how many more bytes it takes before its
      connection breaks. */
  datatype Io = Io(backendIn: Bytes, clientIn: Bytes, toClient: Bytes, toBackend: Bytes, clientRoom: nat,
                   backendRoom: nat)

  /** A write that breaks the connection may get part of the bytes through. */
  function SendClient(io: Io, b: Bytes): (r: (bool, Io))
    ensures r.0 ==> r.1 == io.(toClient := io.toClient + b, clientRoom := r.1.clientRoom)
    ensures io.toClient <= r.1.toClient && r.1.backendIn == io.backendIn && r.1.clientIn == io.clientIn
  {
    if |b| <= io.clientRoom then (true, io.(toClient := io.toClient + b, clientRoom := io.clientRoom - |b|))
    else (false, io.(toClient := io.toClient + b[..io.clientRoom], clientRoom := 0))
  }

  function SendBackend(io: Io, b: Bytes): (r: (bool, Io))
    ensures r.1.toClient == io.toClient && r.1.backendIn == io.backendIn && r.1.clientIn == io.clientIn
  {
    if |b| <= io.backendRoom then (true, io.(toBackend := io.toBackend + b, backendRoom := io.backendRoom - |b|))
    else (false, io.(toBackend := io.toBackend + b[..io.backendRoom], backendRoom := 0))
  }

  /** relayCopyIn: client to backend until something other than data has been passed on. */
  function CopyIn(io: Io): (r: (bool, Io))
    ensures r.1.toClient == io.toClient && r.1.backendIn == io.backendIn
    decreases |io.clientIn|
  {
    match ReadFrame(io.clientIn)
    case Failed(_) => (false, io)
    case Got(kind, payload, rest) =>
      var (ok, io') := SendBackend(io.(clientIn := rest), Frame(kind, payload));
      if !ok then (false, io') else if kind == COPY_DATA then CopyIn(io') else (true, io')
  }

  /** relayCopyOut: backend to client until something other than data has been passed on. */
  function CopyOut(io: Io): (r: (bool, Io))
    ensures io.toClient <= r.1.toClient && |r.1.backendIn| <= |io.backendIn|
    decreases |io.backendIn|
  {
    match ReadFrame(io.backendIn)
    case Failed(_) => (false, io)
    case Got(kind, payload, rest) =>
      var (ok, io') := SendClient(io.(backendIn := rest), Frame(kind, payload));
      if !ok then (false, io') else if kind == COPY_DATA then CopyOut(io') else (true, io')
  }

  /** How a relay ends: the backend is ready, an I/O error, or the replication mode that follows its own rules. */
  datatype Status = Ready | Broken | Replication

  datatype Next = Stop(status: Status) | More(copied: bool)

  /** One message from the backend, passed on to the client; nothing if either side fails. */
  function Forward(io: Io): (r: (Option<Message>, Io))
    ensures io.toClient <= r.1.toClient
    ensures r.0.Some? ==> |r.1.backendIn| < |io.backendIn|
    ensures r.0.Some? ==> r.1.toClient == io.toClient + Frame(r.0.value.kind, r.0.value.payload)
  {
    match ReadFrame(io.backendIn)
    case Failed(_) => (None, io)
    case Got(kind, payload, rest) =>
      var (ok, io') := SendClient(io.(backendIn := rest), Frame(kind, payload));
      (if ok then Some(Message(kind, payload)) else None, io')
  }

  /** What the message starts. */
  function Dispatch(kind: Byte, io: Io): (r: (Next, Io))
    ensures io.toClient <= r.1.toClient && |r.1.backendIn| <= |io.backendIn|
    ensures !(r.0.More? && r.0.copied) && !r.0.Stop? ==> r.1 == io
    ensures r.0 == Stop(Ready) ==> r.1 == io
  {
    if kind == READY_FOR_QUERY then (Stop(Ready), io)
    else if kind == COPY_IN then
      var (done, io') := CopyIn(io); (if done then More(true) else Stop(Broken), io')
    else if kind == COPY_OUT then
      var (done, io') := CopyOut(io); (if done then More(true) else Stop(Broken), io')
    else if kind == COPY_BOTH then (Stop(Replication), io)
    else (More(false), io)
  }

  function Turn(io: Io): (r: (Next, Io))
    ensures io.toClient <= r.1.toClient && (r.0.More? ==> |r.1.backendIn| < |io.backendIn|)
  {
    var (m, io') := Forward(io);
    if m.None? then (Stop(Broken), io') else Dispatch(m.value.kind, io')
  }

  /** The whole relay: its end, the streams then, and whether a COPY ran on the way. */
  function Whole(io: Io): (r: (Status, Io, bool))
    ensures io.toClient <= r.1.toClient
    decreases |io.backendIn|
  {
    var (next, io') := Turn(io);
    match next
    case Stop(status) => (status, io', false)
    case More(copied) => var (status, end, later) := Whole(io'); (status, end, copied || later)
  }

  // ---- Transparency ----

  /** What was taken from each side since has been given to the other, in order. */
  predicate Passed(io: Io, io': Io) {
    && io.toClient <= io'.toClient && io.toBackend <= io'.toBackend
    && io.backendIn == io'.toClient[|io.toClient|..] + io'.backendIn
    && io.clientIn == io'.toBackend[|io.toBackend|..] + io'.clientIn
  }

  lemma Joins(a: Bytes, b: Bytes, c: Bytes, u: Bytes, v: Bytes, w: Bytes)
    requires a <= b <= c && u == b[|a|..] + v && v == c[|b|..] + w
    ensures u == c[|a|..] + w
  {
    assert c[|a|..] == b[|a|..] + c[|b|..];
    assert b[|a|..] + (c[|b|..] + w) == b[|a|..] + c[|b|..] + w;
  }

  lemma PassedOn(io: Io, mid: Io, end: Io)
    requires Passed(io, mid) && Passed(mid, end)
    ensures Passed(io, end)
  {
    Joins(io.toClient, mid.toClient, end.toClient, io.backendIn, mid.backendIn, end.backendIn);
    Joins(io.toBackend, mid.toBackend, end.toBackend, io.clientIn, mid.clientIn, end.clientIn);
  }

  lemma PassedNothing(io: Io)
    ensures Passed(io, io)
  {
    assert io.toClient[|io.toClient|..] == [] && io.toBackend[|io.toBackend|..] == [];
  }

  /** A frame read from one side and written to the other. */
  lemma PassedFrame(io: Io, r: Read, io': Io)
    requires r.Got?
    requires (ReadFrame(io.backendIn) == r
              && io' == io.(backendIn := r.rest, toClient := io.toClient + Frame(r.kind, r.payload),
                            clientRoom := io'.clientRoom))
             || (ReadFrame(io.clientIn) == r
                 && io' == io.(clientIn := r.rest, toBackend := io.toBackend + Frame(r.kind, r.payload),
                               backendRoom := io'.backendRoom))
    ensures Passed(io, io')
  {
    var raw := Frame(r.kind, r.payload);
    if ReadFrame(io.backendIn) == r { WrittenRead(io.backendIn); }
    if ReadFrame(io.clientIn) == r { WrittenRead(io.clientIn); }
    hide ReadFrame, Frame;
    assert (io.toClient + raw)[|io.toClient|..] == raw && (io.toBackend + raw)[|io.toBackend|..] == raw;
    assert io.toClient[|io.toClient|..] == [] && io.toBackend[|io.toBackend|..] == [];
  }

  lemma {:induction false} CopyInPasses(io: Io)
    requires CopyIn(io).0
    ensures Passed(io, CopyIn(io).1)
    decreases |io.clientIn|
  {
    hide Passed, Frame, ReadFrame;
    var r := ReadFrame(io.clientIn);
    var mid := SendBackend(io.(clientIn := r.rest), Frame(r.kind, r.payload)).1;
    PassedFrame(io, r, mid);
    if r.kind == COPY_DATA {
      ShorterRest(io.clientIn);
      CopyInPasses(mid);
      PassedOn(io, mid, CopyIn(io).1);
    }
  }

  lemma ShorterRest(s: Bytes)
    requires ReadFrame(s).Got?
    ensures |ReadFrame(s).rest| < |s|
  {
  }

  lemma {:induction false} CopyOutPasses(io: Io)
    requires CopyOut(io).0
    ensures Passed(io, CopyOut(io).1)
    decreases |io.backendIn|
  {
    hide Passed, Frame, ReadFrame;
    var r := ReadFrame(io.backendIn);
    var mid := SendClient(io.(backendIn := r.rest), Frame(r.kind, r.payload)).1;
    PassedFrame(io, r, mid);
    if r.kind == COPY_DATA {
      ShorterRest(io.backendIn);
      CopyOutPasses(mid);
      PassedOn(io, mid, CopyOut(io).1);
    }
  }

  lemma TurnPasses(io: Io)
    requires Turn(io).0 != Stop(Broken)
    ensures Passed(io, Turn(io).1)
  {
    hide Passed, Frame, ReadFrame, CopyIn, CopyOut;
    var r, mid := ReadFrame(io.backendIn), Forward(io).1;
    PassedFrame(io, r, mid);
    PassedNothing(mid);
    if r.kind == COPY_IN { CopyInPasses(mid); }
    if r.kind == COPY_OUT { CopyOutPasses(mid); }
    PassedOn(io, mid, Turn(io).1);
  }

  /** A relay that ends with the backend ready has passed every byte it took from either side on to the
      other, COPY data included: nothing lost, nothing added, nothing reordered. */
  lemma {:induction false} RelayIsTransparent(io: Io)
    requires Whole(io).0 == Ready
    ensures Passed(io, Whole(io).1)
    decreases |io.backendIn|
  {
    hide Passed, Turn;
    TurnPasses(io);
    if Turn(io).0.More? {
      RelayIsTransparent(Turn(io).1);
      PassedOn(io, Turn(io).1, Whole(io).1);
    }
  }

  // ---- The code ----

  method RelayCopyIn(start: Io) returns (ok: bool, io: Io)
    ensures (ok, io) == CopyIn(start)
  {
    io := start;
    while true
      invariant CopyIn(io) == CopyIn(start)
      decreases |io.clientIn|
    {
      match ReadFrame(io.clientIn)
      case Failed(_) => return false, io;
      case Got(kind, payload, rest) =>
        var (sent, io') := SendBackend(io.(clientIn := rest), Frame(kind, payload));
        ok, io := sent, io';
        if !ok || kind != COPY_DATA { return; }
    }
  }

  method RelayCopyOut(start: Io) returns (ok: bool, io: Io)
    ensures (ok, io) == CopyOut(start)
  {
    io := start;
    while true
      invariant CopyOut(io) == CopyOut(start)
      decreases |io.backendIn|
    {
      match ReadFrame(io.backendIn)
      case Failed(_) => return false, io;
      case Got(kind, payload, rest) =>
        var (sent, io') := SendClient(io.(backendIn := rest), Frame(kind, payload));
        ok, io := sent, io';
        if !ok || kind != COPY_DATA { return; }
    }
  }

  /** The switch both loops end with. */
  method SwitchOn(kind: Byte, start: Io) returns (next: Next, io: Io)
    ensures (next, io) == Dispatch(kind, start)
  {
    hide CopyIn, CopyOut;
    io := start;
    var ok;
    if kind == READY_FOR_QUERY {
      return Stop(Ready), io;
    } else if kind == COPY_IN {
      ok, io := RelayCopyIn(io);
      return if ok then More(true) else Stop(Broken), io;
    } else if kind == COPY_OUT {
      ok, io := RelayCopyOut(io);
      return if ok then More(true) else Stop(Broken), io;
    } else if kind == COPY_BOTH {
      return Stop(Replication), io;
    }
    return More(false), io;
  }

  lemma WholeUnfold(io: Io)
    ensures var (m, mid) := Forward(io);
            if m.None? then Whole(io) == (Broken, mid, false)
            else
              var (next, io') := Dispatch(m.value.kind, mid);
              match next
              case Stop(status) => Whole(io) == (status, io', false)
              case More(copied) => Whole(io) == (Whole(io').0, Whole(io').1, copied || Whole(io').2)
  {
    hide Forward, Dispatch;
  }

  /** relayUntilReady. */
  method RelayUntilReady(start: Io) returns (status: Status, io: Io)
    ensures status == Whole(start).0 && io == Whole(start).1
  {
    hide Forward, Dispatch, Frame;
    io := start;
    while true
      invariant Whole(io).0 == Whole(start).0 && Whole(io).1 == Whole(start).1
      decreases |io.backendIn|
    {
      var (m, io') := Forward(io);
      if m.None? { return Broken, io'; }
      var next;
      next, io := SwitchOn(m.value.kind, io');
      if next.Stop? { return next.status, io; }
    }
  }

  /** relayAndCollect: it ends as the plain relay does, with the same bytes on both sides. When the backend
      got ready, the bytes are returned exactly if no COPY ran and they fit the limit, and they are what the
      client received. */
  method RelayAndCollect(start: Io, max: int) returns (status: Status, io: Io, result: Option<Bytes>)
    ensures status == Whole(start).0 && io == Whole(start).1
    ensures status.Ready? ==>
              (result.Some? <==> !Whole(start).2 && (max <= 0 || |io.toClient| - |start.toClient| <= max))
    ensures result.Some? ==> status.Ready? && io.toClient == start.toClient + result.value
  {
    hide *;
    io := start;
    var buf: Bytes, oversize := [], false;
    ghost var copied := false;
    while true
      invariant Whole(io).0 == Whole(start).0 && Whole(io).1 == Whole(start).1
      invariant Whole(start).2 <==> copied || Whole(io).2
      invariant start.toClient <= io.toClient
      invariant !oversize ==> !copied && io.toClient == start.toClient + buf && (max > 0 ==> |buf| <= max)
      invariant oversize ==> copied || (max > 0 && |io.toClient| - |start.toClient| > max)
      decreases |io.backendIn|
    {
      WholeUnfold(io);
      var (m, io1) := Forward(io);
      if m.None? { return Broken, io1, None; }
      var wire := Frame(m.value.kind, m.value.payload);
      assert start.toClient + buf + wire == start.toClient + (buf + wire);
      buf, oversize := Collect(buf, oversize, max, wire);
      var next;
      next, io := SwitchOn(m.value.kind, io1);
      if next.Stop? {
        result := if next.status.Ready? && !oversize then Some(buf) else None;
        return next.status, io, result;
      }
      if next.copied { buf, oversize, copied := [], true, true; }
    }
  }

  /** Collecting one message, until the limit is passed. */
  method Collect(buf: Bytes, oversize: bool, max: int, wire: Bytes) returns (buf': Bytes, oversize': bool)
    ensures oversize ==> oversize'
    ensures !oversize ==> (oversize' <==> max > 0 && |buf| + |wire| > max)
    ensures !oversize' ==> buf' == buf + wire
  {
    buf', oversize' := buf, oversize;
    if !oversize {
      buf' := buf + wire;
      if max > 0 && |buf'| > max { buf', oversize' := [], true; }
    }
  }
}
