/** What the relay makes of a whole conversation (internal/proxy/copy.go): answers, COPY from the client and COPY to
    the client in any order, up to the backend's ReadyForQuery. */
module Conversations {
  import opened Options
  import opened Wire
  import opened Relay

  datatype Talk =
    | Says(m: Message)                                             // any answer that switches no mode
    | CopiesIn(open: Bytes, data: seq<Bytes>, last: Message)       // the client sends data, then something else
    | CopiesOut(open: Bytes, data: seq<Bytes>, last: Message)      // the backend does

  predicate Fits(payload: Bytes) {
    |payload| <= MAX_MESSAGE_SIZE
  }

  predicate IsTalk(t: Talk) {
    match t
    case Says(m) => Fits(m.payload) && m.kind !in [READY_FOR_QUERY, COPY_IN, COPY_OUT, COPY_BOTH]
    case CopiesIn(open, data, last) =>
      Fits(open) && (forall d | d in data :: Fits(d)) && Fits(last.payload) && last.kind != COPY_DATA
    case CopiesOut(open, data, last) =>
      Fits(open) && (forall d | d in data :: Fits(d)) && Fits(last.payload) && last.kind != COPY_DATA
  }

  function Data(data: seq<Bytes>, last: Message): Bytes {
    if data == [] then Frame(last.kind, last.payload) else Frame(COPY_DATA, data[0]) + Data(data[1..], last)
  }

  function BackendPart(t: Talk): Bytes {
    match t
    case Says(m) => Frame(m.kind, m.payload)
    case CopiesIn(open, _, _) => Frame(COPY_IN, open)
    case CopiesOut(open, data, last) => Frame(COPY_OUT, open) + Data(data, last)
  }

  function ClientPart(t: Talk): Bytes {
    if t.CopiesIn? then Data(t.data, t.last) else []
  }

  function BackendSide(ts: seq<Talk>, ready: Bytes): Bytes {
    if ts == [] then Frame(READY_FOR_QUERY, ready) else BackendPart(ts[0]) + BackendSide(ts[1..], ready)
  }

  function ClientSide(ts: seq<Talk>): Bytes {
    if ts == [] then [] else ClientPart(ts[0]) + ClientSide(ts[1..])
  }

  /** The streams after b went from the backend to the client and c the other way. */
  function Moved(io: Io, b: Bytes, restB: Bytes, c: Bytes, restC: Bytes): Io
    requires io.backendIn == b + restB && io.clientIn == c + restC && |b| <= io.clientRoom && |c| <= io.backendRoom
  {
    Io(restB, restC, io.toClient + b, io.toBackend + c, io.clientRoom - |b|, io.backendRoom - |c|)
  }

  lemma ForwardOne(io: Io, kind: Byte, payload: Bytes, rest: Bytes)
    requires io.backendIn == Frame(kind, payload) + rest && Fits(payload) && |Frame(kind, payload)| <= io.clientRoom
    ensures Forward(io) == (Some(Message(kind, payload)),
                            io.(backendIn := rest, toClient := io.toClient + Frame(kind, payload),
                                clientRoom := io.clientRoom - |Frame(kind, payload)|))
  {
    hide Frame, ReadFrame;
    ReadIffWritten(io.backendIn, kind, payload, rest);
  }

  lemma {:induction false} CopyInAll(io: Io, data: seq<Bytes>, last: Message, rest: Bytes)
    requires (forall d | d in data :: Fits(d)) && Fits(last.payload) && last.kind != COPY_DATA
    requires io.clientIn == Data(data, last) + rest && |Data(data, last)| <= io.backendRoom
    ensures var c := Data(data, last);
            CopyIn(io) ==
            (true, io.(clientIn := rest, toBackend := io.toBackend + c, backendRoom := io.backendRoom - |c|))
    decreases |data|
  {
    hide Frame, ReadFrame;
    if data == [] {
      ReadIffWritten(io.clientIn, last.kind, last.payload, rest);
    } else {
      var f, more := Frame(COPY_DATA, data[0]), Data(data[1..], last) + rest;
      assert data[0] in data && io.clientIn == f + more;
      ReadIffWritten(io.clientIn, COPY_DATA, data[0], more);
      var mid := io.(clientIn := more, toBackend := io.toBackend + f, backendRoom := io.backendRoom - |f|);
      CopyInAll(mid, data[1..], last, rest);
      assert mid.toBackend + Data(data[1..], last) == io.toBackend + Data(data, last);
    }
  }

  lemma {:induction false} CopyOutAll(io: Io, data: seq<Bytes>, last: Message, rest: Bytes)
    requires (forall d | d in data :: Fits(d)) && Fits(last.payload) && last.kind != COPY_DATA
    requires io.backendIn == Data(data, last) + rest && |Data(data, last)| <= io.clientRoom
    ensures var b := Data(data, last);
            CopyOut(io) ==
            (true, io.(backendIn := rest, toClient := io.toClient + b, clientRoom := io.clientRoom - |b|))
    decreases |data|
  {
    hide Frame, ReadFrame;
    if data == [] {
      ReadIffWritten(io.backendIn, last.kind, last.payload, rest);
    } else {
      var f, more := Frame(COPY_DATA, data[0]), Data(data[1..], last) + rest;
      assert data[0] in data && io.backendIn == f + more;
      ReadIffWritten(io.backendIn, COPY_DATA, data[0], more);
      var mid := io.(backendIn := more, toClient := io.toClient + f, clientRoom := io.clientRoom - |f|);
      CopyOutAll(mid, data[1..], last, rest);
      assert mid.toClient + Data(data[1..], last) == io.toClient + Data(data, last);
    }
  }

  lemma TurnOne(io: Io, t: Talk, restB: Bytes, restC: Bytes)
    requires IsTalk(t) && io.backendIn == BackendPart(t) + restB && io.clientIn == ClientPart(t) + restC
    requires |BackendPart(t)| <= io.clientRoom && |ClientPart(t)| <= io.backendRoom
    ensures Turn(io) == (More(!t.Says?), Moved(io, BackendPart(t), restB, ClientPart(t), restC))
  {
    hide Frame, CopyIn, CopyOut, Forward, Data;
    match t
    case Says(m) =>
      ForwardOne(io, m.kind, m.payload, restB);
      assert io.toBackend + [] == io.toBackend && [] + restC == restC;
    case CopiesIn(open, data, last) =>
      ForwardOne(io, COPY_IN, open, restB);
      CopyInAll(Forward(io).1, data, last, restC);
    case CopiesOut(open, data, last) =>
      var f, d := Frame(COPY_OUT, open), Data(data, last);
      assert io.backendIn == f + (d + restB);
      ForwardOne(io, COPY_OUT, open, d + restB);
      CopyOutAll(Forward(io).1, data, last, restB);
      assert io.toClient + f + d == io.toClient + (f + d);
      assert io.toBackend + [] == io.toBackend && [] + restC == restC;
  }

  predicate Copies(ts: seq<Talk>) {
    exists t | t in ts :: !t.Says?
  }

  /** The relay passes a conversation on message by message, each COPY in its own direction, stops right after the first
      ReadyForQuery, and leaves what follows on either side unread. */
  lemma {:induction false} RelaysConversation(io: Io, ts: seq<Talk>, ready: Bytes, restB: Bytes, restC: Bytes)
    requires (forall t | t in ts :: IsTalk(t)) && Fits(ready)
    requires io.backendIn == BackendSide(ts, ready) + restB && io.clientIn == ClientSide(ts) + restC
    requires |BackendSide(ts, ready)| <= io.clientRoom && |ClientSide(ts)| <= io.backendRoom
    ensures Whole(io) == (Ready, Moved(io, BackendSide(ts, ready), restB, ClientSide(ts), restC), Copies(ts))
    decreases |ts|
  {
    hide Frame, Turn, BackendPart, ClientPart, IsTalk;
    if ts == [] {
      assert io.backendIn == Frame(READY_FOR_QUERY, ready) + restB;
      LastTurn(io, ready, restB);
      assert io.toBackend + [] == io.toBackend && [] + restC == restC;
    } else {
      var t, b, c := ts[0], BackendSide(ts[1..], ready), ClientSide(ts[1..]);
      assert t in ts && io.backendIn == BackendPart(t) + (b + restB) && io.clientIn == ClientPart(t) + (c + restC);
      TurnOne(io, t, b + restB, c + restC);
      var mid := Moved(io, BackendPart(t), b + restB, ClientPart(t), c + restC);
      assert forall x | x in ts[1..] :: x in ts;
      RelaysConversation(mid, ts[1..], ready, restB, restC);
      assert mid.toClient + b == io.toClient + (BackendPart(t) + b);
      assert mid.toBackend + c == io.toBackend + (ClientPart(t) + c);
      CopiesStep(ts);
    }
  }

  lemma LastTurn(io: Io, ready: Bytes, restB: Bytes)
    requires Fits(ready) && io.backendIn == Frame(READY_FOR_QUERY, ready) + restB
    requires |Frame(READY_FOR_QUERY, ready)| <= io.clientRoom
    ensures var f := Frame(READY_FOR_QUERY, ready);
            Turn(io) ==
            (Stop(Ready), io.(backendIn := restB, toClient := io.toClient + f, clientRoom := io.clientRoom - |f|))
  {
    hide Frame, Forward;
    ForwardOne(io, READY_FOR_QUERY, ready, restB);
  }

  lemma CopiesStep(ts: seq<Talk>)
    requires ts != []
    ensures Copies(ts) <==> !ts[0].Says? || Copies(ts[1..])
  {
    assert ts == [ts[0]] + ts[1..];
  }
}
