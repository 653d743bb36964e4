/** Wire framing (internal/protocol/message.go), in the formats of section 55.7 of the PostgreSQL 16
    documentation. A Go string is its bytes. */
module Wire {
  import opened Options

  type Byte = b: int | 0 <= b < 256
  type Bytes = seq<Byte>

  const MAX_MESSAGE_SIZE: nat := 16 * 1024 * 1024
  const TWO_16: nat := 0x1_0000
  const TWO_32: nat := 0x1_0000_0000

  // ---- Big-endian numbers ----

  function U16(n: nat): (b: Bytes)
    requires n < TWO_16
    ensures |b| == 2
  {
    [n / 256, n % 256]
  }

  function U32(n: nat): (b: Bytes)
    requires n < TWO_32
    ensures |b| == 4
  {
    U16(n / TWO_16) + U16(n % TWO_16)
  }

  function Num16(b: Bytes): (n: nat)
    requires |b| == 2
    ensures n < TWO_16
  {
    var hi: int := b[0];
    hi * 256 + b[1]
  }

  function Num32(b: Bytes): (n: nat)
    requires |b| == 4
    ensures n < TWO_32
  {
    Num16(b[..2]) * TWO_16 + Num16(b[2..])
  }

  lemma Num16Inverse(n: nat, b: Bytes)
    requires n < TWO_16 && |b| == 2
    ensures b == U16(n) <==> Num16(b) == n
  {
  }

  lemma Num32Inverse(n: nat, b: Bytes)
    requires n < TWO_32 && |b| == 4
    ensures b == U32(n) <==> Num32(b) == n
  {
    var hi, lo := b[..2], b[2..];
    assert b == hi + lo;
    Num16Inverse(n / TWO_16, hi);
    Num16Inverse(n % TWO_16, lo);
    if b == U32(n) {
      assert hi == U32(n)[..2] && lo == U32(n)[2..];
    }
  }

  // ---- Frames ----

  datatype Error = ShortHeader | InvalidLength | TooLarge | ShortPayload

  datatype Read = Got(kind: Byte, payload: Bytes, rest: Bytes) | Failed(error: Error)

  /** WriteMessage; the length field is 32 bits wide. */
  function Frame(kind: Byte, payload: Bytes): Bytes {
    [kind] + U32((4 + |payload|) % TWO_32) + payload
  }

  /** ReadMessage from the front of a stream. */
  function ReadFrame(s: Bytes): Read {
    if |s| < 5 then Failed(ShortHeader)
    else
      var length := Num32(s[1..5]);
      if length < 4 then Failed(InvalidLength)
      else if length - 4 > MAX_MESSAGE_SIZE then Failed(TooLarge)
      else if |s| < 1 + length then Failed(ShortPayload)
      else Got(s[0], s[5..1 + length], s[1 + length..])
  }

  lemma Cut(a: Bytes, b: Bytes)
    ensures (a + b)[..|a|] == a && (a + b)[|a|..] == b
  {
  }

  lemma ReadWritten(kind: Byte, payload: Bytes, rest: Bytes)
    requires |payload| <= MAX_MESSAGE_SIZE
    ensures ReadFrame(Frame(kind, payload) + rest) == Got(kind, payload, rest)
  {
    var n := 4 + |payload|;
    var s := Frame(kind, payload) + rest;
    assert s[1..5] == U32(n);
    Num32Inverse(n, s[1..5]);
    hide U32, Num32;
    assert s[5..1 + n] == payload && s[1 + n..] == rest;
  }

  lemma WrittenRead(s: Bytes)
    requires ReadFrame(s).Got?
    ensures var r := ReadFrame(s); s == Frame(r.kind, r.payload) + r.rest && |r.payload| <= MAX_MESSAGE_SIZE
  {
    var n := Num32(s[1..5]);
    Num32Inverse(n, s[1..5]);
    hide U32, Num32;
    FourParts(s, 1 + n);
  }

  lemma FourParts(s: Bytes, n: nat)
    requires 5 <= n <= |s|
    ensures s == [s[0]] + s[1..5] + s[5..n] + s[n..]
  {
  }

  /** Reading yields exactly what writing within the size limit put there: the bytes of a message read are
      those of the message written again. */
  lemma ReadIffWritten(s: Bytes, kind: Byte, payload: Bytes, rest: Bytes)
    ensures ReadFrame(s) == Got(kind, payload, rest) <==>
            s == Frame(kind, payload) + rest && |payload| <= MAX_MESSAGE_SIZE
  {
    hide ReadFrame, Frame;
    if |payload| <= MAX_MESSAGE_SIZE { ReadWritten(kind, payload, rest); }
    if ReadFrame(s).Got? { WrittenRead(s); }
  }

  datatype Message = Message(kind: Byte, payload: Bytes)

  function WriteAll(ms: seq<Message>): Bytes {
    if ms == [] then [] else Frame(ms[0].kind, ms[0].payload) + WriteAll(ms[1..])
  }

  /** Messages read until the stream runs dry or fails. */
  function ReadAll(s: Bytes): seq<Message>
    decreases |s|
  {
    match ReadFrame(s)
    case Failed(_) => []
    case Got(kind, payload, rest) => [Message(kind, payload)] + ReadAll(rest)
  }

  /** Any sequence of messages within the size limit survives the wire. */
  lemma {:induction false} StreamRoundTrip(ms: seq<Message>)
    requires forall m | m in ms :: |m.payload| <= MAX_MESSAGE_SIZE
    ensures ReadAll(WriteAll(ms)) == ms
  {
    if ms != [] {
      var m, rest := ms[0], WriteAll(ms[1..]);
      assert m in ms;
      ReadIffWritten(WriteAll(ms), m.kind, m.payload, rest);
      StreamRoundTrip(ms[1..]);
    }
  }

  /** ReadMessageReuse: the message lies in the buffer, which is replaced only when it is too small. */
  method ReadMessageReuse(s: Bytes, buf: array<Byte>) returns (r: Read, buf': array<Byte>)
    modifies buf
    ensures r == ReadFrame(s)
    ensures buf' == buf || fresh(buf')
    ensures r.Got? ==> 5 + |r.payload| <= buf'.Length && buf'[..5 + |r.payload|] == Frame(r.kind, r.payload)
    ensures r.Got? && buf.Length >= 5 + |r.payload| ==> buf' == buf
  {
    buf' := buf;
    if |s| < 5 { return Failed(ShortHeader), buf; }
    var length := Num32(s[1..5]);
    if length < 4 { return Failed(InvalidLength), buf; }
    if length - 4 > MAX_MESSAGE_SIZE { return Failed(TooLarge), buf; }
    var wire := 1 + length;
    if buf.Length < wire { buf' := new Byte[wire](_ => 0); }
    var n := if |s| < wire then |s| else wire;
    CopyInto(s, buf', n);
    if |s| < wire { return Failed(ShortPayload), buf'; }
    assert buf'[5..wire] == s[5..wire];
    r := Got(buf'[0], buf'[5..wire], s[wire..]);
    ReadIffWritten(s, r.kind, r.payload, r.rest);
    assert buf'[..wire] == s[..wire];
  }

  /** io.ReadFull into the front of a buffer. */
  method CopyInto(s: Bytes, buf: array<Byte>, n: nat)
    requires n <= |s| && n <= buf.Length
    modifies buf
    ensures buf[..n] == s[..n] && buf[n..] == old(buf[n..])
  {
    for i := 0 to n
      invariant buf[..i] == s[..i] && buf[n..] == old(buf[n..])
    {
      buf[i] := s[i];
    }
  }

  // ---- Zero-terminated strings ----

  predicate NulFree(s: Bytes) {
    0 !in s
  }

  /** The bytes before the first zero byte; all of them if there is none. */
  function BeforeNul(s: Bytes): (r: Bytes)
    ensures r <= s && NulFree(r) && (|r| < |s| ==> s[|r|] == 0)
  {
    if s == [] || s[0] == 0 then [] else [s[0]] + BeforeNul(s[1..])
  }

  predicate HasNul(s: Bytes) {
    |BeforeNul(s)| < |s|
  }

  function AfterNul(s: Bytes): Bytes
    requires HasNul(s)
  {
    s[|BeforeNul(s)| + 1..]
  }

  function CString(s: Bytes): Bytes {
    s + [0]
  }

  /** Cutting at the first zero byte undoes the terminator exactly when the string has none inside. */
  lemma {:induction false} CStringCut(s: Bytes, rest: Bytes)
    ensures HasNul(CString(s) + rest)
    ensures BeforeNul(CString(s) + rest) == s <==> NulFree(s)
    ensures NulFree(s) ==> AfterNul(CString(s) + rest) == rest
  {
    var t := CString(s) + rest;
    if s != [] && s[0] != 0 {
      var s1 := s[1..];
      assert t[1..] == CString(s1) + rest && t[0] == s[0];
      CStringCut(s1, rest);
      assert s == [s[0]] + s1;
      assert NulFree(s) <==> NulFree(s1);
      assert BeforeNul(t) == [s[0]] + BeforeNul(t[1..]);
      if NulFree(s) { assert t[|s| + 1..] == rest; }
    } else if s == [] {
      assert t == [0] + rest;
    } else {
      assert t[0] == 0 && s[0] in s;
    }
  }

  /** bytes.IndexByte(data, 0), or the length when there is none. */
  method IndexNul(s: Bytes) returns (i: nat)
    ensures i == |BeforeNul(s)|
  {
    i := 0;
    assert s[0..] == s;
    while i < |s| && s[i] != 0
      invariant i <= |s| && i + |BeforeNul(s[i..])| == |BeforeNul(s)|
    {
      assert s[i..][1..] == s[i + 1..];
      i := i + 1;
    }
  }

  // ---- Startup ----

  datatype Param = Param(key: Bytes, value: Bytes)

  function Pairs(ps: seq<Param>): Bytes {
    if ps == [] then [] else CString(ps[0].key) + CString(ps[0].value) + Pairs(ps[1..])
  }

  /** BuildStartupMessage, with the parameters in the order the map iteration yields them. */
  function BuildStartup(ps: seq<Param>): Bytes {
    var body := U16(3) + U16(0) + Pairs(ps) + [0];
    U32((4 + |body|) % TWO_32) + body
  }

  /** ReadStartupMessage: the payload, if the length is sound and the stream long enough. */
  function ReadStartup(s: Bytes): Option<Bytes> {
    if |s| < 4 then None
    else
      var length := Num32(s[..4]);
      if length < 4 || length > 10000 || |s| < length then None else Some(s[4..length])
  }

  /** The loop of ParseStartupParams over what follows the version. */
  function Params(rest: Bytes, m: map<Bytes, Bytes>): map<Bytes, Bytes>
    decreases |rest|
  {
    if |rest| <= 1 || !HasNul(rest) then m
    else
      var key, rest1 := BeforeNul(rest), AfterNul(rest);
      if !HasNul(rest1) then m else Params(AfterNul(rest1), m[key := BeforeNul(rest1)])
  }

  datatype Startup = Startup(major: nat, minor: nat, params: map<Bytes, Bytes>)

  function ParseStartup(payload: Bytes): Option<Startup> {
    if |payload| < 4 then None
    else Some(Startup(Num16(payload[..2]), Num16(payload[2..4]), Params(payload[4..], map[])))
  }

  /** The map that the pairs spell out. */
  function Collect(ps: seq<Param>, m: map<Bytes, Bytes>): map<Bytes, Bytes> {
    if ps == [] then m else Collect(ps[1..], m[ps[0].key := ps[0].value])
  }

  /** The sequence lists the map in some order; a pair may be repeated. */
  predicate Enumerates(ps: seq<Param>, m: map<Bytes, Bytes>) {
    && (forall i | 0 <= i < |ps| :: ps[i].key in m && m[ps[i].key] == ps[i].value)
    && (forall k | k in m :: exists i | 0 <= i < |ps| :: ps[i].key == k)
  }

  lemma {:induction false} ParamsOfPairs(ps: seq<Param>, m: map<Bytes, Bytes>)
    requires forall p | p in ps :: NulFree(p.key) && NulFree(p.value)
    ensures Params(Pairs(ps) + [0], m) == Collect(ps, m)
    decreases |ps|
  {
    hide BeforeNul, NulFree;
    if ps == [] {
      assert Pairs(ps) + [0] == [0];
    } else {
      var p, tail := ps[0], Pairs(ps[1..]) + [0];
      assert p in ps;
      var rest := Pairs(ps) + [0];
      assert rest == CString(p.key) + (CString(p.value) + tail);
      CStringCut(p.key, CString(p.value) + tail);
      CStringCut(p.value, tail);
      ParamsOfPairs(ps[1..], m[p.key := p.value]);
    }
  }

  lemma {:induction false} CollectAll(ps: seq<Param>, m: map<Bytes, Bytes>, all: map<Bytes, Bytes>)
    requires forall i | 0 <= i < |ps| :: ps[i].key in all && all[ps[i].key] == ps[i].value
    requires forall k | k in m :: k in all && m[k] == all[k]
    requires forall k | k in all :: k in m || exists i | 0 <= i < |ps| :: ps[i].key == k
    ensures Collect(ps, m) == all
    decreases |ps|
  {
    if ps != [] {
      var m1 := m[ps[0].key := ps[0].value];
      forall k | k in all ensures k in m1 || exists i | 0 <= i < |ps[1..]| :: ps[1..][i].key == k {
        if k !in m1 {
          var i :| 0 <= i < |ps| && ps[i].key == k;
          assert ps[1..][i - 1].key == k;
        }
      }
      CollectAll(ps[1..], m1, all);
    }
  }

  /** Startup parameters survive build, read and parse, in whatever order the map is iterated. */
  lemma StartupRoundTrip(params: map<Bytes, Bytes>, ps: seq<Param>)
    requires Enumerates(ps, params) && |BuildStartup(ps)| <= 10000
    requires forall p | p in ps :: NulFree(p.key) && NulFree(p.value)
    ensures var payload := ReadStartup(BuildStartup(ps));
            payload.Some? && ParseStartup(payload.value) == Some(Startup(3, 0, params))
  {
    var pairs := Pairs(ps) + [0];
    ReadBuilt(ps);
    StartupFields(pairs);
    ParamsOfPairs(ps, map[]);
    CollectAll(ps, map[], params);
  }

  lemma StartupFields(pairs: Bytes)
    ensures var payload := U16(3) + U16(0) + pairs;
            |payload| >= 4 && Num16(payload[..2]) == 3 && Num16(payload[2..4]) == 0 && payload[4..] == pairs
  {
    var payload := U16(3) + U16(0) + pairs;
    assert payload[..2] == U16(3) && payload[2..4] == U16(0);
    Num16Inverse(3, U16(3));
    Num16Inverse(0, U16(0));
  }

  lemma ReadBuilt(ps: seq<Param>)
    requires |BuildStartup(ps)| <= 10000
    ensures ReadStartup(BuildStartup(ps)) == Some(U16(3) + U16(0) + (Pairs(ps) + [0]))
  {
    var body := U16(3) + U16(0) + Pairs(ps) + [0];
    assert body == U16(3) + U16(0) + (Pairs(ps) + [0]);
    var n := 4 + |body|;
    hide Pairs, U32, Num32, U16;
    Cut(U32(n), body);
    Num32Inverse(n, U32(n));
    assert BuildStartup(ps) == U32(n) + body;
    assert BuildStartup(ps)[4..n] == BuildStartup(ps)[4..];
  }

  lemma ParamsStep(rest: Bytes, m: map<Bytes, Bytes>)
    ensures |rest| <= 1 || !HasNul(rest) ==> Params(rest, m) == m
    ensures |rest| > 1 && HasNul(rest) ==>
              var rest1 := AfterNul(rest);
              Params(rest, m) == if !HasNul(rest1) then m
                                 else Params(AfterNul(rest1), m[BeforeNul(rest) := BeforeNul(rest1)])
  {
    hide BeforeNul;
  }

  method ParseStartupParams(payload: Bytes) returns (r: Option<Startup>)
    ensures r == ParseStartup(payload)
  {
    hide BeforeNul, Params;
    if |payload| < 4 { return None; }
    var m: map<Bytes, Bytes> := map[];
    var rest := payload[4..];
    while |rest| > 1
      invariant Params(rest, m) == Params(payload[4..], map[])
      decreases |rest|
    {
      ParamsStep(rest, m);
      var keyEnd := IndexNul(rest);
      if keyEnd == |rest| { break; }
      var key := rest[..keyEnd];
      var rest1 := rest[keyEnd + 1..];
      var valEnd := IndexNul(rest1);
      if valEnd == |rest1| { break; }
      assert key == BeforeNul(rest) && rest1[..valEnd] == BeforeNul(rest1);
      m := m[key := rest1[..valEnd]];
      rest := rest1[valEnd + 1..];
    }
    ParamsStep(rest, m);
    r := Some(Startup(Num16(payload[..2]), Num16(payload[2..4]), m));
  }

  method BuildStartupMessage(ps: seq<Param>) returns (buf: Bytes)
    ensures buf == BuildStartup(ps)
  {
    hide U16, U32;
    var body := U16(3) + U16(0);
    ghost var all := body + Pairs(ps);
    assert ps[0..] == ps;
    for i := 0 to |ps|
      invariant body + Pairs(ps[i..]) == all
    {
      var pair := CString(ps[i].key) + CString(ps[i].value);
      assert ps[i..][1..] == ps[i + 1..];
      assert body + (pair + Pairs(ps[i + 1..])) == body + pair + Pairs(ps[i + 1..]);
      body := body + pair;
    }
    assert body + [] == body;
    body := body + [0];
    buf := U32((4 + |body|) % TWO_32) + body;
  }

  // ---- Parse ----

  type Oid = n: nat | n < TWO_32

  function Oids(os: seq<Oid>): (b: Bytes)
    ensures |b| == 4 * |os|
  {
    if os == [] then [] else U32(os[0]) + Oids(os[1..])
  }

  /** BuildParsePayload; the count field is 16 bits wide. */
  function BuildParse(name: Bytes, query: Bytes, os: seq<Oid>): Bytes {
    CString(name) + (CString(query) + (U16(|os| % TWO_16) + Oids(os)))
  }

  datatype ParseError = NoName | NoQuery | TruncatedOid

  datatype Parsed = Parsed(name: Bytes, query: Bytes, oids: seq<Oid>) | Malformed(error: ParseError)

  function ReadOids(rest: Bytes, k: nat): Option<seq<Oid>> {
    if k == 0 then Some([])
    else if |rest| < 4 then None
    else
      match ReadOids(rest[4..], k - 1)
      case None => None
      case Some(os) => Some([Num32(rest[..4])] + os)
  }

  /** ParseParseMessageFull. */
  function ParseParse(payload: Bytes): Parsed {
    if !HasNul(payload) then Malformed(NoName)
    else
      var name, rest := BeforeNul(payload), AfterNul(payload);
      if !HasNul(rest) then Malformed(NoQuery)
      else
        var query, types := BeforeNul(rest), AfterNul(rest);
        if |types| < 2 then Parsed(name, query, [])
        else
          match ReadOids(types[2..], Num16(types[..2]))
          case None => Malformed(TruncatedOid)
          case Some(os) => Parsed(name, query, os)
  }

  lemma {:induction false} OidsRoundTrip(os: seq<Oid>, k: nat)
    requires k <= |os|
    ensures ReadOids(Oids(os), k) == Some(os[..k])
    decreases k
  {
    if k > 0 {
      var b := Oids(os);
      assert b[..4] == U32(os[0]) && b[4..] == Oids(os[1..]);
      Num32Inverse(os[0], b[..4]);
      OidsRoundTrip(os[1..], k - 1);
      assert os[..k] == [os[0]] + os[1..][..k - 1];
    }
  }

  lemma TypesRoundTrip(os: seq<Oid>, count: nat)
    requires count <= |os| && count < TWO_16
    ensures var types := U16(count) + Oids(os);
            ReadOids(types[2..], Num16(types[..2])) == Some(os[..count])
  {
    hide U16, Num16, Oids, ReadOids;
    Cut(U16(count), Oids(os));
    Num16Inverse(count, U16(count));
    OidsRoundTrip(os, count);
  }

  /** A Parse payload survives build and parse if and only if neither string holds a zero byte and the
      parameter count fits 16 bits. */
  lemma ParseRoundTrip(name: Bytes, query: Bytes, os: seq<Oid>)
    ensures ParseParse(BuildParse(name, query, os)) == Parsed(name, query, os) <==>
            NulFree(name) && NulFree(query) && |os| < TWO_16
  {
    hide BeforeNul, NulFree, ReadOids, Oids;
    var types := U16(|os| % TWO_16) + Oids(os);
    CStringCut(name, CString(query) + types);
    CStringCut(query, types);
    TypesRoundTrip(os, |os| % TWO_16);
    assert |os| < TWO_16 <==> |os| % TWO_16 == |os|;
    assert os[..|os|] == os;
  }

  function With(os: seq<Oid>, more: Option<seq<Oid>>): Option<seq<Oid>> {
    match more
    case None => None
    case Some(rest) => Some(os + rest)
  }

  lemma WithStep(os: seq<Oid>, rest: Bytes, k: nat)
    requires k > 0 && |rest| >= 4
    ensures With(os, ReadOids(rest, k)) == With(os + [Num32(rest[..4])], ReadOids(rest[4..], k - 1))
  {
    var more := ReadOids(rest[4..], k - 1);
    if more.Some? {
      assert os + ([Num32(rest[..4])] + more.value) == os + [Num32(rest[..4])] + more.value;
    }
  }

  /** The loop of ParseParseMessageFull over the type identifiers. */
  method ParseOids(types: Bytes, k: nat) returns (r: Option<seq<Oid>>)
    ensures r == ReadOids(types, k)
  {
    var os: seq<Oid>, rest := [], types;
    ghost var all := ReadOids(types, k);
    assert With([], all) == all by { if all.Some? { assert [] + all.value == all.value; } }
    for i := 0 to k
      invariant With(os, ReadOids(rest, k - i)) == all
    {
      if |rest| < 4 { return None; }
      WithStep(os, rest, k - i);
      os := os + [Num32(rest[..4])];
      rest := rest[4..];
    }
    assert os + [] == os;
    r := Some(os);
  }

  /** ParseParseMessageFull. */
  method ParseParseMessageFull(payload: Bytes) returns (r: Parsed)
    ensures r == ParseParse(payload)
  {
    hide BeforeNul, ReadOids;
    var nameEnd := IndexNul(payload);
    if nameEnd == |payload| { return Malformed(NoName); }
    var rest := payload[nameEnd + 1..];
    var queryEnd := IndexNul(rest);
    if queryEnd == |rest| { return Malformed(NoQuery); }
    var types := rest[queryEnd + 1..];
    assert payload[..nameEnd] == BeforeNul(payload) && rest[..queryEnd] == BeforeNul(rest);
    if |types| < 2 { return Parsed(payload[..nameEnd], rest[..queryEnd], []); }
    var os := ParseOids(types[2..], Num16(types[..2]));
    r := if os.None? then Malformed(TruncatedOid) else Parsed(payload[..nameEnd], rest[..queryEnd], os.value);
  }

  lemma Regroup(x: Bytes, y: Bytes, z: Bytes, w: Bytes)
    ensures x + (y + (z + w)) == x + y + z + w
  {
  }

  method BuildParsePayload(name: Bytes, query: Bytes, os: seq<Oid>) returns (buf: Bytes)
    ensures buf == BuildParse(name, query, os)
  {
    hide U16, U32;
    Regroup(CString(name), CString(query), U16(|os| % TWO_16), Oids(os));
    buf := CString(name) + CString(query) + U16(|os| % TWO_16);
    ghost var all := buf + Oids(os);
    assert os[0..] == os;
    for i := 0 to |os|
      invariant buf + Oids(os[i..]) == all
    {
      assert os[i..][1..] == os[i + 1..];
      assert buf + (U32(os[i]) + Oids(os[i + 1..])) == buf + U32(os[i]) + Oids(os[i + 1..]);
      buf := buf + U32(os[i]);
    }
    assert buf + [] == buf;
  }
}
