/** The bytes on the wire (internal/protocol/message.go), spelled out as section 55.7 of the PostgreSQL 16
    documentation does: network byte order, lengths that count themselves, zero-terminated strings. */
module WireLayout {
  import opened Options
  import opened Wire

  function Big16(a: int, b: int): int {
    256 * a + b
  }

  function Big32(a: int, b: int, c: int, d: int): int {
    16777216 * a + 65536 * b + 256 * c + d
  }

  /** Most significant byte first. */
  lemma NetworkOrder(a: Byte, b: Byte, c: Byte, d: Byte)
    ensures U16(Big16(a, b)) == [a, b] && Num16([a, b]) == Big16(a, b)
    ensures U32(Big32(a, b, c, d)) == [a, b, c, d] && Num32([a, b, c, d]) == Big32(a, b, c, d)
  {
    Order16(a, b);
    Order16(c, d);
    var hi, lo := Big16(a, b), Big16(c, d);
    assert Big32(a, b, c, d) == hi * TWO_16 + lo;
    Halves(hi, lo);
    assert [a, b, c, d][..2] == [a, b] && [a, b, c, d][2..] == [c, d];
  }

  lemma Order16(a: Byte, b: Byte)
    ensures 0 <= Big16(a, b) < TWO_16 && U16(Big16(a, b)) == [a, b] && Num16([a, b]) == Big16(a, b)
  {
  }

  lemma Halves(hi: nat, lo: nat)
    requires hi < TWO_16 && lo < TWO_16
    ensures hi * TWO_16 + lo < TWO_32 && (hi * TWO_16 + lo) / TWO_16 == hi && (hi * TWO_16 + lo) % TWO_16 == lo
  {
  }

  lemma Bytes32(b: Bytes)
    requires |b| == 4
    ensures Num32(b) == Big32(b[0], b[1], b[2], b[3])
  {
    assert b == [b[0], b[1], b[2], b[3]];
    NetworkOrder(b[0], b[1], b[2], b[3]);
  }

  lemma Bytes16(b: Bytes)
    requires |b| == 2
    ensures Num16(b) == Big16(b[0], b[1])
  {
  }

  // ---- Frames ----

  /** A message is its type, a length that counts itself and the payload but not the type, and the payload. */
  lemma FrameLayout(kind: Byte, payload: Bytes)
    requires 4 + |payload| < TWO_32
    ensures var f := Frame(kind, payload);
            && |f| == 5 + |payload| && f[0] == kind && f[5..] == payload
            && Big32(f[1], f[2], f[3], f[4]) == 4 + |payload|
  {
    hide U32, Num32;
    var f, n := Frame(kind, payload), 4 + |payload|;
    var b := U32(n);
    assert f[1..5] == b;
    assert f[1] == b[0] && f[2] == b[1] && f[3] == b[2] && f[4] == b[3];
    Num32Inverse(n, b);
    Bytes32(b);
  }

  /** When reading a message fails, and how. */
  lemma ReadErrors(s: Bytes)
    ensures ReadFrame(s) == Failed(ShortHeader) <==> |s| < 5
    ensures |s| >= 5 ==>
              var n := Big32(s[1], s[2], s[3], s[4]);
              && (ReadFrame(s) == Failed(InvalidLength) <==> n < 4)
              && (ReadFrame(s) == Failed(TooLarge) <==> n > 4 + 16777216)
              && (ReadFrame(s) == Failed(ShortPayload) <==> 4 <= n <= 4 + 16777216 && |s| < 1 + n)
  {
    if |s| >= 5 {
      hide Num32;
      var b := s[1..5];
      assert b[0] == s[1] && b[1] == s[2] && b[2] == s[3] && b[3] == s[4];
      Bytes32(b);
    }
  }

  // ---- Startup ----

  /** The length, the protocol version 3.0, the parameters and a zero byte. */
  lemma StartupLayout(ps: seq<Param>)
    requires 9 + |Pairs(ps)| < TWO_32
    ensures var b := BuildStartup(ps);
            && |b| == 9 + |Pairs(ps)| && Big32(b[0], b[1], b[2], b[3]) == |b|
            && b[4..8] == [0, 3, 0, 0] && b[8..|b| - 1] == Pairs(ps) && b[|b| - 1] == 0
  {
    hide U32, Num32, Pairs;
    var b := BuildStartup(ps);
    var n := 9 + |Pairs(ps)|;
    var l := U32(n);
    Order16(0, 3);
    Order16(0, 0);
    assert b == l + ([0, 3, 0, 0] + Pairs(ps) + [0]);
    assert b[0] == l[0] && b[1] == l[1] && b[2] == l[2] && b[3] == l[3];
    Num32Inverse(n, l);
    Bytes32(l);
    assert b[8..|b| - 1] == Pairs(ps);
  }

  /** A startup message is read if and only if its length is between 4 and 10000 and the stream holds as many bytes. */
  lemma StartupRead(s: Bytes, payload: Bytes)
    ensures ReadStartup(s) == Some(payload) <==>
            |s| >= 4 && var n := Big32(s[0], s[1], s[2], s[3]); 4 <= n <= 10000 && n <= |s| && payload == s[4..n]
  {
    if |s| >= 4 {
      hide Num32;
      Bytes32(s[..4]);
    }
  }

  /** Each parameter is its key and its value, both ended by a zero byte. */
  lemma PairLayout(key: Bytes, value: Bytes, ps: seq<Param>)
    ensures Pairs([Param(key, value)] + ps) == key + [0] + value + [0] + Pairs(ps)
  {
    var all := [Param(key, value)] + ps;
    assert all[1..] == ps;
  }

  // ---- Parse ----

  /** Name, query, how many types, and each type in four bytes. */
  lemma ParseLayout(name: Bytes, query: Bytes, os: seq<Oid>)
    requires |os| < TWO_16
    ensures var b, k := BuildParse(name, query, os), |name| + |query| + 2;
            && |b| == k + 2 + 4 * |os| && b[..k] == name + [0] + query + [0] && Big16(b[k], b[k + 1]) == |os|
            && forall i | 0 <= i < |os| ::
                 var j := k + 2 + 4 * i; Big32(b[j], b[j + 1], b[j + 2], b[j + 3]) == os[i]
  {
    hide U16, Num16, Oids, U32, Num32;
    var b, k := BuildParse(name, query, os), |name| + |query| + 2;
    var head, count := name + [0] + query + [0], U16(|os|);
    assert b == head + (count + Oids(os)) by { Regroup(CString(name), CString(query), count, Oids(os)); }
    assert b[..k] == head && b[k] == count[0] && b[k + 1] == count[1];
    Num16Inverse(|os|, count);
    Bytes16(count);
    forall i | 0 <= i < |os|
      ensures var j := k + 2 + 4 * i; Big32(b[j], b[j + 1], b[j + 2], b[j + 3]) == os[i]
    {
      OidAt(os, i);
      assert forall x | 0 <= x < |Oids(os)| :: b[k + 2 + x] == Oids(os)[x];
    }
  }

  lemma {:induction false} OidAt(os: seq<Oid>, i: nat)
    requires i < |os|
    ensures var b, j := Oids(os), 4 * i; Big32(b[j], b[j + 1], b[j + 2], b[j + 3]) == os[i]
  {
    hide U32, Num32;
    var w := U32(os[0]);
    assert Oids(os) == w + Oids(os[1..]);
    if i == 0 {
      Num32Inverse(os[0], w);
      Bytes32(w);
    } else {
      OidAt(os[1..], i - 1);
    }
  }

  lemma {:induction false} BeforeNulWhole(s: Bytes)
    ensures |BeforeNul(s)| == |s| <==> NulFree(s)
  {
    if s != [] {
      BeforeNulWhole(s[1..]);
      assert s == [s[0]] + s[1..];
    }
  }

  lemma {:induction false} OidsFit(rest: Bytes, k: nat)
    ensures ReadOids(rest, k) == None <==> |rest| < 4 * k
  {
    if k > 0 && |rest| >= 4 { OidsFit(rest[4..], k - 1); }
  }

  /** A Parse payload has no name if and only if it has no zero byte. */
  lemma ParseErrors(payload: Bytes)
    ensures ParseParse(payload) == Malformed(NoName) <==> NulFree(payload)
  {
    hide ReadOids, BeforeNul;
    BeforeNulWhole(payload);
  }

  /** It has no query if and only if no zero byte follows the name. */
  lemma QueryErrors(name: Bytes, rest: Bytes)
    requires NulFree(name)
    ensures ParseParse(name + [0] + rest) == Malformed(NoQuery) <==> NulFree(rest)
  {
    hide ReadOids, BeforeNul, NulFree;
    CStringCut(name, rest);
    BeforeNulWhole(rest);
  }

  /** Its types are cut short if and only if fewer bytes follow than the announced number needs. */
  lemma TypeErrors(name: Bytes, query: Bytes, types: Bytes)
    requires NulFree(name) && NulFree(query)
    ensures var p := ParseParse(name + [0] + (query + [0] + types));
            if |types| < 2 then p == Parsed(name, query, [])
            else p == Malformed(TruncatedOid) <==> |types| - 2 < 4 * Big16(types[0], types[1])
  {
    hide ReadOids, BeforeNul, NulFree;
    CStringCut(name, query + [0] + types);
    CStringCut(query, types);
    if |types| >= 2 {
      OidsFit(types[2..], Num16(types[..2]));
      Bytes16(types[..2]);
    }
  }
}
