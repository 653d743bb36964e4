/** Text helpers shared by the scanners: the parts of Go's strings package they call, on ASCII text. */
module SqlText {

  const VT := '\U{0B}'
  const FF := '\U{0C}'
  const NUL := '\U{00}'

  /** unicode.IsSpace on ASCII: what TrimSpace and Fields cut at. */
  predicate IsBlank(c: char) {
    c == ' ' || c == '\t' || c == '\n' || c == '\r' || c == VT || c == FF
  }

  /** router.isSpace, which knows only four of them. */
  predicate IsSpace(c: char) {
    c == ' ' || c == '\t' || c == '\n' || c == '\r'
  }

  predicate AllBlank(s: string) {
    forall c | c in s :: IsBlank(c)
  }

  function TrimLeft(s: string): (r: string)
    ensures r == [] || !IsBlank(r[0])
    ensures |r| <= |s| && s[|s| - |r|..] == r && AllBlank(s[..|s| - |r|])
  {
    if s != [] && IsBlank(s[0]) then TrimLeft(s[1..]) else s
  }

  function TrimRight(s: string): (r: string)
    ensures r == [] || !IsBlank(r[|r| - 1])
    ensures r <= s && AllBlank(s[|r|..])
  {
    if s != [] && IsBlank(s[|s| - 1]) then TrimRight(s[..|s| - 1]) else s
  }

  /** strings.TrimSpace. */
  function Trim(s: string): (r: string)
    ensures r == [] || (!IsBlank(r[0]) && !IsBlank(r[|r| - 1]))
  {
    TrimRight(TrimLeft(s))
  }

  /** strings.Index: the first occurrence of p in s, or -1. */
  function Index(s: string, p: string): (r: int)
    ensures -1 <= r
    ensures r >= 0 ==> r + |p| <= |s| && s[r..r + |p|] == p
  {
    if p <= s then 0
    else if s == [] then -1
    else var r := Index(s[1..], p); if r < 0 then -1 else r + 1
  }

  predicate Contains(s: string, p: string) {
    Index(s, p) >= 0
  }

  function UpperChar(c: char): char {
    if 'a' <= c <= 'z' then c - 'a' + 'A' else c
  }

  /** strings.ToUpper. */
  function Upper(s: string): (r: string)
    ensures |r| == |s|
    ensures forall i | 0 <= i < |s| :: r[i] == UpperChar(s[i])
  {
    seq(|s|, i requires 0 <= i < |s| => UpperChar(s[i]))
  }

  // ---- Facts about slices ----

  lemma Associative(a: string, x: string, t: string)
    ensures a + (x + t) == (a + x) + t
  {
  }

  lemma SliceSlice(s: string, i: nat, n: nat)
    requires i + n <= |s|
    ensures s[i..][n..] == s[i + n..]
  {
  }

  lemma SliceHead(s: string, i: nat, b: nat, n: nat)
    requires i + n <= b <= |s|
    ensures s[i..b][..n] == s[i..][..n]
  {
  }

  lemma SliceGrow(s: string, i: nat, j: nat)
    requires i <= j < |s|
    ensures s[i..j] + [s[j]] == s[i..j + 1]
  {
  }

  // ---- Facts about Index ----

  lemma {:induction false} IndexFinds(s: string, p: string, i: nat)
    requires i + |p| <= |s| && s[i..i + |p|] == p
    ensures 0 <= Index(s, p) <= i
  {
    if !(p <= s) {
      assert i > 0;
      assert s[1..][i - 1..i - 1 + |p|] == p;
      IndexFinds(s[1..], p, i - 1);
    }
  }

  /** An occurrence inside a is still the first one after anything is appended. */
  lemma {:induction false} IndexAppend(a: string, b: string, p: string)
    requires Index(a, p) >= 0
    ensures Index(a + b, p) == Index(a, p)
  {
    if p <= a {
      assert p <= a + b;
    } else {
      assert (a + b)[1..] == a[1..] + b;
      IndexAppend(a[1..], b, p);
    }
  }

  lemma ContainsInSlice(s: string, i: nat, j: nat, p: string)
    requires i <= j <= |s| && Contains(s[i..j], p)
    ensures Contains(s, p)
  {
    var t := s[i..j];
    var k := Index(t, p);
    forall x | 0 <= x < |p| ensures s[i + k..i + k + |p|][x] == p[x] {
      assert t[k..k + |p|][x] == t[k + x];
    }
    assert s[i + k..i + k + |p|] == p;
    IndexFinds(s, p, i + k);
  }

  lemma ContainsHead(s: string, p: string)
    requires p <= s
    ensures Contains(s, p)
  {
  }

  lemma ContainsTail(s: string, p: string)
    requires Contains(s, p) && !(p <= s)
    ensures s != [] && Contains(s[1..], p)
  {
  }

  lemma IndexLastChar(s: string, p: string)
    requires p != []
    ensures var e := Index(s, p); e >= 0 ==> s[e + |p| - 1] == p[|p| - 1]
  {
    var e := Index(s, p);
    if e >= 0 { assert s[e..e + |p|][|p| - 1] == p[|p| - 1]; }
  }

  lemma SliceOfPrefix(q: string, m: nat, t: nat, e: nat, n: nat)
    requires t + e + n <= m <= |q|
    ensures q[..m][t..][e..e + n] == q[t..][e..e + n]
  {
    var a, b := q[..m][t..], q[t..];
    var u, v := a[e..e + n], b[e..e + n];
    assert forall i | 0 <= i < n :: u[i] == v[i];
  }

  // ---- Facts about trimming ----

  lemma NotAllBlank(s: string)
    requires s != [] && !IsBlank(s[0])
    ensures !AllBlank(s)
  {
    assert s[0] in s;
  }

  lemma TrimRightKeeps(s: string, n: nat)
    requires 1 <= n <= |s| && !IsBlank(s[n - 1])
    ensures |TrimRight(s)| >= n
  {
    var r := TrimRight(s);
    var w := s[|r|..];
    forall i | |r| <= i < |s| ensures IsBlank(s[i]) {
      assert w[i - |r|] == s[i];
    }
  }

  lemma {:induction false} TrimLeftPrepend(b: string, s: string)
    requires AllBlank(b) && (s == [] || !IsBlank(s[0]))
    ensures TrimLeft(b + s) == s && Trim(b + s) == TrimRight(s)
  {
    if b == [] {
      assert b + s == s;
    } else {
      assert b[0] in b && (b + s)[1..] == b[1..] + s;
      TrimLeftPrepend(b[1..], s);
    }
  }

  lemma {:induction false} TrimRightAppend(s: string, w: string)
    requires AllBlank(w)
    ensures TrimRight(s + w) == TrimRight(s)
  {
    if w == [] {
      assert s + w == s;
    } else {
      var u := w[..|w| - 1];
      assert w[|w| - 1] in w && (s + w)[..|s + w| - 1] == s + u;
      TrimRightAppend(s, u);
    }
  }

  lemma TrimTrimmed(s: string)
    requires s != [] && !IsBlank(s[0]) && !IsBlank(s[|s| - 1])
    ensures Trim(s) == s
  {
  }

  lemma TrimShape(p: string) returns (a: nat, b: nat)
    ensures a <= b <= |p| && Trim(p) == p[a..b] && AllBlank(p[..a]) && AllBlank(p[b..])
  {
    hide TrimLeft, TrimRight;
    var l := TrimLeft(p);
    var r := TrimRight(l);
    a := |p| - |l|;
    b := a + |r|;
    assert l[|r|..] == p[b..] && r == l[..|r|] == p[a..b];
  }

  lemma TrimTwice(s: string)
    ensures Trim(Trim(s)) == Trim(s)
  {
    if Trim(s) != [] { TrimTrimmed(Trim(s)); }
  }
}
