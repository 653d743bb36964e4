/** Prepared statements turned into simple queries (internal/proxy/synthesizer.go and the text and NULL
    cases of internal/protocol/literal.go), and why doing so cannot change where statements end. */
module Synthesizer {
  import opened SqlText
  import opened Lexer

  // ---- Literals ----

  datatype Param = Null | Text(text: string)

  /** Every quote doubled and every NUL byte dropped. */
  function EscapeBody(s: string): string {
    if s == [] then []
    else if s[0] == '\'' then "''" + EscapeBody(s[1..])
    else if s[0] == NUL then EscapeBody(s[1..])
    else [s[0]] + EscapeBody(s[1..])
  }

  /** ParamToLiteral for NULL and for text in any type printed as an escaped string. */
  function Literal(p: Param): string {
    match p
    case Null => "NULL"
    case Text(s) => "'" + EscapeBody(s) + "'"
  }

  function Literals(ps: seq<Param>): (r: seq<string>)
    ensures |r| == |ps|
  {
    seq(|ps|, i requires 0 <= i < |ps| => Literal(ps[i]))
  }

  // ---- Placeholders ----

  function DigitRun(s: string): (n: nat)
    ensures n <= |s|
    ensures forall i | 0 <= i < n :: IsDigit(s[i])
    ensures n < |s| ==> !IsDigit(s[n])
  {
    if s != [] && IsDigit(s[0]) then 1 + DigitRun(s[1..]) else 0
  }

  function Number(s: string): nat
    requires forall c | c in s :: IsDigit(c)
  {
    if s == [] then 0 else
      assert IsDigit(s[|s| - 1]);
      10 * Number(s[..|s| - 1]) + (s[|s| - 1] as int - '0' as int)
  }

  function PlaceholderDigits(s: string): (d: string)
    requires |s| >= 2
    ensures forall c | c in d :: IsDigit(c)
    ensures d <= s[1..]
  {
    s[1..][..DigitRun(s[1..])]
  }

  /** $N at the start of s with N between 1 and the number of parameters. */
  predicate IsPlaceholder(s: string, n: nat) {
    |s| >= 2 && s[0] == '$' && '1' <= s[1] <= '9' && 1 <= Number(PlaceholderDigits(s)) <= n
  }

  /** How much replacePlaceholders consumes in one turn when it does not stop at a bare opening tag. */
  function ItemLen(s: string, n: nat): (m: nat)
    requires s != []
    ensures 1 <= m <= |s|
  {
    if s[0] == '\'' then QuoteSpan(s)
    else if TagLen(s) > 0 then DollarSpan(s)
    else if IsPlaceholder(s, n) then 1 + DigitRun(s[1..])
    else 1
  }

  function Replacement(s: string, lits: seq<string>): string
    requires IsPlaceholder(s, |lits|)
  {
    lits[Number(PlaceholderDigits(s)) - 1]
  }

  predicate AtBareTag(s: string) {
    0 < TagLen(s) == |s|
  }

  function ItemOut(s: string, lits: seq<string>): string
    requires s != []
  {
    if IsPlaceholder(s, |lits|) then Replacement(s, lits) else s[..ItemLen(s, |lits|)]
  }

  /** replacePlaceholders. A text that ends exactly at an opening dollar tag has the tag written twice:
      the search for the closing tag is skipped and the scan falls through to the same position. */
  function Subst(s: string, lits: seq<string>): string
    decreases |s|
  {
    if s == [] then []
    else if AtBareTag(s) then s + [s[0]] + Subst(s[1..], lits)
    else ItemOut(s, lits) + Subst(s[ItemLen(s, |lits|)..], lits)
  }

  function SubstEach(stmts: seq<string>, lits: seq<string>): (r: seq<string>)
    ensures |r| == |stmts|
    ensures forall i | 0 <= i < |r| :: r[i] == Subst(stmts[i], lits)
  {
    seq(|stmts|, i requires 0 <= i < |stmts| => Subst(stmts[i], lits))
  }

  // ---- The queries of the theorem ----

  /** No comment and no double quote outside single-quoted and dollar-quoted text. */
  predicate Plain(s: string, n: nat)
    decreases |s|
  {
    s == [] || (s[0] != '"' && !AtLineComment(s) && !AtBlockComment(s) && Plain(s[ItemLen(s, n)..], n))
  }

  /** The scan of s ends right after an opening dollar tag. */
  predicate OpenTag(s: string, n: nat)
    decreases |s|
  {
    s != [] && (AtBareTag(s) || OpenTag(s[ItemLen(s, n)..], n))
  }

  /** Trimming would leave a bare opening tag at the end of the statement. */
  predicate TagThenBlanks(chunk: string, n: nat) {
    var y := TrimLeft(chunk);
    TrimRight(y) != y && OpenTag(TrimRight(y), n)
  }

  predicate SomeTagThenBlanks(s: string, n: nat)
    decreases |s|
  {
    var k := ChunkLen(s);
    TagThenBlanks(s[..k], n) || (k < |s| && SomeTagThenBlanks(s[k + 1..], n))
  }

  // ---- A literal is one closed region, whatever it contains and whatever follows it ----

  /** Text in which every quote is doubled. */
  predicate Doubled(s: string) {
    if s == [] then true
    else if s[0] != '\'' then Doubled(s[1..])
    else |s| >= 2 && s[1] == '\'' && Doubled(s[2..])
  }

  lemma {:induction false} EscapeBodyDoubled(s: string)
    ensures Doubled(EscapeBody(s))
  {
    if s != [] { EscapeBodyDoubled(s[1..]); }
  }

  lemma {:induction false} QuoteTailDoubled(b: string, r: string)
    requires Doubled(b)
    ensures QuoteTail(b + "'" + r) == |b| + 1 + (if r != [] && r[0] == '\'' then QuoteSpan(r) else 0)
    decreases |b|
  {
    var s := b + "'" + r;
    if b == [] {
      assert s[1..] == r;
      if r != [] { assert s[2..] == r[1..]; }
    } else if b[0] != '\'' {
      assert s[1..] == b[1..] + "'" + r;
      QuoteTailDoubled(b[1..], r);
    } else {
      assert s[2..] == b[2..] + "'" + r;
      QuoteTailDoubled(b[2..], r);
    }
  }

  /** Either the string is closed at n, or it runs to the end. */
  lemma {:induction false} QuoteTailShape(s: string)
    ensures var n := QuoteTail(s);
            || (n >= 1 && s[n - 1] == '\'' && Doubled(s[..n - 1]) && (n < |s| ==> s[n] != '\''))
            || (n == |s| && Doubled(s))
    decreases |s|
  {
    if s == [] {
    } else if s[0] != '\'' {
      QuoteTailShape(s[1..]);
      var n := QuoteTail(s[1..]);
      if n >= 1 { assert s[..n][1..] == s[1..][..n - 1]; }
    } else if |s| >= 2 && s[1] == '\'' {
      QuoteTailShape(s[2..]);
      var n := QuoteTail(s[2..]);
      if n >= 1 { assert s[..n + 1][2..] == s[2..][..n - 1]; }
    }
  }

  /** Scanning past a closed quoted region: even if what follows starts with a quote and so continues the
      string, the chunk ends where it would have ended without it. */
  lemma ChunkPastQuoted(b: string, r: string)
    requires Doubled(b)
    ensures ChunkLen("'" + b + "'" + r) == |b| + 2 + ChunkLen(r)
  {
    var s := "'" + b + "'" + r;
    assert s[1..] == b + "'" + r;
    QuoteTailDoubled(b, r);
    var u := QuoteSpan(s);
    assert Unit(s) == u;
    if r != [] && r[0] == '\'' {
      assert s[u..] == r[QuoteSpan(r)..];
      assert Unit(r) == QuoteSpan(r);
    } else {
      assert s[u..] == r;
    }
  }

  lemma ChunkPastNull(r: string)
    ensures ChunkLen("NULL" + r) == 4 + ChunkLen(r)
  {
    hide ChunkLen;
    ChunkPastChar('L', r);
    ChunkPastChar('L', "L" + r);
    ChunkPastChar('U', "L" + ("L" + r));
    ChunkPastChar('N', "U" + ("L" + ("L" + r)));
    assert "NULL" + r == "N" + ("U" + ("L" + ("L" + r)));
  }

  lemma ChunkPastLiteral(p: Param, r: string)
    ensures ChunkLen(Literal(p) + r) == |Literal(p)| + ChunkLen(r)
  {
    match p
    case Null => ChunkPastNull(r);
    case Text(s) =>
      EscapeBodyDoubled(s);
      ChunkPastQuoted(EscapeBody(s), r);
  }

  // ---- Items are local ----

  lemma DigitRunWithin(z: string, w: string)
    requires w != [] && !IsDigit(w[0])
    ensures DigitRun(z + w) == DigitRun(z)
    decreases |z|
  {
    if z == [] {
      assert z + w == w;
    } else if IsDigit(z[0]) {
      assert (z + w)[1..] == z[1..] + w;
      DigitRunWithin(z[1..], w);
    }
  }

  lemma PlaceholderWithin(z: string, w: string, n: nat)
    requires |z| >= 2 && w != [] && !IsDigit(w[0])
    ensures IsPlaceholder(z + w, n) <==> IsPlaceholder(z, n)
    ensures PlaceholderDigits(z + w) == PlaceholderDigits(z)
  {
    assert (z + w)[1..] == z[1..] + w;
    DigitRunWithin(z[1..], w);
    assert (z[1..] + w)[..DigitRun(z[1..])] == z[1..][..DigitRun(z[1..])];
  }

  predicate IsDelimiter(c: char) {
    IsBlank(c) || c == ';'
  }

  lemma TagLenDelimited(z: string, w: string)
    requires z != [] && w != [] && IsDelimiter(w[0])
    ensures TagLen(z + w) == TagLen(z)
  {
    var q := z + w;
    assert q[1..][|z| - 1] == w[0];
    if TagLen(z) > 0 {
      TagLenPrefix(z, w);
    } else if TagLen(q) > |z| {
      assert false;
    } else if TagLen(q) > 0 {
      TagLenWithin(z, w);
    }
  }

  /** An item that ends inside z is the same item when the text is cut there. */
  lemma ItemWithin(z: string, w: string, lits: seq<string>)
    requires z != [] && w != [] && IsDelimiter(w[0]) && ItemLen(z + w, |lits|) <= |z|
    ensures ItemLen(z, |lits|) == ItemLen(z + w, |lits|)
    ensures ItemOut(z, lits) == ItemOut(z + w, lits)
    ensures !AtBareTag(z) && !AtBareTag(z + w)
  {
    hide QuoteTail, Index, Number, TagRun, DigitRun;
    var q := z + w;
    assert q[0] == z[0] && q[1..] == z[1..] + w;
    TagLenDelimited(z, w);
    if z[0] == '\'' {
      QuoteTailPrefix(z[1..], w);
    } else if TagLen(q) > 0 {
      DollarSpanPrefix(z, w);
    } else if |z| >= 2 {
      PlaceholderWithin(z, w, |lits|);
    }
  }

  // ---- Trimming ----

  lemma ItemOfChar(s: string, n: nat)
    requires s != [] && s[0] != '$' && s[0] != '\''
    ensures ItemLen(s, n) == 1
  {
  }

  lemma SubstChar(s: string, lits: seq<string>)
    requires s != [] && s[0] != '$' && s[0] != '\''
    ensures ItemLen(s, |lits|) == 1 && Subst(s, lits) == [s[0]] + Subst(s[1..], lits)
  {
    assert !IsPlaceholder(s, |lits|) && TagLen(s) == 0;
    assert ItemLen(s, |lits|) == 1 && ItemOut(s, lits) == [s[0]];
  }

  lemma {:induction false} SubstPrependBlanks(b: string, y: string, lits: seq<string>)
    requires AllBlank(b)
    ensures Subst(b + y, lits) == b + Subst(y, lits)
  {
    hide Subst;
    if b == [] {
      assert b + y == y;
    } else {
      var q := b + y;
      assert q[1..] == b[1..] + y;
      assert IsBlank(b[0]);
      SubstPrependBlanks(b[1..], y, lits);
      SubstChar(q, lits);
    }
  }

  /** An item that runs past z into trailing blanks runs to the end, and did so without them. */
  lemma ItemIntoBlanks(z: string, w: string, n: nat)
    requires z != [] && w != [] && AllBlank(w) && ItemLen(z + w, n) > |z|
    ensures ItemLen(z + w, n) == |z + w| && ItemLen(z, n) == |z|
    ensures !IsPlaceholder(z + w, n) && !IsPlaceholder(z, n) && !AtBareTag(z + w)
  {
    var q := z + w;
    assert IsBlank(w[0]);
    assert q[0] == z[0] && q[1..] == z[1..] + w;
    TagLenDelimited(z, w);
    if z[0] == '\'' {
      QuoteIntoBlanks(z[1..], w);
    } else if TagLen(q) > 0 {
      DollarIntoBlanks(z, w);
    } else if |z| >= 2 {
      PlaceholderWithin(z, w, n);
      DigitRunWithin(z[1..], w);
    }
  }

  lemma {:induction false} QuoteIntoBlanks(z: string, w: string)
    requires AllBlank(w) && QuoteTail(z + w) > |z|
    ensures QuoteTail(z + w) == |z + w| && QuoteTail(z) == |z|
    decreases |z + w|
  {
    var q := z + w;
    assert w != [] ==> w[0] in w;
    if z == [] {
      assert q == w;
      assert w[1..] == [] + w[1..];
      if |w| > 1 {
        assert w[1] in w;
        QuoteIntoBlanks([], w[1..]);
      }
    } else if z[0] != '\'' {
      assert q[1..] == z[1..] + w;
      QuoteIntoBlanks(z[1..], w);
    } else if |z| >= 2 && z[1] == '\'' {
      assert q[2..] == z[2..] + w;
      QuoteIntoBlanks(z[2..], w);
    }
  }

  lemma DollarIntoBlanks(z: string, w: string)
    requires w != [] && AllBlank(w) && TagLen(z) == TagLen(z + w) > 0 && DollarSpan(z + w) > |z|
    ensures DollarSpan(z + w) == |z + w| && DollarSpan(z) == |z|
  {
    var q := z + w;
    var t := TagLen(q);
    var tag := q[..t];
    assert tag == z[..t] && q[t..] == z[t..] + w;
    var e := Index(q[t..], tag);
    assert forall i | |z| <= i < |q| :: q[i] in w;
    IndexLastChar(q[t..], tag);
    if e >= 0 {
      assert false;
    }
    if Index(z[t..], tag) >= 0 {
      IndexAppend(z[t..], w, tag);
      assert false;
    }
  }

  lemma {:induction false} AppendBlanks(z: string, w: string, lits: seq<string>) returns (p: string)
    requires AllBlank(w) && w != []
    ensures Subst(z + w, lits) == p + w
    ensures if OpenTag(z, |lits|) then |p| < |Subst(z, lits)| else p == Subst(z, lits)
    decreases |z|
  {
    hide ItemLen, TagLen, IsPlaceholder;
    assert w[0] in w;
    var q := z + w;
    if z == [] {
      p := [];
      assert q == w + [];
      SubstPrependBlanks(w, [], lits);
    } else {
      var m := ItemLen(q, |lits|);
      if m <= |z| {
        ItemWithin(z, w, lits);
        assert q[m..] == z[m..] + w;
        var p' := AppendBlanks(z[m..], w, lits);
        p := ItemOut(z, lits) + p';
        assert Subst(z, lits) == ItemOut(z, lits) + Subst(z[m..], lits);
        assert OpenTag(z, |lits|) == OpenTag(z[m..], |lits|);
      } else {
        ItemIntoBlanks(z, w, |lits|);
        p := z;
        assert q[m..] == [] && q[..m] == q;
        assert Subst(q, lits) == q;
        if AtBareTag(z) {
          assert |Subst(z, lits)| >= |z| + 1;
        } else {
          assert z[|z|..] == [] && z[..|z|] == z;
          assert Subst(z, lits) == z && !OpenTag(z, |lits|);
        }
      }
    }
  }

  lemma FirstChar(s: string, ps: seq<Param>)
    requires s != []
    ensures var r := Subst(s, Literals(ps));
            r != [] && (if s[0] == '$' then r[0] == '$' || r[0] == '\'' || r[0] == 'N' else r[0] == s[0])
  {
    var lits := Literals(ps);
    if AtBareTag(s) {
    } else if IsPlaceholder(s, |lits|) {
      var k := Number(PlaceholderDigits(s)) - 1;
      assert Replacement(s, lits) == Literal(ps[k]);
    } else {
      assert ItemOut(s, lits)[0] == s[0];
    }
  }

  /** The text left after an opening tag's first character is copied unchanged. */
  lemma {:induction false} SubstTagRest(s: string, lits: seq<string>)
    requires s != [] && s[|s| - 1] == '$' && forall i | 0 <= i < |s| - 1 :: IsTagChar(s[i])
    ensures Subst(s, lits) == s
  {
    if |s| == 1 {
      assert ItemLen(s, |lits|) == 1 && s[1..] == [] && s[..1] == s;
    } else {
      assert IsTagChar(s[0]);
      SubstChar(s, lits);
      assert forall i | 0 <= i < |s| - 2 :: s[1..][i] == s[i + 1];
      SubstTagRest(s[1..], lits);
    }
  }

  lemma SubstBareTag(s: string, lits: seq<string>)
    requires AtBareTag(s)
    ensures Subst(s, lits) == s + s
  {
    assert forall i | 0 <= i < |s| - 2 :: IsTagChar(s[1..][i]);
    SubstTagRest(s[1..], lits);
    assert [s[0]] + s[1..] == s;
  }

  lemma {:induction false} LastChar(s: string, ps: seq<Param>)
    requires s != [] && !IsBlank(s[|s| - 1])
    ensures var r := Subst(s, Literals(ps)); r != [] && !IsBlank(r[|r| - 1])
    decreases |s|
  {
    var lits := Literals(ps);
    if AtBareTag(s) {
      SubstBareTag(s, lits);
    } else {
      var m := ItemLen(s, |lits|);
      var a, c := ItemOut(s, lits), Subst(s[m..], lits);
      assert Subst(s, lits) == a + c;
      if m < |s| {
        LastChar(s[m..], ps);
      } else {
        assert s[m..] == [] && c == [];
        LastOfItem(s, ps);
      }
    }
  }

  lemma LastOfItem(s: string, ps: seq<Param>)
    requires s != [] && !IsBlank(s[|s| - 1]) && ItemLen(s, |ps|) == |s|
    ensures var a := ItemOut(s, Literals(ps)); a != [] && !IsBlank(a[|a| - 1])
  {
    var lits := Literals(ps);
    if IsPlaceholder(s, |lits|) {
      var k := Number(PlaceholderDigits(s)) - 1;
      assert Replacement(s, lits) == Literal(ps[k]);
    }
  }

  /** A trimmed text cut short inside its trailing blanks. */
  lemma TrimmedTail(sy: string, sz: string, p: string, w: string)
    requires AllBlank(w) && w != [] && sy == p + w && sy != [] && !IsBlank(sy[0])
    requires sz != [] && !IsBlank(sz[|sz| - 1])
    ensures TrimRight(sy) != []
    ensures p == sz ==> TrimRight(sy) == sz
    ensures |p| < |sz| ==> TrimRight(sy) != sz
  {
    TrimRightAppend(p, w);
    NotAllBlank(sy);
  }

  lemma TrimRightCommutes(y: string, ps: seq<Param>)
    requires y != [] && !IsBlank(y[0])
    ensures var lits := Literals(ps);
            var z := TrimRight(y);
            && z != [] && TrimRight(Subst(y, lits)) != []
            && (TrimRight(Subst(y, lits)) == Subst(z, lits) <==> !(z != y && OpenTag(z, |lits|)))
  {
    hide Subst, OpenTag;
    var lits := Literals(ps);
    var z := TrimRight(y);
    var w := y[|z|..];
    assert y == z + w;
    NotAllBlank(y);
    LastChar(z, ps);
    FirstChar(y, ps);
    if w == [] {
      assert y == z;
    } else {
      var p := AppendBlanks(z, w, lits);
      TrimmedTail(Subst(y, lits), Subst(z, lits), p, w);
    }
  }

  lemma SubstEachOne(z: string, lits: seq<string>)
    ensures SubstEach([z], lits) == [Subst(z, lits)]
  {
  }

  /** Trimming a chunk x and its substituted form, in terms of what is left after the leading blanks. */
  lemma TrimBoth(x: string, ps: seq<Param>) returns (sx: string, y: string, sy: string)
    ensures sx == Subst(x, Literals(ps)) && y == TrimLeft(x) && sy == Subst(y, Literals(ps))
    ensures Trim(sx) == TrimRight(sy) && Trim(x) == TrimRight(y)
  {
    hide Subst, TrimLeft, TrimRight;
    y := TrimLeft(x);
    var b := x[..|x| - |y|];
    assert x == b + y;
    sx, sy := Subst(x, Literals(ps)), Subst(y, Literals(ps));
    SubstPrependBlanks(b, y, Literals(ps));
    SubstEmpty(Literals(ps));
    if y != [] { FirstChar(y, ps); }
    TrimLeftPrepend(b, sy);
  }

  /** One statement: trimming and substituting commute exactly when trimming leaves no bare tag. */
  lemma StatementCommutes(x: string, ps: seq<Param>)
    ensures var lits := Literals(ps);
            && |Statement(Subst(x, lits))| == |Statement(x)|
            && (Statement(Subst(x, lits)) == SubstEach(Statement(x), lits) <==> !TagThenBlanks(x, |lits|))
  {
    hide Subst, OpenTag;
    SubstEmpty(Literals(ps));
    var sx, y, sy := TrimBoth(x, ps);
    if y != [] {
      TrimRightCommutes(y, ps);
      SubstEachOne(TrimRight(y), Literals(ps));
    }
  }

  // ---- Chunks ----

  lemma {:induction false} ChunkPastDigits(s: string, d: nat)
    requires d <= |s| && forall i | 0 <= i < d :: IsDigit(s[i])
    ensures ChunkLen(s) == d + ChunkLen(s[d..])
  {
    hide ChunkLen;
    if d == 0 {
      assert s[0..] == s;
    } else {
      assert IsDigit(s[0]) && s == [s[0]] + s[1..];
      ChunkPastChar(s[0], s[1..]);
      assert forall i | 0 <= i < d - 1 :: s[1..][i] == s[i + 1];
      ChunkPastDigits(s[1..], d - 1);
      assert s[1..][d - 1..] == s[d..];
    }
  }

  /** On plain text the splitter and the synthesizer advance together. */
  lemma ChunkPastItem(q: string, n: nat)
    requires q != [] && q[0] != ';' && Plain(q, n)
    ensures ChunkLen(q) == ItemLen(q, n) + ChunkLen(q[ItemLen(q, n)..])
  {
    if q[0] != '\'' && TagLen(q) == 0 && IsPlaceholder(q, n) {
      assert Unit(q) == 1;
      var d := DigitRun(q[1..]);
      ChunkPastDigits(q[1..], d);
      assert q[1..][d..] == q[1 + d..];
    }
  }

  /** A dollar-quoted text that ends with its closing tag. */
  predicate ClosedDollar(c: string) {
    var t := TagLen(c);
    t > 0 && Index(c[t..], c[..t]) >= 0 && DollarSpan(c) == |c|
  }

  lemma DollarRegionCloses(q: string)
    requires TagLen(q) > 0 && DollarSpan(q) < |q|
    ensures ClosedDollar(q[..DollarSpan(q)])
  {
    hide Index, TagLen;
    var t, m := TagLen(q), DollarSpan(q);
    var tag, c := q[..t], q[..m];
    var e := Index(q[t..], tag);
    assert q == c + q[m..];
    DollarSpanPrefix(c, q[m..]);
    assert c[..t] == tag;
    SliceOfPrefix(q, m, t, e, t);
    IndexFinds(c[t..], tag, e);
  }

  lemma DollarSpanKept(c: string, r: string)
    requires ClosedDollar(c)
    ensures TagLen(c + r) > 0 && DollarSpan(c + r) == |c|
  {
    var t := TagLen(c);
    TagLenPrefix(c, r);
    assert (c + r)[t..] == c[t..] + r && (c + r)[..t] == c[..t];
    IndexAppend(c[t..], r, c[..t]);
  }

  lemma ChunkPastDollar(c: string, r: string)
    requires ClosedDollar(c)
    ensures ChunkLen(c + r) == |c| + ChunkLen(r)
  {
    DollarSpanKept(c, r);
    assert (c + r)[0] == '$' && (c + r)[|c|..] == r;
  }

  lemma {:induction false} TagRunKept(s: string, ps: seq<Param>)
    requires TagRun(s) < |s| ==> s[TagRun(s)] != '$'
    ensures var r := Subst(s, Literals(ps)); TagRun(r) == TagRun(s) && (TagRun(r) < |r| ==> r[TagRun(r)] != '$')
  {
    var lits := Literals(ps);
    if s != [] {
      if IsTagChar(s[0]) {
        SubstChar(s, lits);
        TagRunKept(s[1..], ps);
        assert ([s[0]] + Subst(s[1..], lits))[1..] == Subst(s[1..], lits);
      } else {
        FirstChar(s, ps);
      }
    }
  }

  /** A character copied as itself opens nothing in the output either. */
  lemma ChunkPastCopied(q: string, ps: seq<Param>)
    requires q != [] && q[0] != ';' && q[0] != '"' && q[0] != '\'' && TagLen(q) == 0
    requires !AtLineComment(q) && !AtBlockComment(q)
    ensures var r := Subst(q[1..], Literals(ps)); ChunkLen([q[0]] + r) == 1 + ChunkLen(r)
  {
    var r := Subst(q[1..], Literals(ps));
    var s := [q[0]] + r;
    assert s[1..] == r;
    if |q| > 1 { FirstChar(q[1..], ps); }
    if q[0] == '$' && |q| > 1 && IsTagStart(q[1]) { TagRunKept(q[1..], ps); }
    assert TagLen(s) == 0 && !AtLineComment(s) && !AtBlockComment(s);
    assert Unit(s) == 1;
  }

  lemma QuotedShape(q: string)
    requires q != [] && q[0] == '\''
    ensures QuoteSpan(q) == |q| || exists b :: Doubled(b) && q[..QuoteSpan(q)] == "'" + b + "'"
  {
    var s, m := q[1..], QuoteSpan(q);
    QuoteTailShape(s);
    if m < |q| {
      var b := s[..m - 2];
      assert q[..m] == "'" + b + "'";
    }
  }

  lemma ChunkPastQuotedItem(q: string, r: string)
    requires q != [] && q[0] == '\'' && QuoteSpan(q) < |q|
    ensures ChunkLen(q[..QuoteSpan(q)] + r) == QuoteSpan(q) + ChunkLen(r)
  {
    hide ChunkLen, Doubled, QuoteSpan;
    QuotedShape(q);
    var b :| Doubled(b) && q[..QuoteSpan(q)] == "'" + b + "'";
    ChunkPastQuoted(b, r);
  }

  lemma ChunkPastReplacement(q: string, ps: seq<Param>, r: string)
    requires IsPlaceholder(q, |ps|)
    ensures var a := Replacement(q, Literals(ps)); ChunkLen(a + r) == |a| + ChunkLen(r)
  {
    hide ChunkLen, Literal;
    var k := Number(PlaceholderDigits(q)) - 1;
    ChunkPastLiteral(ps[k], r);
  }

  lemma ChunkPastOut(q: string, ps: seq<Param>)
    requires q != [] && q[0] != ';' && Plain(q, |ps|) && !AtBareTag(q)
    ensures var lits := Literals(ps);
            var r := Subst(q[ItemLen(q, |lits|)..], lits);
            ChunkLen(ItemOut(q, lits) + r) == |ItemOut(q, lits)| + ChunkLen(r)
  {
    hide Subst, ChunkLen, DollarSpan, QuoteSpan, TagLen, IsPlaceholder;
    var lits := Literals(ps);
    var m := ItemLen(q, |lits|);
    var r := Subst(q[m..], lits);
    if IsPlaceholder(q, |lits|) {
      ChunkPastReplacement(q, ps, r);
    } else if m == |q| {
      SubstEmpty(lits);
      assert q[m..] == [] && q[..m] + r == q;
      ChunkPastItem(q, |lits|);
    } else if q[0] == '\'' {
      ChunkPastQuotedItem(q, r);
    } else if TagLen(q) > 0 {
      DollarRegionCloses(q);
      ChunkPastDollar(q[..m], r);
    } else {
      ChunkPastCopied(q, ps);
      assert q[..1] == [q[0]];
    }
  }

  /** The first chunk of the synthesized text is the substituted first chunk. */
  predicate FirstChunkSubst(q: string, lits: seq<string>) {
    var k := ChunkLen(q);
    && ChunkLen(Subst(q, lits)) == |Subst(q[..k], lits)|
    && Subst(q, lits) == Subst(q[..k], lits) + (if k < |q| then ";" + Subst(q[k + 1..], lits) else [])
  }

  lemma {:induction false} FirstChunkCommutes(q: string, ps: seq<Param>)
    requires Plain(q, |ps|)
    ensures FirstChunkSubst(q, Literals(ps))
    decreases |q|
  {
    hide FirstChunkSubst, ItemLen, TagLen;
    var lits := Literals(ps);
    if q == [] || q[0] == ';' {
      FirstChunkEmpty(q, lits);
    } else if AtBareTag(q) {
      FirstChunkBareTag(q, lits);
    } else {
      FirstChunkCommutes(q[ItemLen(q, |lits|)..], ps);
      FirstChunkPastItem(q, ps);
    }
  }

  lemma FirstChunkEmpty(q: string, lits: seq<string>)
    requires q == [] || q[0] == ';'
    ensures FirstChunkSubst(q, lits)
  {
    hide ChunkLen, Subst;
    SubstEmpty(lits);
    ChunkAtEnd(q);
    assert q[..0] == [];
    if q != [] {
      SubstChar(q, lits);
      ChunkAtEnd(Subst(q, lits));
    } else {
      ChunkAtEnd([]);
    }
  }

  lemma FirstChunkBareTag(q: string, lits: seq<string>)
    requires AtBareTag(q)
    ensures FirstChunkSubst(q, lits)
  {
    hide ChunkLen, Subst;
    SubstBareTag(q, lits);
    BareTagTwice(q);
    assert q[..|q|] == q;
  }

  lemma ChunkOfSubst(q: string, ps: seq<Param>)
    requires q != [] && q[0] != ';' && Plain(q, |ps|) && !AtBareTag(q)
    ensures var lits, m := Literals(ps), ItemLen(q, |ps|);
            && Subst(q, lits) == ItemOut(q, lits) + Subst(q[m..], lits)
            && ChunkLen(Subst(q, lits)) == |ItemOut(q, lits)| + ChunkLen(Subst(q[m..], lits))
  {
    ChunkPastOut(q, ps);
  }

  lemma FirstChunkPastItem(q: string, ps: seq<Param>)
    requires q != [] && q[0] != ';' && Plain(q, |ps|) && !AtBareTag(q)
    requires FirstChunkSubst(q[ItemLen(q, |ps|)..], Literals(ps))
    ensures FirstChunkSubst(q, Literals(ps))
  {
    hide Subst, ChunkLen, ItemLen, ItemOut, Plain;
    var lits, k, m := Literals(ps), ChunkLen(q), ItemLen(q, |ps|);
    assert k - m == ChunkLen(q[m..]) by { ChunkPastItem(q, |lits|); }
    FirstItemOfChunk(q, lits);
    ChunkOfSubst(q, ps);
    var x := Subst(q[m..][..k - m], lits);
    assert ChunkLen(Subst(q, lits)) == |Subst(q[..k], lits)|;
    if k < |q| {
      FirstChunkText(q, lits);
    } else {
      assert q[..k] == q;
    }
  }

  lemma FirstChunkText(q: string, lits: seq<string>)
    requires q != [] && q[0] != ';' && Plain(q, |lits|) && !AtBareTag(q) && ChunkLen(q) < |q|
    requires var k, m := ChunkLen(q), ItemLen(q, |lits|);
             && m <= k && Subst(q[..k], lits) == ItemOut(q, lits) + Subst(q[m..][..k - m], lits)
             && Subst(q[m..], lits) == Subst(q[m..][..k - m], lits) + (";" + Subst(q[m..][k - m + 1..], lits))
    ensures var k := ChunkLen(q); Subst(q, lits) == Subst(q[..k], lits) + (";" + Subst(q[k + 1..], lits))
  {
    hide ChunkLen, Plain, ItemLen, ItemOut;
    var k, m := ChunkLen(q), ItemLen(q, |lits|);
    assert q[m..][k - m + 1..] == q[k + 1..];
    Associative(ItemOut(q, lits), Subst(q[m..][..k - m], lits), ";" + Subst(q[k + 1..], lits));
  }

  lemma BareTagTwice(q: string)
    requires AtBareTag(q)
    ensures ChunkLen(q) == |q| && ChunkLen(q + q) == |q + q|
  {
    TagLenPrefix(q, q);
    var s := q + q;
    assert s[|q|..] == q && s[..|q|] == q && q[|q|..] == [] && q[..|q|] == q;
    assert Index(q, q) == 0;
    assert Unit(s) == |s| && s[|s|..] == [];
    assert Index([], q) < 0;
    assert Unit(q) == |q|;
  }

  lemma FirstItemOfChunk(q: string, lits: seq<string>)
    requires q != [] && q[0] != ';' && Plain(q, |lits|) && !AtBareTag(q)
    ensures var k, m := ChunkLen(q), ItemLen(q, |lits|);
            && m <= k && q[..k][m..] == q[m..][..k - m]
            && Subst(q[..k], lits) == ItemOut(q, lits) + Subst(q[m..][..k - m], lits)
  {
    hide ChunkLen, Plain;
    var k, m := ChunkLen(q), ItemLen(q, |lits|);
    ChunkPastItem(q, |lits|);
    var x := q[..k];
    assert x[m..] == q[m..][..k - m];
    if k < |q| {
      assert q == x + q[k..] && q[k..][0] == ';';
      ItemWithin(x, q[k..], lits);
    } else {
      assert x == q;
    }
  }

  /** Splitting commutes with substitution: for every plain query and every parameter contents, splitting
      the synthesized text gives the substituted statements of the original, one by one and in order, if
      and only if no statement ends in an opening dollar tag followed by blanks. */
  lemma {:induction false} SplitCommutesWithSubst(q: string, ps: seq<Param>)
    requires Plain(q, |ps|)
    ensures var lits := Literals(ps);
            && |Split(Subst(q, lits))| == |Split(q)|
            && (Split(Subst(q, lits)) == SubstEach(Split(q), lits) <==> !SomeTagThenBlanks(q, |ps|))
    decreases |q|
  {
    hide Subst, ChunkLen, Statement, Plain, TagThenBlanks, SubstEach, Literals;
    var lits, k := Literals(ps), ChunkLen(q);
    FirstChunkCommutes(q, ps);
    StatementCommutes(q[..k], ps);
    if k < |q| {
      PlainAfterChunk(q, |ps|);
      SplitCommutesWithSubst(q[k + 1..], ps);
      SplitOnce(Subst(q[..k], lits), Subst(q[k + 1..], lits), Subst(q, lits));
      SplitPieces(Statement(Subst(q[..k], lits)), Split(Subst(q[k + 1..], lits)),
                  Statement(q[..k]), Split(q[k + 1..]), lits);
    } else {
      var out := Subst(q, lits);
      assert out[..|out|] == out;
      SplitPieces(Statement(out), [], Statement(q[..k]), [], lits);
    }
  }

  lemma SplitOnce(x: string, r: string, s: string)
    requires s == x + (";" + r) && ChunkLen(s) == |x|
    ensures Split(s) == Statement(x) + Split(r)
  {
    hide ChunkLen, Statement;
    assert s[..|x|] == x && s[|x| + 1..] == r;
  }

  lemma SplitPieces(a: seq<string>, b: seq<string>, c: seq<string>, d: seq<string>, lits: seq<string>)
    requires |a| == |c| && |b| == |d|
    ensures a + b == SubstEach(c + d, lits) <==> a == SubstEach(c, lits) && b == SubstEach(d, lits)
  {
    hide Subst;
    assert SubstEach(c + d, lits) == SubstEach(c, lits) + SubstEach(d, lits);
    if a + b == SubstEach(c, lits) + SubstEach(d, lits) {
      assert (a + b)[..|a|] == a && (a + b)[|a|..] == b;
    }
  }

  lemma {:induction false} PlainAfterChunk(q: string, n: nat)
    requires Plain(q, n) && ChunkLen(q) < |q|
    ensures Plain(q[ChunkLen(q) + 1..], n)
    decreases |q|
  {
    hide ChunkLen, ItemLen;
    var k := ChunkLen(q);
    if q[0] == ';' {
      ChunkAtEnd(q);
      ItemOfChar(q, n);
    } else {
      var m := ItemLen(q, n);
      ChunkPastItem(q, n);
      PlainAfterChunk(q[m..], n);
      assert q[m..][k - m + 1..] == q[k + 1..];
    }
  }

  lemma BareTagBlank()
    ensures var q := "$$ "; ItemLen(q, 0) == 3 == ChunkLen(q)
  {
    var q := "$$ ";
    assert q[2..] == " " && q[..2] == "$$" && " "[1..] == [];
    assert Index(" ", "$$") == -1;
    assert TagLen(q) == 2 && DollarSpan(q) == 3 && Unit(q) == 3;
    assert q[3..] == [] && ChunkLen([]) == 0;
  }

  lemma BareTagTrimmed()
    ensures var q := "$$ "; Plain(q, 0) && SomeTagThenBlanks(q, 0)
  {
    hide ItemLen, ChunkLen;
    BareTagBlank();
    var q := "$$ ";
    assert q[3..] == [] && q[..3] == q && q[..2] == "$$";
    assert TrimLeft(q) == q && TrimRight(q) == "$$" && AtBareTag("$$");
  }

  /** The failing family at its smallest: the tag is doubled in the statement but not in the query. */
  lemma TagThenBlanksBreaks()
    ensures var q := "$$ "; Plain(q, 0) && Split(Subst(q, [])) != SubstEach(Split(q), [])
  {
    hide *;
    BareTagTrimmed();
    SplitCommutesWithSubst("$$ ", []);
    assert Literals([]) == [];
  }

  // ---- The code ----

  method EscapeStringLiteral(s: string) returns (r: string)
    ensures r == Literal(Text(s))
  {
    r := "'";
    var i := 0;
    while i < |s|
      invariant 0 <= i <= |s|
      invariant r + EscapeBody(s[i..]) == "'" + EscapeBody(s)
    {
      var ch := s[i];
      assert s[i..][1..] == s[i + 1..];
      if ch == '\'' {
        r := r + "''";
      } else if ch != NUL {
        r := r + [ch];
      }
      i := i + 1;
    }
    r := r + "'";
  }

  /** The loop over a single-quoted string literal. */
  method SkipQuoted(query: string, i: nat) returns (j: nat)
    requires i < |query| && query[i] == '\''
    ensures j == i + QuoteSpan(query[i..])
  {
    j := i + 1;
    assert query[i..][1..] == query[j..];
    while j < |query|
      invariant i < j <= |query|
      invariant j + QuoteTail(query[j..]) == i + QuoteSpan(query[i..])
    {
      ghost var s := query[j..];
      assert s[1..] == query[j + 1..];
      if query[j] == '\'' {
        j := j + 1;
        if j < |query| && query[j] == '\'' {
          assert s[1] == '\'' && s[2..] == query[j + 1..];
          j := j + 1;
          continue;
        }
        return;
      }
      j := j + 1;
    }
  }

  /** The digits of $N, as strconv.Atoi reads them. */
  method ReadNumber(query: string, i: nat) returns (j: nat, n: nat)
    requires i <= |query|
    ensures j == i + DigitRun(query[i..])
    ensures n == Number(query[i..j])
  {
    j, n := i, 0;
    while j < |query| && IsDigit(query[j])
      invariant i <= j <= |query|
      invariant j + DigitRun(query[j..]) == i + DigitRun(query[i..])
      invariant forall c | c in query[i..j] :: IsDigit(c)
      invariant n == Number(query[i..j])
    {
      assert query[j..][1..] == query[j + 1..];
      assert query[i..j + 1][..j - i] == query[i..j];
      n := 10 * n + (query[j] as int - '0' as int);
      j := j + 1;
    }
  }

  method ReplacePlaceholders(query: string, literals: seq<string>) returns (result: string)
    ensures result == Subst(query, literals)
  {
    hide *;
    result := "";
    var i := 0;
    assert query[0..] == query;
    while i < |query|
      invariant 0 <= i <= |query|
      invariant result + Subst(query[i..], literals) == Subst(query, literals)
    {
      var j, out := ReplaceAt(query, i, literals);
      result, i := result + out, j;
    }
    SubstEmpty(literals);
    assert query[i..] == [];
  }

  lemma SubstStep(s: string, lits: seq<string>)
    requires s != []
    ensures Subst(s, lits) == if AtBareTag(s) then s + [s[0]] + Subst(s[1..], lits)
                              else ItemOut(s, lits) + Subst(s[ItemLen(s, |lits|)..], lits)
  {
  }

  lemma SubstEmpty(literals: seq<string>)
    ensures Subst([], literals) == []
  {
  }

  /** One turn of the loop: what is written, and where the scan goes on. */
  method ReplaceAt(query: string, i: nat, literals: seq<string>) returns (j: nat, out: string)
    requires i < |query|
    ensures i < j <= |query|
    ensures Subst(query[i..], literals) == out + Subst(query[j..], literals)
  {
    hide Subst, QuoteTail, TagRun;
    ghost var s := query[i..];
    SubstStep(s, literals);
    if query[i] == '\'' {
      j := SkipQuoted(query, i);
      out := query[i..j];
      assert out == s[..j - i] && query[j..] == s[j - i..];
    } else if query[i] == '$' && i + 1 < |query| {
      j, out := ReplaceDollar(query, i, literals);
    } else {
      j, out := i + 1, [query[i]];
      assert out == s[..1] && query[j..] == s[1..];
    }
  }

  method ReplaceDollar(query: string, i: nat, literals: seq<string>) returns (j: nat, out: string)
    requires i + 1 < |query| && query[i] == '$'
    ensures i < j <= |query|
    ensures Subst(query[i..], literals) == out + Subst(query[j..], literals)
  {
    hide Subst, DollarSpan, TagRun;
    ghost var s := query[i..];
    SubstStep(s, literals);
    var tag := ParseDollarTag(query, i);
    if tag == 0 {
      j, out := ReplaceNumber(query, i, literals);
      return;
    }
    if tag < |query| - i {
      j := SkipDollarQuoted(query, i, tag);
      out := query[i..j];
      assert out == s[..j - i] && query[j..] == s[j - i..];
      return;
    }
    // The text ends with the opening tag: no search, and the scan goes on at the same position.
    assert query[i..i + tag] == s && query[i + 1..] == s[1..] && s[0] == query[i];
    j, out := i + 1, query[i..i + tag] + [query[i]];
  }

  /** A dollar sign that opens no tag: a placeholder, or itself. */
  method ReplaceNumber(query: string, i: nat, literals: seq<string>) returns (j: nat, out: string)
    requires i + 1 < |query| && query[i] == '$' && TagLen(query[i..]) == 0
    ensures i < j <= |query|
    ensures Subst(query[i..], literals) == out + Subst(query[j..], literals)
  {
    hide Subst, DollarSpan, TagLen;
    ghost var s := query[i..];
    SubstStep(s, literals);
    assert s[1] == query[i + 1] && s[1..] == query[i + 1..] && s[..1] == [query[i]];
    if '1' <= query[i + 1] <= '9' {
      var end, idx := ReadNumber(query, i + 1);
      assert query[i + 1..end] == PlaceholderDigits(s) && query[end..] == s[end - i..];
      if 1 <= idx <= |literals| {
        return end, literals[idx - 1];
      }
    }
    j, out := i + 1, [query[i]];
  }
}
