/** The lexical regions the scanners agree on: quoted strings, dollar-quoted bodies and comments.
    Each function measures one region at the start of its argument. */
module Lexer {
  import opened SqlText

  predicate IsTagStart(c: char) {
    ('a' <= c <= 'z') || ('A' <= c <= 'Z') || c == '_'
  }

  predicate IsDigit(c: char) {
    '0' <= c <= '9'
  }

  predicate IsTagChar(c: char) {
    IsTagStart(c) || IsDigit(c)
  }

  function TagRun(s: string): (n: nat)
    ensures n <= |s|
    ensures forall i | 0 <= i < n :: IsTagChar(s[i])
    ensures n < |s| ==> !IsTagChar(s[n])
  {
    if s != [] && IsTagChar(s[0]) then 1 + TagRun(s[1..]) else 0
  }

  /** The length of a dollar-quote tag ($$ or $tag$) at the start of s, 0 if there is none. */
  function TagLen(s: string): (n: nat)
    ensures n <= |s|
    ensures n > 0 ==> n >= 2 && s[0] == '$' && s[n - 1] == '$'
  {
    if |s| < 2 || s[0] != '$' then 0
    else if s[1] == '$' then 2
    else if !IsTagStart(s[1]) then 0
    else
      var k := 1 + TagRun(s[1..]);
      if k < |s| && s[k] == '$' then k + 1 else 0
  }

  /** A dollar-quoted region: through its closing tag, or to the end of the text. */
  function DollarSpan(s: string): (n: nat)
    requires TagLen(s) > 0
    ensures TagLen(s) <= n <= |s|
  {
    var t := TagLen(s);
    var e := Index(s[t..], s[..t]);
    if e >= 0 then t + e + t else |s|
  }

  /** From just inside a single-quoted string to just past its closing quote, taking '' as an escape. */
  function QuoteTail(s: string): (n: nat)
    ensures n <= |s|
  {
    if s == [] then 0
    else if s[0] != '\'' then 1 + QuoteTail(s[1..])
    else if |s| >= 2 && s[1] == '\'' then 2 + QuoteTail(s[2..])
    else 1
  }

  function QuoteSpan(s: string): (n: nat)
    requires s != [] && s[0] == '\''
    ensures 1 <= n <= |s|
  {
    1 + QuoteTail(s[1..])
  }

  /** From just inside a double-quoted identifier to just past its closing quote. */
  function IdentTail(s: string): (n: nat)
    ensures n <= |s|
  {
    if s == [] then 0 else if s[0] == '"' then 1 else 1 + IdentTail(s[1..])
  }

  predicate AtLineComment(s: string) {
    |s| >= 2 && s[0] == '-' && s[1] == '-'
  }

  predicate AtBlockComment(s: string) {
    |s| >= 2 && s[0] == '/' && s[1] == '*'
  }

  predicate AtBlockEnd(s: string) {
    |s| >= 2 && s[0] == '*' && s[1] == '/'
  }

  /** The number of characters before the first newline. */
  function LineLen(s: string): (n: nat)
    ensures n <= |s|
    ensures forall i | 0 <= i < n :: s[i] != '\n'
    ensures n < |s| ==> s[n] == '\n'
  {
    if s == [] || s[0] == '\n' then 0 else 1 + LineLen(s[1..])
  }

  /** A line comment with the newline that ends it. */
  function LineSpan(s: string): (n: nat)
    ensures n <= |s|
    ensures AtLineComment(s) ==> n >= 2
  {
    var n := LineLen(s);
    if n < |s| then n + 1 else n
  }

  /** From inside a block comment nested `depth` deep to just past its end. */
  function BlockTail(s: string, depth: nat): (n: nat)
    ensures n <= |s|
  {
    if s == [] || depth == 0 then 0
    else if AtBlockComment(s) then 2 + BlockTail(s[2..], depth + 1)
    else if AtBlockEnd(s) then 2 + BlockTail(s[2..], depth - 1)
    else 1 + BlockTail(s[1..], depth)
  }

  function BlockSpan(s: string): (n: nat)
    requires AtBlockComment(s)
    ensures 2 <= n <= |s|
  {
    2 + BlockTail(s[2..], 1)
  }

  /** The next lexical unit: a whole quoted, dollar-quoted or commented region, or one character. */
  function Unit(s: string): (n: nat)
    requires s != []
    ensures 1 <= n <= |s|
  {
    if TagLen(s) > 0 then DollarSpan(s)
    else if AtLineComment(s) then LineSpan(s)
    else if AtBlockComment(s) then BlockSpan(s)
    else if s[0] == '\'' then QuoteSpan(s)
    else if s[0] == '"' then 1 + IdentTail(s[1..])
    else 1
  }

  /** The text up to the first semicolon that stands outside every region. */
  function ChunkLen(s: string): (n: nat)
    ensures n <= |s|
    ensures n < |s| ==> s[n] == ';'
    decreases |s|
  {
    if s == [] || s[0] == ';' then 0
    else var u := Unit(s); u + ChunkLen(s[u..])
  }

  function Statement(chunk: string): seq<string> {
    var t := Trim(chunk);
    if t == [] then [] else [t]
  }

  /** What splitStatements returns: the trimmed, non-empty chunks between top-level semicolons. */
  function Split(s: string): seq<string>
    decreases |s|
  {
    var k := ChunkLen(s);
    Statement(s[..k]) + if k < |s| then Split(s[k + 1..]) else []
  }

  // ---- Regions are local: what follows a closed one does not matter ----

  lemma {:induction false} QuoteTailPrefix(z: string, w: string)
    requires QuoteTail(z + w) <= |z|
    ensures QuoteTail(z) == QuoteTail(z + w)
    decreases |z|
  {
    if z == [] {
      assert z + w == w;
    } else if z[0] != '\'' {
      assert (z + w)[1..] == z[1..] + w;
      QuoteTailPrefix(z[1..], w);
    } else if |z| >= 2 && z[1] == '\'' {
      assert (z + w)[2..] == z[2..] + w;
      QuoteTailPrefix(z[2..], w);
    }
  }

  lemma TagLenPrefix(z: string, w: string)
    requires TagLen(z) > 0
    ensures TagLen(z + w) == TagLen(z)
  {
    if z[1] != '$' {
      assert (z + w)[1..] == z[1..] + w;
      TagRunPrefix(z[1..], w);
    }
  }

  lemma {:induction false} TagRunPrefix(z: string, w: string)
    requires TagRun(z) < |z|
    ensures TagRun(z + w) == TagRun(z)
  {
    if IsTagChar(z[0]) {
      assert (z + w)[1..] == z[1..] + w;
      TagRunPrefix(z[1..], w);
    }
  }

  lemma TagLenWithin(z: string, w: string)
    requires 0 < TagLen(z + w) <= |z|
    ensures TagLen(z) == TagLen(z + w)
  {
    var q := z + w;
    if q[1] != '$' {
      var k := TagRun(q[1..]);
      assert forall i | 0 <= i <= k :: z[1..][i] == q[1..][i];
      TagRunIs(z[1..], k);
    }
  }

  lemma DollarSpanPrefix(z: string, w: string)
    requires TagLen(z + w) > 0 && DollarSpan(z + w) <= |z| && w != []
    ensures TagLen(z) == TagLen(z + w) && DollarSpan(z) == DollarSpan(z + w)
  {
    TagLenWithin(z, w);
    var q := z + w;
    var t := TagLen(q);
    var tag := q[..t];
    assert z[..t] == tag && q[t..] == z[t..] + w;
    var e := Index(q[t..], tag);
    assert z[t..][e..e + t] == q[t..][e..e + t];
    IndexFinds(z[t..], tag, e);
    IndexAppend(z[t..], w, tag);
  }

  lemma ChunkAtEnd(s: string)
    requires s == [] || s[0] == ';'
    ensures ChunkLen(s) == 0
  {
  }

  /** A character that opens no region. */
  predicate IsOrdinary(c: char) {
    c != ';' && c != '$' && c != '-' && c != '/' && c != '\'' && c != '"'
  }

  lemma ChunkPastChar(c: char, r: string)
    requires IsOrdinary(c)
    ensures ChunkLen([c] + r) == 1 + ChunkLen(r)
  {
    hide TagLen, DollarSpan, QuoteSpan, IdentTail, LineSpan, BlockSpan;
    assert ([c] + r)[1..] == r;
  }

  lemma {:induction false} ChunkPastBlanks(w: string, r: string)
    requires AllBlank(w)
    ensures ChunkLen(w + r) == |w| + ChunkLen(r)
  {
    hide ChunkLen;
    if w == [] {
      assert w + r == r;
    } else {
      assert w[0] in w && w + r == [w[0]] + (w[1..] + r);
      ChunkPastChar(w[0], w[1..] + r);
      ChunkPastBlanks(w[1..], r);
    }
  }

  lemma {:induction false} TagRunIs(s: string, k: nat)
    requires k < |s| && (forall i | 0 <= i < k :: IsTagChar(s[i])) && !IsTagChar(s[k])
    ensures TagRun(s) == k
  {
    if k > 0 {
      assert forall i | 0 <= i < k - 1 :: s[1..][i] == s[i + 1];
      TagRunIs(s[1..], k - 1);
    }
  }

  // ---- A statement stands alone ----

  lemma {:induction false} LineLenPrefix(z: string, w: string)
    ensures LineLen(z) == if LineLen(z + w) < |z| then LineLen(z + w) else |z|
  {
    if z == [] {
      assert z + w == w;
    } else if z[0] != '\n' {
      assert (z + w)[1..] == z[1..] + w;
      LineLenPrefix(z[1..], w);
    }
  }

  lemma {:induction false} IdentTailPrefix(z: string, w: string)
    ensures IdentTail(z) == if IdentTail(z + w) < |z| then IdentTail(z + w) else |z|
  {
    if z == [] {
      assert z + w == w;
    } else if z[0] != '"' {
      assert (z + w)[1..] == z[1..] + w;
      IdentTailPrefix(z[1..], w);
    }
  }

  lemma {:induction false} QuoteTailCut(z: string, w: string)
    requires QuoteTail(z + w) > |z|
    ensures QuoteTail(z) == |z|
    decreases |z|
  {
    if z == [] {
    } else if z[0] != '\'' {
      assert (z + w)[1..] == z[1..] + w;
      QuoteTailCut(z[1..], w);
    } else if |z| >= 2 && z[1] == '\'' {
      assert (z + w)[2..] == z[2..] + w;
      QuoteTailCut(z[2..], w);
    }
  }

  lemma {:induction false} BlockTailCut(z: string, w: string, depth: nat)
    ensures BlockTail(z, depth) == if BlockTail(z + w, depth) < |z| then BlockTail(z + w, depth) else |z|
    decreases |z|
  {
    var s := z + w;
    if z == [] {
    } else if depth > 0 {
      if |z| == 1 {
        assert BlockTail(z[1..], depth) == 0;
      } else {
        assert AtBlockComment(s) == AtBlockComment(z) && AtBlockEnd(s) == AtBlockEnd(z);
        assert s[1..] == z[1..] + w && s[2..] == z[2..] + w;
        if AtBlockComment(z) {
          BlockTailCut(z[2..], w, depth + 1);
        } else if AtBlockEnd(z) {
          BlockTailCut(z[2..], w, depth - 1);
        } else {
          BlockTailCut(z[1..], w, depth);
        }
      }
    }
  }

  lemma {:induction false} ChunkOfOrdinary(z: string)
    requires forall c | c in z :: IsOrdinary(c)
    ensures ChunkLen(z) == |z|
  {
    hide ChunkLen, IsOrdinary;
    if z == [] {
      ChunkAtEnd(z);
    } else {
      assert z == [z[0]] + z[1..] && z[0] in z;
      ChunkPastChar(z[0], z[1..]);
      ChunkOfOrdinary(z[1..]);
    }
  }

  /** A unit that covers the whole text leaves no semicolon outside. */
  lemma WholeUnit(z: string)
    requires z != [] && z[0] != ';' && Unit(z) == |z|
    ensures ChunkLen(z) == |z|
  {
    hide Unit;
    assert z[|z|..] == [];
  }

  lemma TagChars(s: string)
    requires TagLen(s) > 0
    ensures s[0] == '$' && forall i | 0 < i < TagLen(s) - 1 :: IsTagChar(s[i])
  {
    hide TagRun;
    var t := s[1..];
    forall i | 0 < i < TagLen(s) - 1 ensures IsTagChar(s[i]) { assert s[i] == t[i - 1]; }
  }

  lemma LoneDollar(z: string)
    requires z != [] && z[0] == '$' && TagLen(z) == 0
    ensures ChunkLen(z) == 1 + ChunkLen(z[1..])
  {
    hide TagLen;
  }

  /** A tag cut short is an ordinary run of characters. */
  lemma TagCut(z: string, w: string)
    requires z != [] && |z| < TagLen(z + w)
    ensures ChunkLen(z) == |z|
  {
    hide ChunkLen, TagLen;
    if TagLen(z) > 0 { TagLenPrefix(z, w); }
    TagChars(z + w);
    var t := z[1..];
    forall c | c in t ensures IsOrdinary(c) {
      var i :| 0 <= i < |t| && t[i] == c;
      assert (z + w)[i + 1] == c;
    }
    LoneDollar(z);
    ChunkOfOrdinary(t);
  }

  lemma DollarCut(z: string, w: string)
    requires z != [] && 0 < TagLen(z + w) <= |z| && w != []
    ensures TagLen(z) == TagLen(z + w)
    ensures DollarSpan(z) == if DollarSpan(z + w) <= |z| then DollarSpan(z + w) else |z|
  {
    TagLenWithin(z, w);
    if DollarSpan(z + w) <= |z| {
      DollarSpanPrefix(z, w);
    } else {
      var t := TagLen(z);
      var tag := z[..t];
      assert (z + w)[..t] == tag && (z + w)[t..] == z[t..] + w;
      hide TagLen;
      if Index(z[t..], tag) >= 0 { IndexAppend(z[t..], w, tag); }
    }
  }

  lemma NoTagBefore(z: string, w: string)
    requires TagLen(z + w) == 0
    ensures TagLen(z) == 0
  {
    if TagLen(z) > 0 { TagLenPrefix(z, w); }
  }

  /** Cutting a text inside or after its first unit: the unit stays, or all that is left belongs to it. */
  lemma UnitCut(z: string, w: string)
    requires z != [] && z[0] != ';' && w != []
    ensures if Unit(z + w) <= |z| then Unit(z) == Unit(z + w) else ChunkLen(z) == |z|
  {
    var s := z + w;
    assert s[0] == z[0] && s[1..] == z[1..] + w;
    if TagLen(s) > |z| {
      TagCut(z, w);
    } else if TagLen(s) > 0 {
      DollarCut(z, w);
      hide TagLen, DollarSpan, ChunkLen;
      if Unit(s) > |z| { WholeUnit(z); }
    } else {
      NoTagBefore(z, w);
      hide TagLen, ChunkLen;
      CommentOrQuoteCut(z, w);
      if Unit(s) > |z| { WholeUnit(z); }
    }
  }

  lemma CommentOrQuoteCut(z: string, w: string)
    requires z != [] && w != [] && TagLen(z + w) == 0 && TagLen(z) == 0
    ensures Unit(z) == if Unit(z + w) <= |z| then Unit(z + w) else |z|
  {
    hide TagLen, QuoteTail, IdentTail, LineLen, BlockTail;
    var s := z + w;
    assert s[0] == z[0] && s[1..] == z[1..] + w;
    if AtLineComment(s) && |z| > 1 {
      LineLenPrefix(z, w);
    } else if AtBlockComment(s) && |z| > 1 {
      assert s[2..] == z[2..] + w;
      BlockTailCut(z[2..], w, 1);
    } else if s[0] == '\'' {
      if QuoteTail(s[1..]) <= |z[1..]| { QuoteTailPrefix(z[1..], w); } else { QuoteTailCut(z[1..], w); }
    } else if s[0] == '"' {
      IdentTailPrefix(z[1..], w);
    }
  }

  /** A text without a semicolon outside its regions has none in any prefix either. */
  lemma {:induction false} ChunkCut(z: string, w: string)
    requires ChunkLen(z + w) >= |z|
    ensures ChunkLen(z) == |z|
    decreases |z|
  {
    var s := z + w;
    if w == [] {
      assert s == z;
    } else if z != [] {
      assert s[0] == z[0];
      UnitCut(z, w);
      var u := Unit(s);
      hide Unit;
      if u <= |z| {
        assert s[u..] == z[u..] + w;
        ChunkCut(z[u..], w);
      }
    }
  }

  /** Every statement stands alone: split again, it is its own only statement. */
  lemma {:induction false} StatementStandsAlone(s: string, stmt: string)
    requires stmt in Split(s)
    ensures Split(stmt) == [stmt]
    decreases |s|
  {
    SplitStep(s);
    hide *;
    var k := ChunkLen(s);
    var c := s[..k];
    if stmt in Statement(c) {
      assert s == c + s[k..];
      ChunkCut(c, s[k..]);
      OnlyStatement(c, stmt);
      TrimmedStandsAlone(c);
    } else {
      StatementStandsAlone(s[k + 1..], stmt);
    }
  }

  lemma SplitStep(s: string)
    ensures var k := ChunkLen(s); Split(s) == Statement(s[..k]) + if k < |s| then Split(s[k + 1..]) else []
  {
    hide ChunkLen, Statement;
  }

  lemma OnlyStatement(c: string, stmt: string)
    requires stmt in Statement(c)
    ensures stmt == Trim(c) && stmt != []
  {
  }

  lemma TrimmedStandsAlone(c: string)
    requires ChunkLen(c) == |c| && Trim(c) != []
    ensures Split(Trim(c)) == [Trim(c)]
  {
    hide ChunkLen, Trim;
    var a, b := TrimShape(c);
    assert c == c[..a] + c[a..] && c[a..] == c[a..b] + c[b..];
    ChunkPastBlanks(c[..a], c[a..]);
    ChunkCut(c[a..b], c[b..]);
    var t := c[a..b];
    assert t[..|t|] == t;
    TrimTwice(c);
  }

  // ---- The code ----

  /** parseDollarTag: the length of the tag at position i, 0 if there is none. */
  method ParseDollarTag(query: string, i: nat) returns (n: nat)
    requires i <= |query|
    ensures n == TagLen(query[i..])
  {
    var s := query[i..];
    if i >= |query| || query[i] != '$' { return 0; }
    if i + 1 < |query| && query[i + 1] == '$' { return 2; }
    var j := i + 1;
    if j >= |query| || !IsTagStart(query[j]) { return 0; }
    assert query[j] == s[1] && query[j..] == s[1..];
    while j < |query| && IsTagChar(query[j])
      invariant i + 1 <= j <= |query|
      invariant j - i - 1 + TagRun(query[j..]) == TagRun(s[1..])
    {
      j := j + 1;
    }
    if j < |query| && query[j] == '$' { return j + 1 - i; }
    return 0;
  }

  /** From the opening tag at i past its closing tag, or to the end of the text. */
  method SkipDollarQuoted(query: string, i: nat, tag: nat) returns (j: nat)
    requires i + tag <= |query| && 0 < tag == TagLen(query[i..])
    ensures j == i + DollarSpan(query[i..])
  {
    hide Index, TagLen;
    var end := Index(query[i + tag..], query[i..i + tag]);
    assert query[i..][tag..] == query[i + tag..] && query[i..][..tag] == query[i..i + tag];
    j := if end >= 0 then i + tag + end + tag else |query|;
  }

  /** The loop that skips a possibly nested block comment starting at i. */
  method SkipBlockComment(query: string, i: nat) returns (j: nat)
    requires i <= |query| && AtBlockComment(query[i..])
    ensures j == i + BlockSpan(query[i..])
  {
    var depth: nat := 1;
    j := i + 2;
    assert query[i..][2..] == query[j..];
    while j < |query| && depth > 0
      invariant i + 2 <= j <= |query|
      invariant j + BlockTail(query[j..], depth) == i + BlockSpan(query[i..])
    {
      ghost var s := query[j..];
      if j + 1 < |query| && query[j] == '/' && query[j + 1] == '*' {
        assert AtBlockComment(s) && s[2..] == query[j + 2..];
        depth := depth + 1;
        j := j + 2;
      } else if j + 1 < |query| && query[j] == '*' && query[j + 1] == '/' {
        assert AtBlockEnd(s) && s[2..] == query[j + 2..];
        depth := depth - 1;
        j := j + 2;
      } else {
        assert s[1..] == query[j + 1..];
        j := j + 1;
      }
    }
  }

  /** The loop that runs to the next newline. */
  method SkipLine(query: string, i: nat) returns (j: nat)
    requires i <= |query|
    ensures j == i + LineLen(query[i..])
  {
    j := i;
    while j < |query| && query[j] != '\n'
      invariant i <= j <= |query|
      invariant j + LineLen(query[j..]) == i + LineLen(query[i..])
    {
      assert query[j..][1..] == query[j + 1..];
      j := j + 1;
    }
  }

  datatype Mode = Outside | InSingle | InDouble

  /** How much of the current chunk is left when the scan stands before s. */
  ghost function Rest(s: string, mode: Mode): (n: nat)
    ensures n <= |s|
  {
    var j := if mode.InSingle? then QuoteTail(s) else if mode.InDouble? then IdentTail(s) else 0;
    j + ChunkLen(s[j..])
  }

  lemma RestOutside(s: string)
    ensures Rest(s, Outside) == ChunkLen(s)
    ensures s != [] && s[0] == ';' ==> Rest(s, Outside) == 0
    ensures s != [] && s[0] != ';' ==> Rest(s, Outside) == Unit(s) + Rest(s[Unit(s)..], Outside)
  {
    assert s[0..] == s;
    if s != [] { assert s[Unit(s)..][0..] == s[Unit(s)..]; }
  }

  lemma RestIntoQuotes(s: string)
    requires s != [] && (s[0] == '\'' || s[0] == '"')
    ensures Rest(s, Outside) == 1 + Rest(s[1..], if s[0] == '\'' then InSingle else InDouble)
  {
    hide ChunkLen;
    RestOutside(s);
    var u := Unit(s);
    assert s[1..][u - 1..] == s[u..] && s[u..][0..] == s[u..];
  }

  /** Inside quotes: n characters that stay inside, or the quote that closes. */
  lemma RestInQuotes(s: string, mode: Mode, n: nat, closes: bool)
    requires !mode.Outside? && n <= |s|
    requires var tail := if mode.InSingle? then QuoteTail(s) else IdentTail(s);
             var more := if mode.InSingle? then QuoteTail(s[n..]) else IdentTail(s[n..]);
             tail == n + if closes then 0 else more
    ensures Rest(s, mode) == n + Rest(s[n..], if closes then Outside else mode)
  {
    hide ChunkLen, QuoteTail, IdentTail;
    var j := if mode.InSingle? then QuoteTail(s) else IdentTail(s);
    assert s[n..][j - n..] == s[j..];
  }

  /** The outside branches of the loop body, up to the semicolon case: where the next unit ends. */
  method SkipUnit(query: string, i: nat) returns (j: nat)
    requires i < |query| && query[i] != '\'' && query[i] != '"'
    ensures j == i + Unit(query[i..])
  {
    var tag := ParseDollarTag(query, i);
    if tag > 0 {
      j := SkipDollarQuoted(query, i, tag);
    } else if query[i] == '-' && i + 1 < |query| && query[i + 1] == '-' {
      j := SkipLine(query, i);
      if j < |query| { j := j + 1; }
    } else if query[i] == '/' && i + 1 < |query| && query[i + 1] == '*' {
      j := SkipBlockComment(query, i);
    } else {
      j := i + 1;
    }
  }

  /** One turn of the loop other than at a top-level semicolon. */
  method ScanOn(query: string, i: nat, mode: Mode) returns (j: nat, mode': Mode)
    requires i < |query| && !(mode.Outside? && query[i] == ';')
    ensures i < j <= |query| && Rest(query[i..], mode) == j - i + Rest(query[j..], mode')
  {
    hide Rest, Unit;
    var ch := query[i];
    ghost var s := query[i..];
    assert s[0] == ch && s[1..] == query[i + 1..];
    j, mode' := i + 1, mode;
    if mode.Outside? {
      if ch == '\'' || ch == '"' {
        RestIntoQuotes(s);
        mode' := if ch == '\'' then InSingle else InDouble;
      } else {
        RestOutside(s);
        j := SkipUnit(query, i);
        assert s[j - i..] == query[j..];
      }
    } else {
      var closes := ch == (if mode.InSingle? then '\'' else '"');
      if mode.InSingle? && closes && i + 1 < |query| && query[i + 1] == '\'' {
        j, closes := i + 2, false;
        assert s[1] == '\'' && s[2..] == query[j..];
      }
      RestInQuotes(s, mode, j - i, closes);
      if closes { mode' := Outside; }
    }
  }

  lemma SplitAt(query: string, start: nat, i: nat)
    requires start <= i <= |query| && i == start + ChunkLen(query[start..])
    ensures Split(query[start..]) == Statement(query[start..i]) + if i < |query| then Split(query[i + 1..]) else []
  {
    hide ChunkLen, Statement;
    assert query[start..][..i - start] == query[start..i];
    if i < |query| { assert query[start..][i - start + 1..] == query[i + 1..]; }
  }

  method SplitStatements(query: string) returns (stmts: seq<string>)
    ensures stmts == Split(query)
  {
    hide *;
    stmts := [];
    var cur, mode, i := "", Outside, 0;
    ghost var start := 0;
    assert query[0..] == query;
    RestOutside(query);
    while i < |query|
      invariant 0 <= start <= i <= |query|
      invariant cur == query[start..i]
      invariant i + Rest(query[i..], mode) == start + ChunkLen(query[start..])
      invariant stmts + Split(query[start..]) == Split(query)
    {
      if mode.Outside? && query[i] == ';' {
        RestOutside(query[i..]);
        SplitAt(query, start, i);
        RestOutside(query[i + 1..]);
        stmts := stmts + Statement(cur);
        cur, i := "", i + 1;
        start := i;
      } else {
        var j, mode' := ScanOn(query, i, mode);
        cur, i, mode := cur + query[i..j], j, mode';
      }
    }
    SplitAt(query, start, i);
    stmts := stmts + Statement(cur);
  }
}
