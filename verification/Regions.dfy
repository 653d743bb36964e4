/** Where statements end (internal/router/router.go): a query written as statements made of strings, names,
    dollar-quoted strings, comments and other text is split exactly into those statements. */
module Regions {
  import opened SqlText
  import opened Lexer
  import Synthesizer

  /** The inside of a block comment: text without fences, and comments in it. */
  datatype Nested = Flat(text: string) | Inner(before: string, comment: Nested, after: Nested)

  datatype Region =
    | Ordinary(text: string)
    | Quoted(body: string)
    | Name(body: string)
    | Tagged(tag: string, inner: string)
    | Line(text: string)
    | Block(inside: Nested)

  function Inside(n: Nested): string {
    match n
    case Flat(t) => t
    case Inner(a, c, b) => a + ("/*" + Inside(c) + "*/" + Inside(b))
  }

  function Written(r: Region): string {
    match r
    case Ordinary(t) => t
    case Quoted(b) => "'" + b + "'"
    case Name(b) => "\"" + b + "\""
    case Tagged(tag, inner) => tag + inner + tag
    case Line(t) => "--" + t + "\n"
    case Block(n) => "/*" + Inside(n) + "*/"
  }

  predicate NoFence(t: string) {
    forall c | c in t :: c != '/' && c != '*'
  }

  predicate Fenced(n: Nested) {
    match n
    case Flat(t) => NoFence(t)
    case Inner(a, c, b) => NoFence(a) && Fenced(c) && Fenced(b)
  }

  predicate IsRegion(r: Region) {
    match r
    case Ordinary(t) => forall c | c in t :: IsOrdinary(c)
    case Quoted(b) => Synthesizer.Doubled(b)
    case Name(b) => '"' !in b
    case Tagged(tag, inner) => 0 < TagLen(tag) == |tag| && Index(inner + tag, tag) == |inner|
    case Line(t) => '\n' !in t
    case Block(n) => Fenced(n)
  }

  // ---- One region ----

  lemma {:induction false} PastText(t: string, r: string, depth: nat)
    requires NoFence(t) && depth > 0 && (r == [] || r[0] == '/' || r[0] == '*')
    ensures BlockTail(t + r, depth) == |t| + BlockTail(r, depth)
  {
    if t == [] {
      assert t + r == r;
    } else {
      var s := t + r;
      assert s[1..] == t[1..] + r && s[0] == t[0] && t[0] in t && forall c | c in t[1..] :: c in t;
      PastText(t[1..], r, depth);
    }
  }

  /** A comment closes where all comments inside it have closed, and not before. */
  lemma {:induction false} PastInside(n: Nested, r: string, depth: nat)
    requires Fenced(n) && depth > 0
    ensures BlockTail(Inside(n) + ("*/" + r), depth) == |Inside(n)| + 2 + BlockTail(r, depth - 1)
    decreases n
  {
    hide BlockTail, NoFence;
    var close := "*/" + r;
    match n
    case Flat(t) =>
      PastText(t, close, depth);
      Closes(r, depth);
    case Inner(a, c, b) =>
      var tail := Inside(b) + close;
      var rest := "/*" + (Inside(c) + ("*/" + tail));
      assert Inside(n) + close == a + rest;
      PastText(a, rest, depth);
      Opens(Inside(c) + ("*/" + tail), depth);
      PastInside(c, tail, depth + 1);
      PastInside(b, r, depth);
  }

  lemma Closes(r: string, depth: nat)
    requires depth > 0
    ensures BlockTail("*/" + r, depth) == 2 + BlockTail(r, depth - 1)
  {
    var s := "*/" + r;
    assert s[0] == '*' && s[1] == '/' && s[2..] == r;
  }

  lemma Opens(r: string, depth: nat)
    requires depth > 0
    ensures BlockTail("/*" + r, depth) == 2 + BlockTail(r, depth + 1)
  {
    var s := "/*" + r;
    assert s[0] == '/' && s[1] == '*' && s[2..] == r;
  }

  lemma UnitThenRest(s: string, n: nat)
    requires s != [] && s[0] != ';' && Unit(s) == n
    ensures ChunkLen(s) == n + ChunkLen(s[n..])
  {
    hide Unit;
  }

  lemma PastBlock(n: Nested, r: string)
    requires Fenced(n)
    ensures ChunkLen(Written(Block(n)) + r) == |Written(Block(n))| + ChunkLen(r)
  {
    hide ChunkLen, BlockTail, Fenced, Inside;
    var w := Written(Block(n));
    var s := w + r;
    assert s[2..] == Inside(n) + ("*/" + r) && s[0] == '/' && s[1] == '*';
    PastInside(n, r, 1);
    NoTailLeft(r);
    UnitThenRest(s, |w|);
    assert s[|w|..] == r;
  }

  lemma NoTailLeft(r: string)
    ensures BlockTail(r, 0) == 0
  {
  }

  lemma {:induction false} LineLenIs(t: string, r: string)
    requires '\n' !in t
    ensures LineLen(t + "\n" + r) == |t|
  {
    var s := t + "\n" + r;
    if t != [] {
      assert s[1..] == t[1..] + "\n" + r && s[0] == t[0] && t[0] in t;
      LineLenIs(t[1..], r);
    }
  }

  lemma PastLine(t: string, r: string)
    requires '\n' !in t
    ensures ChunkLen("--" + t + "\n" + r) == |t| + 3 + ChunkLen(r)
  {
    hide ChunkLen, LineLen;
    var s := "--" + t + "\n" + r;
    assert s == ("--" + t) + "\n" + r;
    LineLenIs("--" + t, r);
    UnitThenRest(s, |t| + 3);
    assert s[|t| + 3..] == r;
  }

  lemma {:induction false} IdentTailIs(b: string, r: string)
    requires '"' !in b
    ensures IdentTail(b + "\"" + r) == |b| + 1
  {
    var s := b + "\"" + r;
    if b == [] {
      assert s[0] == '"';
    } else {
      assert s[1..] == b[1..] + "\"" + r && s[0] == b[0] && b[0] in b;
      IdentTailIs(b[1..], r);
    }
  }

  lemma PastName(b: string, r: string)
    requires '"' !in b
    ensures ChunkLen("\"" + b + "\"" + r) == |b| + 2 + ChunkLen(r)
  {
    hide ChunkLen, IdentTail;
    var s := "\"" + b + "\"" + r;
    assert s[1..] == b + "\"" + r;
    IdentTailIs(b, r);
    UnitThenRest(s, |b| + 2);
    assert s[|b| + 2..] == r;
  }

  lemma PastTagged(tag: string, inner: string, r: string)
    requires 0 < TagLen(tag) == |tag| && Index(inner + tag, tag) == |inner|
    ensures ChunkLen(tag + inner + tag + r) == 2 * |tag| + |inner| + ChunkLen(r)
  {
    hide ChunkLen, Index, TagLen;
    var s, t := tag + inner + tag + r, |tag|;
    assert s == tag + (inner + tag + r);
    TagLenPrefix(tag, inner + tag + r);
    assert s[..t] == tag && s[t..] == (inner + tag) + r;
    IndexAppend(inner + tag, r, tag);
    UnitThenRest(s, 2 * t + |inner|);
    assert s[2 * t + |inner|..] == r;
  }

  lemma {:induction false} PastOrdinary(t: string, r: string)
    requires forall c | c in t :: IsOrdinary(c)
    ensures ChunkLen(t + r) == |t| + ChunkLen(r)
  {
    hide ChunkLen, IsOrdinary;
    if t == [] {
      assert t + r == r;
    } else {
      assert t + r == [t[0]] + (t[1..] + r) && t[0] in t && forall c | c in t[1..] :: c in t;
      ChunkPastChar(t[0], t[1..] + r);
      PastOrdinary(t[1..], r);
    }
  }

  lemma PastRegion(reg: Region, r: string)
    requires IsRegion(reg)
    ensures ChunkLen(Written(reg) + r) == |Written(reg)| + ChunkLen(r)
  {
    hide ChunkLen, Inside, Fenced;
    match reg
    case Ordinary(t) => PastOrdinary(t, r);
    case Quoted(b) => Synthesizer.ChunkPastQuoted(b, r);
    case Name(b) => PastName(b, r);
    case Tagged(tag, inner) => PastTagged(tag, inner, r);
    case Line(t) => PastLine(t, r);
    case Block(n) => PastBlock(n, r);
  }

  // ---- Statements ----

  function Text(regs: seq<Region>): string {
    if regs == [] then [] else Written(regs[0]) + Text(regs[1..])
  }

  predicate AllRegions(regs: seq<Region>) {
    forall r | r in regs :: IsRegion(r)
  }

  lemma {:induction false} PastRegions(regs: seq<Region>, r: string)
    requires AllRegions(regs)
    ensures ChunkLen(Text(regs) + r) == |Text(regs)| + ChunkLen(r)
  {
    hide ChunkLen, IsRegion, Written;
    if regs == [] {
      assert Text(regs) + r == r;
    } else {
      assert Text(regs) + r == Written(regs[0]) + (Text(regs[1..]) + r) && regs[0] in regs;
      PastRegion(regs[0], Text(regs[1..]) + r);
      PastRegions(regs[1..], r);
    }
  }

  /** The statements with a semicolon between them. */
  function Joined(stmts: seq<seq<Region>>): string
    requires stmts != []
  {
    if |stmts| == 1 then Text(stmts[0]) else Text(stmts[0]) + (";" + Joined(stmts[1..]))
  }

  /** The statements, trimmed, without the empty ones. */
  function Trimmed(stmts: seq<seq<Region>>): seq<string> {
    if stmts == [] then []
    else (if Trim(Text(stmts[0])) == [] then [] else [Trim(Text(stmts[0]))]) + Trimmed(stmts[1..])
  }

  lemma ChunkIs(regs: seq<Region>, r: string)
    requires AllRegions(regs) && (r == [] || r[0] == ';')
    ensures ChunkLen(Text(regs) + r) == |Text(regs)|
  {
    hide ChunkLen, AllRegions;
    PastRegions(regs, r);
    ChunkAtEnd(r);
  }

  lemma StatementIs(chunk: string)
    ensures Statement(chunk) == if Trim(chunk) == [] then [] else [Trim(chunk)]
  {
    hide Trim;
  }

  /** A query of closed regions is split at the semicolons between its statements and nowhere else. */
  lemma {:induction false} SplitsIntoStatements(stmts: seq<seq<Region>>)
    requires stmts != [] && forall regs | regs in stmts :: AllRegions(regs)
    ensures Split(Joined(stmts)) == Trimmed(stmts)
  {
    hide ChunkLen, AllRegions, Trim, Statement, Split, Text;
    var t, q := Text(stmts[0]), Joined(stmts);
    assert stmts[0] in stmts;
    StatementIs(t);
    SplitStep(q);
    if |stmts| == 1 {
      ChunkIs(stmts[0], []);
      assert t + [] == t && t[..|t|] == t && Trimmed(stmts[1..]) == [];
    } else {
      var rest := ";" + Joined(stmts[1..]);
      ChunkIs(stmts[0], rest);
      assert q[..|t|] == t && q[|t| + 1..] == Joined(stmts[1..]);
      assert forall regs | regs in stmts[1..] :: regs in stmts;
      SplitsIntoStatements(stmts[1..]);
    }
  }
}
