/** What classification answers (internal/router/parser.go), read off the text: a query writes exactly if one of its
    statements does, a routing hint outranks everything, and which single statements write. */
module StatementKinds {
  import opened SqlText
  import opened Lexer
  import opened Options
  import opened Classifier
  import Regions

  // ---- Several statements ----

  /** At a semicolon outside every region a query falls into two. */
  lemma SplitsAtSemicolon(a: string, b: string)
    requires ChunkLen(a + ";" + b) == |a|
    ensures Split(a + ";" + b) == Split(a) + Split(b)
  {
    hide *;
    var q := a + ";" + b;
    SplitStep(q);
    assert q[..|a|] == a && q[|a| + 1..] == b && q == a + (";" + b);
    ChunkCut(a, ";" + b);
    SplitStep(a);
    assert a[..|a|] == a && Statement(a) + [] == Statement(a);
  }

  predicate NoHintIn(q: string) {
    ExtractHint(q) == None
  }

  lemma FullIs(q: string)
    requires NoHintIn(q)
    ensures ClassifyFull(q) == Write <==> exists stmt | stmt in Split(q) :: IsWriteStatement(stmt)
  {
    hide ExtractHint, IsWriteStatement, Split;
  }

  /** Two queries in one write if and only if either does. */
  lemma EitherWrites(a: string, b: string)
    requires ChunkLen(a + ";" + b) == |a| && NoHintIn(a) && NoHintIn(b) && NoHintIn(a + ";" + b)
    ensures ClassifyFull(a + ";" + b) == Write <==> ClassifyFull(a) == Write || ClassifyFull(b) == Write
  {
    hide *;
    SplitsAtSemicolon(a, b);
    FullIs(a);
    FullIs(b);
    FullIs(a + ";" + b);
  }

  lemma NoCommentNoHint(q: string)
    requires CommentFree(q)
    ensures NoHintIn(q)
  {
    hide CommentFree, StripLiterals;
    StripKeepsCommentFree(q);
    NoHint(StripLiterals(q));
  }

  lemma {:induction false} StatementCommentFree(q: string, stmt: string)
    requires CommentFree(q) && stmt in Split(q)
    ensures CommentFree(stmt)
    decreases |q|
  {
    hide *;
    SplitStep(q);
    var k := ChunkLen(q);
    if stmt in Statement(q[..k]) {
      OnlyStatement(q[..k], stmt);
      var a, b := TrimShape(q[..k]);
      assert q[..k][a..b] == q[a..b];
      CommentFreeSlice(q, a, b);
    } else {
      assert q[k + 1..|q|] == q[k + 1..];
      CommentFreeSlice(q, k + 1, |q|);
      StatementCommentFree(q[k + 1..], stmt);
    }
  }

  /** A query without comments writes if and only if one of its statements, sent alone, does. */
  lemma SomeStatementWrites(q: string)
    requires CommentFree(q)
    ensures ClassifyFull(q) == Write <==> exists stmt | stmt in Split(q) :: ClassifyFull(stmt) == Write
  {
    hide *;
    NoCommentNoHint(q);
    FullIs(q);
    forall stmt | stmt in Split(q) ensures ClassifyFull(stmt) == Write <==> IsWriteStatement(stmt) {
      StatementCommentFree(q, stmt);
      NoCommentNoHint(stmt);
      StatementStandsAlone(q, stmt);
      FullIs(stmt);
      assert forall x | x in [stmt] :: x == stmt;
    }
  }

  // ---- Hints ----

  predicate IsGap(s: string) {
    forall c | c in s :: IsRegexSpace(c)
  }

  /** A routing hint with any space around it. */
  function Hint(x: string, word: string, y: string): string {
    "/*" + (x + "route:" + word + y) + "*/"
  }

  predicate IsRoute(word: string) {
    word == "writer" || word == "reader"
  }

  /** No slash and no star. */
  predicate NoFence(t: string) {
    forall c | c in t :: c != '/' && c != '*'
  }

  lemma {:induction false} CommentEnds(t: string, r: string)
    requires NoFence(t)
    ensures BlockTail(t + "*/" + r, 1) == |t| + 2
  {
    var s := t + "*/" + r;
    if t == [] {
      assert s[2..] == r && s[0] == '*' && s[1] == '/';
      assert BlockTail(r, 0) == 0;
    } else {
      assert s[1..] == t[1..] + "*/" + r && t[0] in t && s[0] == t[0] && forall c | c in t[1..] :: c in t;
      CommentEnds(t[1..], r);
    }
  }

  lemma {:induction false} NoOpens(t: string)
    requires NoFence(t)
    ensures CountOpens(t + "*/") == 0
  {
    var s := t + "*/";
    if t == [] {
      assert s[1..] == "/" && s[0] == '*' && "/"[1..] == [];
      assert CountOpens("/") == 0;
    } else {
      assert s[1..] == t[1..] + "*/" && t[0] in t && s[0] == t[0] && forall c | c in t[1..] :: c in t;
      NoOpens(t[1..]);
    }
  }

  lemma {:induction false} SkipsGap(x: string, t: string)
    requires IsGap(x) && (t == [] || !IsRegexSpace(t[0]))
    ensures SkipRegexSpace(x + t) == t
  {
    if x == [] {
      assert x + t == t;
    } else {
      assert (x + t)[1..] == x[1..] + t && x[0] in x && forall c | c in x[1..] :: c in x;
      SkipsGap(x[1..], t);
    }
  }

  lemma GapIsNoFence(x: string, word: string, y: string)
    requires IsGap(x) && IsGap(y) && IsRoute(word)
    ensures NoFence(x + "route:" + word + y)
  {
    var t := x + "route:" + word + y;
    assert NoFence("route:") && NoFence("writer") && NoFence("reader") && NoFence(x) && NoFence(y);
  }

  lemma HintWordIs(word: string, y: string)
    requires IsGap(y) && IsRoute(word)
    ensures HintWord(word + (y + "*/"), word)
    ensures word == "reader" ==> !HintWord(word + (y + "*/"), "writer")
  {
    hide SkipRegexSpace;
    var s := word + (y + "*/");
    assert s[6..] == y + "*/" && s[..6] == word;
    SkipsGap(y, "*/");
    if word == "reader" { assert s[0] == 'r'; }
  }

  lemma HintAtIs(x: string, word: string, y: string)
    requires IsGap(x) && IsGap(y) && IsRoute(word)
    ensures HintAt(Hint(x, word, y)) == Some(word)
  {
    hide SkipRegexSpace, HintWord;
    var h := Hint(x, word, y);
    var t := "route:" + (word + (y + "*/"));
    assert h[2..] == x + t && h[0] == '/' && h[1] == '*';
    SkipsGap(x, t);
    assert t[..6] == "route:" && t[6..] == word + (y + "*/");
    HintWordIs(word, y);
  }

  /** The comment is looked at as a whole, and is not nested. */
  lemma HintFirst(x: string, word: string, y: string, rest: string)
    requires IsGap(x) && IsGap(y) && IsRoute(word)
    ensures HintIn(Hint(x, word, y) + rest) == Some(word)
  {
    hide BlockTail, CountOpens, Contains, HintAt;
    var h := Hint(x, word, y);
    var t := x + "route:" + word + y;
    GapIsNoFence(x, word, y);
    var s := h + rest;
    assert s[2..] == t + "*/" + rest && s[0] == '/' && s[1] == '*';
    CommentEnds(t, rest);
    assert s[..|h|] == h && BlockSpan(s) == |h|;
    OneOpen(h, t);
    HintAtIs(x, word, y);
  }

  lemma OneOpen(h: string, t: string)
    requires h == "/*" + t + "*/" && NoFence(t)
    ensures CountOpens(h) == 1
  {
    assert h[2..] == t + "*/" && h[0] == '/' && h[1] == '*';
    NoOpens(t);
  }

  /** A hint in a comment inside a comment is none. */
  lemma NestedHintIgnored(x: string, word: string, y: string, rest: string)
    requires IsGap(x) && IsGap(y) && IsRoute(word)
    ensures HintIn("/* " + Hint(x, word, y) + " */" + rest) == HintIn(rest)
  {
    hide BlockTail, CountOpens, Contains, FindHint, IsGap, IsRoute;
    var t := x + "route:" + word + y;
    var comment := "/* " + Hint(x, word, y) + " */";
    var s := comment + rest;
    GapIsNoFence(x, word, y);
    var n := Regions.Inner(" ", Regions.Flat(t), Regions.Flat(" "));
    assert s[2..] == Regions.Inside(n) + ("*/" + rest) && s[0] == '/' && s[1] == '*';
    SameFence(t);
    Regions.PastInside(n, rest, 1);
    Regions.NoTailLeft(rest);
    assert BlockSpan(s) == |comment| && s[..|comment|] == comment && s[|comment|..] == rest;
    assert comment[..3] == "/* ";
    TwoOpens(comment, t);
    FoundIn(comment, "/* ", 0);
  }

  lemma SameFence(t: string)
    requires NoFence(t)
    ensures Regions.Fenced(Regions.Inner(" ", Regions.Flat(t), Regions.Flat(" ")))
  {
  }

  lemma TwoOpens(comment: string, t: string)
    requires comment == "/* " + ("/*" + t + "*/") + " */"
    ensures CountOpens(comment) >= 2
  {
    var a := comment[2..];
    assert comment[0] == '/' && comment[1] == '*' && a[0] == ' ';
    var b := a[1..];
    assert b[0] == '/' && b[1] == '*';
    assert CountOpens(b) >= 1 && CountOpens(a) == CountOpens(b);
  }

  lemma {:induction false} HintPast(a: string, t: string)
    requires CommentFree(a) && t != [] && t[0] == '/'
    ensures HintIn(a + t) == HintIn(t)
  {
    var s := a + t;
    if a == [] {
      assert s == t;
    } else {
      assert s[1..] == a[1..] + t && s[0] == a[0];
      HintPast(a[1..], t);
    }
  }

  /** A stretch of text outside literals, or a quoted string, quoted name or dollar-quoted string. */
  datatype Stretch = Words(text: string) | Str(body: string) | Name(body: string) | Tagged(tag: string, inner: string)

  function Written(sp: Stretch): string {
    match sp
    case Words(t) => t
    case Str(b) => "'" + b + "'"
    case Name(b) => "\"" + b + "\""
    case Tagged(tag, inner) => tag + inner + tag
  }

  /** What is left of it when literals are emptied. */
  function Shell(sp: Stretch): string {
    match sp
    case Words(t) => t
    case Str(_) => "''"
    case Name(_) => "\"\""
    case Tagged(tag, _) => tag + tag
  }

  /** Words hold no quote and no dollar sign, strings and names not their own quote, and what follows a string does
      not continue it; a tag closes what it opens at its first occurrence. */
  predicate Stands(sp: Stretch, rest: string) {
    match sp
    case Words(t) => forall c | c in t :: !IsMark(c)
    case Str(b) => '\'' !in b && (rest == [] || rest[0] != '\'')
    case Name(b) => '"' !in b
    case Tagged(tag, inner) => 0 < TagLen(tag) == |tag| && Index(inner + tag, tag) == |inner|
  }

  function Text(sps: seq<Stretch>): string {
    if sps == [] then [] else Written(sps[0]) + Text(sps[1..])
  }

  predicate WellFormed(sps: seq<Stretch>) {
    sps == [] || (Stands(sps[0], Text(sps[1..])) && WellFormed(sps[1..]))
  }

  function Bare(sps: seq<Stretch>): string {
    if sps == [] then [] else Shell(sps[0]) + Bare(sps[1..])
  }

  lemma {:induction false} StripWords(t: string, r: string)
    requires forall c | c in t :: !IsMark(c)
    ensures StripLiterals(t + r) == t + StripLiterals(r)
  {
    hide StripLiterals, PieceLen, PieceOut;
    if t == [] {
      assert t + r == r;
    } else {
      var s := t + r;
      assert s[1..] == t[1..] + r && s[0] == t[0] && t[0] in t && forall c | c in t[1..] :: c in t;
      StripPiece(s);
      StripWords(t[1..], r);
    }
  }

  lemma {:induction false} PlainQuote(b: string, r: string)
    requires '\'' !in b && (r == [] || r[0] != '\'')
    ensures QuoteTail(b + "'" + r) == |b| + 1 && Only(b + "'", '\'') == "'"
  {
    var s := b + "'" + r;
    if b == [] {
      assert s[1..] == r && ("'")[1..] == [];
    } else {
      assert s[1..] == b[1..] + "'" + r && s[0] == b[0] && b[0] in b;
      assert (b + "'")[1..] == b[1..] + "'" && (b + "'")[0] == b[0];
      PlainQuote(b[1..], r);
    }
  }

  /** What a quoted string holds does not matter. */
  lemma StripString(b: string, r: string)
    requires '\'' !in b && (r == [] || r[0] != '\'')
    ensures StripLiterals("'" + b + "'" + r) == "''" + StripLiterals(r)
  {
    hide StripLiterals, Only, QuoteTail;
    var s := "'" + b + "'" + r;
    assert s[1..] == b + "'" + r && s[0] == '\'';
    PlainQuote(b, r);
    StripAtSingle(s);
    assert QuoteSpan(s) == |b| + 2 && s[|b| + 2..] == r && s[..|b| + 2] == "'" + (b + "'");
    OnlyStep('\'', b + "'", '\'');
    OnlyQuote();
  }

  lemma OnlyQuote()
    ensures Only("'", '\'') == "'"
  {
    assert "'"[1..] == [];
  }

  lemma {:induction false} PlainName(b: string, r: string)
    requires '"' !in b
    ensures IdentTail(b + "\"" + r) == |b| + 1 && Only(b + "\"", '"') == "\""
  {
    var s := b + "\"" + r;
    if b == [] {
      assert s[0] == '"' && ("\"")[1..] == [];
    } else {
      assert s[1..] == b[1..] + "\"" + r && s[0] == b[0] && b[0] in b;
      assert (b + "\"")[1..] == b[1..] + "\"" && (b + "\"")[0] == b[0];
      PlainName(b[1..], r);
    }
  }

  lemma StripName(b: string, r: string)
    requires '"' !in b
    ensures StripLiterals("\"" + b + "\"" + r) == "\"\"" + StripLiterals(r)
  {
    hide StripLiterals, Only, IdentTail;
    var s := "\"" + b + "\"" + r;
    assert s[1..] == b + "\"" + r && s[0] == '"';
    PlainName(b, r);
    StripAtDouble(s);
    assert s[|b| + 2..] == r && s[..|b| + 2] == "\"" + (b + "\"");
    OnlyStep('"', b + "\"", '"');
    OnlyName();
  }

  lemma OnlyName()
    ensures Only("\"", '"') == "\""
  {
    assert "\""[1..] == [];
  }

  lemma StripTagged(tag: string, inner: string, r: string)
    requires 0 < TagLen(tag) == |tag| && Index(inner + tag, tag) == |inner|
    ensures StripLiterals(tag + inner + tag + r) == tag + tag + StripLiterals(r)
  {
    hide StripLiterals, Index, TagLen;
    var s, t := tag + inner + tag + r, |tag|;
    assert s == tag + (inner + tag + r);
    TagLenPrefix(tag, inner + tag + r);
    assert s[..t] == tag && s[t..] == (inner + tag) + r;
    IndexAppend(inner + tag, r, tag);
    StripAtTag(s);
    assert s[2 * t + |inner|..] == r;
  }

  lemma StripAtTag(s: string)
    requires TagLen(s) > 0
    ensures StripLiterals(s) == s[..TagLen(s)] + s[..TagLen(s)] + StripLiterals(s[DollarSpan(s)..])
  {
    hide TagLen, DollarSpan;
  }

  lemma TextStep(sps: seq<Stretch>, r: string)
    requires sps != []
    ensures Text(sps) + r == Written(sps[0]) + (Text(sps[1..]) + r)
    ensures Bare(sps) == Shell(sps[0]) + Bare(sps[1..])
  {
  }

  lemma StripStretch(sp: Stretch, r: string)
    requires Stands(sp, r)
    ensures StripLiterals(Written(sp) + r) == Shell(sp) + StripLiterals(r)
  {
    hide StripLiterals;
    match sp
    case Words(t) => StripWords(t, r);
    case Str(b) => StripString(b, r);
    case Name(b) => StripName(b, r);
    case Tagged(tag, inner) => StripTagged(tag, inner, r);
  }

  /** Emptying literals leaves the rest of the text and nothing of what they hold. */
  lemma {:induction false} StripText(sps: seq<Stretch>, r: string)
    requires WellFormed(sps) && (r == [] || r[0] != '\'')
    ensures StripLiterals(Text(sps) + r) == Bare(sps) + StripLiterals(r)
  {
    if sps == [] {
      assert Text(sps) + r == r;
    } else {
      hide StripLiterals, Text, Bare, Stands, Shell, Written;
      var rest := Text(sps[1..]) + r;
      TextStep(sps, r);
      StandsBefore(sps[0], Text(sps[1..]), r);
      StripStretch(sps[0], rest);
      StripText(sps[1..], r);
      Associative(Shell(sps[0]), Bare(sps[1..]), StripLiterals(r));
    }
  }

  lemma StandsBefore(sp: Stretch, t: string, r: string)
    requires Stands(sp, t) && (r == [] || r[0] != '\'')
    ensures Stands(sp, t + r)
  {
    assert t == [] ==> t + r == r;
  }

  lemma HintStays(x: string, word: string, y: string, rest: string)
    requires IsGap(x) && IsGap(y) && IsRoute(word)
    ensures StripLiterals(Hint(x, word, y) + rest) == Hint(x, word, y) + StripLiterals(rest)
  {
    hide StripLiterals;
    HintUnmarked(x, word, y);
    StripWords(Hint(x, word, y), rest);
  }

  lemma HintUnmarked(x: string, word: string, y: string)
    requires IsGap(x) && IsGap(y) && IsRoute(word)
    ensures forall c | c in Hint(x, word, y) :: !IsMark(c)
  {
    assert forall c | c in "/*" + "route:" + "writer" + "reader" + "*/" :: !IsMark(c);
    assert forall c | c in x + y :: !IsMark(c);
  }

  /** A routing hint behind any text whose literals are closed decides the answer, whatever it stands before. */
  lemma HintDecides(sps: seq<Stretch>, x: string, word: string, y: string, rest: string)
    requires WellFormed(sps) && CommentFree(Bare(sps)) && IsGap(x) && IsGap(y) && IsRoute(word)
    ensures Classify(Text(sps) + (Hint(x, word, y) + rest)) == if word == "writer" then Write else Read
  {
    hide *;
    var h := Hint(x, word, y);
    var q := Text(sps) + (h + rest);
    HintStarts(x, word, y);
    assert (h + rest)[0] == h[0];
    StripText(sps, h + rest);
    HintStays(x, word, y, rest);
    HintPast(Bare(sps), h + StripLiterals(rest));
    HintFirst(x, word, y, StripLiterals(rest));
    HintAnswers(q, word);
    NotFast(Text(sps), h, rest);
  }

  lemma HintStarts(x: string, word: string, y: string)
    ensures var h := Hint(x, word, y); |h| >= 2 && h[0] == '/' && h[1] == '*'
  {
  }

  lemma HintAnswers(q: string, word: string)
    requires HintIn(StripLiterals(q)) == Some(word)
    ensures ClassifyFull(q) == if word == "writer" then Write else Read
  {
    hide HintIn, StripLiterals;
  }

  lemma NotFast(a: string, h: string, rest: string)
    requires |h| >= 2 && h[0] == '/' && h[1] == '*'
    ensures Classify(a + (h + rest)) == ClassifyFull(a + (h + rest))
  {
    hide ClassifyFull, IsSingle, FastWord, HasSuspectPattern, Contains, SpaceRun;
    var q := a + (h + rest);
    assert q[|a|..|a| + 2] == "/*";
    FoundIn(q, "/*", |a|);
    assert !IsSpace(q[|a|]);
  }

  // ---- A single statement ----

  predicate OccursAt(u: string, p: string, i: nat) {
    i + |p| <= |u| && u[i..i + |p|] == p
  }

  predicate Occurs(u: string, p: string) {
    exists i: nat | i <= |u| :: OccursAt(u, p, i)
  }

  predicate FirstAt(u: string, p: string, i: nat) {
    OccursAt(u, p, i) && forall j: nat | j < i :: !OccursAt(u, p, j)
  }

  /** Between the start, a space, a parenthesis or a newline and the same or the end. */
  predicate WholeWord(u: string, w: string, i: nat) {
    && OccursAt(u, w, i) && (i == 0 || u[i - 1] in " (\n")
    && (i + |w| == |u| || u[i + |w|] in " (\n")
  }

  predicate WholeClause(u: string, p: string, i: nat) {
    && FirstAt(u, p, i) && (i == 0 || u[i - 1] in " \n\t)")
    && (i + |p| == |u| || u[i + |p|] in " \n\t;")
  }

  /** What the first keyword and the rest of the statement, in capitals, say about writing. */
  predicate SaysWrite(u: string, kw: string) {
    || kw in WRITE_KEYWORDS
    || (kw == "WITH" && exists w | w in WRITE_KEYWORDS :: exists i: nat | i <= |u| :: WholeWord(u, w, i))
    || (kw == "SELECT" && exists p | p in SIDE_EFFECT_FUNCS :: Occurs(u, p))
    || (kw == "SELECT" && exists p | p in LOCKING_CLAUSES :: exists i: nat | i <= |u| :: WholeClause(u, p, i))
    || (kw == "EXPLAIN" && Occurs(u, "ANALYZE")
        && exists w | w in WRITE_KEYWORDS && w != "COPY" && w != "COMMENT" :: Occurs(u, w))
  }

  lemma {:induction false} IndexIsFirst(u: string, p: string)
    ensures Index(u, p) >= 0 ==> FirstAt(u, p, Index(u, p))
    ensures Index(u, p) < 0 ==> forall i: nat :: !OccursAt(u, p, i)
  {
    forall i: nat | OccursAt(u, p, i) ensures 0 <= Index(u, p) <= i { IndexFinds(u, p, i); }
  }

  lemma ContainsOccurs(u: string, p: string)
    ensures Contains(u, p) <==> Occurs(u, p)
  {
    hide Index;
    IndexIsFirst(u, p);
  }

  lemma ClauseIs(u: string, p: string)
    ensures HasClause(u, p) <==> exists i: nat | i <= |u| :: WholeClause(u, p, i)
  {
    hide Index;
    IndexIsFirst(u, p);
    var k := Index(u, p);
    if k >= 0 {
      assert forall i: nat | FirstAt(u, p, i) :: i == k;
      assert HasClause(u, p) <==> WholeClause(u, p, k);
    }
  }

  lemma WordIs(u: string, w: string, i: nat)
    ensures Classifier.WordAt(u, i, w) <==> WholeWord(u, w, i)
  {
  }

  lemma StripNothing(stmt: string)
    requires CommentFree(stmt) && forall c | c in stmt :: !IsMark(c)
    ensures Stripped(stmt) == Upper(stmt)
  {
    hide StripLiterals, StripComments, CommentFree;
    StripWords(stmt, []);
    assert stmt + [] == stmt && StripLiterals([]) == [] by { EmptyStrip(); }
    StripNoComments(stmt);
  }

  lemma EmptyStrip()
    ensures StripLiterals([]) == []
  {
  }

  lemma SelectIs(stmt: string, u: string)
    requires Stripped(stmt) == u
    ensures IsSideEffectfulSelect(stmt) <==>
            || (exists p | p in SIDE_EFFECT_FUNCS :: Occurs(u, p))
            || (exists p | p in LOCKING_CLAUSES :: exists i: nat | i <= |u| :: WholeClause(u, p, i))
  {
    hide Stripped, HasClause, Contains, Occurs, WholeClause;
    forall p | p in SIDE_EFFECT_FUNCS ensures Contains(u, p) <==> Occurs(u, p) { ContainsOccurs(u, p); }
    forall p | p in LOCKING_CLAUSES
      ensures HasClause(u, p) <==> exists i: nat | i <= |u| :: WholeClause(u, p, i)
    {
      ClauseIs(u, p);
    }
  }

  lemma WithIs(stmt: string, u: string)
    requires Stripped(stmt) == u
    ensures ContainsWriteKeyword(stmt) <==>
            exists w | w in WRITE_KEYWORDS :: exists i: nat | i <= |u| :: WholeWord(u, w, i)
  {
    hide Stripped, Classifier.WordAt, WholeWord;
    forall w, i: nat | w in WRITE_KEYWORDS ensures Classifier.WordAt(u, i, w) <==> WholeWord(u, w, i) {
      WordIs(u, w, i);
    }
  }

  lemma ExplainIs(stmt: string, u: string)
    requires Stripped(stmt) == u
    ensures IsExplainAnalyzeWrite(stmt) <==>
            && Occurs(u, "ANALYZE")
            && exists w | w in WRITE_KEYWORDS && w != "COPY" && w != "COMMENT" :: Occurs(u, w)
  {
    hide Stripped, Contains, Occurs;
    ContainsOccurs(u, "ANALYZE");
    forall w | w in WRITE_KEYWORDS ensures Contains(u, w) <==> Occurs(u, w) { ContainsOccurs(u, w); }
  }

  /** One statement without comments and literals, trimmed, whose first field has n characters. */
  predicate IsPlain(stmt: string, n: nat) {
    && NoComment(stmt) && (forall c | c in stmt :: !IsMark(c)) && 1 <= n <= |stmt| && !IsBlank(stmt[|stmt| - 1])
    && (forall i | 0 <= i < n :: !IsBlank(stmt[i])) && (n < |stmt| ==> IsBlank(stmt[n]))
  }

  /** Which plain statements write. */
  lemma PlainKind(stmt: string, n: nat)
    requires IsPlain(stmt, n)
    ensures ClassifyFull(stmt) == Write <==> SaysWrite(Upper(stmt), Upper(stmt[..n]))
  {
    hide NoComment, Stripped, FirstKeyword, Split, Trim, CommentFree, Upper, IsSideEffectfulSelect,
         ContainsWriteKeyword, IsExplainAnalyzeWrite, ClassifyFull, Occurs, WholeWord, WholeClause;
    var u := Upper(stmt);
    NoCommentIsFree(stmt);
    StripNothing(stmt);
    KeywordIs(stmt, n);
    TrimTrimmed(stmt);
    NoSemicolonIn(stmt);
    SplitTrimmed(stmt);
    FullOfSingle(stmt, stmt);
    SelectIs(stmt, u);
    WithIs(stmt, u);
    ExplainIs(stmt, u);
  }
}
