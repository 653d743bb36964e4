/** Read/write classification of query text (internal/router/parser.go): the full path, the fast path
    that usually answers first, and when the two agree. */
module Classifier {
  import opened SqlText
  import opened Lexer
  import opened Options

  datatype QueryType = Read | Write

  const WRITE_KEYWORDS: set<string> := {
    "INSERT", "UPDATE", "DELETE", "CREATE", "ALTER", "DROP", "TRUNCATE", "GRANT", "REVOKE", "MERGE", "COPY",
    "CALL", "COMMENT"
  }

  predicate IsWriteKeyword(kw: string) {
    kw in WRITE_KEYWORDS
  }

  /** The keywords either path treats specially. */
  predicate IsKeyword(kw: string) {
    IsWriteKeyword(kw) || kw == "WITH" || kw == "SELECT" || kw == "EXPLAIN"
  }

  const SIDE_EFFECT_FUNCS: seq<string> := [
    "NEXTVAL(", "SETVAL(", "CURRVAL(", "SET_CONFIG(", "PG_ADVISORY_LOCK(", "PG_ADVISORY_XACT_LOCK(",
    "PG_ADVISORY_UNLOCK(", "PG_ADVISORY_UNLOCK_ALL(", "PG_TRY_ADVISORY_LOCK(", "PG_TRY_ADVISORY_XACT_LOCK(",
    "LO_CREATE(", "LO_UNLINK(", "PG_NOTIFY(", "TXID_CURRENT("
  ]

  const LOCKING_CLAUSES: seq<string> := ["FOR UPDATE", "FOR NO KEY UPDATE", "FOR SHARE", "FOR KEY SHARE"]

  // ---- Stripping ----

  /** stripComments: comments go, the newline after a line comment stays. */
  function StripComments(s: string): string
    decreases |s|
  {
    if s == [] then []
    else if AtBlockComment(s) then StripComments(s[BlockSpan(s)..])
    else if AtLineComment(s) then StripComments(s[LineLen(s)..])
    else [s[0]] + StripComments(s[1..])
  }

  /** The occurrences of c in s. */
  function Only(s: string, c: char): (r: string)
    ensures forall x | x in r :: x == c
  {
    if s == [] then [] else (if s[0] == c then [c] else []) + Only(s[1..], c)
  }

  /** stripStringLiterals: quoted and dollar-quoted text goes, the marks around it stay. */
  function StripLiterals(s: string): string
    decreases |s|
  {
    if s == [] then []
    else if TagLen(s) > 0 then s[..TagLen(s)] + s[..TagLen(s)] + StripLiterals(s[DollarSpan(s)..])
    else if s[0] == '\'' then Only(s[..QuoteSpan(s)], '\'') + StripLiterals(s[QuoteSpan(s)..])
    else if s[0] == '"' then Only(s[..1 + IdentTail(s[1..])], '"') + StripLiterals(s[1 + IdentTail(s[1..])..])
    else [s[0]] + StripLiterals(s[1..])
  }

  // ---- Routing hints ----

  /** The characters the regular expression's \s matches. */
  predicate IsRegexSpace(c: char) {
    c == ' ' || c == '\t' || c == '\n' || c == '\r' || c == FF
  }

  function SkipRegexSpace(s: string): string {
    if s != [] && IsRegexSpace(s[0]) then SkipRegexSpace(s[1..]) else s
  }

  function HintWord(s: string, word: string): bool {
    word <= s && "*/" <= SkipRegexSpace(s[|word|..])
  }

  /** A match of the hint pattern starting at the first character of s. */
  function HintAt(s: string): Option<string> {
    if !AtBlockComment(s) then None else
      var t := SkipRegexSpace(s[2..]);
      if !("route:" <= t) then None
      else if HintWord(t[6..], "writer") then Some("writer")
      else if HintWord(t[6..], "reader") then Some("reader")
      else None
  }

  function FindHint(s: string): Option<string> {
    if s == [] then None else if HintAt(s).Some? then HintAt(s) else FindHint(s[1..])
  }

  /** Non-overlapping occurrences, as strings.Count counts them. */
  function CountOpens(s: string): nat
    decreases |s|
  {
    if s == [] then 0 else if AtBlockComment(s) then 1 + CountOpens(s[2..]) else CountOpens(s[1..])
  }

  /** The loop of extractHint over the sanitized text. */
  function HintIn(s: string): Option<string>
    decreases |s|
  {
    if s == [] then None
    else if AtBlockComment(s) then
      var n := BlockSpan(s);
      var comment := s[..n];
      if (!Contains(comment, "/* ") || CountOpens(comment) == 1) && FindHint(comment).Some?
      then FindHint(comment)
      else HintIn(s[n..])
    else HintIn(s[1..])
  }

  function ExtractHint(query: string): Option<string> {
    HintIn(StripLiterals(query))
  }

  // ---- The full path ----

  /** The characters before the first blank. */
  function FirstField(s: string): (r: string)
    ensures r <= s && (forall c | c in r :: !IsBlank(c)) && (|r| < |s| ==> IsBlank(s[|r|]))
  {
    if s == [] || IsBlank(s[0]) then [] else [s[0]] + FirstField(s[1..])
  }

  function FirstKeyword(stmt: string): string {
    Upper(FirstField(Trim(StripComments(stmt))))
  }

  function Stripped(stmt: string): string {
    Upper(StripComments(StripLiterals(stmt)))
  }

  predicate WordAt(s: string, i: nat, kw: string) {
    && i + |kw| <= |s| && s[i..i + |kw|] == kw
    && (i == 0 || s[i - 1] == ' ' || s[i - 1] == '(' || s[i - 1] == '\n')
    && (i + |kw| == |s| || s[i + |kw|] == ' ' || s[i + |kw|] == '\n' || s[i + |kw|] == '(')
  }

  predicate ContainsWriteKeyword(stmt: string) {
    exists kw | kw in WRITE_KEYWORDS :: exists i | 0 <= i <= |Stripped(stmt)| :: WordAt(Stripped(stmt), i, kw)
  }

  /** The first occurrence of a locking clause, if it stands between word boundaries. */
  predicate HasClause(upper: string, clause: string) {
    var i := Index(upper, clause);
    && i >= 0
    && (i == 0 || upper[i - 1] == ' ' || upper[i - 1] == '\n' || upper[i - 1] == '\t' || upper[i - 1] == ')')
    && var end := i + |clause|;
       end >= |upper| || upper[end] == ' ' || upper[end] == '\n' || upper[end] == '\t' || upper[end] == ';'
  }

  predicate HasSideEffectFunc(upper: string) {
    exists fn | fn in SIDE_EFFECT_FUNCS :: Contains(upper, fn)
  }

  predicate IsSideEffectfulSelect(stmt: string) {
    || (exists clause | clause in LOCKING_CLAUSES :: HasClause(Stripped(stmt), clause))
    || HasSideEffectFunc(Stripped(stmt))
  }

  predicate IsExplainAnalyzeWrite(stmt: string) {
    && Contains(Stripped(stmt), "ANALYZE")
    && exists kw | kw in WRITE_KEYWORDS :: kw != "COPY" && kw != "COMMENT" && Contains(Stripped(stmt), kw)
  }

  predicate IsWriteStatement(stmt: string) {
    var kw := FirstKeyword(stmt);
    || IsWriteKeyword(kw)
    || (kw == "WITH" && ContainsWriteKeyword(stmt))
    || (kw == "SELECT" && IsSideEffectfulSelect(stmt))
    || (kw == "EXPLAIN" && IsExplainAnalyzeWrite(stmt))
  }

  /** Classify without its fast path. */
  function ClassifyFull(query: string): QueryType {
    match ExtractHint(query)
    case Some(hint) => if hint == "writer" then Write else Read
    case None => if exists stmt | stmt in Split(query) :: IsWriteStatement(stmt) then Write else Read
  }

  // ---- The fast path ----

  function SpaceRun(s: string): (n: nat)
    ensures n <= |s|
    ensures forall i | 0 <= i < n :: IsSpace(s[i])
    ensures n < |s| ==> !IsSpace(s[n])
  {
    if s != [] && IsSpace(s[0]) then 1 + SpaceRun(s[1..]) else 0
  }

  predicate EndsFastWord(c: char) {
    c == ' ' || c == '\t' || c == '\n' || c == '('
  }

  /** The characters before the first space, tab, newline or parenthesis. */
  function FastWord(s: string): (r: string)
    ensures r <= s && (forall c | c in r :: !EndsFastWord(c)) && (|r| < |s| ==> EndsFastWord(s[|r|]))
  {
    if s == [] || EndsFastWord(s[0]) then [] else [s[0]] + FastWord(s[1..])
  }

  /** At most one semicolon, with only blanks after it (isSingleStatement). */
  predicate IsSingle(query: string) {
    var idx := Index(query, ";");
    idx < 0 || AllBlank(query[idx + 1..])
  }

  predicate HasSuspectPattern(upper: string) {
    (exists clause | clause in LOCKING_CLAUSES :: Contains(upper, clause)) || HasSideEffectFunc(upper)
  }

  function ClassifyFast(query: string): Option<QueryType> {
    var i := SpaceRun(query);
    if i == |query| then Some(Read)
    else if Contains(query, "/*") || Contains(query, "--") then None
    else if !IsSingle(query) then None
    else
      var kw := Upper(FastWord(query[i..]));
      if kw == [] then Some(Read)
      else if IsWriteKeyword(kw) then Some(Write)
      else if kw == "WITH" || kw == "EXPLAIN" then None
      else if kw == "SELECT" && HasSuspectPattern(Upper(query)) then None
      else Some(Read)
  }

  function Classify(query: string): QueryType {
    match ClassifyFast(query)
    case Some(t) => t
    case None => ClassifyFull(query)
  }

  // ---- A query without comments ----

  predicate CommentFree(s: string) {
    s == [] || (!AtBlockComment(s) && !AtLineComment(s) && CommentFree(s[1..]))
  }

  lemma {:induction false} CommentFreeIff(s: string)
    ensures CommentFree(s) <==> !Contains(s, "/*") && !Contains(s, "--")
  {
    if s != [] {
      CommentFreeIff(s[1..]);
      assert "/*" <= s <==> AtBlockComment(s);
      assert "--" <= s <==> AtLineComment(s);
    }
  }

  lemma SliceShift(s: string, i: nat, j: nat)
    requires i < j <= |s|
    ensures i > 0 ==> s[1..][i - 1..j - 1] == s[i..j]
    ensures i == 0 ==> s[i..j][1..] == s[1..][0..j - 1]
  {
  }

  lemma {:induction false} CommentFreeSlice(s: string, i: nat, j: nat)
    requires CommentFree(s) && i <= j <= |s|
    ensures CommentFree(s[i..j])
    decreases |s|
  {
    if i < j {
      SliceShift(s, i, j);
      if i == 0 {
        CommentFreeSlice(s[1..], 0, j - 1);
      } else {
        CommentFreeSlice(s[1..], i - 1, j - 1);
      }
    }
  }

  lemma {:induction false} StripNoComments(s: string)
    requires CommentFree(s)
    ensures StripComments(s) == s
  {
    if s != [] { StripNoComments(s[1..]); }
  }

  lemma {:induction false} NoHint(s: string)
    requires CommentFree(s)
    ensures HintIn(s) == None
  {
    if s != [] { NoHint(s[1..]); }
  }

  // ---- Stripping literals creates nothing ----

  predicate IsMark(c: char) {
    c == '$' || c == '\'' || c == '"'
  }

  /** The text written for a stripped region: marks and tag characters, ending in a mark. */
  predicate MarksOnly(t: string) {
    (forall c | c in t :: IsMark(c) || IsTagChar(c)) && (t == [] || IsMark(t[|t| - 1]))
  }

  /** The next piece of s and what StripLiterals writes for it. */
  function PieceLen(s: string): (n: nat)
    requires s != []
    ensures 1 <= n <= |s|
  {
    if TagLen(s) > 0 then DollarSpan(s)
    else if s[0] == '\'' then QuoteSpan(s)
    else if s[0] == '"' then 1 + IdentTail(s[1..])
    else 1
  }

  function PieceOut(s: string): (t: string)
    requires s != []
    ensures t != [] && t[0] == s[0]
  {
    if TagLen(s) > 0 then s[..TagLen(s)] + s[..TagLen(s)]
    else if s[0] == '\'' then Only(s[..QuoteSpan(s)], '\'')
    else if s[0] == '"' then Only(s[..1 + IdentTail(s[1..])], '"')
    else [s[0]]
  }

  lemma TagMarks(s: string)
    requires TagLen(s) > 0
    ensures forall c | c in s[..TagLen(s)] :: IsMark(c) || IsTagChar(c)
  {
    var t := TagLen(s);
    forall i | 0 <= i < t ensures IsMark(s[i]) || IsTagChar(s[i]) {
      if 0 < i < t - 1 { assert s[i] == s[1..][i - 1]; }
    }
  }

  lemma StripPiece(s: string)
    requires s != []
    ensures StripLiterals(s) == PieceOut(s) + StripLiterals(s[PieceLen(s)..])
    ensures !IsMark(s[0]) ==> PieceOut(s) == [s[0]] && PieceLen(s) == 1
  {
  }

  lemma MarkedPiece(s: string)
    requires s != [] && IsMark(s[0])
    ensures MarksOnly(PieceOut(s))
  {
    hide TagRun;
    if TagLen(s) > 0 {
      TagMarks(s);
      var t := s[..TagLen(s)];
      assert forall c | c in t + t :: c in t;
    } else {
      assert PieceOut(s)[|PieceOut(s)| - 1] in PieceOut(s);
    }
  }

  lemma {:induction false} CommentFreeAfterMarks(t: string, r: string)
    requires (forall c | c in t :: IsMark(c) || IsTagChar(c)) && CommentFree(r)
    ensures CommentFree(t + r)
  {
    if t == [] {
      assert t + r == r;
    } else {
      assert t[0] in t && (t + r)[1..] == t[1..] + r;
      CommentFreeAfterMarks(t[1..], r);
    }
  }

  lemma {:induction false} StripKeepsCommentFree(s: string)
    requires CommentFree(s)
    ensures CommentFree(StripLiterals(s))
    ensures s != [] ==> StripLiterals(s) != [] && StripLiterals(s)[0] == s[0]
    decreases |s|
  {
    if s != [] {
      var n := PieceLen(s);
      CommentFreeSlice(s, n, |s|);
      assert s[n..|s|] == s[n..];
      StripKeepsCommentFree(s[n..]);
      StripPiece(s);
      var r := StripLiterals(s[n..]);
      if IsMark(s[0]) {
        MarkedPiece(s);
        CommentFreeAfterMarks(PieceOut(s), r);
      } else {
        assert ([s[0]] + r)[1..] == r;
      }
    }
  }

  /** A pattern no mark occurs in, with at least one character no tag can hold. */
  predicate IsPattern(p: string) {
    p != [] && (forall c | c in p :: !IsMark(c)) && exists i | 0 <= i < |p| :: !IsTagChar(p[i])
  }

  lemma UpperChars(c: char)
    ensures IsTagChar(c) ==> IsTagChar(UpperChar(c))
    ensures IsMark(c) <==> IsMark(UpperChar(c))
  {
  }

  lemma PatternNotAtMarks(t: string, r: string, p: string)
    requires MarksOnly(t) && t != [] && IsPattern(p)
    ensures !(p <= Upper(t + r))
  {
    if p <= Upper(t + r) {
      var h :| 0 <= h < |p| && !IsTagChar(p[h]);
      var k := if h < |t| then h else |t| - 1;
      assert t[k] in t && p[k] in p;
      UpperChars(t[k]);
      assert false;
    }
  }

  lemma {:induction false} PatternPastMarks(t: string, r: string, p: string)
    requires MarksOnly(t) && IsPattern(p) && Contains(Upper(t + r), p)
    ensures Contains(Upper(r), p)
  {
    hide Contains, IsPattern;
    var s := t + r;
    if t == [] {
      assert s == r;
    } else {
      PatternNotAtMarks(t, r, p);
      ContainsTail(Upper(s), p);
      assert Upper(s)[1..] == Upper(s[1..]) && s[1..] == t[1..] + r;
      if |t| > 1 { assert t[1..][|t| - 2] == t[|t| - 1]; }
      PatternPastMarks(t[1..], r, p);
    }
  }

  lemma {:induction false} PatternAtHead(s: string, p: string)
    requires (forall c | c in p :: !IsMark(c)) && p <= Upper(StripLiterals(s))
    ensures p <= Upper(s)
    decreases |p|
  {
    hide StripLiterals, PieceLen, PieceOut;
    if p != [] {
      StripNonempty(s);
      StripPiece(s);
      assert p[0] in p;
      UpperChars(s[0]);
      assert p[0] == Upper(StripLiterals(s))[0] == UpperChar(s[0]);
      var r := StripLiterals(s[1..]);
      assert Upper([s[0]] + r)[1..] == Upper(r);
      PatternAtHead(s[1..], p[1..]);
      assert p == [p[0]] + p[1..];
    }
  }

  /** What a pattern search finds in the stripped text was there before stripping. */
  lemma {:induction false} StripCreatesNoPattern(s: string, p: string)
    requires IsPattern(p) && Contains(Upper(StripLiterals(s)), p)
    ensures Contains(Upper(s), p)
    decreases |s|
  {
    hide Contains, StripLiterals, PieceLen, PieceOut, MarksOnly;
    var u := Upper(StripLiterals(s));
    if p <= u {
      PatternAtHead(s, p);
      ContainsHead(Upper(s), p);
    } else {
      ContainsTail(u, p);
      StripNonempty(s);
      StripPiece(s);
      var n, r := PieceLen(s), StripLiterals(s[PieceLen(s)..]);
      if IsMark(s[0]) {
        MarkedPiece(s);
        PatternPastMarks(PieceOut(s), r, p);
      } else {
        assert u[1..] == Upper(r);
      }
      StripCreatesNoPattern(s[n..], p);
      assert Upper(s)[n..|s|] == Upper(s[n..]);
      ContainsInSlice(Upper(s), n, |s|, p);
    }
  }

  lemma StripNonempty(s: string)
    requires StripLiterals(s) != []
    ensures s != []
  {
  }

  // ---- The only statement ----

  lemma SplitBlank(w: string)
    requires AllBlank(w)
    ensures Split(w) == []
  {
    hide ChunkLen, TrimLeft, TrimRight;
    ChunkPastBlanks(w, []);
    ChunkAtEnd([]);
    assert w + [] == w && w[..|w|] == w;
    TrimLeftPrepend(w, []);
    assert TrimRight([]) <= [];
  }

  /** With one semicolon at most, and only blanks after it, there is at most one statement. */
  lemma SingleSplit(q: string)
    requires IsSingle(q)
    ensures Split(q) == Statement(q[..ChunkLen(q)])
  {
    hide ChunkLen, Statement;
    var k := ChunkLen(q);
    if k < |q| {
      assert q[k..k + 1] == ";";
      IndexFinds(q, ";", k);
      var idx := Index(q, ";");
      assert q[idx..idx + 1][0] == ';';
      assert idx < k ==> q[k] in q[idx + 1..];
      SplitBlank(q[k + 1..]);
    }
  }

  lemma LeadChunk(q: string, i: nat, n: nat)
    requires i + n <= |q| && AllBlank(q[..i])
    requires forall j | i <= j < i + n :: q[j] != ';'
    ensures i + n <= ChunkLen(q) == i + ChunkLen(q[i..])
  {
    hide ChunkLen;
    assert q == q[..i] + q[i..];
    ChunkPastBlanks(q[..i], q[i..]);
  }

  lemma TrimChunk(q: string, i: nat, n: nat, k: nat) returns (b: nat)
    requires 1 <= n && i + n <= k <= |q| && AllBlank(q[..i]) && !IsBlank(q[i]) && !IsBlank(q[i + n - 1])
    ensures i + n <= b <= k && Trim(q[..k]) == q[i..b] && !IsBlank(q[b - 1])
  {
    hide *;
    var s := q[i..k];
    PrefixCut(q, i, k);
    assert s[0] == q[i] && s[n - 1] == q[i + n - 1];
    TrimLeftPrepend(q[..i], s);
    TrimRightKeeps(s, n);
    b := i + |TrimRight(s)|;
    PrefixOfSlice(q, i, k, TrimRight(s));
  }

  lemma PrefixCut(q: string, i: nat, k: nat)
    requires i <= k <= |q|
    ensures q[..k] == q[..i] + q[i..k]
  {
  }

  lemma PrefixOfSlice(q: string, i: nat, k: nat, r: string)
    requires i <= k <= |q| && r <= q[i..k] && r != []
    ensures r == q[i..i + |r|] && r[|r| - 1] == q[i + |r| - 1]
  {
    assert forall j | 0 <= j < |r| :: r[j] == q[i..k][j] == q[i + j];
  }

  /** The statement of a single-statement query starts at its first non-space character and keeps
      at least any run of characters there that holds no blank and no semicolon. */
  lemma LeadStatement(q: string, n: nat) returns (b: nat)
    requires IsSingle(q) && 1 <= n && SpaceRun(q) + n <= |q|
    requires forall j | SpaceRun(q) <= j < SpaceRun(q) + n :: !IsBlank(q[j]) && q[j] != ';'
    ensures SpaceRun(q) + n <= b <= |q| && Split(q) == [q[SpaceRun(q)..b]] && !IsBlank(q[b - 1])
    ensures ChunkLen(q[SpaceRun(q)..]) == n ==> b == SpaceRun(q) + n
  {
    hide ChunkLen, Trim, IsSingle, SpaceRun, Split;
    var i := SpaceRun(q);
    SingleSplit(q);
    LeadChunk(q, i, n);
    b := TrimChunk(q, i, n, ChunkLen(q));
  }

  lemma {:induction false} FirstFieldIs(s: string, n: nat)
    requires n <= |s| && (forall i | 0 <= i < n :: !IsBlank(s[i])) && (n < |s| ==> IsBlank(s[n]))
    ensures FirstField(s) == s[..n]
  {
    if n > 0 {
      assert forall i | 0 <= i < n - 1 :: s[1..][i] == s[i + 1];
      FirstFieldIs(s[1..], n - 1);
      assert s[..n] == [s[0]] + s[1..][..n - 1];
    }
  }

  /** A comment-free trimmed statement is led by its first field. */
  lemma KeywordIs(stmt: string, n: nat)
    requires CommentFree(stmt) && stmt != [] && !IsBlank(stmt[0]) && !IsBlank(stmt[|stmt| - 1])
    requires n <= |stmt| && (forall i | 0 <= i < n :: !IsBlank(stmt[i])) && (n < |stmt| ==> IsBlank(stmt[n]))
    ensures FirstKeyword(stmt) == Upper(stmt[..n])
  {
    hide CommentFree, StripComments, Trim, FirstField;
    StripNoComments(stmt);
    TrimTrimmed(stmt);
    FirstFieldIs(stmt, n);
  }

  lemma SliceBlanks(q: string, i: nat, b: nat, n: nat)
    requires 1 <= n && i + n <= b <= |q| && forall j | i <= j < i + n :: !IsBlank(q[j])
    ensures var s := q[i..b];
            && (forall j | 0 <= j < n :: !IsBlank(s[j])) && s[|s| - 1] == q[b - 1] && (i + n < b ==> s[n] == q[i + n])
  {
    hide IsBlank;
    var s := q[i..b];
    forall j | 0 <= j < n ensures !IsBlank(s[j]) { assert s[j] == q[i + j]; }
  }

  /** The same for a statement that is a slice of the query. */
  lemma SliceKeyword(q: string, i: nat, b: nat, n: nat)
    requires CommentFree(q) && 1 <= n && i + n <= b <= |q| && !IsBlank(q[b - 1])
    requires forall j | i <= j < i + n :: !IsBlank(q[j])
    requires i + n < b ==> IsBlank(q[i + n])
    ensures FirstKeyword(q[i..b]) == Upper(q[i..][..n])
  {
    hide *;
    var stmt := q[i..b];
    CommentFreeSlice(q, i, b);
    SliceBlanks(q, i, b, n);
    SliceHead(q, i, b, n);
    KeywordIs(stmt, n);
  }

  lemma FullOfSingle(q: string, stmt: string)
    requires CommentFree(q) && Split(q) == [stmt]
    ensures ClassifyFull(q) == if IsWriteStatement(stmt) then Write else Read
  {
    hide CommentFree, IsWriteStatement, Split;
    StripKeepsCommentFree(q);
    NoHint(StripLiterals(q));
    assert stmt in Split(q);
  }

  lemma ClausesAreFree()
    ensures forall p | p in LOCKING_CLAUSES :: IsPattern(p)
  {
    forall p | p in LOCKING_CLAUSES ensures IsPattern(p) {
      assert !IsTagChar(p[3]);
    }
  }

  /** A function name and its parenthesis. */
  predicate IsCall(p: string) {
    p != [] && p[|p| - 1] == '(' && forall i | 0 <= i < |p| - 1 :: IsTagChar(p[i])
  }

  lemma CallIsPattern(p: string)
    requires IsCall(p)
    ensures IsPattern(p)
  {
    assert !IsTagChar(p[|p| - 1]);
  }

  lemma SequenceCalls()
    ensures IsCall("NEXTVAL(") && IsCall("SETVAL(") && IsCall("CURRVAL(") && IsCall("SET_CONFIG(")
  {
  }

  lemma LockCalls()
    ensures IsCall("PG_ADVISORY_LOCK(") && IsCall("PG_ADVISORY_XACT_LOCK(") && IsCall("PG_ADVISORY_UNLOCK(")
  {
  }

  lemma MoreLockCalls()
    ensures IsCall("PG_ADVISORY_UNLOCK_ALL(") && IsCall("PG_TRY_ADVISORY_LOCK(")
    ensures IsCall("PG_TRY_ADVISORY_XACT_LOCK(")
  {
  }

  lemma OtherCalls()
    ensures IsCall("LO_CREATE(") && IsCall("LO_UNLINK(") && IsCall("PG_NOTIFY(") && IsCall("TXID_CURRENT(")
  {
  }

  lemma FuncsAreFree()
    ensures forall p | p in SIDE_EFFECT_FUNCS :: IsPattern(p)
  {
    hide IsPattern, IsCall;
    SequenceCalls();
    LockCalls();
    MoreLockCalls();
    OtherCalls();
    forall p | p in SIDE_EFFECT_FUNCS ensures IsPattern(p) {
      assert IsCall(p);
      CallIsPattern(p);
    }
  }

  lemma SuspectInStatement(q: string, i: nat, b: nat, p: string)
    requires CommentFree(q) && i <= b <= |q| && IsPattern(p) && Contains(Stripped(q[i..b]), p)
    ensures Contains(Upper(q), p)
  {
    hide CommentFree, Contains, IsPattern, StripComments, StripLiterals;
    var stmt := q[i..b];
    CommentFreeSlice(q, i, b);
    StripKeepsCommentFree(stmt);
    StripNoComments(StripLiterals(stmt));
    StripCreatesNoPattern(stmt, p);
    assert Upper(q)[i..b] == Upper(stmt);
    ContainsInSlice(Upper(q), i, b, p);
  }

  /** A SELECT none of whose text looks suspicious has no locking clause and no side effect. */
  lemma UnsuspectedSelect(q: string, i: nat, b: nat)
    requires CommentFree(q) && i <= b <= |q| && !HasSuspectPattern(Upper(q))
    ensures !IsSideEffectfulSelect(q[i..b])
  {
    hide CommentFree, IsPattern, Stripped;
    ClausesAreFree();
    FuncsAreFree();
    forall p | p in LOCKING_CLAUSES ensures !HasClause(Stripped(q[i..b]), p) {
      if HasClause(Stripped(q[i..b]), p) { SuspectInStatement(q, i, b, p); }
    }
    forall p | p in SIDE_EFFECT_FUNCS ensures !Contains(Stripped(q[i..b]), p) {
      if Contains(Stripped(q[i..b]), p) { SuspectInStatement(q, i, b, p); }
    }
  }

  // ---- Fast against full ----

  predicate EndsSpaceWord(c: char) {
    c == ' ' || c == '\t' || c == '\n'
  }

  /** The characters before the first space, tab or newline. */
  function SpaceWord(s: string): (r: string)
    ensures r <= s && (forall c | c in r :: !EndsSpaceWord(c)) && (|r| < |s| ==> EndsSpaceWord(s[|r|]))
  {
    if s == [] || EndsSpaceWord(s[0]) then [] else [s[0]] + SpaceWord(s[1..])
  }

  predicate IsPlainChar(c: char) {
    c != '(' && c != ';' && c != '\r' && c != VT && c != FF
  }

  /** The first word ends at a space, tab, newline or the end of the text and holds no parenthesis,
      semicolon, carriage return, vertical tab or form feed. */
  predicate SimpleFirstWord(q: string) {
    forall c | c in SpaceWord(q[SpaceRun(q)..]) :: IsPlainChar(c)
  }

  lemma {:induction false} FastWordIs(s: string, n: nat)
    requires n <= |s| && (forall i | 0 <= i < n :: !EndsFastWord(s[i])) && (n < |s| ==> EndsFastWord(s[n]))
    ensures FastWord(s) == s[..n]
  {
    if n > 0 {
      assert forall i | 0 <= i < n - 1 :: s[1..][i] == s[i + 1];
      FastWordIs(s[1..], n - 1);
      assert s[..n] == [s[0]] + s[1..][..n - 1];
    }
  }

  lemma SliceFastWord(q: string, i: nat, n: nat)
    requires i + n <= |q| && forall j | i <= j < i + n :: !EndsFastWord(q[j])
    requires i + n < |q| ==> EndsFastWord(q[i + n])
    ensures FastWord(q[i..]) == q[i..][..n]
  {
    hide FastWord, EndsFastWord;
    var s := q[i..];
    forall j | 0 <= j < n ensures !EndsFastWord(s[j]) { assert s[j] == q[i + j]; }
    FastWordIs(s, n);
  }

  /** The shape of a query led by n characters that are neither blanks, semicolons nor parentheses and
      end at a space, tab, newline or the end: both paths see the same keyword. */
  lemma SameKeyword(q: string, n: nat) returns (b: nat)
    requires IsSingle(q) && CommentFree(q) && 1 <= n && SpaceRun(q) + n <= |q|
    requires forall j | SpaceRun(q) <= j < SpaceRun(q) + n ::
               !IsBlank(q[j]) && q[j] != ';' && q[j] != '('
    requires SpaceRun(q) + n < |q| ==> EndsSpaceWord(q[SpaceRun(q) + n])
    ensures SpaceRun(q) + n <= b <= |q| && Split(q) == [q[SpaceRun(q)..b]]
    ensures FirstKeyword(q[SpaceRun(q)..b]) == Upper(FastWord(q[SpaceRun(q)..]))
    ensures FastWord(q[SpaceRun(q)..]) == q[SpaceRun(q)..][..n]
  {
    hide IsSingle, CommentFree, SpaceRun, FirstKeyword, Split, FastWord;
    var i := SpaceRun(q);
    b := LeadStatement(q, n);
    SliceKeyword(q, i, b, n);
    SliceFastWord(q, i, n);
  }

  lemma {:induction false} BlankCommentFree(w: string)
    requires AllBlank(w)
    ensures CommentFree(w)
  {
    if w != [] {
      assert w[0] in w;
      BlankCommentFree(w[1..]);
    }
  }

  lemma BlankIsRead(q: string)
    requires SpaceRun(q) == |q|
    ensures ClassifyFull(q) == Read
  {
    hide Split, CommentFree, StripLiterals, IsWriteStatement, SpaceRun;
    assert AllBlank(q);
    BlankCommentFree(q);
    StripKeepsCommentFree(q);
    NoHint(StripLiterals(q));
    SplitBlank(q);
  }

  lemma SimpleWord(q: string) returns (n: nat)
    requires SimpleFirstWord(q) && SpaceRun(q) < |q|
    ensures 1 <= n && SpaceRun(q) + n <= |q|
    ensures forall j | SpaceRun(q) <= j < SpaceRun(q) + n :: !IsBlank(q[j]) && q[j] != ';' && q[j] != '('
    ensures SpaceRun(q) + n < |q| ==> EndsSpaceWord(q[SpaceRun(q) + n])
  {
    hide SpaceRun, SpaceWord;
    var i := SpaceRun(q);
    var w := SpaceWord(q[i..]);
    n := |w|;
    forall j | i <= j < i + n ensures !IsBlank(q[j]) && q[j] != ';' && q[j] != '(' {
      assert q[j] == q[i..][j - i] == w[j - i] && w[j - i] in w;
    }
  }

  /** Fast classification refines full classification: whenever the fast path answers, so does the full
      path, and the same, for every query with a simple first word. */
  lemma FastRefinesFull(q: string)
    requires ClassifyFast(q).Some? && SimpleFirstWord(q)
    ensures ClassifyFull(q) == ClassifyFast(q).value
  {
    hide IsSingle, SpaceRun, FirstKeyword, Split, FastWord, ClassifyFull, HasSuspectPattern, CommentFree,
         SpaceWord, ContainsWriteKeyword, IsExplainAnalyzeWrite, IsSideEffectfulSelect, Contains;
    var i := SpaceRun(q);
    if i == |q| {
      BlankIsRead(q);
    } else {
      CommentFreeIff(q);
      var n := SimpleWord(q);
      var b := SameKeyword(q, n);
      FullOfSingle(q, q[i..b]);
      if !HasSuspectPattern(Upper(q)) { UnsuspectedSelect(q, i, b); }
    }
  }

  lemma KeywordsAreLetters(kw: string)
    requires IsKeyword(kw)
    ensures kw != [] && forall c | c in kw :: 'A' <= c <= 'Z'
  {
  }

  predicate IsLetter(c: char) {
    ('a' <= c <= 'z') || ('A' <= c <= 'Z')
  }

  lemma KeywordLetters(w: string)
    requires IsWriteKeyword(Upper(w))
    ensures w != [] && forall i | 0 <= i < |w| :: IsLetter(w[i])
  {
    hide IsWriteKeyword;
    KeywordsAreLetters(Upper(w));
    forall i | 0 <= i < |w| ensures IsLetter(w[i]) {
      assert Upper(w)[i] in Upper(w);
    }
  }

  lemma {:induction false} ChunkOfLetters(s: string, n: nat)
    requires n < |s| && s[n] == ';' && forall i | 0 <= i < n :: IsLetter(s[i])
    ensures ChunkLen(s) == n
  {
    hide ChunkLen;
    if n == 0 {
      ChunkAtEnd(s);
    } else {
      assert s == [s[0]] + s[1..] && IsLetter(s[0]);
      assert forall i | 0 <= i < n - 1 :: s[1..][i] == s[i + 1];
      ChunkPastChar(s[0], s[1..]);
      ChunkOfLetters(s[1..], n - 1);
    }
  }

  /** A word with anything but letters in it is no keyword. */
  lemma NotAKeyword(s: string, w: string, n: nat)
    requires w <= s && n < |w| && !IsLetter(s[n])
    ensures !IsKeyword(Upper(w))
  {
    hide IsKeyword;
    var u := Upper(w);
    assert u[n] == UpperChar(s[n]) && u[n] in u;
    if IsKeyword(u) { KeywordsAreLetters(u); }
  }

  lemma StatementByKeyword(stmt: string)
    ensures IsWriteKeyword(FirstKeyword(stmt)) ==> IsWriteStatement(stmt)
    ensures !IsKeyword(FirstKeyword(stmt)) ==> !IsWriteStatement(stmt)
  {
    hide IsWriteKeyword, FirstKeyword, ContainsWriteKeyword, IsExplainAnalyzeWrite, IsSideEffectfulSelect;
  }

  lemma FastByWord(q: string)
    requires ClassifyFast(q).Some? && SpaceRun(q) < |q|
    ensures var kw := Upper(FastWord(q[SpaceRun(q)..]));
            && (IsWriteKeyword(kw) ==> ClassifyFast(q) == Some(Write))
            && (!IsKeyword(kw) ==> ClassifyFast(q) == Some(Read))
    ensures IsSingle(q) && CommentFree(q)
  {
    hide IsWriteKeyword, IsSingle, CommentFree, Contains, FastWord, SpaceRun, HasSuspectPattern;
    CommentFreeIff(q);
    var kw := Upper(FastWord(q[SpaceRun(q)..]));
    if IsWriteKeyword(kw) { KeywordsAreLetters(kw); }
  }

  /** The query starts with a write keyword: n letters, then the end, a blank, a parenthesis or a
      semicolon. */
  predicate LedByWriteKeyword(q: string, n: nat) {
    var i := SpaceRun(q);
    && i + n <= |q| && IsWriteKeyword(Upper(q[i..][..n]))
    && (i + n < |q| ==> IsBlank(q[i + n]) || q[i + n] == '(' || q[i + n] == ';')
  }

  lemma LeadLetters(q: string, n: nat)
    requires LedByWriteKeyword(q, n)
    ensures n >= 1 && SpaceRun(q) + n <= |q| && IsWriteKeyword(Upper(q[SpaceRun(q)..][..n]))
    ensures forall j | SpaceRun(q) <= j < SpaceRun(q) + n ::
              IsLetter(q[j]) && !IsBlank(q[j]) && !EndsFastWord(q[j]) && q[j] != ';' && q[j] != '('
  {
    hide SpaceRun, IsWriteKeyword, Upper;
    var w := q[SpaceRun(q)..][..n];
    KeywordLetters(w);
    forall j | SpaceRun(q) <= j < SpaceRun(q) + n ensures IsLetter(q[j]) {
      assert q[j] == w[j - SpaceRun(q)];
    }
  }

  lemma EndOfKeyword(q: string, n: nat)
    requires LedByWriteKeyword(q, n) && SpaceRun(q) + n < |q|
    ensures var c := q[SpaceRun(q) + n];
            && !IsLetter(c) && (c == '(' ==> !IsBlank(c) && EndsFastWord(c))
            && (c != '(' && c != ';' ==> IsBlank(c))
            && (c != '(' && !EndsSpaceWord(c) ==> !EndsFastWord(c))
  {
    hide SpaceRun, IsWriteKeyword, Upper;
  }

  /** A statement whose first field runs over a character that is no letter has no keyword. */
  lemma NoKeywordAt(q: string, i: nat, b: nat, n: nat)
    requires CommentFree(q) && i + n < b <= |q| && !IsBlank(q[b - 1]) && !IsLetter(q[i + n])
    requires forall j | i <= j <= i + n :: !IsBlank(q[j])
    ensures !IsKeyword(FirstKeyword(q[i..b]))
  {
    hide CommentFree, IsKeyword, IsBlank, IsLetter, StripComments, Trim, FirstField, Upper;
    var stmt := q[i..b];
    forall j | 0 <= j <= n ensures stmt[j] == q[i + j] && !IsBlank(stmt[j]) {}
    CommentFreeSlice(q, i, b);
    StripNoComments(stmt);
    TrimTrimmed(stmt);
    assert |FirstField(stmt)| > n;
    NotAKeyword(stmt, FirstField(stmt), n);
  }

  lemma BeforeParenthesis(q: string, n: nat)
    requires LedByWriteKeyword(q, n) && IsSingle(q) && CommentFree(q)
    requires SpaceRun(q) + n < |q| && q[SpaceRun(q) + n] == '('
    ensures ClassifyFull(q) == Read && IsWriteKeyword(Upper(FastWord(q[SpaceRun(q)..])))
  {
    hide *;
    var i := SpaceRun(q);
    LeadLetters(q, n);
    EndOfKeyword(q, n);
    SliceFastWord(q, i, n);
    var b := LeadStatement(q, n + 1);
    NoKeywordAt(q, i, b, n);
    StatementByKeyword(q[i..b]);
    FullOfSingle(q, q[i..b]);
  }

  lemma NoFastKeywordAt(q: string, i: nat, n: nat)
    requires i + n < |q| && !IsLetter(q[i + n])
    requires forall j | i <= j <= i + n :: !EndsFastWord(q[j])
    ensures !IsKeyword(Upper(FastWord(q[i..])))
  {
    hide IsKeyword, EndsFastWord, IsLetter, Upper, FastWord;
    var s := q[i..];
    forall j | 0 <= j <= n ensures !EndsFastWord(s[j]) { assert s[j] == q[i + j]; }
    assert |FastWord(s)| > n;
    NotAKeyword(s, FastWord(s), n);
  }

  lemma LettersBeforeSemicolon(q: string, i: nat, n: nat)
    requires i + n < |q| && q[i + n] == ';' && forall j | i <= j < i + n :: IsLetter(q[j])
    ensures ChunkLen(q[i..]) == n
  {
    hide ChunkLen, IsLetter;
    var s := q[i..];
    forall j | 0 <= j < n ensures IsLetter(s[j]) { assert s[j] == q[i + j]; }
    ChunkOfLetters(s, n);
  }

  lemma BeforeCut(q: string, n: nat)
    requires LedByWriteKeyword(q, n) && IsSingle(q) && CommentFree(q)
    requires SpaceRun(q) + n < |q| && q[SpaceRun(q) + n] != '(' && !EndsSpaceWord(q[SpaceRun(q) + n])
    ensures ClassifyFull(q) == Write && !IsKeyword(Upper(FastWord(q[SpaceRun(q)..])))
  {
    hide *;
    var i := SpaceRun(q);
    LeadLetters(q, n);
    EndOfKeyword(q, n);
    NoFastKeywordAt(q, i, n);
    if q[i + n] == ';' { LettersBeforeSemicolon(q, i, n); }
    var b := LeadStatement(q, n);
    SliceKeyword(q, i, b, n);
    FullWrite(q, q[i..b]);
  }

  lemma FullWrite(q: string, stmt: string)
    requires CommentFree(q) && Split(q) == [stmt] && IsWriteKeyword(FirstKeyword(stmt))
    ensures ClassifyFull(q) == Write
  {
    hide *;
    StatementByKeyword(stmt);
    FullOfSingle(q, stmt);
  }

  /** The exact boundary for write keywords: the two paths agree if and only if the keyword ends at a
      space, tab, newline or the end of the text. Before a parenthesis the fast path sees a write the full
      path misses; before a semicolon, carriage return, vertical tab or form feed it is the other way. */
  lemma WriteKeywordAgreement(q: string, n: nat)
    requires ClassifyFast(q).Some? && LedByWriteKeyword(q, n)
    ensures ClassifyFull(q) == ClassifyFast(q).value
            <==> SpaceRun(q) + n == |q| || EndsSpaceWord(q[SpaceRun(q) + n])
  {
    hide IsSingle, CommentFree, SpaceRun, Split, ClassifyFull, FirstKeyword, FastWord, Upper, IsKeyword,
         IsWriteKeyword, ClassifyFast, IsWriteStatement;
    var i := SpaceRun(q);
    LeadLetters(q, n);
    FastByWord(q);
    if i + n < |q| && q[i + n] == '(' {
      BeforeParenthesis(q, n);
    } else if i + n < |q| && !EndsSpaceWord(q[i + n]) {
      BeforeCut(q, n);
    } else {
      var b := SameKeyword(q, n);
      StatementByKeyword(q[i..b]);
      FullOfSingle(q, q[i..b]);
    }
  }

  // ---- Exactly when the two paths agree ----

  /** The fast word is a write keyword directly before a parenthesis: the full path does not see it. */
  predicate CutAtParenthesis(q: string) {
    var i := SpaceRun(q);
    var n := |FastWord(q[i..])|;
    IsWriteKeyword(Upper(FastWord(q[i..]))) && i + n < |q| && q[i + n] == '('
  }

  /** The fast word is no write keyword and not the keyword of the only statement, which is a write. */
  predicate MissedWrite(q: string) {
    var kw := Upper(FastWord(q[SpaceRun(q)..]));
    && !IsWriteKeyword(kw)
    && |Split(q)| == 1 && FirstKeyword(Split(q)[0]) != kw && IsWriteStatement(Split(q)[0])
  }

  lemma FastNotWrite(q: string)
    requires ClassifyFast(q).Some? && SpaceRun(q) < |q| && !IsWriteKeyword(Upper(FastWord(q[SpaceRun(q)..])))
    ensures var kw := Upper(FastWord(q[SpaceRun(q)..]));
            && ClassifyFast(q) == Some(Read) && kw != "WITH" && kw != "EXPLAIN"
            && (kw == "SELECT" ==> !HasSuspectPattern(Upper(q)))
  {
    hide IsWriteKeyword, IsSingle, Contains, FastWord, SpaceRun, HasSuspectPattern;
  }

  /** Its only statement is a piece of the query. */
  lemma StatementIsSlice(q: string) returns (a: nat, b: nat)
    requires IsSingle(q) && |Split(q)| == 1
    ensures a <= b <= |q| && Split(q)[0] == q[a..b]
  {
    hide IsSingle, ChunkLen, Trim, Split, AllBlank;
    SingleSplit(q);
    var k := ChunkLen(q);
    a, b := TrimShape(q[..k]);
    assert q[..k][a..b] == q[a..b];
  }

  lemma FullBySplit(q: string)
    requires CommentFree(q) && IsSingle(q)
    ensures |Split(q)| <= 1
    ensures ClassifyFull(q) == Write <==> |Split(q)| == 1 && IsWriteStatement(Split(q)[0])
  {
    hide CommentFree, IsSingle, IsWriteStatement, Split, StripLiterals, Trim;
    SingleSplit(q);
    StripKeepsCommentFree(q);
    NoHint(StripLiterals(q));
    assert forall stmt | stmt in Split(q) :: stmt == Split(q)[0];
  }

  /** When the fast word is the statement's own keyword and no write keyword, the statement is no write. */
  lemma SameWordNoWrite(q: string)
    requires ClassifyFast(q).Some? && SpaceRun(q) < |q| && IsSingle(q) && CommentFree(q) && |Split(q)| == 1
    requires var kw := Upper(FastWord(q[SpaceRun(q)..])); !IsWriteKeyword(kw) && FirstKeyword(Split(q)[0]) == kw
    ensures !IsWriteStatement(Split(q)[0])
  {
    hide IsWriteKeyword, FirstKeyword, ContainsWriteKeyword, IsExplainAnalyzeWrite, IsSideEffectfulSelect, Split,
         FastWord, SpaceRun, ClassifyFast, IsSingle, CommentFree, HasSuspectPattern;
    FastNotWrite(q);
    var a, b := StatementIsSlice(q);
    if !HasSuspectPattern(Upper(q)) { UnsuspectedSelect(q, a, b); }
  }

  lemma AgreesWithoutWrite(q: string)
    requires ClassifyFast(q).Some? && SpaceRun(q) < |q| && !IsWriteKeyword(Upper(FastWord(q[SpaceRun(q)..])))
    ensures ClassifyFull(q) == ClassifyFast(q).value <==> !MissedWrite(q)
  {
    hide IsWriteKeyword, FirstKeyword, IsWriteStatement, Split, FastWord, SpaceRun, ClassifyFast, ClassifyFull,
         IsSingle, CommentFree, Upper, IsKeyword;
    FastByWord(q);
    FullBySplit(q);
    FastNotWrite(q);
    if |Split(q)| == 1 && FirstKeyword(Split(q)[0]) == Upper(FastWord(q[SpaceRun(q)..])) { SameWordNoWrite(q); }
  }

  /** The exact boundary, for every query the fast path answers. */
  lemma FastAgreesIff(q: string)
    requires ClassifyFast(q).Some?
    ensures ClassifyFull(q) == ClassifyFast(q).value <==> !CutAtParenthesis(q) && !MissedWrite(q)
  {
    hide IsWriteKeyword, FirstKeyword, IsWriteStatement, Split, FastWord, SpaceRun, ClassifyFast, ClassifyFull,
         IsSingle, CommentFree, Upper;
    var i := SpaceRun(q);
    if i == |q| {
      BlankAgrees(q);
    } else if IsWriteKeyword(Upper(FastWord(q[i..]))) {
      FastWordLeads(q);
      WriteKeywordAgreement(q, |FastWord(q[i..])|);
    } else {
      AgreesWithoutWrite(q);
    }
  }

  lemma BlankAgrees(q: string)
    requires SpaceRun(q) == |q|
    ensures ClassifyFull(q) == Read && ClassifyFast(q) == Some(Read) && !CutAtParenthesis(q) && !MissedWrite(q)
  {
    hide IsWriteKeyword, FirstKeyword, IsWriteStatement, Split, ClassifyFull, ClassifyFast, FastWord, SpaceRun, Upper;
    BlankIsRead(q);
    FastBlank(q);
    assert AllBlank(q);
    SplitBlank(q);
  }

  lemma FastBlank(q: string)
    requires SpaceRun(q) == |q|
    ensures ClassifyFast(q) == Some(Read)
  {
    hide SpaceRun, Contains, IsSingle, IsWriteKeyword, HasSuspectPattern, FastWord;
  }

  lemma FastWordLeads(q: string)
    requires SpaceRun(q) < |q| && IsWriteKeyword(Upper(FastWord(q[SpaceRun(q)..])))
    ensures LedByWriteKeyword(q, |FastWord(q[SpaceRun(q)..])|)
    ensures var n := SpaceRun(q) + |FastWord(q[SpaceRun(q)..])|;
            n < |q| ==> (q[n] == '(' <==> !EndsSpaceWord(q[n]))
  {
    hide SpaceRun, FastWord, IsWriteKeyword, Upper;
    var i := SpaceRun(q);
    var s := q[i..];
    var w := FastWord(s);
    assert s[..|w|] == w;
    if |w| < |s| { assert s[|w|] == q[i + |w|]; }
  }

  // ---- Queries on which they differ ----

  lemma NoSemicolon(q: string)
    requires ';' !in q
    ensures IsSingle(q)
  {
    IndexLastChar(q, ";");
  }

  predicate NoComment(q: string) {
    forall c | c in q :: c != ';' && c != '-' && c != '/'
  }

  lemma NoSemicolonIn(q: string)
    requires NoComment(q)
    ensures ';' !in q
  {
  }

  lemma {:induction false} NoCommentIsFree(q: string)
    requires NoComment(q)
    ensures CommentFree(q)
  {
    if q != [] {
      assert q[0] in q && forall c | c in q[1..] :: c in q;
      NoCommentIsFree(q[1..]);
    }
  }

  lemma FastAnswers(q: string)
    requires SpaceRun(q) < |q| && !Contains(q, "/*") && !Contains(q, "--") && IsSingle(q)
    ensures var kw := Upper(FastWord(q[SpaceRun(q)..]));
            && (kw != [] && IsWriteKeyword(kw) ==> ClassifyFast(q) == Some(Write))
            && (!IsKeyword(kw) ==> ClassifyFast(q) == Some(Read))
  {
    hide IsWriteKeyword, IsSingle, FastWord, SpaceRun, Contains, HasSuspectPattern, Upper;
  }

  /** How the fast path reads a query that starts with a word of n characters. */
  lemma FastReads(q: string, n: nat)
    requires NoComment(q) && q != [] && !IsSpace(q[0]) && 0 < n <= |q|
    requires (forall i | 0 <= i < n :: !EndsFastWord(q[i])) && (n < |q| ==> EndsFastWord(q[n]))
    ensures SpaceRun(q) == 0 && FastWord(q[0..]) == q[..n] && IsSingle(q) && CommentFree(q)
    ensures IsWriteKeyword(Upper(q[..n])) ==> ClassifyFast(q) == Some(Write)
    ensures !IsKeyword(Upper(q[..n])) ==> ClassifyFast(q) == Some(Read)
  {
    hide *;
    assert SpaceRun(q) == 0;
    assert q[0..] == q;
    FastWordIs(q, n);
    NoCommentIsFree(q);
    CommentFreeIff(q);
    NoSemicolonIn(q);
    NoSemicolon(q);
    FastAnswers(q);
  }

  /** A query without semicolon is its own statement once trimmed. */
  lemma SplitTrimmed(q: string)
    requires ';' !in q && Trim(q) != []
    ensures Split(q) == [Trim(q)]
  {
    hide Trim;
    assert q[..|q|] == q;
  }

  const PARENTHESIS := "DELETE("

  /** A write keyword before a parenthesis is a write for the fast path only. */
  lemma ParenthesisDiffers()
    ensures ClassifyFast(PARENTHESIS) == Some(Write) && ClassifyFull(PARENTHESIS) == Read
  {
    hide ClassifyFast, ClassifyFull, SpaceRun, FastWord, IsWriteKeyword;
    var q := PARENTHESIS;
    assert q[..6] == "DELETE" && Upper("DELETE") == "DELETE" && q[6] == '(';
    DeleteKeyword();
    FastReads(q, 6);
    FastAgreesIff(q);
  }

  const CARRIAGE_RETURN := "SELECT\rnextval('s')"

  lemma CarriageReturnText()
    ensures var q := CARRIAGE_RETURN;
            && NoComment(q) && |q| == 19 && q[6] == '\r' && Upper(q[..6]) == "SELECT" && Upper(q[7..15]) == "NEXTVAL("
            && (forall i | 0 <= i < 14 :: !EndsFastWord(q[i])) && q[14] == '(' && !IsBlank(q[18])
            && (forall i | 0 <= i < 15 :: !IsMark(q[i])) && forall i | 0 <= i < 6 :: IsLetter(q[i])
  {
  }

  lemma {:induction false} StripKeepsPrefix(s: string, n: nat)
    requires n <= |s| && forall i | 0 <= i < n :: !IsMark(s[i])
    ensures n <= |StripLiterals(s)| && StripLiterals(s)[..n] == s[..n]
  {
    hide StripLiterals, PieceLen, PieceOut;
    if n > 0 {
      StripPiece(s);
      assert forall i | 0 <= i < n - 1 :: s[1..][i] == s[i + 1];
      StripKeepsPrefix(s[1..], n - 1);
      assert s[..n] == [s[0]] + s[1..][..n - 1];
    }
  }

  /** A SELECT with NEXTVAL( at i, glued to its keyword by a blank the fast path does not know. */
  lemma GluedSelect(q: string, n: nat, i: nat)
    requires NoComment(q) && 6 < i && i + 8 == n + 1 < |q| && EndsFastWord(q[n]) && !IsLetter(q[6]) && IsBlank(q[6])
    requires Upper(q[..6]) == "SELECT" && (forall j | 0 <= j < 6 :: IsLetter(q[j])) && !IsBlank(q[|q| - 1])
    requires forall j | 0 <= j < n :: !EndsFastWord(q[j])
    requires (forall j | 0 <= j <= n :: !IsMark(q[j])) && Upper(q[i..i + 8]) == "NEXTVAL("
    ensures ClassifyFast(q) == Some(Read) && ClassifyFull(q) == Write
  {
    hide NoComment, IsKeyword, IsWriteKeyword, ClassifyFast, ClassifyFull, SpaceRun, FastWord, Upper, FirstKeyword,
         Split, IsSideEffectfulSelect, ContainsWriteKeyword, IsExplainAnalyzeWrite, Trim, CommentFree, IsSingle;
    FastReads(q, n);
    NotAKeyword(q, q[..n], 6);
    TrimTrimmed(q);
    NoSemicolonIn(q);
    SplitTrimmed(q);
    KeywordIs(q, 6);
    SideEffect(q, n + 1, i);
    FullOfSingle(q, q);
  }

  /** A carriage return ends the keyword for the full path only: a SELECT with a side effect passes for a read. */
  lemma CarriageReturnDiffers()
    ensures ClassifyFast(CARRIAGE_RETURN) == Some(Read) && ClassifyFull(CARRIAGE_RETURN) == Write
  {
    hide ClassifyFast, ClassifyFull, NoComment, Upper;
    CarriageReturnText();
    GluedSelect(CARRIAGE_RETURN, 14, 7);
  }

  /** A side-effect function in the unquoted start of a statement makes it side-effectful. */
  lemma SideEffect(q: string, n: nat, i: nat)
    requires CommentFree(q) && i + 8 <= n <= |q| && (forall j | 0 <= j < n :: !IsMark(q[j]))
    requires Upper(q[i..i + 8]) == "NEXTVAL("
    ensures IsSideEffectfulSelect(q)
  {
    hide CommentFree, StripLiterals, StripComments, Contains, IsSideEffectfulSelect, Upper;
    StripKeepsPrefix(q, n);
    StripKeepsCommentFree(q);
    StripNoComments(StripLiterals(q));
    assert StripLiterals(q)[i..i + 8] == q[i..i + 8];
    UpperSlice(StripLiterals(q), i, i + 8);
    FoundIn(Stripped(q), "NEXTVAL(", i);
    CallsFunc(q);
  }

  lemma UpperSlice(s: string, i: nat, j: nat)
    requires i <= j <= |s|
    ensures Upper(s[i..j]) == Upper(s)[i..j]
  {
  }

  lemma CallsFunc(stmt: string)
    requires Contains(Stripped(stmt), "NEXTVAL(")
    ensures IsSideEffectfulSelect(stmt)
  {
    hide Contains, Stripped, HasClause;
    assert SIDE_EFFECT_FUNCS[0] == "NEXTVAL(";
  }

  lemma FoundIn(s: string, p: string, i: nat)
    requires i + |p| <= |s| && s[i..i + |p|] == p
    ensures Contains(s, p)
  {
    IndexFinds(s, p, i);
  }

  /** A DELETE behind a blank that the fast path does not skip. */
  lemma HiddenDelete(c: char, s: string)
    requires IsBlank(c) && !EndsFastWord(c) && !IsSpace(c) && !IsLetter(c) && c != '-' && c != '/' && c != ';'
    requires 6 < |s| && Upper(s[..6]) == "DELETE" && s[6] == ' ' && NoComment(s) && !IsBlank(s[|s| - 1])
    requires forall i | 0 <= i < 6 :: IsLetter(s[i])
    ensures ClassifyFast([c] + s) == Some(Read) && ClassifyFull([c] + s) == Write
  {
    var q := [c] + s;
    NoCommentPrepend(c, s);
    DeleteKeyword();
    hide NoComment, IsKeyword, IsWriteKeyword, ClassifyFast, ClassifyFull, SpaceRun, FastWord, Upper, FirstKeyword,
         Split, Trim, CommentFree, IsSingle;
    FastReads(q, 7);
    NotAKeyword(q, q[..7], 0);
    TrimLeftPrepend([c], s);
    TrimRightWhole(s);
    NoSemicolonIn(q);
    SplitTrimmed(q);
    NoCommentIsFree(s);
    KeywordIs(s, 6);
    FullWrite(q, s);
  }

  lemma NoCommentPrepend(c: char, s: string)
    requires NoComment(s) && c != '-' && c != '/' && c != ';'
    ensures NoComment([c] + s)
  {
  }

  lemma DeleteKeyword()
    ensures IsWriteKeyword("DELETE")
  {
  }

  const DELETE_ALL := "DELETE FROM t"

  lemma DeleteText()
    ensures var s := DELETE_ALL;
            && |s| == 13 && Upper(s[..6]) == "DELETE" && s[6] == ' ' && NoComment(s) && !IsBlank(s[12])
            && forall i | 0 <= i < 6 :: IsLetter(s[i])
  {
  }

  /** A leading form feed hides the keyword from the fast path only: a DELETE passes for a read. */
  lemma FormFeedDiffers()
    ensures ClassifyFast([FF] + DELETE_ALL) == Some(Read) && ClassifyFull([FF] + DELETE_ALL) == Write
  {
    hide ClassifyFast, ClassifyFull, NoComment, Upper;
    DeleteText();
    HiddenDelete(FF, DELETE_ALL);
  }

  lemma TrimRightWhole(s: string)
    requires s != [] && !IsBlank(s[|s| - 1])
    ensures TrimRight(s) == s
  {
  }

  // ---- The code ----

  method RemoveComments(query: string) returns (result: string)
    ensures result == StripComments(query)
  {
    hide *;
    result := "";
    var i := 0;
    assert query[0..] == query;
    while i < |query|
      invariant 0 <= i <= |query|
      invariant result + StripComments(query[i..]) == StripComments(query)
    {
      var s := query[i..];
      StripCommentsStep(s);
      if AtBlockComment(s) {
        var j := SkipBlockComment(query, i);
        SliceSlice(query, i, j - i);
        i := j;
      } else if AtLineComment(s) {
        LineHasText(s);
        var j := SkipLine(query, i);
        SliceSlice(query, i, j - i);
        i := j;
      } else {
        SliceSlice(query, i, 1);
        Associative(result, [query[i]], StripComments(query[i + 1..]));
        result := result + [query[i]];
        i := i + 1;
      }
    }
    StripCommentsStep(query[i..]);
    assert result + [] == result;
  }

  lemma StripCommentsStep(s: string)
    ensures StripComments(s) == if s == [] then []
                                else if AtBlockComment(s) then StripComments(s[BlockSpan(s)..])
                                else if AtLineComment(s) then StripComments(s[LineLen(s)..])
                                else [s[0]] + StripComments(s[1..])
  {
    hide BlockSpan, LineLen;
  }

  lemma LineHasText(s: string)
    requires AtLineComment(s)
    ensures LineLen(s) > 0
  {
  }

  /** What is still to be written when the scan stands before s. */
  ghost function StripRest(s: string, mode: Mode): string {
    match mode
    case Outside => StripLiterals(s)
    case InSingle => Only(s[..QuoteTail(s)], '\'') + StripLiterals(s[QuoteTail(s)..])
    case InDouble => Only(s[..IdentTail(s)], '"') + StripLiterals(s[IdentTail(s)..])
  }

  lemma {:induction false} OnlyConcat(a: string, b: string, c: char)
    ensures Only(a + b, c) == Only(a, c) + Only(b, c)
  {
    if a == [] {
      assert a + b == b;
    } else {
      var rest := a[1..];
      assert a == [a[0]] + rest;
      Associative([a[0]], rest, b);
      OnlyStep(a[0], rest, c);
      OnlyStep(a[0], rest + b, c);
      OnlyConcat(rest, b, c);
      hide *;
      Associative(Only([a[0]], c), Only(rest, c), Only(b, c));
    }
  }

  lemma OnlyStep(x: char, s: string, c: char)
    ensures Only([x] + s, c) == Only([x], c) + Only(s, c)
  {
    assert ([x] + s)[1..] == s && [x][1..] == [];
  }

  /** The first n characters of a region that is m long. */
  lemma OnlyFirst(s: string, n: nat, m: nat, c: char)
    requires n <= m <= |s|
    ensures Only(s[..m], c) == Only(s[..n], c) + Only(s[n..][..m - n], c)
    ensures s[n..][m - n..] == s[m..]
  {
    assert s[..m] == s[..n] + s[n..][..m - n];
    OnlyConcat(s[..n], s[n..][..m - n], c);
  }

  lemma OnlyChar(s: string, c: char)
    requires s != []
    ensures Only(s[..1], c) == if s[0] == c then [c] else []
  {
    assert s[..1][1..] == [];
  }

  lemma OnlyTwo(s: string, c: char)
    requires |s| >= 2 && s[0] == c && s[1] == c
    ensures Only(s[..2], c) == [c, c]
  {
    OnlyFirst(s, 1, 2, c);
    OnlyChar(s, c);
    OnlyChar(s[1..], c);
  }

  lemma StripAtSingle(s: string)
    requires s != [] && s[0] == '\''
    ensures StripLiterals(s) == Only(s[..QuoteSpan(s)], '\'') + StripLiterals(s[QuoteSpan(s)..])
  {
    hide StripLiterals, QuoteSpan, IdentTail, Only, TagLen, DollarSpan;
    StripPiece(s);
  }

  lemma StripAtDouble(s: string)
    requires s != [] && s[0] == '"'
    ensures var m := 1 + IdentTail(s[1..]);
            StripLiterals(s) == Only(s[..m], '"') + StripLiterals(s[m..])
  {
    hide StripLiterals, QuoteSpan, IdentTail, Only, TagLen, DollarSpan;
    StripPiece(s);
  }

  lemma StripIntoQuotes(s: string)
    requires s != [] && (s[0] == '\'' || s[0] == '"')
    ensures StripLiterals(s) == [s[0]] + StripRest(s[1..], if s[0] == '\'' then InSingle else InDouble)
  {
    hide QuoteTail, IdentTail, Only, StripLiterals;
    OnlyChar(s, s[0]);
    if s[0] == '\'' {
      StripAtSingle(s);
      OnlyFirst(s, 1, QuoteSpan(s), '\'');
      Associative("\'", Only(s[1..][..QuoteTail(s[1..])], '\''), StripLiterals(s[QuoteSpan(s)..]));
    } else {
      StripAtDouble(s);
      OnlyFirst(s, 1, 1 + IdentTail(s[1..]), '"');
      Associative("\"", Only(s[1..][..IdentTail(s[1..])], '"'), StripLiterals(s[1 + IdentTail(s[1..])..]));
    }
  }

  /** Inside quotes: n characters that stay inside, or the quote that closes. */
  lemma StripInQuotes(s: string, mode: Mode, n: nat, closes: bool)
    requires !mode.Outside? && n <= |s|
    requires var tail := if mode.InSingle? then QuoteTail(s) else IdentTail(s);
             var more := if mode.InSingle? then QuoteTail(s[n..]) else IdentTail(s[n..]);
             tail == n + if closes then 0 else more
    ensures var c := if mode.InSingle? then '\'' else '"';
            StripRest(s, mode) == Only(s[..n], c) + StripRest(s[n..], if closes then Outside else mode)
  {
    hide QuoteTail, IdentTail, Only, StripLiterals;
    var c := if mode.InSingle? then '\'' else '"';
    var m := if mode.InSingle? then QuoteTail(s) else IdentTail(s);
    OnlyFirst(s, n, m, c);
    if closes {
      OnlyFirst(s, n, n, c);
    }
  }

  /** One turn of the loop outside quotes. */
  method StripOutside(query: string, i: nat) returns (out: string, j: nat)
    requires i < |query| && query[i] != '\'' && query[i] != '"'
    ensures i < j <= |query| && StripLiterals(query[i..]) == out + StripLiterals(query[j..])
  {
    hide TagLen, DollarSpan;
    ghost var s := query[i..];
    var tag := ParseDollarTag(query, i);
    if tag > 0 {
      j := SkipDollarQuoted(query, i, tag);
      out := query[i..i + tag] + query[i..i + tag];
      assert s[..tag] == query[i..i + tag] && s[j - i..] == query[j..];
    } else {
      out, j := [query[i]], i + 1;
      assert s[1..] == query[j..];
    }
  }

  /** One turn of the loop inside quotes. */
  method StripInside(query: string, i: nat, mode: Mode) returns (out: string, j: nat, mode': Mode)
    requires i < |query| && !mode.Outside?
    ensures i < j <= |query| && StripRest(query[i..], mode) == out + StripRest(query[j..], mode')
  {
    hide StripRest, StripLiterals, Only;
    ghost var s := query[i..];
    var quote := if mode.InSingle? then '\'' else '"';
    var closes := query[i] == quote;
    out, j, mode' := if closes then [quote] else "", i + 1, mode;
    if mode.InSingle? && closes && i + 1 < |query| && query[i + 1] == '\'' {
      out, j, closes := [quote, quote], i + 2, false;
      assert s[1] == '\'';
      OnlyTwo(s, quote);
    } else {
      OnlyChar(s, quote);
    }
    if closes { mode' := Outside; }
    assert s[j - i..] == query[j..];
    StripInQuotes(s, mode, j - i, closes);
  }

  method RemoveStringLiterals(query: string) returns (result: string)
    ensures result == StripLiterals(query)
  {
    hide *;
    result := "";
    var i, mode := 0, Outside;
    assert query[0..] == query;
    StripRestOutside(query);
    while i < |query|
      invariant 0 <= i <= |query|
      invariant result + StripRest(query[i..], mode) == StripLiterals(query)
    {
      var out, j, mode' := [query[i]], i + 1, mode;
      if !mode.Outside? {
        out, j, mode' := StripInside(query, i, mode);
      } else if query[i] == '\'' || query[i] == '"' {
        mode' := if query[i] == '\'' then InSingle else InDouble;
        StripIntoQuotes(query[i..]);
        SliceSlice(query, i, 1);
        StripRestOutside(query[i..]);
      } else {
        out, j := StripOutside(query, i);
        StripRestOutside(query[i..]);
        StripRestOutside(query[j..]);
      }
      Associative(result, out, StripRest(query[j..], mode'));
      result, i, mode := result + out, j, mode';
    }
    StripRestEmpty(mode);
    assert query[i..] == [];
  }

  lemma StripRestOutside(s: string)
    ensures StripRest(s, Outside) == StripLiterals(s)
  {
  }

  lemma StripRestEmpty(mode: Mode)
    ensures StripRest([], mode) == []
  {
  }

  method SkipSpaces(query: string) returns (i: nat)
    ensures i == SpaceRun(query)
  {
    i := 0;
    assert query[0..] == query;
    while i < |query| && IsSpace(query[i])
      invariant 0 <= i <= |query| && i + SpaceRun(query[i..]) == SpaceRun(query)
    {
      assert query[i..][1..] == query[i + 1..];
      i := i + 1;
    }
  }

  method ReadFastWord(query: string, i: nat) returns (word: string)
    requires i <= |query|
    ensures word == FastWord(query[i..])
  {
    hide *;
    var j := i;
    while j < |query| && !EndsFastWord(query[j])
      invariant i <= j <= |query| && query[i..j] + FastWord(query[j..]) == FastWord(query[i..])
    {
      FastWordStep(query[j..]);
      SliceSlice(query, j, 1);
      SliceGrow(query, i, j);
      Associative(query[i..j], [query[j]], FastWord(query[j + 1..]));
      j := j + 1;
    }
    FastWordStep(query[j..]);
    word := query[i..j];
  }

  lemma FastWordStep(s: string)
    ensures FastWord(s) == if s == [] || EndsFastWord(s[0]) then [] else [s[0]] + FastWord(s[1..])
  {
  }

  /** classifyFast. */
  method TryFast(query: string) returns (answer: Option<QueryType>)
    ensures answer == ClassifyFast(query)
  {
    hide IsWriteKeyword, HasSuspectPattern, Contains, IsSingle, FastWord, SpaceRun;
    var i := SkipSpaces(query);
    if i >= |query| { return Some(Read); }
    if Contains(query, "/*") || Contains(query, "--") { return None; }
    if !IsSingle(query) { return None; }
    var word := ReadFastWord(query, i);
    if |word| == 0 { return Some(Read); }
    var kw := Upper(word);
    if IsWriteKeyword(kw) { return Some(Write); }
    if kw == "WITH" || kw == "EXPLAIN" { return None; }
    if kw == "SELECT" && HasSuspectPattern(Upper(query)) { return None; }
    return Some(Read);
  }
}
