/** What placeholder substitution yields (internal/proxy/synthesizer.go): every hole filled with its own literal and
    everything else copied, and literals that read back as the text they stand for. */
module Substitution {
  import opened SqlText
  import opened Lexer
  import opened Synthesizer

  // ---- Numbers ----

  /** k in decimal. */
  function Digits(k: nat): (d: string)
    ensures d != [] && forall c | c in d :: IsDigit(c)
  {
    var last := ['0' + (k % 10) as char];
    if k < 10 then last else Digits(k / 10) + last
  }

  lemma {:induction false} NumberOfDigits(k: nat)
    ensures Number(Digits(k)) == k && (k > 0 ==> Digits(k)[0] != '0')
  {
    var last := ['0' + (k % 10) as char];
    if k < 10 {
      assert Number([]) == 0 && Digits(k)[..0] == [];
    } else {
      NumberOfDigits(k / 10);
      assert Digits(k)[..|Digits(k)| - 1] == Digits(k / 10);
    }
  }

  lemma {:induction false} DigitRunIs(d: string, rest: string)
    requires (forall c | c in d :: IsDigit(c)) && (rest == [] || !IsDigit(rest[0]))
    ensures DigitRun(d + rest) == |d|
  {
    if d == [] {
      assert d + rest == rest;
    } else {
      assert (d + rest)[1..] == d[1..] + rest && d[0] in d;
      DigitRunIs(d[1..], rest);
    }
  }

  // ---- One piece at a time ----

  lemma PlaceholderIs(k: nat, rest: string)
    requires k > 0 && (rest == [] || !IsDigit(rest[0]))
    ensures var s := "$" + Digits(k) + rest;
            && |s| >= 2 && PlaceholderDigits(s) == Digits(k) && TagLen(s) == 0 && '1' <= s[1] <= '9'
            && DigitRun(s[1..]) == |Digits(k)|
  {
    hide Digits, Number;
    var d := Digits(k);
    var s := "$" + d + rest;
    NumberOfDigits(k);
    DigitRunIs(d, rest);
    assert s[1..] == d + rest && s[1] == d[0] && d[0] in d;
    assert (d + rest)[..|d|] == d;
  }

  lemma HoleIs(k: nat, rest: string, lits: seq<string>)
    requires 1 <= k <= |lits| && (rest == [] || !IsDigit(rest[0]))
    ensures var s := "$" + Digits(k) + rest;
            && s != [] && IsPlaceholder(s, |lits|) && !AtBareTag(s) && Replacement(s, lits) == lits[k - 1]
            && ItemLen(s, |lits|) == 1 + |Digits(k)|
  {
    hide Digits, Number, PlaceholderDigits, DigitRun, TagLen, QuoteSpan, DollarSpan;
    PlaceholderIs(k, rest);
    NumberOfDigits(k);
  }

  /** $k becomes the k-th literal. */
  lemma SubstPlaceholder(k: nat, rest: string, lits: seq<string>)
    requires 1 <= k <= |lits| && (rest == [] || !IsDigit(rest[0]))
    ensures Subst("$" + Digits(k) + rest, lits) == lits[k - 1] + Subst(rest, lits)
  {
    hide *;
    var s := "$" + Digits(k) + rest;
    HoleIs(k, rest, lits);
    SubstStep(s, lits);
    ItemOutIs(s, lits);
    assert s[1 + |Digits(k)|..] == rest;
  }

  lemma ItemOutIs(s: string, lits: seq<string>)
    requires s != [] && IsPlaceholder(s, |lits|)
    ensures ItemOut(s, lits) == Replacement(s, lits)
  {
    hide IsPlaceholder, Replacement;
  }

  /** Text without dollar signs and quotes is copied. */
  lemma {:induction false} SubstText(a: string, rest: string, lits: seq<string>)
    requires forall c | c in a :: c != '$' && c != '\''
    ensures Subst(a + rest, lits) == a + Subst(rest, lits)
  {
    hide Subst;
    if a == [] {
      assert a + rest == rest;
    } else {
      var s := a + rest;
      assert s[1..] == a[1..] + rest && a[0] in a && forall c | c in a[1..] :: c in a;
      SubstChar(s, lits);
      SubstText(a[1..], rest, lits);
    }
  }

  /** A hole without a parameter is copied. */
  lemma SubstBeyond(k: nat, rest: string, lits: seq<string>)
    requires k > |lits| && (rest == [] || !IsDigit(rest[0]))
    ensures Subst("$" + Digits(k) + rest, lits) == "$" + Digits(k) + Subst(rest, lits)
  {
    hide *;
    var d := Digits(k);
    var s := "$" + d + rest;
    NoSuchParameter(k, rest, |lits|);
    LoneDollar(s, lits);
    assert s[1..] == d + rest;
    DigitsPlain(d);
    SubstText(d, rest, lits);
    Associative("$", d, Subst(rest, lits));
  }

  lemma NoSuchParameter(k: nat, rest: string, n: nat)
    requires k > n && (rest == [] || !IsDigit(rest[0]))
    ensures var s := "$" + Digits(k) + rest; s[0] == '$' && TagLen(s) == 0 && !IsPlaceholder(s, n)
  {
    hide Digits, Number, PlaceholderDigits, TagLen;
    PlaceholderIs(k, rest);
    NumberOfDigits(k);
  }

  lemma DigitsPlain(d: string)
    requires forall c | c in d :: IsDigit(c)
    ensures forall c | c in d :: c != '$' && c != '\''
  {
  }

  lemma LoneDollar(s: string, lits: seq<string>)
    requires s != [] && s[0] == '$' && TagLen(s) == 0 && !IsPlaceholder(s, |lits|)
    ensures Subst(s, lits) == "$" + Subst(s[1..], lits)
  {
    hide Subst, TagLen, IsPlaceholder;
    SubstStep(s, lits);
    assert s[..1] == "$";
  }

  /** A quoted string is copied, whatever it holds. */
  lemma SubstQuoted(b: string, rest: string, lits: seq<string>)
    requires Doubled(b) && (rest == [] || rest[0] != '\'')
    ensures Subst("'" + b + "'" + rest, lits) == "'" + b + "'" + Subst(rest, lits)
  {
    hide Doubled, Subst;
    var s := "'" + b + "'" + rest;
    assert s[1..] == b + "'" + rest;
    QuoteTailDoubled(b, rest);
    SubstStep(s, lits);
    assert s[..|b| + 2] == "'" + b + "'" && s[|b| + 2..] == rest;
  }

  /** The tag opens a body that it closes at its first occurrence. */
  predicate IsDollarQuoted(tag: string, body: string) {
    0 < TagLen(tag) == |tag| && Index(body + tag, tag) == |body|
  }

  /** A dollar-quoted string is copied, whatever it holds. */
  lemma SubstDollar(tag: string, body: string, rest: string, lits: seq<string>)
    requires IsDollarQuoted(tag, body)
    ensures Subst(tag + body + tag + rest, lits) == tag + body + tag + Subst(rest, lits)
  {
    hide Subst, Index, IsPlaceholder;
    var s := tag + body + tag + rest;
    var t := |tag|;
    assert s == tag + (body + tag + rest);
    TagLenPrefix(tag, body + tag + rest);
    assert s[..t] == tag && s[t..] == (body + tag) + rest;
    IndexAppend(body + tag, rest, tag);
    NoPlaceholderAtTag(s, |lits|);
    RegionCopied(s, lits, 2 * t + |body|);
    assert s[..2 * t + |body|] == tag + body + tag && s[2 * t + |body|..] == rest;
  }

  lemma RegionCopied(s: string, lits: seq<string>, n: nat)
    requires 0 < TagLen(s) < |s| && DollarSpan(s) == n && !IsPlaceholder(s, |lits|)
    ensures Subst(s, lits) == s[..n] + Subst(s[n..], lits)
  {
    hide Subst, TagLen, IsPlaceholder, DollarSpan;
    TagStarts(s);
    SubstStep(s, lits);
  }

  lemma TagStarts(s: string)
    requires TagLen(s) > 0
    ensures s[0] == '$'
  {
  }

  lemma NoPlaceholderAtTag(s: string, n: nat)
    requires TagLen(s) > 0
    ensures !IsPlaceholder(s, n)
  {
  }

  // ---- Templates ----

  datatype Piece =
    | Copy(text: string)
    | Quoted(body: string)
    | DollarQuoted(tag: string, inner: string)
    | Hole(k: nat)

  predicate Fits(p: Piece, rest: string) {
    match p
    case Copy(a) => forall c | c in a :: c != '$' && c != '\''
    case Quoted(b) => Doubled(b) && (rest == [] || rest[0] != '\'')
    case DollarQuoted(tag, body) => IsDollarQuoted(tag, body)
    case Hole(k) => k > 0 && (rest == [] || !IsDigit(rest[0]))
  }

  function Written(p: Piece): string {
    match p
    case Copy(a) => a
    case Quoted(b) => "'" + b + "'"
    case DollarQuoted(tag, body) => tag + body + tag
    case Hole(k) => "$" + Digits(k)
  }

  function Query(ps: seq<Piece>): string {
    if ps == [] then [] else Written(ps[0]) + Query(ps[1..])
  }

  predicate IsTemplate(ps: seq<Piece>) {
    ps == [] || (Fits(ps[0], Query(ps[1..])) && IsTemplate(ps[1..]))
  }

  function FilledPiece(p: Piece, lits: seq<string>): string {
    if p.Hole? && 1 <= p.k <= |lits| then lits[p.k - 1] else Written(p)
  }

  function Filled(ps: seq<Piece>, lits: seq<string>): string {
    if ps == [] then [] else FilledPiece(ps[0], lits) + Filled(ps[1..], lits)
  }

  lemma PieceFilled(p: Piece, rest: string, lits: seq<string>)
    requires Fits(p, rest)
    ensures Subst(Written(p) + rest, lits) == FilledPiece(p, lits) + Subst(rest, lits)
  {
    hide Subst, Digits, IsDollarQuoted, Doubled;
    match p
    case Copy(a) => SubstText(a, rest, lits);
    case Quoted(b) => SubstQuoted(b, rest, lits);
    case DollarQuoted(tag, body) => SubstDollar(tag, body, rest, lits);
    case Hole(k) => if k <= |lits| { SubstPlaceholder(k, rest, lits); } else { SubstBeyond(k, rest, lits); }
  }

  /** Substitution fills every hole of a template with the literal of its own number and copies the rest. */
  lemma {:induction false} FillsTheHoles(ps: seq<Piece>, lits: seq<string>)
    requires IsTemplate(ps)
    ensures Subst(Query(ps), lits) == Filled(ps, lits)
  {
    hide Fits, FilledPiece, Written;
    if ps != [] {
      PieceFilled(ps[0], Query(ps[1..]), lits);
      FillsTheHoles(ps[1..], lits);
    }
  }

  // ---- Literals read back ----

  /** How a string literal is read: a doubled quote stands for one. */
  function Unescaped(s: string): string {
    if s == [] then []
    else if s[0] == '\'' && |s| >= 2 && s[1] == '\'' then ['\''] + Unescaped(s[2..])
    else [s[0]] + Unescaped(s[1..])
  }

  function WithoutNul(s: string): string {
    if s == [] then [] else (if s[0] == NUL then [] else [s[0]]) + WithoutNul(s[1..])
  }

  /** The text between the outer quotes. */
  function ReadBack(literal: string): string
    requires |literal| >= 2
  {
    Unescaped(literal[1..|literal| - 1])
  }

  lemma {:induction false} UnescapeEscape(s: string)
    ensures Unescaped(EscapeBody(s)) == WithoutNul(s)
  {
    if s != [] {
      UnescapeEscape(s[1..]);
      var t := EscapeBody(s[1..]);
      if s[0] == '\'' {
        assert ("''" + t)[2..] == t;
      } else if s[0] != NUL {
        assert ([s[0]] + t)[1..] == t;
      }
    }
  }

  /** A text parameter's literal is quoted and reads back as the text without its NUL bytes; NULL is no such literal. */
  lemma LiteralReadsBack(p: Param)
    ensures var l := Literal(p);
            match p
            case Null => l == "NULL"
            case Text(s) => |l| >= 2 && l[0] == '\'' == l[|l| - 1] && ReadBack(l) == WithoutNul(s)
  {
    if p.Text? {
      var l := Literal(p);
      assert l[1..|l| - 1] == EscapeBody(p.text);
      UnescapeEscape(p.text);
    }
  }
}
