/** Where lexemes end, said without the scanners: literals at their first unescaped quote, comments at their
    first terminator, words where their characters stop. */
module Extents {
  import opened Lexing

  /** How many backslashes stand right before position `i`. */
  function Slashes(s: string, i: nat): nat
    requires i <= |s|
  {
    if i == 0 || s[i - 1] != '\\' then 0 else 1 + Slashes(s, i - 1)
  }

  /** Backslashes bind in pairs, so an even number of them binds nothing behind it. */
  predicate Unescaped(s: string, i: nat)
    requires i <= |s|
  {
    Slashes(s, i) % 2 == 0
  }

  /** `n` is one past the first hit in `from..len`, if there is one, and otherwise the length. */
  ghost predicate FirstHit(len: nat, from: nat, n: nat, closed: bool, hit: int -> bool) {
    && (closed <==> exists i :: from <= i < len && hit(i))
    && (!closed ==> n == len)
    && (closed ==> from < n <= len && hit(n - 1) && forall i :: from <= i < n - 1 ==> !hit(i))
  }

  /** The same scan seen from `k` characters further left, with no hit in between. */
  lemma {:induction false} ShiftHit(len: nat, from: nat, k: nat, n: nat, closed: bool, hit: int -> bool, outer: int -> bool)
    requires FirstHit(len, 0, n, closed, hit)
    requires forall i :: 0 <= i < len ==> hit(i) == outer(i + k)
    requires from <= k && forall i :: from <= i < k ==> !outer(i)
    ensures FirstHit(len + k, from, n + k, closed, outer)
  {
    if closed {
      assert outer(n - 1 + k);
      forall i | from <= i < n + k - 1 ensures !outer(i) {
        if i >= k {
          assert !hit(i - k);
        }
      }
    } else {
      forall i | from <= i < len + k ensures !outer(i) {
        if i >= k {
          assert !hit(i - k);
        }
      }
    }
  }

  /** Behind an even run, escaping can be judged from there on. */
  lemma {:induction false} EscapeFrom(s: string, k: nat, i: nat)
    requires k <= i <= |s| && Unescaped(s, k)
    ensures Unescaped(s, i) <==> Unescaped(s[k..], i - k)
  {
    SlashesFrom(s, k, i);
  }

  lemma {:induction false} SlashesFrom(s: string, k: nat, i: nat)
    requires k <= i <= |s|
    ensures Slashes(s, i) == Slashes(s[k..], i - k) + if Slashes(s[k..], i - k) == i - k then Slashes(s, k) else 0
  {
    if k < i {
      SlashesFrom(s, k, i - 1);
      assert s[k..][i - k - 1] == s[i - 1];
      SlashesBound(s[k..], i - k - 1);
    }
  }

  lemma {:induction false} SlashesBound(s: string, i: nat)
    requires i <= |s|
    ensures Slashes(s, i) <= i
  {
    if i > 0 {
      SlashesBound(s, i - 1);
    }
  }

  // ---- Literals --------------------------------------------------------------------------------------

  predicate QuoteAt(s: string, q: char, i: int) {
    0 <= i < |s| && s[i] == q && Unescaped(s, i)
  }

  function QuoteHit(s: string, q: char): int -> bool {
    (i: int) => QuoteAt(s, q, i)
  }

  /** A singly quoted literal ends at its first unescaped quote. */
  lemma {:induction false} PlainEnds(s: string, q: char)
    requires q != '\\'
    ensures FirstHit(|s|, 0, PlainBody(s, q).len, PlainBody(s, q).closed, QuoteHit(s, q))
  {
    hide Slashes, FirstHit;
    if s == [] || (s[0] == '\\' && |s| == 1) {
      NoQuote(s, q);
    } else if s[0] == q {
      QuoteAtOnce(s, q);
    } else {
      var k := if s[0] == '\\' then 2 else 1;
      SkipsNoQuote(s, q, k);
      PlainEnds(s[k..], q);
      forall i | 0 <= i < |s| - k ensures QuoteAt(s[k..], q, i) == QuoteAt(s, q, i + k) {
        QuoteFrom(s, q, k, i);
      }
      ShiftHit(|s| - k, 0, k, PlainBody(s[k..], q).len, PlainBody(s[k..], q).closed, QuoteHit(s[k..], q), QuoteHit(s, q));
    }
  }

  lemma {:induction false} NoQuote(s: string, q: char)
    requires s == [] || (|s| == 1 && s[0] != q)
    ensures FirstHit(|s|, 0, |s|, false, QuoteHit(s, q))
  {
  }

  lemma {:induction false} QuoteAtOnce(s: string, q: char)
    requires s != [] && s[0] == q
    ensures FirstHit(|s|, 0, 1, true, QuoteHit(s, q))
  {
    assert QuoteAt(s, q, 0);
  }

  /** A character that is no quote, or a backslash with the character it binds. */
  lemma {:induction false} SkipsNoQuote(s: string, q: char, k: nat)
    requires q != '\\' && 0 < k <= |s| && s[0] != q && k == if s[0] == '\\' then 2 else 1
    ensures Unescaped(s, k) && forall i :: 0 <= i < k ==> !QuoteAt(s, q, i)
  {
    assert s[0] == '\\' ==> Slashes(s, 1) == 1;
  }

  /** The last of three unescaped quotes in a row. */
  predicate TripleAt(s: string, q: char, i: int) {
    QuoteAt(s, q, i - 2) && QuoteAt(s, q, i - 1) && QuoteAt(s, q, i)
  }

  function TripleHit(s: string, q: char): int -> bool {
    (i: int) => TripleAt(s, q, i)
  }

  function Quotes(q: char, n: nat): string {
    seq(n, i => q)
  }

  lemma {:induction false} QuoteFrom(t: string, q: char, k: nat, i: nat)
    requires k <= |t| && Unescaped(t, k) && i < |t| - k
    ensures QuoteAt(t[k..], q, i) == QuoteAt(t, q, i + k)
  {
    hide Slashes;
    EscapeFrom(t, k, i + k);
  }

  lemma {:induction false} TripleFrom(t: string, q: char, k: nat, i: nat)
    requires 0 < k <= |t| && Unescaped(t, k) && !QuoteAt(t, q, k - 1) && i < |t| - k
    ensures TripleAt(t[k..], q, i) == TripleAt(t, q, i + k)
  {
    hide Unescaped;
    QuoteFrom(t, q, k, i);
    if i >= 1 {
      QuoteFrom(t, q, k, i - 1);
    }
    if i >= 2 {
      QuoteFrom(t, q, k, i - 2);
    }
  }

  /** Some characters end no triple and leave nothing escaped, so the scan may start behind them. */
  lemma {:induction false} SkipTriple(t: string, q: char, k: nat, n: nat, closed: bool)
    requires 0 < k <= |t| && Unescaped(t, k) && !QuoteAt(t, q, k - 1)
    requires forall i :: 0 <= i < k ==> !TripleAt(t, q, i)
    requires FirstHit(|t| - k, 0, n, closed, TripleHit(t[k..], q))
    ensures FirstHit(|t|, 0, n + k, closed, TripleHit(t, q))
  {
    hide Unescaped, QuoteAt, TripleAt, FirstHit;
    forall i | 0 <= i < |t| - k ensures TripleAt(t[k..], q, i) == TripleAt(t, q, i + k) {
      TripleFrom(t, q, k, i);
    }
    ShiftHit(|t| - k, 0, k, n, closed, TripleHit(t[k..], q), TripleHit(t, q));
  }

  /** What the first characters of `t` are when `run` quotes come before `s`. */
  lemma {:induction false} LeadingQuotes(t: string, s: string, q: char, run: nat)
    requires q != '\\' && run < 3 && t == Quotes(q, run) + s
    ensures Unescaped(t, run)
    ensures forall i :: 0 <= i < run ==> t[i] == q
    ensures forall i :: 0 <= i < 2 ==> !TripleAt(t, q, i)
    ensures s != [] && s[0] != q ==> !QuoteAt(t, q, run) && forall i :: 0 <= i <= run ==> !TripleAt(t, q, i)
  {
    assert run > 0 ==> t[run - 1] == q;
    if s != [] {
      assert t[run] == s[0];
    }
  }

  /** The scan of a triply quoted literal with `run` closing quotes behind it stops at the first three in a row. */
  ghost predicate TripleFits(s: string, q: char, run: nat) {
    var r := TripleBody(s, q, run);
    FirstHit(run + |s|, 0, run + r.len, r.closed, TripleHit(Quotes(q, run) + s, q))
  }

  /** A triply quoted literal ends at its first three unescaped quotes in a row. */
  lemma {:induction false} TripleEnds(s: string, q: char, run: nat)
    requires q != '\\' && run < 3
    ensures TripleFits(s, q, run)
    decreases |s|
  {
    hide TripleFits, Quotes, FirstHit;
    if s == [] || (s[0] == '\\' && |s| == 1) {
      NoTriple(s, q, run);
    } else if s[0] == '\\' {
      TripleEnds(s[2..], q, 0);
      EscapeInTriple(s, q, run);
    } else if s[0] == q && run + 1 == 3 {
      CloseTriple(s, q);
    } else if s[0] == q {
      TripleEnds(s[1..], q, run + 1);
      OneMoreQuote(s, q, run);
    } else {
      TripleEnds(s[1..], q, 0);
      OtherInTriple(s, q, run);
    }
  }

  lemma {:induction false} NoQuotes(s: string, q: char)
    ensures Quotes(q, 0) + s == s
  {
  }

  lemma {:induction false} QuotesAre(q: char, n: nat)
    ensures |Quotes(q, n)| == n && forall i :: 0 <= i < n ==> Quotes(q, n)[i] == q
  {
  }

  lemma {:induction false} OneMoreQuote(s: string, q: char, run: nat)
    requires q != '\\' && s != [] && s[0] == q && run + 1 < 3 && TripleFits(s[1..], q, run + 1)
    ensures TripleFits(s, q, run)
  {
    hide FirstHit, TripleHit;
    assert Quotes(q, run + 1) + s[1..] == Quotes(q, run) + s;
  }

  lemma {:induction false} NoTriple(s: string, q: char, run: nat)
    requires q != '\\' && run < 3 && (s == [] || (|s| == 1 && s[0] == '\\'))
    ensures TripleFits(s, q, run)
  {
    hide Slashes;
    LeadingQuotes(Quotes(q, run) + s, s, q, run);
  }

  /** A backslash, and what it binds, are no part of a closing run. */
  lemma {:induction false} EscapeInTriple(s: string, q: char, run: nat)
    requires q != '\\' && run < 3 && |s| > 1 && s[0] == '\\' && TripleFits(s[2..], q, 0)
    ensures TripleFits(s, q, run)
  {
    hide FirstHit, TripleHit, Quotes;
    QuotesAre(q, run);
    NoQuotes(s[2..], q);
    var t, r := Quotes(q, run) + s, TripleBody(s[2..], q, 0);
    LeadingQuotes(t, s, q, run);
    assert t[run] == '\\' && (run > 0 ==> t[run - 1] == q);
    assert Slashes(t, run) == 0 && Slashes(t, run + 1) == 1;
    assert t[run + 2..] == s[2..];
    SkipTriple(t, q, run + 2, r.len, r.closed);
  }

  lemma {:induction false} OtherInTriple(s: string, q: char, run: nat)
    requires q != '\\' && run < 3 && s != [] && s[0] != '\\' && s[0] != q && TripleFits(s[1..], q, 0)
    ensures TripleFits(s, q, run)
  {
    hide FirstHit, TripleHit, Quotes;
    QuotesAre(q, run);
    NoQuotes(s[1..], q);
    var t, r := Quotes(q, run) + s, TripleBody(s[1..], q, 0);
    LeadingQuotes(t, s, q, run);
    assert t[run] == s[0];
    assert t[run + 1..] == s[1..];
    SkipTriple(t, q, run + 1, r.len, r.closed);
  }

  lemma {:induction false} CloseTriple(s: string, q: char)
    requires q != '\\' && s != [] && s[0] == q
    ensures TripleFits(s, q, 2)
  {
    var t := Quotes(q, 2) + s;
    assert t[0] == q && t[1] == q && t[2] == q;
    assert QuoteAt(t, q, 0) && QuoteAt(t, q, 1) && QuoteAt(t, q, 2);
    assert TripleHit(t, q)(2);
  }

  // ---- Comments --------------------------------------------------------------------------------------

  function NewlineHit(s: string): int -> bool {
    (i: int) => 0 <= i < |s| && s[i] == '\n'
  }

  lemma {:induction false} LineEnds(s: string)
    ensures FirstHit(|s|, 0, LineBody(s).len, LineBody(s).closed, NewlineHit(s))
  {
    if s != [] && s[0] == '\n' {
      assert NewlineHit(s)(0);
    } else if s != [] {
      LineEnds(s[1..]);
      ShiftHit(|s| - 1, 0, 1, LineBody(s[1..]).len, LineBody(s[1..]).closed, NewlineHit(s[1..]), NewlineHit(s));
    }
  }

  /** The slash of a `*` and `/`, where `prev` comes before the text. */
  function StarSlashHit(s: string, prev: char): int -> bool {
    (i: int) => 0 <= i < |s| && s[i] == '/' && (if i == 0 then prev else s[i - 1]) == '*'
  }

  lemma {:induction false} BlockEnds(s: string, prev: char)
    ensures FirstHit(|s|, 0, BlockBody(s, prev).len, BlockBody(s, prev).closed, StarSlashHit(s, prev))
  {
    if s != [] && prev == '*' && s[0] == '/' {
      assert StarSlashHit(s, prev)(0);
    } else if s != [] {
      var rest := s[1..];
      BlockEnds(rest, s[0]);
      ShiftHit(|rest|, 0, 1, BlockBody(rest, s[0]).len, BlockBody(rest, s[0]).closed, StarSlashHit(rest, s[0]), StarSlashHit(s, prev));
    }
  }

  // ---- Lexemes ---------------------------------------------------------------------------------------

  /** A lexeme of length `n` stops right behind the first hit, or runs to the end if there is none. */
  ghost predicate EndsAtFirst(len: nat, from: nat, n: nat, hit: int -> bool) {
    FirstHit(len, from, n, exists i :: from <= i < len && hit(i), hit)
  }

  /** The closing quotes of a literal that opens with three. */
  function ClosingTriple(s: string, q: char): int -> bool {
    (i: int) => i >= 5 && TripleAt(s, q, i)
  }

  /** How far a literal goes. Only `'` and `"` have an empty and a triple form. */
  ghost predicate LiteralEnds(s: string, n: nat)
    requires s != []
  {
    var q := s[0];
    if q == '`' || |s| == 1 || s[1] != q then EndsAtFirst(|s|, 1, n, QuoteHit(s, q))
    else if |s| == 2 || s[2] != q then n == 2
    else EndsAtFirst(|s|, 3, n, ClosingTriple(s, q))
  }

  lemma {:induction false} PlainLiteral(s: string)
    requires s != [] && s[0] != '\\'
    ensures EndsAtFirst(|s|, 1, 1 + PlainBody(s[1..], s[0]).len, QuoteHit(s, s[0]))
  {
    hide FirstHit, QuoteAt, PlainBody;
    var q, rest := s[0], s[1..];
    PlainEnds(rest, q);
    NoSlashBefore(s, 1);
    forall i | 0 <= i < |rest| ensures QuoteHit(rest, q)(i) == QuoteHit(s, q)(i + 1) {
      QuoteFrom(s, q, 1, i);
    }
    ShiftHit(|rest|, 1, 1, PlainBody(rest, q).len, PlainBody(rest, q).closed, QuoteHit(rest, q), QuoteHit(s, q));
    HitEnds(|s|, 1, 1 + PlainBody(rest, q).len, PlainBody(rest, q).closed, QuoteHit(s, q));
  }

  lemma {:induction false} HitEnds(len: nat, from: nat, n: nat, closed: bool, hit: int -> bool)
    requires FirstHit(len, from, n, closed, hit)
    ensures EndsAtFirst(len, from, n, hit)
  {
  }

  lemma {:induction false} TripleLiteral(s: string)
    requires |s| >= 3 && s[0] != '\\' && s[1] == s[0] && s[2] == s[0]
    ensures EndsAtFirst(|s|, 3, 3 + TripleBody(s[3..], s[0], 0).len, ClosingTriple(s, s[0]))
  {
    hide FirstHit, QuoteAt, TripleAt, TripleBody, Quotes, Slashes;
    var q, rest := s[0], s[3..];
    TripleEnds(rest, q, 0);
    NoQuotes(rest, q);
    NoSlashBefore(s, 3);
    forall i | 0 <= i < |rest| ensures TripleHit(rest, q)(i) == ClosingTriple(s, q)(i + 3) {
      TripleBehind(s, q, i);
    }
    var r := TripleBody(rest, q, 0);
    ShiftHit(|rest|, 3, 3, r.len, r.closed, TripleHit(rest, q), ClosingTriple(s, q));
    HitEnds(|s|, 3, 3 + r.len, r.closed, ClosingTriple(s, q));
  }

  lemma {:induction false} TripleBehind(s: string, q: char, i: nat)
    requires |s| >= 3 && Unescaped(s, 3) && i < |s| - 3
    ensures TripleAt(s[3..], q, i) <==> i >= 2 && TripleAt(s, q, i + 3)
  {
    hide Unescaped;
    if i >= 2 {
      QuoteFrom(s, q, 3, i);
      QuoteFrom(s, q, 3, i - 1);
      QuoteFrom(s, q, 3, i - 2);
    }
  }

  lemma {:induction false} NoSlashBefore(s: string, i: nat)
    requires 0 < i <= |s| && s[i - 1] != '\\'
    ensures Unescaped(s, i)
  {
  }

  /** A literal ends at its first unescaped quote, or its first three of them in a row; without any it runs to the
      end of the text. */
  lemma {:induction false} LiteralExtent(s: string)
    requires s != [] && s[0] in "'\"`"
    ensures First(s).Quoted? && First(s).text <= s && LiteralEnds(s, |First(s).text|)
  {
    hide FirstHit, PlainBody, TripleBody, EndsAtFirst;
    var q := s[0];
    if q == '`' || |s| == 1 || s[1] != q {
      PlainLiteral(s);
    } else if |s| > 2 && s[2] == q {
      TripleLiteral(s);
      assert s[1..][2..] == s[3..];
    }
  }

  /** The end of a block comment, whose opening star does not count. */
  function CommentCloses(s: string): int -> bool {
    (i: int) => 3 <= i < |s| && s[i - 1] == '*' && s[i] == '/'
  }

  lemma {:induction false} BlockExtent(s: string)
    requires |s| > 1 && s[0] == '/' && s[1] == '*'
    ensures EndsAtFirst(|s|, 2, 2 + BlockBody(s[2..], '\0').len, CommentCloses(s))
  {
    hide FirstHit, BlockBody;
    var rest := s[2..];
    BlockEnds(rest, '\0');
    var r := BlockBody(rest, '\0');
    ShiftHit(|rest|, 2, 2, r.len, r.closed, StarSlashHit(rest, '\0'), CommentCloses(s));
    HitEnds(|s|, 2, 2 + r.len, r.closed, CommentCloses(s));
  }

  lemma {:induction false} LineExtent(s: string)
    requires s != [] && s[0] != '\n'
    ensures EndsAtFirst(|s|, 1, 1 + LineBody(s[1..]).len, NewlineHit(s))
  {
    hide FirstHit, LineBody;
    var rest := s[1..];
    LineEnds(rest);
    var r := LineBody(rest);
    ShiftHit(|rest|, 1, 1, r.len, r.closed, NewlineHit(rest), NewlineHit(s));
    HitEnds(|s|, 1, 1 + r.len, r.closed, NewlineHit(s));
  }

  /** A comment ends behind its first newline, or its first star and slash; without one it runs to the end. */
  lemma {:induction false} CommentExtent(s: string)
    requires s != []
    ensures s[0] == '#' || (|s| > 1 && s[0] == '-' && s[1] == '-') ==>
              First(s).Comment? && First(s).text <= s && EndsAtFirst(|s|, 1, |First(s).text|, NewlineHit(s))
    ensures |s| > 1 && s[0] == '/' && s[1] == '*' ==>
              First(s).Comment? && First(s).text <= s && EndsAtFirst(|s|, 2, |First(s).text|, CommentCloses(s))
  {
    hide FirstHit, LineBody, BlockBody, EndsAtFirst, QuotedBody;
    if StartsBlock(s) {
      BlockExtent(s);
    } else if s[0] != '\n' {
      LineExtent(s);
    }
  }

  predicate WordChar(c: char) {
    c == '_' || 'a' <= c <= 'z' || 'A' <= c <= 'Z' || '0' <= c <= '9'
  }

  /** A word is the longest run of letters, digits and underscores; any other character that opens neither a
      literal nor a comment stands alone. */
  lemma {:induction false} WordRun(s: string)
    requires s != []
    ensures WordChar(s[0]) ==>
              var l := First(s);
              && l.Word? && l.text <= s && (forall i :: 0 <= i < |l.text| ==> WordChar(s[i]))
              && (|l.text| < |s| ==> !WordChar(s[|l.text|]))
    ensures !WordChar(s[0]) && s[0] !in "'\"`#" && s[..if |s| > 1 then 2 else 1] != "--" && s[..if |s| > 1 then 2 else 1] != "/*" ==>
              First(s) == Other(s[0])
  {
    hide QuotedBody, LineBody, BlockBody;
    if WordChar(s[0]) {
      var n := WordBody(s[1..]);
      forall i | 0 <= i < n + 1 ensures WordChar(s[i]) {
        assert i > 0 ==> s[i] == s[1..][i - 1];
      }
      assert n + 1 < |s| ==> s[n + 1] == s[1..][n];
    }
  }
}
