/** The GoogleSQL lexer: what the next lexeme of a text is, and when two texts may be joined without the
    lexemes changing (the seam lemma). The object that produces the lexemes is in `LexerLoop`. */
module Lexing {

  datatype Lexeme =
    | Word(text: string)
    | Quoted(text: string)
    | Comment(text: string)
    | Other(c: char)
  {
    function Text(): string {
      if Other? then [c] else text
    }
  }

  /** The ranges of Unicode `White_Space`. */
  function SpaceRanges(): seq<(char, char)> {
    [('\t', '\r'), (' ', ' '), ('\U{85}', '\U{85}'), ('\U{A0}', '\U{A0}'), ('\U{1680}', '\U{1680}'),
     ('\U{2000}', '\U{200A}'), ('\U{2028}', '\U{2029}'), ('\U{202F}', '\U{202F}'),
     ('\U{205F}', '\U{205F}'), ('\U{3000}', '\U{3000}')]
  }

  predicate IsSpace(c: char) {
    exists i :: 0 <= i < |SpaceRanges()| && SpaceRanges()[i].0 <= c <= SpaceRanges()[i].1
  }

  predicate IsLetter(c: char) {
    'a' <= c <= 'z' || 'A' <= c <= 'Z'
  }

  predicate IsIdent(c: char) {
    c == '_' || IsLetter(c) || '0' <= c <= '9'
  }

  predicate IsQuote(c: char) {
    c == '\'' || c == '"' || c == '`'
  }

  /** No space means anything to the lexer; newline and blank are spaces. */
  lemma {:induction false} SpaceIsPlain(c: char)
    ensures IsSpace(c) ==> !IsQuote(c) && !IsIdent(c) && c !in "-#/*;@{}\\"
    ensures IsSpace('\n') && IsSpace(' ')
  {
    assert SpaceRanges()[0] == ('\t', '\r') && SpaceRanges()[1] == (' ', ' ');
  }

  // ---- Where literals, comments and words end -----------------------------------------------------

  /** How far a scan ran, and whether it met its terminator. */
  datatype Scan = Scan(len: nat, closed: bool)
  {
    function Plus(n: nat): Scan {
      this.(len := len + n)
    }
  }

  /** The body of a singly quoted literal, its closing quote included. A backslash binds the
      character after it. */
  function PlainBody(s: string, q: char): (r: Scan)
    ensures (s != [] ==> r.len > 0) && r.len <= |s| && (!r.closed ==> r.len == |s|)
  {
    if s == [] then Scan(0, false)
    else if s[0] == '\\' then (if |s| == 1 then Scan(1, false) else PlainBody(s[2..], q).Plus(2))
    else if s[0] == q then Scan(1, true)
    else PlainBody(s[1..], q).Plus(1)
  }

  /** The body of a triply quoted literal after `run` closing quotes in a row. */
  function TripleBody(s: string, q: char, run: nat): (r: Scan)
    ensures (s != [] ==> r.len > 0) && r.len <= |s| && (!r.closed ==> r.len == |s|)
  {
    if s == [] then Scan(0, false)
    else if s[0] == '\\' then (if |s| == 1 then Scan(1, false) else TripleBody(s[2..], q, 0).Plus(2))
    else if s[0] == q then (if run + 1 == 3 then Scan(1, true) else TripleBody(s[1..], q, run + 1).Plus(1))
    else TripleBody(s[1..], q, 0).Plus(1)
  }

  /** What follows an opening quote. A second quote makes the literal empty, a third one makes it
      triply quoted; backticks are never triple. */
  function QuotedBody(s: string, q: char): (r: Scan)
    ensures (s != [] ==> r.len > 0) && r.len <= |s| && (!r.closed ==> r.len == |s|)
  {
    if q != '`' && s != [] && s[0] == q then
      (if |s| > 1 && s[1] == q then TripleBody(s[2..], q, 0).Plus(2) else Scan(1, true))
    else PlainBody(s, q)
  }

  /** A line comment's rest, its newline included. */
  function LineBody(s: string): (r: Scan)
    ensures (s != [] ==> r.len > 0) && r.len <= |s| && (!r.closed ==> r.len == |s|)
  {
    if s == [] then Scan(0, false)
    else if s[0] == '\n' then Scan(1, true)
    else LineBody(s[1..]).Plus(1)
  }

  /** A block comment's rest after its opening. */
  function BlockBody(s: string, prev: char): (r: Scan)
    ensures (s != [] ==> r.len > 0) && r.len <= |s| && (!r.closed ==> r.len == |s|)
  {
    if s == [] then Scan(0, false)
    else if prev == '*' && s[0] == '/' then Scan(1, true)
    else BlockBody(s[1..], s[0]).Plus(1)
  }

  function WordBody(s: string): (n: nat)
    ensures n <= |s|
    ensures forall i :: 0 <= i < n ==> IsIdent(s[i])
    ensures n < |s| ==> !IsIdent(s[n])
  {
    if s != [] && IsIdent(s[0]) then 1 + WordBody(s[1..]) else 0
  }

  // ---- The next lexeme ----------------------------------------------------------------------------

  predicate StartsDashes(s: string) {
    |s| > 1 && s[0] == '-' && s[1] == '-'
  }

  predicate StartsBlock(s: string) {
    |s| > 1 && s[0] == '/' && s[1] == '*'
  }

  function FirstLen(s: string): (n: nat)
    requires s != []
    ensures 1 <= n <= |s|
  {
    if IsQuote(s[0]) then 1 + QuotedBody(s[1..], s[0]).len
    else if StartsDashes(s) || s[0] == '#' then 1 + LineBody(s[1..]).len
    else if StartsBlock(s) then 2 + BlockBody(s[2..], '\0').len
    else if IsIdent(s[0]) then 1 + WordBody(s[1..])
    else 1
  }

  /** The lexeme a non-empty text begins with. */
  function First(s: string): (l: Lexeme)
    requires s != []
    ensures |l.Text()| > 0 && l.Text() <= s
  {
    var text := s[..FirstLen(s)];
    if IsQuote(s[0]) then Quoted(text)
    else if StartsDashes(s) || s[0] == '#' || StartsBlock(s) then Comment(text)
    else if IsIdent(s[0]) then Word(text)
    else Other(s[0])
  }

  function Lex(s: string): (ls: seq<Lexeme>) {
    if s == [] then [] else [First(s)] + Lex(s[|First(s).Text()|..])
  }

  function TextOf(ls: seq<Lexeme>): string {
    if ls == [] then [] else ls[0].Text() + TextOf(ls[1..])
  }

  /** The lexemes partition the text: nothing is lost, added or reordered. */
  lemma {:induction false} LexCovers(s: string)
    ensures TextOf(Lex(s)) == s
  {
    if s != [] {
      var l := First(s);
      LexCovers(s[|l.Text()|..]);
      assert Lex(s)[1..] == Lex(s[|l.Text()|..]);
      assert s == l.Text() + s[|l.Text()|..];
    }
  }

  // ---- Closed lexemes and the characters that may follow them -------------------------------------

  /** Whether a lexeme has met its own terminator (words and single characters need none). */
  predicate Closed(l: Lexeme) {
    match l
    case Word(_) | Other(_) => true
    case Quoted(text) => text != [] && QuotedBody(text[1..], text[0]).closed
    case Comment(text) =>
      text != [] &&
      if StartsBlock(text) then BlockBody(text[2..], '\0').closed else LineBody(text[1..]).closed
  }

  /** Whether `c` right after a closed lexeme leaves the lexeme as it is. */
  predicate Fits(l: Lexeme, c: char) {
    match l
    case Word(_) => !IsIdent(c)
    case Quoted(text) => !(|text| == 2 && text[0] != '`' && c == text[0])
    case Comment(_) => true
    case Other(d) => !(d == '-' && c == '-') && !(d == '/' && c == '*')
  }

  /** A lexeme that is what its own text lexes to. */
  predicate Proper(l: Lexeme) {
    l.Text() != [] && First(l.Text()) == l
  }

  lemma {:induction false} PlainWhole(s: string, rest: string, q: char)
    ensures var r := PlainBody(s, q); PlainBody(s[..r.len], q) == r
    ensures PlainBody(s, q) == Scan(|s|, true) ==> PlainBody(s + rest, q) == Scan(|s|, true)
  {
    var n := PlainBody(s, q).len;
    if s != [] && s[0] == '\\' && |s| > 1 {
      PlainWhole(s[2..], rest, q);
      assert s[..n][2..] == s[2..][..n - 2] && (s + rest)[2..] == s[2..] + rest;
    } else if s != [] && s[0] != '\\' && s[0] != q {
      PlainWhole(s[1..], rest, q);
      assert s[..n][1..] == s[1..][..n - 1] && (s + rest)[1..] == s[1..] + rest;
    }
  }

  lemma {:induction false} TripleWhole(s: string, rest: string, q: char, run: nat)
    ensures var r := TripleBody(s, q, run); TripleBody(s[..r.len], q, run) == r
    ensures TripleBody(s, q, run) == Scan(|s|, true) ==> TripleBody(s + rest, q, run) == Scan(|s|, true)
  {
    var n := TripleBody(s, q, run).len;
    if s != [] && s[0] == '\\' && |s| > 1 {
      TripleWhole(s[2..], rest, q, 0);
      assert s[..n][2..] == s[2..][..n - 2] && (s + rest)[2..] == s[2..] + rest;
    } else if s != [] && s[0] != '\\' && !(s[0] == q && run + 1 == 3) {
      TripleWhole(s[1..], rest, q, if s[0] == q then run + 1 else 0);
      assert s[..n][1..] == s[1..][..n - 1] && (s + rest)[1..] == s[1..] + rest;
    }
  }

  lemma {:induction false} LineWhole(s: string, rest: string)
    ensures var r := LineBody(s); LineBody(s[..r.len]) == r
    ensures LineBody(s) == Scan(|s|, true) ==> LineBody(s + rest) == Scan(|s|, true)
  {
    var n := LineBody(s).len;
    if s != [] && s[0] != '\n' {
      LineWhole(s[1..], rest);
      assert s[..n][1..] == s[1..][..n - 1] && (s + rest)[1..] == s[1..] + rest;
    }
  }

  lemma {:induction false} BlockWhole(s: string, rest: string, prev: char)
    ensures var r := BlockBody(s, prev); BlockBody(s[..r.len], prev) == r
    ensures BlockBody(s, prev) == Scan(|s|, true) ==> BlockBody(s + rest, prev) == Scan(|s|, true)
  {
    var n := BlockBody(s, prev).len;
    if s != [] && !(prev == '*' && s[0] == '/') {
      BlockWhole(s[1..], rest, s[0]);
      assert s[..n][1..] == s[1..][..n - 1] && (s + rest)[1..] == s[1..] + rest;
    }
  }

  lemma {:induction false} QuotedWhole(s: string, rest: string, q: char)
    ensures var r := QuotedBody(s, q); QuotedBody(s[..r.len], q) == r
    ensures QuotedBody(s, q) == Scan(|s|, true) ==>
              QuotedBody(s + rest, q) == Scan(|s|, true) || (q != '`' && s == [q] && rest != [] && rest[0] == q)
  {
    var n := QuotedBody(s, q).len;
    if q != '`' && s != [] && s[0] == q {
      if |s| > 1 && s[1] == q {
        TripleWhole(s[2..], rest, q, 0);
        assert s[..n][2..] == s[2..][..n - 2] && (s + rest)[2..] == s[2..] + rest;
      }
    } else {
      PlainWhole(s, rest, q);
    }
  }

  lemma {:induction false} WordExtent(s: string, n: nat)
    requires n <= |s| && (forall i :: 0 <= i < n ==> IsIdent(s[i])) && (n < |s| ==> !IsIdent(s[n]))
    ensures WordBody(s) == n
  {
  }

  /** The first lexeme of a text stands on its own. */
  lemma {:induction false} FirstProper(s: string)
    requires s != []
    ensures Proper(First(s))
  {
    var n := FirstLen(s);
    var t := s[..n];
    if IsQuote(s[0]) {
      QuotedWhole(s[1..], [], s[0]);
      assert t[1..] == s[1..][..n - 1];
    } else if StartsDashes(s) || s[0] == '#' {
      LineWhole(s[1..], []);
      assert t[1..] == s[1..][..n - 1];
    } else if StartsBlock(s) {
      BlockWhole(s[2..], [], '\0');
      assert t[2..] == s[2..][..n - 2];
    } else if IsIdent(s[0]) {
      assert t[1..] == s[1..][..n - 1];
      WordExtent(t[1..], n - 1);
    }
  }

  /** A lexeme that stops before the end of the text is closed, and what follows fits. */
  lemma {:induction false} FirstThen(s: string)
    requires s != [] && FirstLen(s) < |s|
    ensures Closed(First(s)) && Fits(First(s), s[FirstLen(s)])
  {
    var n := FirstLen(s);
    var t := s[..n];
    if IsQuote(s[0]) {
      QuotedWhole(s[1..], [], s[0]);
      assert t[1..] == s[1..][..n - 1];
      assert n == 2 ==> s[1..][1] == s[2];
    } else if StartsDashes(s) || s[0] == '#' {
      LineWhole(s[1..], []);
      assert t[1..] == s[1..][..n - 1];
    } else if StartsBlock(s) {
      BlockWhole(s[2..], [], '\0');
      assert t[2..] == s[2..][..n - 2];
    }
  }

  /** Conversely, a closed lexeme followed by something that fits is the first lexeme. */
  lemma {:induction false} FirstOf(l: Lexeme, rest: string)
    requires Proper(l) && (rest != [] ==> Closed(l) && Fits(l, rest[0]))
    ensures First(l.Text() + rest) == l
  {
    hide First, FirstLen, Closed, Fits;
    var t := l.Text();
    if rest == [] {
      assert t + rest == t;
    } else {
      ExtentOf(l, rest);
      SameStart(t, rest, l);
    }
  }

  /** Behind a closed lexeme the scan stops where the lexeme does. */
  lemma {:induction false} ExtentOf(l: Lexeme, rest: string)
    requires Proper(l) && rest != [] && Closed(l) && Fits(l, rest[0])
    ensures FirstLen(l.Text() + rest) == |l.Text()|
    ensures StartsDashes(l.Text() + rest) == StartsDashes(l.Text()) && StartsBlock(l.Text() + rest) == StartsBlock(l.Text())
  {
    hide QuotedBody, LineBody, BlockBody;
    var t := l.Text();
    var s := t + rest;
    assert s[1..] == t[1..] + rest;
    if IsQuote(t[0]) {
      QuotedWhole(t[1..], rest, t[0]);
    } else if StartsDashes(t) || t[0] == '#' {
      LineWhole(t[1..], rest);
    } else if StartsBlock(t) {
      BlockWhole(t[2..], rest, '\0');
      assert s[2..] == t[2..] + rest;
    } else if IsIdent(t[0]) {
      WordExtent(s[1..], |t| - 1);
    }
  }

  lemma {:induction false} SameStart(t: string, rest: string, l: Lexeme)
    requires t != [] && First(t) == l && l.Text() == t && FirstLen(t + rest) == |t|
    requires StartsDashes(t + rest) == StartsDashes(t) && StartsBlock(t + rest) == StartsBlock(t)
    ensures First(t + rest) == l
  {
    hide FirstLen, IsQuote, IsIdent, StartsDashes, StartsBlock;
    assert (t + rest)[..|t|] == t;
  }

  /** A character that starts nothing and continues nothing fits every lexeme. */
  lemma {:induction false} PlainFits(l: Lexeme, c: char)
    requires Proper(l) && !IsIdent(c) && !IsQuote(c) && c != '-' && c != '*'
    ensures Fits(l, c)
  {
    if l.Quoted? {
      assert IsQuote(l.text[0]);
    }
  }

  // ---- Lists of lexemes that read back -------------------------------------------------------------

  /** All elements are good and neighbours join. */
  predicate Chain<T>(xs: seq<T>, good: T -> bool, joins: (T, T) -> bool) {
    && (forall i :: 0 <= i < |xs| ==> good(xs[i]))
    && (forall i :: 0 <= i < |xs| - 1 ==> joins(xs[i], xs[i + 1]))
  }

  lemma {:induction false} ChainConcat<T>(a: seq<T>, b: seq<T>, good: T -> bool, joins: (T, T) -> bool)
    requires Chain(a, good, joins) && Chain(b, good, joins)
    requires a != [] && b != [] ==> joins(a[|a| - 1], b[0])
    ensures Chain(a + b, good, joins)
  {
    var ab := a + b;
    forall i | 0 <= i < |ab| - 1 ensures joins(ab[i], ab[i + 1]) {
      if i + 1 < |a| {
        assert joins(a[i], a[i + 1]);
      } else if i >= |a| {
        assert joins(b[i - |a|], b[i - |a| + 1]);
      }
    }
  }

  lemma {:induction false} ChainSlice<T>(xs: seq<T>, i: nat, j: nat, good: T -> bool, joins: (T, T) -> bool)
    requires Chain(xs, good, joins) && i <= j <= |xs|
    ensures Chain(xs[i..j], good, joins)
  {
    var ys := xs[i..j];
    forall k | 0 <= k < |ys| - 1 ensures joins(ys[k], ys[k + 1]) {
      assert joins(xs[i + k], xs[i + k + 1]);
    }
  }

  /** `l` is closed and keeps its extent in front of `next`. */
  predicate Joins(l: Lexeme, next: Lexeme) {
    Closed(l) && next.Text() != [] && Fits(l, next.Text()[0])
  }

  /** Every lexeme stands on its own, and each but the last is closed and fits what follows. */
  predicate Coherent(ls: seq<Lexeme>) {
    Chain(ls, Proper, Joins)
  }

  /** A coherent list of lexemes reads back from its text; `LexCoherent` is the converse. */
  lemma {:induction false} LexOfText(ls: seq<Lexeme>)
    requires Coherent(ls)
    ensures Lex(TextOf(ls)) == ls
  {
    if ls != [] {
      var tail := ls[1..];
      ChainSlice(ls, 1, |ls|, Proper, Joins);
      LexOfText(tail);
      assert Proper(ls[0]);
      if tail != [] {
        assert Joins(ls[0], ls[1]) && TextOf(tail)[0] == tail[0].Text()[0];
      }
      FirstOf(ls[0], TextOf(tail));
      assert TextOf(ls)[|ls[0].Text()|..] == TextOf(tail);
    }
  }

  /** What a text lexes to is always coherent. */
  lemma {:induction false} LexCoherent(s: string)
    ensures Coherent(Lex(s))
  {
    if s != [] {
      var l := First(s);
      var n := |l.Text()|;
      FirstProper(s);
      LexCoherent(s[n..]);
      assert n == FirstLen(s);
      if n < |s| {
        FirstThen(s);
      }
      assert Coherent([l]);
      ChainConcat([l], Lex(s[n..]), Proper, Joins);
    }
  }

  lemma {:induction false} TextOfConcat(a: seq<Lexeme>, b: seq<Lexeme>)
    ensures TextOf(a + b) == TextOf(a) + TextOf(b)
  {
    if a == [] {
      assert a + b == b;
    } else {
      assert (a + b)[1..] == a[1..] + b;
      TextOfConcat(a[1..], b);
    }
  }

  /** Joining two texts is safe: the left one's last lexeme is closed and the right one's first
      character fits it. Unsafe are an open literal or comment, two halves of a word, `-` before
      `-`, `/` before `*`, and an empty literal before its own quote. */
  predicate SafeSeam(a: string, b: string) {
    a == [] || b == [] ||
    (Lex(a) != [] && Closed(Lex(a)[|Lex(a)| - 1]) && Fits(Lex(a)[|Lex(a)| - 1], b[0]))
  }

  lemma {:induction false} SafeSeamLexes(a: string, b: string)
    requires a != [] && b != [] && SafeSeam(a, b)
    ensures Lex(a + b) == Lex(a) + Lex(b)
  {
    LexCoherent(a);
    LexCoherent(b);
    ChainConcat(Lex(a), Lex(b), Proper, Joins);
    LexOfText(Lex(a) + Lex(b));
    TextOfConcat(Lex(a), Lex(b));
    LexCovers(a);
    LexCovers(b);
  }

  lemma {:induction false} LexedSeamSafe(a: string, b: string)
    requires a != [] && b != [] && Lex(a + b) == Lex(a) + Lex(b)
    ensures SafeSeam(a, b)
  {
    LexCoherent(a + b);
    var k := |Lex(a)| - 1;
    assert Joins(Lex(a + b)[k], Lex(a + b)[k + 1]);
  }

  /** The seam lemma: lexing a joined text is lexing the two parts exactly when the seam is safe. */
  lemma {:induction false} Seam(a: string, b: string)
    ensures Lex(a + b) == Lex(a) + Lex(b) <==> SafeSeam(a, b)
  {
    if a == [] {
      assert a + b == b && [] + Lex(b) == Lex(b);
    } else if b == [] {
      assert a + b == a && Lex(a) + [] == Lex(a);
    } else if SafeSeam(a, b) {
      SafeSeamLexes(a, b);
    } else if Lex(a + b) == Lex(a) + Lex(b) {
      LexedSeamSafe(a, b);
    }
  }
}
