/** Trimming a text, and what it does to the text's lexemes: leading spaces are lexemes of their own,
    and a trailing space is either one too or the end of a comment or of an open literal, which keeps
    its kind without it. */
module Trimming {
  import opened Lexing

  function TrimStart(s: string): string {
    if s != [] && IsSpace(s[0]) then TrimStart(s[1..]) else s
  }

  function TrimEnd(s: string): string {
    if s != [] && IsSpace(s[|s| - 1]) then TrimEnd(s[..|s| - 1]) else s
  }

  function Trim(s: string): string {
    TrimEnd(TrimStart(s))
  }

  predicate Trimmed(s: string) {
    s != [] ==> !IsSpace(s[0]) && !IsSpace(s[|s| - 1])
  }

  predicate AllSpace(s: string) {
    forall i :: 0 <= i < |s| ==> IsSpace(s[i])
  }

  lemma {:induction false} TrimStartSplits(s: string) returns (lead: string)
    ensures AllSpace(lead) && s == lead + TrimStart(s)
    ensures TrimStart(s) != [] ==> !IsSpace(TrimStart(s)[0])
  {
    if s != [] && IsSpace(s[0]) {
      var l := TrimStartSplits(s[1..]);
      lead := [s[0]] + l;
      assert s == [s[0]] + (l + TrimStart(s[1..])) == lead + TrimStart(s);
    } else {
      lead := [];
      assert s == [] + s;
    }
  }

  lemma {:induction false} TrimEndSplits(s: string) returns (trail: string)
    ensures AllSpace(trail) && s == TrimEnd(s) + trail
    ensures TrimEnd(s) != [] ==> !IsSpace(TrimEnd(s)[|TrimEnd(s)| - 1]) && TrimEnd(s)[0] == s[0]
  {
    if s != [] && IsSpace(s[|s| - 1]) {
      var t := TrimEndSplits(s[..|s| - 1]);
      trail := t + [s[|s| - 1]];
      assert s == (TrimEnd(s[..|s| - 1]) + t) + [s[|s| - 1]] == TrimEnd(s) + trail;
    } else {
      trail := [];
      assert s == s + [];
    }
  }

  /** A text is spaces, its trimmed self, and spaces. */
  lemma {:induction false} TrimSplits(s: string) returns (lead: string, trail: string)
    ensures AllSpace(lead) && AllSpace(trail) && Trimmed(Trim(s))
    ensures s == lead + Trim(s) + trail
  {
    lead := TrimStartSplits(s);
    trail := TrimEndSplits(TrimStart(s));
    assert lead + (Trim(s) + trail) == lead + Trim(s) + trail;
  }

  lemma {:induction false} TrimOfTrimmed(s: string)
    requires Trimmed(s)
    ensures Trim(s) == s
  {
  }

  lemma {:induction false} TrimStartDropsSpace(lead: string, s: string)
    requires AllSpace(lead)
    ensures TrimStart(lead + s) == TrimStart(s)
  {
    if lead == [] {
      assert lead + s == s;
    } else {
      assert (lead + s)[1..] == lead[1..] + s;
      TrimStartDropsSpace(lead[1..], s);
    }
  }

  lemma {:induction false} TrimEndDropsSpace(s: string, trail: string)
    requires AllSpace(trail)
    ensures TrimEnd(s + trail) == TrimEnd(s)
  {
    if trail == [] {
      assert s + trail == s;
    } else {
      assert (s + trail)[..|s + trail| - 1] == s + trail[..|trail| - 1];
      TrimEndDropsSpace(s, trail[..|trail| - 1]);
    }
  }

  lemma {:induction false} TrimAllSpace(s: string)
    requires AllSpace(s)
    ensures TrimStart(s) == [] && Trim(s) == []
  {
    if s != [] {
      TrimAllSpace(s[1..]);
    }
  }

  lemma {:induction false} TrimStartKeepsTail(s: string, trail: string)
    requires TrimStart(s) != []
    ensures TrimStart(s + trail) == TrimStart(s) + trail
  {
    if IsSpace(s[0]) {
      assert (s + trail)[1..] == s[1..] + trail;
      TrimStartKeepsTail(s[1..], trail);
    }
  }

  /** Spaces around a text do not change what it trims to. */
  lemma {:induction false} TrimIgnoresSpace(lead: string, s: string, trail: string)
    requires AllSpace(lead) && AllSpace(trail)
    ensures Trim(lead + s + trail) == Trim(s)
  {
    assert lead + s + trail == lead + (s + trail);
    TrimStartDropsSpace(lead, s + trail);
    if TrimStart(s) == [] {
      var l := TrimStartSplits(s);
      assert AllSpace(s + trail);
      TrimAllSpace(s + trail);
    } else {
      TrimStartKeepsTail(s, trail);
      TrimEndDropsSpace(TrimStart(s), trail);
    }
  }

  // ---- The lexemes of a trimmed text ----------------------------------------------------------------

  lemma {:induction false} LeadingSpace(c: char, s: string)
    requires IsSpace(c)
    ensures Lex([c] + s) == [Other(c)] + Lex(s)
  {
    SpaceIsPlain(c);
    assert ([c] + s)[1..] == s;
  }

  lemma {:induction false} PlainPrefix(s: string, q: char, k: nat)
    requires k <= |s| && (k < PlainBody(s, q).len || !PlainBody(s, q).closed)
    ensures PlainBody(s[..k], q) == Scan(k, false)
  {
    if k > 0 {
      if s[0] == '\\' {
        if |s| > 1 && k > 1 {
          PlainPrefix(s[2..], q, k - 2);
          assert s[..k][2..] == s[2..][..k - 2];
        }
      } else {
        PlainPrefix(s[1..], q, k - 1);
        assert s[..k][1..] == s[1..][..k - 1];
      }
    }
  }

  lemma {:induction false} TriplePrefix(s: string, q: char, run: nat, k: nat)
    requires k <= |s| && (k < TripleBody(s, q, run).len || !TripleBody(s, q, run).closed)
    ensures TripleBody(s[..k], q, run) == Scan(k, false)
  {
    if k > 0 {
      if s[0] == '\\' {
        if |s| > 1 && k > 1 {
          TriplePrefix(s[2..], q, 0, k - 2);
          assert s[..k][2..] == s[2..][..k - 2];
        }
      } else {
        TriplePrefix(s[1..], q, if s[0] == q then run + 1 else 0, k - 1);
        assert s[..k][1..] == s[1..][..k - 1];
      }
    }
  }

  lemma {:induction false} LinePrefix(s: string, k: nat)
    requires k <= |s| && (k < LineBody(s).len || !LineBody(s).closed)
    ensures LineBody(s[..k]) == Scan(k, false)
  {
    if k > 0 {
      LinePrefix(s[1..], k - 1);
      assert s[..k][1..] == s[1..][..k - 1];
    }
  }

  lemma {:induction false} BlockPrefix(s: string, prev: char, k: nat)
    requires k <= |s| && (k < BlockBody(s, prev).len || !BlockBody(s, prev).closed)
    ensures BlockBody(s[..k], prev) == Scan(k, false)
  {
    if k > 0 {
      BlockPrefix(s[1..], s[0], k - 1);
      assert s[..k][1..] == s[1..][..k - 1];
    }
  }

  lemma {:induction false} PlainEndsInQuote(s: string, q: char)
    requires q != '\\' && PlainBody(s, q) == Scan(|s|, true)
    ensures s != [] && s[|s| - 1] == q
  {
    if s[0] == '\\' {
      PlainEndsInQuote(s[2..], q);
    } else if s[0] != q {
      PlainEndsInQuote(s[1..], q);
    }
  }

  lemma {:induction false} TripleEndsInQuote(s: string, q: char, run: nat)
    requires q != '\\' && TripleBody(s, q, run) == Scan(|s|, true)
    ensures s != [] && s[|s| - 1] == q
  {
    if s[0] == '\\' {
      TripleEndsInQuote(s[2..], q, 0);
    } else if s[0] != q {
      TripleEndsInQuote(s[1..], q, 0);
    } else if run + 1 != 3 {
      TripleEndsInQuote(s[1..], q, run + 1);
    }
  }

  lemma {:induction false} BlockEndsInSlash(s: string, prev: char)
    requires BlockBody(s, prev) == Scan(|s|, true)
    ensures s != [] && s[|s| - 1] == '/'
  {
    if !(prev == '*' && s[0] == '/') {
      BlockEndsInSlash(s[1..], s[0]);
    }
  }

  function Most(s: string): string
    requires s != []
  {
    s[..|s| - 1]
  }

  lemma {:induction false} ProperQuoted(t: string)
    requires t != [] && IsQuote(t[0])
    ensures Proper(Quoted(t)) <==> QuotedBody(t[1..], t[0]).len == |t| - 1
  {
    assert t[..|t|] == t;
  }

  lemma {:induction false} CommentStarts(t: string)
    requires t != [] && Proper(Comment(t))
    ensures StartsBlock(t) || StartsDashes(t) || t[0] == '#'
  {
  }

  lemma {:induction false} ProperLine(t: string)
    requires StartsDashes(t) || (t != [] && t[0] == '#')
    ensures Proper(Comment(t)) <==> LineBody(t[1..]).len == |t| - 1
  {
    assert t[..|t|] == t;
  }

  lemma {:induction false} ProperBlock(t: string)
    requires StartsBlock(t)
    ensures Proper(Comment(t)) <==> BlockBody(t[2..], '\0').len == |t| - 2
  {
    assert t[..|t|] == t;
  }

  /** The body of a literal that ends in a space is open, also without the space. */
  lemma {:induction false} QuotedBodyShrinks(s: string, q: char)
    requires s != [] && q != '\\' && QuotedBody(s, q).len == |s| && s[|s| - 1] != q
    ensures QuotedBody(s, q) == Scan(|s|, false)
    ensures QuotedBody(Most(s), q) == Scan(|s| - 1, false)
  {
    var k := |s| - 1;
    if q != '`' && s[0] == q {
      var body := s[2..];
      assert body[|body| - 1] == s[k];
      if TripleBody(body, q, 0).closed {
        TripleEndsInQuote(body, q, 0);
      }
      TriplePrefix(body, q, 0, k - 2);
      assert s[..k][2..] == body[..k - 2];
    } else {
      if PlainBody(s, q).closed {
        PlainEndsInQuote(s, q);
      }
      PlainPrefix(s, q, k);
    }
  }

  /** A literal that ends in a space is open, and stays an open literal without it. */
  lemma {:induction false} ShrinkQuoted(l: Lexeme)
    requires l.Quoted? && Proper(l) && IsSpace(l.text[|l.text| - 1])
    ensures |l.text| > 1 && !Closed(l)
    ensures Proper(Quoted(Most(l.text))) && !Closed(Quoted(Most(l.text)))
  {
    var t, q := l.text, l.text[0];
    assert IsQuote(q);
    hide First, IsSpace, IsIdent, PlainBody, TripleBody, QuotedBody;
    SpaceIsPlain(t[|t| - 1]);
    ProperQuoted(t);
    var s := t[1..];
    assert s[|s| - 1] == t[|t| - 1];
    QuotedBodyShrinks(s, q);
    assert Most(t)[1..] == Most(s);
    ProperQuoted(Most(t));
  }

  /** A comment that ends in a space stays a comment without it; only an open block comment or a line
      comment can end in a space. */
  lemma {:induction false} ShrinkComment(l: Lexeme)
    requires l.Comment? && Proper(l) && IsSpace(l.text[|l.text| - 1])
    ensures |l.text| > 1 && Proper(Comment(Most(l.text)))
    ensures StartsBlock(l.text) ==> !Closed(l)
    ensures StartsBlock(Most(l.text)) <==> StartsBlock(l.text)
  {
    var t := l.text;
    if StartsBlock(t) {
      ShrinkBlock(t);
    } else {
      ShrinkLine(t);
    }
  }

  lemma {:induction false} ShrinkBlock(t: string)
    requires StartsBlock(t) && Proper(Comment(t)) && IsSpace(t[|t| - 1])
    ensures !Closed(Comment(t)) && StartsBlock(Most(t)) && Proper(Comment(Most(t)))
  {
    SpaceIsPlain(t[|t| - 1]);
    var s := t[2..];
    ProperBlock(t);
    assert s[|s| - 1] == t[|t| - 1];
    if BlockBody(s, '\0').closed {
      BlockEndsInSlash(s, '\0');
    }
    BlockPrefix(s, '\0', |s| - 1);
    assert Most(t)[2..] == Most(s);
    ProperBlock(Most(t));
  }

  lemma {:induction false} ShrinkLine(t: string)
    requires t != [] && !StartsBlock(t) && Proper(Comment(t)) && IsSpace(t[|t| - 1])
    ensures |t| > 1 && !StartsBlock(Most(t)) && Proper(Comment(Most(t)))
  {
    hide First, LineBody, IsSpace, IsIdent, IsQuote;
    CommentStarts(t);
    SpaceIsPlain(t[|t| - 1]);
    var s := t[1..];
    ProperLine(t);
    LinePrefix(s, |s| - 1);
    assert Most(t)[1..] == Most(s);
    ProperLine(Most(t));
  }

  /** What dropping one trailing space does to the last lexeme. */
  predicate Shrinks(last: Lexeme, left: seq<Lexeme>) {
    || (last.Other? && IsSpace(last.c) && left == [])
    || (last.Quoted? && !Closed(last) && |left| == 1 && left[0].Quoted? && !Closed(left[0])
        && |last.text| > 1 && left[0].text == Most(last.text))
    || (last.Comment? && |left| == 1 && left[0].Comment? && |last.text| > 1
        && left[0].text == Most(last.text)
        && (StartsBlock(left[0].text) <==> StartsBlock(last.text))
        && (StartsBlock(last.text) ==> !Closed(last)))
  }

  /** The last lexeme of a text ends where the text ends. */
  lemma {:induction false} LastText(s: string) returns (pre: seq<Lexeme>, last: Lexeme)
    requires s != []
    ensures Lex(s) == pre + [last] && Coherent(pre + [last]) && Proper(last)
    ensures TextOf(pre) + last.Text() == s
  {
    hide Lex, First, Closed, Fits;
    LexCoherent(s);
    LexCovers(s);
    var ls := Lex(s);
    pre, last := ls[..|ls| - 1], ls[|ls| - 1];
    assert ls == pre + [last];
    TextOfConcat(pre, [last]);
    assert TextOf([last]) == last.Text() + [];
  }

  lemma {:induction false} WordEndsInIdent(l: Lexeme)
    requires l.Word? && Proper(l)
    ensures IsIdent(l.text[|l.text| - 1])
  {
    var n := |l.text| - 1;
    if n > 0 {
      assert WordBody(l.text[1..]) == n;
      assert l.text[1..][n - 1] == l.text[n];
    }
  }

  /** A lexeme that ends in a space, without it. */
  lemma {:induction false} ShrinkLast(last: Lexeme) returns (left: seq<Lexeme>)
    requires Proper(last) && IsSpace(last.Text()[|last.Text()| - 1])
    ensures Shrinks(last, left) && TextOf(left) == Most(last.Text())
    ensures left != [] ==> Proper(left[0]) && left[0].Text()[0] == last.Text()[0]
  {
    SpaceIsPlain(last.Text()[|last.Text()| - 1]);
    match last {
      case Word(_) =>
        WordEndsInIdent(last);
        assert false;
      case Other(_) =>
        left := [];
      case Quoted(text) =>
        ShrinkQuoted(last);
        left := [Quoted(Most(text))];
        assert TextOf(left) == Most(text) + [];
      case Comment(text) =>
        ShrinkComment(last);
        left := [Comment(Most(text))];
        assert TextOf(left) == Most(text) + [];
    }
  }

  lemma {:induction false} ReplaceLast(pre: seq<Lexeme>, last: Lexeme, left: seq<Lexeme>)
    requires Coherent(pre + [last]) && |left| <= 1 && last.Text() != []
    requires left != [] ==> Proper(left[0]) && left[0].Text()[0] == last.Text()[0]
    ensures Coherent(pre + left)
  {
    var ls := pre + [last];
    ChainSlice(ls, 0, |pre|, Proper, Joins);
    assert ls[0..|pre|] == pre;
    if pre != [] && left != [] {
      assert Joins(ls[|pre| - 1], ls[|pre|]);
    }
    ChainConcat(pre, left, Proper, Joins);
  }

  /** Dropping one trailing space from a text. */
  lemma {:induction false} DropLastSpace(s: string) returns (pre: seq<Lexeme>, last: Lexeme, left: seq<Lexeme>)
    requires s != [] && IsSpace(s[|s| - 1])
    ensures Lex(s) == pre + [last] && Lex(Most(s)) == pre + left && Shrinks(last, left)
  {
    hide Lex, First, TextOf, Closed, Fits;
    pre, last := LastText(s);
    left := ShrinkLast(last);
    ReplaceLast(pre, last, left);
    TextOfConcat(pre, left);
    assert TextOf(pre + left) == Most(s);
    LexOfText(pre + left);
  }
}
