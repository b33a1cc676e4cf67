/** Joining the statements of a split and splitting again, and what a split leaves out. */
module Joining {
  import opened Lexing
  import opened Trimming
  import opened Splitting

  const Separator := "\n;\n"

  function Join(statements: seq<string>): string {
    if statements == [] then []
    else if |statements| == 1 then statements[0]
    else statements[0] + Separator + Join(statements[1..])
  }

  /** A lexeme that a newline would not close: an open literal or block comment. */
  predicate HardOpen(l: Lexeme) {
    !Closed(l) && !(l.Comment? && !StartsBlock(l.text))
  }

  predicate CleanList(ls: seq<Lexeme>) {
    ls != [] ==> !HardOpen(ls[|ls| - 1])
  }

  predicate CleanEnd(s: string) {
    CleanList(Lex(s))
  }

  lemma {:induction false} TrimEndClean(s: string)
    requires CleanEnd(s)
    ensures CleanEnd(TrimEnd(s))
  {
    hide Lex, IsSpace, Closed, Proper;
    if s != [] && IsSpace(s[|s| - 1]) {
      var pre, last, left := DropLastSpace(s);
      LexCoherent(s);
      assert Lex(s)[|pre|] == last;
      if left == [] {
        assert pre + left == pre;
        if pre != [] {
          assert Lex(s)[|pre| - 1] == pre[|pre| - 1];
          assert Joins(Lex(s)[|pre| - 1], Lex(s)[|pre|]);
        }
      } else {
        assert (pre + left)[|pre|] == left[0];
      }
      TrimEndClean(Most(s));
    }
  }

  lemma {:induction false} TrimClean(s: string)
    requires CleanEnd(s)
    ensures CleanEnd(Trim(s))
    decreases |s|
  {
    hide Lex, IsSpace, HardOpen;
    if s != [] && IsSpace(s[0]) {
      assert s == [s[0]] + s[1..];
      LeadingSpace(s[0], s[1..]);
      if Lex(s[1..]) != [] {
        assert Lex(s)[|Lex(s)| - 1] == Lex(s[1..])[|Lex(s[1..])| - 1];
      }
      TrimClean(s[1..]);
    } else {
      TrimEndClean(s);
    }
  }

  /** Every statement but the last of a split can be followed by a newline. */
  predicate CleanButLast(statements: seq<string>) {
    forall i :: 0 <= i < |statements| - 1 ==> CleanEnd(statements[i])
  }

  lemma {:induction false} SegmentClean(current: seq<Lexeme>, ls: seq<Lexeme>)
    requires Coherent(current + ls) && ls != []
    ensures CleanEnd(Trim(TextOf(current)))
  {
    hide Lex, Proper, Closed, Fits, TextOf;
    var all := current + ls;
    ChainSlice(all, 0, |current|, Proper, Joins);
    assert all[0..|current|] == current;
    LexOfText(current);
    if current != [] {
      assert Joins(all[|current| - 1], all[|current|]);
    }
    TrimClean(TextOf(current));
  }

  lemma {:induction false} StatementsCleanButLast(current: seq<Lexeme>, ls: seq<Lexeme>)
    requires Coherent(current + ls)
    ensures CleanButLast(Statements(current, ls))
    decreases |ls|
  {
    hide Lex, Coherent, CleanEnd, TextOf;
    SegmentParts(current, ls);
    if ls != [] {
      if ls[0] == Semi {
        StatementsCleanButLast([], ls[1..]);
        SegmentClean(current, ls);
      } else {
        StatementsCleanButLast(current + [ls[0]], ls[1..]);
      }
    }
  }

  // ---- Closing a statement with a newline --------------------------------------------------------------

  lemma {:induction false} NewlineClosesLine(s: string)
    requires LineBody(s) == Scan(|s|, false)
    ensures LineBody(s + "\n") == Scan(|s| + 1, true)
  {
    if s != [] {
      assert (s + "\n")[1..] == s[1..] + "\n";
      NewlineClosesLine(s[1..]);
    }
  }

  /** An open line comment takes the newline in. */
  lemma {:induction false} NewlineClosesComment(t: string)
    requires t != [] && Proper(Comment(t)) && !StartsBlock(t) && !Closed(Comment(t))
    ensures Proper(Comment(t + "\n")) && Closed(Comment(t + "\n"))
  {
    CommentStarts(t);
    ProperLine(t);
    NewlineClosesLine(t[1..]);
    assert (t + "\n")[1..] == t[1..] + "\n";
    ProperLine(t + "\n");
  }

  /** The lexemes of a text followed by a newline end in one that nothing can extend. */
  lemma {:induction false} EndWithNewline(t: string) returns (pre: seq<Lexeme>, last: Lexeme)
    requires CleanEnd(t)
    ensures Lex(t + "\n") == pre + [last]
    ensures Closed(last) && (last.Comment? || last == Other('\n'))
    ensures NoSemi(Lex(t)) ==> NoSemi(pre)
  {
    hide Lex, First, Fits, QuotedBody, LineBody, BlockBody;
    assert Lex("\n") == [Other('\n')] by { NewlineLexes(); }
    if t == [] {
      pre, last := [], Other('\n');
      assert t + "\n" == "\n" && [] + [last] == [last];
    } else {
      var before, end := LastText(t);
      assert Lex(t)[|before|] == end;
      if Closed(end) {
        PlainFits(end, '\n');
        assert "\n"[0] == '\n' && SafeSeam(t, "\n");
        Seam(t, "\n");
        pre, last := Lex(t), Other('\n');
        assert Lex(t + "\n") == pre + [last];
      } else {
        NewlineClosesComment(end.text);
        pre, last := before, Comment(end.text + "\n");
        ReplaceLast(before, end, [last]);
        LexOfText(before + [last]);
        TextOfConcat(before, [last]);
        assert TextOf([last]) == last.text + [];
        assert TextOf(before + [last]) == TextOf(before) + (end.text + "\n");
        assert TextOf(before) + (end.text + "\n") == t + "\n";
        ConcatKeeps(before, [end]);
      }
    }
  }

  lemma {:induction false} NewlineLexes()
    ensures Lex("\n") == [Other('\n')]
  {
    assert "\n"[1..] == [];
  }

  lemma {:induction false} SemiLexes(rest: string)
    ensures Lex(";" + rest) == [Semi] + Lex(rest)
  {
    assert (";" + rest)[1..] == rest;
  }

  lemma {:induction false} StatementsAtSemi(current: seq<Lexeme>, a: seq<Lexeme>, b: seq<Lexeme>)
    requires NoSemi(a)
    ensures Statements(current, a + ([Semi] + b)) == Kept(TextOf(current + a)) + Statements([], b)
    decreases |a|
  {
    hide Kept, TextOf;
    if a == [] {
      assert a + ([Semi] + b) == [Semi] + b && current + a == current && ([Semi] + b)[1..] == b;
    } else {
      assert (a + ([Semi] + b))[1..] == a[1..] + ([Semi] + b);
      assert (current + [a[0]]) + a[1..] == current + a;
      StatementsAtSemi(current + [a[0]], a[1..], b);
    }
  }

  lemma {:induction false} KeptIgnoresSpace(lead: string, s: string, trail: string)
    requires AllSpace(lead) && AllSpace(trail)
    ensures Kept(lead + s + trail) == Kept(s)
  {
    hide Lex;
    TrimIgnoresSpace(lead, s, trail);
  }

  /** A space in front of a segment changes nothing. */
  lemma {:induction false} SpaceBeforeSegment(c: char, current: seq<Lexeme>, ls: seq<Lexeme>)
    requires IsSpace(c)
    ensures Statements([Other(c)] + current, ls) == Statements(current, ls)
    decreases |ls|
  {
    hide Kept, IsSpace;
    TextOfConcat([Other(c)], current);
    assert TextOf([Other(c)]) == [c] + [];
    assert [c] + TextOf(current) == [c] + TextOf(current) + [];
    KeptIgnoresSpace([c], TextOf(current), []);
    if ls != [] && ls[0] != Semi {
      assert ([Other(c)] + current) + [ls[0]] == [Other(c)] + (current + [ls[0]]);
      SpaceBeforeSegment(c, current + [ls[0]], ls[1..]);
    }
  }

  lemma {:induction false} SplitIgnoresNewline(rest: string)
    ensures Split("\n" + rest) == Split(rest)
  {
    hide Lex, IsSpace;
    SpaceIsPlain('\n');
    LeadingSpace('\n', rest);
    assert ([Other('\n')] + Lex(rest))[1..] == Lex(rest);
    assert [] + [Other('\n')] == [Other('\n')] + [];
    SpaceIsPlain(';');
    SpaceBeforeSegment('\n', [], Lex(rest));
  }

  /** A finished statement splits off in front of whatever follows the separator. */
  lemma {:induction false} SplitAtSeparator(t: string, rest: string)
    requires IsStatement(t) && CleanEnd(t)
    ensures Split(t + Separator + rest) == [t] + Split(rest)
  {
    hide Lex, IsSpace, CleanEnd, Kept, Statements, Closed;
    var u := t + "\n";
    var pre, last := EndWithNewline(t);
    var after := ";" + ("\n" + rest);
    SemiLexes("\n" + rest);
    assert Lex(u)[|pre|] == last;
    assert Fits(last, ';');
    Seam(u, after);
    assert t + Separator + rest == u + after;
    ConcatKeeps(pre, [last]);
    ConsKeeps(last, []);
    assert [last] + [] == [last];
    StatementsAtSemi([], Lex(u), Lex("\n" + rest));
    assert [] + Lex(u) == Lex(u);
    LexCovers(u);
    KeptOfClosed(t);
    SplitIgnoresNewline(rest);
  }

  lemma {:induction false} KeptOfClosed(t: string)
    requires IsStatement(t)
    ensures Kept(t + "\n") == [t]
  {
    hide Lex, IsSpace;
    SpaceIsPlain('\n');
    TrimIgnoresSpace([], t, "\n");
    assert [] + t + "\n" == t + "\n";
    TrimOfTrimmed(t);
  }

  lemma {:induction false} JoinOfStatements(statements: seq<string>)
    requires CleanButLast(statements)
    requires forall t :: t in statements ==> IsStatement(t)
    ensures Split(Join(statements)) == statements
  {
    hide Split, IsStatement, CleanEnd;
    if statements == [] {
      assert Split([]) == [] by { SplitEmpty(); }
    } else {
      var t := statements[0];
      assert t in statements;
      if |statements| == 1 {
        SplitOfStatement(t);
        assert statements == [t];
      } else {
        var tail := statements[1..];
        assert forall i :: 0 <= i < |tail| ==> tail[i] == statements[i + 1];
        SplitAtSeparator(t, Join(tail));
        JoinOfStatements(tail);
        assert statements == [t] + tail;
      }
    }
  }

  lemma {:induction false} SplitEmpty()
    ensures Split([]) == []
  {
  }

  /** Joining the statements of a text with a semicolon between newlines and splitting again gives
      the same statements. */
  lemma {:induction false} JoinSplit(sql: string)
    ensures Split(Join(Split(sql))) == Split(sql)
  {
    hide Lex, CleanButLast, IsStatement, Statements;
    SplitIsStatements(sql);
    LexCoherent(sql);
    assert [] + Lex(sql) == Lex(sql);
    StatementsCleanButLast([], Lex(sql));
    JoinOfStatements(Split(sql));
  }

  // ---- What a split leaves out --------------------------------------------------------------------------

  /** The lexemes that carry no statement: comments, spaces and top-level semicolons. */
  predicate Filler(l: Lexeme) {
    !Significant(l) || l == Semi
  }

  predicate AllFiller(ls: seq<Lexeme>) {
    forall i :: 0 <= i < |ls| ==> Filler(ls[i])
  }

  predicate Gap(g: string) {
    AllFiller(Lex(g))
  }

  /** Gaps and statements, alternating. */
  function Weave(gaps: seq<string>, statements: seq<string>): string
    requires |gaps| == |statements| + 1
  {
    if statements == [] then gaps[0]
    else gaps[0] + statements[0] + Weave(gaps[1..], statements[1..])
  }

  predicate AllGaps(gaps: seq<string>) {
    forall i :: 0 <= i < |gaps| ==> Gap(gaps[i])
  }

  lemma {:induction false} FillerConcat(a: seq<Lexeme>, b: seq<Lexeme>)
    ensures AllFiller(a + b) <==> AllFiller(a) && AllFiller(b)
  {
    hide Filler;
    assert forall i :: 0 <= i < |a| ==> (a + b)[i] == a[i];
    assert forall i :: 0 <= i < |b| ==> (a + b)[|a| + i] == b[i];
  }

  lemma {:induction false} SpaceThenGap(spaces: string, g: string)
    requires AllSpace(spaces) && Gap(g)
    ensures Gap(spaces + g)
  {
    hide Lex, IsSpace;
    if spaces == [] {
      assert spaces + g == g;
    } else {
      var c, rest := spaces[0], spaces[1..] + g;
      SpaceThenGap(spaces[1..], g);
      assert spaces + g == [c] + rest;
      LeadingSpace(c, rest);
      FillerConcat([Other(c)], Lex(rest));
    }
  }

  lemma {:induction false} SpaceIsGap(spaces: string)
    requires AllSpace(spaces)
    ensures Gap(spaces)
  {
    hide IsSpace;
    assert spaces + [] == spaces && Lex([]) == [];
    SpaceThenGap(spaces, []);
  }

  lemma {:induction false} SemiThenGap(g: string)
    requires Gap(g)
    ensures Gap(";" + g)
  {
    hide Lex, IsSpace;
    SemiLexes(g);
    FillerConcat([Semi], Lex(g));
  }

  /** A segment without a statement, then a semicolon, then a gap, is a gap. */
  lemma {:induction false} BlankSegmentGap(current: seq<Lexeme>, ls: seq<Lexeme>, g: string)
    requires Coherent(current + ls) && ls != [] && ls[0] == Semi && Gap(g)
    requires !HasStatement(current)
    ensures Gap(TextOf(current) + (";" + g))
  {
    hide Lex, Closed, Fits, Proper, IsSpace, TextOf;
    var all, x := current + ls, TextOf(current);
    ChainSlice(all, 0, |current|, Proper, Joins);
    assert all[0..|current|] == current;
    LexOfText(current);
    if current != [] {
      assert Joins(all[|current| - 1], all[|current|]);
      assert (";" + g)[0] == ';';
    }
    SemiThenGap(g);
    SemiLexes(g);
    if current == [] {
      assert x == [] by { EmptyText(); }
      assert x + (";" + g) == ";" + g;
    } else {
      Seam(x, ";" + g);
      FillerConcat(current, Lex(";" + g));
    }
  }

  lemma {:induction false} EmptyText()
    ensures TextOf([]) == []
  {
  }

  /** One segment: either its statement between two blanks, or a gap. */
  lemma {:induction false} SegmentWeave(current: seq<Lexeme>) returns (gaps: seq<string>)
    requires Coherent(current)
    ensures |gaps| == |Kept(TextOf(current))| + 1 <= 2 && AllGaps(gaps)
    ensures Weave(gaps, Kept(TextOf(current))) == TextOf(current)
    ensures |gaps| == 2 ==> AllSpace(gaps[1])
    ensures |gaps| == 1 ==> !HasStatement(current)
  {
    hide Lex, IsSpace, TextOf, Proper, Joins;
    var x := TextOf(current);
    LexOfText(current);
    TrimKeeps(x);
    if HasStatement(current) {
      var lead, trail := TrimSplits(x);
      gaps := [lead, trail];
      SpaceIsGap(lead);
      SpaceIsGap(trail);
      assert gaps[1..] == [trail] && Kept(x)[1..] == [];
    } else {
      gaps := [x];
    }
  }

  lemma {:induction false} StatementsWeave(current: seq<Lexeme>, ls: seq<Lexeme>) returns (gaps: seq<string>)
    requires Coherent(current + ls)
    ensures |gaps| == |Statements(current, ls)| + 1 && AllGaps(gaps)
    ensures Weave(gaps, Statements(current, ls)) == TextOf(current + ls)
    decreases |ls|
  {
    hide Lex, Kept, IsSpace, TextOf, Coherent, Gap;
    SegmentParts(current, ls);
    var own := SegmentWeave(current);
    if ls == [] {
      gaps := own;
      assert current + ls == current;
    } else if ls[0] != Semi {
      assert current + ls == (current + [ls[0]]) + ls[1..];
      gaps := StatementsWeave(current + [ls[0]], ls[1..]);
    } else {
      var rest := StatementsWeave([], ls[1..]);
      assert [] + ls[1..] == ls[1..];
      SemiText(current, ls);
      gaps := GlueSegment(current, ls, own, rest, Statements([], ls[1..]));
    }
  }

  /** A segment's weave in front of the weave of what follows its semicolon. */
  lemma {:induction false} GlueSegment(
      current: seq<Lexeme>, ls: seq<Lexeme>, own: seq<string>, rest: seq<string>, statements: seq<string>)
    returns (gaps: seq<string>)
    requires Coherent(current + ls) && ls != [] && ls[0] == Semi
    requires |own| == |Kept(TextOf(current))| + 1 <= 2 && AllGaps(own)
    requires Weave(own, Kept(TextOf(current))) == TextOf(current)
    requires |own| == 2 ==> AllSpace(own[1])
    requires |own| == 1 ==> !HasStatement(current)
    requires |rest| == |statements| + 1 && AllGaps(rest)
    ensures |gaps| == |Kept(TextOf(current)) + statements| + 1 && AllGaps(gaps)
    ensures Weave(gaps, Kept(TextOf(current)) + statements) == TextOf(current) + (";" + Weave(rest, statements))
  {
    hide Lex, Kept, IsSpace, TextOf, Coherent, Gap, Significant;
    var x, kept, g := TextOf(current), Kept(TextOf(current)), ";" + rest[0];
    if |own| == 2 {
      gaps := [own[0], own[1] + g] + rest[1..];
      SemiThenGap(rest[0]);
      SpaceThenGap(own[1], g);
      assert kept == [kept[0]] && own[1..] == [own[1]] && kept[1..] == [];
    } else {
      gaps := [x + g] + rest[1..];
      assert kept == [] && kept + statements == statements && own[0] == x;
      BlankSegmentGap(current, ls, rest[0]);
      assert x + g == (x + ";") + rest[0];
      assert (x + ";") + Weave(rest, statements) == x + (";" + Weave(rest, statements));
    }
  }

  lemma {:induction false} SemiText(current: seq<Lexeme>, ls: seq<Lexeme>)
    requires ls != [] && ls[0] == Semi
    ensures TextOf(current + ls) == TextOf(current) + (";" + TextOf(ls[1..]))
  {
    TextOfConcat(current, ls);
  }

  /** A split loses nothing: the text is its statements, verbatim and in order, with only comments,
      spaces and top-level semicolons around them. */
  lemma {:induction false} SplitWeaves(sql: string) returns (gaps: seq<string>)
    ensures |gaps| == |Split(sql)| + 1 && AllGaps(gaps)
    ensures sql == Weave(gaps, Split(sql))
  {
    hide Lex, AllGaps, Weave, Statements, Coherent;
    LexCoherent(sql);
    assert [] + Lex(sql) == Lex(sql);
    gaps := StatementsWeave([], Lex(sql));
    LexCovers(sql);
  }
}
