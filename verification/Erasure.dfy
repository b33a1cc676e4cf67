/** Comments carry no meaning: replacing each by one space changes neither the classification of a
    text nor its parameters, and splits into the same statements, comments aside. */
module Erasure {
  import opened Lexing
  import opened Trimming
  import opened Splitting
  import opened Classification

  function EraseOne(l: Lexeme): Lexeme {
    if l.Comment? then Other(' ') else l
  }

  function EraseList(ls: seq<Lexeme>): (es: seq<Lexeme>)
    ensures |es| == |ls| && forall i :: 0 <= i < |ls| ==> es[i] == EraseOne(ls[i])
  {
    seq(|ls|, i requires 0 <= i < |ls| => EraseOne(ls[i]))
  }

  /** The text with every comment replaced by one space. */
  function Erase(s: string): string {
    TextOf(EraseList(Lex(s)))
  }

  lemma {:induction false} BlankProper(l: Lexeme)
    ensures Proper(Other(' '))
    ensures Proper(l) ==> Fits(l, ' ')
  {
    if Proper(l) {
      PlainFits(l, ' ');
    }
  }

  lemma {:induction false} EraseJoins(l: Lexeme, next: Lexeme)
    requires Proper(l) && Joins(l, next)
    ensures Proper(EraseOne(l)) && Joins(EraseOne(l), EraseOne(next))
  {
    hide First;
    BlankProper(l);
  }

  lemma {:induction false} EraseCoherent(ls: seq<Lexeme>)
    requires Coherent(ls)
    ensures Coherent(EraseList(ls))
  {
    hide Proper, Joins, EraseOne;
    var es := EraseList(ls);
    forall i | 0 <= i < |es| ensures Proper(es[i]) {
      assert Proper(ls[i]);
      EraseProper(ls[i]);
    }
    forall i | 0 <= i < |es| - 1 ensures Joins(es[i], es[i + 1]) {
      EraseJoins(ls[i], ls[i + 1]);
    }
  }

  lemma {:induction false} EraseProper(l: Lexeme)
    requires Proper(l)
    ensures Proper(EraseOne(l))
  {
    BlankProper(l);
  }

  /** The erased text lexes to the lexemes with each comment turned into a space. */
  lemma {:induction false} LexErased(s: string)
    ensures Lex(Erase(s)) == EraseList(Lex(s))
  {
    hide Lex, Coherent, EraseList;
    LexCoherent(s);
    EraseCoherent(Lex(s));
    LexOfText(EraseList(Lex(s)));
  }

  /** Erasing replaces each comment by one space and nothing else. */
  lemma {:induction false} ErasureErases(s: string)
    ensures |Lex(Erase(s))| == |Lex(s)|
    ensures forall i :: 0 <= i < |Lex(s)| ==> Lex(Erase(s))[i] == if Lex(s)[i].Comment? then Other(' ') else Lex(s)[i]
  {
    hide Lex, Erase;
    LexErased(s);
  }

  // ---- Classification -------------------------------------------------------------------------------

  lemma {:induction false} EraseOneSignificant(l: Lexeme)
    ensures Significant(EraseOne(l)) <==> Significant(l)
    ensures Significant(l) ==> EraseOne(l) == l
    ensures EraseOne(l) == Semi <==> l == Semi
  {
    SpaceIsPlain(' ');
  }

  lemma {:induction false} SigErased(ls: seq<Lexeme>)
    ensures Sig(EraseList(ls)) == Sig(ls)
  {
    hide Significant, EraseOne;
    if ls != [] {
      assert EraseList(ls)[1..] == EraseList(ls[1..]);
      SigErased(ls[1..]);
      EraseOneSignificant(ls[0]);
    }
  }

  lemma {:induction false} ContextErased(ls: seq<Lexeme>)
    ensures AfterThen(EraseList(ls)) == AfterThen(ls) && CaseDepth(EraseList(ls)) == CaseDepth(ls)
  {
    hide SameName;
    if ls != [] {
      assert EraseList(ls)[..|ls| - 1] == EraseList(ls[..|ls| - 1]);
      ContextErased(ls[..|ls| - 1]);
    }
  }

  lemma {:induction false} ReturnsErased(ls: seq<Lexeme>)
    ensures ReturnsRows(EraseList(ls)) <==> ReturnsRows(ls)
  {
    hide AfterThen, CaseDepth, SameName;
    var es := EraseList(ls);
    forall i | 0 <= i < |ls| ensures ReturnAt(es, i) <==> ReturnAt(ls, i) {
      assert es[..i] == EraseList(ls[..i]);
      ContextErased(ls[..i]);
    }
  }

  /** Erasing comments changes neither the first keyword nor whether rows are returned, nor the
      significant lexemes the parameters are read from. */
  lemma {:induction false} ErasureKeepsMeaning(sql: string)
    ensures Sig(Lex(Erase(sql))) == Sig(Lex(sql))
    ensures KeywordOf(Erase(sql)) == KeywordOf(sql)
    ensures ReturnsRows(Lex(Erase(sql))) <==> ReturnsRows(Lex(sql))
  {
    hide Lex, ReturnsRows, Sig, EraseList;
    LexErased(sql);
    SigErased(Lex(sql));
    ReturnsErased(Lex(sql));
  }

  // ---- Splitting --------------------------------------------------------------------------------------

  lemma {:induction false} EraseConcat(a: seq<Lexeme>, b: seq<Lexeme>)
    ensures EraseList(a + b) == EraseList(a) + EraseList(b)
  {
  }

  lemma {:induction false} EraseOfConcat(s: string, a: seq<Lexeme>, b: seq<Lexeme>)
    requires Lex(s) == a + b
    ensures Erase(s) == TextOf(EraseList(a)) + TextOf(EraseList(b))
  {
    hide Lex, EraseList;
    EraseConcat(a, b);
    TextOfConcat(EraseList(a), EraseList(b));
  }

  lemma {:induction false} TextOfOne(l: Lexeme)
    ensures TextOf([l]) == l.Text() && TextOf([]) == []
  {
    assert TextOf([l]) == l.Text() + [];
  }

  /** Dropping a leading space from a text drops it from the erasure. */
  lemma {:induction false} EraseLeading(s: string)
    requires s != [] && IsSpace(s[0])
    ensures Trim(Erase(s)) == Trim(Erase(s[1..]))
  {
    hide Lex, IsSpace, Trim;
    assert s == [s[0]] + s[1..];
    LeadingSpace(s[0], s[1..]);
    EraseOfConcat(s, [Other(s[0])], Lex(s[1..]));
    assert EraseList([Other(s[0])]) == [Other(s[0])];
    TextOfOne(Other(s[0]));
    var rest := Erase(s[1..]);
    assert [s[0]] + rest == [s[0]] + rest + [];
    TrimIgnoresSpace([s[0]], rest, []);
  }

  /** Dropping a trailing space from a text drops it from the erasure, or from a comment. */
  lemma {:induction false} EraseTrailing(s: string)
    requires s != [] && IsSpace(s[|s| - 1])
    ensures Trim(Erase(s)) == Trim(Erase(Most(s)))
  {
    hide Lex, IsSpace, Trim, Closed;
    hide TextOf, EraseList, Erase, Shrinks;
    var pre, last, left := DropLastSpace(s);
    EraseOfConcat(s, pre, [last]);
    EraseOfConcat(Most(s), pre, left);
    ErasedTail(last, left);
    if !last.Comment? {
      LastCharOfLex(s, pre, last);
      var c := s[|s| - 1];
      assert Erase(s) == Erase(Most(s)) + [c];
      assert [] + Erase(Most(s)) + [c] == Erase(s);
      TrimIgnoresSpace([], Erase(Most(s)), [c]);
    }
  }

  /** What the erasure of the last lexeme loses with its space. */
  lemma {:induction false} ErasedTail(last: Lexeme, left: seq<Lexeme>)
    requires Shrinks(last, left)
    ensures last.Comment? ==> TextOf(EraseList([last])) == TextOf(EraseList(left))
    ensures !last.Comment? ==>
              last.Text() != [] && TextOf(EraseList([last])) == TextOf(EraseList(left)) + [last.Text()[|last.Text()| - 1]]
  {
    hide Closed, IsSpace, TextOf;
    assert EraseList([last]) == [EraseOne(last)];
    TextOfOne(EraseOne(last));
    if left != [] {
      assert left == [left[0]] && EraseList(left) == [EraseOne(left[0])];
      TextOfOne(EraseOne(left[0]));
    } else {
      assert EraseList(left) == [];
    }
  }

  lemma {:induction false} LastCharOfLex(s: string, pre: seq<Lexeme>, last: Lexeme)
    requires s != [] && Lex(s) == pre + [last] && last.Text() != []
    ensures last.Text()[|last.Text()| - 1] == s[|s| - 1]
  {
    hide Lex;
    LexCovers(s);
    TextOfConcat(pre, [last]);
    TextOfOne(last);
  }

  lemma {:induction false} EraseTrimEnd(s: string)
    ensures Trim(Erase(TrimEnd(s))) == Trim(Erase(s))
  {
    hide Lex, IsSpace, Trim, Erase;
    if s != [] && IsSpace(s[|s| - 1]) {
      EraseTrailing(s);
      EraseTrimEnd(Most(s));
    }
  }

  /** Trimming before erasing makes no difference once the result is trimmed. */
  lemma {:induction false} EraseTrim(s: string)
    ensures Trim(Erase(Trim(s))) == Trim(Erase(s))
    decreases |s|
  {
    hide Lex, IsSpace, Erase;
    if s != [] && IsSpace(s[0]) {
      EraseLeading(s);
      EraseTrim(s[1..]);
    } else {
      assert Trim(s) == TrimEnd(s);
      EraseTrimEnd(s);
    }
  }

  function ErasedStatements(statements: seq<string>): seq<string> {
    seq(|statements|, i requires 0 <= i < |statements| => Trim(Erase(statements[i])))
  }

  lemma {:induction false} HasStatementErased(ls: seq<Lexeme>)
    ensures HasStatement(EraseList(ls)) <==> HasStatement(ls)
  {
    hide Significant, EraseOne;
    SigErased(ls);
    SigEmpty(ls);
    SigEmpty(EraseList(ls));
  }

  lemma {:induction false} KeptErased(current: seq<Lexeme>)
    requires Coherent(current)
    ensures Kept(TextOf(EraseList(current))) == ErasedStatements(Kept(TextOf(current)))
  {
    hide Lex, Coherent, TextOf, Trim, HasStatement, EraseList;
    var x, y := TextOf(current), TextOf(EraseList(current));
    LexOfText(current);
    EraseCoherent(current);
    LexOfText(EraseList(current));
    HasStatementErased(current);
    TrimKeeps(x);
    TrimKeeps(y);
    assert y == Erase(x);
    EraseTrim(x);
  }

  lemma {:induction false} ErasedConcat(a: seq<string>, b: seq<string>)
    ensures ErasedStatements(a + b) == ErasedStatements(a) + ErasedStatements(b)
  {
    hide Trim, Erase;
  }

  lemma {:induction false} StatementsErased(current: seq<Lexeme>, ls: seq<Lexeme>)
    requires Coherent(current + ls)
    ensures Statements(EraseList(current), EraseList(ls)) == ErasedStatements(Statements(current, ls))
    decreases |ls|
  {
    hide Kept, TextOf, ErasedStatements, EraseOne, Coherent;
    SegmentParts(current, ls);
    KeptErased(current);
    if ls != [] {
      var tail := ls[1..];
      EraseOneSignificant(ls[0]);
      assert EraseList(ls)[1..] == EraseList(tail);
      if ls[0] == Semi {
        assert EraseList([]) == [];
        StatementsErased([], tail);
        ErasedConcat(Kept(TextOf(current)), Statements([], tail));
      } else {
        assert EraseList(current + [ls[0]]) == EraseList(current) + [EraseOne(ls[0])];
        StatementsErased(current + [ls[0]], tail);
      }
    }
  }

  /** Erasing comments splits into as many statements, each the trimmed erasure of the original. */
  lemma {:induction false} ErasureSplit(sql: string)
    ensures |Split(Erase(sql))| == |Split(sql)|
    ensures forall i :: 0 <= i < |Split(sql)| ==> Split(Erase(sql))[i] == Trim(Erase(Split(sql)[i]))
  {
    hide Lex, Statements, Erase, Trim, Coherent;
    LexErased(sql);
    LexCoherent(sql);
    assert [] + Lex(sql) == Lex(sql) && EraseList([]) == [];
    StatementsErased([], Lex(sql));
  }
}
