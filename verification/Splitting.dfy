/** Splitting a SQL text into statements at its top-level semicolons, and stripping the terminators of
    a single statement. */
module Splitting {
  import opened Lexing
  import opened LexerLoop
  import opened Trimming

  const Semi := Other(';')

  /** A lexeme that makes a segment a statement: anything but comments and spaces. */
  predicate Significant(l: Lexeme) {
    match l
    case Comment(_) => false
    case Other(c) => !IsSpace(c)
    case _ => true
  }

  predicate HasStatement(ls: seq<Lexeme>) {
    exists i :: 0 <= i < |ls| && Significant(ls[i])
  }

  predicate NoSemi(ls: seq<Lexeme>) {
    forall i :: 0 <= i < |ls| ==> ls[i] != Semi
  }

  /** What one segment contributes: its trimmed text, unless it carries no statement. */
  function Kept(segment: string): seq<string> {
    if HasStatement(Lex(Trim(segment))) then [Trim(segment)] else []
  }

  /** The statements of the lexemes `ls` after those of `current`, which belong to the same segment. */
  function Statements(current: seq<Lexeme>, ls: seq<Lexeme>): seq<string>
    decreases |ls|
  {
    if ls == [] then Kept(TextOf(current))
    else if ls[0] == Semi then Kept(TextOf(current)) + Statements([], ls[1..])
    else Statements(current + [ls[0]], ls[1..])
  }

  function Split(sql: string): seq<string> {
    Statements([], Lex(sql))
  }

  /** `push_statement`. */
  method PushStatement(current: string) returns (kept: seq<string>)
    ensures kept == Kept(current)
  {
    hide Lex, Trim, Significant;
    var trimmed := Trim(current);
    var ls := Tokens(trimmed);
    var i := 0;
    while i < |ls|
      invariant 0 <= i <= |ls|
      invariant forall j :: 0 <= j < i ==> !Significant(ls[j])
    {
      if Significant(ls[i]) {
        return [trimmed];
      }
      i := i + 1;
    }
    return [];
  }

  method SplitStatements(sql: string) returns (statements: seq<string>)
    ensures statements == Split(sql)
  {
    hide Lex, Kept, Statements, TextOf;
    var lexer := new Lexer(sql);
    statements := [];
    var current := [];
    ghost var segment: seq<Lexeme> := [];
    ghost var rest := sql;
    assert TextOf([]) == [] by { EmptyLexes(); }
    while true
      invariant lexer.Valid() && lexer.input == sql && lexer.Rest() == rest
      invariant current == TextOf(segment)
      invariant Split(sql) == statements + Statements(segment, Lex(rest))
      decreases |rest|
    {
      var next := lexer.Next();
      if next.None? {
        break;
      }
      var l := next.value;
      Unlex(rest);
      StatementsStep(segment, Lex(rest));
      if l == Semi {
        var kept := PushStatement(current);
        statements := statements + kept;
        current, segment := [], [];
      } else {
        TextOfConcat(segment, [l]);
        TextOfLexeme(l);
        current, segment := current + l.Text(), segment + [l];
      }
      rest := rest[|l.Text()|..];
    }
    EmptyLexes();
    StatementsStep(segment, []);
    var kept := PushStatement(current);
    statements := statements + kept;
  }

  lemma {:induction false} StatementsStep(current: seq<Lexeme>, ls: seq<Lexeme>)
    ensures ls == [] ==> Statements(current, ls) == Kept(TextOf(current))
    ensures ls != [] && ls[0] == Semi ==> Statements(current, ls) == Kept(TextOf(current)) + Statements([], ls[1..])
    ensures ls != [] && ls[0] != Semi ==> Statements(current, ls) == Statements(current + [ls[0]], ls[1..])
  {
  }

  lemma {:induction false} TextOfLexeme(l: Lexeme)
    ensures TextOf([l]) == l.Text()
  {
    assert TextOf([l]) == l.Text() + [];
  }

  lemma {:induction false} EmptyLexes()
    ensures Lex([]) == [] && TextOf([]) == []
  {
  }

  lemma {:induction false} Unlex(s: string)
    requires s != []
    ensures Lex(s) != [] && Lex(s)[0] == First(s) && Lex(s)[1..] == Lex(s[|First(s).Text()|..])
  {
  }

  /** `strip_trailing_terminators`: the result means the same statements; a single statement comes out bare,
      without terminators or surrounding space, and anything else unchanged. */
  method StripTrailingTerminators(sql: string) returns (r: string)
    ensures r == Strip(sql) && Strip(r) == r
    ensures Split(r) == Split(sql)
    ensures if |Split(sql)| == 1 then IsStatement(r) else r == sql
  {
    hide Split, IsStatement;
    var statements := SplitStatements(sql);
    StripIdempotent(sql);
    SplitIsStatements(sql);
    r := if |statements| == 1 then statements[0] else sql;
  }

  function Strip(sql: string): string {
    if |Split(sql)| == 1 then Split(sql)[0] else sql
  }

  /** A segment is blank exactly when it holds nothing but comments and white space. */
  lemma {:induction false} BlankMeans(ls: seq<Lexeme>)
    ensures !HasStatement(ls) <==> forall i :: 0 <= i < |ls| ==> ls[i].Comment? || (ls[i].Other? && IsSpace(ls[i].c))
  {
    hide IsSpace;
    if !HasStatement(ls) {
      assert forall i :: 0 <= i < |ls| ==> !Significant(ls[i]);
    }
  }

  // ---- Trimming a segment -----------------------------------------------------------------------------

  /** Properties of a text that survive dropping a space at either end. */
  lemma {:induction false} DropLeadingKeeps(s: string)
    requires s != [] && IsSpace(s[0])
    ensures HasStatement(Lex(s)) <==> HasStatement(Lex(s[1..]))
    ensures NoSemi(Lex(s)) ==> NoSemi(Lex(s[1..]))
  {
    hide Lex, IsSpace;
    assert s == [s[0]] + s[1..];
    LeadingSpace(s[0], s[1..]);
    ConsKeeps(Other(s[0]), Lex(s[1..]));
  }

  lemma {:induction false} ConcatKeeps(a: seq<Lexeme>, b: seq<Lexeme>)
    ensures HasStatement(a + b) <==> HasStatement(a) || HasStatement(b)
    ensures NoSemi(a + b) <==> NoSemi(a) && NoSemi(b)
  {
    hide Significant;
    var ab := a + b;
    assert forall i :: 0 <= i < |a| ==> ab[i] == a[i];
    assert forall i :: 0 <= i < |b| ==> ab[|a| + i] == b[i];
    if i :| 0 <= i < |b| && Significant(b[i]) {
      assert Significant(ab[|a| + i]);
    }
  }

  lemma {:induction false} ConsKeeps(l: Lexeme, ls: seq<Lexeme>)
    ensures HasStatement([l] + ls) <==> Significant(l) || HasStatement(ls)
    ensures NoSemi([l] + ls) <==> l != Semi && NoSemi(ls)
  {
    hide Significant;
    ConcatKeeps([l], ls);
    assert [l][0] == l;
  }

  lemma {:induction false} DropTrailingKeeps(s: string)
    requires s != [] && IsSpace(s[|s| - 1])
    ensures HasStatement(Lex(s)) <==> HasStatement(Lex(Most(s)))
    ensures NoSemi(Lex(s)) ==> NoSemi(Lex(Most(s)))
  {
    hide Lex, IsSpace;
    var pre, last, left := DropLastSpace(s);
    ConcatKeeps(pre, [last]);
    ConcatKeeps(pre, left);
    ConsKeeps(last, []);
    assert [last] == [last] + [];
    if left != [] {
      ConsKeeps(left[0], []);
      assert left == [left[0]] + [];
    }
  }

  /** Trimming neither adds nor removes anything significant, nor a top-level semicolon. */
  lemma {:induction false} TrimKeeps(s: string)
    ensures HasStatement(Lex(Trim(s))) <==> HasStatement(Lex(s))
    ensures NoSemi(Lex(s)) ==> NoSemi(Lex(Trim(s)))
    decreases |s|
  {
    hide Lex, IsSpace;
    if s != [] && IsSpace(s[0]) {
      DropLeadingKeeps(s);
      TrimKeeps(s[1..]);
    } else {
      TrimEndKeeps(s);
    }
  }

  lemma {:induction false} TrimEndKeeps(s: string)
    ensures HasStatement(Lex(TrimEnd(s))) <==> HasStatement(Lex(s))
    ensures NoSemi(Lex(s)) ==> NoSemi(Lex(TrimEnd(s)))
  {
    hide Lex, IsSpace;
    if s != [] && IsSpace(s[|s| - 1]) {
      DropTrailingKeeps(s);
      TrimEndKeeps(Most(s));
    }
  }

  // ---- Splitting is a retraction ------------------------------------------------------------------------

  /** What every produced statement is: trimmed, with no top-level semicolon, and not blank. */
  predicate IsStatement(t: string) {
    Trimmed(t) && NoSemi(Lex(t)) && HasStatement(Lex(t))
  }

  lemma {:induction false} KeptIsStatement(segment: string)
    requires NoSemi(Lex(segment))
    ensures forall t :: t in Kept(segment) ==> IsStatement(t)
  {
    hide Lex;
    TrimKeeps(segment);
    var lead, trail := TrimSplits(segment);
  }

  /** The parts of a coherent list at which a segment may end. */
  lemma {:induction false} SegmentParts(current: seq<Lexeme>, ls: seq<Lexeme>)
    requires Coherent(current + ls)
    ensures Coherent(current)
    ensures ls != [] ==> Coherent([] + ls[1..]) && Coherent((current + [ls[0]]) + ls[1..])
  {
    hide Chain;
    var all := current + ls;
    ChainSlice(all, 0, |current|, Proper, Joins);
    assert all[0..|current|] == current;
    if ls != [] {
      ChainSlice(all, |current| + 1, |all|, Proper, Joins);
      assert all[|current| + 1..|all|] == [] + ls[1..];
      assert (current + [ls[0]]) + ls[1..] == all;
    }
  }

  lemma {:induction false} StatementsAreStatements(current: seq<Lexeme>, ls: seq<Lexeme>)
    requires Coherent(current + ls) && NoSemi(current)
    ensures forall t :: t in Statements(current, ls) ==> IsStatement(t)
    decreases |ls|
  {
    hide Lex, Kept, Coherent, IsStatement;
    SegmentParts(current, ls);
    LexOfText(current);
    KeptIsStatement(TextOf(current));
    if ls != [] {
      if ls[0] == Semi {
        StatementsAreStatements([], ls[1..]);
      } else {
        StatementsAreStatements(current + [ls[0]], ls[1..]);
      }
    }
  }

  /** Every statement of a split is trimmed, carries a statement and has no top-level semicolon. */
  lemma {:induction false} SplitIsStatements(sql: string)
    ensures forall t :: t in Split(sql) ==> IsStatement(t)
  {
    hide Lex, IsStatement;
    LexCoherent(sql);
    assert [] + Lex(sql) == Lex(sql);
    StatementsAreStatements([], Lex(sql));
  }

  lemma {:induction false} StatementsWithoutSemi(current: seq<Lexeme>, ls: seq<Lexeme>)
    requires NoSemi(ls)
    ensures Statements(current, ls) == Kept(TextOf(current + ls))
    decreases |ls|
  {
    hide Kept, TextOf;
    if ls == [] {
      assert current + ls == current;
    } else {
      assert (current + [ls[0]]) + ls[1..] == current + ls;
      StatementsWithoutSemi(current + [ls[0]], ls[1..]);
    }
  }

  lemma {:induction false} SplitOfStatement(t: string)
    requires IsStatement(t)
    ensures Split(t) == [t]
  {
    hide Lex, TextOf;
    StatementsWithoutSemi([], Lex(t));
    assert [] + Lex(t) == Lex(t);
    LexCovers(t);
    TrimOfTrimmed(t);
  }

  /** Re-splitting a produced statement yields just that statement. */
  lemma {:induction false} ReSplit(sql: string)
    ensures forall t :: t in Split(sql) ==> Split(t) == [t]
  {
    hide Lex, Split;
    SplitIsStatements(sql);
    forall t | t in Split(sql) ensures Split(t) == [t] {
      SplitOfStatement(t);
    }
  }

  /** Stripping terminators is idempotent and never changes the split. */
  lemma {:induction false} StripIdempotent(sql: string)
    ensures Split(Strip(sql)) == Split(sql)
    ensures Strip(Strip(sql)) == Strip(sql)
  {
    hide Split;
    ReSplit(sql);
    if |Split(sql)| == 1 {
      assert Split(sql)[0] in Split(sql);
      assert Split(sql) == [Split(sql)[0]];
    }
  }
}
