/** The lexer as an object: a cursor that loops move over the text, proved to yield exactly the
    lexemes of `Lexing.Lex`. */
module LexerLoop {
  import opened Wrappers
  import opened Lexing

  class Lexer {
    const input: string
    var pos: nat

    ghost predicate Valid()
      reads this
    {
      pos <= |input|
    }

    ghost function Rest(): string
      reads this
      requires Valid()
    {
      input[pos..]
    }

    constructor (sql: string)
      ensures input == sql && pos == 0 && Valid()
    {
      input, pos := sql, 0;
    }

    /** Runs to the end of a literal whose opening quote has just been read. */
    method ConsumeQuoted(quote: char)
      requires Valid()
      modifies this`pos
      ensures Valid() && pos == old(pos) + QuotedBody(old(Rest()), quote).len
    {
      var triple := false;
      if quote != '`' && pos < |input| && input[pos] == quote {
        pos := pos + 1;
        if pos < |input| && input[pos] == quote {
          pos := pos + 1;
          triple := true;
        } else {
          return;
        }
      }
      ghost var start := pos;
      assert triple ==> old(Rest())[2..] == input[start..];
      var closingRun := 0;
      while pos < |input|
        invariant start <= pos <= |input|
        invariant closingRun < 3
        invariant triple ==> start + TripleBody(input[start..], quote, 0).len
                             == pos + TripleBody(input[pos..], quote, closingRun).len
        invariant !triple ==> start + PlainBody(input[start..], quote).len == pos + PlainBody(input[pos..], quote).len
      {
        ghost var body := input[pos..];
        var ch := input[pos];
        pos := pos + 1;
        assert input[pos..] == body[1..];
        if ch == '\\' {
          if pos < |input| {
            pos := pos + 1;
            assert input[pos..] == body[2..];
          }
          closingRun := 0;
        } else if ch == quote {
          if !triple {
            return;
          }
          closingRun := closingRun + 1;
          if closingRun == 3 {
            return;
          }
        } else {
          closingRun := 0;
        }
      }
    }

    /** Runs past the newline that ends a line comment, or to the end of the input. */
    method ConsumeLineComment()
      requires Valid()
      modifies this`pos
      ensures Valid() && pos == old(pos) + LineBody(old(Rest())).len
    {
      ghost var start := pos;
      while pos < |input|
        invariant start <= pos <= |input|
        invariant start + LineBody(input[start..]).len == pos + LineBody(input[pos..]).len
      {
        ghost var body := input[pos..];
        var ch := input[pos];
        pos := pos + 1;
        assert input[pos..] == body[1..];
        if ch == '\n' {
          break;
        }
      }
    }

    /** Runs past the end of a block comment whose opening has been read. */
    method ConsumeBlockComment()
      requires Valid()
      modifies this`pos
      ensures Valid() && pos == old(pos) + BlockBody(old(Rest()), '\0').len
    {
      ghost var start := pos;
      var prev := '\0';
      while pos < |input|
        invariant start <= pos <= |input|
        invariant start + BlockBody(input[start..], '\0').len == pos + BlockBody(input[pos..], prev).len
      {
        ghost var body := input[pos..];
        var ch := input[pos];
        pos := pos + 1;
        assert input[pos..] == body[1..];
        if prev == '*' && ch == '/' {
          break;
        }
        prev := ch;
      }
    }

    method ConsumeWord()
      requires Valid()
      modifies this`pos
      ensures Valid() && pos == old(pos) + WordBody(old(Rest()))
    {
      ghost var start := pos;
      while pos < |input| && IsIdent(input[pos])
        invariant start <= pos <= |input|
        invariant forall i :: start <= i < pos ==> IsIdent(input[i])
      {
        pos := pos + 1;
      }
      WordExtent(input[start..], pos - start);
    }

    /** The iterator's step. */
    method Next() returns (l: Option<Lexeme>)
      requires Valid()
      modifies this`pos
      ensures Valid()
      ensures l.None? <==> old(Rest()) == []
      ensures l.None? ==> pos == old(pos)
      ensures l.Some? ==> l.value == First(old(Rest())) && pos == old(pos) + |l.value.Text()|
    {
      if pos == |input| {
        return None;
      }
      var start := pos;
      var c := input[pos];
      ghost var s := Rest();
      pos := pos + 1;
      assert Rest() == s[1..];
      if IsQuote(c) {
        ConsumeQuoted(c);
        l := Some(Quoted(input[start..pos]));
      } else if (c == '-' && pos < |input| && input[pos] == '-') || c == '#' {
        ConsumeLineComment();
        l := Some(Comment(input[start..pos]));
      } else if c == '/' && pos < |input| && input[pos] == '*' {
        pos := pos + 1;
        assert Rest() == s[2..];
        ConsumeBlockComment();
        l := Some(Comment(input[start..pos]));
      } else if IsIdent(c) {
        ConsumeWord();
        l := Some(Word(input[start..pos]));
      } else {
        l := Some(Other(c));
      }
      assert input[start..pos] == s[..pos - start];
      assert pos == start + FirstLen(s);
    }
  }

  /** Every lexeme of a text, in order. */
  method Tokens(sql: string) returns (ls: seq<Lexeme>)
    ensures ls == Lex(sql) && TextOf(ls) == sql
  {
    var lexer := new Lexer(sql);
    ls := [];
    ghost var rest := sql;
    while true
      invariant lexer.Valid() && lexer.input == sql && lexer.Rest() == rest
      invariant Lex(sql) == ls + Lex(rest)
      decreases |rest|
    {
      var l := lexer.Next();
      if l.None? {
        break;
      }
      ghost var n := |l.value.Text()|;
      LexStep(ls, rest);
      ls, rest := ls + [l.value], rest[n..];
    }
    LexCovers(sql);
  }

  lemma {:induction false} LexStep(ls: seq<Lexeme>, rest: string)
    requires rest != []
    ensures ls + Lex(rest) == (ls + [First(rest)]) + Lex(rest[|First(rest).Text()|..])
  {
  }
}
