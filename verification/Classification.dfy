/** Classifying a SQL text by its lexemes: its first keyword, and whether it is DML that returns
    rows. */
module Classification {
  import opened Wrappers
  import opened Lexing
  import opened LexerLoop
  import opened Splitting

  function LowerChar(c: char): char {
    if 'A' <= c <= 'Z' then (c as int + 32) as char else c
  }

  /** `to_ascii_lowercase`. */
  function Lower(s: string): (l: string)
    ensures |l| == |s| && forall i :: 0 <= i < |s| ==> l[i] == LowerChar(s[i])
  {
    seq(|s|, i requires 0 <= i < |s| => LowerChar(s[i]))
  }

  predicate SameName(a: string, b: string) {
    Lower(a) == Lower(b)
  }

  predicate IsWord(l: Lexeme, word: string) {
    l.Word? && SameName(l.text, word)
  }

  // ---- The significant lexemes ------------------------------------------------------------------------

  /** The lexemes without comments and spaces. */
  function Sig(ls: seq<Lexeme>): seq<Lexeme> {
    if ls == [] then []
    else (if Significant(ls[0]) then [ls[0]] else []) + Sig(ls[1..])
  }

  lemma {:induction false} SigConcat(a: seq<Lexeme>, b: seq<Lexeme>)
    ensures Sig(a + b) == Sig(a) + Sig(b)
  {
    hide Significant;
    if a == [] {
      assert a + b == b;
    } else {
      assert (a + b)[1..] == a[1..] + b;
      SigConcat(a[1..], b);
    }
  }

  lemma {:induction false} SigEmpty(ls: seq<Lexeme>)
    ensures Sig(ls) == [] <==> !HasStatement(ls)
  {
    hide Significant;
    if ls != [] {
      SigEmpty(ls[1..]);
      assert [ls[0]] + ls[1..] == ls;
      ConsKeeps(ls[0], ls[1..]);
    }
  }

  method SignificantLexemes(sql: string) returns (sig: seq<Lexeme>)
    ensures sig == Sig(Lex(sql))
  {
    hide Lex, Significant;
    var ls := Tokens(sql);
    sig := [];
    var i := 0;
    while i < |ls|
      invariant 0 <= i <= |ls| && sig == Sig(ls[..i])
    {
      assert ls[..i + 1] == ls[..i] + [ls[i]];
      SigConcat(ls[..i], [ls[i]]);
      if Significant(ls[i]) {
        sig := sig + [ls[i]];
      }
      i := i + 1;
    }
    assert ls[..i] == ls;
  }

  // ---- The first keyword -----------------------------------------------------------------------------

  /** What is left of `sig` after its first `}`. */
  function AfterHint(sig: seq<Lexeme>): (rest: seq<Lexeme>)
    ensures |rest| <= |sig| && (sig != [] ==> |rest| < |sig|)
  {
    if sig == [] then [] else if sig[0] == Other('}') then sig[1..] else AfterHint(sig[1..])
  }

  predicate StartsHint(sig: seq<Lexeme>) {
    |sig| > 1 && sig[0] == Other('@') && sig[1] == Other('{')
  }

  function LetterRun(s: string): (n: nat)
    ensures n <= |s| && (forall i :: 0 <= i < n ==> IsLetter(s[i])) && (n < |s| ==> !IsLetter(s[n]))
  {
    if s != [] && IsLetter(s[0]) then 1 + LetterRun(s[1..]) else 0
  }

  /** The keyword the significant lexemes begin with, statement hints skipped. */
  function Keyword(sig: seq<Lexeme>): Option<string>
    decreases |sig|
  {
    if sig == [] then None
    else if StartsHint(sig) then Keyword(AfterHint(sig[1..]))
    else if sig[0].Word? && LetterRun(sig[0].text) > 0 then Some(sig[0].text[..LetterRun(sig[0].text)])
    else None
  }

  function KeywordOf(sql: string): Option<string> {
    Keyword(Sig(Lex(sql)))
  }

  method FirstKeyword(sql: string) returns (keyword: Option<string>)
    ensures keyword == KeywordOf(sql)
    ensures keyword.Some? ==> keyword.value != [] && forall i :: 0 <= i < |keyword.value| ==> IsLetter(keyword.value[i])
  {
    hide Lex, Sig, IsLetter;
    var sig := SignificantLexemes(sql);
    var i := 0;
    while i < |sig|
      invariant 0 <= i <= |sig| && Keyword(sig[i..]) == Keyword(sig)
    {
      ghost var here := sig[i..];
      var l := sig[i];
      i := i + 1;
      assert here[1..] == sig[i..];
      if l == Other('@') && i < |sig| && sig[i] == Other('{') {
        i := SkipHint(sig, i);
      } else if l.Word? {
        var end := 0;
        while end < |l.text| && IsLetter(l.text[end])
          invariant 0 <= end <= |l.text| && forall j :: 0 <= j < end ==> IsLetter(l.text[j])
        {
          end := end + 1;
        }
        LetterExtent(l.text, end);
        return if end > 0 then Some(l.text[..end]) else None;
      } else {
        return None;
      }
    }
    return None;
  }

  /** The inner loop of the hint skip: past the first `}` from `from` on. */
  method SkipHint(sig: seq<Lexeme>, from: nat) returns (i: nat)
    requires from < |sig|
    ensures from < i <= |sig| && sig[i..] == AfterHint(sig[from..])
  {
    i := from;
    while i < |sig|
      invariant from <= i <= |sig| && AfterHint(sig[i..]) == AfterHint(sig[from..])
    {
      ghost var here := sig[i..];
      i := i + 1;
      assert here[1..] == sig[i..];
      if sig[i - 1] == Other('}') {
        break;
      }
    }
  }

  lemma {:induction false} LetterExtent(s: string, n: nat)
    requires n <= |s| && (forall i :: 0 <= i < n ==> IsLetter(s[i])) && (n < |s| ==> !IsLetter(s[n]))
    ensures LetterRun(s) == n
  {
  }

  const DdlKeywords := ["CREATE", "DROP", "ALTER", "RENAME", "GRANT", "REVOKE", "ANALYZE"]

  predicate KeywordIn(keyword: Option<string>, keywords: seq<string>) {
    keyword.Some? && exists i :: 0 <= i < |keywords| && SameName(keyword.value, keywords[i])
  }

  predicate IsDdl(sql: string) {
    KeywordIn(KeywordOf(sql), DdlKeywords)
  }

  // ---- DML that returns rows -------------------------------------------------------------------------

  /** How many `CASE`s are open after `ls`; an `END` without one changes nothing. */
  function CaseDepth(ls: seq<Lexeme>): nat {
    if ls == [] then 0 else
    var before, l := CaseDepth(ls[..|ls| - 1]), ls[|ls| - 1];
    if IsWord(l, "CASE") then before + 1
    else if IsWord(l, "END") && before > 0 then before - 1
    else before
  }

  /** The last word or literal of `ls` is the word `THEN`. */
  predicate AfterThen(ls: seq<Lexeme>) {
    ls != [] &&
    var l := ls[|ls| - 1];
    if l.Word? then IsWord(l, "THEN") else !l.Quoted? && AfterThen(ls[..|ls| - 1])
  }

  predicate ReturnAt(ls: seq<Lexeme>, i: nat)
    requires i < |ls|
  {
    IsWord(ls[i], "RETURN") && AfterThen(ls[..i]) && CaseDepth(ls[..i]) == 0
  }

  /** A `THEN RETURN` outside every `CASE`, with no literal between the two words. */
  predicate ReturnsRows(ls: seq<Lexeme>) {
    exists i :: 0 <= i < |ls| && ReturnAt(ls, i)
  }

  method IsDmlReturning(sql: string) returns (r: bool)
    ensures r <==> ReturnsRows(Lex(sql))
  {
    hide Lex, SameName;
    var ls := Tokens(sql);
    var previousWasThen := false;
    var caseDepth := 0;
    var i := 0;
    while i < |ls|
      invariant 0 <= i <= |ls|
      invariant previousWasThen <==> AfterThen(ls[..i])
      invariant caseDepth == CaseDepth(ls[..i])
      invariant forall j :: 0 <= j < i ==> !ReturnAt(ls, j)
    {
      assert ls[..i + 1][..i] == ls[..i];
      if ls[i].Word? {
        var word := ls[i].text;
        if previousWasThen && caseDepth == 0 && SameName(word, "RETURN") {
          assert ReturnAt(ls, i);
          return true;
        }
        previousWasThen := SameName(word, "THEN");
        if SameName(word, "CASE") {
          caseDepth := caseDepth + 1;
        } else if SameName(word, "END") && caseDepth > 0 {
          caseDepth := caseDepth - 1;
        }
      } else if ls[i].Quoted? {
        previousWasThen := false;
      }
      i := i + 1;
    }
    return false;
  }

  // ---- What the classification means ------------------------------------------------------------------

  /** Names are the same up to the case of ASCII letters. */
  lemma {:induction false} SameNameMeans(a: string, b: string)
    ensures SameName(a, b) <==>
            && |a| == |b|
            && forall i :: 0 <= i < |a| ==>
                 || a[i] == b[i]
                 || ('A' <= a[i] <= 'Z' && b[i] as int == a[i] as int + 32)
                 || ('A' <= b[i] <= 'Z' && a[i] as int == b[i] as int + 32)
  {
    if |a| == |b| {
      forall i | 0 <= i < |a| ensures LowerChar(a[i]) == LowerChar(b[i]) <==> Lower(a)[i] == Lower(b)[i] {
      }
      if SameName(a, b) {
        assert forall i :: 0 <= i < |a| ==> Lower(a)[i] == Lower(b)[i];
      }
    }
  }

  /** How many `CASE`s and how many `END`s there are. */
  function Opens(ls: seq<Lexeme>): nat {
    if ls == [] then 0 else Opens(ls[..|ls| - 1]) + if IsWord(ls[|ls| - 1], "CASE") then 1 else 0
  }

  function Closes(ls: seq<Lexeme>): nat {
    if ls == [] then 0 else Closes(ls[..|ls| - 1]) + if IsWord(ls[|ls| - 1], "END") then 1 else 0
  }

  /** No front of it has more `END`s than `CASE`s. */
  predicate Nested(ls: seq<Lexeme>) {
    forall k :: 0 <= k <= |ls| ==> Closes(ls[..k]) <= Opens(ls[..k])
  }

  /** Nested lexemes add to the depth what they leave open. */
  lemma {:induction false} DepthCounts(a: seq<Lexeme>, body: seq<Lexeme>)
    requires Nested(body)
    ensures Closes(body) <= Opens(body) && CaseDepth(a + body) == CaseDepth(a) + Opens(body) - Closes(body)
  {
    hide SameName;
    assert body[..|body|] == body;
    if body == [] {
      assert a + body == a;
    } else {
      var n := |body| - 1;
      var most, last := body[..n], body[n];
      forall k | 0 <= k <= n ensures Closes(most[..k]) <= Opens(most[..k]) {
        assert most[..k] == body[..k];
      }
      DepthCounts(a, most);
      assert (a + body)[..|a + body| - 1] == a + most;
      NotBoth(last);
    }
  }

  lemma {:induction false} NotBoth(l: Lexeme)
    ensures !(IsWord(l, "CASE") && IsWord(l, "END"))
  {
    assert |Lower("CASE")| == 4 && |Lower("END")| == 3;
  }

  /** `THEN RETURN` behind nested `CASE`s returns rows exactly when all of them are closed. */
  lemma {:induction false} ReturnBehindCases(body: seq<Lexeme>, first: Lexeme, ret: Lexeme, rest: seq<Lexeme>)
    requires Nested(body) && IsWord(first, "THEN") && IsWord(ret, "RETURN")
    ensures var ls := body + [first, ret] + rest;
            && (ReturnAt(ls, |body| + 1) <==> Opens(body) == Closes(body))
            && (Opens(body) == Closes(body) ==> ReturnsRows(ls))
  {
    hide SameName;
    var ls := body + [first, ret] + rest;
    assert ls[..|body| + 1] == body + [first];
    assert (body + [first])[..|body|] == body;
    DepthCounts([], body);
    assert [] + body == body;
    ThenIsNoCase(first);
    assert CaseDepth(body + [first]) == CaseDepth(body);
  }

  lemma {:induction false} ThenIsNoCase(l: Lexeme)
    requires IsWord(l, "THEN")
    ensures !IsWord(l, "CASE") && !IsWord(l, "END")
  {
    assert Lower("THEN")[0] == 't' && Lower("CASE")[0] == 'c' && Lower("END")[0] == 'e';
  }

  /** Neither a word nor a literal. */
  predicate Minor(ls: seq<Lexeme>) {
    forall i :: 0 <= i < |ls| ==> !ls[i].Word? && !ls[i].Quoted?
  }

  /** Comments and punctuation may stand behind `THEN`; a literal or another word may not. */
  lemma {:induction false} AfterThenMeans(ls: seq<Lexeme>, l: Lexeme, gap: seq<Lexeme>)
    requires Minor(gap) && (l.Word? || l.Quoted?)
    ensures AfterThen(ls + [l] + gap) <==> IsWord(l, "THEN")
  {
    hide SameName;
    var all := ls + [l] + gap;
    if gap == [] {
      assert all[|all| - 1] == l;
    } else {
      assert all[..|all| - 1] == ls + [l] + gap[..|gap| - 1];
      assert all[|all| - 1] == gap[|gap| - 1];
      AfterThenMeans(ls, l, gap[..|gap| - 1]);
    }
  }

  /** The first keyword is the leading letters of the first significant lexeme, if that is a word that has any; whole
      hints before it are passed over. */
  lemma {:induction false} KeywordMeans(l: Lexeme, n: nat, inside: seq<Lexeme>, rest: seq<Lexeme>)
    requires l.Word? ==> n <= |l.text| && (forall i :: 0 <= i < n ==> IsLetter(l.text[i])) && (n < |l.text| ==> !IsLetter(l.text[n]))
    requires Other('}') !in inside
    ensures l.Word? ==> Keyword([l] + rest) == if n > 0 then Some(l.text[..n]) else None
    ensures !l.Word? && l != Other('@') ==> Keyword([l] + rest) == None
    ensures Keyword([Other('@'), Other('{')] + inside + [Other('}')] + rest) == Keyword(rest)
    ensures Keyword([]) == None
  {
    if l.Word? {
      LetterExtent(l.text, n);
    }
    var hint := [Other('@'), Other('{')] + inside + [Other('}')] + rest;
    assert hint[1..] == [Other('{')] + inside + [Other('}')] + rest;
    AfterClosing([Other('{')] + inside, rest);
  }

  lemma {:induction false} AfterClosing(inside: seq<Lexeme>, rest: seq<Lexeme>)
    requires Other('}') !in inside
    ensures AfterHint(inside + [Other('}')] + rest) == rest
  {
    var all := inside + [Other('}')] + rest;
    if inside == [] {
      assert all[1..] == rest;
    } else {
      assert all[1..] == inside[1..] + [Other('}')] + rest;
      AfterClosing(inside[1..], rest);
    }
  }

  /** A text that begins with letters and a space has them as its first keyword. */
  lemma {:induction false} KeywordOfText(word: string, rest: string)
    requires word != [] && forall i :: 0 <= i < |word| ==> IsLetter(word[i])
    ensures KeywordOf(word + " " + rest) == Some(word)
  {
    hide Keyword;
    var s, l, later := word + " " + rest, Word(word), " " + rest;
    WordExtent(word[1..], |word| - 1);
    assert word[..|word|] == word && s == word + later;
    FirstOf(l, later);
    assert s[|word|..] == later;
    assert Lex(s) == [l] + Lex(later) && Lex(s)[1..] == Lex(later);
    KeywordMeans(l, |word|, [], Sig(Lex(later)));
  }

  /** Which statements are DDL, by their first word in any case. */
  lemma {:induction false} DdlMeans(word: string, rest: string)
    requires word != [] && forall i :: 0 <= i < |word| ==> IsLetter(word[i])
    ensures IsDdl(word + " " + rest) <==>
            || SameName(word, "CREATE") || SameName(word, "DROP") || SameName(word, "ALTER") || SameName(word, "RENAME")
            || SameName(word, "GRANT") || SameName(word, "REVOKE") || SameName(word, "ANALYZE")
  {
    hide KeywordOf, SameName;
    KeywordOfText(word, rest);
    var ks := DdlKeywords;
    assert ks[0] == "CREATE" && ks[1] == "DROP" && ks[2] == "ALTER" && ks[3] == "RENAME";
    assert ks[4] == "GRANT" && ks[5] == "REVOKE" && ks[6] == "ANALYZE";
  }

  // ---- Hints in front of a statement -------------------------------------------------------------------

  /** Significant lexemes that are whole statement hints and nothing else. */
  predicate HintsOnly(sig: seq<Lexeme>)
    decreases |sig|
  {
    sig == [] || (StartsHint(sig) && Other('}') in sig[1..] && HintsOnly(AfterHint(sig[1..])))
  }

  lemma {:induction false} AfterHintConcat(sig: seq<Lexeme>, more: seq<Lexeme>)
    requires Other('}') in sig
    ensures AfterHint(sig + more) == AfterHint(sig) + more
  {
    assert (sig + more)[1..] == sig[1..] + more;
    if sig[0] != Other('}') {
      AfterHintConcat(sig[1..], more);
    }
  }

  lemma {:induction false} HintsSkipped(sig: seq<Lexeme>, more: seq<Lexeme>)
    requires HintsOnly(sig)
    ensures Keyword(sig + more) == Keyword(more)
    decreases |sig|
  {
    if sig == [] {
      assert sig + more == more;
    } else {
      assert (sig + more)[1..] == sig[1..] + more;
      AfterHintConcat(sig[1..], more);
      HintsSkipped(AfterHint(sig[1..]), more);
    }
  }

  /** Spaces, closed comments and whole statement hints in front of a text do not change its first
      keyword. */
  lemma {:induction false} PrefixTransparent(prefix: string, sql: string)
    requires HintsOnly(Sig(Lex(prefix)))
    requires prefix != [] ==>
               (var ls := Lex(prefix); ls != [] && Closed(ls[|ls| - 1]) && (!Significant(ls[|ls| - 1]) || ls[|ls| - 1] == Other('}')))
    ensures KeywordOf(prefix + sql) == KeywordOf(sql)
  {
    hide Lex, Closed, Keyword, HintsOnly;
    if prefix != [] && sql != [] {
      var l := Lex(prefix)[|Lex(prefix)| - 1];
      if l.Other? {
        SpaceIsPlain(l.c);
      }
      assert Fits(l, sql[0]);
    }
    Seam(prefix, sql);
    SigConcat(Lex(prefix), Lex(sql));
    HintsSkipped(Sig(Lex(prefix)), Sig(Lex(sql)));
  }
}
