/** The named parameters of a SQL text, how they compose with splitting, and the pairing of bound
    columns with them. */
module Parameters {
  import opened Wrappers
  import opened Sequences
  import opened Lexing
  import opened Trimming
  import opened Splitting
  import opened Classification
  import Erasure

  // ---- The parameters a list of significant lexemes refers to ---------------------------------------

  /** The name a lexeme after `@` gives: an identifier, or a backtick-quoted one without escapes. */
  function NameOf(l: Lexeme): Option<string> {
    match l
    case Word(text) =>
      if text != [] && (text[0] == '_' || IsLetter(text[0])) then Some(text) else None
    case Quoted(text) =>
      if |text| > 2 && text[0] == '`' && text[|text| - 1] == '`' && '\\' !in text
      then Some(text[1..|text| - 1]) else None
    case _ => None
  }

  /** Whether the lexeme after `@` is consumed with it: `@@`, `@{`, a name, or any literal. */
  predicate Consumed(l: Lexeme) {
    l == Other('@') || l == Other('{') || NameOf(l).Some? || l.Quoted?
  }

  function AsSeq<T>(o: Option<T>): seq<T> {
    if o.None? then [] else [o.value]
  }

  /** Every parameter reference, in order, repetitions included. */
  function References(sig: seq<Lexeme>): seq<string> {
    if sig == [] then []
    else if sig[0] != Other('@') then References(sig[1..])
    else if |sig| > 1 && Consumed(sig[1]) then AsSeq(NameOf(sig[1])) + References(sig[2..])
    else References(sig[1..])
  }

  /** What refers to a parameter: `@` before a word that does not begin with a digit, or before a backticked name
      without escapes. */
  lemma {:induction false} ReferenceMeans(name: string, rest: seq<Lexeme>)
    requires name != []
    ensures name[0] == '_' || 'a' <= name[0] <= 'z' || 'A' <= name[0] <= 'Z' ==>
              References([Other('@'), Word(name)] + rest) == [name] + References(rest)
    ensures '0' <= name[0] <= '9' ==> References([Other('@'), Word(name)] + rest) == References(rest)
    ensures '\\' !in name ==> References([Other('@'), Quoted("`" + name + "`")] + rest) == [name] + References(rest)
  {
    var quoted := "`" + name + "`";
    assert quoted[1..|quoted| - 1] == name;
    var word := [Other('@'), Word(name)] + rest;
    assert word[2..] == rest && word[1..] == [Word(name)] + rest && ([Word(name)] + rest)[1..] == rest;
    assert ([Other('@'), Quoted(quoted)] + rest)[2..] == rest;
  }

  /** What does not: `@@` and what it doubles, `@{`, `@` before any other literal, and everything without `@`. */
  lemma {:induction false} NoReference(l: Lexeme, rest: seq<Lexeme>)
    ensures References([]) == [] && References([Other('@')]) == []
    ensures l != Other('@') ==> References([l] + rest) == References(rest)
    ensures References([Other('@'), Other('@')] + rest) == References(rest)
    ensures References([Other('@'), Other('{')] + rest) == References(rest)
    ensures l.Quoted? && l.text != [] && l.text[0] != '`' ==> References([Other('@'), l] + rest) == References(rest)
  {
    assert ([l] + rest)[1..] == rest && ([Other('@'), l] + rest)[2..] == rest;
    assert ([Other('@'), Other('@')] + rest)[2..] == rest && ([Other('@'), Other('{')] + rest)[2..] == rest;
  }

  // ---- First spellings -----------------------------------------------------------------------------------

  predicate Has(names: seq<string>, name: string) {
    exists i :: 0 <= i < |names| && SameName(names[i], name)
  }

  function Add(names: seq<string>, name: string): seq<string> {
    if Has(names, name) then names else names + [name]
  }

  function AddAll(names: seq<string>, more: seq<string>): seq<string> {
    if more == [] then names else Add(AddAll(names, more[..|more| - 1]), more[|more| - 1])
  }

  /** The first spelling of each name, in order. */
  function Dedup(names: seq<string>): seq<string> {
    AddAll([], names)
  }

  predicate Distinct(names: seq<string>) {
    forall i, j :: 0 <= i < j < |names| ==> !SameName(names[i], names[j])
  }

  function NamedParams(sql: string): seq<string> {
    Dedup(References(Sig(Lex(sql))))
  }

  lemma {:induction false} AddHas(names: seq<string>, name: string, other: string)
    ensures Has(Add(names, name), other) <==> Has(names, other) || SameName(name, other)
  {
    hide Lower;
    var longer := names + [name];
    assert longer[|names|] == name;
    assert forall i :: 0 <= i < |names| ==> longer[i] == names[i];
    if Has(names, name) && SameName(name, other) {
      var i :| 0 <= i < |names| && SameName(names[i], name);
      assert SameName(names[i], other);
    }
  }

  lemma {:induction false} AddAllHas(names: seq<string>, more: seq<string>, name: string)
    ensures Has(AddAll(names, more), name) <==> Has(names, name) || Has(more, name)
  {
    hide SameName, Add;
    if more == [] {
    } else {
      var init, last := more[..|more| - 1], more[|more| - 1];
      AddAllHas(names, init, name);
      AddHas(AddAll(names, init), last, name);
      assert forall i :: 0 <= i < |init| ==> init[i] == more[i];
    }
  }

  lemma {:induction false} AddAllConcat(names: seq<string>, a: seq<string>, b: seq<string>)
    ensures AddAll(names, a + b) == AddAll(AddAll(names, a), b)
  {
    hide Add;
    if b == [] {
      assert a + b == a;
    } else {
      assert (a + b)[..|a + b| - 1] == a + b[..|b| - 1];
      AddAllConcat(names, a, b[..|b| - 1]);
    }
  }

  /** Repetitions can be dropped before adding. */
  lemma {:induction false} AddDeduped(names: seq<string>, more: seq<string>)
    ensures AddAll(names, Dedup(more)) == AddAll(names, more)
  {
    hide Has;
    if more != [] {
      var init, last := more[..|more| - 1], more[|more| - 1];
      AddDeduped(names, init);
      AddAllHas([], init, last);
      AddAllHas(names, init, last);
      assert !Has([], last) by { NothingHas(last); }
      if !Has(init, last) {
        AddAllConcat(names, Dedup(init), [last]);
        assert AddAll(AddAll(names, Dedup(init)), [last]) == Add(AddAll(names, Dedup(init)), last);
      }
    }
  }

  lemma {:induction false} NothingHas(name: string)
    ensures !Has([], name)
  {
  }

  lemma {:induction false} DedupDistinct(names: seq<string>)
    ensures Distinct(Dedup(names))
  {
    hide Lower;
    if names != [] {
      DedupDistinct(names[..|names| - 1]);
    }
  }

  /** A name is kept, behind the earlier ones, exactly when no earlier name is the same up to case. */
  lemma {:induction false} DedupMeans(names: seq<string>, name: string)
    ensures Dedup([]) == []
    ensures Dedup(names + [name]) ==
            if exists i :: 0 <= i < |names| && SameName(names[i], name) then Dedup(names) else Dedup(names) + [name]
  {
    hide SameName;
    assert (names + [name])[..|names|] == names;
    AddAllHas([], names, name);
    NothingHas(name);
  }

  // ---- The loop -------------------------------------------------------------------------------------------

  method NamedParameters(sql: string) returns (params: seq<string>)
    ensures params == NamedParams(sql) && Distinct(params)
  {
    hide Lex, Sig, NameOf, Lower;
    var sig := SignificantLexemes(sql);
    params := [];
    var seen: set<string> := {};
    ghost var references: seq<string> := [];
    var i := 0;
    while i < |sig|
      invariant 0 <= i <= |sig|
      invariant References(sig) == references + References(sig[i..])
      invariant params == Dedup(references)
      invariant forall name :: Lower(name) in seen <==> Has(params, name)
    {
      ghost var here := sig[i..];
      var l := sig[i];
      i := i + 1;
      assert here[1..] == sig[i..];
      if l != Other('@') || i == |sig| || !Consumed(sig[i]) {
        continue;
      }
      var name := NameOf(sig[i]);
      i := i + 1;
      assert here[2..] == sig[i..];
      ghost var before := references;
      references := references + AsSeq(name);
      assert before + (AsSeq(name) + References(sig[i..])) == references + References(sig[i..]);
      if name.None? {
        assert references == before;
        continue;
      }
      assert references[..|before|] == before;
      forall other ensures Has(Add(params, name.value), other) <==> Has(params, other) || SameName(name.value, other) {
        AddHas(params, name.value, other);
      }
      if Lower(name.value) !in seen {
        seen := seen + {Lower(name.value)};
        params := params + [name.value];
      }
    }
    assert sig[i..] == [] && references + [] == references;
    DedupDistinct(references);
  }

  // ---- Names are plain ------------------------------------------------------------------------------------

  lemma {:induction false} PlainClosesAtQuote(s: string, q: char)
    requires '\\' !in s && q in s && q != '\\'
    ensures PlainBody(s, q).closed && q !in s[..PlainBody(s, q).len - 1]
  {
    if s[0] != q {
      PlainClosesAtQuote(s[1..], q);
      var n := PlainBody(s, q).len;
      assert s[..n - 1] == [s[0]] + s[1..][..n - 2];
    }
  }

  /** An open literal names nothing: its last backtick, if any, is escaped. */
  lemma {:induction false} OpenNamesNothing(l: Lexeme)
    requires l.Quoted? && !Closed(l)
    ensures NameOf(l).None?
  {
    if NameOf(l).Some? {
      var s := l.text[1..];
      assert s[|s| - 1] == '`';
      PlainClosesAtQuote(s, '`');
    }
  }

  /** A name that needs no escaping. */
  predicate IsPlain(name: string) {
    name != [] && '`' !in name && '\\' !in name
  }

  lemma {:induction false} NameIsPlain(l: Lexeme)
    requires Proper(l) && NameOf(l).Some?
    ensures IsPlain(NameOf(l).value)
  {
    var t := l.text;
    if l.Quoted? {
      var s := t[1..];
      assert s[|s| - 1] == '`';
      ProperQuoted(t);
      PlainClosesAtQuote(s, '`');
      assert t[1..|t| - 1] == s[..|s| - 1];
    } else {
      forall i | 0 <= i < |t| ensures IsIdent(t[i]) {
        assert i > 0 ==> t[i] == t[1..][i - 1];
      }
    }
  }

  predicate AllProper(ls: seq<Lexeme>) {
    forall i :: 0 <= i < |ls| ==> Proper(ls[i])
  }

  predicate AllPlain(names: seq<string>) {
    forall i :: 0 <= i < |names| ==> IsPlain(names[i])
  }

  lemma {:induction false} SigProper(ls: seq<Lexeme>)
    requires AllProper(ls)
    ensures AllProper(Sig(ls))
  {
    hide Proper, Significant;
    if ls != [] {
      SigProper(ls[1..]);
    }
  }

  lemma {:induction false} ReferencesPlain(sig: seq<Lexeme>)
    requires AllProper(sig)
    ensures AllPlain(References(sig))
    decreases |sig|
  {
    hide Proper, NameOf, IsPlain;
    if sig == [] {
    } else if sig[0] == Other('@') && |sig| > 1 && Consumed(sig[1]) {
      if NameOf(sig[1]).Some? {
        NameIsPlain(sig[1]);
      }
      ReferencesPlain(sig[2..]);
    } else {
      ReferencesPlain(sig[1..]);
    }
  }

  lemma {:induction false} AddAllPlain(names: seq<string>, more: seq<string>)
    requires AllPlain(names) && AllPlain(more)
    ensures AllPlain(AddAll(names, more))
  {
    hide IsPlain, Has;
    if more != [] {
      AddAllPlain(names, more[..|more| - 1]);
    }
  }

  /** Every reported parameter is non-empty and holds neither a backtick nor a backslash. */
  lemma {:induction false} ParametersArePlain(sql: string)
    ensures forall name :: name in NamedParams(sql) ==> name != [] && '`' !in name && '\\' !in name
  {
    hide Lex, Sig, References, AddAll;
    LexCoherent(sql);
    assert AllProper(Lex(sql));
    SigProper(Lex(sql));
    ReferencesPlain(Sig(Lex(sql)));
    AddAllPlain([], References(Sig(Lex(sql))));
  }

  // ---- Splitting ------------------------------------------------------------------------------------------

  /** A top-level semicolon separates references. */
  lemma {:induction false} ReferencesAtSemi(a: seq<Lexeme>, b: seq<Lexeme>)
    ensures References(a + ([Semi] + b)) == References(a) + References(b)
    decreases |a|
  {
    hide NameOf;
    assert !Consumed(Semi) by { SemiNotConsumed(); }
    var all := a + ([Semi] + b);
    if a == [] {
      assert all == [Semi] + b && all[1..] == b && [] + References(b) == References(b);
    } else {
      assert all[1..] == a[1..] + ([Semi] + b);
      if a[0] == Other('@') && |a| > 1 && Consumed(a[1]) {
        assert all[2..] == a[2..] + ([Semi] + b);
        ReferencesAtSemi(a[2..], b);
        Reassociate(AsSeq(NameOf(a[1])), References(a[2..]), References(b));
      } else {
        ReferencesAtSemi(a[1..], b);
      }
    }
  }

  lemma {:induction false} SemiNotConsumed()
    ensures !Consumed(Semi)
  {
  }

  /** Literals that name nothing are interchangeable at the end. */
  lemma {:induction false} ReferencesSwapLast(a: seq<Lexeme>, p: Lexeme, q: Lexeme)
    requires p.Quoted? && q.Quoted? && NameOf(p).None? && NameOf(q).None?
    ensures References(a + [p]) == References(a + [q])
    decreases |a|
  {
    hide NameOf;
    if a == [] {
      assert [p][1..] == [] && [q][1..] == [] && a + [p] == [p] && a + [q] == [q];
    } else {
      assert (a + [p])[1..] == a[1..] + [p] && (a + [q])[1..] == a[1..] + [q];
      ReferencesSwapLast(a[1..], p, q);
      if |a| > 1 {
        assert (a + [p])[2..] == a[2..] + [p] && (a + [q])[2..] == a[2..] + [q];
        ReferencesSwapLast(a[2..], p, q);
      } else {
        assert (a + [p])[2..] == [] && (a + [q])[2..] == [];
      }
    }
  }

  /** The references of a text. */
  function Refs(s: string): seq<string> {
    References(Sig(Lex(s)))
  }

  lemma {:induction false} SigOfOne(l: Lexeme)
    ensures Sig([l]) == if Significant(l) then [l] else []
  {
    assert [l][1..] == [];
  }

  lemma {:induction false} RefsTrailing(s: string)
    requires s != [] && IsSpace(s[|s| - 1])
    ensures Refs(s) == Refs(Most(s))
  {
    hide Lex, IsSpace, Closed, References, NameOf;
    var pre, last, left := DropLastSpace(s);
    SigConcat(pre, [last]);
    SigConcat(pre, left);
    SigOfOne(last);
    if left != [] {
      assert left == [left[0]];
      SigOfOne(left[0]);
      if last.Quoted? {
        OpenNamesNothing(last);
        OpenNamesNothing(left[0]);
        ReferencesSwapLast(Sig(pre), last, left[0]);
      }
    }
  }

  lemma {:induction false} RefsTrimEnd(s: string)
    ensures Refs(TrimEnd(s)) == Refs(s)
  {
    hide Refs, IsSpace;
    if s != [] && IsSpace(s[|s| - 1]) {
      RefsTrailing(s);
      RefsTrimEnd(Most(s));
    }
  }

  lemma {:induction false} RefsTrim(s: string)
    ensures Refs(Trim(s)) == Refs(s)
    decreases |s|
  {
    hide IsSpace, Lex, References;
    if s != [] && IsSpace(s[0]) {
      assert s == [s[0]] + s[1..];
      LeadingSpace(s[0], s[1..]);
      SigConcat([Other(s[0])], Lex(s[1..]));
      SigOfOne(Other(s[0]));
      assert [] + Sig(Lex(s[1..])) == Sig(Lex(s[1..]));
      assert Trim(s) == Trim(s[1..]);
      RefsTrim(s[1..]);
    } else {
      assert Trim(s) == TrimEnd(s);
      RefsTrimEnd(s);
    }
  }

  function RefsOfAll(statements: seq<string>): seq<string> {
    if statements == [] then [] else Refs(statements[0]) + RefsOfAll(statements[1..])
  }

  function ParamsOfAll(statements: seq<string>): seq<string> {
    if statements == [] then [] else NamedParams(statements[0]) + ParamsOfAll(statements[1..])
  }

  lemma {:induction false} KeptRefs(current: seq<Lexeme>)
    requires Coherent(current)
    ensures RefsOfAll(Kept(TextOf(current))) == References(Sig(current))
  {
    hide Lex, Coherent, TextOf, References, HasStatement, Trim;
    var x := TextOf(current);
    LexOfText(current);
    TrimKeeps(x);
    RefsTrim(x);
    SigEmpty(current);
    assert References([]) == [] by { NoReferences(); }
    if HasStatement(current) {
      assert RefsOfAll([]) == [] && [Trim(x)][1..] == [];
      assert Refs(x) + [] == Refs(x);
    }
  }

  lemma {:induction false} NoReferences()
    ensures References([]) == []
  {
  }

  lemma {:induction false} RefsOfConcat(a: seq<string>, b: seq<string>)
    ensures RefsOfAll(a + b) == RefsOfAll(a) + RefsOfAll(b)
  {
    hide Refs;
    if a == [] {
      assert a + b == b;
    } else {
      assert (a + b)[1..] == a[1..] + b;
      RefsOfConcat(a[1..], b);
    }
  }

  lemma {:induction false} StatementsRefs(current: seq<Lexeme>, ls: seq<Lexeme>)
    requires Coherent(current + ls)
    ensures RefsOfAll(Statements(current, ls)) == References(Sig(current + ls))
    decreases |ls|
  {
    hide Kept, TextOf, References, Sig, RefsOfAll, Coherent;
    SegmentParts(current, ls);
    KeptRefs(current);
    if ls == [] {
      assert current + ls == current;
    } else if ls[0] == Semi {
      StatementsRefs([], ls[1..]);
      RefsOfConcat(Kept(TextOf(current)), Statements([], ls[1..]));
      RefsAcrossSemi(current, ls);
    } else {
      assert current + ls == (current + [ls[0]]) + ls[1..];
      StatementsRefs(current + [ls[0]], ls[1..]);
    }
  }

  lemma {:induction false} RefsAcrossSemi(current: seq<Lexeme>, ls: seq<Lexeme>)
    requires ls != [] && ls[0] == Semi
    ensures References(Sig(current + ls)) == References(Sig(current)) + References(Sig([] + ls[1..]))
  {
    hide References, Sig;
    var tail := ls[1..];
    assert current + ls == current + ([Semi] + tail) && [] + tail == tail;
    SigSemi(current, tail);
    ReferencesAtSemi(Sig(current), Sig(tail));
  }

  lemma {:induction false} SigSemi(a: seq<Lexeme>, b: seq<Lexeme>)
    ensures Sig(a + ([Semi] + b)) == Sig(a) + ([Semi] + Sig(b))
  {
    hide Sig;
    SigConcat(a, [Semi] + b);
    SigConcat([Semi], b);
    SpaceIsPlain(';');
    SigOfOne(Semi);
  }

  lemma {:induction false} DedupAcross(names: seq<string>, statements: seq<string>)
    ensures AddAll(names, ParamsOfAll(statements)) == AddAll(names, RefsOfAll(statements))
    decreases |statements|
  {
    hide Refs, AddAll;
    if statements != [] {
      var t, tail := statements[0], statements[1..];
      assert NamedParams(t) == Dedup(Refs(t)) by { ParamsAreRefs(t); }
      AddAllConcat(names, NamedParams(t), ParamsOfAll(tail));
      AddAllConcat(names, Refs(t), RefsOfAll(tail));
      AddDeduped(names, Refs(t));
      DedupAcross(AddAll(names, Refs(t)), tail);
    }
  }

  lemma {:induction false} ParamsAreRefs(t: string)
    ensures NamedParams(t) == Dedup(Refs(t))
  {
    hide Dedup, References, Sig, Lex;
  }

  /** The parameters of a batch are the first spellings of its statements' parameters, in order. */
  lemma {:induction false} ParamsComposeWithSplit(sql: string)
    ensures NamedParams(sql) == Dedup(ParamsOfAll(Split(sql)))
  {
    hide Lex, References, Sig, AddAll, ParamsOfAll, RefsOfAll, Statements, Coherent;
    LexCoherent(sql);
    assert [] + Lex(sql) == Lex(sql);
    StatementsRefs([], Lex(sql));
    DedupAcross([], Split(sql));
  }

  /** Erasing comments changes no parameter. */
  lemma {:induction false} ErasureKeepsParameters(sql: string)
    ensures NamedParams(Erasure.Erase(sql)) == NamedParams(sql)
  {
    hide Lex, Sig, References, Dedup;
    Erasure.ErasureKeepsMeaning(sql);
  }

  // ---- Pairing columns with parameters -----------------------------------------------------------------

  /** `resolve_parameter_names`. Positionally, the i-th column binds the i-th parameter and the counts
      must agree; by name, every column must name a parameter, no two the same one, and each binds
      under the query's spelling. */
  method ResolveParameterNames(sql: string, columns: seq<string>, byName: bool) returns (names: Option<seq<string>>)
    ensures !byName ==> (names.Some? <==> |NamedParams(sql)| == |columns|)
    ensures byName ==> (names.Some? <==> Distinct(columns) && forall i :: 0 <= i < |columns| ==> Has(NamedParams(sql), columns[i]))
    ensures names.Some? ==> Distinct(names.value) && |names.value| == |columns|
    ensures names.Some? ==> forall i :: 0 <= i < |columns| ==> names.value[i] in NamedParams(sql)
    ensures names.Some? && !byName ==> names.value == NamedParams(sql)
    ensures names.Some? && byName ==> forall i :: 0 <= i < |columns| ==> SameName(names.value[i], columns[i])
  {
    hide Lower, NamedParams, Has, Distinct, SameName;
    var params := NamedParameters(sql);
    if byName {
      names := ResolveByName(params, columns);
    } else if |params| == |columns| {
      names := Some(params);
    } else {
      names := None;
    }
  }

  /** The lower-case spellings. */
  function LowerSet(names: seq<string>): set<string> {
    set i | 0 <= i < |names| :: Lower(names[i])
  }

  lemma {:induction false} LowerSetHas(names: seq<string>, name: string)
    ensures Lower(name) in LowerSet(names) <==> Has(names, name)
  {
    hide Lower;
  }

  lemma {:induction false} DistinctPrefix(names: seq<string>, i: nat)
    requires i < |names|
    ensures Distinct(names[..i + 1]) <==> Distinct(names[..i]) && !Has(names[..i], names[i])
    ensures Distinct(names) ==> Distinct(names[..i + 1])
  {
    hide Lower;
    var longer, shorter := names[..i + 1], names[..i];
    assert forall j :: 0 <= j < i ==> longer[j] == shorter[j];
    assert longer[i] == names[i];
    if Distinct(shorter) && !Has(shorter, names[i]) {
      forall j, k | 0 <= j < k < |longer| ensures !SameName(longer[j], longer[k]) {
        assert longer[j] == shorter[j];
        assert k < i ==> longer[k] == shorter[k];
      }
    }
  }

  lemma {:induction false} SpellingsDistinct(names: seq<string>, spelled: seq<string>)
    requires |names| == |spelled| && Distinct(names)
    requires forall i :: 0 <= i < |names| ==> SameName(spelled[i], names[i])
    ensures Distinct(spelled)
  {
    hide Lower;
  }

  method ResolveByName(params: seq<string>, columns: seq<string>) returns (names: Option<seq<string>>)
    requires Distinct(params)
    ensures names.Some? <==> Distinct(columns) && forall i :: 0 <= i < |columns| ==> Has(params, columns[i])
    ensures names.Some? ==> Distinct(names.value) && |names.value| == |columns|
    ensures names.Some? ==> forall i :: 0 <= i < |columns| ==> names.value[i] in params && SameName(names.value[i], columns[i])
  {
    hide Lower, Has, Distinct, LowerSet;
    var paramSet := LowerIndex(params);
    var resolved := [];
    var bound: set<string> := {};
    var i := 0;
    assert bound == LowerSet(columns[..0]) && Distinct(columns[..0]) by { NothingBound(columns); }
    while i < |columns|
      invariant 0 <= i <= |columns| && |resolved| == i
      invariant forall j :: 0 <= j < i ==> resolved[j] in params && SameName(resolved[j], columns[j])
      invariant forall j :: 0 <= j < i ==> Has(params, columns[j])
      invariant bound == LowerSet(columns[..i]) && Distinct(columns[..i])
    {
      var column := columns[i];
      DistinctPrefix(columns, i);
      LowerSetHas(columns[..i], column);
      if Lower(column) !in paramSet {
        return None;
      }
      var param := paramSet[Lower(column)];
      if Lower(param) in bound {
        return None;
      }
      LowerSetGrows(columns, i);
      bound := bound + {Lower(param)};
      resolved := resolved + [param];
      i := i + 1;
    }
    assert columns[..i] == columns;
    SpellingsDistinct(columns, resolved);
    return Some(resolved);
  }

  lemma {:induction false} NothingBound(columns: seq<string>)
    ensures LowerSet(columns[..0]) == {} && Distinct(columns[..0])
  {
  }

  lemma {:induction false} LowerSetGrows(names: seq<string>, i: nat)
    requires i < |names|
    ensures LowerSet(names[..i + 1]) == LowerSet(names[..i]) + {Lower(names[i])}
  {
    hide Lower;
    var longer, shorter := names[..i + 1], names[..i];
    assert forall j :: 0 <= j < i ==> longer[j] == shorter[j];
    assert longer[i] == names[i];
    forall low ensures low in LowerSet(longer) <==> low in LowerSet(shorter) || low == Lower(names[i]) {
      if low in LowerSet(shorter) {
        var j :| 0 <= j < i && Lower(shorter[j]) == low;
        assert Lower(longer[j]) == low;
      }
      if low == Lower(names[i]) {
        assert Lower(longer[i]) == low;
      }
    }
  }

  /** The parameters keyed by their lower-case spelling. */
  method LowerIndex(params: seq<string>) returns (index: map<string, string>)
    requires Distinct(params)
    ensures forall low :: low in index ==> index[low] in params && Lower(index[low]) == low
    ensures forall i :: 0 <= i < |params| ==> Lower(params[i]) in index
    ensures forall name :: Lower(name) in index <==> Has(params, name)
  {
    hide Lower;
    index := map[];
    var i := 0;
    while i < |params|
      invariant 0 <= i <= |params|
      invariant forall low :: low in index ==> index[low] in params && Lower(index[low]) == low
      invariant forall low :: low in index ==> exists j :: 0 <= j < i && Lower(params[j]) == low
      invariant forall j :: 0 <= j < i ==> Lower(params[j]) in index
    {
      index := index[Lower(params[i]) := params[i]];
      i := i + 1;
    }
  }
}
