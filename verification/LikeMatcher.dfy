/** The ADBC `LIKE` matcher: `%` stands for any run of characters, `_` for exactly one, and every
    other character for itself; a pattern must cover the whole value.

    `Matches` is the declarative meaning. `LikeMatcher.Run` is the iterative matcher that remembers
    only its most recent `%`. */
module LikeMatching {

  /** The declarative meaning of a pattern. */
  ghost predicate Matches(p: string, v: string)
    decreases |p|
  {
    if p == [] then v == []
    else if p[0] == '%' then exists k: nat :: k <= |v| && Matches(p[1..], v[k..])
    else v != [] && CharMatches(p[0], v[0]) && Matches(p[1..], v[1..])
  }

  predicate CharMatches(pc: char, vc: char) {
    pc == '_' || pc == vc
  }

  /** `seg` holds no `%` and matches the characters of `v` one for one. */
  ghost predicate SegmentMatches(seg: string, v: string) {
    && |seg| == |v|
    && forall i :: 0 <= i < |seg| ==> seg[i] != '%' && CharMatches(seg[i], v[i])
  }

  /** The number of characters a pattern needs at least. */
  ghost function MinLength(p: string): nat {
    if p == [] then 0 else (if p[0] == '%' then 0 else 1) + MinLength(p[1..])
  }

  lemma {:induction false} TooShortFails(p: string, v: string)
    requires MinLength(p) > |v|
    ensures !Matches(p, v)
    decreases |p|
  {
    if p[0] == '%' {
      forall k: nat | k <= |v| ensures !Matches(p[1..], v[k..]) {
        TooShortFails(p[1..], v[k..]);
      }
    } else if v != [] {
      TooShortFails(p[1..], v[1..]);
    }
  }

  lemma {:induction false} MinLengthOfSegment(seg: string, rest: string)
    requires forall i :: 0 <= i < |seg| ==> seg[i] != '%'
    ensures MinLength(seg + rest) == |seg| + MinLength(rest)
  {
    if seg == [] {
      assert seg + rest == rest;
    } else {
      assert (seg + rest)[1..] == seg[1..] + rest;
      MinLengthOfSegment(seg[1..], rest);
    }
  }

  lemma {:induction false} AllPercent(p: string)
    ensures MinLength(p) == 0 <==> forall i :: 0 <= i < |p| ==> p[i] == '%'
    ensures Matches(p, []) <==> MinLength(p) == 0
  {
    if p != [] {
      AllPercent(p[1..]);
      assert forall i :: 0 < i < |p| ==> p[i] == p[1..][i - 1];
      if p[0] == '%' {
        var none: string := [];
        assert none[0..] == none;
      }
    }
  }

  /** A literal segment in front of a pattern consumes exactly its own length. */
  lemma {:induction false} SegmentPrefix(seg: string, rest: string, v: string)
    requires forall i :: 0 <= i < |seg| ==> seg[i] != '%'
    ensures Matches(seg + rest, v) <==>
            |seg| <= |v| && SegmentMatches(seg, v[..|seg|]) && Matches(rest, v[|seg|..])
  {
    if seg == [] {
      assert seg + rest == rest && v[0..] == v;
    } else if v != [] {
      assert (seg + rest)[1..] == seg[1..] + rest;
      SegmentPrefix(seg[1..], rest, v[1..]);
      if |seg| <= |v| {
        assert v[1..][|seg| - 1..] == v[|seg|..];
        assert v[1..][..|seg| - 1] == v[..|seg|][1..];
        assert SegmentMatches(seg, v[..|seg|]) <==>
               CharMatches(seg[0], v[0]) && SegmentMatches(seg[1..], v[..|seg|][1..]) by {
          assert forall i :: 1 <= i < |seg| ==> seg[i] == seg[1..][i - 1] && v[..|seg|][i] == v[..|seg|][1..][i - 1];
        }
      }
    }
  }

  /** A pattern without `%` covers the value character by character. */
  lemma {:induction false} PlainMeans(p: string, v: string)
    requires '%' !in p
    ensures Matches(p, v) <==> |p| == |v| && forall i :: 0 <= i < |p| ==> p[i] == '_' || p[i] == v[i]
  {
    SegmentPrefix(p, [], v);
    assert p + [] == p;
    if |p| == |v| {
      assert v[..|p|] == v;
    }
  }

  lemma {:induction false} SplitAtPercent(a: string, b: string, v: string) returns (i: nat, j: nat)
    requires Matches(a + "%" + b, v)
    ensures i <= j <= |v| && Matches(a, v[..i]) && Matches(b, v[j..])
    decreases |a|
  {
    var p := a + "%" + b;
    if a == [] {
      assert p[1..] == b;
      var k: nat :| k <= |v| && Matches(p[1..], v[k..]);
      i, j := 0, k;
    } else {
      assert p[1..] == a[1..] + "%" + b;
      if a[0] == '%' {
        var k: nat :| k <= |v| && Matches(p[1..], v[k..]);
        var x, y := SplitAtPercent(a[1..], b, v[k..]);
        i, j := k + x, k + y;
        assert v[..i][k..] == v[k..][..x] && v[k..][y..] == v[j..];
      } else {
        var x, y := SplitAtPercent(a[1..], b, v[1..]);
        i, j := 1 + x, 1 + y;
        assert v[..i][1..] == v[1..][..x] && v[1..][y..] == v[j..];
      }
    }
  }

  lemma {:induction false} JoinAtPercent(a: string, b: string, v: string, i: nat, j: nat)
    requires i <= j <= |v| && Matches(a, v[..i]) && Matches(b, v[j..])
    ensures Matches(a + "%" + b, v)
    decreases |a|
  {
    hide CharMatches;
    var p := a + "%" + b;
    if a == [] {
      assert p[0] == '%' && p[1..] == b;
    } else {
      assert p[0] == a[0] && p[1..] == a[1..] + "%" + b;
      var k := FrontOf(a, v, i);
      JoinAtPercent(a[1..], b, v[k..], i - k, j - k);
      if a[0] == '%' {
        assert Matches(p[1..], v[k..]);
      }
    }
  }

  /** Where the rest of a pattern goes on behind its first character. */
  lemma {:induction false} FrontOf(a: string, v: string, i: nat) returns (k: nat)
    requires a != [] && i <= |v| && Matches(a, v[..i])
    ensures k <= i && Matches(a[1..], v[k..][..i - k]) && forall j :: i <= j <= |v| ==> v[k..][j - k..] == v[j..]
    ensures a[0] != '%' ==> k == 1 && CharMatches(a[0], v[0])
  {
    if a[0] == '%' {
      k :| k <= i && Matches(a[1..], v[..i][k..]);
    } else {
      k := 1;
    }
    assert v[..i][k..] == v[k..][..i - k];
  }

  /** A `%` anywhere stands for any run of characters: what is before it covers a front of the value, and what is
      behind it covers a back that does not overlap. */
  lemma {:induction false} PercentMeans(a: string, b: string, v: string)
    ensures Matches(a + "%" + b, v) <==> exists i: nat, j: nat :: i <= j <= |v| && Matches(a, v[..i]) && Matches(b, v[j..])
  {
    hide Matches;
    if Matches(a + "%" + b, v) {
      var i, j := SplitAtPercent(a, b, v);
    }
    if i: nat, j: nat :| i <= j <= |v| && Matches(a, v[..i]) && Matches(b, v[j..]) {
      JoinAtPercent(a, b, v, i, j);
    }
  }

  /** Reaching a second `%` after matching the segment between the two at its leftmost place, the
      first `%` can be forgotten: no other placement of the segment can succeed where this one
      fails. */
  lemma {:induction false} ForgetEarlierPercent(p: string, v: string, n: nat)
    requires n + 1 < |p| && p[0] == '%' && p[n + 1] == '%'
    requires n <= |v| && SegmentMatches(p[1..n + 1], v[..n])
    ensures Matches(p, v) <==> Matches(p[n + 1..], v[n..])
  {
    var seg, rest := p[1..n + 1], p[n + 1..];
    assert p[1..] == seg + rest;
    if Matches(p, v) {
      var k: nat :| k <= |v| && Matches(p[1..], v[k..]);
      SegmentPrefix(seg, rest, v[k..]);
      assert v[k..][n..] == v[k + n..] == v[n..][k..];
    }
    if Matches(rest, v[n..]) {
      SegmentPrefix(seg, rest, v);
      assert v[0..] == v;
    }
  }

  /** When the segment after `%` fails at the current place, `%` may swallow one more character. */
  lemma {:induction false} SwallowOne(p: string, v: string)
    requires p != [] && p[0] == '%' && v != []
    requires !Matches(p[1..], v)
    ensures Matches(p, v) <==> Matches(p, v[1..])
  {
    if Matches(p, v) {
      var k: nat :| k <= |v| && Matches(p[1..], v[k..]);
      assert v[0..] == v;
      assert v[1..][k - 1..] == v[k..];
    }
  }

  /** A mismatch right after a matched segment refutes this placement. */
  lemma {:induction false} PlacementFails(p: string, v: string, n: nat)
    requires n < |v| && n <= |p| && SegmentMatches(p[..n], v[..n])
    requires n < |p| ==> p[n] != '%' && !CharMatches(p[n], v[n])
    ensures !Matches(p, v)
  {
    assert p == p[..n] + p[n..];
    SegmentPrefix(p[..n], p[n..], v);
  }

  lemma {:induction false} MonotoneProduct(a: nat, b: nat, c: nat)
    requires a <= b
    ensures a * c <= b * c
  {
  }

  /** What the main loop knows about its cursors: the pattern read since the last `%` (or since the
      start) covers the value read since then one for one, and the whole question has been reduced
      to the part from that `%` on. */
  ghost predicate LoopInv(p: string, v: string, hasStar: bool, sp: int, sv: int, pi: int, vi: int) {
    && 0 <= pi <= |p| && 0 <= vi <= |v|
    && (if hasStar then
          && 0 <= sp < pi && 0 <= sv <= vi && p[sp] == '%'
          && pi - sp - 1 == vi - sv
          && SegmentMatches(p[sp + 1..pi], v[sv..vi])
          && (Matches(p, v) <==> Matches(p[sp..], v[sv..]))
        else
          sv == 0 && pi == vi && SegmentMatches(p[..pi], v[..vi]))
  }

  /** The rank that every iteration raises: the place of the last `%`'s hold on the value first, the
      pattern cursor second. */
  ghost function Rank(p: string, sv: int, pi: int): int {
    sv * (|p| + 1) + pi
  }

  lemma {:induction false} RankBound(p: string, v: string, sv: nat, pi: nat)
    requires sv <= |v| && pi <= |p|
    ensures Rank(p, sv, pi) < (|p| + 1) * (|v| + 1)
  {
    MonotoneProduct(sv, |v|, |p| + 1);
  }

  /** A `%` under the pattern cursor becomes the new backtrack point. */
  lemma {:induction false} TakeStar(p: string, v: string, hasStar: bool, sp: int, sv: int, pi: int, vi: int)
    requires LoopInv(p, v, hasStar, sp, sv, pi, vi) && pi < |p| && p[pi] == '%'
    ensures LoopInv(p, v, true, pi, vi, pi + 1, vi)
    ensures Rank(p, sv, pi) < Rank(p, vi, pi + 1)
  {
    if hasStar {
      var n := vi - sv;
      assert p[sp..][1..n + 1] == p[sp + 1..pi];
      assert v[sv..][..n] == v[sv..vi];
      assert p[sp..][n + 1..] == p[pi..] && v[sv..][n..] == v[vi..];
      ForgetEarlierPercent(p[sp..], v[sv..], n);
    } else {
      assert p == p[..pi] + p[pi..];
      SegmentPrefix(p[..pi], p[pi..], v);
    }
    assert p[pi + 1..pi + 1] == [] && v[vi..vi] == [];
    MonotoneProduct(sv, vi, |p| + 1);
  }

  /** `_` or an equal character moves both cursors. */
  lemma {:induction false} Advance(p: string, v: string, hasStar: bool, sp: int, sv: int, pi: int, vi: int)
    requires LoopInv(p, v, hasStar, sp, sv, pi, vi) && pi < |p| && vi < |v|
    requires p[pi] != '%' && CharMatches(p[pi], v[vi])
    ensures LoopInv(p, v, hasStar, sp, sv, pi + 1, vi + 1)
    ensures Rank(p, sv, pi) < Rank(p, sv, pi + 1)
  {
    var from := if hasStar then sp + 1 else 0;
    assert p[from..pi + 1] == p[from..pi] + [p[pi]];
    assert v[sv..vi + 1] == v[sv..vi] + [v[vi]];
  }

  /** On a mismatch the last `%` swallows one more character. */
  lemma {:induction false} Backtrack(p: string, v: string, sp: int, sv: int, pi: int, vi: int)
    requires LoopInv(p, v, true, sp, sv, pi, vi) && vi < |v|
    requires pi < |p| ==> p[pi] != '%' && !CharMatches(p[pi], v[vi])
    ensures LoopInv(p, v, true, sp, sv + 1, sp + 1, sv + 1)
    ensures Rank(p, sv, pi) < Rank(p, sv + 1, sp + 1)
  {
    var n := vi - sv;
    var q, w := p[sp + 1..], v[sv..];
    assert q[..n] == p[sp + 1..pi] && w[..n] == v[sv..vi];
    PlacementFails(q, w, n);
    assert p[sp..][1..] == q && w[1..] == v[sv + 1..];
    SwallowOne(p[sp..], w);
    assert p[sp + 1..sp + 1] == [] && v[sv + 1..sv + 1] == [];
    assert (sv + 1) * (|p| + 1) == sv * (|p| + 1) + |p| + 1;
  }

  /** With the value used up behind a `%` and a fully placed segment, only trailing `%`s match. */
  lemma {:induction false} UsedUpBehindStar(p: string, w: string, n: nat)
    requires n + 1 <= |p| && p[0] == '%' && n == |w| && SegmentMatches(p[1..n + 1], w)
    ensures Matches(p, w) <==> MinLength(p[n + 1..]) == 0
  {
    var seg, rest := p[1..n + 1], p[n + 1..];
    assert p[1..] == seg + rest;
    AllPercent(rest);
    if MinLength(rest) == 0 {
      SegmentPrefix(seg, rest, w);
      assert w[..n] == w && w[n..] == [] && w[0..] == w;
    } else {
      MinLengthOfSegment(seg, rest);
      TooShortFails(p, w);
    }
  }

  /** Once the value is used up, only trailing `%`s can still match. */
  lemma {:induction false} FinalStep(p: string, v: string, hasStar: bool, sp: int, sv: int, pi: int)
    requires LoopInv(p, v, hasStar, sp, sv, pi, |v|)
    ensures Matches(p, v) <==> forall i :: pi <= i < |p| ==> p[i] == '%'
  {
    var rest := p[pi..];
    AllPercent(rest);
    assert (forall i :: pi <= i < |p| ==> p[i] == '%') <==> MinLength(rest) == 0 by {
      assert forall i :: pi <= i < |p| ==> p[i] == rest[i - pi];
      assert forall i :: 0 <= i < |rest| ==> rest[i] == p[i + pi];
    }
    if !hasStar {
      assert p == p[..pi] + rest && v[..pi] == v && v[pi..] == [];
      SegmentPrefix(p[..pi], rest, v);
    } else {
      var n := |v| - sv;
      assert p[sp..][1..n + 1] == p[sp + 1..pi] && p[sp..][n + 1..] == rest;
      assert v[sv..|v|] == v[sv..];
      UsedUpBehindStar(p[sp..], v[sv..], n);
    }
  }

  lemma {:induction false} LoopStart(p: string, v: string)
    ensures LoopInv(p, v, false, 0, 0, 0, 0) && Rank(p, 0, 0) == 0
  {
  }

  /** A mismatch with no `%` to go back to. */
  lemma {:induction false} NothingToRetry(p: string, v: string, sp: int, sv: int, pi: int, vi: int)
    requires LoopInv(p, v, false, sp, sv, pi, vi) && vi < |v|
    requires pi < |p| ==> p[pi] != '%' && !CharMatches(p[pi], v[vi])
    ensures !Matches(p, v)
  {
    PlacementFails(p, v, pi);
  }

  /** A compiled pattern. */
  datatype LikeMatcher = LikeMatcher(pattern: string)
  {
    /** The iterative matcher. `steps` counts the iterations of the main loop. */
    method Run(value: string) returns (matched: bool, steps: nat)
      ensures matched <==> Matches(pattern, value)
      ensures steps <= (|pattern| + 1) * (|value| + 1)
    {
      hide LoopInv, Rank, Matches;
      var p := pattern;
      var pi, vi := 0, 0;
      var hasStar, starP, starV := false, 0, 0;
      steps := 0;
      LoopStart(p, value);
      while vi < |value|
        invariant LoopInv(p, value, hasStar, starP, starV, pi, vi)
        invariant steps <= Rank(p, starV, pi)
        invariant 0 <= pi <= |p| && 0 <= starV <= vi <= |value| && (hasStar ==> 0 <= starP < pi)
        decreases |value| - starV, |p| - pi
      {
        steps := steps + 1;
        if pi < |p| && p[pi] == '%' {
          TakeStar(p, value, hasStar, starP, starV, pi, vi);
          hasStar, starP, starV := true, pi, vi;
          pi := pi + 1;
        } else if pi < |p| && (p[pi] == '_' || p[pi] == value[vi]) {
          Advance(p, value, hasStar, starP, starV, pi, vi);
          pi, vi := pi + 1, vi + 1;
        } else if hasStar {
          Backtrack(p, value, starP, starV, pi, vi);
          pi := starP + 1;
          vi := starV + 1;
          starV := vi;
        } else {
          NothingToRetry(p, value, starP, starV, pi, vi);
          RankBound(p, value, starV, pi);
          return false, steps;
        }
      }
      FinalStep(p, value, hasStar, starP, starV, pi);
      RankBound(p, value, starV, pi);
      matched := OnlyPercentsFrom(pi);
    }

    /** The trailing loop: whether the rest of the pattern is all `%`. */
    method OnlyPercentsFrom(start: nat) returns (all: bool)
      requires start <= |pattern|
      ensures all <==> forall i :: start <= i < |pattern| ==> pattern[i] == '%'
    {
      var pi := start;
      while pi < |pattern| && pattern[pi] == '%'
        invariant start <= pi <= |pattern|
        invariant forall i :: start <= i < pi ==> pattern[i] == '%'
      {
        pi := pi + 1;
      }
      all := pi == |pattern|;
    }
  }
}
