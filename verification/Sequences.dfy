/** Sequences of sequences. */
module Sequences {

  function Flatten<T>(batches: seq<seq<T>>): seq<T> {
    if batches == [] then [] else batches[0] + Flatten(batches[1..])
  }

  lemma {:induction false} FlattenPrefix<T>(batches: seq<seq<T>>, b: nat)
    requires b < |batches|
    ensures Flatten(batches[..b + 1]) == Flatten(batches[..b]) + batches[b]
    ensures Flatten(batches[..b]) + batches[b] <= Flatten(batches)
  {
    FlattenConcat(batches[..b], [batches[b]]);
    assert batches[..b + 1] == batches[..b] + [batches[b]];
    assert Flatten([batches[b]]) == batches[b] + [];
    FlattenConcat(batches[..b + 1], batches[b + 1..]);
    assert batches[..b + 1] + batches[b + 1..] == batches;
  }

  lemma {:induction false} FlattenConcat<T>(a: seq<seq<T>>, b: seq<seq<T>>)
    ensures Flatten(a + b) == Flatten(a) + Flatten(b)
  {
    if a == [] {
      assert a + b == b;
    } else {
      assert (a + b)[1..] == a[1..] + b;
      FlattenConcat(a[1..], b);
    }
  }

  lemma {:induction false} FlattenTake<T>(batches: seq<seq<T>>, n: nat)
    requires n <= |batches|
    ensures Flatten(batches[..n]) <= Flatten(batches)
  {
    FlattenConcat(batches[..n], batches[n..]);
    assert batches[..n] + batches[n..] == batches;
  }

  lemma {:induction false} NoBatches<T>()
    ensures Flatten<T>([]) == []
  {
  }

  lemma {:induction false} AppendBatch<T>(batches: seq<seq<T>>, batch: seq<T>)
    ensures Flatten(batches + [batch]) == Flatten(batches) + batch
  {
    FlattenConcat(batches, [batch]);
    assert Flatten([batch]) == batch + [];
  }

  lemma {:induction false} Reassociate<T>(a: seq<T>, b: seq<T>, c: seq<T>)
    ensures a + (b + c) == (a + b) + c
  {
  }

  lemma {:induction false} PrependBatch<T>(batch: seq<T>, batches: seq<seq<T>>)
    ensures Flatten([batch] + batches) == batch + Flatten(batches)
  {
    assert ([batch] + batches)[1..] == batches;
  }

  function Map<T, U>(f: T -> U, xs: seq<T>): (ys: seq<U>)
    ensures |ys| == |xs| && forall i :: 0 <= i < |xs| ==> ys[i] == f(xs[i])
  {
    seq(|xs|, i requires 0 <= i < |xs| => f(xs[i]))
  }

  function MapEach<T, U>(f: T -> U, groups: seq<seq<T>>): (r: seq<seq<U>>)
    ensures |r| == |groups| && forall i :: 0 <= i < |groups| ==> r[i] == Map(f, groups[i])
  {
    seq(|groups|, i requires 0 <= i < |groups| => Map(f, groups[i]))
  }

  /** Mapping commutes with flattening. */
  lemma {:induction false} FlattenMap<T, U>(f: T -> U, groups: seq<seq<T>>)
    ensures Flatten(MapEach(f, groups)) == Map(f, Flatten(groups))
  {
    if groups != [] {
      var tail := groups[1..];
      FlattenMap(f, tail);
      assert MapEach(f, groups)[1..] == MapEach(f, tail);
      assert Map(f, groups[0] + Flatten(tail)) == Map(f, groups[0]) + Map(f, Flatten(tail));
    }
  }

  /** Element `j` of group `i` in the flat sequence. */
  lemma {:induction false} FlattenAt<T>(groups: seq<seq<T>>, i: nat, j: nat)
    requires i < |groups| && j < |groups[i]|
    ensures |Flatten(groups[..i])| + j < |Flatten(groups)| && Flatten(groups)[|Flatten(groups[..i])| + j] == groups[i][j]
  {
    FlattenPrefix(groups, i);
    assert (Flatten(groups[..i]) + groups[i])[|Flatten(groups[..i])| + j] == groups[i][j];
  }
}
