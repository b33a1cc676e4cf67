/** Streaming the results of a query bound to many parameter rows: the lazy statement source, the chunked
    result sets and the chunk source built on both, against running every statement in row order. */
module BoundStream {
  import opened Wrappers
  import opened Sequences
  import Columnar

  /** A result row with the estimate of its wire size. */
  datatype Row = Row(values: seq<Columnar.Value>, bytes: nat)

  /** What one read from a result set brings. */
  datatype Fetch = Got(row: Row) | Failed

  const BYTE_BUDGET: nat := 32 * 1024 * 1024
  const USIZE_MAX: nat := 0xFFFF_FFFF_FFFF_FFFF

  function Bytes(rows: seq<Row>): nat {
    if rows == [] then 0 else Bytes(rows[..|rows| - 1]) + rows[|rows| - 1].bytes
  }

  function SaturatingAdd(a: nat, b: nat): nat {
    if a + b <= USIZE_MAX then a + b else USIZE_MAX
  }

  /** The first reads are these rows. */
  predicate Delivers(fetches: seq<Fetch>, rows: seq<Row>) {
    |rows| <= |fetches| && forall i :: 0 <= i < |rows| ==> fetches[i] == Got(rows[i])
  }

  /** At most `max` rows, under the byte budget without the last of them. */
  predicate Bounded(rows: seq<Row>, max: nat) {
    |rows| <= max && forall i :: 0 <= i < |rows| ==> Bytes(rows[..i]) < BYTE_BUDGET
  }

  /** The chunk a result set gives: its first rows, cut at `max`, at the budget or at the end. */
  predicate IsChunk(fetches: seq<Fetch>, max: nat, rows: seq<Row>) {
    && Delivers(fetches, rows) && Bounded(rows, max)
    && (|rows| == max || |rows| == |fetches| || Bytes(rows) >= BYTE_BUDGET)
  }

  lemma {:induction false} BytesAppend(rows: seq<Row>, row: Row)
    ensures Bytes(rows + [row]) == Bytes(rows) + row.bytes
  {
    assert (rows + [row])[..|rows|] == rows;
  }

  /** There is only one such chunk. */
  lemma {:induction false} ChunkUnique(fetches: seq<Fetch>, max: nat, a: seq<Row>, b: seq<Row>)
    requires IsChunk(fetches, max, a) && IsChunk(fetches, max, b)
    ensures a == b
  {
    if |a| <= |b| {
      NoShorterChunk(fetches, max, a, b);
    } else {
      NoShorterChunk(fetches, max, b, a);
    }
  }

  lemma {:induction false} NoShorterChunk(fetches: seq<Fetch>, max: nat, a: seq<Row>, b: seq<Row>)
    requires IsChunk(fetches, max, a) && IsChunk(fetches, max, b) && |a| <= |b|
    ensures a == b
  {
    hide Bytes;
    assert a == b[..|a|] by {
      assert forall i :: 0 <= i < |a| ==> fetches[i] == Got(a[i]) && fetches[i] == Got(b[i]);
    }
    assert |a| == |b|;
  }

  class ResultSet {
    var rest: seq<Fetch>

    constructor (fetches: seq<Fetch>)
      ensures rest == fetches
    {
      rest := fetches;
    }

    /** The next read; none once the result set has ended. */
    method Next() returns (r: Option<Fetch>)
      modifies this
      ensures old(rest) == [] ==> r.None? && rest == []
      ensures old(rest) != [] ==> r == Some(old(rest)[0]) && rest == old(rest)[1..]
    {
      if rest == [] {
        return None;
      }
      r := Some(rest[0]);
      rest := rest[1..];
    }
  }

  /** `pull_chunk`: the next chunk, or `None` at a failed read, which drops the rows of the chunk begun.
      `used` counts the rows read. */
  method PullChunk(rs: ResultSet, max: nat) returns (r: Option<seq<Row>>, ghost used: nat)
    modifies rs
    ensures r.Some? ==> IsChunk(old(rs.rest), max, r.value) && used == |r.value| && rs.rest == old(rs.rest)[used..]
    ensures r.None? ==>
      used < max && used < |old(rs.rest)| && old(rs.rest)[used] == Failed && AllGot(old(rs.rest)[..used])
    ensures r.None? ==> rs.rest == old(rs.rest)[used + 1..]
  {
    hide Bytes, Delivers, Bounded, AllGot;
    var rows: seq<Row> := [];
    var bytes := 0;
    ghost var fetches := rs.rest;
    NothingYet(fetches, max);
    while |rows| < max
      invariant |rows| <= |fetches| && |rows| <= max && rs.rest == fetches[|rows|..]
      invariant Delivers(fetches, rows) && Bounded(rows, max) && Bytes(rows) < BYTE_BUDGET
      invariant bytes == Bytes(rows)
    {
      var next := rs.Next();
      if next.None? {
        break;
      }
      used := |rows|;
      assert fetches[used..][0] == fetches[used] && fetches[used..][1..] == fetches[used + 1..];
      if next.value == Failed {
        DeliversGot(fetches, rows);
        return None, used;
      }
      var row := next.value.row;
      bytes := SaturatingAdd(bytes, row.bytes);
      BytesAppend(rows, row);
      DeliversMore(fetches, rows, row);
      AppendBounded(rows, row, max);
      rows := rows + [row];
      if bytes >= BYTE_BUDGET {
        return Some(rows), |rows|;
      }
    }
    return Some(rows), |rows|;
  }

  lemma {:induction false} NothingYet(fetches: seq<Fetch>, max: nat)
    ensures Delivers(fetches, []) && Bounded([], max) && Bytes([]) == 0
  {
  }

  lemma {:induction false} DeliversGot(fetches: seq<Fetch>, rows: seq<Row>)
    requires Delivers(fetches, rows)
    ensures |rows| <= |fetches| && AllGot(fetches[..|rows|])
  {
  }

  lemma {:induction false} DeliversMore(fetches: seq<Fetch>, rows: seq<Row>, row: Row)
    requires Delivers(fetches, rows) && |rows| < |fetches| && fetches[|rows|] == Got(row)
    ensures Delivers(fetches, rows + [row])
  {
  }

  lemma {:induction false} AppendBounded(rows: seq<Row>, row: Row, max: nat)
    requires Bounded(rows, max) && |rows| < max && Bytes(rows) < BYTE_BUDGET
    ensures Bounded(rows + [row], max)
  {
    var more := rows + [row];
    forall i | 0 <= i < |more| ensures Bytes(more[..i]) < BYTE_BUDGET {
      if i == |rows| {
        assert more[..i] == rows;
      } else {
        assert more[..i] == rows[..i];
      }
    }
  }

  predicate AllGot(fetches: seq<Fetch>) {
    forall i :: 0 <= i < |fetches| ==> fetches[i].Got?
  }

  // ---- The statements of the bound rows ------------------------------------------------------------------

  /** Executing one statement inside the shared snapshot. */
  datatype Execution = ExecuteFails | Answers(fetches: seq<Fetch>)

  /** One bound row: binding it may fail, and its statement has one outcome. */
  datatype Bound = BindFails | Statement(execution: Execution)

  /** `LazyBoundStatements`: cursors into the bound batches. */
  class LazyBoundStatements {
    const groups: seq<seq<Bound>>
    var group: nat
    var row: nat

    ghost predicate Valid()
      reads this
    {
      group <= |groups| && (group < |groups| ==> row <= |groups[group]|)
    }

    /** The bound rows not yet turned into statements, in row-major order. */
    ghost function Remaining(): seq<Bound>
      requires Valid()
      reads this
    {
      From(groups, group, row)
    }

    constructor (groups: seq<seq<Bound>>)
      ensures Valid() && Remaining() == Flatten(groups) && this.groups == groups
    {
      this.groups := groups;
      group, row := 0, 0;
      new;
      FromStart(groups, 0);
      assert groups[0..] == groups;
    }

    /** `next_statement`. */
    method NextStatement() returns (r: Option<Bound>)
      requires Valid()
      modifies this
      ensures Valid()
      ensures old(Remaining()) == [] ==> r.None? && Remaining() == []
      ensures old(Remaining()) != [] ==> r == Some(old(Remaining())[0]) && Remaining() == old(Remaining())[1..]
    {
      hide From;
      while group < |groups|
        invariant Valid() && Remaining() == old(Remaining())
        decreases |groups| - group
      {
        var batch := groups[group];
        FromStep(groups, group, row);
        if row >= |batch| {
          group, row := group + 1, 0;
        } else {
          row := row + 1;
          return Some(batch[row - 1]);
        }
      }
      assert Remaining() == [] by { FromStart(groups, group); }
      return None;
    }
  }

  /** The elements from position `row` of batch `group` on. */
  function From<T>(groups: seq<seq<T>>, group: nat, row: nat): seq<T>
    requires group <= |groups| && (group < |groups| ==> row <= |groups[group]|)
  {
    if group < |groups| then groups[group][row..] + Flatten(groups[group + 1..]) else []
  }

  lemma {:induction false} FromStart<T>(groups: seq<seq<T>>, group: nat)
    requires group <= |groups|
    ensures From(groups, group, 0) == Flatten(groups[group..])
    ensures group == |groups| ==> forall row: nat :: From(groups, group, row) == []
  {
    if group < |groups| {
      assert groups[group..][0] == groups[group] && groups[group..][1..] == groups[group + 1..];
      assert groups[group][0..] == groups[group];
    }
  }

  lemma {:induction false} FromStep<T>(groups: seq<seq<T>>, group: nat, row: nat)
    requires group < |groups| && row <= |groups[group]|
    ensures row == |groups[group]| ==> From(groups, group, row) == From(groups, group + 1, 0)
    ensures row < |groups[group]| ==> From(groups, group, row) == [groups[group][row]] + From(groups, group, row + 1)
  {
    var batch, later := groups[group], Flatten(groups[group + 1..]);
    FromStart(groups, group + 1);
    if row < |batch| {
      assert batch[row..] == [batch[row]] + batch[row + 1..];
      assert [batch[row]] + batch[row + 1..] + later == [batch[row]] + (batch[row + 1..] + later);
    } else {
      assert batch[row..] + later == later;
    }
  }

  /** `build_bound_statements`: the statements of all bound rows at once, or `None` if a row fails to
      bind. Batches without rows are passed over. */
  method BuildBoundStatements(batches: seq<seq<Bound>>) returns (statements: Option<seq<Execution>>)
    ensures statements.Some? <==> BindFails !in Flatten(batches)
    ensures statements.Some? ==> |statements.value| == |Flatten(batches)|
    ensures statements.Some? ==>
      forall i :: 0 <= i < |statements.value| ==> Flatten(batches)[i] == Statement(statements.value[i])
  {
    var out: seq<Execution> := [];
    var b := 0;
    ghost var all := Flatten(batches);
    assert batches[..0] == [];
    while b < |batches|
      invariant 0 <= b <= |batches| && Bind(out) == Flatten(batches[..b])
    {
      FlattenPrefix(batches, b);
      var batch := batches[b];
      if |batch| == 0 {
        assert Bind(out) + batch == Bind(out);
        b := b + 1;
        continue;
      }
      var row := 0;
      while row < |batch|
        invariant 0 <= row <= |batch| && Bind(out) == Flatten(batches[..b]) + batch[..row]
      {
        if batch[row] == BindFails {
          assert all[|Flatten(batches[..b])| + row] == batch[row];
          return None;
        }
        assert batch[..row + 1] == batch[..row] + [batch[row]];
        assert Bind(out + [batch[row].execution]) == Bind(out) + [batch[row]];
        out := out + [batch[row].execution];
        row := row + 1;
      }
      assert batch[..row] == batch;
      b := b + 1;
    }
    assert batches[..b] == batches;
    return Some(out);
  }

  function Bind(executions: seq<Execution>): seq<Bound> {
    seq(|executions|, i requires 0 <= i < |executions| => Statement(executions[i]))
  }

  // ---- The chunks of a bound query -------------------------------------------------------------------------

  /** What a bound row contributes: its result rows, or one failure. */
  function Reads(bound: Bound): seq<Fetch> {
    if bound.BindFails? || bound.execution.ExecuteFails? then [Failed] else bound.execution.fetches
  }

  /** Running every bound row's statement in order. */
  function Eager(bounds: seq<Bound>): seq<Fetch> {
    if bounds == [] then [] else Reads(bounds[0]) + Eager(bounds[1..])
  }

  /** What one pull does to the reads that are left: a chunk is what comes next, within the bounds; a
      failure is reported where it occurs, and `used` counts the rows of the dropped chunk before it. */
  ghost predicate Pulled(before: seq<Fetch>, after: seq<Fetch>, max: nat, r: Option<seq<Row>>, used: nat) {
    if r.Some? then
      used == |r.value| <= |before| && Delivers(before, r.value) && Bounded(r.value, max) && after == before[used..]
    else
      && used < |before| && used < max && before[used] == Failed && AllGot(before[..used])
      && after == before[used + 1..]
  }

  /** `BoundQueryChunks`. */
  class BoundQueryChunks {
    const statements: LazyBoundStatements
    var resultSet: ResultSet?
    const batchSize: nat

    ghost predicate Valid()
      reads this, statements
    {
      statements.Valid() && batchSize >= 1
    }

    /** What has not been pulled yet. */
    ghost function Pending(): seq<Fetch>
      requires Valid()
      reads this, statements, resultSet
    {
      (if resultSet == null then [] else resultSet.rest) + Eager(statements.Remaining())
    }

    /** The option `spanner.rows_per_batch` takes positive numbers only. */
    constructor (statements: LazyBoundStatements, resultSet: ResultSet?, batchSize: nat)
      requires statements.Valid() && batchSize >= 1
      ensures Valid() && this.statements == statements && this.batchSize == batchSize && this.resultSet == resultSet
    {
      this.statements, this.resultSet, this.batchSize := statements, resultSet, batchSize;
    }

    /** `next_bound_chunk`, with `None` of the source as the empty chunk. */
    method NextChunk() returns (r: Option<seq<Row>>, ghost used: nat)
      requires Valid()
      modifies this, statements, resultSet
      ensures Valid() && (resultSet == old(resultSet) || resultSet == null || fresh(resultSet))
      ensures Pulled(old(Pending()), Pending(), batchSize, r, used)
      ensures r == Some([]) ==> old(Pending()) == []
    {
      hide Pulled, Eager;
      ghost var pending := Pending();
      while true
        invariant Valid() && Pending() == pending
        invariant resultSet == old(resultSet) || resultSet == null || fresh(resultSet)
        decreases |statements.Remaining()|, resultSet != null
      {
        if resultSet != null {
          r, used := PullCurrent();
          if r != Some([]) {
            return;
          }
        }
        var more;
        r, used, more := ExecuteNext();
        if !more {
          return;
        }
      }
    }

    /** The next chunk of the current result set, which is dropped when it has ended. */
    method PullCurrent() returns (r: Option<seq<Row>>, ghost used: nat)
      requires Valid() && resultSet != null
      modifies this, resultSet
      ensures Valid() && Pulled(old(Pending()), Pending(), batchSize, r, used)
      ensures r == Some([]) ==> resultSet == null && Pending() == old(Pending())
      ensures r != Some([]) ==> resultSet == old(resultSet)
    {
      hide Eager, Bounded, Delivers, IsChunk, AllGot;
      ghost var fetches, later := resultSet.rest, Eager(statements.Remaining());
      r, used := PullChunk(resultSet, batchSize);
      if r.None? {
        Tail(fetches, later, used);
        return;
      }
      ChunkOfMore(fetches, later, batchSize, r.value);
      Tail(fetches, later, used);
      if r.value == [] {
        resultSet := null;
      }
    }

    /** Binds and executes the next statement: `more` if there was one and it succeeded. */
    method ExecuteNext() returns (r: Option<seq<Row>>, ghost used: nat, more: bool)
      requires Valid() && resultSet == null
      modifies this, statements
      ensures Valid() && (more ==> fresh(resultSet) && Pending() == old(Pending()))
      ensures more ==> |statements.Remaining()| < |old(statements.Remaining())|
      ensures !more ==> resultSet == null && Pulled(old(Pending()), Pending(), batchSize, r, used)
      ensures !more && r.Some? ==> r == Some([]) && old(Pending()) == []
    {
      hide Eager, Reads, Bounded, Delivers, AllGot;
      EagerStep(statements.Remaining());
      used, more, r := 0, false, Some([]);
      var next := statements.NextStatement();
      if next.None? {
        NothingYet([], batchSize);
        EagerStep(statements.Remaining());
        assert Pending() == [] && old(Pending()) == [];
        return;
      }
      if next.value.BindFails? || next.value.execution.ExecuteFails? {
        FailedAtOnce(next.value, Eager(statements.Remaining()));
        r := None;
        return;
      }
      ReadsOfAnswers(next.value.execution.fetches);
      resultSet := new ResultSet(next.value.execution.fetches);
      more := true;
    }
  }

  /** A chunk of a result set is next in everything that is left, and empty only if the set has ended. */
  lemma {:induction false} ChunkOfMore(fetches: seq<Fetch>, later: seq<Fetch>, max: nat, rows: seq<Row>)
    requires max >= 1 && IsChunk(fetches, max, rows)
    ensures Delivers(fetches + later, rows) && Bounded(rows, max) && |rows| <= |fetches|
    ensures rows == [] ==> fetches == [] && fetches + later == later
  {
    NothingYet(fetches, max);
  }

  lemma {:induction false} FailedAtOnce(bound: Bound, later: seq<Fetch>)
    requires bound.BindFails? || bound.execution.ExecuteFails?
    ensures var all := Reads(bound) + later; |all| > 0 && all[0] == Failed && AllGot(all[..0]) && all[1..] == later
  {
  }

  lemma {:induction false} ReadsOfAnswers(fetches: seq<Fetch>)
    ensures Reads(Statement(Answers(fetches))) == fetches
  {
  }

  lemma {:induction false} Tail<T>(a: seq<T>, b: seq<T>, n: nat)
    requires n <= |a|
    ensures (a + b)[n..] == a[n..] + b
    ensures n < |a| ==> (a + b)[n + 1..] == a[n + 1..] + b && (a + b)[..n] == a[..n]
  {
  }

  lemma {:induction false} EagerStep(bounds: seq<Bound>)
    ensures bounds == [] ==> Eager(bounds) == []
    ensures bounds != [] ==> Eager(bounds) == Reads(bounds[0]) + Eager(bounds[1..])
  {
  }

  /** What the statements of the bound rows bring, row by row: all of a result set's reads, or one failure where a row
      does not bind or its statement does not run. */
  lemma {:induction false} EagerMeans(fetches: seq<Fetch>, rest: seq<Bound>)
    ensures Eager([]) == []
    ensures Eager([Statement(Answers(fetches))] + rest) == fetches + Eager(rest)
    ensures Eager([BindFails] + rest) == [Failed] + Eager(rest)
    ensures Eager([Statement(ExecuteFails)] + rest) == [Failed] + Eager(rest)
  {
    assert ([Statement(Answers(fetches))] + rest)[1..] == rest;
    assert ([BindFails] + rest)[1..] == rest;
    assert ([Statement(ExecuteFails)] + rest)[1..] == rest;
  }

  // ---- The whole stream ------------------------------------------------------------------------------------

  /** The rows before the first failure. */
  function RowsUpToFailure(fetches: seq<Fetch>): seq<Row> {
    if fetches == [] || fetches[0] == Failed then [] else [fetches[0].row] + RowsUpToFailure(fetches[1..])
  }

  /** A chunk moves its rows from what is left to what was delivered. */
  lemma {:induction false} RowsAfterChunk(fetches: seq<Fetch>, rows: seq<Row>)
    requires Delivers(fetches, rows)
    ensures RowsUpToFailure(fetches) == rows + RowsUpToFailure(fetches[|rows|..])
    ensures AllGot(fetches) <==> AllGot(fetches[|rows|..])
  {
    hide AllGot;
    GotAfterChunk(fetches, rows);
    if rows == [] {
      assert fetches[0..] == fetches;
    } else {
      var tail := RowsUpToFailure(fetches[|rows|..]);
      RowsAfterChunk(fetches[1..], rows[1..]);
      assert fetches[1..][|rows| - 1..] == fetches[|rows|..];
      assert [rows[0]] + (rows[1..] + tail) == rows + tail;
    }
  }

  lemma {:induction false} GotAfterChunk(fetches: seq<Fetch>, rows: seq<Row>)
    requires Delivers(fetches, rows)
    ensures AllGot(fetches) <==> AllGot(fetches[|rows|..])
  {
    var n := |rows|;
    if AllGot(fetches[n..]) {
      forall i | 0 <= i < |fetches| ensures fetches[i].Got? {
        assert i >= n ==> fetches[i] == fetches[n..][i - n];
      }
    }
  }

  /** The pulls of a prefetch task that is never cancelled: every chunk is sent on, and it stops at
      an empty chunk or at a failure. Without a failure the chunks are together exactly the rows of every
      bound row's statement in row-major order; with one they are a prefix of the rows before it, short
      of fewer than `batchSize` rows. No chunk is empty. */
  method Drain(source: BoundQueryChunks) returns (chunks: seq<seq<Row>>, failed: bool)
    requires source.Valid()
    modifies source, source.statements, source.resultSet
    ensures failed <==> !AllGot(old(source.Pending()))
    ensures !failed ==> Flatten(chunks) == RowsUpToFailure(old(source.Pending()))
    ensures failed ==> Flatten(chunks) <= RowsUpToFailure(old(source.Pending()))
    ensures failed ==> |RowsUpToFailure(old(source.Pending()))| - |Flatten(chunks)| < source.batchSize
    ensures forall c :: 0 <= c < |chunks| ==> chunks[c] != [] && Bounded(chunks[c], source.batchSize)
  {
    hide AllGot, Bounded, Delivers, RowsUpToFailure, Flatten;
    chunks := [];
    ghost var all := source.Pending();
    assert Flatten<Row>([]) == [] by { NoBatches<Row>(); }
    while true
      invariant source.Valid() && (source.resultSet == old(source.resultSet) || source.resultSet == null || fresh(source.resultSet))
      invariant RowsUpToFailure(all) == Flatten(chunks) + RowsUpToFailure(source.Pending())
      invariant AllGot(all) <==> AllGot(source.Pending())
      invariant forall c :: 0 <= c < |chunks| ==> chunks[c] != [] && Bounded(chunks[c], source.batchSize)
      decreases |source.Pending()|
    {
      ghost var before := source.Pending();
      var r, used := source.NextChunk();
      if r.None? {
        StopsAtFailure(before, used);
        assert Flatten(chunks) <= RowsUpToFailure(all);
        return chunks, true;
      }
      RowsAfterChunk(before, r.value);
      if r.value == [] {
        assert AllGot(before) && RowsUpToFailure(before) == [] by { EmptyRows(); }
        return chunks, false;
      }
      AppendBatch(chunks, r.value);
      Reassociate(Flatten(chunks), r.value, RowsUpToFailure(source.Pending()));
      chunks := chunks + [r.value];
    }
  }

  lemma {:induction false} EmptyRows()
    ensures AllGot([]) && RowsUpToFailure([]) == []
  {
  }

  lemma {:induction false} StopsAtFailure(fetches: seq<Fetch>, n: nat)
    requires n < |fetches| && fetches[n] == Failed && AllGot(fetches[..n])
    ensures !AllGot(fetches) && |RowsUpToFailure(fetches)| == n
  {
    if n > 0 {
      assert fetches[..n][0] == fetches[0] && fetches[1..][..n - 1] == fetches[..n][1..];
      StopsAtFailure(fetches[1..], n - 1);
    }
  }

  /** `stream_bound_query`, and its prefetch task drained: the first chunk, which alone may be empty, and
      then the fetch task's chunks. Streaming the bound batches lazily refines running all their statements. */
  method StreamBoundQuery(groups: seq<seq<Bound>>, batchSize: nat) returns (chunks: seq<seq<Row>>, failed: bool)
    requires batchSize >= 1
    ensures failed <==> !AllGot(Eager(Flatten(groups)))
    ensures !failed ==> Flatten(chunks) == RowsUpToFailure(Eager(Flatten(groups)))
    ensures failed ==> Flatten(chunks) <= RowsUpToFailure(Eager(Flatten(groups)))
    ensures failed ==> |RowsUpToFailure(Eager(Flatten(groups)))| - |Flatten(chunks)| < batchSize
    ensures forall c :: 0 <= c < |chunks| ==> (c > 0 ==> chunks[c] != []) && Bounded(chunks[c], batchSize)
  {
    hide AllGot, Bounded, Delivers, IsChunk, RowsUpToFailure, Eager, Reads, Flatten;
    var statements := new LazyBoundStatements(groups);
    ghost var all := Eager(Flatten(groups));
    EagerStep(statements.Remaining());
    NoBatches<Row>();
    var next := statements.NextStatement();
    if next.None? {
      EmptyRows();
      return [], false;
    }
    ghost var later := Eager(statements.Remaining());
    if next.value.BindFails? || next.value.execution.ExecuteFails? {
      FailedAtOnce(next.value, later);
      StopsAtFailure(all, 0);
      return [], true;
    }
    var fetches := next.value.execution.fetches;
    ReadsOfAnswers(fetches);
    var rs := new ResultSet(fetches);
    var first, used := PullChunk(rs, batchSize);
    if first.None? {
      Tail(fetches, later, used);
      StopsAtFailure(all, used);
      return [], true;
    }
    ChunkOfMore(fetches, later, batchSize, first.value);
    Tail(fetches, later, used);
    RowsAfterChunk(all, first.value);
    var source := new BoundQueryChunks(statements, rs, batchSize);
    ghost var pending := source.Pending();
    var rest;
    rest, failed := Drain(source);
    PrependBatch(first.value, rest);
    chunks := [first.value] + rest;
  }
}
