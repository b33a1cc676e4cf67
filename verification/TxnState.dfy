/** The manual-transaction state a connection shares with its statements: the values it takes, what
    each locked section computes (functions on those values), and the object that updates them in
    place (`TxnState`), proved against the functions. */
module Transactions {
  import opened Wrappers

  /** A built statement, an insert mutation and a multi-use read-only transaction are opaque here:
      only their identity matters. */
  type SpannerSql(==, !new)
  type Mutation(==, !new)
  type Handle = nat

  datatype TxnKind = ReadKind | DmlKind

  datatype ManualTxn =
    | Unset
    | Read(handle: Handle)
    | Dml(statements: seq<SpannerSql>, mutations: seq<Mutation>)
  {
    function Kind(): Option<TxnKind> {
      match this
      case Unset => None
      case Read(_) => Some(ReadKind)
      case Dml(_, _) => Some(DmlKind)
    }

    predicate HasPendingWork() {
      Dml? && (statements != [] || mutations != [])
    }

    /** The buffered statements, none for the other kinds. */
    function Statements(): seq<SpannerSql> {
      if Dml? then statements else []
    }

    function Mutations(): seq<Mutation> {
      if Dml? then mutations else []
    }
  }

  /** The value of the shared state at one moment. */
  datatype Snapshot = Snapshot(autocommit: bool, txn: ManualTxn)
  {
    predicate KindAllowed(attempted: TxnKind) {
      autocommit || txn.Kind().None? || txn.Kind().value == attempted
    }

    /** What every locked section leaves behind: nothing is open in autocommit mode, and a DML
        transaction always holds work. */
    predicate Valid() {
      && (autocommit ==> txn.Unset?)
      && (txn.Dml? ==> txn.HasPendingWork())
    }

    function WithDml(more: seq<SpannerSql>): Snapshot {
      if !KindAllowed(DmlKind) || more == [] then this
      else this.(txn := Dml(txn.Statements() + more, txn.Mutations()))
    }

    function WithMutation(m: Mutation): Snapshot {
      if !KindAllowed(DmlKind) then this
      else this.(txn := Dml(txn.Statements(), txn.Mutations() + [m]))
    }

    function WithMutations(more: seq<Mutation>): Snapshot {
      if !KindAllowed(DmlKind) || more == [] then this
      else this.(txn := Dml(txn.Statements(), txn.Mutations() + more))
    }

    function WithRead(built: Handle): Snapshot {
      if !KindAllowed(ReadKind) || txn.Read? then this else this.(txn := Read(built))
    }

    /** The state after a commit that applied `applied`: the applied prefix is drained, what was
        appended behind it stays, and an emptied (or read) transaction is reset. */
    function Finished(applied: ManualTxn): Snapshot
      requires DrainInRange(applied)
    {
      var left :=
        if txn.Dml? && applied.Dml? then
          Dml(txn.statements[|applied.statements|..], txn.mutations[|applied.mutations|..])
        else txn;
      this.(txn := if left.HasPendingWork() then left else Unset)
    }

    /** The two drains stay inside the buffers. */
    predicate DrainInRange(applied: ManualTxn) {
      txn.Dml? && applied.Dml? ==>
        |applied.statements| <= |txn.statements| && |applied.mutations| <= |txn.mutations|
    }
  }

  /** Only work that would write is refused on a read-only connection. */
  predicate CommitWritable(readOnly: bool, work: ManualTxn) {
    !(readOnly && work.HasPendingWork())
  }

  /** The shared object. Every method is one locked section. */
  class TxnState {
    var autocommit: bool
    var txn: ManualTxn

    function Value(): Snapshot
      reads this
    {
      Snapshot(autocommit, txn)
    }

    constructor ()
      ensures Value() == Snapshot(true, Unset) && Value().Valid()
    {
      autocommit, txn := true, Unset;
    }

    method CheckKindAllowed(attempted: TxnKind) returns (ok: bool)
      ensures ok <==> autocommit || txn.Unset? || (attempted == ReadKind <==> txn.Read?)
      ensures ok <==> Value().KindAllowed(attempted)
    {
      if autocommit {
        return true;
      }
      match txn.Kind() {
        case None => return true;
        case Some(active) => return active == attempted;
      }
    }

    method StartReadTxn(built: Handle) returns (given: Option<Handle>)
      requires Value().Valid() && !autocommit
      modifies this
      ensures Value() == old(Value()).WithRead(built) && Value().Valid()
      ensures given.None? <==> old(txn).Dml?
      ensures given.None? ==> Value() == old(Value())
      ensures given.Some? ==> txn == Read(given.value)
      ensures old(txn).Read? ==> given == Some(old(txn).handle)
      ensures old(txn).Unset? ==> given == Some(built)
    {
      var ok := CheckKindAllowed(ReadKind);
      if !ok {
        return None;
      }
      if txn.Read? {
        given := Some(txn.handle);
      } else {
        txn := Read(built);
        given := Some(built);
      }
    }

    method BufferDml(more: seq<SpannerSql>) returns (ok: bool)
      requires Value().Valid() && !autocommit
      modifies this
      ensures Value() == old(Value()).WithDml(more) && Value().Valid()
      ensures ok <==> !old(txn).Read?
      ensures ok ==> txn.Statements() == old(txn).Statements() + more
      ensures ok ==> txn.Mutations() == old(txn).Mutations()
      ensures !ok ==> Value() == old(Value())
    {
      ok := CheckKindAllowed(DmlKind);
      if !ok || more == [] {
        return;
      }
      if txn.Dml? {
        txn := Dml(txn.statements + more, txn.mutations);
      } else {
        txn := Dml(more, []);
        assert [] + more == more;
      }
    }

    method BufferMutation(m: Mutation) returns (ok: bool)
      requires Value().Valid() && !autocommit
      modifies this
      ensures Value() == old(Value()).WithMutation(m) && Value().Valid()
      ensures ok <==> !old(txn).Read?
      ensures ok ==> txn.Mutations() == old(txn).Mutations() + [m]
      ensures ok ==> txn.Statements() == old(txn).Statements()
      ensures !ok ==> Value() == old(Value())
    {
      ok := CheckKindAllowed(DmlKind);
      if !ok {
        return;
      }
      if txn.Dml? {
        txn := Dml(txn.statements, txn.mutations + [m]);
      } else {
        txn := Dml([], [m]);
        assert [] + [m] == [m];
      }
    }

    /** The ingest's locked loop: all of its mutations are buffered, or none. */
    method BufferMutations(more: seq<Mutation>) returns (ok: bool)
      requires Value().Valid() && !autocommit
      modifies this
      ensures Value() == old(Value()).WithMutations(more) && Value().Valid()
      ensures ok <==> !old(txn).Read? || more == []
      ensures !ok ==> Value() == old(Value())
    {
      ok := true;
      var i := 0;
      while i < |more|
        invariant 0 <= i <= |more| && !autocommit && Value().Valid()
        invariant Value() == old(Value()).WithMutations(more[..i])
        invariant i > 0 ==> !old(txn).Read?
      {
        var stored := BufferMutation(more[i]);
        if !stored {
          return false;
        }
        assert more[..i + 1] == more[..i] + [more[i]];
        assert old(txn).Mutations() + more[..i + 1] == (old(txn).Mutations() + more[..i]) + [more[i]];
        i := i + 1;
      }
      assert more[..i] == more;
    }

    method EnterAutocommit() returns (taken: ManualTxn)
      requires Value().Valid()
      modifies this
      ensures taken == old(txn) && Value() == Snapshot(true, Unset)
    {
      autocommit := true;
      taken := txn;
      txn := Unset;
    }

    method RestoreManual(work: ManualTxn)
      requires txn.Unset?
      requires work.Dml? ==> work.HasPendingWork()
      modifies this
      ensures Value() == Snapshot(false, work) && Value().Valid()
    {
      autocommit := false;
      txn := work;
    }

    method FinishCommit(applied: ManualTxn)
      requires Value().Valid() && Value().DrainInRange(applied)
      modifies this
      ensures Value() == old(Value()).Finished(applied) && Value().Valid()
      ensures old(txn).Dml? && applied.Dml? ==>
                && old(txn).statements == old(txn).statements[..|applied.statements|] + txn.Statements()
                && old(txn).mutations == old(txn).mutations[..|applied.mutations|] + txn.Mutations()
      ensures old(txn).Read? ==> txn.Unset?
    {
      if txn.Dml? && applied.Dml? {
        txn := Dml(txn.statements[|applied.statements|..], txn.mutations[|applied.mutations|..]);
      }
      if !txn.HasPendingWork() {
        txn := Unset;
      }
    }

    method Rollback() returns (ok: bool)
      requires Value().Valid()
      modifies this
      ensures ok <==> !old(autocommit)
      ensures Value() == Snapshot(old(autocommit), Unset)
    {
      if autocommit {
        return false;
      }
      txn := Unset;
      return true;
    }

    /** The locked section of the autocommit setter: either the open transaction is taken to be
        committed, or only the mode changes. */
    method SetAutocommit(enable: bool) returns (pending: Option<ManualTxn>)
      requires Value().Valid()
      modifies this
      ensures Value().Valid() && autocommit == enable
      ensures pending == if enable && !old(autocommit) then Some(old(txn)) else None
      ensures txn == if enable then Unset else old(txn)
    {
      if enable && !autocommit {
        var taken := EnterAutocommit();
        return Some(taken);
      }
      autocommit := enable;
      return None;
    }
  }
}
