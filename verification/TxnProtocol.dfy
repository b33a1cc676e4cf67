/** Every interleaving of one connection thread (`commit`, `rollback`, the autocommit setter) with
    any number of statement threads over the shared transaction state.

    One event is one locked section, or one outcome of the apply that runs outside the lock. Runs
    are sequences of events; what was accepted, applied and handed out is read off the run itself. */
module TxnProtocol {
  import opened Wrappers
  import opened Transactions

  /** Where the connection thread is. */
  datatype Phase =
    | Idle
    | Committing(work: ManualTxn)   // a clone of the buffer is being applied
    | Committed(work: ManualTxn)    // applied; the drain has not happened yet
    | Toggling(work: ManualTxn)     // the buffer was taken and is being applied
    | ToggleFailed(work: ManualTxn) // not applied; the buffer has not been put back yet

  datatype World = World(
    shared: Snapshot,
    phase: Phase,
    readOnly: bool,
    /** The queries inside their unlocked build window, with the transaction each has built. */
    building: map<nat, Handle>,
    nextHandle: Handle)

  datatype Event =
    // Statement threads.
    | StoreDml(statements: seq<SpannerSql>)
    | StoreMutations(mutations: seq<Mutation>)
    | QueryLookup(tid: nat)
    | BuildFailed(tid: nat)
    | QueryInstall(tid: nat)
    // The connection thread.
    | CommitBegin
    | ApplyOk
    | ApplyFailed
    | ApplyRefused
    | CommitFinish
    | RestoreManual
    | Rollback
    | SetAutocommit(enable: bool)
    | SetReadOnly(on: bool)

  function Init(): World {
    World(Snapshot(true, Unset), Idle, false, map[], 0)
  }

  predicate Applying(w: World) {
    w.phase.Committing? || w.phase.Toggling?
  }

  predicate Enabled(w: World, e: Event) {
    match e
    case StoreDml(_) | StoreMutations(_) => true
    case QueryLookup(tid) => tid !in w.building
    case BuildFailed(_) | QueryInstall(_) => e.tid in w.building
    // `apply_manual_txn`: only buffered work can be refused, and only it reaches an RPC that can
    // fail.
    case ApplyRefused => Applying(w) && !CommitWritable(w.readOnly, w.phase.work)
    case ApplyFailed => Applying(w) && CommitWritable(w.readOnly, w.phase.work) && w.phase.work.Dml?
    case ApplyOk => Applying(w) && CommitWritable(w.readOnly, w.phase.work)
    case CommitFinish => w.phase.Committed?
    case RestoreManual => w.phase.ToggleFailed?
    case CommitBegin | Rollback | SetAutocommit(_) | SetReadOnly(_) => w.phase.Idle?
  }

  /** The connection thread's step after a failed or refused apply. */
  function AfterFailure(phase: Phase): Phase
    requires phase.Committing? || phase.Toggling?
  {
    if phase.Committing? then Idle else ToggleFailed(phase.work)
  }

  function Next(w: World, e: Event): World
    requires Enabled(w, e)
    requires e.CommitFinish? ==> w.shared.DrainInRange(w.phase.work)
  {
    var s := w.shared;
    match e
    case StoreDml(more) => if s.autocommit then w else w.(shared := s.WithDml(more))
    case StoreMutations(more) => if s.autocommit then w else w.(shared := s.WithMutations(more))
    case QueryLookup(tid) =>
      if s.autocommit || s.txn.Read? then w
      else w.(building := w.building[tid := w.nextHandle], nextHandle := w.nextHandle + 1)
    case BuildFailed(tid) => w.(building := w.building - {tid})
    case QueryInstall(tid) =>
      w.(building := w.building - {tid},
         shared := if s.autocommit then s else s.WithRead(w.building[tid]))
    case CommitBegin => if s.autocommit then w else w.(phase := Committing(s.txn))
    case ApplyOk => w.(phase := if w.phase.Committing? then Committed(w.phase.work) else Idle)
    case ApplyFailed | ApplyRefused => w.(phase := AfterFailure(w.phase))
    case CommitFinish => w.(phase := Idle, shared := s.Finished(w.phase.work))
    case RestoreManual => w.(phase := Idle, shared := Snapshot(false, w.phase.work))
    case Rollback => if s.autocommit then w else w.(shared := s.(txn := Unset))
    case SetAutocommit(enable) =>
      if enable && !s.autocommit
      then w.(shared := Snapshot(true, Unset), phase := Toggling(s.txn))
      else w.(shared := s.(autocommit := enable))
    case SetReadOnly(on) => w.(readOnly := on)
  }

  // ---- The invariant ---------------------------------------------------------------------------

  /** While a commit is under way, what it cloned is still a prefix of the shared buffer. */
  predicate Extends(txn: ManualTxn, work: ManualTxn) {
    work.Dml? ==> txn.Dml? && work.statements <= txn.statements && work.mutations <= txn.mutations
  }

  predicate Inv(w: World) {
    && w.shared.Valid()
    && (match w.phase
        case Idle => true
        case Committing(_) | Committed(_) =>
          && !w.shared.autocommit
          && (w.phase.work.Dml? ==> w.phase.work.HasPendingWork())
          && Extends(w.shared.txn, w.phase.work)
        case Toggling(work) =>
          && w.shared.autocommit
          && (work.Dml? ==> work.HasPendingWork())
        case ToggleFailed(work) =>
          && w.shared.autocommit
          && work.HasPendingWork())
  }

  lemma {:induction false} InvPreserved(w: World, e: Event)
    requires Inv(w) && Enabled(w, e)
    ensures e.CommitFinish? ==> w.shared.DrainInRange(w.phase.work)
    ensures Inv(Next(w, e))
  {
  }

  /** What is still owed: buffered and not applied, wherever it is held. */
  function Outstanding(w: World): (seq<SpannerSql>, seq<Mutation>)
    requires Inv(w)
  {
    match w.phase
    case Idle | Committing(_) => (w.shared.txn.Statements(), w.shared.txn.Mutations())
    case Committed(work) =>
      (w.shared.txn.Statements()[|work.Statements()|..], w.shared.txn.Mutations()[|work.Mutations()|..])
    case Toggling(_) | ToggleFailed(_) => (w.phase.work.Statements(), w.phase.work.Mutations())
  }

  // ---- Runs ------------------------------------------------------------------------------------

  /** The world a run leads to, or `None` when some event of it cannot happen or a drain would be
      out of range. */
  ghost function Exec(run: seq<Event>): Option<World> {
    if run == [] then Some(Init())
    else
      var before, e := Exec(run[..|run| - 1]), run[|run| - 1];
      if before.Some? && Enabled(before.value, e)
         && (e.CommitFinish? ==> before.value.shared.DrainInRange(before.value.phase.work))
      then Some(Next(before.value, e))
      else None
  }

  ghost predicate Legal(run: seq<Event>) {
    Exec(run).Some?
  }

  ghost function After(run: seq<Event>): World
    requires Legal(run)
  {
    Exec(run).value
  }

  /** Whether the store attempted in `w` is accepted into the buffer. */
  predicate Accepts(w: World) {
    !w.shared.autocommit && w.shared.KindAllowed(DmlKind)
  }

  lemma {:induction false} InvOverRuns(run: seq<Event>)
    requires Legal(run)
    ensures Inv(After(run))
  {
    if run != [] {
      InvOverRuns(run[..|run| - 1]);
      InvPreserved(After(run[..|run| - 1]), run[|run| - 1]);
    }
  }

  /** `finish_commit` never drains past the end of a buffer: a run can always take any enabled
      step. */
  lemma {:induction false} DrainNeverOutOfRange(run: seq<Event>, e: Event)
    requires Legal(run) && Enabled(After(run), e)
    ensures Legal(run + [e])
  {
    InvOverRuns(run);
    InvPreserved(After(run), e);
    assert (run + [e])[..|run|] == run;
  }

  /** What one event adds to the accepted work, and what it adds to the applied work; a rollback
      clears both. */
  function AcceptedBy(w: World, e: Event): (seq<SpannerSql>, seq<Mutation>) {
    if !Accepts(w) then ([], [])
    else if e.StoreDml? then (e.statements, [])
    else if e.StoreMutations? then ([], e.mutations)
    else ([], [])
  }

  function AppliedBy(w: World, e: Event): (seq<SpannerSql>, seq<Mutation>)
    requires Enabled(w, e)
  {
    if e.ApplyOk? then (w.phase.work.Statements(), w.phase.work.Mutations()) else ([], [])
  }

  predicate RollsBack(w: World, e: Event) {
    e.Rollback? && !w.shared.autocommit
  }

  /** The statements and mutations accepted since the last rollback, in order. */
  ghost function Accepted(run: seq<Event>): (seq<SpannerSql>, seq<Mutation>)
    requires Legal(run)
  {
    if run == [] then ([], []) else
    var before, e := run[..|run| - 1], run[|run| - 1];
    if RollsBack(After(before), e) then ([], [])
    else
      var more := AcceptedBy(After(before), e);
      (Accepted(before).0 + more.0, Accepted(before).1 + more.1)
  }

  /** The work applied by successful commits since the last rollback, in order. */
  ghost function Applied(run: seq<Event>): (seq<SpannerSql>, seq<Mutation>)
    requires Legal(run)
  {
    if run == [] then ([], []) else
    var before, e := run[..|run| - 1], run[|run| - 1];
    if RollsBack(After(before), e) then ([], [])
    else
      var more := AppliedBy(After(before), e);
      (Applied(before).0 + more.0, Applied(before).1 + more.1)
  }

  /** What an event accepts goes in at the back of the outstanding work and what it applies
      comes out at the front. */
  predicate Moves<T(==)>(owed: seq<T>, accepted: seq<T>, applied: seq<T>, left: seq<T>) {
    owed + accepted == applied + left
  }

  lemma {:induction false} KeptMoves<T>(owed: seq<T>)
    ensures Moves(owed, [], [], owed)
  {
    assert owed + [] == [] + owed;
  }

  lemma {:induction false} StoreDmlStep(w: World, e: Event)
    requires Inv(w) && e.StoreDml?
    ensures Inv(Next(w, e))
    ensures Outstanding(Next(w, e)) == (Outstanding(w).0 + AcceptedBy(w, e).0, Outstanding(w).1)
  {
    InvPreserved(w, e);
    assert Outstanding(w).0 + [] == Outstanding(w).0;
    if Accepts(w) && w.phase.Committed? {
      var buffer, k := w.shared.txn.Statements(), |w.phase.work.Statements()|;
      assert (buffer + e.statements)[k..] == buffer[k..] + e.statements;
    }
  }

  lemma {:induction false} StoreMutationsStep(w: World, e: Event)
    requires Inv(w) && e.StoreMutations?
    ensures Inv(Next(w, e))
    ensures Outstanding(Next(w, e)) == (Outstanding(w).0, Outstanding(w).1 + AcceptedBy(w, e).1)
  {
    InvPreserved(w, e);
    assert Outstanding(w).1 + [] == Outstanding(w).1;
    if Accepts(w) && w.phase.Committed? {
      var buffer, k := w.shared.txn.Mutations(), |w.phase.work.Mutations()|;
      assert (buffer + e.mutations)[k..] == buffer[k..] + e.mutations;
    }
  }

  /** A successful apply hands over exactly the front of the outstanding work. */
  lemma {:induction false} ApplyStep(w: World)
    requires Inv(w) && Enabled(w, ApplyOk)
    ensures Inv(Next(w, ApplyOk))
    ensures Outstanding(w).0 == w.phase.work.Statements() + Outstanding(Next(w, ApplyOk)).0
    ensures Outstanding(w).1 == w.phase.work.Mutations() + Outstanding(Next(w, ApplyOk)).1
  {
    InvPreserved(w, ApplyOk);
  }

  /** No other event but a rollback touches the outstanding work; the drain in particular moves
      nothing, it only catches up with the apply. */
  lemma {:induction false} QuietStep(w: World, e: Event)
    requires Inv(w) && Enabled(w, e)
    requires !e.StoreDml? && !e.StoreMutations? && !e.ApplyOk?
    ensures Inv(Next(w, e))
    ensures Outstanding(Next(w, e)) == if RollsBack(w, e) then ([], []) else Outstanding(w)
  {
    InvPreserved(w, e);
  }

  lemma {:induction false} OutstandingStep(w: World, e: Event)
    requires Inv(w) && Enabled(w, e)
    ensures Inv(Next(w, e))
    ensures RollsBack(w, e) ==> Outstanding(Next(w, e)) == ([], [])
    ensures !RollsBack(w, e) ==>
              && Moves(Outstanding(w).0, AcceptedBy(w, e).0, AppliedBy(w, e).0, Outstanding(Next(w, e)).0)
              && Moves(Outstanding(w).1, AcceptedBy(w, e).1, AppliedBy(w, e).1, Outstanding(Next(w, e)).1)
  {
    KeptMoves(Outstanding(w).0);
    KeptMoves(Outstanding(w).1);
    if e.StoreDml? {
      StoreDmlStep(w, e);
    } else if e.StoreMutations? {
      StoreMutationsStep(w, e);
    } else if e.ApplyOk? {
      ApplyStep(w);
    } else {
      QuietStep(w, e);
    }
  }

  /** Conservation: since the last rollback, what was accepted is what was applied followed by what
      is still outstanding, in order, with nothing lost and nothing twice. */
  lemma {:induction false} Conservation(run: seq<Event>)
    requires Legal(run)
    ensures Inv(After(run))
    ensures Accepted(run).0 == Applied(run).0 + Outstanding(After(run)).0
    ensures Accepted(run).1 == Applied(run).1 + Outstanding(After(run)).1
  {
    InvOverRuns(run);
    if run != [] {
      var before, e := run[..|run| - 1], run[|run| - 1];
      Conservation(before);
      OutstandingStep(After(before), e);
      if !RollsBack(After(before), e) {
        var w := After(before);
        Shift(Applied(before).0, Outstanding(w).0, AcceptedBy(w, e).0, AppliedBy(w, e).0, Outstanding(After(run)).0);
        Shift(Applied(before).1, Outstanding(w).1, AcceptedBy(w, e).1, AppliedBy(w, e).1, Outstanding(After(run)).1);
      }
    }
  }

  lemma {:induction false} Shift<T>(done: seq<T>, owed: seq<T>, more: seq<T>, now: seq<T>, left: seq<T>)
    requires Moves(owed, more, now, left)
    ensures (done + owed) + more == (done + now) + left
  {
    calc {
      (done + owed) + more;
      done + (owed + more);
      done + (now + left);
      (done + now) + left;
    }
  }

  // ---- A commit that does not apply loses nothing --------------------------------------------

  lemma {:induction false} PrefixLegal(run: seq<Event>, more: seq<Event>)
    requires Legal(run + more)
    ensures Legal(run)
  {
    if more == [] {
      assert run + more == run;
    } else {
      assert (run + more)[..|run + more| - 1] == run + more[..|more| - 1];
      PrefixLegal(run, more[..|more| - 1]);
    }
  }

  lemma {:induction false} Gain<T>(accepted: seq<T>, gained: seq<T>, more: seq<T>, owed: seq<T>, left: seq<T>)
    requires Moves(owed + gained, more, [], left)
    ensures (accepted + gained) + more == accepted + (gained + more)
    ensures left == owed + (gained + more)
  {
    assert [] + left == left;
    assert (owed + gained) + more == owed + (gained + more);
  }

  /** Over any stretch of a run without a successful apply and without a rollback, the outstanding
      work only gains, at its back, exactly what was accepted meanwhile. */
  lemma {:induction false} NothingLostWithoutApply(run: seq<Event>, more: seq<Event>)
    returns (statements: seq<SpannerSql>, mutations: seq<Mutation>)
    requires Legal(run + more)
    requires forall e :: e in more ==> !e.ApplyOk? && !e.Rollback?
    ensures Legal(run) && Inv(After(run)) && Inv(After(run + more))
    ensures Accepted(run + more) == (Accepted(run).0 + statements, Accepted(run).1 + mutations)
    ensures Outstanding(After(run + more)) ==
            (Outstanding(After(run)).0 + statements, Outstanding(After(run)).1 + mutations)
    ensures Applied(run + more) == Applied(run)
  {
    PrefixLegal(run, more);
    InvOverRuns(run);
    if more == [] {
      assert run + more == run;
      statements, mutations := [], [];
      assert Accepted(run).0 + [] == Accepted(run).0 && Accepted(run).1 + [] == Accepted(run).1;
      assert Outstanding(After(run)).0 + [] == Outstanding(After(run)).0;
      assert Outstanding(After(run)).1 + [] == Outstanding(After(run)).1;
    } else {
      var shorter, e := more[..|more| - 1], more[|more| - 1];
      assert (run + more)[..|run + more| - 1] == run + shorter;
      statements, mutations := NothingLostWithoutApply(run, shorter);
      var w := After(run + shorter);
      OutstandingStep(w, e);
      var plus := AcceptedBy(w, e);
      Gain(Accepted(run).0, statements, plus.0, Outstanding(After(run)).0, Outstanding(Next(w, e)).0);
      Gain(Accepted(run).1, mutations, plus.1, Outstanding(After(run)).1, Outstanding(Next(w, e)).1);
      assert Applied(run).0 + [] == Applied(run).0 && Applied(run).1 + [] == Applied(run).1;
      statements, mutations := statements + plus.0, mutations + plus.1;
    }
  }

  predicate ByStatement(e: Event) {
    e.StoreDml? || e.StoreMutations? || e.QueryLookup? || e.BuildFailed? || e.QueryInstall?
  }

  /** Statement threads never move the connection thread, and cannot reach the state a toggle left
      behind. */
  lemma {:induction false} StatementsLeavePhase(run: seq<Event>, during: seq<Event>)
    requires Legal(run + during)
    requires forall e :: e in during ==> ByStatement(e)
    ensures Legal(run)
    ensures After(run + during).phase == After(run).phase
    ensures After(run).shared.autocommit ==> After(run + during).shared == After(run).shared
    ensures After(run + during).shared.autocommit == After(run).shared.autocommit
  {
    PrefixLegal(run, during);
    if during == [] {
      assert run + during == run;
    } else {
      assert (run + during)[..|run + during| - 1] == run + during[..|during| - 1];
      StatementsLeavePhase(run, during[..|during| - 1]);
      assert ByStatement(during[|during| - 1]);
    }
  }

  /** A commit whose apply fails, or is refused because the connection is read-only, ends with the
      buffer it began with plus what statements appended while it ran. */
  lemma {:induction false} FailedCommitKeepsBuffer(run: seq<Event>, during: seq<Event>, fail: Event)
    returns (statements: seq<SpannerSql>, mutations: seq<Mutation>)
    requires fail.ApplyFailed? || fail.ApplyRefused?
    requires forall e :: e in during ==> ByStatement(e)
    requires Legal(run + ([CommitBegin] + during + [fail]))
    requires Legal(run) && !After(run).shared.autocommit
    ensures var before, after := After(run), After(run + ([CommitBegin] + during + [fail]));
            && after.phase.Idle? && !after.shared.autocommit
            && after.shared.txn.Statements() == before.shared.txn.Statements() + statements
            && after.shared.txn.Mutations() == before.shared.txn.Mutations() + mutations
            && Accepted(run + ([CommitBegin] + during + [fail])) ==
               (Accepted(run).0 + statements, Accepted(run).1 + mutations)
  {
    var stretch := [CommitBegin] + during + [fail];
    var begun, toFail := run + [CommitBegin], run + [CommitBegin] + during;
    assert (run + stretch)[..|run + stretch| - 1] == toFail;
    PrefixLegal(begun, during);
    assert begun[..|begun| - 1] == run;
    StatementsLeavePhase(begun, during);
    statements, mutations := NothingLostWithoutApply(run, stretch);
  }

  /** Turning autocommit on with an apply that fails puts back exactly the transaction it took:
      nothing can have been buffered in between. */
  lemma {:induction false} FailedToggleRestores(run: seq<Event>, during: seq<Event>, fail: Event, later: seq<Event>)
    requires fail.ApplyFailed? || fail.ApplyRefused?
    requires forall e :: e in during + later ==> ByStatement(e)
    requires Legal(run + [SetAutocommit(true)] + during + [fail] + later + [RestoreManual])
    requires Legal(run) && !After(run).shared.autocommit
    ensures var after := After(run + [SetAutocommit(true)] + during + [fail] + later + [RestoreManual]);
            after.shared == After(run).shared && after.phase.Idle?
  {
    var taken := run + [SetAutocommit(true)];
    var running := taken + during;
    var failed := running + [fail];
    var waiting := failed + later;
    assert forall e :: e in during ==> e in during + later;
    assert forall e :: e in later ==> e in during + later;
    PrefixLegal(waiting, [RestoreManual]);
    PrefixLegal(failed, later);
    PrefixLegal(running, [fail]);
    PrefixLegal(taken, during);
    assert taken[..|taken| - 1] == run;
    StatementsLeavePhase(taken, during);
    assert failed[..|failed| - 1] == running;
    StatementsLeavePhase(failed, later);
    assert (waiting + [RestoreManual])[..|waiting|] == waiting;
  }

  // ---- A commit that applies takes everything ------------------------------------------------------

  lemma {:induction false} LastStep(run: seq<Event>, e: Event)
    requires Legal(run + [e])
    ensures Legal(run) && Enabled(After(run), e) && Inv(After(run)) && Inv(After(run + [e]))
    ensures e.CommitFinish? ==> After(run).shared.DrainInRange(After(run).phase.work)
    ensures After(run + [e]) == Next(After(run), e)
    ensures !RollsBack(After(run), e) ==>
              && Applied(run + [e]) == (Applied(run).0 + AppliedBy(After(run), e).0, Applied(run).1 + AppliedBy(After(run), e).1)
              && Accepted(run + [e]) == (Accepted(run).0 + AcceptedBy(After(run), e).0, Accepted(run).1 + AcceptedBy(After(run), e).1)
  {
    hide Next, Enabled, Inv, AppliedBy, AcceptedBy, RollsBack;
    assert (run + [e])[..|run + [e]| - 1] == run;
    InvOverRuns(run);
    InvOverRuns(run + [e]);
  }

  /** A successful apply, whatever statements did since `open`, applies all that was open then. */
  lemma {:induction false} AppliesWhatWasTaken(run: seq<Event>, begin: Event, during: seq<Event>)
    requires begin == CommitBegin || begin == SetAutocommit(true)
    requires Legal(run) && !After(run).shared.autocommit
    requires forall e :: e in during ==> ByStatement(e)
    requires Legal(run + [begin] + during + [ApplyOk])
    ensures After(run + [begin] + during + [ApplyOk]).phase ==
            if begin.CommitBegin? then Committed(After(run).shared.txn) else Idle
    ensures Applied(run + [begin] + during + [ApplyOk]) ==
            (Applied(run).0 + After(run).shared.txn.Statements(), Applied(run).1 + After(run).shared.txn.Mutations())
    ensures Applied(run + [begin] + during + [ApplyOk]) == Accepted(run)
    ensures begin.SetAutocommit? ==> After(run + [begin] + during + [ApplyOk]).shared == Snapshot(true, Unset)
  {
    hide Inv, Accepted, Applied, Exec;
    var begun := run + [begin];
    LastStep(begun + during, ApplyOk);
    PrefixLegal(begun, during);
    LastStep(run, begin);
    StatementsLeavePhase(begun, during);
    Conservation(run);
    assert begun + during == run + ([begin] + during);
    var statements, mutations := NothingLostWithoutApply(run, [begin] + during);
  }

  /** A successful commit applies exactly what had been accepted before it began, statements and mutations,
      and ends with nothing open but what statements added while it ran. */
  lemma {:induction false} CommitTakesEverything(run: seq<Event>, during: seq<Event>, later: seq<Event>)
    requires Legal(run) && !After(run).shared.autocommit
    requires forall e :: e in during + later ==> ByStatement(e)
    requires Legal(run + [CommitBegin] + during + [ApplyOk] + later + [CommitFinish])
    ensures var whole := run + [CommitBegin] + during + [ApplyOk] + later + [CommitFinish];
            && After(whole).phase.Idle? && !After(whole).shared.autocommit
            && Applied(whole) == Accepted(run)
            && Accepted(whole).0 == Accepted(run).0 + After(whole).shared.txn.Statements()
            && Accepted(whole).1 == Accepted(run).1 + After(whole).shared.txn.Mutations()
            && (Accepted(whole) == Accepted(run) ==> After(whole).shared.txn.Unset?)
  {
    hide Inv, Accepted, Applied, Exec;
    var applied := run + [CommitBegin] + during + [ApplyOk];
    assert forall e :: e in during ==> e in during + later;
    assert forall e :: e in later ==> e in during + later;
    LastStep(applied + later, CommitFinish);
    PrefixLegal(applied, later);
    AppliesWhatWasTaken(run, CommitBegin, during);
    StatementsLeavePhase(applied, later);
    var statements, mutations := NothingLostWithoutApply(applied, later);
    Conservation(applied + later + [CommitFinish]);
    ModeOfCommitted(applied + later);
    FinishLeavesWork(After(applied + later));
    assert Applied(run).0 + [] == Applied(run).0;
    assert Accepted(run).0 + [] == Accepted(run).0 && Accepted(run).1 + [] == Accepted(run).1;
  }

  lemma {:induction false} ModeOfCommitted(run: seq<Event>)
    requires Legal(run) && After(run).phase.Committed?
    ensures !After(run).shared.autocommit
  {
    InvOverRuns(run);
  }

  lemma {:induction false} FinishLeavesWork(w: World)
    requires Inv(w) && w.phase.Committed?
    ensures w.shared.DrainInRange(w.phase.work)
    ensures var left := Next(w, CommitFinish).shared.txn;
            left.Unset? || (left.Dml? && (left.Statements() != [] || left.Mutations() != []))
  {
    InvPreserved(w, CommitFinish);
  }

  /** On a read-only connection no apply writes anything: with work to write only a refusal is possible. */
  lemma {:induction false} ReadOnlyAppliesNothing(run: seq<Event>)
    requires Legal(run + [ApplyOk]) && Legal(run) && After(run).readOnly
    ensures Applied(run + [ApplyOk]) == Applied(run)
  {
    LastStep(run, ApplyOk);
    var applied := AppliedBy(After(run), ApplyOk);
    assert applied == ([], []);
    assert Applied(run).0 + [] == Applied(run).0 && Applied(run).1 + [] == Applied(run).1;
  }

  /** What the calls do beside moving work: refusals change nothing, and the two switches set their mode. */
  lemma {:induction false} CallsAndModes(run: seq<Event>, e: Event)
    requires Legal(run + [e]) && Legal(run)
    ensures After(run).shared.autocommit && (e.StoreDml? || e.StoreMutations? || e.CommitBegin? || e.Rollback?) ==>
              After(run + [e]) == After(run)
    ensures e.SetAutocommit? ==> After(run + [e]).shared.autocommit == e.enable
    ensures e.SetReadOnly? ==> After(run + [e]) == After(run).(readOnly := e.on)
    ensures e.Rollback? && !After(run).shared.autocommit ==> After(run + [e]).shared == Snapshot(false, Unset)
  {
    LastStep(run, e);
  }

  /** What the statements' calls do in manual mode: work goes behind what is buffered unless queries hold the
      transaction, and a query fixes the transaction to reads unless work is buffered. */
  lemma {:induction false} StatementCalls(run: seq<Event>, e: Event)
    requires Legal(run + [e]) && Legal(run) && !After(run).shared.autocommit
    ensures var before, after := After(run).shared, After(run + [e]).shared;
            && (e.StoreDml? && !before.txn.Read? ==>
                  after.txn.Statements() == before.txn.Statements() + e.statements && after.txn.Mutations() == before.txn.Mutations())
            && (e.StoreMutations? && !before.txn.Read? ==>
                  after.txn.Statements() == before.txn.Statements() && after.txn.Mutations() == before.txn.Mutations() + e.mutations)
            && ((e.StoreDml? || e.StoreMutations?) && before.txn.Read? ==> after == before)
            && (e.QueryInstall? ==> after == if before.txn.Unset? then Snapshot(false, Read(After(run).building[e.tid])) else before)
            && (e.QueryLookup? || e.BuildFailed? ==> after == before)
  {
    LastStep(run, e);
    var txn := After(run).shared.txn;
    assert txn.Statements() + [] == txn.Statements() && txn.Mutations() + [] == txn.Mutations();
  }

  /** A call of the connection can always return: two more steps of its own suffice. */
  lemma {:induction false} CallsReturn(run: seq<Event>) returns (more: seq<Event>)
    requires Legal(run)
    ensures |more| <= 2 && forall e :: e in more ==> !ByStatement(e)
    ensures Legal(run + more) && After(run + more).phase.Idle?
  {
    more := [];
    assert run + more == run;
    if Applying(After(run)) {
      var w := After(run);
      var e := if CommitWritable(w.readOnly, w.phase.work) then ApplyOk else ApplyRefused;
      DrainNeverOutOfRange(run, e);
      LastStep(run, e);
      more := [e];
    }
    var upto := run + more;
    if !After(upto).phase.Idle? {
      var e := if After(upto).phase.Committed? then CommitFinish else RestoreManual;
      DrainNeverOutOfRange(upto, e);
      LastStep(upto, e);
      assert upto + [e] == run + (more + [e]);
      more := more + [e];
    }
  }

  // ---- Epochs: the stretches between two resets ------------------------------------------------

  /** The events that end a transaction: a rollback, a commit that leaves nothing pending, and a
      completed switch to autocommit. */
  predicate Resets(w: World, e: Event)
    requires Inv(w) && Enabled(w, e)
  {
    || RollsBack(w, e)
    || (e.CommitFinish? && (InvPreserved(w, e); Next(w, e).shared.txn.Unset?))
    || (e.ApplyOk? && w.phase.Toggling?)
  }

  /** The read transaction an event hands to a query, if any. */
  function HandedOut(w: World, e: Event): set<Handle>
    requires Enabled(w, e)
  {
    var s := w.shared;
    if s.autocommit then {}
    else if e.QueryLookup? && s.txn.Read? then {s.txn.handle}
    else if e.QueryInstall? && s.KindAllowed(ReadKind) then
      (if s.txn.Read? then {s.txn.handle} else {w.building[e.tid]})
    else {}
  }

  /** An epoch's record: the handles given to queries, whether work was accepted, and the handles
      given in earlier epochs. */
  datatype Epoch = Epoch(given: set<Handle>, worked: bool, past: set<Handle>)

  function EpochNext(w: World, epoch: Epoch, e: Event): Epoch
    requires Inv(w) && Enabled(w, e)
  {
    if Resets(w, e) then Epoch({}, false, epoch.past + epoch.given)
    else Epoch(epoch.given + HandedOut(w, e), epoch.worked || AcceptedBy(w, e) != ([], []), epoch.past)
  }

  ghost function EpochOf(run: seq<Event>): Epoch
    requires Legal(run)
  {
    if run == [] then Epoch({}, false, {}) else
    var before, e := run[..|run| - 1], run[|run| - 1];
    InvOverRuns(before);
    EpochNext(After(before), EpochOf(before), e)
  }

  /** The epoch's transaction, also while a switch to autocommit holds it. */
  function Open(w: World): ManualTxn {
    if w.phase.Toggling? || w.phase.ToggleFailed? then w.phase.work else w.shared.txn
  }

  /** The record and the open transaction tell the same story. */
  ghost predicate EpochFits(w: World, epoch: Epoch) {
    && epoch.given == (if Open(w).Read? then {Open(w).handle} else {})
    && (epoch.worked <==> Open(w).Dml?)
  }

  /** No handle is ever built twice. */
  ghost predicate HandlesFresh(w: World, epoch: Epoch) {
    && (forall t :: t in w.building ==> w.building[t] < w.nextHandle)
    && (forall t :: t in w.building ==> w.building[t] !in epoch.given + epoch.past)
    && (forall t, u :: t in w.building && u in w.building && t != u ==> w.building[t] != w.building[u])
    && (forall h :: h in epoch.given + epoch.past ==> h < w.nextHandle)
    && epoch.given !! epoch.past
  }

  lemma {:induction false} EpochFitsStep(w: World, epoch: Epoch, e: Event)
    requires Inv(w) && Enabled(w, e) && EpochFits(w, epoch)
    ensures Inv(Next(w, e)) && EpochFits(Next(w, e), EpochNext(w, epoch, e))
  {
    InvPreserved(w, e);
  }

  /** What a step may do to the handles: hand out one that leaves the window, mint a new one, or
      neither. */
  lemma {:induction false} HandlesStep(w: World, epoch: Epoch, e: Event)
    requires Inv(w) && Enabled(w, e) && EpochFits(w, epoch)
    ensures Inv(Next(w, e))
    ensures var w', epoch' := Next(w, e), EpochNext(w, epoch, e);
            && epoch'.given + epoch'.past <=
               epoch.given + epoch.past + (if e.QueryInstall? then {w.building[e.tid]} else {})
            && (epoch'.past == epoch.past || (epoch'.given == {} && epoch'.past == epoch.past + epoch.given))
            && (if e.QueryInstall? || e.BuildFailed? then
                  w'.building == w.building - {e.tid} && w'.nextHandle == w.nextHandle
                else if e.QueryLookup? && w' != w then
                  w'.building == w.building[e.tid := w.nextHandle] && w'.nextHandle == w.nextHandle + 1
                else
                  w'.building == w.building && w'.nextHandle == w.nextHandle)
  {
    InvPreserved(w, e);
    if !e.QueryInstall? {
      assert HandedOut(w, e) <= epoch.given;
    }
  }

  lemma {:induction false} HandlesFreshStep(w: World, epoch: Epoch, e: Event)
    requires Inv(w) && Enabled(w, e) && EpochFits(w, epoch) && HandlesFresh(w, epoch)
    ensures Inv(Next(w, e)) && HandlesFresh(Next(w, e), EpochNext(w, epoch, e))
  {
    HandlesStep(w, epoch, e);
  }

  lemma {:induction false} EpochOverRuns(run: seq<Event>)
    requires Legal(run)
    ensures EpochFits(After(run), EpochOf(run)) && HandlesFresh(After(run), EpochOf(run))
  {
    if run != [] {
      var before, e := run[..|run| - 1], run[|run| - 1];
      EpochOverRuns(before);
      InvOverRuns(before);
      EpochFitsStep(After(before), EpochOf(before), e);
      HandlesFreshStep(After(before), EpochOf(before), e);
    }
  }

  /** One kind and one snapshot per epoch: no epoch both accepts work and hands out a read
      transaction; all its queries get the same one, which no earlier epoch ever used; nothing is
      open in autocommit mode; and a DML transaction always holds work. */
  lemma {:induction false} OneKindOneSnapshot(run: seq<Event>)
    requires Legal(run)
    ensures !(EpochOf(run).worked && EpochOf(run).given != {})
    ensures forall g, h :: g in EpochOf(run).given && h in EpochOf(run).given ==> g == h
    ensures EpochOf(run).given !! EpochOf(run).past
    ensures After(run).shared.autocommit ==> After(run).shared.txn.Unset?
    ensures After(run).shared.txn.Dml? ==> After(run).shared.txn.HasPendingWork()
  {
    EpochOverRuns(run);
    InvOverRuns(run);
  }
}
