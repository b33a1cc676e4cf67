/** Cancellation: the sticky per-operation signal, the slot that holds the current operation's
    signal, and the wait that parks until a signal is latched. */
module CancelSlots {

  /** A latch that is only ever set. */
  class CancelSignal {
    var cancelled: bool

    constructor ()
      ensures !cancelled
    {
      cancelled := false;
    }

    method Signal()
      modifies this
      ensures cancelled
    {
      cancelled := true;
    }
  }

  datatype SlotEvent = BeginOperation | Cancel

  /** The latches of every signal a slot has minted, oldest first; the last one is current. */
  function Latches(run: seq<SlotEvent>): (latches: seq<bool>)
    ensures |latches| > 0
  {
    if run == [] then [false] else LatchesNext(Latches(run[..|run| - 1]), run[|run| - 1])
  }

  function LatchesNext(latches: seq<bool>, e: SlotEvent): (next: seq<bool>)
    requires |latches| > 0
    ensures |next| > 0
  {
    match e
    case BeginOperation => latches + [false]
    case Cancel => latches[|latches| - 1 := true]
  }

  /** The slot. `minted` records every signal it has held. */
  class CancelSlot {
    var current: CancelSignal
    ghost var minted: seq<CancelSignal>

    ghost predicate Valid()
      reads this
    {
      && |minted| > 0 && current == minted[|minted| - 1]
      && forall i, j :: 0 <= i < j < |minted| ==> minted[i] != minted[j]
    }

    ghost function Status(): seq<bool>
      reads this, minted
    {
      seq(|minted|, i requires 0 <= i < |minted| reads this, minted => minted[i].cancelled)
    }

    constructor ()
      ensures Valid() && Status() == Latches([]) && fresh(current)
    {
      var s := new CancelSignal();
      current, minted := s, [s];
    }

    /** Mints a signal; no earlier signal changes. */
    method Begin() returns (s: CancelSignal)
      requires Valid()
      modifies this
      ensures Valid() && fresh(s) && current == s && minted == old(minted) + [s]
      ensures Status() == LatchesNext(old(Status()), BeginOperation)
    {
      s := new CancelSignal();
      current, minted := s, minted + [s];
    }

    /** Latches the current signal; no other signal changes. */
    method Signal()
      requires Valid()
      modifies current
      ensures Valid() && minted == old(minted)
      ensures Status() == LatchesNext(old(Status()), Cancel)
    {
      current.Signal();
    }
  }

  /** How many operations had begun: the index of the signal that is current after `run`. */
  function Begun(run: seq<SlotEvent>): nat {
    if run == [] then 0
    else Begun(run[..|run| - 1]) + if run[|run| - 1].BeginOperation? then 1 else 0
  }

  /** Some cancel in `run` happened while signal `i` was current. */
  ghost predicate CancelledWhileCurrent(run: seq<SlotEvent>, i: nat) {
    exists k :: 0 <= k < |run| && run[k] == Cancel && Begun(run[..k]) == i
  }

  /** A signal is latched exactly when some cancel ran while it was the current one. */
  lemma {:induction false} LatchedExactly(run: seq<SlotEvent>)
    ensures |Latches(run)| == Begun(run) + 1
    ensures forall i :: 0 <= i < |Latches(run)| ==> (Latches(run)[i] <==> CancelledWhileCurrent(run, i))
  {
    if run != [] {
      var before, e := run[..|run| - 1], run[|run| - 1];
      LatchedExactly(before);
      forall i | 0 <= i < |Latches(run)|
        ensures Latches(run)[i] <==> CancelledWhileCurrent(run, i)
      {
        LastEvent(before, e, i);
        assert run == before + [e];
        if i == |Latches(before)| {
          NotBegunNotCancelled(before, i);
        }
      }
    }
  }

  lemma {:induction false} LastEvent(before: seq<SlotEvent>, e: SlotEvent, i: nat)
    ensures CancelledWhileCurrent(before + [e], i) <==>
            CancelledWhileCurrent(before, i) || (e == Cancel && Begun(before) == i)
  {
    var run := before + [e];
    assert forall k :: 0 <= k < |before| ==> run[..k] == before[..k] && run[k] == before[k];
    assert run[..|before|] == before && run[|before|] == e;
    if CancelledWhileCurrent(before, i) {
      var k :| 0 <= k < |before| && before[k] == Cancel && Begun(before[..k]) == i;
      assert run[k] == Cancel && Begun(run[..k]) == i;
    }
  }

  lemma {:induction false} BegunGrows(run: seq<SlotEvent>, k: nat)
    requires k <= |run|
    ensures Begun(run[..k]) <= Begun(run)
  {
    if k < |run| {
      BegunGrows(run[..|run| - 1], k);
      assert run[..|run| - 1][..k] == run[..k];
    } else {
      assert run[..k] == run;
    }
  }

  lemma {:induction false} NotBegunNotCancelled(run: seq<SlotEvent>, i: nat)
    requires i > Begun(run)
    ensures !CancelledWhileCurrent(run, i)
  {
    forall k | 0 <= k < |run| ensures Begun(run[..k]) != i {
      BegunGrows(run, k);
    }
  }

  /** Isolation over runs: no later event unlatches a signal, and once another operation has begun
      nothing changes an earlier operation's signal at all. */
  lemma {:induction false} EarlierSignalsFixed(run: seq<SlotEvent>, more: seq<SlotEvent>, i: nat)
    requires i <= Begun(run)
    ensures |Latches(run)| == Begun(run) + 1 && i < |Latches(run + more)|
    ensures Latches(run)[i] ==> Latches(run + more)[i]
    ensures i < Begun(run) ==> Latches(run + more)[i] == Latches(run)[i]
    ensures more != [] && more[0] == BeginOperation ==> Latches(run + more)[i] == Latches(run)[i]
    ensures Begun(run) <= Begun(run + more)
  {
    LatchedExactly(run);
    LatchedExactly(run + more);
    if more == [] {
      assert run + more == run;
    } else {
      var shorter := more[..|more| - 1];
      assert (run + more)[..|run + more| - 1] == run + shorter;
      EarlierSignalsFixed(run, shorter, i);
      LatchedExactly(run + shorter);
      if more[0] == BeginOperation && shorter != [] {
        BegunGrows(run + shorter, |run| + 1);
        assert (run + shorter)[..|run| + 1][..|run|] == run;
      }
      if shorter == [] {
        assert run + shorter == run;
      }
    }
  }
}

/** `CancelSignal::cancelled()` against `CancelSignal::signal()`: any number of waiters and of
    signallers, interleaved step by step. `notify_waiters` wakes only waiters already registered, so
    the wait checks the flag, registers, and checks again before it parks. */
module CancelWait {

  datatype Waiter =
    | FirstCheck
    | Registering
    | SecondCheck
    | Parked
    | Returned

  datatype Signaller =
    | Storing
    | Notifying
    | Signalled

  datatype World = World(
    flag: bool,
    waiters: map<nat, Waiter>,
    signallers: map<nat, Signaller>,
    registered: set<nat>,
    notified: set<nat>)

  datatype Event =
    | Wait(w: nat)         // a new wait begins
    | Abandon(w: nat)      // the wait's future is dropped
    | WaiterStep(w: nat)
    | CallSignal(s: nat)   // a new `signal()` call begins
    | SignallerStep(s: nat)

  function Init(): World {
    World(false, map[], map[], {}, {})
  }

  predicate Enabled(v: World, e: Event) {
    match e
    case Wait(w) => w !in v.waiters
    case Abandon(w) => w in v.waiters
    case WaiterStep(w) =>
      && w in v.waiters && !v.waiters[w].Returned?
      && (v.waiters[w].Parked? ==> w in v.notified)
    case CallSignal(s) => s !in v.signallers
    case SignallerStep(s) => s in v.signallers && !v.signallers[s].Signalled?
  }

  function Next(v: World, e: Event): World
    requires Enabled(v, e)
  {
    match e
    case Wait(w) => v.(waiters := v.waiters[w := FirstCheck])
    case Abandon(w) =>
      v.(waiters := v.waiters - {w}, registered := v.registered - {w}, notified := v.notified - {w})
    case WaiterStep(w) =>
      (match v.waiters[w]
       case FirstCheck =>
         v.(waiters := v.waiters[w := if v.flag then Returned else Registering])
       case Registering =>
         v.(waiters := v.waiters[w := SecondCheck], registered := v.registered + {w})
       case SecondCheck =>
         if v.flag then
           v.(waiters := v.waiters[w := Returned],
              registered := v.registered - {w}, notified := v.notified - {w})
         else v.(waiters := v.waiters[w := Parked])
       case Parked =>
         v.(waiters := v.waiters[w := FirstCheck], notified := v.notified - {w}))
    case CallSignal(s) => v.(signallers := v.signallers[s := Storing])
    case SignallerStep(s) =>
      if v.signallers[s].Storing?
      then v.(flag := true, signallers := v.signallers[s := Notifying])
      else v.(notified := v.notified + v.registered, registered := {},
              signallers := v.signallers[s := Signalled])
  }

  ghost function Exec(run: seq<Event>): World
    requires Legal(run)
  {
    if run == [] then Init() else Next(Exec(run[..|run| - 1]), run[|run| - 1])
  }

  ghost predicate Legal(run: seq<Event>)
    decreases run, 0
  {
    run == [] || (Legal(run[..|run| - 1]) && Enabled(Exec(run[..|run| - 1]), run[|run| - 1]))
  }

  /** Some `signal()` call has returned. */
  ghost predicate SignalReturned(v: World) {
    exists s :: s in v.signallers && v.signallers[s].Signalled?
  }

  /** Parked with no wake-up on the way. */
  predicate Stuck(v: World, w: nat) {
    w in v.waiters && v.waiters[w].Parked? && w !in v.notified
  }

  ghost predicate Inv(v: World) {
    && (forall w :: w in v.waiters && (v.waiters[w].SecondCheck? || v.waiters[w].Parked?) ==>
          w in v.registered + v.notified)
    && (forall s :: s in v.signallers && !v.signallers[s].Storing? ==> v.flag)
    && (SignalReturned(v) ==> forall w :: !Stuck(v, w))
  }

  lemma {:induction false} InvPreserved(v: World, e: Event)
    requires Inv(v) && Enabled(v, e)
    ensures Inv(Next(v, e))
  {
    var v' := Next(v, e);
    if SignalReturned(v') {
      var s :| s in v'.signallers && v'.signallers[s].Signalled?;
      assert s in v.signallers;
      assert (e.SignallerStep? && v.signallers[e.s].Notifying?) || v.signallers[s].Signalled?;
      forall w
        ensures !Stuck(v', w)
      {
        assert w in v.waiters && v.waiters[w].Parked? ==> w in v.registered + v.notified;
        assert v.signallers[s].Signalled? ==> !Stuck(v, w);
      }
    }
  }

  lemma {:induction false} InvOverRuns(run: seq<Event>)
    requires Legal(run)
    ensures Inv(Exec(run))
  {
    if run != [] {
      InvOverRuns(run[..|run| - 1]);
      InvPreserved(Exec(run[..|run| - 1]), run[|run| - 1]);
    }
  }

  /** No lost wake-up: once a `signal()` has returned no waiter stays parked — each has returned, has
      been notified, or will read the set flag at its next check. */
  lemma {:induction false} NoLostWakeUp(run: seq<Event>, w: nat)
    requires Legal(run) && SignalReturned(Exec(run)) && w in Exec(run).waiters
    ensures Exec(run).flag
    ensures Exec(run).waiters[w].Parked? ==> w in Exec(run).notified
    ensures !Exec(run).waiters[w].Returned? ==> Enabled(Exec(run), WaiterStep(w))
  {
    InvOverRuns(run);
    var v := Exec(run);
    var s :| s in v.signallers && v.signallers[s].Signalled?;
    assert !Stuck(v, w);
  }

  /** A wait returns only once some `signal()` has set the flag, and nothing else sets it. */
  lemma {:induction false} ReturnedMeansSignalled(run: seq<Event>)
    requires Legal(run)
    ensures forall w :: w in Exec(run).waiters && Exec(run).waiters[w].Returned? ==> Exec(run).flag
    ensures Exec(run).flag ==> exists k :: 0 <= k < |run| && run[k].SignallerStep?
  {
    if run != [] {
      var n := |run| - 1;
      var before, e := run[..n], run[n];
      ReturnedMeansSignalled(before);
      var v := Exec(before);
      assert Exec(run) == Next(v, e);
      if v.flag {
        var k :| 0 <= k < |before| && before[k].SignallerStep?;
        assert run[k].SignallerStep?;
      } else if Exec(run).flag {
        assert run[n].SignallerStep?;
      }
    }
  }

  /** How many of its own steps a waiter still needs once the flag is set. */
  function StepsOwed(v: World, w: nat): nat
    requires w in v.waiters
  {
    match v.waiters[w]
    case Returned => 0
    case FirstCheck | SecondCheck => 1
    case Registering | Parked => 2
  }

  /** Count of `w`'s own steps in a stretch. */
  function OwnSteps(more: seq<Event>, w: nat): nat {
    if more == [] then 0
    else OwnSteps(more[..|more| - 1], w) + if more[|more| - 1] == WaiterStep(w) then 1 else 0
  }

  /** After a `signal()` has returned, every step a waiter takes brings it closer to returning and
      nothing anyone else does sets it back: two of its own steps always suffice. */
  lemma {:induction false} WaiterReturns(run: seq<Event>, more: seq<Event>, w: nat)
    requires Legal(run) && Legal(run + more)
    requires SignalReturned(Exec(run)) && w in Exec(run).waiters
    requires forall e :: e in more ==> e != Abandon(w)
    ensures SignalReturned(Exec(run + more)) && w in Exec(run + more).waiters
    ensures StepsOwed(Exec(run + more), w) + OwnSteps(more, w) == StepsOwed(Exec(run), w)
    ensures OwnSteps(more, w) <= 2
    ensures OwnSteps(more, w) == 2 ==> Exec(run + more).waiters[w].Returned?
  {
    if more == [] {
      assert run + more == run;
    } else {
      var shorter, e := more[..|more| - 1], more[|more| - 1];
      assert (run + more)[..|run + more| - 1] == run + shorter;
      assert e in more && forall x :: x in shorter ==> x in more;
      WaiterReturns(run, shorter, w);
      NoLostWakeUp(run + shorter, w);
      SignalStaysReturned(Exec(run + shorter), e);
      OwedStep(Exec(run + shorter), e, w);
    }
  }

  lemma {:induction false} OwedStep(v: World, e: Event, w: nat)
    requires Enabled(v, e) && w in v.waiters && e != Abandon(w) && v.flag
    ensures w in Next(v, e).waiters
    ensures StepsOwed(Next(v, e), w) + (if e == WaiterStep(w) then 1 else 0) == StepsOwed(v, w)
  {
  }

  lemma {:induction false} SignalStaysReturned(v: World, e: Event)
    requires SignalReturned(v) && Enabled(v, e)
    ensures SignalReturned(Next(v, e))
  {
    var s :| s in v.signallers && v.signallers[s].Signalled?;
    assert s in Next(v, e).signallers && Next(v, e).signallers[s].Signalled?;
  }
}
