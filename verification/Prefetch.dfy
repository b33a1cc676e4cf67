/** The cancellable prefetch pipeline behind a streamed result: the background task of
    `prefetch_loop`, the capacity-1 channel, the reader's `next`, and the sticky cancel signal, in
    every interleaving.

    The task's cancel checks are races: a pull or a send may still complete after the signal is
    latched, so both outcomes are allowed from then on. The reader's cancel check and its receive are
    two separate steps. */
module Prefetch {
  import opened Wrappers
  import opened Sequences
  import BoundStream

  type Row = BoundStream.Row
  type Chunk = seq<Row>

  /** What the fetch task puts into the channel. */
  datatype Item = Rows(rows: Chunk) | FetchError | Cancelled

  datatype Task =
    | Pulling
    | Holding(rows: Chunk)  // parked on the send of a pulled chunk
    | SendingError
    | Finished

  datatype Reader =
    | BetweenCalls
    | Checking              // `next` was called; the signal has not been looked at yet
    | Receiving             // the signal was not latched when looked at

  /** What a call of `next` returned. */
  datatype Output =
    | Batch(rows: Chunk)
    | BadBatch(rows: Chunk) // the chunk arrived but did not convert; the reader goes on
    | Failed                // a fetch error or a cancellation; the reader has dropped the channel
    | End

  datatype World = World(
    latched: bool,
    pulled: nat,            // chunks taken from the source so far
    task: Task,
    channel: seq<Item>,
    reader: Reader,
    firstTaken: bool,
    held: bool,             // the reader still holds the receiving end
    received: nat,          // chunks the reader took out of the channel
    outputs: seq<Output>)

  datatype Event =
    | Latch
    // The task.
    | Pull
    | PullEnd
    | PullError
    | SeeCancel
    | Send
    | SendError
    // The reader. The flag says whether the chunk converts to a record batch.
    | TakeFirst(converts: bool)
    | CallNext
    | CheckSignal
    | Receive(converts: bool)
    | WakeCancelled

  /** A stream: the rows pulled up front to settle the schema (empty when there were none), and the
      chunks the source has left. An empty chunk would mean the end, so these are not empty. */
  datatype Stream = Stream(first: Chunk, rest: seq<Chunk>)
  {
    predicate Valid() {
      forall i :: 0 <= i < |rest| ==> rest[i] != []
    }
  }

  function Init(): World {
    World(false, 0, Pulling, [], BetweenCalls, false, true, 0, [])
  }

  function ToOutput(rows: Chunk, converts: bool): Output {
    if converts then Batch(rows) else BadBatch(rows)
  }

  predicate Enabled(s: Stream, w: World, e: Event) {
    match e
    case Latch => true
    case Pull => w.task.Pulling? && w.pulled < |s.rest|
    case PullEnd => w.task.Pulling? && w.pulled == |s.rest|
    case PullError => w.task.Pulling?
    case SeeCancel => w.latched && (w.task.Pulling? || w.task.Holding?)
    case Send => w.task.Holding? && (w.channel == [] || !w.held)
    case SendError => w.task.SendingError? && (w.channel == [] || !w.held)
    case TakeFirst(_) => w.reader.BetweenCalls? && !w.firstTaken && s.first != []
    case CallNext => w.reader.BetweenCalls? && (w.firstTaken || s.first == [])
    case CheckSignal => w.reader.Checking?
    case Receive(_) => w.reader.Receiving? && (w.channel != [] || w.task.Finished?)
    case WakeCancelled => w.reader.Receiving? && w.latched
  }

  /** The reader gives up the channel and reports `out`. */
  function Stop(w: World, out: Output): World {
    w.(reader := BetweenCalls, held := false, outputs := w.outputs + [out])
  }

  function Next(s: Stream, w: World, e: Event): World
    requires Enabled(s, w, e)
  {
    match e
    case Latch => w.(latched := true)
    case Pull => w.(pulled := w.pulled + 1, task := Holding(s.rest[w.pulled]))
    case PullEnd => w.(task := Finished)
    case PullError => w.(task := SendingError)
    case SeeCancel =>
      // Cancelled while pulling: the error is offered without waiting. Cancelled while holding a
      // chunk: the chunk is dropped silently.
      if w.task.Pulling? && w.channel == [] && w.held
      then w.(task := Finished, channel := [Cancelled])
      else w.(task := Finished)
    case Send => if w.held then w.(task := Pulling, channel := [Rows(w.task.rows)]) else w.(task := Finished)
    case SendError => if w.held then w.(task := Finished, channel := [FetchError]) else w.(task := Finished)
    case TakeFirst(converts) =>
      w.(firstTaken := true, outputs := w.outputs + [ToOutput(s.first, converts)])
    case CallNext =>
      if w.held then w.(firstTaken := true, reader := Checking)
      else w.(firstTaken := true, outputs := w.outputs + [End])
    case CheckSignal => if w.latched then Stop(w, Failed) else w.(reader := Receiving)
    case Receive(converts) =>
      if w.channel == [] then Stop(w, End)
      else if w.channel[0].Rows? then
        w.(reader := BetweenCalls, channel := [], received := w.received + 1,
           outputs := w.outputs + [ToOutput(w.channel[0].rows, converts)])
      else Stop(w.(channel := []), Failed)
    case WakeCancelled => Stop(w, Failed)
  }

  ghost function Exec(s: Stream, run: seq<Event>): Option<World> {
    if run == [] then Some(Init())
    else
      var before, e := Exec(s, run[..|run| - 1]), run[|run| - 1];
      if before.Some? && Enabled(s, before.value, e) then Some(Next(s, before.value, e)) else None
  }

  ghost predicate Legal(s: Stream, run: seq<Event>) {
    s.Valid() && Exec(s, run).Some?
  }

  ghost function After(s: Stream, run: seq<Event>): World
    requires Legal(s, run)
  {
    Exec(s, run).value
  }

  // ---- What was handed over --------------------------------------------------------------------

  /** All rows of the stream, in order. */
  function AllRows(s: Stream): Chunk {
    s.first + Flatten(s.rest)
  }

  /** The rows that reached the conversion, in order. */
  function Handed(outputs: seq<Output>): Chunk {
    if outputs == [] then [] else
    var last := outputs[|outputs| - 1];
    Handed(outputs[..|outputs| - 1]) + if last.Batch? || last.BadBatch? then last.rows else []
  }

  /** The rows of the batches returned to the consumer, in order. */
  function Delivered(outputs: seq<Output>): Chunk {
    if outputs == [] then [] else
    var last := outputs[|outputs| - 1];
    Delivered(outputs[..|outputs| - 1]) + if last.Batch? then last.rows else []
  }

  predicate AllConverted(outputs: seq<Output>) {
    forall i :: 0 <= i < |outputs| ==> !outputs[i].BadBatch?
  }

  predicate ErrorFree(outputs: seq<Output>) {
    forall i :: 0 <= i < |outputs| ==> !outputs[i].Failed? && !outputs[i].BadBatch?
  }

  // ---- The invariant ---------------------------------------------------------------------------

  /** The chunks pulled and not yet received: at most one in the channel, at most one in the fetch task's
      hands, in source order — or dropped by a task that has finished early. */
  predicate InFlight(s: Stream, w: World) {
    && |w.channel| <= 1
    && w.received <= w.pulled <= |s.rest|
    && var buffered := if w.channel != [] && w.channel[0].Rows? then 1 else 0;
       var inHand := if w.task.Holding? then 1 else 0;
       && w.received + buffered + inHand <= w.pulled <= w.received + 2
       && (buffered == 1 ==> w.channel[0].rows == s.rest[w.received])
       && (inHand == 1 ==> w.task.rows == s.rest[w.received + buffered])
       && (w.received + buffered + inHand < w.pulled ==> w.task.Finished? && (w.latched || !w.held))
  }

  /** Why a task can be finished while the channel is still held. */
  predicate FinishReason(s: Stream, w: World) {
    && (w.task.Finished? && w.held && !w.latched && (w.channel == [] || w.channel[0].Rows?) ==>
          w.pulled == |s.rest|)
    && (w.channel != [] && w.channel[0].Cancelled? ==> w.latched)
    && (w.channel != [] && !w.channel[0].Rows? ==> w.task.Finished?)
  }

  predicate HandedFits(s: Stream, w: World) {
    && w.received <= |s.rest|
    && Handed(w.outputs) == (if w.firstTaken then s.first else []) + Flatten(s.rest[..w.received])
  }

  /** The reader's side: chunks are only received after the first one, and an unlatched stream whose
      channel was given up without an error was drained. */
  predicate ReaderFits(s: Stream, w: World) {
    && (!w.reader.BetweenCalls? ==> w.held && w.firstTaken)
    && (!w.firstTaken ==> w.received == 0 && w.held && w.outputs == [])
    && (!w.held ==> (exists i :: 0 <= i < |w.outputs| && w.outputs[i].Failed?)
                    || w.latched || w.received == |s.rest|)
    && (w.held ==> forall i :: 0 <= i < |w.outputs| ==> !w.outputs[i].Failed? && !w.outputs[i].End?)
  }

  predicate Inv(s: Stream, w: World) {
    InFlight(s, w) && FinishReason(s, w) && HandedFits(s, w) && ReaderFits(s, w)
  }

  predicate ByReader(e: Event) {
    e.TakeFirst? || e.CallNext? || e.CheckSignal? || e.Receive? || e.WakeCancelled?
  }

  lemma {:induction false} InFlightTask(s: Stream, w: World, e: Event)
    requires Enabled(s, w, e) && !ByReader(e) && InFlight(s, w) && FinishReason(s, w)
    ensures InFlight(s, Next(s, w, e)) && FinishReason(s, Next(s, w, e))
  {
  }

  lemma {:induction false} InFlightReader(s: Stream, w: World, e: Event)
    requires Enabled(s, w, e) && ByReader(e) && InFlight(s, w) && FinishReason(s, w)
    requires !w.reader.BetweenCalls? ==> w.held
    ensures InFlight(s, Next(s, w, e)) && FinishReason(s, Next(s, w, e))
  {
  }

  lemma {:induction false} HandedAtReceive(s: Stream, w: World, e: Event)
    requires Enabled(s, w, e) && e.Receive? && w.channel != [] && w.channel[0].Rows?
    requires w.received < |s.rest| && w.channel[0].rows == s.rest[w.received]
    requires HandedFits(s, w)
    ensures HandedFits(s, Next(s, w, e))
  {
    var rows, sofar := s.rest[w.received], s.rest[..w.received];
    AppendBatch(sofar, rows);
    assert s.rest[..w.received + 1] == sofar + [rows];
    Reassociate(if w.firstTaken then s.first else [], Flatten(sofar), rows);
  }

  lemma {:induction false} HandedStep(s: Stream, w: World, e: Event)
    requires Enabled(s, w, e) && InFlight(s, w) && HandedFits(s, w) && ReaderFits(s, w)
    ensures HandedFits(s, Next(s, w, e))
  {
    if e.Receive? && w.channel != [] && w.channel[0].Rows? {
      HandedAtReceive(s, w, e);
    }
  }

  lemma {:induction false} ReaderStep(s: Stream, w: World, e: Event)
    requires Enabled(s, w, e) && InFlight(s, w) && FinishReason(s, w) && ReaderFits(s, w)
    ensures ReaderFits(s, Next(s, w, e))
  {
    if ByReader(e) {
      ReaderOutputs(s, w, e);
    }
  }

  lemma {:induction false} ReaderOutputs(s: Stream, w: World, e: Event)
    requires Enabled(s, w, e) && ByReader(e)
    requires InFlight(s, w) && FinishReason(s, w) && ReaderFits(s, w)
    ensures ReaderFits(s, Next(s, w, e))
  {
    var w' := Next(s, w, e);
    assert forall i :: 0 <= i < |w.outputs| ==> w'.outputs[i] == w.outputs[i];
    if |w'.outputs| > |w.outputs| && w'.outputs[|w.outputs|].Failed? {
      assert exists i :: 0 <= i < |w'.outputs| && w'.outputs[i].Failed?;
    }
  }

  lemma {:induction false} InvOverRuns(s: Stream, run: seq<Event>)
    requires Legal(s, run)
    ensures Inv(s, After(s, run))
  {
    if run != [] {
      var before, e := run[..|run| - 1], run[|run| - 1];
      InvOverRuns(s, before);
      var w := After(s, before);
      if ByReader(e) {
        InFlightReader(s, w, e);
      } else {
        InFlightTask(s, w, e);
      }
      HandedStep(s, w, e);
      ReaderStep(s, w, e);
    } else {
      assert s.rest[..0] == [];
    }
  }

  // ---- Order and completeness --------------------------------------------------------------------

  predicate RowsPresent(outputs: seq<Output>) {
    forall i :: 0 <= i < |outputs| && (outputs[i].Batch? || outputs[i].BadBatch?) ==> outputs[i].rows != []
  }

  lemma {:induction false} ConvertedAreDelivered(outputs: seq<Output>)
    ensures |Delivered(outputs)| <= |Handed(outputs)|
    ensures AllConverted(outputs) ==> Delivered(outputs) == Handed(outputs)
    ensures RowsPresent(outputs) && !AllConverted(outputs) ==> |Delivered(outputs)| < |Handed(outputs)|
  {
    if outputs != [] {
      ConvertedAreDelivered(outputs[..|outputs| - 1]);
    }
  }

  lemma {:induction false} NoEmptyBatchStep(s: Stream, w: World, e: Event)
    requires s.Valid() && Enabled(s, w, e) && InFlight(s, w) && RowsPresent(w.outputs)
    ensures RowsPresent(Next(s, w, e).outputs)
  {
    var outputs' := Next(s, w, e).outputs;
    assert forall i :: 0 <= i < |w.outputs| ==> outputs'[i] == w.outputs[i];
    if e.Receive? && w.channel != [] && w.channel[0].Rows? {
      assert outputs'[|w.outputs|].rows == s.rest[w.received];
    }
  }

  lemma {:induction false} NoEmptyBatch(s: Stream, run: seq<Event>)
    requires Legal(s, run)
    ensures RowsPresent(After(s, run).outputs)
  {
    if run != [] {
      var before, e := run[..|run| - 1], run[|run| - 1];
      NoEmptyBatch(s, before);
      InvOverRuns(s, before);
      NoEmptyBatchStep(s, After(s, before), e);
    }
  }

  /** In every run the rows handed over are a prefix of the stream's rows, and at most two pulled
      chunks are undelivered at any moment. */
  lemma {:induction false} PrefixAndBound(s: Stream, run: seq<Event>)
    requires Legal(s, run)
    ensures Handed(After(s, run).outputs) <= AllRows(s)
    ensures AllConverted(After(s, run).outputs) ==> Delivered(After(s, run).outputs) <= AllRows(s)
    ensures After(s, run).pulled <= After(s, run).received + 2
  {
    InvOverRuns(s, run);
    var w := After(s, run);
    FlattenTake(s.rest, w.received);
    assert s.rest[..0] == [];
    if AllConverted(w.outputs) {
      ConvertedAreDelivered(w.outputs);
    }
  }

  /** No batch is returned after a chunk that did not convert. */
  predicate NoBatchAfterBad(outputs: seq<Output>) {
    forall i, j :: 0 <= i < j < |outputs| && outputs[i].BadBatch? ==> !outputs[j].Batch?
  }

  predicate AllDifferent(rows: Chunk) {
    forall i, j :: 0 <= i < j < |rows| ==> rows[i] != rows[j]
  }

  lemma {:induction false} PrefixIfNoneAfterBad(outputs: seq<Output>)
    requires NoBatchAfterBad(outputs)
    ensures Delivered(outputs) <= Handed(outputs)
  {
    if outputs != [] {
      var n := |outputs| - 1;
      if outputs[n].Batch? {
        assert AllConverted(outputs[..n]);
        ConvertedAreDelivered(outputs[..n]);
      } else {
        PrefixIfNoneAfterBad(outputs[..n]);
      }
    }
  }

  /** A batch delivered behind a gap cannot continue the prefix. */
  lemma {:induction false} GapShows(delivered: Chunk, handed: Chunk, rows: Chunk)
    requires |delivered| < |handed| && rows != [] && AllDifferent(handed + rows)
    ensures !(delivered + rows <= handed + rows)
  {
    var d, h := delivered + rows, handed + rows;
    assert h[|delivered|] != h[|handed|];
    assert d[|delivered|] == rows[0] == h[|handed|];
  }

  lemma {:induction false} NoneAfterBadIfPrefix(outputs: seq<Output>)
    requires RowsPresent(outputs) && AllDifferent(Handed(outputs)) && Delivered(outputs) <= Handed(outputs)
    ensures NoBatchAfterBad(outputs)
  {
    if outputs != [] {
      var n := |outputs| - 1;
      var most, last := outputs[..n], outputs[n];
      ConvertedAreDelivered(most);
      if last.Batch? {
        if !AllConverted(most) {
          GapShows(Delivered(most), Handed(most), last.rows);
          assert false;
        }
        assert forall i :: 0 <= i < n ==> outputs[i] == most[i];
      } else {
        assert Delivered(outputs) == Delivered(most);
        assert Handed(most) <= Handed(outputs);
        NoneAfterBadIfPrefix(most);
        assert forall i :: 0 <= i < n ==> outputs[i] == most[i];
      }
    }
  }

  /** When the delivered rows are a prefix of the stream's rows: if no batch follows a chunk that did not
      convert, and, for streams whose rows are pairwise different, only then. */
  lemma {:induction false} DeliveredPrefixExactly(s: Stream, run: seq<Event>)
    requires Legal(s, run)
    ensures NoBatchAfterBad(After(s, run).outputs) ==> Delivered(After(s, run).outputs) <= AllRows(s)
    ensures AllDifferent(AllRows(s)) ==>
              (Delivered(After(s, run).outputs) <= AllRows(s) <==> NoBatchAfterBad(After(s, run).outputs))
  {
    hide Delivered, Handed;
    var outputs := After(s, run).outputs;
    PrefixAndBound(s, run);
    NoEmptyBatch(s, run);
    ConvertedAreDelivered(outputs);
    if NoBatchAfterBad(outputs) {
      PrefixIfNoneAfterBad(outputs);
    } else if AllDifferent(AllRows(s)) && Delivered(outputs) <= AllRows(s) {
      assert Delivered(outputs) <= Handed(outputs);
      NoneAfterBadIfPrefix(outputs);
    }
  }

  /** An error-free end with the signal unlatched means that every row was delivered. */
  lemma {:induction false} EndMeansComplete(s: Stream, run: seq<Event>)
    requires Legal(s, run)
    requires var w := After(s, run); w.outputs != [] && w.outputs[|w.outputs| - 1].End?
    requires ErrorFree(After(s, run).outputs) && !After(s, run).latched
    ensures Delivered(After(s, run).outputs) == AllRows(s)
  {
    InvOverRuns(s, run);
    var w := After(s, run);
    ConvertedAreDelivered(w.outputs);
    assert s.rest[..|s.rest|] == s.rest;
  }

  // ---- What a call returns -------------------------------------------------------------------------

  lemma {:induction false} LastStep(s: Stream, run: seq<Event>, e: Event)
    requires Legal(s, run + [e])
    ensures Legal(s, run) && Enabled(s, After(s, run), e) && After(s, run + [e]) == Next(s, After(s, run), e)
    ensures Inv(s, After(s, run))
  {
    hide Next, Enabled, Inv;
    assert (run + [e])[..|run + [e]| - 1] == run;
    InvOverRuns(s, run);
  }

  /** A reader that still holds its channel ends the stream only when the fetch task has finished and left nothing in
      the channel. */
  lemma {:induction false} EndOnlyWhenDrained(s: Stream, run: seq<Event>, e: Event)
    requires Legal(s, run + [e]) && Legal(s, run) && After(s, run).held
    requires After(s, run + [e]).outputs == After(s, run).outputs + [End]
    ensures After(s, run).task.Finished? && After(s, run).channel == []
  {
    LastStep(s, run, e);
    var w := After(s, run);
    var out := After(s, run + [e]).outputs[|w.outputs|];
    assert out.End?;
  }

  /** A call that sees the cancellation while it checks or waits, or receives an error from the fetch task, returns
      one failure and gives up the channel; a call that receives rows returns just those. */
  lemma {:induction false} CallReturns(s: Stream, run: seq<Event>, e: Event)
    requires Legal(s, run + [e]) && Legal(s, run)
    ensures var w, w' := After(s, run), After(s, run + [e]);
            && (e.WakeCancelled? || (e.CheckSignal? && w.latched)
                || (e.Receive? && w.channel != [] && (w.channel[0].Cancelled? || w.channel[0].FetchError?)) ==>
                  w'.outputs == w.outputs + [Failed] && !w'.held && w'.reader.BetweenCalls?)
            && (e.Receive? && w.channel != [] && w.channel[0].Rows? ==>
                  w'.outputs == w.outputs + [if e.converts then Batch(w.channel[0].rows) else BadBatch(w.channel[0].rows)] && w'.held)
            && (e.TakeFirst? ==> w'.outputs == [if e.converts then Batch(s.first) else BadBatch(s.first)])
            && (e.Latch? || w.latched ==> w'.latched)
  {
    LastStep(s, run, e);
  }

  /** The pipeline never deadlocks: while a call waits, it can return or the fetch task can move. */
  lemma {:induction false} NoDeadlock(s: Stream, run: seq<Event>) returns (e: Event)
    requires Legal(s, run) && !After(s, run).reader.BetweenCalls?
    ensures Legal(s, run + [e]) && !e.Latch? && !e.PullError?
  {
    InvOverRuns(s, run);
    var w := After(s, run);
    if w.reader.Checking? {
      e := CheckSignal;
    } else if w.channel != [] || w.task.Finished? {
      e := Receive(true);
    } else if w.task.Pulling? {
      e := if w.pulled < |s.rest| then Pull else PullEnd;
    } else if w.task.Holding? {
      e := Send;
    } else {
      e := SendError;
    }
    assert (run + [e])[..|run|] == run;
  }

  // ---- A latched signal ends the stream ----------------------------------------------------------

  /** The outputs of a stream that was cancelled between two calls: one failure, then nothing. */
  predicate FailsThenEnds(outputs: seq<Output>) {
    outputs != [] ==> outputs[0].Failed? && forall i :: 1 <= i < |outputs| ==> outputs[i].End?
  }

  lemma {:induction false} PrefixLegal(s: Stream, run: seq<Event>, more: seq<Event>)
    requires Legal(s, run + more)
    ensures Legal(s, run)
  {
    if more == [] {
      assert run + more == run;
    } else {
      assert (run + more)[..|run + more| - 1] == run + more[..|more| - 1];
      PrefixLegal(s, run, more[..|more| - 1]);
    }
  }

  /** What a stream looks like from the moment it was cancelled between two calls (`w0`) on. */
  predicate Ending(w0: World, w: World) {
    && w.latched && w.firstTaken && !w.reader.Receiving? && w.received == w0.received
    && w0.outputs <= w.outputs && FailsThenEnds(w.outputs[|w0.outputs|..])
    && (w.held <==> w.outputs == w0.outputs)
    && (!w.held ==> w.reader.BetweenCalls?)
  }

  lemma {:induction false} EndingStep(s: Stream, w0: World, w: World, e: Event)
    requires Ending(w0, w) && Enabled(s, w, e)
    ensures Ending(w0, Next(s, w, e))
  {
    var n := |w0.outputs|;
    if ByReader(e) {
      assert !e.TakeFirst? && !e.Receive?;
      var w' := Next(s, w, e);
      assert w'.outputs == w.outputs || w'.outputs[n..] == w.outputs[n..] + [w'.outputs[|w.outputs|]];
    }
  }

  /** Once the signal is latched with the first chunk taken, no call in progress and the channel
      still held, whatever happens next: the following `next` fails and every later one ends, even
      with a chunk already buffered. */
  lemma {:induction false} LatchEndsStream(s: Stream, run: seq<Event>, more: seq<Event>)
    requires Legal(s, run + more) && Legal(s, run)
    requires var w := After(s, run); w.latched && w.firstTaken && w.held && w.reader.BetweenCalls?
    ensures After(s, run).outputs <= After(s, run + more).outputs
    ensures FailsThenEnds(After(s, run + more).outputs[|After(s, run).outputs|..])
    ensures Ending(After(s, run), After(s, run + more))
  {
    hide Next, Enabled;
    if more == [] {
      assert run + more == run;
    } else {
      var shorter, e := more[..|more| - 1], more[|more| - 1];
      assert (run + more)[..|run + more| - 1] == run + shorter;
      PrefixLegal(s, run + shorter, [e]);
      LatchEndsStream(s, run, shorter);
      EndingStep(s, After(s, run), After(s, run + shorter), e);
    }
  }

  // ---- The reader goes on after a chunk that does not convert -----------------------------------

  lemma {:induction false} Then(s: Stream, run: seq<Event>, e: Event) returns (longer: seq<Event>)
    requires Legal(s, run) && Enabled(s, After(s, run), e)
    ensures longer == run + [e] && Legal(s, longer) && After(s, longer) == Next(s, After(s, run), e)
  {
    longer := run + [e];
    assert longer[..|run|] == run;
  }

  /** A call of `next` with a chunk in the fetch task's hands. */
  lemma {:induction false} ThenDeliver(s: Stream, run: seq<Event>, converts: bool) returns (longer: seq<Event>)
    requires Legal(s, run)
    requires var w := After(s, run);
             && !w.latched && w.task.Pulling? && w.channel == [] && w.reader.BetweenCalls? && w.firstTaken
             && w.held && w.pulled < |s.rest|
    ensures Legal(s, longer)
    ensures var w := After(s, run);
            After(s, longer) == w.(pulled := w.pulled + 1, received := w.received + 1,
                                   outputs := w.outputs + [ToOutput(s.rest[w.pulled], converts)])
  {
    longer := Then(s, run, Pull);
    longer := Then(s, longer, Send);
    longer := Then(s, longer, CallNext);
    longer := Then(s, longer, CheckSignal);
    longer := Then(s, longer, Receive(converts));
  }

  /** Delivered rows need not be a prefix once a chunk fails to convert: the reader keeps the
      channel and the next call delivers the chunk after it. */
  lemma {:induction false} SkippedChunkRun(a: Row, b: Row, c: Row) returns (s: Stream, run: seq<Event>)
    requires a != b && b != c
    ensures Legal(s, run) && !After(s, run).latched
    ensures AllRows(s) == [a, b, c]
    ensures Delivered(After(s, run).outputs) == [a, c]
    ensures !(Delivered(After(s, run).outputs) <= AllRows(s))
  {
    s := Stream([a], [[b], [c]]);
    assert Legal(s, []);
    run := Then(s, [], TakeFirst(true));
    run := ThenDeliver(s, run, false);
    run := ThenDeliver(s, run, true);
    var out := After(s, run).outputs;
    assert out == [Batch([a]), BadBatch([b]), Batch([c])];
    assert out[..2] == [Batch([a]), BadBatch([b])] && out[..2][..1] == [Batch([a])] && out[..2][..1][..0] == [];
    assert Delivered(out[..2][..1]) == [a];
    assert Delivered(out[..2]) == [a];
    assert Delivered(out) == [a] + [c] == [a, c];
    assert s.rest[1..] == [[c]] && [[c]][1..] == [] && Flatten([[c]]) == [c];
    assert Flatten(s.rest) == [b] + [c] == [b, c];
    assert AllRows(s) == [a, b, c];
    assert Delivered(out)[1] != AllRows(s)[1];
  }

  // ---- The pipeline over a bound query -------------------------------------------------------------------

  /** `stream_bound_query` with its prefetch task and reader, end to end. The chunks of the source make the
      stream. In every interleaving the rows handed over are a prefix of the rows of running every bound
      row's statement in row-major order, up to the first failure; and where the source does not fail, an
      error-free end with the signal unlatched means that exactly those rows were delivered. */
  method BoundPipeline(groups: seq<seq<BoundStream.Bound>>, batchSize: nat) returns (s: Stream, failed: bool)
    requires batchSize >= 1
    ensures s.Valid() && (failed <==> !BoundStream.AllGot(BoundStream.Eager(Flatten(groups))))
    ensures forall run :: Legal(s, run) ==> Handed(After(s, run).outputs) <= EagerRows(groups)
    ensures !failed ==> forall run :: Legal(s, run) && EndsCleanly(After(s, run)) ==> Delivered(After(s, run).outputs) == EagerRows(groups)
  {
    hide Exec, AllRows, Handed, Delivered, EagerRows, EndsCleanly, BoundStream.AllGot, BoundStream.Bounded;
    var chunks;
    chunks, failed := BoundStream.StreamBoundQuery(groups, batchSize);
    s := if chunks == [] then Stream([], []) else Stream(chunks[0], chunks[1..]);
    StreamOfChunks(chunks, s);
    assert EagerRows(groups) == BoundStream.RowsUpToFailure(BoundStream.Eager(Flatten(groups))) by { EagerRowsAre(groups); }
    forall run | Legal(s, run) ensures Handed(After(s, run).outputs) <= EagerRows(groups) {
      PrefixAndBound(s, run);
    }
    if !failed {
      forall run | Legal(s, run) && EndsCleanly(After(s, run)) ensures Delivered(After(s, run).outputs) == EagerRows(groups) {
        CleanEndIsComplete(s, run);
      }
    }
  }

  /** The rows of running every bound row's statement in order, up to the first failure. */
  function EagerRows(groups: seq<seq<BoundStream.Bound>>): Chunk {
    BoundStream.RowsUpToFailure(BoundStream.Eager(Flatten(groups)))
  }

  lemma {:induction false} EagerRowsAre(groups: seq<seq<BoundStream.Bound>>)
    ensures EagerRows(groups) == BoundStream.RowsUpToFailure(BoundStream.Eager(Flatten(groups)))
  {
  }

  /** The last call returned the end, no call failed, and the signal is not latched. */
  predicate EndsCleanly(w: World) {
    w.outputs != [] && w.outputs[|w.outputs| - 1].End? && ErrorFree(w.outputs) && !w.latched
  }

  lemma {:induction false} CleanEndIsComplete(s: Stream, run: seq<Event>)
    requires Legal(s, run) && EndsCleanly(After(s, run))
    ensures Delivered(After(s, run).outputs) == AllRows(s)
  {
    hide Exec, Delivered, AllRows;
    EndMeansComplete(s, run);
  }

  lemma {:induction false} StreamOfChunks(chunks: seq<Chunk>, s: Stream)
    requires forall c :: 0 < c < |chunks| ==> chunks[c] != []
    requires s == if chunks == [] then Stream([], []) else Stream(chunks[0], chunks[1..])
    ensures s.Valid() && AllRows(s) == Flatten(chunks)
  {
  }
}
