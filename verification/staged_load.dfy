/**
 * LoadIntoDatabaseOnArrivalListener: when a batch has been received into
 * staging, a load task is queued for it; when a batch arrives without a
 * staged resource, it is recorded and asked to be resent.  Once anything
 * has gone wrong, every later task asks for a resend instead of loading.
 *
 * The executor is reduced to a sequence of events: arrivals and task runs,
 * in the order they happen.  Loading from stage itself (the data processor
 * with the batch listener) is not part of this model; whether it throws is
 * a parameter.
 */
module StagedLoad {
  import opened Common
  import opened Entities
  import BatchListener

  /** The listener's state: the batch listener it shares, the error flag,
      the batches whose load tasks are queued, and the records written to
      incoming_batch with status RS. */
  datatype Arrival = Arrival(
    listener: BatchListener.Listener,
    isError: bool,
    queued: seq<Batch>,
    resends: seq<IncomingBatch>)

  /** The record written to ask the sender for a batch again. */
  function ResendRecord(b: Batch): (r: IncomingBatch)
    ensures r.status == RS && r.batchId == b.batchId && r.nodeId == b.sourceNodeId
  {
    FreshIncoming(b).(status := RS)
  }

  /** end(ctx, batch, resource): `staged` says whether a staged resource
      came with the batch; `acq` is what acquireIncomingBatch answers when
      it did not. */
  function End(a: Arrival, b: Batch, staged: bool, acq: BatchListener.Acquire): (r: Arrival)
    ensures staged ==> r == a.(queued := a.queued + [b])
    ensures !staged ==>
      && r.isError
      && r.queued == a.queued
      && r.listener.current == a.listener.current
      && |r.listener.processed| == |a.listener.processed| + 1
      && r.listener.processed[..|a.listener.processed|] == a.listener.processed
      && var rec := r.listener.processed[|a.listener.processed|];
         rec.batchId == b.batchId && rec.nodeId == b.sourceNodeId
         && (acq.claimed ==> rec.status == RS && r.resends == a.resends + [rec])
         && (!acq.claimed ==> rec.status == acq.status && r.resends == a.resends)
  {
    if staged then a.(queued := a.queued + [b])
    else
      var rec0 := BatchListener.Acquired(b, acq);
      var rec := if acq.claimed then rec0.(status := RS) else rec0;
      var processed := a.listener.processed + [rec];
      assert processed[..|a.listener.processed|] == a.listener.processed;
      Arrival(a.listener.(processed := processed), true, a.queued,
              if acq.claimed then a.resends + [rec] else a.resends)
  }

  /** What a load task does. */
  datatype TaskOutcome = LoadedFromStage | LoadFailed | MarkedResend

  /** The decision of the load task: load from stage only while no error
      has been seen and the staged resource still exists. */
  predicate LoadsFromStage(isError: bool, exists_: bool) {
    !isError && exists_
  }

  /** The load task for a queued batch: `exists_` is whether its staged
      resource still exists when the task runs; `loadFails` whether loading
      it throws. */
  function RunTask(a: Arrival, b: Batch, exists_: bool, loadFails: bool): (r: (TaskOutcome, Arrival))
    ensures r.0 == MarkedResend <==> !LoadsFromStage(a.isError, exists_)
    ensures r.0 == MarkedResend ==> r.1 == a.(resends := a.resends + [ResendRecord(b)])
    ensures r.0 != MarkedResend ==> r.1 == a.(isError := a.isError || loadFails)
    ensures r.0 == LoadFailed <==> LoadsFromStage(a.isError, exists_) && loadFails
  {
    if LoadsFromStage(a.isError, exists_) then
      if loadFails then (LoadFailed, a.(isError := true)) else (LoadedFromStage, a)
    else
      (MarkedResend, a.(resends := a.resends + [ResendRecord(b)]))
  }

  /** One thing that happens to the listener. */
  datatype Event =
    | Arrive(batch: Batch, staged: bool, acq: BatchListener.Acquire)
    | Run(batch: Batch, exists_: bool, loadFails: bool)

  /** The listener after a sequence of events, and the outcome of each task
      run among them, in order. */
  function Replay(a: Arrival, events: seq<Event>): (r: (Arrival, seq<TaskOutcome>))
    ensures a.isError ==> r.0.isError
    decreases |events|
  {
    if |events| == 0 then (a, [])
    else
      var prev := Replay(a, events[..|events| - 1]);
      match events[|events| - 1]
      case Arrive(b, staged, acq) => (End(prev.0, b, staged, acq), prev.1)
      case Run(b, e, f) =>
        var step := RunTask(prev.0, b, e, f);
        (step.1, prev.1 + [step.0])
  }

  /** The error flag is sticky: once it is set, every later task asks for a
      resend, and none loads from stage. */
  lemma {:induction false} ErrorIsSticky(a: Arrival, events: seq<Event>)
    requires a.isError
    ensures Replay(a, events).0.isError
    ensures forall k :: 0 <= k < |Replay(a, events).1| ==> Replay(a, events).1[k] == MarkedResend
    decreases |events|
  {
    if |events| > 0 {
      ErrorIsSticky(a, events[..|events| - 1]);
    }
  }

  /** A batch arriving without staging stops all later loads from stage. */
  lemma MissingStageStopsLoads(a: Arrival, b: Batch, acq: BatchListener.Acquire, later: seq<Event>)
    ensures var after := End(a, b, false, acq);
      forall k :: 0 <= k < |Replay(after, later).1| ==> Replay(after, later).1[k] == MarkedResend
  {
    ErrorIsSticky(End(a, b, false, acq), later);
  }

  /** Without errors and with every staged resource present and loading
      cleanly, every task loads from stage. */
  lemma {:induction false} CleanRunLoadsAll(a: Arrival, events: seq<Event>)
    requires !a.isError
    requires forall k :: 0 <= k < |events| ==>
      (events[k].Arrive? ==> events[k].staged) && (events[k].Run? ==> events[k].exists_ && !events[k].loadFails)
    ensures !Replay(a, events).0.isError
    ensures forall k :: 0 <= k < |Replay(a, events).1| ==> Replay(a, events).1[k] == LoadedFromStage
    decreases |events|
  {
    if |events| > 0 {
      CleanRunLoadsAll(a, events[..|events| - 1]);
    }
  }
}
