/**
 * ManageIncomingBatchListener: the loader's bookkeeping of incoming batches.
 * Every batch the loader is allowed to take is recorded in `processed`; the
 * one it claimed is the current batch, which the success and error
 * callbacks then update and persist.
 *
 * In the source the current batch is the same object as the last entry of
 * the processed list, so an update to one is visible through the other.
 * Here `current` is the index of that entry, and the callbacks rewrite the
 * entry in place.  The incoming batch service, the statistics of the
 * reader and writer, and the unwrapping of SQL errors are not part of this
 * model: their answers are parameters.
 */
module BatchListener {
  import opened Common
  import opened Entities
  import JavaStrings
  import IncomingErrors

  /** Constants.CHANNEL_CONFIG: the channel that loads even when the loader is
      disabled. */
  const ChannelConfig: string := "config"

  /** Constants.VIRTUAL_BATCH_FOR_REGISTRATION: the batch id that carries a
      node's complete configuration at registration. */
  const VirtualBatchForRegistration: int := -9999

  /** batchesProcessed and currentBatch. */
  datatype Listener = Listener(processed: seq<IncomingBatch>, current: Option<nat>)

  /** A new listener. */
  const Fresh: Listener := Listener([], None)

  /** The current batch, when there is one, is an entry of the processed list. */
  predicate Valid(l: Listener) {
    l.current.Some? ==> l.current.value < |l.processed|
  }

  /** The entry at `i` is the only one that may differ. */
  predicate OnlyAt(a: seq<IncomingBatch>, b: seq<IncomingBatch>, i: nat) {
    |a| == |b| && i < |a| && forall j :: 0 <= j < |a| && j != i ==> a[j] == b[j]
  }

  /** The loader may take the batch: loading is enabled, or the batch is on
      the configuration channel. */
  predicate LoadPermitted(loaderEnabled: bool, b: Batch) {
    loaderEnabled || b.channelId == Some(ChannelConfig)
  }

  /** The answer of acquireIncomingBatch: whether the batch is to be loaded,
      and the retry flag and status it leaves on the record. */
  datatype Acquire = Acquire(claimed: bool, retry: bool, status: IncomingStatus)

  /** What beforeBatchStarted returns and does: the verdict, the listener
      after it, and whether captured configuration was purged and marked sent
      for the source node (the registration batch). */
  datatype Started = Started(started: bool, listener: Listener, purgeConfig: bool)

  /** The record beforeBatchStarted adds for a batch. */
  function Acquired(b: Batch, acq: Acquire): IncomingBatch {
    FreshIncoming(b).(retry := acq.retry, status := acq.status)
  }

  /** beforeBatchStarted. */
  function BeforeBatchStarted(l: Listener, loaderEnabled: bool, b: Batch, acq: Acquire): (r: Started)
    requires Valid(l)
    ensures Valid(r.listener)
    ensures r.started <==> LoadPermitted(loaderEnabled, b) && acq.claimed
    ensures r.started <==> r.listener.current.Some?
    ensures r.started ==> r.listener.current.value == |l.processed|
    ensures LoadPermitted(loaderEnabled, b) ==> r.listener.processed == l.processed + [Acquired(b, acq)]
    ensures !LoadPermitted(loaderEnabled, b) ==> r.listener.processed == l.processed
    ensures r.purgeConfig <==> LoadPermitted(loaderEnabled, b) && b.batchId == VirtualBatchForRegistration
  {
    if LoadPermitted(loaderEnabled, b) then
      var processed := l.processed + [Acquired(b, acq)];
      Started(acq.claimed, Listener(processed, if acq.claimed then Some(|l.processed|) else None),
              b.batchId == VirtualBatchForRegistration)
    else
      Started(false, Listener(l.processed, None), false)
  }

  /** The current batch after a start is the record of that batch: its id
      and sending node are the batch's. */
  lemma StartedBatchIsCurrent(l: Listener, loaderEnabled: bool, b: Batch, acq: Acquire)
    requires Valid(l)
    requires BeforeBatchStarted(l, loaderEnabled, b, acq).started
    ensures var n := BeforeBatchStarted(l, loaderEnabled, b, acq).listener;
      n.processed[n.current.value].batchId == b.batchId
      && n.processed[n.current.value].nodeId == b.sourceNodeId
  {
  }

  /** A write of the incoming_batch table. */
  datatype BatchWrite = NoWrite | UpdateRow(row: IncomingBatch) | InsertRow(row: IncomingBatch)
                      | DeleteRow(row: IncomingBatch)

  /** What a callback throws: nothing to act on, or a failed write. */
  datatype Thrown = NoCurrentBatch | WriteFailed

  /** A callback's effect: the listener after it, the table write it made,
      and what it threw. */
  datatype Step = Step(listener: Listener, write: BatchWrite, thrown: Option<Thrown>)

  /** batchSuccessful.  `stats` stands for what setValues copies from the
      reader's and writer's statistics; `writeFails` says whether the update
      or delete it issues throws. */
  function BatchSuccessful(l: Listener, stats: LoadStatistics, recordOk: bool, writeFails: bool): (r: Step)
    requires Valid(l)
    ensures Valid(r.listener) && r.listener.current == l.current
    ensures l.current.None? ==> r == Step(l, NoWrite, Some(NoCurrentBatch))
    ensures l.current.Some? ==>
      var i := l.current.value;
      var old_ := l.processed[i];
      var b := r.listener.processed[i];
      && OnlyAt(l.processed, r.listener.processed, i)
      && b == old_.(stats := stats, status := b.status)
      && (r.thrown.None? ==> b.status == OK)
      && (r.thrown == Some(WriteFailed) <==> writeFails && (recordOk || old_.retry))
      && (r.thrown.Some? ==> b.status == old_.status && r.write == NoWrite)
      && (r.write.UpdateRow? <==> recordOk && !writeFails)
      && (r.write.DeleteRow? <==> !recordOk && old_.retry && !writeFails)
      && (!r.write.NoWrite? ==> r.write.row == b)
  {
    if l.current.None? then Step(l, NoWrite, Some(NoCurrentBatch))
    else
      var i := l.current.value;
      var counted := l.processed[i].(stats := stats);
      var ok := counted.(status := OK);
      var write := if recordOk then UpdateRow(ok) else if ok.retry then DeleteRow(ok) else NoWrite;
      if !write.NoWrite? && writeFails then
        Step(Listener(l.processed[i := counted], l.current), NoWrite, Some(WriteFailed))
      else
        Step(Listener(l.processed[i := ok], l.current), write, None)
  }

  /** A failed write leaves the current batch's status as it was: the
      status set to OK is rolled back in memory as well. */
  lemma SuccessRollsBackOnWriteFailure(l: Listener, stats: LoadStatistics, writeFails: bool)
    requires Valid(l) && l.current.Some?
    requires l.processed[l.current.value].retry
    ensures var r := BatchSuccessful(l, stats, false, writeFails);
      writeFails <==> r.listener.processed[l.current.value].status == l.processed[l.current.value].status
                      && r.thrown.Some?
  {
  }

  /** The SQLException that unwrapSqlException finds under a failure, and
      whether the template reads it as a foreign key violation. */
  datatype SqlError = SqlError(state: Option<string>, code: int, message: Option<string>, foreignKey: bool)

  /** The failure batchInError receives, as far as it distinguishes it. */
  datatype Failure =
    | IoFailure(message: Option<string>)
      // an IOException, TransportException or IoException
    | ConflictFailure(message: Option<string>, conflictId: Option<string>, cause: Option<SqlError>)
      // a ConflictException: its message, its conflict's id, and the SQL cause
    | OtherFailure(message: Option<string>, cause: Option<SqlError>)
      // any other throwable, and the SQL cause when there is one

  /** The SQL state, code and message batchInError records for a failure. */
  function RecordFailure(b: IncomingBatch, f: Failure): (r: IncomingBatch)
    ensures r.(sqlState := b.sqlState, sqlCode := b.sqlCode, sqlMessage := b.sqlMessage) == b
    ensures r.sqlState == ConflictState <==> f.ConflictFailure? || (b.sqlState == ConflictState && !RecordsSqlState(f))
    ensures f.IoFailure? ==> r.sqlMessage == f.message && r.sqlState == b.sqlState && r.sqlCode == b.sqlCode
    ensures f.OtherFailure? && f.cause.Some? ==>
      && r.sqlMessage == f.cause.value.message
      && (f.cause.value.foreignKey ==> r.sqlState == FkViolationState && r.sqlCode == FkViolationCode)
      && (!f.cause.value.foreignKey ==>
            r.sqlState == RawState(f.cause.value.state) && r.sqlCode == RawCode(f.cause.value.code))
    ensures f.OtherFailure? && f.cause.None? ==> r == b.(sqlMessage := f.message)
    ensures f.ConflictFailure? ==> r.sqlCode == ConflictCode && r.sqlMessage == ConflictMessage(f)
  {
    match f
    case IoFailure(m) => b.(sqlMessage := m)
    case ConflictFailure(m, _, se) =>
      b.(sqlMessage := ConflictMessage(f), sqlState := ConflictState, sqlCode := ConflictCode)
    case OtherFailure(m, se) =>
      if se.None? then b.(sqlMessage := m)
      else if se.value.foreignKey then
        b.(sqlState := FkViolationState, sqlCode := FkViolationCode, sqlMessage := se.value.message)
      else
        b.(sqlState := RawState(se.value.state), sqlCode := RawCode(se.value.code), sqlMessage := se.value.message)
  }

  /** The failure overwrites the recorded SQL state. */
  predicate RecordsSqlState(f: Failure) {
    f.ConflictFailure? || (f.OtherFailure? && f.cause.Some?)
  }

  /** A conflict's message, followed by the SQL cause's message when that is
      not blank.  A null message prints as "null" in the concatenation. */
  function ConflictMessage(f: Failure): (r: Option<string>)
    requires f.ConflictFailure?
    ensures f.cause.None? || JavaStrings.IsBlank(f.cause.value.message) ==> r == f.message
    ensures f.cause.Some? && JavaStrings.IsNotBlank(f.cause.value.message) ==>
      r.Some? && |r.value| > |f.cause.value.message.value|
      && r.value[|r.value| - |f.cause.value.message.value|..] == f.cause.value.message.value
    ensures f.cause.Some? && JavaStrings.IsNotBlank(f.cause.value.message) ==>
      r == Some(JavaStrings.ShowNullable(f.message) + " " + f.cause.value.message.value)
  {
    var se := f.cause;
    if se.Some? && JavaStrings.IsNotBlank(se.value.message) then
      Some(JavaStrings.ShowNullable(f.message) + " " + se.value.message.value)
    else f.message
  }

  /** A foreign key violation is recorded with its own markers only when it is
      not a conflict: a conflict always records the conflict markers. */
  lemma ConflictMarkersWin(b: IncomingBatch, message: Option<string>, conflictId: Option<string>, se: SqlError)
    ensures RecordFailure(b, ConflictFailure(message, conflictId, Some(se))).sqlState == ConflictState
    ensures RecordFailure(b, OtherFailure(message, Some(se))).sqlState
         == if se.foreignKey then FkViolationState else RawState(se.state)
  {
  }

  /** What the loader's context holds when a batch fails: the batch, and the
      table and row being written (either may be null) with the row's data
      as last read from the database. */
  datatype ErrorContext = ErrorContext(batch: Batch, table: Option<Table>, data: Option<CsvData>,
                                       curData: Option<string>)

  /** The incoming_error row batchInError builds for the failed row. */
  function ErrorRow(b: IncomingBatch, ctx: ErrorContext, f: Failure): (r: IncomingError)
    ensures r.batchId == b.batchId && r.nodeId == Some(b.nodeId)
    ensures r.failedRowNumber == b.stats.failedRowNumber && r.failedLineNumber == b.stats.failedLineNumber
    ensures r.table == ctx.table && r.row == ctx.data && r.encoding == ctx.batch.encoding
    ensures r.resolveData.None? && !r.resolveIgnore
    ensures r.curData == ctx.curData
    ensures f.ConflictFailure? ==> r.conflictId == f.conflictId
    ensures !f.ConflictFailure? ==> r.conflictId.None?
  {
    IncomingError(b.batchId, Some(b.nodeId), b.stats.failedRowNumber, b.stats.failedLineNumber,
                  ctx.table, ctx.data, ctx.curData, ctx.batch.encoding, None, false,
                  if f.ConflictFailure? then f.conflictId else None)
  }

  /** A status batchInError leaves alone: a batch being skipped or ignored. */
  predicate Settled(s: IncomingStatus) {
    s == OK || s == IG
  }

  /** batchInError's effect: the listener, the incoming_error table and the
      incoming_batch write. */
  datatype ErrorStep = ErrorStep(listener: Listener, errors: seq<IncomingError>, write: BatchWrite)

  /** The failure's classification reads only the record's earlier SQL
      fields: two records that agree on those end with the same ones. */
  lemma RecordFailureReadsSqlOnly(b: IncomingBatch, b': IncomingBatch, f: Failure)
    requires b'.sqlState == b.sqlState && b'.sqlCode == b.sqlCode && b'.sqlMessage == b.sqlMessage
    ensures RecordFailure(b', f).sqlState == RecordFailure(b, f).sqlState
    ensures RecordFailure(b', f).sqlCode == RecordFailure(b, f).sqlCode
    ensures RecordFailure(b', f).sqlMessage == RecordFailure(b, f).sqlMessage
  {
  }

  /** The record batchInError leaves: the status read back (ER unless it
      is settled), the statistics copied when there are any, the failure's
      SQL classification, and every other field as it was. */
  function FailedRecord(old_: IncomingBatch, f: Failure, refreshed: IncomingStatus,
                        stats: Option<LoadStatistics>): (b: IncomingBatch)
    ensures b.(status := old_.status, stats := old_.stats, sqlState := old_.sqlState,
               sqlCode := old_.sqlCode, sqlMessage := old_.sqlMessage) == old_
    ensures b.stats == (if stats.Some? then stats.value else old_.stats)
    ensures b.status == (if Settled(refreshed) then refreshed else ER)
    ensures b.sqlState == RecordFailure(old_, f).sqlState
    ensures b.sqlCode == RecordFailure(old_, f).sqlCode
    ensures b.sqlMessage == RecordFailure(old_, f).sqlMessage
  {
    var reread := old_.(status := refreshed);
    var counted := if stats.Some? then reread.(stats := stats.value) else reread;
    RecordFailureReadsSqlOnly(old_, counted, f);
    var recorded := RecordFailure(counted, f);
    if Settled(recorded.status) then recorded else recorded.(status := ER)
  }

  /** batchInError.  `refreshed` is the status refreshIncomingBatch reads
      back; `stats` what setValues copies, or None when the writer or a
      statistics entry is missing; `writeFails` whether the final write of
      incoming_batch throws (it is logged and swallowed). */
  function BatchInError(l: Listener, f: Failure, refreshed: IncomingStatus, stats: Option<LoadStatistics>,
                        ctx: ErrorContext, errors: seq<IncomingError>, recordOk: bool,
                        writeFails: bool): (r: ErrorStep)
    requires Valid(l)
    ensures Valid(r.listener) && r.listener.current == l.current
    ensures l.current.None? ==> r == ErrorStep(l, errors, NoWrite)
    ensures l.current.Some? ==>
      var i := l.current.value;
      var old_ := l.processed[i];
      var b := r.listener.processed[i];
      && OnlyAt(l.processed, r.listener.processed, i)
      && b.batchId == old_.batchId && b.nodeId == old_.nodeId && b.retry == old_.retry
      && b.(status := old_.status, stats := old_.stats, sqlState := old_.sqlState,
            sqlCode := old_.sqlCode, sqlMessage := old_.sqlMessage) == old_
      && b.stats == (if stats.Some? then stats.value else old_.stats)
      && b.status == (if Settled(refreshed) then refreshed else ER)
      && b.sqlState == RecordFailure(old_, f).sqlState
      && b.sqlCode == RecordFailure(old_, f).sqlCode
      && b.sqlMessage == RecordFailure(old_, f).sqlMessage
      && (writeFails <==> r.write.NoWrite?)
      && (!writeFails ==> r.write.row == b && (r.write.UpdateRow? <==> recordOk || b.retry))
      && (!writeFails && !(recordOk || b.retry) ==> r.write.InsertRow?)
      && (r.errors != errors ==>
            r.errors == errors + [ErrorRow(b, ctx, f)])
      && (r.errors != errors <==>
            !Settled(refreshed) && ctx.table.Some? && ctx.data.Some?
            && IncomingErrors.InsertIncomingError(errors, ErrorRow(b, ctx, f)).Inserted?)
  {
    if l.current.None? then ErrorStep(l, errors, NoWrite)
    else
      var i := l.current.value;
      var b := FailedRecord(l.processed[i], f, refreshed, stats);
      var errors' :=
        if !Settled(refreshed) && ctx.table.Some? && ctx.data.Some? then
          match IncomingErrors.InsertIncomingError(errors, ErrorRow(b, ctx, f))
          case Inserted(t) => t
          case _ => errors
        else errors;
      var write := if writeFails then NoWrite else if recordOk || b.retry then UpdateRow(b) else InsertRow(b);
      ErrorStep(Listener(l.processed[i := b], l.current), errors', write)
  }

  /** The incoming_error table keeps its primary key unique and holds only
      rows that passed the insert guard, across any failure. */
  lemma ErrorTableStaysKeyed(l: Listener, f: Failure, refreshed: IncomingStatus, stats: Option<LoadStatistics>,
                             ctx: ErrorContext, errors: seq<IncomingError>, recordOk: bool, writeFails: bool)
    requires Valid(l)
    requires IncomingErrors.KeysUnique(errors)
    requires forall i :: 0 <= i < |errors| ==> IncomingErrors.Insertable(errors[i])
    ensures var r := BatchInError(l, f, refreshed, stats, ctx, errors, recordOk, writeFails);
      IncomingErrors.KeysUnique(r.errors)
      && forall i :: 0 <= i < |r.errors| ==> IncomingErrors.Insertable(r.errors[i])
  {
    var r := BatchInError(l, f, refreshed, stats, ctx, errors, recordOk, writeFails);
    if l.current.Some? && r.errors != errors {
      var b := r.listener.processed[l.current.value];
      IncomingErrors.InsertKeepsKeysUnique(errors, ErrorRow(b, ctx, f));
    }
  }

  /** The same row failing twice is recorded once: the second insert hits
      the primary key and is swallowed. */
  lemma RepeatedFailureRecordedOnce(l: Listener, f: Failure, refreshed: IncomingStatus,
                                    stats: Option<LoadStatistics>, ctx: ErrorContext,
                                    errors: seq<IncomingError>, recordOk: bool, writeFails: bool)
    requires Valid(l)
    requires var r := BatchInError(l, f, refreshed, stats, ctx, errors, recordOk, writeFails);
      r.errors != errors
    ensures var r := BatchInError(l, f, refreshed, stats, ctx, errors, recordOk, writeFails);
      var r2 := BatchInError(l, f, refreshed, stats, ctx, r.errors, recordOk, writeFails);
      r2.errors == r.errors
  {
    var r := BatchInError(l, f, refreshed, stats, ctx, errors, recordOk, writeFails);
    var b := r.listener.processed[l.current.value];
    IncomingErrors.InsertTwiceIsDuplicate(errors, ErrorRow(b, ctx, f));
  }
}
