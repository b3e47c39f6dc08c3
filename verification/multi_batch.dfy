/**
 * MultiBatchStagingWriter: on the sending side, one logical extract row
 * stream is redistributed over an ordered list of pre-planned outgoing batch
 * placeholders.  Each placeholder gets its own staging writer; when the
 * current placeholder reaches the size cap and placeholders remain, the
 * writer rolls over to the next one and re-emits the current table header.
 *
 * The staging writer underneath is an abstract sink: every call it receives
 * is appended to a trace.  Writers are numbered in the order they are built.
 * The byte statistic a writer reports is an opaque input `bytesOf`.
 */
module MultiBatch {
  import opened Common
  import opened Entities
  import Outgoing

  type OutgoingBatch = Outgoing.OutgoingBatch

  /** One call received by the staging sink; `w` is the writer's number. */
  datatype SinkCall =
    | Opened(w: nat)
    | BatchStarted(w: nat, batch: Option<Batch>)
    | TableStarted(w: nat, table: Option<Table>)
    | RowWritten(w: nat, row: CsvData)
    | TableEnded(w: nat, table: Option<Table>)
    | BatchEnded(w: nat, batch: Option<Batch>, inError: bool)
    | Closed(w: nat)

  /** What the writer is constructed with, besides the placeholders. */
  datatype Config = Config(
    maxBatchSize: int,
    sourceNodeId: string,
    encoding: string,
    extractAndSendWhenStaged: bool)

  /** The failures the source raises. */
  datatype WriterError =
    | NoPlaceholders   // batches.remove(0) on an empty list
    | NoTableStarted   // "'table' cannot null while starting new batch"
    | NoBatchStarted   // the null `batch` dereferenced for its statistics and start time

  /** The fields of MultiBatchStagingWriter that the logic reads or writes.
      `persisted` lists the placeholders checkSend committed, in order. */
  datatype Writer = Writer(
    cfg: Config,
    queue: seq<OutgoingBatch>,
    finished: seq<OutgoingBatch>,
    current: Option<OutgoingBatch>,
    writer: Option<nat>,
    writersBuilt: nat,
    table: Option<Table>,
    batch: Option<Batch>,
    inError: bool,
    rowCount: int,
    byteCount: int,
    trace: seq<SinkCall>,
    persisted: seq<OutgoingBatch>)

  /** The writer and the placeholder are set together, by open. */
  predicate WellFormed(s: Writer) {
    && s.writer.Some? == s.current.Some?
    && (s.writer.Some? ==> s.writer.value < s.writersBuilt)
  }

  /** The constructor: the caller's list is copied, nothing has started. */
  function New(cfg: Config, batches: seq<OutgoingBatch>): (r: Writer)
    ensures WellFormed(r)
    ensures r.queue == batches && r.finished == [] && r.current.None?
    ensures r.trace == [] && r.rowCount == 0 && r.byteCount == 0
  {
    Writer(cfg, batches, [], None, None, 0, None, None, false, 0, 0, [], [])
  }

  /** The effective cap: a write always lands before the cap is compared, so a
      cap below one behaves as a cap of one. */
  function Cap(cfg: Config): nat {
    if cfg.maxBatchSize >= 1 then cfg.maxBatchSize else 1
  }

  /** The placeholders the writer has placed so far, in order: the finished
      ones, then the current one. */
  function Placed(s: Writer): seq<OutgoingBatch> {
    s.finished + (if s.current.Some? then [s.current.value] else [])
  }

  /** A placeholder as nextBatch takes it off the queue: both event counts
      reset, the extract count raised unless it is the very first one. */
  function Taken(o: OutgoingBatch, raised: bool): OutgoingBatch {
    o.(dataEventCount := 0, insertEventCount := 0,
       extractCount := o.extractCount + (if raised then 1 else 0))
  }

  /** `b` is `o` taken and closed without a row: every field but the byte
      count, which the sink reports, is as Taken leaves it. */
  predicate Drained(o: OutgoingBatch, b: OutgoingBatch, raised: bool) {
    && b.batchId == o.batchId && b.nodeId == o.nodeId && b.channelId == o.channelId
    && b.status == o.status && b.dataEventCount == 0 && b.insertEventCount == 0
    && b.extractCount == o.extractCount + (if raised then 1 else 0)
  }

  /** nextBatch: the current placeholder (if any) is finished and its counts
      folded into the totals; the head of the queue becomes current with its
      event counts reset, its extract count raised unless it is the first. */
  function NextBatch(s: Writer): (r: Writer)
    requires |s.queue| > 0
    ensures r.queue == s.queue[1..]
    ensures r.finished == if s.current.Some? then s.finished + [s.current.value] else s.finished
    ensures r.current.Some?
    ensures var c := r.current.value;
      && c.batchId == s.queue[0].batchId && c.nodeId == s.queue[0].nodeId
      && c.channelId == s.queue[0].channelId && c.status == s.queue[0].status
      && c.dataEventCount == 0 && c.insertEventCount == 0
      && c.extractCount == s.queue[0].extractCount + (if |r.finished| > 0 then 1 else 0)
    ensures r.rowCount == s.rowCount + (if s.current.Some? then s.current.value.dataEventCount else 0)
    ensures r.trace == s.trace && r.writer == s.writer && r.table == s.table
  {
    var fin := if s.current.Some? then s.finished + [s.current.value] else s.finished;
    var rows := if s.current.Some? then s.rowCount + s.current.value.dataEventCount else s.rowCount;
    var bytes := if s.current.Some? then s.byteCount + s.current.value.byteCount else s.byteCount;
    var head := s.queue[0];
    var taken := head.(dataEventCount := 0, insertEventCount := 0,
                       extractCount := if |fin| > 0 then head.extractCount + 1 else head.extractCount);
    s.(finished := fin, rowCount := rows, byteCount := bytes, current := Some(taken), queue := s.queue[1..])
  }

  /** open: the first placeholder becomes current and writer 0 is opened.
      An empty placeholder list fails. */
  function Open(s: Writer): (r: Result<Writer, WriterError>)
    requires WellFormed(s)
    ensures r.Err? <==> |s.queue| == 0
    ensures r.Err? ==> r.error == NoPlaceholders
    ensures r.Ok? ==> WellFormed(r.value) && r.value.queue == s.queue[1..]
    ensures r.Ok? ==>
      && r.value.finished == Placed(s)
      && r.value.current == Some(Taken(s.queue[0], |Placed(s)| > 0))
      && r.value.writer == Some(s.writersBuilt)
    ensures r.Ok? && s.current.None? ==>
      && r.value.finished == s.finished
      && r.value.trace == s.trace + [Opened(s.writersBuilt)]
  {
    if |s.queue| == 0 then Err(NoPlaceholders)
    else
      var s1 := NextBatch(s);
      var w := s1.writersBuilt;
      Ok(s1.(writer := Some(w), writersBuilt := w + 1, trace := s1.trace + [Opened(w)]))
  }

  /** start(Batch): remembered and forwarded to the current writer. */
  function StartBatch(s: Writer, b: Option<Batch>): (r: Writer)
    requires WellFormed(s) && s.writer.Some?
    ensures WellFormed(r) && r.batch == b
    ensures r.trace == s.trace + [BatchStarted(s.writer.value, b)]
    ensures r.(batch := s.batch, trace := s.trace) == s
  {
    s.(batch := b, trace := s.trace + [BatchStarted(s.writer.value, b)])
  }

  /** start(Table): remembered and forwarded to the current writer. */
  function StartTable(s: Writer, t: Option<Table>): (r: Writer)
    requires WellFormed(s) && s.writer.Some?
    ensures WellFormed(r) && r.table == t
    ensures r.trace == s.trace + [TableStarted(s.writer.value, t)]
    ensures r.(table := s.table, trace := s.trace) == s
  {
    s.(table := t, trace := s.trace + [TableStarted(s.writer.value, t)])
  }

  /** checkSend decides to mark the placeholder sendable only with the
      extract-and-send-when-staged flag on and a status other than OK. */
  predicate SendEligible(b: OutgoingBatch, flag: bool) {
    flag && b.status != Outgoing.OK
  }

  /** checkSend: an eligible placeholder is set to NE (and committed). */
  function CheckSend(b: OutgoingBatch, flag: bool): (r: OutgoingBatch)
    ensures !flag ==> r == b
    ensures b.status == Outgoing.OK ==> r == b
    ensures flag && b.status != Outgoing.OK ==> r == b.(status := Outgoing.NE)
  {
    if SendEligible(b, flag) then b.(status := Outgoing.NE) else b
  }

  /** startNewBatch: the next placeholder becomes current, a new writer is
      opened and started on an EXTRACT batch built from the placeholder, and
      the current table is re-started on it.  Without a table it fails. */
  function StartNewBatch(s: Writer): (r: Result<Writer, WriterError>)
    requires WellFormed(s) && |s.queue| > 0
    ensures r.Err? <==> s.table.None?
    ensures r.Err? ==> r.error == NoTableStarted
    ensures r.Ok? ==>
      var ob := s.queue[0];
      var w := s.writersBuilt;
      var b := Batch(Extract, ob.batchId, Some(ob.channelId), s.cfg.encoding, s.cfg.sourceNodeId, ob.nodeId);
      && WellFormed(r.value)
      && r.value.writer == Some(w) && r.value.writersBuilt == w + 1
      && r.value.batch == Some(b) && r.value.table == s.table
      && r.value.trace == s.trace + [Opened(w), BatchStarted(w, Some(b)), TableStarted(w, s.table)]
      && r.value.queue == s.queue[1..]
      && r.value.finished == (if s.current.Some? then s.finished + [s.current.value] else s.finished)
      && r.value.current == Some(Taken(s.queue[0], |r.value.finished| > 0))
  {
    var s1 := NextBatch(s);
    var ob := s1.current.value;
    var w := s1.writersBuilt;
    var b := Batch(Extract, ob.batchId, Some(ob.channelId), s.cfg.encoding, s.cfg.sourceNodeId, ob.nodeId);
    var s2 := s1.(writer := Some(w), writersBuilt := w + 1, batch := Some(b),
                  trace := s1.trace + [Opened(w), BatchStarted(w, Some(b))]);
    if s2.table.None? then Err(NoTableStarted)
    else Ok(s2.(trace := s2.trace + [TableStarted(w, s2.table)]))
  }

  /** The write that brings the current placeholder to the cap rolls over,
      provided placeholders remain. */
  predicate Rolls(s: Writer)
    requires s.current.Some?
  {
    s.current.value.dataEventCount + 1 >= s.cfg.maxBatchSize && |s.queue| > 0
  }

  /** The current placeholder after one more event. */
  function Bump(b: OutgoingBatch): OutgoingBatch {
    b.(dataEventCount := b.dataEventCount + 1, insertEventCount := b.insertEventCount + 1)
  }

  /** The state of a rolling write just before the next batch starts: the
      row forwarded, the current writer ended and closed, and the placeholder
      one event fuller, sized and checked for early send (and committed when
      eligible). */
  function Rolled(s: Writer, row: CsvData, bytesOf: nat -> nat): (r: Writer)
    requires WellFormed(s) && s.current.Some?
    ensures WellFormed(r) && r.queue == s.queue && r.finished == s.finished
    ensures r.table == s.table && r.batch == s.batch && r.cfg == s.cfg
    ensures r.rowCount == s.rowCount && r.byteCount == s.byteCount
  {
    var w := s.writer.value;
    var flag := s.cfg.extractAndSendWhenStaged;
    var sized := Bump(s.current.value).(byteCount := bytesOf(w));
    var done := CheckSend(sized, flag);
    s.(current := Some(done),
       trace := s.trace + [RowWritten(w, row)]
                + [TableEnded(w, s.table), BatchEnded(w, s.batch, false), Closed(w)],
       persisted := s.persisted + (if SendEligible(sized, flag) then [done] else []))
  }

  /** write: both event counts of the current placeholder go up by one and
      the row is forwarded to the current writer.  On reaching the cap with
      placeholders left, the current writer ends its table and batch and is
      closed, the placeholder is checked for early send and finished, and a
      new batch is started on the next placeholder.  A rollover before any
      batch was started dereferences the null batch and fails. */
  function Write(s: Writer, row: CsvData, bytesOf: nat -> nat): (r: Result<Writer, WriterError>)
    requires WellFormed(s) && s.current.Some?
    ensures !Rolls(s) ==> r.Ok?
    ensures Rolls(s) ==> (r.Err? <==> s.batch.None? || s.table.None?)
    ensures Rolls(s) && s.batch.None? ==> r == Err(NoBatchStarted)
    ensures Rolls(s) && s.batch.Some? && s.table.None? ==> r == Err(NoTableStarted)
    ensures r.Ok? ==> WellFormed(r.value) && r.value.table == s.table && r.value.cfg == s.cfg
    ensures r.Ok? && !Rolls(s) ==>
      && r.value.current == Some(Bump(s.current.value))
      && r.value.trace == s.trace + [RowWritten(s.writer.value, row)]
      && r.value.queue == s.queue && r.value.finished == s.finished
      && r.value.rowCount == s.rowCount && r.value.byteCount == s.byteCount
      && r.value.persisted == s.persisted
    ensures r.Ok? && Rolls(s) ==>
      var w := s.writer.value;
      var done := CheckSend(Bump(s.current.value).(byteCount := bytesOf(w)), s.cfg.extractAndSendWhenStaged);
      var w' := s.writersBuilt;
      && r.value.finished == s.finished + [done]
      && r.value.queue == s.queue[1..]
      && r.value.current.Some?
      && r.value.current.value.dataEventCount == 0
      && r.value.current.value.batchId == s.queue[0].batchId
      && r.value.rowCount == s.rowCount + done.dataEventCount
      && r.value.byteCount == s.byteCount + done.byteCount
      && r.value.trace == s.trace
           + [RowWritten(w, row), TableEnded(w, s.table), BatchEnded(w, s.batch, false), Closed(w)]
           + [Opened(w'), BatchStarted(w', r.value.batch), TableStarted(w', s.table)]
      && r.value.persisted == s.persisted + (if SendEligible(done, s.cfg.extractAndSendWhenStaged) then [done] else [])
  {
    var w := s.writer.value;
    var ob := Bump(s.current.value);
    var s1 := s.(current := Some(ob), trace := s.trace + [RowWritten(w, row)]);
    if Rolls(s) && s.batch.None? then Err(NoBatchStarted)
    else if Rolls(s) then StartNewBatch(Rolled(s, row, bytesOf))
    else
      var w := s.writer.value;
      Ok(s.(current := Some(Bump(s.current.value)), trace := s.trace + [RowWritten(w, row)]))
  }

  /** end(Table): forwarded (with the caller's table) to the current writer;
      the placeholder takes the writer's byte statistic.  With a writer but
      no batch started, reading the statistics of the null batch fails. */
  function EndTable(s: Writer, t: Option<Table>, bytesOf: nat -> nat): (r: Result<Writer, WriterError>)
    requires WellFormed(s)
    ensures r.Err? <==> s.writer.Some? && s.batch.None?
    ensures r.Err? ==> r.error == NoBatchStarted
    ensures s.writer.None? ==> r == Ok(s)
    ensures r.Ok? ==> WellFormed(r.value)
    ensures r.Ok? && s.writer.Some? ==>
      && r.value.trace == s.trace + [TableEnded(s.writer.value, t)]
      && r.value.current == Some(s.current.value.(byteCount := bytesOf(s.writer.value)))
    ensures r.Ok? ==>
      && r.value.queue == s.queue && r.value.finished == s.finished
      && r.value.table == s.table && r.value.writer == s.writer && r.value.batch == s.batch
      && r.value.rowCount == s.rowCount && r.value.byteCount == s.byteCount && r.value.cfg == s.cfg
  {
    if s.writer.Some? && s.batch.None? then Err(NoBatchStarted)
    else if s.writer.Some? then
      var w := s.writer.value;
      Ok(s.(trace := s.trace + [TableEnded(w, t)],
            current := Some(s.current.value.(byteCount := bytesOf(w)))))
    else Ok(s)
  }

  /** end(Batch, inError): the flag is remembered and the writer's own
      current batch (not the argument) is ended. */
  function EndBatch(s: Writer, inError: bool): (r: Writer)
    requires WellFormed(s)
    ensures WellFormed(r) && r.inError == inError
    ensures r.trace == s.trace + (if s.writer.Some? then [BatchEnded(s.writer.value, s.batch, inError)] else [])
    ensures r.(inError := s.inError, trace := s.trace) == s
  {
    s.(inError := inError,
       trace := s.trace + (if s.writer.Some? then [BatchEnded(s.writer.value, s.batch, inError)] else []))
  }

  /** One iteration of close's drain loop: start the next placeholder and end
      its table and batch straight away. */
  function DrainOne(s: Writer, bytesOf: nat -> nat): (r: Result<Writer, WriterError>)
    requires WellFormed(s) && |s.queue| > 0
    ensures r.Err? <==> s.table.None?
    ensures r.Ok? ==> WellFormed(r.value) && r.value.queue == s.queue[1..] && r.value.table == s.table
    ensures r.Ok? ==> r.value.finished == (if s.current.Some? then s.finished + [s.current.value] else s.finished)
    ensures r.Ok? ==> r.value.current.Some? && r.value.current.value.dataEventCount == 0
    ensures r.Ok? ==> r.value.cfg == s.cfg
    ensures r.Ok? ==> r.value.finished == Placed(s) && Drained(s.queue[0], r.value.current.value, |Placed(s)| > 0)
  {
    match StartNewBatch(s)
    case Err(e) => Err(e)
    case Ok(s1) =>
      match EndTable(s1, s1.table, bytesOf)
      case Err(e) => Err(e)
      case Ok(s2) => Ok(EndBatch(s2, false))
  }

  /** close: every placeholder still queued is started and immediately ended
      (as an empty batch), then the last writer is closed. */
  function Close(s: Writer, bytesOf: nat -> nat): (r: Result<Writer, WriterError>)
    requires WellFormed(s)
    ensures r.Ok? ==> WellFormed(r.value) && r.value.queue == [] && r.value.cfg == s.cfg
    ensures r.Ok? ==> |r.value.finished| + (if r.value.current.Some? then 1 else 0)
                       == |s.finished| + (if s.current.Some? then 1 else 0) + |s.queue|
    ensures |s.queue| > 0 ==> (r.Err? <==> s.table.None?)
    ensures |s.queue| == 0 ==> r.Ok?
    decreases |s.queue|
  {
    if |s.queue| > 0 then
      match DrainOne(s, bytesOf)
      case Err(e) => Err(e)
      case Ok(s1) => Close(s1, bytesOf)
    else if s.writer.Some? then
      Ok(s.(trace := s.trace + [Closed(s.writer.value)]))
    else
      Ok(s)
  }

  /** `placed` is `p` followed by the placeholders of `q`, in order, each
      drained (the very first, at position zero, without a raised extract
      count). */
  predicate DrainedAfter(p: seq<OutgoingBatch>, q: seq<OutgoingBatch>, placed: seq<OutgoingBatch>) {
    && |placed| == |p| + |q| && placed[..|p|] == p
    && forall i :: 0 <= i < |q| ==> Drained(q[i], placed[|p| + i], |p| + i > 0)
  }

  /** What close leaves behind: the placeholders placed before it stay as
      they were, and every queued one follows them, in queue order, taken
      empty (no row, extract count raised unless it is the very first). */
  lemma {:induction false} CloseDrains(s: Writer, bytesOf: nat -> nat)
    requires WellFormed(s)
    ensures Close(s, bytesOf).Ok? ==> DrainedAfter(Placed(s), s.queue, Placed(Close(s, bytesOf).value))
    decreases |s.queue|
  {
    if |s.queue| > 0 && DrainOne(s, bytesOf).Ok? {
      var s1 := DrainOne(s, bytesOf).value;
      var r := Close(s1, bytesOf);
      assert Close(s, bytesOf) == r;
      CloseDrains(s1, bytesOf);
      if r.Ok? {
        DrainedShift(Placed(s), s1.current.value, s.queue, Placed(s1), s1.queue, Placed(r.value));
      }
    }
  }

  /** One step of close's drain, lifted over the rest: if the first queued
      placeholder was drained right after `p` and the others right after it,
      then all of them were drained, in order, right after `p`. */
  lemma DrainedShift(p: seq<OutgoingBatch>, c: OutgoingBatch, q: seq<OutgoingBatch>,
                     p1: seq<OutgoingBatch>, q1: seq<OutgoingBatch>, placed: seq<OutgoingBatch>)
    requires |q| > 0 && Drained(q[0], c, |p| > 0)
    requires p1 == p + [c] && q1 == q[1..]
    requires DrainedAfter(p1, q1, placed)
    ensures DrainedAfter(p, q, placed)
  {
    assert placed[..|p|] == placed[..|p1|][..|p|];
    assert placed[|p|] == placed[..|p1|][|p|];
    forall i | 0 <= i < |q|
      ensures Drained(q[i], placed[|p| + i], |p| + i > 0)
    {
      if i > 0 {
        var j := i - 1;
        assert Drained(q1[j], placed[|p1| + j], |p1| + j > 0);
        assert q1[j] == q[i] && |p1| + j == |p| + i;
      }
    }
  }
}
