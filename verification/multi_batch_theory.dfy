/**
 * What the multi-batch staging writer guarantees over a whole extract:
 * placeholders are used strictly in order and each exactly once, row counts
 * are conserved, a placeholder is filled to the cap before the next one
 * takes rows, the last placeholder takes any overflow, and close drains
 * the placeholders no row reached as empty batches.
 *
 * The guarantees are stated against `Expected`, an independent greedy-fill
 * reference definition, for the calling protocol of the extractor: open,
 * start the batch, then per table start it, write its rows and end it, then
 * end the batch and close.
 */
module MultiBatchTheory {
  import opened Common
  import opened Entities
  import Outgoing
  import opened MultiBatch

  // ---------------------------------------------------------------------
  // Sums and counts over placeholders and sink traces

  function Counts(bs: seq<OutgoingBatch>): (r: seq<int>)
    ensures |r| == |bs|
    ensures forall i :: 0 <= i < |bs| ==> r[i] == bs[i].dataEventCount
  {
    if |bs| == 0 then [] else Counts(bs[..|bs| - 1]) + [bs[|bs| - 1].dataEventCount]
  }

  function SumCounts(bs: seq<OutgoingBatch>): int {
    if |bs| == 0 then 0 else SumCounts(bs[..|bs| - 1]) + bs[|bs| - 1].dataEventCount
  }

  function SumBytes(bs: seq<OutgoingBatch>): int {
    if |bs| == 0 then 0 else SumBytes(bs[..|bs| - 1]) + bs[|bs| - 1].byteCount
  }

  function Sum(xs: seq<int>): int {
    if |xs| == 0 then 0 else Sum(xs[..|xs| - 1]) + xs[|xs| - 1]
  }

  /** The number of rows a sink trace forwarded. */
  function CountWrites(t: seq<SinkCall>): nat {
    if |t| == 0 then 0 else CountWrites(t[..|t| - 1]) + (if t[|t| - 1].RowWritten? then 1 else 0)
  }

  lemma {:induction false} CountWritesAppend(t: seq<SinkCall>, u: seq<SinkCall>)
    ensures CountWrites(t + u) == CountWrites(t) + CountWrites(u)
    decreases |u|
  {
    if |u| == 0 {
      assert t + u == t;
    } else {
      var u' := u[..|u| - 1];
      assert (t + u)[..|t + u| - 1] == t + u';
      CountWritesAppend(t, u');
    }
  }

  lemma {:induction false} SumAppend(xs: seq<int>, ys: seq<int>)
    ensures Sum(xs + ys) == Sum(xs) + Sum(ys)
    decreases |ys|
  {
    if |ys| == 0 {
      assert xs + ys == xs;
    } else {
      var ys' := ys[..|ys| - 1];
      assert (xs + ys)[..|xs + ys| - 1] == xs + ys';
      SumAppend(xs, ys');
    }
  }

  lemma {:induction false} SumCountsIsSum(bs: seq<OutgoingBatch>)
    ensures SumCounts(bs) == Sum(Counts(bs))
    decreases |bs|
  {
    if |bs| > 0 {
      SumCountsIsSum(bs[..|bs| - 1]);
      assert Counts(bs)[..|bs| - 1] == Counts(bs[..|bs| - 1]);
    }
  }

  // ---------------------------------------------------------------------
  // The greedy-fill reference

  function Zeros(k: nat): (r: seq<int>)
    ensures |r| == k && forall i :: 0 <= i < k ==> r[i] == 0
  {
    if k == 0 then [] else Zeros(k - 1) + [0]
  }

  function Fill(c: int, k: nat): (r: seq<int>)
    ensures |r| == k && forall i :: 0 <= i < k ==> r[i] == c
  {
    if k == 0 then [] else Fill(c, k - 1) + [c]
  }

  /** The rows in `k` full placeholders of cap `c`, as repeated addition so
      that the proofs about it stay in linear arithmetic. */
  function Times(k: nat, c: nat): nat {
    if k == 0 then 0 else Times(k - 1, c) + c
  }

  /** How `n` rows spread over `m` placeholders of cap `c`: each placeholder
      but the last takes `c` rows while there are `c` rows left; the first one
      that cannot be filled takes the remainder and the rest stay empty; the
      last one takes whatever is left, without a cap. */
  function Expected(n: nat, m: nat, c: nat): (r: seq<int>)
    requires m >= 1 && c >= 1
    decreases m
  {
    if m == 1 then [n]
    else if n >= c then [c] + Expected(n - c, m - 1, c)
    else [n] + Zeros(m - 1)
  }

  lemma {:induction false} ZerosSum(k: nat)
    ensures Sum(Zeros(k)) == 0
  {
    if k > 0 {
      ZerosSum(k - 1);
      assert Zeros(k)[..k - 1] == Zeros(k - 1);
    }
  }

  /** The reference conserves rows, has one entry per placeholder, and no
      entry but the last exceeds the cap. */
  lemma {:induction false} ExpectedShape(n: nat, m: nat, c: nat)
    requires m >= 1 && c >= 1
    ensures |Expected(n, m, c)| == m
    ensures Sum(Expected(n, m, c)) == n
    ensures forall i :: 0 <= i < m - 1 ==> 0 <= Expected(n, m, c)[i] <= c
    ensures Expected(n, m, c)[m - 1] >= 0
    decreases m, 1
  {
    if m == 1 {
      assert Expected(n, m, c) == [] + [n];
    } else if n >= c {
      ExpectedShapeFull(n, m, c);
    } else {
      ExpectedShapeShort(n, m, c);
    }
  }

  /** ExpectedShape when the first placeholder is filled. */
  lemma {:induction false} ExpectedShapeFull(n: nat, m: nat, c: nat)
    requires m > 1 && c >= 1 && n >= c
    ensures |Expected(n, m, c)| == m
    ensures Sum(Expected(n, m, c)) == n
    ensures forall i :: 0 <= i < m - 1 ==> 0 <= Expected(n, m, c)[i] <= c
    ensures Expected(n, m, c)[m - 1] >= 0
    decreases m, 0
  {
    var t := Expected(n - c, m - 1, c);
    ExpectedShape(n - c, m - 1, c);
    assert Expected(n, m, c) == [c] + t;
    ConsKeepsShape(c, t, c);
  }

  /** ExpectedShape when the rows run out in the first placeholder. */
  lemma ExpectedShapeShort(n: nat, m: nat, c: nat)
    requires m > 1 && c >= 1 && n < c
    ensures |Expected(n, m, c)| == m
    ensures Sum(Expected(n, m, c)) == n
    ensures forall i :: 0 <= i < m - 1 ==> 0 <= Expected(n, m, c)[i] <= c
    ensures Expected(n, m, c)[m - 1] >= 0
  {
    assert Expected(n, m, c) == [n] + Zeros(m - 1);
    ZerosShape(n, m - 1, c);
  }

  /** A full placeholder in front keeps the reference's shape and adds its
      rows to the sum. */
  lemma ConsKeepsShape(x: int, t: seq<int>, c: int)
    requires 0 <= x <= c && |t| >= 1
    requires forall i :: 0 <= i < |t| - 1 ==> 0 <= t[i] <= c
    requires t[|t| - 1] >= 0
    ensures Sum([x] + t) == x + Sum(t)
    ensures forall i :: 0 <= i < |t| ==> 0 <= ([x] + t)[i] <= c
    ensures ([x] + t)[|t|] >= 0
  {
    SumAppend([x], t);
    assert [x] == [] + [x];
    forall i | 0 <= i < |t|
      ensures 0 <= ([x] + t)[i] <= c
    {
      if i > 0 { assert ([x] + t)[i] == t[i - 1]; }
    }
  }

  /** The remainder followed by empty placeholders has the reference's shape. */
  lemma ZerosShape(x: nat, k: nat, c: nat)
    requires k >= 1 && x < c
    ensures Sum([x] + Zeros(k)) == x
    ensures forall i :: 0 <= i < k ==> 0 <= ([x] + Zeros(k))[i] <= c
    ensures ([x] + Zeros(k))[k] >= 0
  {
    ZerosSum(k);
    SumAppend([x], Zeros(k));
    assert [x] == [] + [x];
  }

  /** Filling `k` placeholders first is the same as starting the reference
      `k` placeholders later with `k` times `c` fewer rows. */
  lemma {:induction false} ExpectedSplit(k: nat, r: nat, m: nat, c: nat)
    requires m >= 1 && c >= 1
    ensures Expected(Times(k, c) + r, k + m, c) == Fill(c, k) + Expected(r, m, c)
    decreases k
  {
    if k > 0 {
      var n := Times(k, c) + r;
      assert n - c == Times(k - 1, c) + r;
      ExpectedSplit(k - 1, r, m, c);
      FillCons(c, k);
      calc {
        Expected(n, k + m, c);
        [c] + Expected(n - c, k - 1 + m, c);
        [c] + (Fill(c, k - 1) + Expected(r, m, c));
        ([c] + Fill(c, k - 1)) + Expected(r, m, c);
      }
    }
  }

  lemma FillCons(c: int, k: nat)
    requires k > 0
    ensures Fill(c, k) == [c] + Fill(c, k - 1)
  {
    assert forall i :: 0 <= i < k ==> Fill(c, k)[i] == ([c] + Fill(c, k - 1))[i];
  }

  lemma ZerosCons(k: nat)
    requires k > 0
    ensures Zeros(k) == [0] + Zeros(k - 1)
  {
    assert forall i :: 0 <= i < k ==> Zeros(k)[i] == ([0] + Zeros(k - 1))[i];
  }

  lemma ExpectedUnfilled(r: nat, q: nat, c: nat)
    requires c >= 1 && (r < c || q == 0)
    ensures Expected(r, q + 1, c) == [r] + Zeros(q)
  {
  }

  // ---------------------------------------------------------------------
  // Invariants of the writer relative to the caller's placeholder list

  /** `b` is the caller's placeholder `o` after being taken at position `i`:
      same identity, extract count raised unless first, status either kept or
      turned NE by checkSend, both event counts equal and non-negative. */
  predicate Follows(o: OutgoingBatch, b: OutgoingBatch, i: nat, flag: bool) {
    && b.batchId == o.batchId && b.nodeId == o.nodeId && b.channelId == o.channelId
    && b.extractCount == o.extractCount + (if i == 0 then 0 else 1)
    && (b.status == o.status || (flag && o.status != Outgoing.OK && b.status == Outgoing.NE))
    && b.dataEventCount == b.insertEventCount && b.dataEventCount >= 0
  }

  /** After open: finished placeholders, then the current one, then the queue
      are exactly the caller's list in order; totals are the sums over the
      finished ones; the sink saw as many rows as the placeholders hold. */
  predicate Tracks(s: Writer, orig: seq<OutgoingBatch>) {
    && WellFormed(s) && s.current.Some?
    && |s.finished| < |orig|
    && s.queue == orig[|s.finished| + 1..]
    && (forall i :: 0 <= i < |s.finished| ==>
          Follows(orig[i], s.finished[i], i, s.cfg.extractAndSendWhenStaged))
    && Follows(orig[|s.finished|], s.current.value, |s.finished|, s.cfg.extractAndSendWhenStaged)
    && s.rowCount == SumCounts(s.finished)
    && s.byteCount == SumBytes(s.finished)
    && CountWrites(s.trace) == s.rowCount + s.current.value.dataEventCount
  }

  /** While rows are being written: every finished placeholder is full, and
      the current one is below the cap unless it is the last. */
  predicate Filling(s: Writer)
    requires s.current.Some?
  {
    && (forall i :: 0 <= i < |s.finished| ==> s.finished[i].dataEventCount == Cap(s.cfg))
    && (|s.queue| > 0 ==> s.current.value.dataEventCount < Cap(s.cfg))
  }

  /** The counts every placeholder will end with if the writer is closed now. */
  function Profile(s: Writer): seq<int>
    requires s.current.Some?
  {
    Counts(s.finished) + [s.current.value.dataEventCount] + Zeros(|s.queue|)
  }

  lemma SumCountsAppend(bs: seq<OutgoingBatch>, b: OutgoingBatch)
    ensures SumCounts(bs + [b]) == SumCounts(bs) + b.dataEventCount
    ensures SumBytes(bs + [b]) == SumBytes(bs) + b.byteCount
  {
    assert (bs + [b])[..|bs|] == bs;
  }

  lemma CountsAppend(bs: seq<OutgoingBatch>, b: OutgoingBatch)
    ensures Counts(bs + [b]) == Counts(bs) + [b.dataEventCount]
  {
  }

  /** open on a fresh writer establishes both invariants. */
  lemma OpenTracks(cfg: Config, orig: seq<OutgoingBatch>)
    requires |orig| > 0
    ensures Open(New(cfg, orig)).Ok?
    ensures var s := Open(New(cfg, orig)).value;
      Tracks(s, orig) && Filling(s) && s.writer == Some(0) && s.table.None?
      && s.current.value.extractCount == orig[0].extractCount
  {
    var s := Open(New(cfg, orig)).value;
    assert s.trace == [Opened(0)];
    CountWritesOne(Opened(0));
  }

  /** A trace piece without row calls forwards no rows. */
  lemma {:induction false} CountWritesNone(t: seq<SinkCall>)
    requires forall i :: 0 <= i < |t| ==> !t[i].RowWritten?
    ensures CountWrites(t) == 0
    decreases |t|
  {
    if |t| > 0 {
      CountWritesNone(t[..|t| - 1]);
    }
  }

  lemma CountWritesOne(c: SinkCall)
    ensures CountWrites([c]) == if c.RowWritten? then 1 else 0
  {
    assert [c][..0] == [];
  }

  /** nextBatch keeps the order invariant and the profile: the current
      placeholder is finished as is and the next one starts empty. */
  lemma NextBatchTracks(s: Writer, orig: seq<OutgoingBatch>)
    requires Tracks(s, orig) && |s.queue| > 0
    ensures Tracks(NextBatch(s), orig) && Profile(NextBatch(s)) == Profile(s)
  {
    SumCountsAppend(s.finished, s.current.value);
    NextBatchFollows(s, orig);
    NextBatchProfile(s);
  }

  /** nextBatch finishes the current placeholder in its place and takes the
      next one of the caller's list. */
  lemma NextBatchFollows(s: Writer, orig: seq<OutgoingBatch>)
    requires Tracks(s, orig) && |s.queue| > 0
    ensures var n := NextBatch(s);
      && n.queue == orig[|n.finished| + 1..]
      && (forall i :: 0 <= i < |n.finished| ==>
            Follows(orig[i], n.finished[i], i, n.cfg.extractAndSendWhenStaged))
      && Follows(orig[|n.finished|], n.current.value, |n.finished|, n.cfg.extractAndSendWhenStaged)
  {
    var n := NextBatch(s);
    var k := |s.finished|;
    var flag := s.cfg.extractAndSendWhenStaged;
    assert s.queue[0] == orig[k + 1];
    assert n.queue == orig[k + 2..];
    forall i | 0 <= i < |n.finished|
      ensures Follows(orig[i], n.finished[i], i, flag)
    {
      if i < k { assert n.finished[i] == s.finished[i]; }
    }
  }

  lemma NextBatchProfile(s: Writer)
    requires s.current.Some? && |s.queue| > 0
    ensures Profile(NextBatch(s)) == Profile(s)
  {
    var n := NextBatch(s);
    CountsAppend(s.finished, s.current.value);
    ZerosCons(|s.queue|);
    assert Profile(n) == Counts(s.finished) + [s.current.value.dataEventCount] + ([0] + Zeros(|s.queue| - 1));
  }

  /** A step that only opens, starts or ends things on the sink, and leaves
      the placeholders and totals alone, keeps the invariants and the profile. */
  lemma QuietTracks(s: Writer, r: Writer, orig: seq<OutgoingBatch>, t: seq<SinkCall>)
    requires Tracks(s, orig) && WellFormed(r)
    requires r.cfg == s.cfg && r.queue == s.queue && r.finished == s.finished && r.current == s.current
    requires r.rowCount == s.rowCount && r.byteCount == s.byteCount
    requires r.trace == s.trace + t
    requires forall i :: 0 <= i < |t| ==> !t[i].RowWritten?
    ensures Tracks(r, orig) && Profile(r) == Profile(s) && CountWrites(r.trace) == CountWrites(s.trace)
    ensures Filling(s) ==> Filling(r)
  {
    CountWritesAppend(s.trace, t);
    CountWritesNone(t);
  }

  /** startNewBatch keeps the order invariant and the profile. */
  lemma StartNewBatchTracks(s: Writer, orig: seq<OutgoingBatch>)
    requires Tracks(s, orig) && |s.queue| > 0 && s.table.Some?
    ensures StartNewBatch(s).Ok?
    ensures var r := StartNewBatch(s).value;
      && Tracks(r, orig) && Profile(r) == Profile(s) && CountWrites(r.trace) == CountWrites(s.trace)
  {
    NextBatchTracks(s, orig);
    var n := NextBatch(s);
    var r := StartNewBatch(s).value;
    var w := s.writersBuilt;
    var t := [Opened(w), BatchStarted(w, r.batch), TableStarted(w, s.table)];
    assert r.current == n.current && r.rowCount == n.rowCount && r.byteCount == n.byteCount;
    QuietTracks(n, r, orig, t);
  }

  /** A write below the cap (or on the last placeholder) keeps both
      invariants and adds exactly one forwarded row. */
  lemma WriteTracksInPlace(s: Writer, orig: seq<OutgoingBatch>, row: CsvData, bytesOf: nat -> nat)
    requires Tracks(s, orig) && Filling(s) && !Rolls(s)
    ensures Write(s, row, bytesOf).Ok?
    ensures var r := Write(s, row, bytesOf).value;
      && Tracks(r, orig) && Filling(r) && r.table == s.table && r.batch == s.batch
      && CountWrites(r.trace) == CountWrites(s.trace) + 1
  {
    var r := Write(s, row, bytesOf).value;
    var w := s.writer.value;
    assert r.trace == s.trace + [RowWritten(w, row)];
    CountWritesAppend(s.trace, [RowWritten(w, row)]);
    CountWritesOne(RowWritten(w, row));
    assert r.current.value == Bump(s.current.value);
    assert r.finished == s.finished && r.queue == s.queue;
  }

  /** A write that reaches the cap with placeholders left finishes the
      current placeholder full and starts the next one empty. */
  lemma WriteTracksRollover(s: Writer, orig: seq<OutgoingBatch>, row: CsvData, bytesOf: nat -> nat)
    requires Tracks(s, orig) && Filling(s) && Rolls(s) && s.table.Some? && s.batch.Some?
    ensures Write(s, row, bytesOf).Ok?
    ensures var r := Write(s, row, bytesOf).value;
      && Tracks(r, orig) && Filling(r) && r.table == s.table && r.batch.Some?
      && CountWrites(r.trace) == CountWrites(s.trace) + 1
  {
    RolledIsWrite(s, row, bytesOf);
    RolledTracks(s, orig, row, bytesOf);
    StartAfterFull(Rolled(s, row, bytesOf), orig);
  }

  /** The rolling write before the next batch starts: the placeholder that
      was filling is now full, and it and every finished one hold the cap. */
  lemma RolledTracks(s: Writer, orig: seq<OutgoingBatch>, row: CsvData, bytesOf: nat -> nat)
    requires Tracks(s, orig) && Filling(s) && Rolls(s) && s.table.Some?
    ensures var s2 := Rolled(s, row, bytesOf);
      && Tracks(s2, orig) && |s2.queue| > 0 && s2.table == s.table
      && (forall i :: 0 <= i < |s2.finished| ==> s2.finished[i].dataEventCount == Cap(s2.cfg))
      && s2.current.value.dataEventCount == Cap(s2.cfg)
      && CountWrites(s2.trace) == CountWrites(s.trace) + 1
  {
    var s2 := Rolled(s, row, bytesOf);
    FilledTracks(s, orig, row, s2.current.value, s2.trace, s2);
  }

  /** Starting the next batch after a full placeholder leaves every finished
      placeholder at the cap and the new one filling. */
  lemma StartAfterFull(s: Writer, orig: seq<OutgoingBatch>)
    requires Tracks(s, orig) && |s.queue| > 0 && s.table.Some?
    requires forall i :: 0 <= i < |s.finished| ==> s.finished[i].dataEventCount == Cap(s.cfg)
    requires s.current.value.dataEventCount == Cap(s.cfg)
    ensures StartNewBatch(s).Ok?
    ensures var r := StartNewBatch(s).value;
      && Tracks(r, orig) && Filling(r) && r.table == s.table && r.batch.Some?
      && CountWrites(r.trace) == CountWrites(s.trace)
  {
    StartNewBatchTracks(s, orig);
    var r := StartNewBatch(s).value;
    assert r.finished == s.finished + [s.current.value];
    assert forall i :: 0 <= i < |r.finished| ==> r.finished[i].dataEventCount == Cap(s.cfg) by {
      forall i | 0 <= i < |r.finished|
        ensures r.finished[i].dataEventCount == Cap(s.cfg)
      {
        if i < |s.finished| { assert r.finished[i] == s.finished[i]; }
      }
    }
  }


  lemma RolledIsWrite(s: Writer, row: CsvData, bytesOf: nat -> nat)
    requires WellFormed(s) && s.current.Some? && Rolls(s) && s.batch.Some?
    ensures WellFormed(Rolled(s, row, bytesOf)) && |Rolled(s, row, bytesOf).queue| > 0
    ensures Write(s, row, bytesOf) == StartNewBatch(Rolled(s, row, bytesOf))
  {
  }

  /** The write that reaches the cap, before the next batch starts: the
      current placeholder holds one more row, is full, and is still in order. */
  lemma FilledTracks(s: Writer, orig: seq<OutgoingBatch>, row: CsvData, done: OutgoingBatch,
                     t: seq<SinkCall>, s2: Writer)
    requires Tracks(s, orig) && Filling(s) && Rolls(s) && s.table.Some?
    requires done.dataEventCount == s.current.value.dataEventCount + 1
    requires done.insertEventCount == s.current.value.insertEventCount + 1
    requires done.batchId == s.current.value.batchId && done.nodeId == s.current.value.nodeId
    requires done.channelId == s.current.value.channelId
    requires done.extractCount == s.current.value.extractCount
    requires done.status == s.current.value.status
             || (s.cfg.extractAndSendWhenStaged && s.current.value.status != Outgoing.OK
                 && done.status == Outgoing.NE)
    requires t == s.trace + [RowWritten(s.writer.value, row)]
                 + [TableEnded(s.writer.value, s.table), BatchEnded(s.writer.value, s.batch, false),
                    Closed(s.writer.value)]
    requires s2 == s.(current := Some(done), trace := t, persisted := s2.persisted)
    ensures Tracks(s2, orig) && done.dataEventCount == Cap(s.cfg)
    ensures CountWrites(s2.trace) == CountWrites(s.trace) + 1
  {
    var w := s.writer.value;
    var tail := [TableEnded(w, s.table), BatchEnded(w, s.batch, false), Closed(w)];
    CountWritesAppend(s.trace + [RowWritten(w, row)], tail);
    CountWritesAppend(s.trace, [RowWritten(w, row)]);
    CountWritesOne(RowWritten(w, row));
    CountWritesNone(tail);
  }

  /** One write, with a batch and a table started, keeps both invariants and
      adds exactly one forwarded row. */
  lemma WriteTracks(s: Writer, orig: seq<OutgoingBatch>, row: CsvData, bytesOf: nat -> nat)
    requires Tracks(s, orig) && Filling(s) && s.table.Some? && s.batch.Some?
    ensures Write(s, row, bytesOf).Ok?
    ensures var r := Write(s, row, bytesOf).value;
      && Tracks(r, orig) && Filling(r) && r.table == s.table && r.batch.Some?
      && CountWrites(r.trace) == CountWrites(s.trace) + 1
  {
    if Rolls(s) {
      WriteTracksRollover(s, orig, row, bytesOf);
    } else {
      WriteTracksInPlace(s, orig, row, bytesOf);
    }
  }

  /** Ending a table of a started batch succeeds and changes only byte
      statistics and the trace (by a non-row call). */
  lemma EndTableTracks(s: Writer, orig: seq<OutgoingBatch>, t: Option<Table>, bytesOf: nat -> nat)
    requires Tracks(s, orig) && s.batch.Some?
    ensures EndTable(s, t, bytesOf).Ok?
    ensures var r := EndTable(s, t, bytesOf).value;
      Tracks(r, orig) && (Filling(s) ==> Filling(r)) && Profile(r) == Profile(s)
      && CountWrites(r.trace) == CountWrites(s.trace) && r.batch == s.batch
  {
    CountWritesAppend(s.trace, [TableEnded(s.writer.value, t)]);
    CountWritesOne(TableEnded(s.writer.value, t));
  }

  lemma EndBatchTracks(s: Writer, orig: seq<OutgoingBatch>, inError: bool)
    requires Tracks(s, orig)
    ensures var r := EndBatch(s, inError);
      Tracks(r, orig) && (Filling(s) ==> Filling(r)) && Profile(r) == Profile(s)
      && CountWrites(r.trace) == CountWrites(s.trace)
  {
    CountWritesAppend(s.trace, [BatchEnded(s.writer.value, s.batch, inError)]);
    CountWritesOne(BatchEnded(s.writer.value, s.batch, inError));
  }

  lemma StartTableTracks(s: Writer, orig: seq<OutgoingBatch>, t: Option<Table>)
    requires Tracks(s, orig)
    ensures var r := StartTable(s, t);
      Tracks(r, orig) && (Filling(s) ==> Filling(r)) && Profile(r) == Profile(s)
      && CountWrites(r.trace) == CountWrites(s.trace)
  {
    CountWritesAppend(s.trace, [TableStarted(s.writer.value, t)]);
    CountWritesOne(TableStarted(s.writer.value, t));
  }

  lemma StartBatchTracks(s: Writer, orig: seq<OutgoingBatch>, b: Option<Batch>)
    requires Tracks(s, orig)
    ensures var r := StartBatch(s, b);
      Tracks(r, orig) && (Filling(s) ==> Filling(r)) && Profile(r) == Profile(s)
      && CountWrites(r.trace) == CountWrites(s.trace)
  {
    CountWritesAppend(s.trace, [BatchStarted(s.writer.value, b)]);
    CountWritesOne(BatchStarted(s.writer.value, b));
  }

  /** One drain step of close keeps the order invariant and the profile:
      the current placeholder is finished as is and the next one starts empty. */
  lemma DrainOneTracks(s: Writer, orig: seq<OutgoingBatch>, bytesOf: nat -> nat)
    requires Tracks(s, orig) && |s.queue| > 0 && s.table.Some?
    ensures DrainOne(s, bytesOf).Ok?
    ensures var r := DrainOne(s, bytesOf).value;
      Tracks(r, orig) && Profile(r) == Profile(s) && CountWrites(r.trace) == CountWrites(s.trace)
  {
    StartNewBatchTracks(s, orig);
    var s1 := StartNewBatch(s).value;
    EndTableTracks(s1, orig, s1.table, bytesOf);
    EndBatchTracks(EndTable(s1, s1.table, bytesOf).value, orig, false);
  }

  /** close keeps the order invariant and the profile, and leaves the queue
      empty: the profile becomes the counts of all placeholders. */
  lemma {:induction false} CloseTracks(s: Writer, orig: seq<OutgoingBatch>, bytesOf: nat -> nat)
    requires Tracks(s, orig) && (|s.queue| > 0 ==> s.table.Some?)
    ensures Close(s, bytesOf).Ok?
    ensures var r := Close(s, bytesOf).value;
      && Tracks(r, orig) && r.queue == [] && |r.finished| + 1 == |orig|
      && Profile(r) == Profile(s)
      && CountWrites(r.trace) == CountWrites(s.trace)
    decreases |s.queue|
  {
    if |s.queue| > 0 {
      DrainOneTracks(s, orig, bytesOf);
      CloseTracks(DrainOne(s, bytesOf).value, orig, bytesOf);
    } else {
      CountWritesAppend(s.trace, [Closed(s.writer.value)]);
      CountWritesOne(Closed(s.writer.value));
    }
  }

  // ---------------------------------------------------------------------
  // Which writers close opens and closes

  /** The number of calls of a trace that satisfy `p`. */
  function CountCalls(t: seq<SinkCall>, p: SinkCall -> bool): nat {
    if |t| == 0 then 0 else CountCalls(t[..|t| - 1], p) + (if p(t[|t| - 1]) then 1 else 0)
  }

  predicate IsOpen(c: SinkCall) { c.Opened? }

  predicate IsClose(c: SinkCall) { c.Closed? }

  lemma {:induction false} CountCallsAppend(t: seq<SinkCall>, u: seq<SinkCall>, p: SinkCall -> bool)
    ensures CountCalls(t + u, p) == CountCalls(t, p) + CountCalls(u, p)
    decreases |u|
  {
    if |u| == 0 {
      assert t + u == t;
    } else {
      var u' := u[..|u| - 1];
      assert (t + u)[..|t + u| - 1] == t + u';
      CountCallsAppend(t, u', p);
    }
  }

  /** The calls of one drain step: a writer is opened, started, and its table
      and batch ended; nothing is closed. */
  lemma DrainOneCalls(s: Writer, bytesOf: nat -> nat)
    requires WellFormed(s) && |s.queue| > 0 && s.table.Some?
    ensures var r := DrainOne(s, bytesOf).value;
      && CountCalls(r.trace, IsOpen) == CountCalls(s.trace, IsOpen) + 1
      && CountCalls(r.trace, IsClose) == CountCalls(s.trace, IsClose)
  {
    var s1 := StartNewBatch(s).value;
    var w := s1.writer.value;
    var u := [Opened(w), BatchStarted(w, s1.batch), TableStarted(w, s.table),
              TableEnded(w, s1.table), BatchEnded(w, s1.batch, false)];
    assert DrainOne(s, bytesOf).value.trace == s.trace + u;
    OneOpenNoClose(u);
    CountCallsAppend(s.trace, u, IsOpen);
    CountCallsAppend(s.trace, u, IsClose);
  }

  /** Five calls of which only the first opens and none closes. */
  lemma OneOpenNoClose(u: seq<SinkCall>)
    requires |u| == 5 && u[0].Opened?
    requires forall k :: 1 <= k < 5 ==> !u[k].Opened? && !u[k].Closed?
    ensures CountCalls(u, IsOpen) == 1 && CountCalls(u, IsClose) == 0
  {
    OneOpenNoClosePrefix(u, 5);
    assert u[..5] == u;
  }

  lemma {:induction false} OneOpenNoClosePrefix(u: seq<SinkCall>, k: nat)
    requires |u| == 5 && u[0].Opened?
    requires forall k :: 1 <= k < 5 ==> !u[k].Opened? && !u[k].Closed?
    requires 1 <= k <= 5
    ensures CountCalls(u[..k], IsOpen) == 1 && CountCalls(u[..k], IsClose) == 0
  {
    if k == 1 {
      assert u[..1][..0] == [];
      assert IsOpen(u[0]) && !IsClose(u[0]);
    } else {
      OneOpenNoClosePrefix(u, k - 1);
      assert u[..k][..k - 1] == u[..k - 1];
      assert !IsOpen(u[k - 1]) && !IsClose(u[k - 1]);
    }
  }

  /** close keeps the source's handling of writers: every drained
      placeholder opens a writer of its own, but only the last writer is
      closed, as the final call of the trace; the writer that was current
      when close began and the drained ones in between are left open. */
  lemma {:induction false} CloseClosesOnlyLast(s: Writer, bytesOf: nat -> nat)
    requires WellFormed(s) && (|s.queue| > 0 ==> s.table.Some?)
    ensures Close(s, bytesOf).Ok?
    ensures var r := Close(s, bytesOf).value;
      && CountCalls(r.trace, IsOpen) == CountCalls(s.trace, IsOpen) + |s.queue|
      && CountCalls(r.trace, IsClose) == CountCalls(s.trace, IsClose) + (if r.writer.Some? then 1 else 0)
      && (r.writer.Some? ==> r.trace[|r.trace| - 1] == Closed(r.writer.value))
    decreases |s.queue|
  {
    if |s.queue| > 0 {
      DrainOneCalls(s, bytesOf);
      CloseClosesOnlyLast(DrainOne(s, bytesOf).value, bytesOf);
    } else if s.writer.Some? {
      CountCallsAppend(s.trace, [Closed(s.writer.value)], IsOpen);
      CountCallsAppend(s.trace, [Closed(s.writer.value)], IsClose);
      assert [Closed(s.writer.value)][..0] == [];
    }
  }

  lemma FilledPrefix(k: nat, cur: nat, q: nat, c: nat, n: nat, m: nat)
    requires c >= 1 && (cur < c || q == 0)
    requires n == Times(k, c) + cur && m == k + q + 1
    ensures Fill(c, k) + [cur] + Zeros(q) == Expected(n, m, c)
  {
    ExpectedSplit(k, cur, q + 1, c);
    ExpectedUnfilled(cur, q, c);
    assert Expected(n, m, c) == Expected(Times(k, c) + cur, k + (q + 1), c);
    assert Fill(c, k) + [cur] + Zeros(q) == Fill(c, k) + ([cur] + Zeros(q));
  }

  /** While filling, the profile is the greedy-fill reference for the rows
      written so far. */
  lemma FillingProfile(s: Writer, orig: seq<OutgoingBatch>)
    requires Tracks(s, orig) && Filling(s)
    ensures Profile(s) == Expected(CountWrites(s.trace), |orig|, Cap(s.cfg))
  {
    var k := |s.finished|;
    var c := Cap(s.cfg);
    var cur := s.current.value.dataEventCount;
    var q := |s.queue|;
    FullCounts(s.finished, c);
    assert Profile(s) == Fill(c, k) + [cur] + Zeros(q);
    FilledPrefix(k, cur, q, c, CountWrites(s.trace), |orig|);
  }

  /** Placeholders all filled to `c` count `c` each, `k` times `c` in total. */
  lemma FullCounts(bs: seq<OutgoingBatch>, c: nat)
    requires forall i :: 0 <= i < |bs| ==> bs[i].dataEventCount == c
    ensures Counts(bs) == Fill(c, |bs|) && SumCounts(bs) == Times(|bs|, c)
  {
    assert Counts(bs) == Fill(c, |bs|);
    SumCountsIsSum(bs);
    FillSum(c, |bs|);
  }

  lemma {:induction false} FillSum(c: nat, k: nat)
    ensures Sum(Fill(c, k)) == Times(k, c)
  {
    if k > 0 {
      FillSum(c, k - 1);
      assert Fill(c, k)[..k - 1] == Fill(c, k - 1);
    }
  }

  // ---------------------------------------------------------------------
  // The extractor's calling protocol

  /** One table of the logical stream with its rows. */
  datatype Segment = Segment(table: Table, rows: seq<CsvData>)

  function TotalRows(segs: seq<Segment>): nat {
    if |segs| == 0 then 0 else TotalRows(segs[..|segs| - 1]) + |segs[|segs| - 1].rows|
  }

  function WriteAll(s: Writer, rows: seq<CsvData>, bytesOf: nat -> nat): (r: Result<Writer, WriterError>)
    requires WellFormed(s) && s.current.Some?
    ensures r.Ok? ==> WellFormed(r.value) && r.value.current.Some?
    ensures r.Ok? ==> r.value.table == s.table && r.value.cfg == s.cfg
    decreases |rows|
  {
    if |rows| == 0 then Ok(s)
    else match Write(s, rows[0], bytesOf)
      case Err(e) => Err(e)
      case Ok(s1) => WriteAll(s1, rows[1..], bytesOf)
  }

  function Feed(s: Writer, segs: seq<Segment>, bytesOf: nat -> nat): (r: Result<Writer, WriterError>)
    requires WellFormed(s) && s.current.Some?
    ensures r.Ok? ==> WellFormed(r.value) && r.value.current.Some? && r.value.cfg == s.cfg
    decreases |segs|
  {
    if |segs| == 0 then Ok(s)
    else match Feed(s, segs[..|segs| - 1], bytesOf)
      case Err(e) => Err(e)
      case Ok(s1) =>
        var seg := segs[|segs| - 1];
        match WriteAll(StartTable(s1, Some(seg.table)), seg.rows, bytesOf)
        case Err(e) => Err(e)
        case Ok(s2) => EndTable(s2, Some(seg.table), bytesOf)
  }

  /** A whole extract: open, start the extractor's batch, feed every table,
      end the batch, close. */
  function Extract(cfg: Config, orig: seq<OutgoingBatch>, first: Batch, segs: seq<Segment>,
                   bytesOf: nat -> nat): Result<Writer, WriterError>
  {
    match Open(New(cfg, orig))
    case Err(e) => Err(e)
    case Ok(s0) =>
      match Feed(StartBatch(s0, Some(first)), segs, bytesOf)
      case Err(e) => Err(e)
      case Ok(s1) => Close(EndBatch(s1, false), bytesOf)
  }

  lemma {:induction false} WriteAllTracks(s: Writer, orig: seq<OutgoingBatch>, rows: seq<CsvData>, bytesOf: nat -> nat)
    requires Tracks(s, orig) && Filling(s) && s.table.Some? && s.batch.Some?
    ensures WriteAll(s, rows, bytesOf).Ok?
    ensures var r := WriteAll(s, rows, bytesOf).value;
      Tracks(r, orig) && Filling(r) && r.table == s.table && r.cfg == s.cfg && r.batch.Some?
      && CountWrites(r.trace) == CountWrites(s.trace) + |rows|
    decreases |rows|
  {
    if |rows| > 0 {
      WriteTracks(s, orig, rows[0], bytesOf);
      WriteAllTracks(Write(s, rows[0], bytesOf).value, orig, rows[1..], bytesOf);
    }
  }

  lemma {:induction false} FeedTracks(s: Writer, orig: seq<OutgoingBatch>, segs: seq<Segment>, bytesOf: nat -> nat)
    requires Tracks(s, orig) && Filling(s) && s.batch.Some?
    ensures Feed(s, segs, bytesOf).Ok?
    ensures var r := Feed(s, segs, bytesOf).value;
      Tracks(r, orig) && Filling(r) && r.cfg == s.cfg && r.batch.Some?
      && CountWrites(r.trace) == CountWrites(s.trace) + TotalRows(segs)
      && (|segs| > 0 ==> r.table.Some?)
      && (|segs| == 0 ==> r == s)
    decreases |segs|
  {
    if |segs| > 0 {
      var pre := segs[..|segs| - 1];
      if |pre| == 0 {
        assert Feed(s, pre, bytesOf) == Ok(s);
      }
      FeedTracks(s, orig, pre, bytesOf);
      var s1 := Feed(s, pre, bytesOf).value;
      var seg := segs[|segs| - 1];
      StartTableTracks(s1, orig, Some(seg.table));
      var st := StartTable(s1, Some(seg.table));
      WriteAllTracks(st, orig, seg.rows, bytesOf);
      var s2 := WriteAll(st, seg.rows, bytesOf).value;
      EndTableTracks(s2, orig, Some(seg.table), bytesOf);
    }
  }

  /** The batch-splitting theorem: an extract of `TotalRows(segs)` rows over
      the caller's placeholders succeeds, uses every placeholder once and in
      order, and leaves them with exactly the greedy-fill counts: no
      placeholder but the last exceeds the cap, and the counts add up to the
      number of rows forwarded to the sinks. */
  lemma ExtractDistributes(cfg: Config, orig: seq<OutgoingBatch>, first: Batch, segs: seq<Segment>,
                           bytesOf: nat -> nat)
    requires |orig| > 0 && (|segs| > 0 || |orig| == 1)
    ensures Extract(cfg, orig, first, segs, bytesOf).Ok?
    ensures Extract(cfg, orig, first, segs, bytesOf).value.current.Some?
    ensures var r := Extract(cfg, orig, first, segs, bytesOf).value;
      var placed := r.finished + [r.current.value];
      && r.queue == [] && |placed| == |orig|
      && (forall i :: 0 <= i < |orig| ==>
            placed[i].batchId == orig[i].batchId && placed[i].nodeId == orig[i].nodeId
            && placed[i].extractCount == orig[i].extractCount + (if i == 0 then 0 else 1))
      && Counts(placed) == Expected(TotalRows(segs), |orig|, Cap(cfg))
      && r.rowCount == SumCounts(r.finished)
      && CountWrites(r.trace) == TotalRows(segs)
  {
    FedTracks(cfg, orig, first, segs, bytesOf);
    var s0 := Open(New(cfg, orig)).value;
    var s1 := Feed(StartBatch(s0, Some(first)), segs, bytesOf).value;
    CloseDistributes(s1, orig, bytesOf);
    assert Extract(cfg, orig, first, segs, bytesOf) == Close(EndBatch(s1, false), bytesOf);
    ClosedPlacement(Close(EndBatch(s1, false), bytesOf).value, orig);
  }

  /** The first half of an extract: open, start the batch and feed every
      table; both invariants hold and every row reached the sinks. */
  lemma FedTracks(cfg: Config, orig: seq<OutgoingBatch>, first: Batch, segs: seq<Segment>,
                  bytesOf: nat -> nat)
    requires |orig| > 0
    ensures Open(New(cfg, orig)).Ok?
    ensures var s1 := Feed(StartBatch(Open(New(cfg, orig)).value, Some(first)), segs, bytesOf);
      && s1.Ok? && Tracks(s1.value, orig) && Filling(s1.value) && s1.value.cfg == cfg
      && CountWrites(s1.value.trace) == TotalRows(segs)
      && (|segs| > 0 ==> s1.value.table.Some?)
  {
    OpenTracks(cfg, orig);
    var s0 := Open(New(cfg, orig)).value;
    assert s0.cfg == cfg;
    StartBatchTracks(s0, orig, Some(first));
    assert CountWrites(s0.trace) == 0 by {
      CountWritesOne(Opened(0));
    }
    FeedTracks(StartBatch(s0, Some(first)), orig, segs, bytesOf);
  }

  /** The second half: ending the batch and closing leaves the placeholders
      with the greedy-fill counts of the rows written. */
  lemma CloseDistributes(s: Writer, orig: seq<OutgoingBatch>, bytesOf: nat -> nat)
    requires Tracks(s, orig) && Filling(s) && (|s.queue| > 0 ==> s.table.Some?)
    ensures Close(EndBatch(s, false), bytesOf).Ok?
    ensures var r := Close(EndBatch(s, false), bytesOf).value;
      && Tracks(r, orig) && r.queue == [] && r.cfg == s.cfg
      && Profile(r) == Expected(CountWrites(s.trace), |orig|, Cap(s.cfg))
      && CountWrites(r.trace) == CountWrites(s.trace)
  {
    FillingProfile(s, orig);
    EndBatchTracks(s, orig, false);
    CloseTracks(EndBatch(s, false), orig, bytesOf);
  }

  /** Once the queue is empty, the finished placeholders and the current one
      are the caller's list, in order, with the profile as their counts. */
  lemma ClosedPlacement(r: Writer, orig: seq<OutgoingBatch>)
    requires Tracks(r, orig) && r.queue == []
    ensures var placed := r.finished + [r.current.value];
      && |placed| == |orig|
      && (forall i :: 0 <= i < |orig| ==>
            placed[i].batchId == orig[i].batchId && placed[i].nodeId == orig[i].nodeId
            && placed[i].extractCount == orig[i].extractCount + (if i == 0 then 0 else 1))
      && Counts(placed) == Profile(r)
  {
    var placed := r.finished + [r.current.value];
    var k := |r.finished|;
    var flag := r.cfg.extractAndSendWhenStaged;
    assert Zeros(0) == [];
    CountsAppend(r.finished, r.current.value);
    forall i | 0 <= i < |orig|
      ensures Follows(orig[i], placed[i], i, flag)
    {
      if i < k {
        assert placed[i] == r.finished[i];
      } else {
        assert placed[i] == r.current.value;
      }
    }
  }

  /** With more than one placeholder, an extract that never starts a table
      fails when close tries to drain: there is no table to re-start. */
  lemma EmptyStreamFails(cfg: Config, orig: seq<OutgoingBatch>, first: Batch, bytesOf: nat -> nat)
    requires |orig| >= 2
    ensures Extract(cfg, orig, first, [], bytesOf) == Err(NoTableStarted)
  {
    var s0 := Open(New(cfg, orig)).value;
    assert Feed(StartBatch(s0, Some(first)), [], bytesOf) == Ok(StartBatch(s0, Some(first)));
  }

  /** Before the extractor starts its batch, the writer's batch is null:
      ending a table, or a write that rolls over, dereferences it and fails. */
  lemma NoBatchStartedFails(cfg: Config, orig: seq<OutgoingBatch>, t: Table, row: CsvData,
                            bytesOf: nat -> nat)
    requires |orig| >= 1
    ensures Open(New(cfg, orig)).Ok?
    ensures var s0 := Open(New(cfg, orig)).value;
      EndTable(StartTable(s0, Some(t)), Some(t), bytesOf) == Err(NoBatchStarted)
    ensures var s0 := Open(New(cfg, orig)).value;
      |orig| >= 2 && cfg.maxBatchSize <= 1 ==>
        Write(StartTable(s0, Some(t)), row, bytesOf) == Err(NoBatchStarted)
  {
  }

  /** The worked example: cap 100, 250 rows, three placeholders end with
      100, 100 and 50 events. */
  lemma TwoHundredFiftyRows(cfg: Config, orig: seq<OutgoingBatch>, first: Batch, segs: seq<Segment>,
                            bytesOf: nat -> nat)
    requires |orig| == 3 && |segs| > 0 && cfg.maxBatchSize == 100 && TotalRows(segs) == 250
    ensures Extract(cfg, orig, first, segs, bytesOf).Ok?
    ensures Extract(cfg, orig, first, segs, bytesOf).value.current.Some?
    ensures var r := Extract(cfg, orig, first, segs, bytesOf).value;
      Counts(r.finished + [r.current.value]) == [100, 100, 50]
  {
    ExtractDistributes(cfg, orig, first, segs, bytesOf);
    assert Cap(cfg) == 100;
    ExpectedTwoHundredFifty();
  }

  /** The reference for 250 rows, three placeholders and cap 100. */
  lemma ExpectedTwoHundredFifty()
    ensures Expected(250, 3, 100) == [100, 100, 50]
  {
    assert Expected(50, 1, 100) == [50];
    assert Expected(150, 2, 100) == [100] + [50];
  }
}
