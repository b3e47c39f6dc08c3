/**
 * The incoming_error table and the part of building a data writer that
 * reads it back: on a retry, the rows an operator resolved (marked ignore,
 * or given replacement data) are handed to the writer as substitutions.
 *
 * The table is a sequence of rows in the order the database returns them;
 * its primary key is (batch id, node id, failed row number).
 */
module IncomingErrors {
  import opened Common
  import opened Entities
  import JavaStrings

  /** The primary key of incoming_error. */
  predicate SameKey(a: IncomingError, b: IncomingError) {
    a.batchId == b.batchId && a.nodeId == b.nodeId && a.failedRowNumber == b.failedRowNumber
  }

  /** No two rows share a primary key. */
  ghost predicate KeysUnique(table: seq<IncomingError>) {
    forall i, j :: 0 <= i < j < |table| ==> !SameKey(table[i], table[j])
  }

  /** The outcome of insertIncomingError: the row is written, skipped by the
      guard, or refused by the primary key (a UniqueKeyException). */
  datatype InsertOutcome = Inserted(table: seq<IncomingError>) | Skipped | DuplicateKey

  /** The guard of insertIncomingError: a node id that is not blank and a
      batch id that is not negative. */
  predicate Insertable(e: IncomingError) {
    JavaStrings.IsNotBlank(e.nodeId) && e.batchId >= 0
  }

  /** insertIncomingError(transaction, error). */
  function InsertIncomingError(table: seq<IncomingError>, e: IncomingError): (r: InsertOutcome)
    ensures r.Skipped? <==> !Insertable(e)
    ensures r.DuplicateKey? <==> Insertable(e) && exists x :: x in table && SameKey(x, e)
    ensures r.Inserted? ==> r.table == table + [e]
  {
    if !Insertable(e) then Skipped
    else if exists x :: x in table && SameKey(x, e) then DuplicateKey
    else Inserted(table + [e])
  }

  /** Inserting keeps the primary key unique, and every stored row passed
      the guard when every earlier one did. */
  lemma InsertKeepsKeysUnique(table: seq<IncomingError>, e: IncomingError)
    requires KeysUnique(table)
    requires forall i :: 0 <= i < |table| ==> Insertable(table[i])
    ensures var r := InsertIncomingError(table, e);
      r.Inserted? ==> KeysUnique(r.table) && forall i :: 0 <= i < |r.table| ==> Insertable(r.table[i])
  {
    var r := InsertIncomingError(table, e);
    if r.Inserted? {
      forall i, j | 0 <= i < j < |r.table|
        ensures !SameKey(r.table[i], r.table[j])
      {
        if j == |table| { assert r.table[i] in table; }
      }
    }
  }

  /** Inserting the same row twice: the second attempt hits the key. */
  lemma InsertTwiceIsDuplicate(table: seq<IncomingError>, e: IncomingError)
    requires InsertIncomingError(table, e).Inserted?
    ensures InsertIncomingError(InsertIncomingError(table, e).table, e) == DuplicateKey
  {
    var t := InsertIncomingError(table, e).table;
    assert t[|t| - 1] == e;
    assert e in t && SameKey(e, e);
  }

  /** getIncomingErrors(batchId, nodeId): the batch's rows, in table order. */
  function ErrorsOf(table: seq<IncomingError>, batchId: int, nodeId: string): (r: seq<IncomingError>)
    ensures forall x :: x in r <==> x in table && x.batchId == batchId && x.nodeId == Some(nodeId)
    decreases |table|
  {
    if |table| == 0 then []
    else
      var rest := ErrorsOf(table[..|table| - 1], batchId, nodeId);
      var last := table[|table| - 1];
      assert forall x :: x in table <==> x in table[..|table| - 1] || x == last;
      if last.batchId == batchId && last.nodeId == Some(nodeId) then rest + [last] else rest
  }

  /** ResolvedData: a substitution for one failed row. */
  datatype ResolvedData = ResolvedData(rowNumber: int, resolveData: Option<string>, ignore: bool)

  /** An operator has resolved the row: it is to be ignored, or it carries
      replacement data. */
  predicate Resolved(e: IncomingError) {
    e.resolveIgnore || JavaStrings.IsNotBlank(e.resolveData)
  }

  /** The substitution a resolved row becomes. */
  function ToResolvedData(e: IncomingError): ResolvedData {
    ResolvedData(e.failedRowNumber, e.resolveData, e.resolveIgnore)
  }

  /** The loop of buildDataWriter over a batch's errors: the resolved ones,
      in order, as substitutions. */
  function ResolvedRows(errors: seq<IncomingError>): (r: seq<ResolvedData>)
    ensures |r| <= |errors|
    ensures forall d :: d in r <==> exists e :: e in errors && Resolved(e) && d == ToResolvedData(e)
    decreases |errors|
  {
    if |errors| == 0 then []
    else
      var rest := ResolvedRows(errors[..|errors| - 1]);
      var last := errors[|errors| - 1];
      assert forall e :: e in errors <==> e in errors[..|errors| - 1] || e == last;
      if Resolved(last) then rest + [ToResolvedData(last)] else rest
  }

  /** The substitutions of one error: itself when resolved, nothing otherwise. */
  lemma ResolvedRowsSingle(e: IncomingError)
    ensures ResolvedRows([e]) == if Resolved(e) then [ToResolvedData(e)] else []
  {
    assert [e][..0] == [];
  }

  /** The loop keeps the errors' order: the substitutions of two runs of
      errors are those of the first followed by those of the second.  With
      ResolvedRowsSingle this pins down one substitution per resolved error,
      in table order. */
  lemma {:induction false} ResolvedRowsAppend(xs: seq<IncomingError>, ys: seq<IncomingError>)
    ensures ResolvedRows(xs + ys) == ResolvedRows(xs) + ResolvedRows(ys)
    decreases |ys|
  {
    if |ys| == 0 {
      assert xs + ys == xs;
    } else {
      var ys' := ys[..|ys| - 1];
      assert (xs + ys)[..|xs + ys| - 1] == xs + ys';
      ResolvedRowsAppend(xs, ys');
    }
  }

  /** Every substitution is either an ignore or carries data that is not
      blank: a resolve left blank without ignore is not handed on. */
  lemma {:induction false} ResolvedRowsMeaningful(errors: seq<IncomingError>)
    ensures forall d :: d in ResolvedRows(errors) ==> d.ignore || JavaStrings.IsNotBlank(d.resolveData)
  {
    forall d | d in ResolvedRows(errors)
      ensures d.ignore || JavaStrings.IsNotBlank(d.resolveData)
    {
      var e :| e in errors && Resolved(e) && d == ToResolvedData(e);
    }
  }

  /** What buildDataWriter computes from its arguments for the target
      writer: the node group link (null unless the source node is known)
      and the substitutions. */
  datatype WriterInputs = WriterInputs(link: Option<NodeGroupLink>, resolved: seq<ResolvedData>)

  /** The link and substitution part of buildDataWriter.  `sourceGroup` is
      nodeService.findNode's answer (the node's group, or null when the node
      is unknown); `localGroup` is this node's group. */
  function BuildWriterInputs(sourceNodeId: Option<string>, sourceGroup: Option<string>,
                             localGroup: string, batchId: int, isRetry: bool,
                             table: seq<IncomingError>): (r: WriterInputs)
    ensures r.link.Some? <==> sourceNodeId.Some? && sourceGroup.Some?
    ensures r.link.Some? ==> r.link.value == NodeGroupLink(sourceGroup.value, localGroup)
    ensures !(isRetry && sourceNodeId.Some?) ==> r.resolved == []
    ensures isRetry && sourceNodeId.Some? ==>
      forall d :: d in r.resolved <==>
        exists e :: e in table && e.batchId == batchId && e.nodeId == sourceNodeId
                    && Resolved(e) && d == ToResolvedData(e)
    ensures isRetry && sourceNodeId.Some? ==>
      r.resolved == ResolvedRows(ErrorsOf(table, batchId, sourceNodeId.value))
  {
    if sourceNodeId.None? then WriterInputs(None, [])
    else
      var link := if sourceGroup.Some? then Some(NodeGroupLink(sourceGroup.value, localGroup)) else None;
      var resolved := if isRetry then ResolvedRows(ErrorsOf(table, batchId, sourceNodeId.value)) else [];
      WriterInputs(link, resolved)
  }

  /** A first attempt never substitutes rows, whatever the table holds. */
  lemma FirstAttemptIgnoresErrors(sourceNodeId: Option<string>, sourceGroup: Option<string>,
                                  localGroup: string, batchId: int,
                                  table: seq<IncomingError>, table': seq<IncomingError>)
    ensures BuildWriterInputs(sourceNodeId, sourceGroup, localGroup, batchId, false, table)
         == BuildWriterInputs(sourceNodeId, sourceGroup, localGroup, batchId, false, table')
  {
  }

  /** Rows of other batches or other nodes never reach a retry's
      substitutions: inserting one leaves them unchanged. */
  lemma {:induction false} OtherBatchesDoNotLeak(table: seq<IncomingError>, e: IncomingError,
                                                 batchId: int, nodeId: string)
    requires e.batchId != batchId || e.nodeId != Some(nodeId)
    ensures ErrorsOf(table + [e], batchId, nodeId) == ErrorsOf(table, batchId, nodeId)
  {
    assert (table + [e])[..|table + [e]| - 1] == table;
  }

  /** A row of the batch itself lands at the end of the batch's rows: the
      table's order is the order getIncomingErrors returns. */
  lemma {:induction false} SameBatchAppends(table: seq<IncomingError>, e: IncomingError,
                                            batchId: int, nodeId: string)
    requires e.batchId == batchId && e.nodeId == Some(nodeId)
    ensures ErrorsOf(table + [e], batchId, nodeId) == ErrorsOf(table, batchId, nodeId) + [e]
  {
    assert (table + [e])[..|table + [e]| - 1] == table;
  }

  /** On a retry, a newly recorded error of the batch adds its substitution
      after all earlier ones when it is resolved, and nothing otherwise. */
  lemma RetryAppendsResolution(sourceNodeId: string, sourceGroup: Option<string>, localGroup: string,
                               batchId: int, table: seq<IncomingError>, e: IncomingError)
    requires e.batchId == batchId && e.nodeId == Some(sourceNodeId)
    ensures BuildWriterInputs(Some(sourceNodeId), sourceGroup, localGroup, batchId, true, table + [e]).resolved
         == BuildWriterInputs(Some(sourceNodeId), sourceGroup, localGroup, batchId, true, table).resolved
            + (if Resolved(e) then [ToResolvedData(e)] else [])
  {
    SameBatchAppends(table, e, batchId, sourceNodeId);
    ResolvedRowsAppend(ErrorsOf(table, batchId, sourceNodeId), [e]);
    ResolvedRowsSingle(e);
  }
}
