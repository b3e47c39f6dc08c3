/**
 * The records the replication engine's loader and extractor pass around:
 * framed batches, incoming and outgoing batch bookkeeping, row events,
 * recorded row failures and conflict settings.  Only the fields the modelled
 * logic reads or writes are kept.
 */
module Entities {
  import opened Common

  /** Batch.BatchType: a batch is framed either for loading or for extracting. */
  datatype BatchType = Load | Extract

  /** Batch: the identity of one framed transmission unit. */
  datatype Batch = Batch(
    batchType: BatchType,
    batchId: int,
    channelId: Option<string>,
    encoding: string,
    sourceNodeId: string,
    targetNodeId: string)

  /** Table: a target table header. */
  datatype Table = Table(
    catalog: Option<string>,
    schema: Option<string>,
    name: string,
    columns: seq<string>,
    primaryKeyColumns: seq<string>)

  /** DataEventType of a captured row change. */
  datatype EventType = Insert | Update | Delete | Other(code: string)

  /** CsvData: one row-level change event. */
  datatype CsvData = CsvData(
    eventType: EventType,
    rowData: Option<string>,
    oldData: Option<string>)

  /** IncomingBatch.Status.  `OtherIncoming` stands for the statuses this
      logic never distinguishes. */
  datatype IncomingStatus = NE | OK | ER | IG | RS | OtherIncoming(code: string)

  /** The SQL state recorded on a failed incoming batch: either the raw state
      of the database error, or one of the two markers of ErrorConstants. */
  datatype SqlState = RawState(state: Option<string>) | ConflictState | FkViolationState

  /** The SQL code recorded on a failed incoming batch, likewise. */
  datatype SqlCode = RawCode(code: int) | ConflictCode | FkViolationCode

  /** Reader/writer statistics that IncomingBatch.setValues copies over. */
  datatype LoadStatistics = LoadStatistics(
    statementCount: int,
    byteCount: int,
    failedRowNumber: int,
    failedLineNumber: int)

  /** IncomingBatch: the receiving node's record of one batch. */
  datatype IncomingBatch = IncomingBatch(
    batchId: int,
    nodeId: string,
    channelId: Option<string>,
    status: IncomingStatus,
    retry: bool,
    stats: LoadStatistics,
    sqlState: SqlState,
    sqlCode: SqlCode,
    sqlMessage: Option<string>)

  /** `new IncomingBatch(batch)`: a fresh record for a framed batch, keyed by
      the batch id and the sending node. */
  function FreshIncoming(b: Batch): (r: IncomingBatch)
    ensures r.batchId == b.batchId && r.nodeId == b.sourceNodeId && r.channelId == b.channelId
    ensures r.status == NE && !r.retry
  {
    IncomingBatch(b.batchId, b.sourceNodeId, b.channelId, NE, false,
                  LoadStatistics(0, 0, 0, 0), RawState(None), RawCode(0), None)
  }

  /** NodeGroupLink: a (source group, target group) pair. */
  datatype NodeGroupLink = NodeGroupLink(sourceGroupId: string, targetGroupId: string)

  /** ConflictNodeGroupLink: one conflict setting row, scoped by its link.
      Detection and resolution policy names are carried as stored. */
  datatype ConflictSetting = ConflictSetting(
    conflictId: string,
    link: NodeGroupLink,
    targetChannelId: Option<string>,
    targetTable: Option<string>,
    detectType: string,
    resolveType: string,
    pingBack: string,
    resolveChangesOnly: bool,
    resolveRowOnly: bool,
    detectExpression: Option<string>)

  /** IncomingError: one recorded row failure of an incoming batch. */
  datatype IncomingError = IncomingError(
    batchId: int,
    nodeId: Option<string>,
    failedRowNumber: int,
    failedLineNumber: int,
    table: Option<Table>,
    row: Option<CsvData>,
    curData: Option<string>,
    encoding: string,
    resolveData: Option<string>,
    resolveIgnore: bool,
    conflictId: Option<string>)
}
