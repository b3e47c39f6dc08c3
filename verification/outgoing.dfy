/** The sending side's bookkeeping record for one planned batch. */
module Outgoing {

  /** OutgoingBatch.Status.  `OtherOutgoing` stands for the statuses the
      extraction writer never distinguishes. */
  datatype OutgoingStatus = NE | OK | OtherOutgoing(code: string)

  /** OutgoingBatch: one pre-planned batch placeholder. */
  datatype OutgoingBatch = OutgoingBatch(
    batchId: int,
    nodeId: string,
    channelId: string,
    status: OutgoingStatus,
    dataEventCount: int,
    insertEventCount: int,
    byteCount: int,
    extractCount: int)
}
