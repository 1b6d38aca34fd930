// The audit sink: an append-only log of entries correlated by request id.
module Audit {
  import opened Models

  datatype AuditEntry = AuditEntry(
    requestId: string,
    action: string,
    status: string,
    message: Option<string>)

  const ActionTransfer: string := "TRANSFER"
  const StatusSuccess: string := "SUCCESS"
  const StatusFailed: string := "FAILED"

  /** The sink's Log: the entry is appended unless the sink's insert fails,
      in which case the log is left as it was. */
  function Log(log: seq<AuditEntry>, entry: AuditEntry, sinkDown: bool): (r: seq<AuditEntry>)
    ensures |r| == |log| + (if sinkDown then 0 else 1)
    ensures r[..|log|] == log
    ensures !sinkDown ==> r[|log|] == entry
  {
    if sinkDown then log else log + [entry]
  }
}
