/** Backup types and job states. */
module JobTypes {
  datatype Kind = Full | Incremental
  datatype Status = Queued | Running | Success | Failed | Cancelled
}
