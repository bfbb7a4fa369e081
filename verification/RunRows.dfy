/** The row of a run in the database, as the orchestrator writes it. */
module RunRows {
  import RunStatus

  /** A row, with every status written to it. */
  class RunRow {
    var status: RunStatus.Status
    ghost var log: seq<RunStatus.Status>

    constructor (status: RunStatus.Status)
      ensures this.status == status && log == []
    {
      this.status := status;
      log := [];
    }

    method Update(status: RunStatus.Status)
      modifies this
      ensures this.status == status && log == old(log) + [status]
    {
      this.status := status;
      log := log + [status];
    }
  }
}
