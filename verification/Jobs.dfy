/** Job statuses (internal/model/model.go). A pipeline's step statuses are in Scheduler. */
module Jobs {
  /** model.JobStatus */
  datatype Status = Pending | Running | Completed | Failed | Canceled | Skipped

  function StatusText(st: Status): (s: string)
    ensures s != ""
  {
    match st
    case Pending => "PENDING"
    case Running => "RUNNING"
    case Completed => "COMPLETED"
    case Failed => "FAILED"
    case Canceled => "CANCELED"
    case Skipped => "SKIPPED"
  }

  lemma StatusTextInjective(a: Status, b: Status)
    requires StatusText(a) == StatusText(b)
    ensures a == b
  {
    assert StatusText(a)[0] == StatusText(b)[0] && StatusText(a)[1] == StatusText(b)[1];
  }
}
