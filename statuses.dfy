/** The lifecycle label of a submission: the six-value `Status` union of the status badge. */
module Statuses {
  import opened Optional

  datatype Status = Approved | Pending | NonCompliant | Overdue | InReview | Submitted

  /** The status value as the TypeScript string literal. */
  function Name(s: Status): string {
    match s
    case Approved => "approved"
    case Pending => "pending"
    case NonCompliant => "non-compliant"
    case Overdue => "overdue"
    case InReview => "in-review"
    case Submitted => "submitted"
  }

  /** Every status, in the order the union lists them. */
  const AllStatuses: seq<Status> := [Approved, Pending, NonCompliant, Overdue, InReview, Submitted]

  lemma AllStatusesComplete(s: Status)
    ensures s in AllStatuses
  {
  }

  /** Different statuses have different names. */
  lemma NameInjective(a: Status, b: Status)
    ensures Name(a) == Name(b) ==> a == b
  {
  }
}
