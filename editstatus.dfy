/** The status-change dialog: pick a new status, give a reason, submit or cancel. */
module EditStatus {
  import opened Optional
  import opened Strings
  import opened Statuses

  /** One call of `onStatusUpdate(submissionId, newStatus, reason)`. */
  datatype StatusUpdate = StatusUpdate(submissionId: string, newStatus: Status, reason: string)

  /** `statusOptions`: each selectable status with its label. */
  const StatusOptions: seq<(Status, string)> := [
    (Submitted, "Submitted"), (InReview, "In Review"), (Approved, "Approved"),
    (NonCompliant, "Non-Compliant"), (Pending, "Pending"), (Overdue, "Overdue")]

  /** The options offer every status exactly once. */
  lemma StatusOptionsExact(s: Status)
    ensures |StatusOptions| == |AllStatuses|
    ensures exists i :: 0 <= i < |StatusOptions| && StatusOptions[i].0 == s
    ensures forall i, j :: 0 <= i < j < |StatusOptions| ==> StatusOptions[i].0 != StatusOptions[j].0
  {
    match s
    case Submitted => assert StatusOptions[0].0 == s;
    case InReview => assert StatusOptions[1].0 == s;
    case Approved => assert StatusOptions[2].0 == s;
    case NonCompliant => assert StatusOptions[3].0 == s;
    case Pending => assert StatusOptions[4].0 == s;
    case Overdue => assert StatusOptions[5].0 == s;
  }

  /** `handleSubmit`'s guard, negated: `!submissionId || !newStatus || !reason.trim()`. */
  function CanSubmit(submissionId: Option<string>, newStatus: Option<Status>, reason: string): (ok: bool)
    ensures ok <==> Truthy(submissionId) && newStatus.Some? && !IsBlank(reason)
  {
    TrimEmptyIffBlank(reason);
    Truthy(submissionId) && newStatus.Some? && Trim(reason) != ""
  }

  /** `EditStatusDialog`'s state; a `newStatus` of `None` is the empty selection `""`. */
  class EditStatusDialog {
    var submissionId: Option<string>
    var newStatus: Option<Status>
    var reason: string

    constructor(submissionId: Option<string>)
      ensures this.submissionId == submissionId
      ensures newStatus == None && reason == ""
    {
      this.submissionId := submissionId;
      newStatus := None;
      reason := "";
    }

    /** A new `submissionId` prop: the status and reason state persists across it. */
    method PropsChanged(submissionId: Option<string>)
      modifies this
      ensures this.submissionId == submissionId
      ensures newStatus == old(newStatus) && reason == old(reason)
    {
      this.submissionId := submissionId;
    }

    /** The status select. */
    method SelectStatus(s: Status)
      modifies this
      ensures newStatus == Some(s)
      ensures submissionId == old(submissionId) && reason == old(reason)
    {
      newStatus := Some(s);
    }

    /** The reason text area. */
    method SetReason(r: string)
      modifies this
      ensures reason == r
      ensures submissionId == old(submissionId) && newStatus == old(newStatus)
    {
      reason := r;
    }

    /** `handleSubmit`: returns the `onStatusUpdate` call it makes, if any. The reason is
        passed as typed, not trimmed. */
    method HandleSubmit() returns (call: Option<StatusUpdate>)
      modifies this
      ensures call.Some? <==> CanSubmit(old(submissionId), old(newStatus), old(reason))
      ensures call.Some? ==>
                call.value == StatusUpdate(old(submissionId).value, old(newStatus).value, old(reason))
      ensures call.Some? ==> newStatus == None && reason == ""
      ensures call.None? ==> newStatus == old(newStatus) && reason == old(reason)
      ensures submissionId == old(submissionId)
    {
      if !CanSubmit(submissionId, newStatus, reason) {
        return None;
      }
      call := Some(StatusUpdate(submissionId.value, newStatus.value, reason));
      newStatus := None;
      reason := "";
    }

    /** `handleCancel`. */
    method HandleCancel()
      modifies this
      ensures newStatus == None && reason == ""
      ensures submissionId == old(submissionId)
    {
      newStatus := None;
      reason := "";
    }
  }
}
