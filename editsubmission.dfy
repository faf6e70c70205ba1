/** The submission-details dialog: a form holding a copy of one submission, edited field by
    field, validated on submit and restored on cancel. */
module EditSubmission {
  import opened Optional
  import opened Strings
  import opened Data

  /** The fields the dialog's inputs edit through `handleInputChange`. */
  datatype Field =
    | OperatorField | PropertiesField | CategoryField | ReportTypeField | ReportPartyField
    | ReviewerApproverField | FrequencyField | PeriodField | DueDateField | LeaseNameField

  function Get(s: Submission, f: Field): string {
    match f
    case OperatorField => s.operator
    case PropertiesField => s.properties
    case CategoryField => s.category
    case ReportTypeField => s.reportType
    case ReportPartyField => s.reportParty
    case ReviewerApproverField => s.reviewerApprover
    case FrequencyField => s.frequency
    case PeriodField => s.period
    case DueDateField => s.dueDate
    case LeaseNameField => s.leaseName
  }

  /** A record with the editable fields of `edited` and every other field of `s`. */
  function KeepOthers(s: Submission, edited: Submission): Submission {
    s.(operator := edited.operator, properties := edited.properties, category := edited.category,
       reportType := edited.reportType, reportParty := edited.reportParty,
       reviewerApprover := edited.reviewerApprover, frequency := edited.frequency,
       period := edited.period, dueDate := edited.dueDate, leaseName := edited.leaseName)
  }

  /** `{ ...prev, [field]: value }`: only `f` takes the new value. */
  function SetField(s: Submission, f: Field, v: string): (r: Submission)
    ensures Get(r, f) == v
    ensures forall g :: g != f ==> Get(r, g) == Get(s, g)
    ensures KeepOthers(s, r) == r
  {
    match f
    case OperatorField => s.(operator := v)
    case PropertiesField => s.(properties := v)
    case CategoryField => s.(category := v)
    case ReportTypeField => s.(reportType := v)
    case ReportPartyField => s.(reportParty := v)
    case ReviewerApproverField => s.(reviewerApprover := v)
    case FrequencyField => s.(frequency := v)
    case PeriodField => s.(period := v)
    case DueDateField => s.(dueDate := v)
    case LeaseNameField => s.(leaseName := v)
  }

  /** A run of input changes, applied in order. */
  function ApplyEdits(s: Submission, edits: seq<(Field, string)>): Submission
    decreases |edits|
  {
    if edits == [] then s else ApplyEdits(SetField(s, edits[0].0, edits[0].1), edits[1..])
  }

  /** However the form is edited, the id, status, dates, comments and relationship columns
      are those of the record the form was copied from. */
  lemma {:induction false} ApplyEditsKeepsOthers(s: Submission, edits: seq<(Field, string)>)
    ensures KeepOthers(s, ApplyEdits(s, edits)) == ApplyEdits(s, edits)
    ensures ApplyEdits(s, edits).id == s.id
    decreases |edits|
  {
    if edits != [] {
      var s1 := SetField(s, edits[0].0, edits[0].1);
      ApplyEditsKeepsOthers(s1, edits[1..]);
    }
  }

  /** `handleSubmit`'s validation, negated: `!operator.trim() || !leaseName.trim()`. */
  function CanSubmit(form: Submission): (ok: bool)
    ensures ok <==> !IsBlank(form.operator) && !IsBlank(form.leaseName)
  {
    TrimEmptyIffBlank(form.operator);
    TrimEmptyIffBlank(form.leaseName);
    Trim(form.operator) != "" && Trim(form.leaseName) != ""
  }

  /** `EditSubmissionDialog`'s state. `origin` records the submission the form was last
      copied from. */
  class EditSubmissionDialog {
    var submission: Option<Submission>
    var formData: Option<Submission>
    var applyToFutureTasks: bool
    ghost var origin: Option<Submission>

    /** The form only ever holds edits of its origin, and while a submission is shown it is
        the origin. */
    ghost predicate Valid()
      reads this
    {
      (formData.Some? ==> origin.Some? && KeepOthers(origin.value, formData.value) == formData.value) &&
      (submission.Some? ==> origin == submission)
    }

    /** Mounting: `formData` starts `null`, then the effect copies the submission in. */
    constructor(submission: Option<Submission>)
      ensures this.submission == submission && formData == submission
      ensures !applyToFutureTasks
      ensures Valid()
    {
      this.submission := submission;
      formData := submission;
      applyToFutureTasks := false;
      origin := submission;
    }

    /** A new `submission` prop and the effect it triggers: a non-null submission is copied
        into the form, a null one leaves the form as it was. */
    method SubmissionChanged(s: Option<Submission>)
      requires Valid()
      modifies this
      ensures submission == s
      ensures formData == (if s.Some? then s else old(formData))
      ensures applyToFutureTasks == old(applyToFutureTasks)
      ensures Valid()
    {
      submission := s;
      if s.Some? {
        formData := s;
        origin := s;
      }
    }

    /** `handleInputChange(field, value)`. */
    method HandleInputChange(f: Field, v: string)
      requires Valid()
      modifies this
      ensures formData == (if old(formData).Some? then Some(SetField(old(formData).value, f, v)) else None)
      ensures submission == old(submission) && applyToFutureTasks == old(applyToFutureTasks)
      ensures Valid()
    {
      if formData.Some? {
        var r := SetField(formData.value, f, v);
        assert KeepOthers(formData.value, r) == r;
        formData := Some(r);
      }
    }

    /** The "apply to future tasks" checkbox. */
    method SetApplyToFutureTasks(b: bool)
      requires Valid()
      modifies this
      ensures applyToFutureTasks == b
      ensures submission == old(submission) && formData == old(formData)
      ensures Valid()
    {
      applyToFutureTasks := b;
    }

    /** `handleSubmit`: returns the record passed to `onSubmissionUpdate`, if any. It is the
        whole form, and it keeps the id of the submission shown. */
    method HandleSubmit() returns (call: Option<Submission>)
      requires Valid()
      ensures call.Some? <==> formData.Some? && CanSubmit(formData.value)
      ensures call.Some? ==> call == formData
      ensures call.Some? && submission.Some? ==> call.value.id == submission.value.id
    {
      if formData.None? {
        return None;
      }
      if !CanSubmit(formData.value) {
        return None;
      }
      call := formData;
    }

    /** `handleCancel`: the form goes back to a copy of the submission (or `null`). */
    method HandleCancel()
      requires Valid()
      modifies this
      ensures formData == submission
      ensures submission == old(submission) && applyToFutureTasks == old(applyToFutureTasks)
      ensures Valid()
    {
      formData := submission;
      if submission.Some? {
        origin := submission;
      }
    }
  }
}
