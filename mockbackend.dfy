/**
 * The demo back end: the nightly BPC refresh that overwrites relationship and reviewer
 * columns from two lookup tables, and the in-memory list of future tasks with its append
 * and its query by submission.
 */
module MockBackend {
  import opened Optional
  import opened Statuses
  import opened Data
  import opened Seqs

  /** The four people the relationship table attaches to an operator. */
  datatype Relationship = Relationship(
    assetManager: string,
    leaseAdmin: string,
    invManager: string,
    invAssociate: string)

  /** `mockBPCData.relationshipMappings[operator]`, `None` for an operator it does not list. */
  function RelationshipMapping(operator: string): Option<Relationship> {
    if operator == "ADVANCED RECOVERY SYSTEMS" then
      Some(Relationship("Melissa Johnson", "Yvonne Smith", "Lauren Davis", "Larson Pfeil"))
    else if operator == "AGEWELL SOLVE" then
      Some(Relationship("Michael Chen", "Sarah Wilson", "David Brown", "Emma Thompson"))
    else None
  }

  /** `mockBPCData.reviewerApproverMappings[reportType]`; every listed reviewer is a non-empty name. */
  function ReviewerApproverMapping(reportType: string): (r: Option<string>)
    ensures r.Some? ==> r.value != ""
  {
    if reportType == "Operating & Capital Budgets" then Some("Melissa")
    else if reportType == "Annual & Qtrly Financials" then Some("Melissa")
    else if reportType == "Capital Expenditures Report" then Some("Melissa")
    else if reportType == "Operating Licenses" then Some("Yvonne")
    else None
  }

  /** The relationship columns of a record. */
  function RelationshipOf(s: Submission): Relationship {
    Relationship(s.assetManager, s.leaseAdmin, s.invManager, s.invAssociate)
  }

  /** A completed workflow keeps its reviewer: `['approved', 'non-compliant'].includes(status)`. */
  predicate IsCompleted(st: Status) {
    st in [Approved, NonCompliant]
  }

  /** What the refresh does to one record. */
  function Refresh(s: Submission): Submission {
    var rel := RelationshipMapping(s.operator);
    var withRelationship :=
      if rel.Some? then
        s.(assetManager := rel.value.assetManager, leaseAdmin := rel.value.leaseAdmin,
           invManager := rel.value.invManager, invAssociate := rel.value.invAssociate)
      else s;
    var reviewer := ReviewerApproverMapping(s.reportType);
    if Truthy(reviewer) && !IsCompleted(s.status) then
      withRelationship.(reviewerApprover := reviewer.value)
    else withRelationship
  }

  /** The refresh of a whole list, record by record. */
  function RefreshAll(subs: seq<Submission>): (r: seq<Submission>)
    ensures |r| == |subs|
  {
    seq(|subs|, i requires 0 <= i < |subs| => Refresh(subs[i]))
  }

  /** Only the four relationship columns and the reviewer can change: in particular the id,
      operator, report type and status are kept. */
  lemma RefreshKeeps(s: Submission)
    ensures Refresh(s).(assetManager := s.assetManager, leaseAdmin := s.leaseAdmin,
                        invManager := s.invManager, invAssociate := s.invAssociate,
                        reviewerApprover := s.reviewerApprover) == s
    ensures Refresh(s).id == s.id && Refresh(s).operator == s.operator
    ensures Refresh(s).reportType == s.reportType && Refresh(s).status == s.status
  {
  }

  /** The relationship columns become the operator's mapping when it has one, and are kept
      otherwise. */
  lemma RefreshRelationship(s: Submission)
    ensures RelationshipOf(Refresh(s)) == RelationshipMapping(s.operator).GetOr(RelationshipOf(s))
  {
  }

  /** The reviewer changes only for a mapped report type on a workflow that is not
      completed, and then becomes the mapped name. */
  lemma RefreshReviewer(s: Submission)
    ensures Refresh(s).reviewerApprover != s.reviewerApprover ==>
              ReviewerApproverMapping(s.reportType).Some? && !IsCompleted(s.status)
    ensures ReviewerApproverMapping(s.reportType).Some? && !IsCompleted(s.status) ==>
              Refresh(s).reviewerApprover == ReviewerApproverMapping(s.reportType).value
    ensures s.status == Approved || s.status == NonCompliant ==>
              Refresh(s).reviewerApprover == s.reviewerApprover
  {
  }

  /** The mapped values are constants, so a second refresh changes nothing. */
  lemma RefreshIdempotent(s: Submission)
    ensures Refresh(Refresh(s)) == Refresh(s)
  {
    RefreshKeeps(s);
  }

  lemma RefreshAllIdempotent(subs: seq<Submission>)
    ensures RefreshAll(RefreshAll(subs)) == RefreshAll(subs)
  {
    forall i | 0 <= i < |subs|
      ensures RefreshAll(RefreshAll(subs))[i] == RefreshAll(subs)[i]
    {
      RefreshIdempotent(subs[i]);
    }
  }

  /** `simulateBPCRefresh`: assigns the looked-up fields on every record of the array in
      place and returns the array's records. */
  method SimulateBPCRefresh(a: array<Submission>) returns (r: seq<Submission>)
    modifies a
    ensures a[..] == RefreshAll(old(a[..]))
    ensures r == a[..]
  {
    ghost var s := a[..];
    for i := 0 to a.Length
      invariant a[..i] == RefreshAll(s)[..i]
      invariant a[i..] == s[i..]
    {
      assert a[i] == s[i];
      a[i] := Refresh(a[i]);
      assert a[..i + 1] == a[..i] + [a[i]];
    }
    r := a[..];
  }

  /* ---------------- future tasks ---------------- */

  datatype Priority = High | Medium | Low

  datatype TaskStatus = TaskPending | TaskInProgress | TaskCompleted

  /** `Omit<FutureTask, 'id'>`: what a caller hands to `addFutureTask`. */
  datatype TaskFields = TaskFields(
    submissionId: string,
    task: string,
    assignee: string,
    dueDate: string,
    priority: Priority,
    status: TaskStatus)

  datatype FutureTask = FutureTask(
    id: string,
    submissionId: string,
    task: string,
    assignee: string,
    dueDate: string,
    priority: Priority,
    status: TaskStatus)

  /** The caller-supplied part of a task. */
  function FieldsOf(t: FutureTask): TaskFields {
    TaskFields(t.submissionId, t.task, t.assignee, t.dueDate, t.priority, t.status)
  }

  /** `{ ...task, id }`: the given fields together with an id. */
  function WithId(f: TaskFields, id: string): (t: FutureTask)
    ensures FieldsOf(t) == f && t.id == id
  {
    FutureTask(id, f.submissionId, f.task, f.assignee, f.dueDate, f.priority, f.status)
  }

  /** `tasks.filter(task => task.submissionId === submissionId)`. */
  function TasksFor(tasks: seq<FutureTask>, submissionId: string): (r: seq<FutureTask>)
    ensures forall t :: t in r <==> t in tasks && t.submissionId == submissionId
  {
    if tasks == [] then []
    else (if tasks[0].submissionId == submissionId then [tasks[0]] else [])
         + TasksFor(tasks[1..], submissionId)
  }

  /** The selected tasks keep their insertion order. */
  lemma {:induction false} TasksForIsSubsequence(tasks: seq<FutureTask>, submissionId: string)
    ensures IsSubsequence(TasksFor(tasks, submissionId), tasks)
  {
    if tasks != [] {
      TasksForIsSubsequence(tasks[1..], submissionId);
      var rest := TasksFor(tasks[1..], submissionId);
      if tasks[0].submissionId == submissionId {
        assert ([tasks[0]] + rest)[1..] == rest;
      } else {
        assert TasksFor(tasks, submissionId) == rest;
      }
    }
  }

  /** Appending a task extends exactly the query for its own submission, at the end. */
  lemma {:induction false} TasksForAppend(tasks: seq<FutureTask>, t: FutureTask, submissionId: string)
    ensures TasksFor(tasks + [t], submissionId) ==
            TasksFor(tasks, submissionId) + (if t.submissionId == submissionId then [t] else [])
  {
    if tasks == [] {
      assert [t][1..] == [];
    } else {
      assert (tasks + [t])[1..] == tasks[1..] + [t];
      TasksForAppend(tasks[1..], t, submissionId);
    }
  }

  /** The module-level `mockFutureTasks` list and the two functions that use it. */
  class FutureTaskStore {
    var tasks: seq<FutureTask>

    /** `mockFutureTasks` starts empty. */
    constructor()
      ensures tasks == []
    {
      tasks := [];
    }

    /** `addFutureTask`: pushes the fields with `freshId` (the source's `Date.now()`
        rendered as a string) and returns the new task. */
    method AddFutureTask(fields: TaskFields, freshId: string) returns (t: FutureTask)
      modifies this
      ensures FieldsOf(t) == fields && t.id == freshId
      ensures tasks == old(tasks) + [t]
    {
      t := WithId(fields, freshId);
      tasks := tasks + [t];
    }

    /** `getFutureTasksForSubmission`. */
    function ForSubmission(submissionId: string): (r: seq<FutureTask>)
      reads this
      ensures forall t :: t in r <==> t in tasks && t.submissionId == submissionId
      ensures IsSubsequence(r, tasks)
    {
      TasksForIsSubsequence(tasks, submissionId);
      TasksFor(tasks, submissionId)
    }
  }
}
