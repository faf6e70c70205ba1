/**
 * The new-workflow dialog: a form choosing an operator, a lease, properties and report
 * types, one workflow task per chosen report type, and a submit that emits one new entry
 * per task and then clears the form.
 */
module NewEntry {
  import opened Optional
  import opened Strings
  import opened Seqs
  import opened Statuses

  /** What the dialog knows about a report type. */
  datatype ReportTypeConfig = ReportTypeConfig(
    name: string,
    reportParty: seq<string>,
    frequency: seq<string>,
    defaultFrequency: string)

  /** The report party choices, the same for every configured report type. */
  const Parties: seq<string> := ["Borrower", "Guarantor", "Pref Equity", "Tenant"]

  function Config(name: string, frequency: seq<string>, defaultFrequency: string): ReportTypeConfig {
    ReportTypeConfig(name, Parties, frequency, defaultFrequency)
  }

  /** `reportTypeConfigs`, in the order the dialog lists its report types. */
  const Configs: seq<ReportTypeConfig> := [
    Config("Operating & Capital Budgets", ["Annual Budget"], "Annual Budget"),
    Config("Annual & Qtrly Financials", ["Annual", "Quarterly"], "Annual"),
    Config("Cash Flow", ["Annual", "Quarterly"], "Annual"),
    Config("Financial Covenant", ["Annual", "Quarterly"], "Annual"),
    Config("Insurance", ["Annual"], "Annual"),
    Config("Other Financial Reports", ["Annual"], "Annual"),
    Config("Percentage Rent Calculation", ["Annual", "Quarterly"], "Quarterly"),
    Config("Capital Expenditures Reports", ["Annual"], "Annual"),
    Config("Competitor Rate Surveys", ["Quarterly"], "Quarterly"),
    Config("Insurance Reports", ["Annual"], "Annual"),
    Config("Operating Licenses", ["Upon Expiration"], "Upon Expiration"),
    Config("Tax Returns", ["Annual"], "Annual")]

  /** The configured report types, in the order the dialog lists them. */
  const ConfigNames: seq<string> := [
    "Operating & Capital Budgets", "Annual & Qtrly Financials", "Cash Flow",
    "Financial Covenant", "Insurance", "Other Financial Reports",
    "Percentage Rent Calculation", "Capital Expenditures Reports", "Competitor Rate Surveys",
    "Insurance Reports", "Operating Licenses", "Tax Returns"]

  /** The entry of `configs` keyed `reportType`, `None` when no entry has that name. */
  function Lookup(configs: seq<ReportTypeConfig>, reportType: string): (r: Option<ReportTypeConfig>)
    ensures r.Some? ==> r.value in configs && r.value.name == reportType
    ensures r.None? <==> forall i :: 0 <= i < |configs| ==> configs[i].name != reportType
  {
    if configs == [] then None
    else if configs[0].name == reportType then Some(configs[0])
    else Lookup(configs[1..], reportType)
  }

  /** Every configuration offers the four report parties and has a default frequency
      that is one of its frequencies. */
  lemma ConfigsWellFormed()
    ensures forall i :: 0 <= i < |Configs| ==>
              Configs[i].reportParty == Parties && Configs[i].defaultFrequency in Configs[i].frequency
  {
    assert forall i :: 0 <= i < |Configs| ==> Configs[i].reportParty == Parties;
  }

  /** `reportTypeConfigs[reportType]`, `None` for a name the table does not list; what it
      finds is keyed by its own name and well formed. */
  function ConfigFor(reportType: string): (r: Option<ReportTypeConfig>)
    ensures r.Some? ==> r.value.name == reportType && r.value.reportParty == Parties
    ensures r.Some? ==> r.value.defaultFrequency in r.value.frequency
  {
    ConfigsWellFormed();
    Lookup(Configs, reportType)
  }

  /** The configured names are exactly the listed ones. */
  lemma ConfigNamesComplete(reportType: string)
    ensures ConfigFor(reportType).Some? <==> reportType in ConfigNames
  {
    assert forall i :: 0 <= i < |Configs| ==> Configs[i].name == ConfigNames[i];
    assert |Configs| == |ConfigNames|;
  }

  /* ---------------- the form ---------------- */

  /** `formData`. */
  datatype FormData = FormData(
    operator: string,
    lease: string,
    selectedProperties: seq<string>,
    selectedReportTypes: seq<string>,
    notes: string)

  const EmptyForm: FormData := FormData("", "", [], [], "")

  /** One row of `workflowTasks`; a picked date is an abstract calendar day. */
  datatype WorkflowTask = WorkflowTask(
    reportType: string,
    reportParty: string,
    frequency: string,
    days: string,
    dueDate: Option<int>,
    notes: string)

  /** The task added when a configured report type is checked. */
  function DefaultTask(reportType: string, c: ReportTypeConfig): (t: WorkflowTask)
    requires c.reportParty != []
    ensures t.reportType == reportType && t.reportParty == c.reportParty[0]
    ensures t.frequency == c.defaultFrequency && t.days == "60"
    ensures t.dueDate.None? && t.notes == ""
  {
    WorkflowTask(reportType, c.reportParty[0], c.defaultFrequency, "60", None, "")
  }

  /** "All" never shares the selection with another property. */
  predicate AllExclusive(selected: seq<string>) {
    "All" in selected ==> forall i :: 0 <= i < |selected| ==> selected[i] == "All"
  }

  /** `handlePropertyChange`: the new property selection. */
  function PropertyChange(selected: seq<string>, property: string, checked: bool): (r: seq<string>)
    ensures property == "All" ==> r == (if checked then ["All"] else [])
    ensures property != "All" && checked ==> "All" !in r && r != [] && r[|r| - 1] == property
    ensures property != "All" && !checked ==> property !in r
    ensures AllExclusive(selected) ==> AllExclusive(r)
  {
    if property == "All" then (if checked then ["All"] else [])
    else if checked then Without(selected, "All") + [property]
    else Without(selected, property)
  }

  /** Checking another property keeps the earlier choices other than "All" in order, and
      unchecking one keeps all other choices in order. */
  lemma PropertyChangeKeepsOthers(selected: seq<string>, property: string, checked: bool)
    requires property != "All"
    ensures checked ==>
              PropertyChange(selected, property, checked) == Without(selected, "All") + [property]
    ensures checked ==> IsSubsequence(Without(selected, "All"), selected)
    ensures !checked ==> IsSubsequence(PropertyChange(selected, property, checked), selected)
    ensures !checked ==> forall i :: 0 <= i < |selected| && selected[i] != property ==>
              selected[i] in PropertyChange(selected, property, checked)
  {
    WithoutIsSubsequence(selected, "All");
    WithoutIsSubsequence(selected, property);
  }

  /** `tasks.filter(task => task.reportType !== reportType)`. */
  function TasksWithout(tasks: seq<WorkflowTask>, reportType: string): (r: seq<WorkflowTask>)
    ensures forall t :: t in r <==> t in tasks && t.reportType != reportType
  {
    if tasks == [] then []
    else (if tasks[0].reportType == reportType then [] else [tasks[0]])
         + TasksWithout(tasks[1..], reportType)
  }

  lemma {:induction false} TasksWithoutAbsent(tasks: seq<WorkflowTask>, reportType: string)
    requires forall t :: t in tasks ==> t.reportType != reportType
    ensures TasksWithout(tasks, reportType) == tasks
  {
    if tasks != [] {
      TasksWithoutAbsent(tasks[1..], reportType);
      assert [tasks[0]] + tasks[1..] == tasks;
    }
  }

  lemma {:induction false} TasksWithoutAppend(tasks: seq<WorkflowTask>, t: WorkflowTask)
    requires forall u :: u in tasks ==> u.reportType != t.reportType
    ensures TasksWithout(tasks + [t], t.reportType) == tasks
  {
    if tasks == [] {
      assert [t][1..] == [];
    } else {
      assert (tasks + [t])[1..] == tasks[1..] + [t];
      TasksWithoutAppend(tasks[1..], t);
      assert [tasks[0]] + tasks[1..] == tasks;
    }
  }

  /** Every task belongs to a selected report type. */
  predicate TasksSelected(form: FormData, tasks: seq<WorkflowTask>) {
    forall t :: t in tasks ==> t.reportType in form.selectedReportTypes
  }

  /** `handleReportTypeChange`: the new form and task list. */
  function ReportTypeChange(form: FormData, tasks: seq<WorkflowTask>, reportType: string, checked: bool):
    (r: (FormData, seq<WorkflowTask>))
    ensures r.0.(selectedReportTypes := form.selectedReportTypes) == form
    ensures checked ==> r.0.selectedReportTypes == form.selectedReportTypes + [reportType]
    ensures checked && ConfigFor(reportType).None? ==> r.1 == tasks
    ensures !checked ==> reportType !in r.0.selectedReportTypes
    ensures !checked ==> forall t :: t in r.1 <==> t in tasks && t.reportType != reportType
    ensures TasksSelected(form, tasks) ==> TasksSelected(r.0, r.1)
  {
    if checked then
      var config := ConfigFor(reportType);
      var newTasks := if config.Some? then tasks + [DefaultTask(reportType, config.value)] else tasks;
      (form.(selectedReportTypes := form.selectedReportTypes + [reportType]), newTasks)
    else
      (form.(selectedReportTypes := Without(form.selectedReportTypes, reportType)),
       TasksWithout(tasks, reportType))
  }

  /** Checking a configured report type appends exactly its default task. */
  lemma ReportTypeCheckAddsTask(form: FormData, tasks: seq<WorkflowTask>, reportType: string)
    requires ConfigFor(reportType).Some?
    ensures ReportTypeChange(form, tasks, reportType, true).1 ==
            tasks + [DefaultTask(reportType, ConfigFor(reportType).value)]
  {
  }

  /** Unchecking a report type right after checking it (when it was not chosen before)
      restores both the form and the task list. */
  lemma ReportTypeCheckUncheck(form: FormData, tasks: seq<WorkflowTask>, reportType: string)
    requires reportType !in form.selectedReportTypes
    requires forall t :: t in tasks ==> t.reportType != reportType
    ensures var (f1, t1) := ReportTypeChange(form, tasks, reportType, true);
            ReportTypeChange(f1, t1, reportType, false) == (form, tasks)
  {
    var (f1, t1) := ReportTypeChange(form, tasks, reportType, true);
    WithoutAbsent(form.selectedReportTypes, reportType);
    assert Without(form.selectedReportTypes + [reportType], reportType) == form.selectedReportTypes by {
      WithoutSnoc(form.selectedReportTypes, reportType);
    }
    if ConfigFor(reportType).Some? {
      TasksWithoutAppend(tasks, DefaultTask(reportType, ConfigFor(reportType).value));
    } else {
      TasksWithoutAbsent(tasks, reportType);
    }
  }

  lemma {:induction false} WithoutSnoc(s: seq<string>, x: string)
    ensures Without(s + [x], x) == Without(s, x)
  {
    if s == [] {
      assert [x][1..] == [];
    } else {
      assert (s + [x])[1..] == s[1..] + [x];
      WithoutSnoc(s[1..], x);
    }
  }

  /** One edit of `updateWorkflowTask(index, field, value)`, per field the dialog edits. */
  datatype TaskEdit =
    | SetReportParty(party: string)
    | SetFrequency(frequency: string)
    | SetDays(days: string)
    | SetDueDate(dueDate: Option<int>)
    | SetNotes(notes: string)

  function ApplyEdit(t: WorkflowTask, e: TaskEdit): WorkflowTask {
    match e
    case SetReportParty(v) => t.(reportParty := v)
    case SetFrequency(v) => t.(frequency := v)
    case SetDays(v) => t.(days := v)
    case SetDueDate(v) => t.(dueDate := v)
    case SetNotes(v) => t.(notes := v)
  }

  /** `updateWorkflowTask`: the task at `index` gets the edit; an index outside the list
      matches no task. */
  function UpdateWorkflowTask(tasks: seq<WorkflowTask>, index: int, e: TaskEdit): (r: seq<WorkflowTask>)
    ensures |r| == |tasks|
    ensures forall i :: 0 <= i < |tasks| && i != index ==> r[i] == tasks[i]
    ensures 0 <= index < |tasks| ==> r[index] == ApplyEdit(tasks[index], e)
  {
    seq(|tasks|, i requires 0 <= i < |tasks| => if i == index then ApplyEdit(tasks[i], e) else tasks[i])
  }

  /** An edit never moves a task to another report type, so the tasks stay in step with
      the selection. */
  lemma UpdateKeepsReportTypes(form: FormData, tasks: seq<WorkflowTask>, index: int, e: TaskEdit)
    ensures forall i :: 0 <= i < |tasks| ==> UpdateWorkflowTask(tasks, index, e)[i].reportType == tasks[i].reportType
    ensures TasksSelected(form, tasks) ==> TasksSelected(form, UpdateWorkflowTask(tasks, index, e))
  {
    var r := UpdateWorkflowTask(tasks, index, e);
    assert forall t :: t in r ==> exists i :: 0 <= i < |r| && r[i] == t;
  }

  /** The single field an edit touches. */
  lemma ApplyEditTouchesOneField(t: WorkflowTask, e: TaskEdit)
    ensures ApplyEdit(t, e).reportType == t.reportType
    ensures e.SetReportParty? ==> ApplyEdit(t, e).reportParty == e.party
    ensures e.SetFrequency? ==> ApplyEdit(t, e).frequency == e.frequency
    ensures e.SetDays? ==> ApplyEdit(t, e).days == e.days
    ensures e.SetDueDate? ==> ApplyEdit(t, e).dueDate == e.dueDate
    ensures e.SetNotes? ==> ApplyEdit(t, e).notes == e.notes
    ensures !e.SetReportParty? ==> ApplyEdit(t, e).reportParty == t.reportParty
    ensures !e.SetFrequency? ==> ApplyEdit(t, e).frequency == t.frequency
    ensures !e.SetDays? ==> ApplyEdit(t, e).days == t.days
    ensures !e.SetDueDate? ==> ApplyEdit(t, e).dueDate == t.dueDate
    ensures !e.SetNotes? ==> ApplyEdit(t, e).notes == t.notes
  {
  }

  /* ---------------- submit ---------------- */

  /** `Omit<Submission, 'id'>` as the dialog fills it in. */
  datatype Entry = Entry(
    operator: string,
    category: string,
    reportType: string,
    reportParty: string,
    frequency: string,
    dueDate: string,
    period: string,
    leaseName: string,
    properties: string,
    status: Status,
    reviewerApprover: string,
    daysUnderStatus: int,
    comments: string,
    assetManager: string,
    invManager: string,
    leaseAdmin: string,
    invAssociate: string)

  /** The entry for one task. `formatDay` and `formatYear` stand for date-fns `format` with
      "MM/dd/yyyy" and "yyyy". */
  function EntryFor(form: FormData, t: WorkflowTask, formatDay: int -> string, formatYear: int -> string): Entry {
    Entry(
      form.operator, "Budgets", t.reportType, t.reportParty, t.frequency,
      if t.dueDate.Some? then formatDay(t.dueDate.value) else "",
      if t.dueDate.Some? then formatYear(t.dueDate.value) else "",
      form.lease, Join(form.selectedProperties, ", "), Submitted, "Pending Assignment", 0,
      if t.notes != "" then t.notes else form.notes,
      "TBD", "TBD", "TBD", "TBD")
  }

  /** What each emitted entry carries. */
  lemma EntryForFields(form: FormData, t: WorkflowTask, formatDay: int -> string, formatYear: int -> string)
    ensures var e := EntryFor(form, t, formatDay, formatYear);
            && e.operator == form.operator && e.leaseName == form.lease
            && e.reportType == t.reportType && e.reportParty == t.reportParty && e.frequency == t.frequency
            && e.status == Submitted && e.daysUnderStatus == 0 && e.reviewerApprover == "Pending Assignment"
            && e.properties == Join(form.selectedProperties, ", ")
            && (t.notes != "" ==> e.comments == t.notes)
            && (t.notes == "" ==> e.comments == form.notes)
            && (t.dueDate.None? ==> e.dueDate == "" && e.period == "")
  {
  }

  /** `handleSubmit`'s guard: `!operator || !lease || selectedReportTypes.length === 0`. */
  predicate CanSubmit(form: FormData) {
    form.operator != "" && form.lease != "" && |form.selectedReportTypes| != 0
  }

  /** `NewEntryDialog`'s state. */
  class NewEntryDialog {
    var formData: FormData
    var workflowTasks: seq<WorkflowTask>

    /** Properties never mix "All" with others, and every task has a selected report type. */
    predicate Valid()
      reads this
    {
      AllExclusive(formData.selectedProperties) && TasksSelected(formData, workflowTasks)
    }

    constructor()
      ensures formData == EmptyForm && workflowTasks == []
      ensures Valid()
    {
      formData := EmptyForm;
      workflowTasks := [];
    }

    /** The operator, lease and notes inputs. */
    method SetText(operator: string, lease: string, notes: string)
      requires Valid()
      modifies this
      ensures formData == old(formData).(operator := operator, lease := lease, notes := notes)
      ensures workflowTasks == old(workflowTasks)
      ensures Valid()
    {
      formData := formData.(operator := operator, lease := lease, notes := notes);
    }

    method HandlePropertyChange(property: string, checked: bool)
      requires Valid()
      modifies this
      ensures formData == old(formData).(selectedProperties :=
                PropertyChange(old(formData.selectedProperties), property, checked))
      ensures workflowTasks == old(workflowTasks)
      ensures Valid()
    {
      formData := formData.(selectedProperties := PropertyChange(formData.selectedProperties, property, checked));
    }

    method HandleReportTypeChange(reportType: string, checked: bool)
      requires Valid()
      modifies this
      ensures (formData, workflowTasks) == ReportTypeChange(old(formData), old(workflowTasks), reportType, checked)
      ensures Valid()
    {
      var r := ReportTypeChange(formData, workflowTasks, reportType, checked);
      formData := r.0;
      workflowTasks := r.1;
    }

    method UpdateTask(index: int, e: TaskEdit)
      requires Valid()
      modifies this
      ensures workflowTasks == UpdateWorkflowTask(old(workflowTasks), index, e)
      ensures formData == old(formData)
      ensures Valid()
    {
      UpdateKeepsReportTypes(formData, workflowTasks, index, e);
      workflowTasks := UpdateWorkflowTask(workflowTasks, index, e);
    }

    /** `handleSubmit`: returns the entries passed to `onEntryCreate`, in call order. */
    method HandleSubmit(formatDay: int -> string, formatYear: int -> string) returns (entries: seq<Entry>)
      requires Valid()
      modifies this
      ensures !CanSubmit(old(formData)) ==>
                entries == [] && formData == old(formData) && workflowTasks == old(workflowTasks)
      ensures CanSubmit(old(formData)) ==>
                |entries| == |old(workflowTasks)| &&
                (forall i :: 0 <= i < |entries| ==>
                   entries[i] == EntryFor(old(formData), old(workflowTasks)[i], formatDay, formatYear) &&
                   entries[i].reportType in old(formData.selectedReportTypes)) &&
                formData == EmptyForm && workflowTasks == []
      ensures Valid()
    {
      if !CanSubmit(formData) {
        return [];
      }
      entries := [];
      for i := 0 to |workflowTasks|
        invariant |entries| == i
        invariant forall j :: 0 <= j < i ==> entries[j] == EntryFor(formData, workflowTasks[j], formatDay, formatYear)
      {
        entries := entries + [EntryFor(formData, workflowTasks[i], formatDay, formatYear)];
      }
      forall j | 0 <= j < |entries|
        ensures entries[j].reportType in formData.selectedReportTypes
      {
        assert workflowTasks[j] in workflowTasks;
      }
      formData := EmptyForm;
      workflowTasks := [];
    }
  }
}
