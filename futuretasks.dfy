/** The future-tasks dialog: the tasks of one submission, a form to add one to the back end,
    and a remove button that only changes the dialog's own list. */
module FutureTasks {
  import opened Optional
  import opened Strings
  import opened Seqs
  import opened MockBackend

  /** `newTask`: the add-task form. */
  datatype TaskForm = TaskForm(task: string, assignee: string, dueDate: string, priority: Priority)

  const EmptyTaskForm: TaskForm := TaskForm("", "", "", Medium)

  /** `handleAddTask`'s guard, negated:
      `!submissionId || !task.trim() || !assignee.trim() || !dueDate`. */
  function CanAdd(submissionId: Option<string>, f: TaskForm): (ok: bool)
    ensures ok <==> Truthy(submissionId) && !IsBlank(f.task) && !IsBlank(f.assignee) && f.dueDate != ""
  {
    TrimEmptyIffBlank(f.task);
    TrimEmptyIffBlank(f.assignee);
    Truthy(submissionId) && Trim(f.task) != "" && Trim(f.assignee) != "" && f.dueDate != ""
  }

  /** The fields handed to `addFutureTask`: the form's, with status "pending". */
  function NewTaskFields(submissionId: string, f: TaskForm): (r: TaskFields)
    ensures r.submissionId == submissionId && r.status == TaskPending
    ensures r.task == f.task && r.assignee == f.assignee && r.dueDate == f.dueDate && r.priority == f.priority
  {
    TaskFields(submissionId, f.task, f.assignee, f.dueDate, f.priority, TaskPending)
  }

  /** `tasks.filter(task => task.id !== taskId)`. */
  function RemoveTask(tasks: seq<FutureTask>, taskId: string): (r: seq<FutureTask>)
    ensures forall t :: t in r <==> t in tasks && t.id != taskId
  {
    if tasks == [] then []
    else (if tasks[0].id == taskId then [] else [tasks[0]]) + RemoveTask(tasks[1..], taskId)
  }

  /** The remaining tasks keep their order. */
  lemma {:induction false} RemoveTaskIsSubsequence(tasks: seq<FutureTask>, taskId: string)
    ensures IsSubsequence(RemoveTask(tasks, taskId), tasks)
  {
    if tasks != [] {
      RemoveTaskIsSubsequence(tasks[1..], taskId);
      var rest := RemoveTask(tasks[1..], taskId);
      if tasks[0].id == taskId {
        assert RemoveTask(tasks, taskId) == rest;
      } else {
        assert ([tasks[0]] + rest)[1..] == rest;
      }
    }
  }

  /** Removing an id no task has changes nothing. */
  lemma {:induction false} RemoveTaskAbsent(tasks: seq<FutureTask>, taskId: string)
    requires forall t :: t in tasks ==> t.id != taskId
    ensures RemoveTask(tasks, taskId) == tasks
  {
    if tasks != [] {
      RemoveTaskAbsent(tasks[1..], taskId);
      assert [tasks[0]] + tasks[1..] == tasks;
    }
  }

  /** `FutureTasksDialog`'s state, over the shared back-end task list. */
  class FutureTasksDialog {
    const store: FutureTaskStore
    var submissionId: Option<string>
    var tasks: seq<FutureTask>
    var newTask: TaskForm

    /** Mounting: the list starts empty and the effect loads the submission's tasks when the
        dialog is open with a submission id. */
    constructor(store: FutureTaskStore, submissionId: Option<string>, open: bool)
      ensures this.store == store && this.submissionId == submissionId
      ensures tasks == (if open && Truthy(submissionId) then store.ForSubmission(submissionId.value) else [])
      ensures newTask == EmptyTaskForm
    {
      this.store := store;
      this.submissionId := submissionId;
      newTask := EmptyTaskForm;
      if open && Truthy(submissionId) {
        tasks := store.ForSubmission(submissionId.value);
      } else {
        tasks := [];
      }
    }

    /** New `open`/`submissionId` props and the effect they trigger. */
    method PropsChanged(open: bool, id: Option<string>)
      modifies this
      ensures submissionId == id && newTask == old(newTask)
      ensures tasks == (if open && Truthy(id) then store.ForSubmission(id.value) else old(tasks))
    {
      submissionId := id;
      if open && Truthy(id) {
        tasks := store.ForSubmission(id.value);
      }
    }

    /** The task, assignee, due date and priority inputs. */
    method SetTaskForm(f: TaskForm)
      modifies this
      ensures newTask == f
      ensures submissionId == old(submissionId) && tasks == old(tasks)
    {
      newTask := f;
    }

    /** `handleAddTask`: on success one task, with id `freshId`, goes to the end of both the
        back-end list and the dialog's list, and the form is reset. */
    method HandleAddTask(freshId: string) returns (created: Option<FutureTask>)
      modifies this, store
      ensures created.Some? <==> CanAdd(old(submissionId), old(newTask))
      ensures created.None? ==>
                tasks == old(tasks) && newTask == old(newTask) && store.tasks == old(store.tasks)
      ensures created.Some? ==>
                && FieldsOf(created.value) == NewTaskFields(old(submissionId).value, old(newTask))
                && created.value.id == freshId
                && store.tasks == old(store.tasks) + [created.value]
                && tasks == old(tasks) + [created.value]
                && newTask == EmptyTaskForm
      ensures created.Some? && old(tasks) == TasksFor(old(store.tasks), old(submissionId).value) ==>
                tasks == TasksFor(store.tasks, old(submissionId).value)
      ensures submissionId == old(submissionId)
    {
      if !CanAdd(submissionId, newTask) {
        return None;
      }
      var t := store.AddFutureTask(NewTaskFields(submissionId.value, newTask), freshId);
      TasksForAppend(old(store.tasks), t, submissionId.value);
      tasks := tasks + [t];
      newTask := EmptyTaskForm;
      created := Some(t);
    }

    /** `handleRemoveTask`: only the dialog's list loses the tasks with that id. */
    method HandleRemoveTask(taskId: string)
      modifies this
      ensures tasks == RemoveTask(old(tasks), taskId)
      ensures IsSubsequence(tasks, old(tasks))
      ensures store.tasks == old(store.tasks)
      ensures submissionId == old(submissionId) && newTask == old(newTask)
    {
      RemoveTaskIsSubsequence(tasks, taskId);
      tasks := RemoveTask(tasks, taskId);
    }
  }
}
