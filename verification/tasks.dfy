/**
 * The task-level rules of `TaskManager`: the display lookups for a priority and
 * a category, the status toggle, and the validation and submission of the task
 * form. Rendering and the modal dialog are not part of this model; the form
 * arrives as the values its fields hold.
 */
module Tasks {
  import opened Text
  import opened Domain
  import opened Utils
  import opened Store

  /** `getPriorityText`: the label of a known priority, the medium label for anything else. */
  function GetPriorityText(priority: string): (text: string)
    ensures priority == "low" ==> text == "低"
    ensures priority == "high" ==> text == "高"
    ensures priority != "low" && priority != "high" ==> text == "中"
  {
    if priority == "low" then "低"
    else if priority == "medium" then "中"
    else if priority == "high" then "高"
    else "中"
  }

  /** `getCategoryName`: the name of the first category with the id, else "未分类" (uncategorised). */
  function GetCategoryName(categories: seq<Category>, categoryId: string): (name: string)
    ensures (forall c :: c in categories ==> c.id != categoryId) ==> name == "未分类"
    ensures forall k :: (0 <= k < |categories| && categories[k].id == categoryId
      && (forall j :: 0 <= j < k ==> categories[j].id != categoryId)) ==> name == categories[k].name
  {
    match FindCategory(categories, categoryId)
    case Some(category) => category.name
    case None => "未分类"
  }

  /** The status `toggleTaskStatus` sets: a completed task goes back to todo, any other is completed. */
  function Toggled(s: Status): (r: Status)
    ensures r == Todo <==> s == Completed
    ensures r == Completed <==> s != Completed
  {
    if s == Completed then Todo else Completed
  }

  /**
   * Toggling twice restores a todo or completed task, but an in-progress task
   * comes back as todo: the toggle never leads back to in progress.
   */
  lemma ToggleTwice(s: Status)
    ensures Toggled(Toggled(s)) == s <==> s != InProgress
    ensures Toggled(s) != InProgress
  {
  }

  /** The values of the task form's fields; an empty date field is `None`. */
  datatype TaskForm = TaskForm(
    title: string,
    description: string,
    priority: string,
    dueDate: Option<int>,
    categoryId: string)

  /** The record `saveTask` submits for a new task: trimmed text and always the todo status. */
  function FormDraft(f: TaskForm): (d: TaskDraft)
    ensures d.id == None && d.status == Todo
    ensures d.title == Trim(f.title) && d.description == Trim(f.description)
    ensures d.priority == f.priority && d.dueDate == f.dueDate && d.categoryId == f.categoryId
  {
    TaskDraft(None, Trim(f.title), Trim(f.description), f.priority, Todo, f.dueDate, f.categoryId)
  }

  /**
   * The same record as a patch of an existing task: every form field is
   * present (the due date even when empty), the identifier and creation time are not.
   */
  function FormPatch(f: TaskForm): (p: TaskPatch)
    ensures p.id == None && p.createdAt == None && p.status == Some(Todo)
    ensures p.title == Some(Trim(f.title)) && p.description == Some(Trim(f.description))
    ensures p.priority == Some(f.priority) && p.dueDate == Some(f.dueDate) && p.categoryId == Some(f.categoryId)
  {
    TaskPatch(None, Some(Trim(f.title)), Some(Trim(f.description)), Some(f.priority), Some(Todo),
              Some(f.dueDate), Some(f.categoryId), None)
  }

  /**
   * Saving the form over an existing task keeps its identifier and creation
   * time, takes every form field, and resets its status to todo even when it
   * was completed.
   */
  lemma EditResetsStatus(t: Task, f: TaskForm, now: int)
    ensures var r := Merge(t, FormPatch(f), now);
      && r == Task(t.id, Trim(f.title), Trim(f.description), f.priority, Todo, f.dueDate, f.categoryId,
                   t.createdAt, now)
      && (t.status == Completed ==> r.status != t.status)
  {
  }

  /**
   * A title the form accepts is saved non-empty and without surrounding
   * whitespace; the whitespace it drops is all there was around it.
   */
  lemma SavedTitleTrimmed(f: TaskForm)
    requires !AllWhitespace(f.title)
    ensures var title := FormDraft(f).title;
      title != [] && !IsJsWhitespace(title[0]) && !IsJsWhitespace(title[|title| - 1])
  {
    TrimEmptyIff(f.title);
    var i, j := TrimSlice(f.title);
  }

  class TaskManager {
    const app: AppState

    constructor (app: AppState)
      ensures this.app == app
    {
      this.app := app;
    }

    /**
     * `toggleTaskStatus`: the first task with the id gets the toggled status
     * and a fresh update time; with no such task nothing changes.
     */
    method ToggleTaskStatus(taskId: string, now: int)
      modifies app
      ensures var i := FindIndex(old(app.tasks), taskId);
        if i == -1 then app.tasks == old(app.tasks)
        else app.tasks == old(app.tasks)[i := old(app.tasks)[i].(status := Toggled(old(app.tasks)[i].status), updatedAt := now)]
      ensures app.timeEntries == old(app.timeEntries) && app.categories == old(app.categories)
      ensures app.settings == old(app.settings)
    {
      var i := FindIndex(app.tasks, taskId);
      if i != -1 {
        var newStatus := Toggled(app.tasks[i].status);
        var _ := app.UpdateTask(taskId, StatusPatch(newStatus), now);
      }
    }

    /**
     * `saveTask`: a title that trims to nothing is refused and nothing changes;
     * otherwise the form's record updates the task being edited (a non-empty
     * `editingId`) or is added as a new task.
     */
    method SaveTask(form: TaskForm, editingId: string, now: nat) returns (saved: bool)
      modifies app
      ensures saved <==> !AllWhitespace(form.title)
      ensures !saved ==> app.tasks == old(app.tasks)
      ensures saved && editingId != "" ==> app.tasks == UpdateFirst(old(app.tasks), editingId, FormPatch(form), now)
      ensures saved && editingId == "" ==> app.tasks == old(app.tasks) + [NewTask(FormDraft(form), now)]
      ensures app.timeEntries == old(app.timeEntries) && app.categories == old(app.categories)
      ensures app.settings == old(app.settings)
    {
      TrimEmptyIff(form.title);
      if Trim(form.title) == [] {
        return false;
      }
      if editingId != "" {
        var _ := app.UpdateTask(editingId, FormPatch(form), now);
      } else {
        var _ := app.AddTask(FormDraft(form), now);
      }
      saved := true;
    }
  }
}
