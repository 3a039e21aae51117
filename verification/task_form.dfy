/** The task editor of `src/components/AddTaskModal.tsx`: its form state,
    how it is filled and cleared, and the decision `handleSubmit` makes
    between rejecting the form, adding a task and updating one. */
module TaskForm {
  import opened Wrappers
  import opened Text
  import opened TaskStore

  datatype Form = Form(title: string, description: string, categoryId: string, dueDate: Option<int>)

  /** The store call a submit makes, if any. */
  datatype Submission = Rejected | AddNew(draft: TaskDraft) | UpdateExisting(id: string, patch: TaskPatch)

  /** The editor's state: the form and whether it edits an existing task. */
  datatype Editor = Editor(form: Form, isEditMode: bool)

  /** The call made and the form left behind. */
  datatype Submitted = Submitted(action: Submission, form: Form)

  /** The id of the first category, or the empty string when there is none. */
  function FirstCategoryId(categories: seq<Category>): (r: string)
    ensures |categories| > 0 ==> r == categories[0].id
    ensures |categories| == 0 ==> r == ""
  {
    if |categories| > 0 then categories[0].id else ""
  }

  /** `resetForm`: everything cleared, the category preselected to the
      first one. */
  function ResetForm(categories: seq<Category>): (r: Form)
    ensures r.title == "" && r.description == "" && r.dueDate.None?
    ensures r.categoryId == FirstCategoryId(categories)
  {
    Form("", "", FirstCategoryId(categories), None)
  }

  /** The effect run when the edited task changes: a task fills the form
      with its own fields and switches edit mode on; no task resets the
      form and switches it off. */
  function FormFor(editTask: Option<Task>, categories: seq<Category>): (r: Editor)
    ensures r.isEditMode <==> editTask.Some?
    ensures editTask.Some? ==> var t := editTask.value;
      && r.form.title == t.title && r.form.description == t.description
      && r.form.categoryId == t.categoryId && r.form.dueDate == t.dueDate
    ensures editTask.None? ==> r.form == ResetForm(categories)
  {
    match editTask
    case Some(t) => Editor(Form(t.title, t.description, t.categoryId, t.dueDate), true)
    case None => Editor(ResetForm(categories), false)
  }

  /** `handleSubmit`. A title that is blank after trimming calls nothing and
      keeps the form. In edit mode with a task, the patch carries exactly
      title, description, category and due date. Otherwise a new,
      incomplete task is drafted with title and description as typed and
      an empty category replaced by the first category's id. After a call
      the form is reset. */
  function Submit(form: Form, isEditMode: bool, editTask: Option<Task>, categories: seq<Category>): (r: Submitted)
    ensures r.action == Rejected <==> AllWhitespace(form.title)
    ensures r.action == Rejected ==> r.form == form
    ensures r.action != Rejected ==> r.form == ResetForm(categories)
    ensures r.action.UpdateExisting? <==> !AllWhitespace(form.title) && isEditMode && editTask.Some?
    ensures r.action.UpdateExisting? ==> var p := r.action.patch;
      && r.action.id == editTask.value.id
      && p.id.None? && p.completed.None? && p.createdAt.None? && p.updatedAt.None?
      && p.title == Some(form.title) && p.description == Some(form.description)
      && p.categoryId == Some(form.categoryId) && p.dueDate == Some(form.dueDate)
    ensures r.action.AddNew? ==> var d := r.action.draft;
      && d.title == form.title && d.description == form.description
      && d.dueDate == form.dueDate && !d.completed
      && d.categoryId == (if form.categoryId != "" then form.categoryId else FirstCategoryId(categories))
  {
    if Trim(form.title) == [] then Submitted(Rejected, form)
    else if isEditMode && editTask.Some? then
      var patch := TaskPatch(None, Some(form.title), Some(form.description), Some(form.dueDate),
                             None, Some(form.categoryId), None, None);
      Submitted(UpdateExisting(editTask.value.id, patch), ResetForm(categories))
    else
      var category := if form.categoryId != "" then form.categoryId else FirstCategoryId(categories);
      var draft := TaskDraft(form.title, form.description, form.dueDate, false, category);
      Submitted(AddNew(draft), ResetForm(categories))
  }

  /** The mode the effect sets decides the call: with the form edited in
      any way that leaves a non-blank title, submitting updates the task
      being edited exactly when there is one, and adds a task otherwise. */
  lemma ModeFollowsEditTask(form: Form, editTask: Option<Task>, categories: seq<Category>)
    requires !AllWhitespace(form.title)
    ensures var sub := Submit(form, FormFor(editTask, categories).isEditMode, editTask, categories);
      && (sub.action.UpdateExisting? <==> editTask.Some?)
      && (sub.action.AddNew? <==> editTask.None?)
      && (sub.action.UpdateExisting? ==> sub.action.id == editTask.value.id)
  {
  }

  /** Opening a task in the editor and saving it untouched changes nothing
      about that task except its `updatedAt`. */
  lemma UnchangedEditOnlyStamps(s: Store, i: int, categories: seq<Category>, now: int)
    requires 0 <= i < |s.tasks| && !AllWhitespace(s.tasks[i].title)
    ensures var t := s.tasks[i];
      var editor := FormFor(Some(t), categories);
      var sub := Submit(editor.form, editor.isEditMode, Some(t), categories);
      sub.action.UpdateExisting?
      && UpdateTask(s, sub.action.id, sub.action.patch, now).tasks[i] == t.(updatedAt := now)
  {
  }

  /** A cleared form cannot be submitted: the blank title rejects it, so a
      second submit right after a successful one calls nothing. */
  lemma SubmitAfterResetRejected(form: Form, isEditMode: bool, editTask: Option<Task>, categories: seq<Category>)
    ensures Submit(ResetForm(categories), isEditMode, editTask, categories)
         == Submitted(Rejected, ResetForm(categories))
    ensures var first := Submit(form, isEditMode, editTask, categories);
      first.action != Rejected ==> Submit(first.form, isEditMode, editTask, categories).action == Rejected
  {
  }

  /** A task added from the editor is appended incomplete, with the title
      as typed, even with surrounding spaces. */
  lemma AddedTaskIsIncomplete(s: Store, form: Form, categories: seq<Category>, id: string, now: int)
    requires !AllWhitespace(form.title)
    ensures var sub := Submit(form, false, None, categories);
      sub.action.AddNew?
      && var t := AddTask(s, sub.action.draft, id, now).tasks[|s.tasks|];
      !t.completed && t.title == form.title && t.id == id
  {
  }
}
