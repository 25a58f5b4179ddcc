/** The create-task screen's form: its initial values, the validity test,
    the guard in front of the create dispatch, the unsaved-changes check on
    back, and project selection. */
module TaskCreateForm {
  import opened Wrappers
  import opened JsValue
  import Text

  datatype TaskForm = TaskForm(subject: string, description: string, project: string, status: string, priority: string)

  const InitialForm: TaskForm := TaskForm("", "", "", "Open", "Medium")

  /** The form together with the project picker's visibility. */
  datatype Screen = Screen(form: TaskForm, projectModalVisible: bool)

  /** `form.subject.trim().length > 0` */
  predicate IsFormValid(form: TaskForm) {
    Text.Trim(form.subject) != ""
  }

  datatype Alert = Alert(title: string, message: string)

  /** What one press of "create" did: the form dispatched, if any, and the
      alert shown. */
  datatype CreateResult = CreateResult(dispatched: Option<TaskForm>, alert: Alert)

  const GenericFailure: string := "Failed to create task. Please try again."

  /** `createTask()`, given what `unwrap()` threw, if anything. A rejected
      thunk rethrows its payload, which the task store builds as a string;
      the alert reads `error?.message` of it. */
  function CreateTask(form: TaskForm, thrown: Option<Value>): (r: CreateResult)
    ensures r.dispatched.Some? <==> IsFormValid(form)
    ensures r.dispatched.Some? ==> r.dispatched.value == form
    ensures !IsFormValid(form) ==> r.alert == Alert("Validation Error", "Please enter a subject for the task")
    ensures IsFormValid(form) && thrown.None? ==> r.alert == Alert("Success", "Task created successfully!")
    ensures IsFormValid(form) && thrown.Some? ==> r.alert.title == "Error"
    ensures IsFormValid(form) && thrown.Some? && Get(thrown.value, "message").Str? && Truthy(Get(thrown.value, "message")) ==>
      r.alert.message == Get(thrown.value, "message").s
  {
    if !IsFormValid(form) then
      CreateResult(None, Alert("Validation Error", "Please enter a subject for the task"))
    else
      match thrown
      case None => CreateResult(Some(form), Alert("Success", "Task created successfully!"))
      case Some(e) =>
        CreateResult(Some(form), Alert("Error", FailureMessage(e)))
  }

  /** `error?.message || 'Failed to create task. Please try again.'` */
  function FailureMessage(e: Value): string {
    ToText(FirstTruthy([Get(e, "message")], Str(GenericFailure)))
  }

  /** A string rejection has no `message`, so the failure alert always
      shows the generic text for one. */
  lemma StringRejectionShowsGenericText(form: TaskForm, payload: string)
    requires IsFormValid(form)
    ensures CreateTask(form, Some(Str(payload))).alert == Alert("Error", GenericFailure)
  {
    StringHasNoMessage(payload);
  }

  lemma StringHasNoMessage(payload: string)
    ensures FailureMessage(Str(payload)) == GenericFailure
  {
    var vs := [Get(Str(payload), "message")];
    assert vs == [Undefined] && vs[1..] == [];
    assert FirstTruthy(vs, Str(GenericFailure)) == FirstTruthy([], Str(GenericFailure));
  }

  /** The untouched form cannot be submitted, so pressing create on it
      never dispatches. */
  lemma InitialFormInvalid()
    ensures !IsFormValid(InitialForm)
  {
    Text.TrimOfTrimmed("");
  }

  /** `form.subject.trim() || form.description.trim() || form.project` */
  predicate HasUnsavedChanges(form: TaskForm) {
    Text.Trim(form.subject) != "" || Text.Trim(form.description) != "" || form.project != ""
  }

  datatype BackChoice = AskToDiscard | GoBack

  function HandleBackPress(form: TaskForm): (c: BackChoice)
    ensures c == AskToDiscard <==> HasUnsavedChanges(form)
  {
    if HasUnsavedChanges(form) then AskToDiscard else GoBack
  }

  /** A submittable form always asks before being discarded. */
  lemma ValidFormIsGuarded(form: TaskForm)
    requires IsFormValid(form)
    ensures HandleBackPress(form) == AskToDiscard
  {
  }

  /** The initial form goes back without asking. */
  lemma InitialFormIsClean()
    ensures HandleBackPress(InitialForm) == GoBack
  {
    Text.TrimOfTrimmed("");
  }

  /** `handleProjectSelect(name)`: the project set, the picker closed. */
  function SelectProject(s: Screen, projectName: string): (r: Screen)
    ensures r.form == s.form.(project := projectName) && !r.projectModalVisible
  {
    Screen(s.form.(project := projectName), false)
  }

  /** "Clear Selection": the project emptied. */
  function ClearProject(s: Screen): (r: Screen)
    ensures r.form == s.form.(project := "") && r.projectModalVisible == s.projectModalVisible
  {
    s.(form := s.form.(project := ""))
  }

  /** Clearing undoes a selection for the back check and for validity:
      both then depend on the subject and description alone. */
  lemma ClearUndoesSelect(s: Screen, projectName: string)
    ensures ClearProject(SelectProject(s, projectName)).form == s.form.(project := "")
    ensures IsFormValid(SelectProject(s, projectName).form) == IsFormValid(s.form)
    ensures projectName != "" ==> HandleBackPress(SelectProject(s, projectName).form) == AskToDiscard
  {
  }
}
