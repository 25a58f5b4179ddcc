/** The task store: its record, the assignment read-modify-write performed
    by the assign/remove thunks, and every reducer case (the five plain
    reducers and the merges applied when a thunk is fulfilled). */
module TaskSlice {
  import opened Wrappers
  import opened JsValue
  import opened AsyncCases
  import opened AssignedCodec
  import KeyedList
  import Text

  /** A task as the store keeps it. The four assignment fields are the ones
      the decoder consults; `assignedProperty` is the `assigned` property the detail screen
      reads, which nothing in the store ever writes. Absent and `null`
      string fields are both None. */
  datatype Task = Task(
    name: string,
    subject: string,
    project: Option<string>,
    status: string,
    priority: string,
    description: Option<string>,
    progress: int,
    creation: string,
    modified: string,
    owner: string,
    customAssignedEmployees: Option<string>,
    assignedTo: Option<string>,
    assignedEmployees: Option<string>,
    assign: Option<string>,
    assignedProperty: Value)

  function Name(t: Task): string {
    t.name
  }

  datatype TaskState = TaskState(tasks: seq<Task>, selected: Option<Task>, status: Status)

  function InitialState(): TaskState {
    TaskState([], None, Status(false, Undefined))
  }

  // ---- getAssignedEmployees ----

  /** A string field that `||` accepts: present and non-empty. */
  predicate Present(o: Option<string>) {
    o.Some? && o.value != ""
  }

  /** The assignment fields in the order the decoder tries them. */
  function AssignmentFields(t: Task): seq<Option<string>> {
    [t.customAssignedEmployees, t.assignedTo, t.assignedEmployees, t.assign]
  }

  /** The first non-empty assignment field, or "" when all are empty. */
  function AssignedString(t: Task): (s: string)
    ensures var fs := AssignmentFields(t);
      || (exists i :: 0 <= i < |fs| && Present(fs[i]) && s == fs[i].value
            && forall j :: 0 <= j < i ==> !Present(fs[j]))
      || ((forall j :: 0 <= j < |fs| ==> !Present(fs[j])) && s == "")
  {
    var fs := AssignmentFields(t);
    if Present(t.customAssignedEmployees) then
      assert Present(fs[0]);
      t.customAssignedEmployees.value
    else if Present(t.assignedTo) then
      assert Present(fs[1]);
      t.assignedTo.value
    else if Present(t.assignedEmployees) then
      assert Present(fs[2]);
      t.assignedEmployees.value
    else if Present(t.assign) then
      assert Present(fs[3]);
      t.assign.value
    else ""
  }

  /** `getAssignedEmployees(task)`: the decoded ids of the first non-empty
      assignment field. */
  function AssignedEmployees(t: Task): (ids: seq<string>)
    ensures AllClean(ids)
    ensures (!Present(t.customAssignedEmployees) && !Present(t.assignedTo)
             && !Present(t.assignedEmployees) && !Present(t.assign)) ==> ids == []
  {
    DecodeIds(AssignedString(t))
  }

  /** After the last id is removed the stored field is "", which `||`
      skips: the next read decodes whatever the other fields hold. */
  lemma EmptiedFieldFallsBack(t: Task)
    requires t.customAssignedEmployees == Some("")
    ensures AssignedEmployees(t) == AssignedEmployees(t.(customAssignedEmployees := None))
  {
    var u := t.(customAssignedEmployees := None);
    assert !Present(t.customAssignedEmployees) && !Present(u.customAssignedEmployees);
    assert AssignedString(t) == AssignedString(u);
  }

  // ---- assignEmployeeToTask / removeEmployeeFromTask ----

  /** The PUT the assignment thunks issue: the path and the one body field. */
  datatype PutRequest = PutRequest(path: string, customAssignedEmployees: string)

  /** The request planned from `state.task.selectedTask`: with no selected
      task the thunk throws 'Task not found' and issues nothing. The new
      string is computed from the selected task alone; `taskId` only
      chooses the path. */
  function AssignmentRequest(selected: Option<Task>, taskId: string, employee: string, action: AssignAction)
    : (r: Result<PutRequest, JsError>)
    ensures r.Failure? <==> selected.None?
    ensures r.Failure? ==> r.error == NewError("Task not found")
    ensures r.Success? ==> r.value.path == "/resource/Task/" + taskId
  {
    match selected
    case None => Failure(NewError("Task not found"))
    case Some(t) =>
      var current := AssignedEmployees(t);
      Success(PutRequest("/resource/Task/" + taskId, SetAssignedEmployees(current, employee, action)))
  }

  /** The string written decodes to the selected task's ids after the add
      or remove (for a clean id when adding). */
  lemma AssignmentWritesUpdatedList(t: Task, taskId: string, employee: string, action: AssignAction)
    requires action == Add ==> IsCleanId(employee)
    ensures DecodeIds(AssignmentRequest(Some(t), taskId, employee, action).value.customAssignedEmployees)
         == UpdateIds(AssignedEmployees(t), employee, action)
  {
    SetThenDecode(AssignedEmployees(t), employee, action);
  }

  function AssignFallback(action: AssignAction): string {
    match action
    case Add => "Failed to assign employee"
    case Remove => "Failed to remove employee"
  }

  /** The settled thunk: the task the server returned, or the value passed
      to `rejectWithValue`. `put` is the outcome of the PUT and is only
      consulted when a request was planned. */
  function AssignmentThunk(selected: Option<Task>, taskId: string, employee: string,
                           action: AssignAction, put: Result<Task, JsError>): (r: Result<Task, Value>)
    ensures r.Failure? ==> Truthy(r.error)
    ensures selected.None? ==> r == Failure(Str("Task not found"))
    ensures selected.Some? ==> (r.Success? <==> put.Success?)
  {
    match AssignmentRequest(selected, taskId, employee, action)
    case Failure(e) =>
      ThunkRejectOfNewError("Task not found", AssignFallback(action));
      Failure(ThunkRejectValue(e, AssignFallback(action)))
    case Success(_) =>
      match put
      case Success(t) => Success(t)
      case Failure(e) => Failure(ThunkRejectValue(e, AssignFallback(action)))
  }

  /** With no selected task the outcome of any PUT is irrelevant: none is
      issued. */
  lemma NoSelectedTaskNoRequest(taskId: string, employee: string, action: AssignAction,
                                put1: Result<Task, JsError>, put2: Result<Task, JsError>)
    ensures AssignmentThunk(None, taskId, employee, action, put1)
         == AssignmentThunk(None, taskId, employee, action, put2)
  {
  }

  /** Two calls that differ only in `taskId` write the same string. */
  lemma BodyIgnoresTaskId(selected: Option<Task>, id1: string, id2: string, employee: string, action: AssignAction)
    requires selected.Some?
    ensures AssignmentRequest(selected, id1, employee, action).value.customAssignedEmployees
         == AssignmentRequest(selected, id2, employee, action).value.customAssignedEmployees
  {
  }

  /** The other thunks: each issues one request and, on failure, rejects
      with the server's message, the error's message or its own fallback. */
  datatype TaskRequest = FetchTasks | FetchTaskById | CreateTask | UpdateTask | DeleteTask

  function RequestFallback(req: TaskRequest): string {
    match req
    case FetchTasks => "Failed to fetch tasks"
    case FetchTaskById => "Failed to fetch task"
    case CreateTask => "Failed to create task"
    case UpdateTask => "Failed to update task"
    case DeleteTask => "Failed to delete task"
  }

  // ---- reducers ----

  datatype TaskAction =
    | ClearSelectedTask
    | ClearError
    | AddTempTask(task: Task)
    | UpdateTaskInList(task: Task)
    | RemoveTaskFromList(name: string)
      /** The pending and rejected cases, the same for every thunk. */
    | Pending
    | Rejected(rejection: Rejection)
      /** The fulfilled cases, one per thunk. */
    | TasksFetched(tasks: seq<Task>)
    | TaskFetched(task: Task)
    | TaskCreated(task: Task)
    | TaskUpdated(task: Task)
    | TaskDeleted(name: string)
    | EmployeeAssigned(task: Task)
    | EmployeeRemoved(task: Task)

  /** The update, assign and remove merges: the first list entry with the
      payload's name and a selected task with that name take the payload. */
  function MergeUpdated(s: TaskState, t: Task): TaskState {
    s.(tasks := KeyedList.ReplaceFirst(s.tasks, t, Name),
       selected := KeyedList.ReplaceSelected(s.selected, t, Name))
  }

  function Reduce(s: TaskState, a: TaskAction, parse: JsonParser): TaskState {
    match a
    case ClearSelectedTask => s.(selected := None)
    case ClearError => s.(status := s.status.(error := Undefined))
    case AddTempTask(t) => s.(tasks := [t] + s.tasks)
    case UpdateTaskInList(t) => s.(tasks := KeyedList.ReplaceFirst(s.tasks, t, Name))
    case RemoveTaskFromList(n) => s.(tasks := KeyedList.RemoveKey(s.tasks, Name, n))
    case Pending => s.(status := AddAsyncPending())
    case Rejected(r) => s.(status := AddAsyncRejected(r, parse))
    case TasksFetched(ts) => s.(status := AddAsyncFulfilled(), tasks := ts)
    case TaskFetched(t) => s.(status := AddAsyncFulfilled(), selected := Some(t))
    case TaskCreated(t) => s.(status := AddAsyncFulfilled(), tasks := [t] + s.tasks)
    case TaskUpdated(t) => MergeUpdated(s, t).(status := AddAsyncFulfilled())
    case TaskDeleted(n) =>
      s.(status := AddAsyncFulfilled(),
         tasks := KeyedList.RemoveKey(s.tasks, Name, n),
         selected := KeyedList.ClearSelected(s.selected, Name, n))
    case EmployeeAssigned(t) => MergeUpdated(s, t).(status := AddAsyncFulfilled())
    case EmployeeRemoved(t) => MergeUpdated(s, t).(status := AddAsyncFulfilled())
  }

  /** A failed request leaves the store not loading, with a truthy error
      (the rejected value itself when that is a string), and with its tasks
      and selection untouched. */
  lemma FailedRequestRecordsError(s: TaskState, req: TaskRequest, e: JsError, parse: JsonParser)
    ensures var v := ThunkRejectValue(e, RequestFallback(req));
      var s' := Reduce(s, Rejected(RejectedWithValue(v)), parse);
      && !s'.status.loading && Truthy(s'.status.error)
      && (v.Str? ==> s'.status.error == v)
      && s'.tasks == s.tasks && s'.selected == s.selected
  {
  }

  predicate IsFulfilled(a: TaskAction) {
    a.TasksFetched? || a.TaskFetched? || a.TaskCreated? || a.TaskUpdated?
    || a.TaskDeleted? || a.EmployeeAssigned? || a.EmployeeRemoved?
  }

  /** Pending and rejected touch only `loading` and `error`; every fulfilled
      case ends with `loading` false and `error` null. */
  lemma PhaseStatus(s: TaskState, a: TaskAction, parse: JsonParser)
    ensures a.Pending? ==> Reduce(s, a, parse) == s.(status := Status(true, Null))
    ensures a.Rejected? ==>
      var s' := Reduce(s, a, parse);
      && s'.tasks == s.tasks && s'.selected == s.selected && !s'.status.loading
      && s'.status.error == ErrorMessage(a.rejection.payload, a.rejection.errorMessage, parse)
    ensures IsFulfilled(a) ==> Reduce(s, a, parse).status == Status(false, Null)
  {
  }

  /** The plain reducers: each changes one field, the list ones as the
      keyed-list merges describe. */
  lemma PlainReducers(s: TaskState, t: Task, n: string, parse: JsonParser)
    ensures Reduce(s, ClearSelectedTask, parse) == s.(selected := None)
    ensures Reduce(s, ClearError, parse) == s.(status := Status(s.status.loading, Undefined))
    ensures var s' := Reduce(s, AddTempTask(t), parse);
      s'.tasks == [t] + s.tasks && s'.selected == s.selected && s'.status == s.status
    ensures var s' := Reduce(s, UpdateTaskInList(t), parse);
      s'.selected == s.selected && s'.status == s.status && |s'.tasks| == |s.tasks|
      && (!KeyedList.HasKey(s.tasks, Name, t.name) ==> s'.tasks == s.tasks)
    ensures var s' := Reduce(s, RemoveTaskFromList(n), parse);
      s'.selected == s.selected && s'.status == s.status
      && (forall x :: x in s'.tasks ==> x in s.tasks && x.name != n)
      && (forall x :: x in s.tasks && x.name != n ==> x in s'.tasks)
  {
    KeyedList.ReplaceFirstSpec(s.tasks, t, Name);
    KeyedList.RemoveKeyMembers(s.tasks, Name, n);
  }

  /** The update-style merges: the first entry with the payload's name is
      replaced and nothing else in the list changes; the selected task is
      replaced exactly when its name matches. */
  lemma UpdateMerge(s: TaskState, t: Task, parse: JsonParser)
    ensures var a := [TaskUpdated(t), EmployeeAssigned(t), EmployeeRemoved(t)];
      forall k :: 0 <= k < |a| ==>
        var s' := Reduce(s, a[k], parse);
        && |s'.tasks| == |s.tasks|
        && (!KeyedList.HasKey(s.tasks, Name, t.name) ==> s'.tasks == s.tasks)
        && (KeyedList.HasKey(s.tasks, Name, t.name) ==>
              var i := KeyedList.FindIndex(s.tasks, Name, t.name);
              s'.tasks[i] == t && forall j :: 0 <= j < |s.tasks| && j != i ==> s'.tasks[j] == s.tasks[j])
        && (s.selected.Some? && s.selected.value.name == t.name ==> s'.selected == Some(t))
        && (s.selected.None? || s.selected.value.name != t.name ==> s'.selected == s.selected)
  {
    KeyedList.ReplaceFirstSpec(s.tasks, t, Name);
  }

  /** Fetching replaces the list wholesale, fetching one task sets only the
      selected task, and creating prepends exactly one entry. */
  lemma FetchAndCreateMerges(s: TaskState, ts: seq<Task>, t: Task, parse: JsonParser)
    ensures var s' := Reduce(s, TasksFetched(ts), parse); s'.tasks == ts && s'.selected == s.selected
    ensures var s' := Reduce(s, TaskFetched(t), parse); s'.tasks == s.tasks && s'.selected == Some(t)
    ensures var s' := Reduce(s, TaskCreated(t), parse);
      |s'.tasks| == |s.tasks| + 1 && s'.tasks[0] == t && s'.tasks[1..] == s.tasks && s'.selected == s.selected
  {
  }

  /** Delete removes every entry with the name and keeps every other entry;
      the selected task is cleared exactly when it had that name. */
  lemma DeleteMerge(s: TaskState, n: string, parse: JsonParser)
    ensures var s' := Reduce(s, TaskDeleted(n), parse);
      && !KeyedList.HasKey(s'.tasks, Name, n)
      && (forall t :: t in s'.tasks ==> t in s.tasks && t.name != n)
      && (forall t :: t in s.tasks && t.name != n ==> t in s'.tasks)
      && (s.selected.Some? && s.selected.value.name == n ==> s'.selected.None?)
      && (s.selected.None? || s.selected.value.name != n ==> s'.selected == s.selected)
  {
    KeyedList.RemoveKeyMembers(s.tasks, Name, n);
  }

  /** Every entry has a distinct name, and the selected task, when the list
      holds an entry of its name, is that entry. */
  ghost predicate Consistent(s: TaskState) {
    KeyedList.Coherent(s.tasks, s.selected, Name)
  }

  /** What the backend must answer for consistency to survive: a fetched
      list with distinct names that agrees with the selected task, a fetched
      task that agrees with its list entry, fresh names for created tasks,
      and list-only updates that agree with the selected task. */
  ghost predicate Admissible(s: TaskState, a: TaskAction) {
    match a
    case TasksFetched(ts) => KeyedList.Coherent(ts, s.selected, Name)
    case TaskFetched(t) => KeyedList.Agrees(s.tasks, t, Name)
    case TaskCreated(t) => !KeyedList.HasKey(s.tasks, Name, t.name) && SelectionAgrees(s, t)
    case AddTempTask(t) => !KeyedList.HasKey(s.tasks, Name, t.name) && SelectionAgrees(s, t)
    case UpdateTaskInList(t) => SelectionAgrees(s, t)
    case _ => true
  }

  ghost predicate SelectionAgrees(s: TaskState, t: Task) {
    s.selected.Some? && s.selected.value.name == t.name ==> s.selected.value == t
  }

  /** Consistency is an invariant of the reducer under admissible answers;
      update, assign, remove and delete keep it unconditionally. */
  lemma ReduceKeepsConsistent(s: TaskState, a: TaskAction, parse: JsonParser)
    requires Consistent(s) && Admissible(s, a)
    ensures Consistent(Reduce(s, a, parse))
  {
    match a
    case AddTempTask(t) => KeyedList.PrependCoherent(s.tasks, s.selected, t, Name);
    case TaskCreated(t) => KeyedList.PrependCoherent(s.tasks, s.selected, t, Name);
    case UpdateTaskInList(t) => KeyedList.ReplaceListCoherent(s.tasks, s.selected, t, Name);
    case TaskUpdated(t) => KeyedList.ReplaceBothCoherent(s.tasks, s.selected, t, Name);
    case EmployeeAssigned(t) => KeyedList.ReplaceBothCoherent(s.tasks, s.selected, t, Name);
    case EmployeeRemoved(t) => KeyedList.ReplaceBothCoherent(s.tasks, s.selected, t, Name);
    case RemoveTaskFromList(n) => KeyedList.RemoveCoherent(s.tasks, s.selected, n, Name);
    case TaskDeleted(n) => KeyedList.RemoveCoherent(s.tasks, s.selected, n, Name);
    case _ =>
  }

  /** The sequence an assignment produces end to end: a selected task
      holding "EMP-A" and an add of "EMP-B" write "EMP-A, EMP-B". */
  lemma AssignScenario(t: Task, taskId: string)
    requires t.customAssignedEmployees == Some("EMP-A")
    ensures AssignmentRequest(Some(t), taskId, "EMP-B", Add)
         == Success(PutRequest("/resource/Task/" + taskId, "EMP-A, EMP-B"))
  {
    SingleIdDecodes(t);
    AddSecondId();
  }

  lemma AddSecondId()
    ensures SetAssignedEmployees(["EMP-A"], "EMP-B", Add) == "EMP-A, EMP-B"
  {
    assert "EMP-B" != "EMP-A" by {
      assert "EMP-B"[4] != "EMP-A"[4];
    }
    var updated := UpdateIds(["EMP-A"], "EMP-B", Add);
    assert updated == ["EMP-A", "EMP-B"];
    assert updated[1..] == ["EMP-B"];
    assert Text.Join(updated, Separator) == "EMP-A" + Separator + "EMP-B";
  }

  lemma SingleIdDecodes(t: Task)
    requires t.customAssignedEmployees == Some("EMP-A")
    ensures AssignedEmployees(t) == ["EMP-A"]
  {
    assert AssignedString(t) == "EMP-A";
    assert IsCleanId("EMP-A") by {
      assert !Text.IsWhitespace('E') && !Text.IsWhitespace('A');
    }
    assert EncodeIds(["EMP-A"]) == "EMP-A";
    DecodeEncode(["EMP-A"]);
  }
}
