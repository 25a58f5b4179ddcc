/** The task detail screen's reading of the assigned employees. It reads
    the task's `assigned` property, not the `custom_assigned_employees`
    field the store writes on assignment, and keeps the employees whose
    `name` occurs among the ids it found. */
module TaskDetailView {
  import opened Wrappers
  import opened JsValue
  import opened Sequences
  import opened AssignedCodec
  import opened TaskSlice
  import opened EmployeeSlice
  import Text

  /** `getAssignedEmployees(taskDetail)`: nothing for a missing task or a
      falsy `assigned`; an array as it is; a string split on ',', trimmed,
      without empty pieces; nothing for any other value. */
  function GetAssignedEmployees(task: Option<Task>): (ids: seq<Value>)
    ensures task.None? || !Truthy(task.value.assignedProperty) ==> ids == []
    ensures task.Some? && task.value.assignedProperty.Arr? ==> ids == task.value.assignedProperty.items
    ensures task.Some? && !task.value.assignedProperty.Arr? && !task.value.assignedProperty.Str? ==> ids == []
  {
    if task.None? then []
    else
      var field := task.value.assignedProperty;
      if !Truthy(field) then []
      else if field.Arr? then field.items
      else if field.Str? then AsValues(CleanPieces(Text.Split(field.s, ',')))
      else []
  }

  function AsValues(ids: seq<string>): (vs: seq<Value>)
    ensures |vs| == |ids| && forall i :: 0 <= i < |ids| ==> vs[i] == Str(ids[i])
    decreases |ids|
  {
    if |ids| == 0 then [] else [Str(ids[0])] + AsValues(ids[1..])
  }

  /** A string `assigned` reads as the store's decoder reads a stored
      assignment string: the same clean ids, duplicates kept. */
  lemma StringAssignedDecodes(task: Task)
    requires task.assignedProperty.Str?
    ensures GetAssignedEmployees(Some(task)) == AsValues(DecodeIds(task.assignedProperty.s))
    ensures forall i :: 0 <= i < |GetAssignedEmployees(Some(task))| ==>
      GetAssignedEmployees(Some(task))[i].Str? && IsCleanId(GetAssignedEmployees(Some(task))[i].s)
  {
    if task.assignedProperty.s != "" {
      NonEmptyDecodes(task.assignedProperty.s);
    }
  }

  /** The screen's list does not depend on `custom_assigned_employees`: an
      assignment made through the store, which writes only that field,
      changes nothing the screen shows until `assigned` changes too. */
  lemma IgnoresCustomAssignedEmployees(task: Task, written: Option<string>)
    ensures GetAssignedEmployees(Some(task.(customAssignedEmployees := written)))
         == GetAssignedEmployees(Some(task))
  {
  }

  /** A task the store received from the assign thunk's merge can show
      different ids on this screen than the store's own decoding. */
  lemma ScreenAndStoreCanDisagree()
    ensures var t := Task("T", "", None, "Open", "Medium", None, 0, "", "", "",
                          Some("EMP-A"), None, None, None, Undefined);
      && GetAssignedEmployees(Some(t)) == []
      && AssignedEmployees(t) == ["EMP-A"]
  {
    var t := Task("T", "", None, "Open", "Medium", None, 0, "", "", "",
                  Some("EMP-A"), None, None, None, Undefined);
    SingleIdDecodes(t);
  }

  /** `employees.filter(emp => assignedEmployeeNames.includes(emp.name))` */
  function AssignedEmployeesList(task: Option<Task>, employees: seq<Employee>): seq<Employee> {
    if task.None? then []
    else
      var ids := GetAssignedEmployees(task);
      Filter(employees, (e: Employee) => Str(e.name) in ids)
  }

  /** The list shown is the employees whose name is among the assigned ids,
      in the employees' order and with their multiplicity; an id matching
      no employee shows nothing. */
  lemma AssignedListSpec(task: Option<Task>, employees: seq<Employee>, xs: seq<Employee>, ys: seq<Employee>)
    ensures forall e ::
      multiset(AssignedEmployeesList(task, employees))[e]
        == (if task.Some? && Str(e.name) in GetAssignedEmployees(task) then multiset(employees)[e] else 0)
    ensures AssignedEmployeesList(task, xs + ys) == AssignedEmployeesList(task, xs) + AssignedEmployeesList(task, ys)
  {
    if task.Some? {
      var ids := GetAssignedEmployees(task);
      FilterCounts(employees, (e: Employee) => Str(e.name) in ids);
      FilterAppend(xs, ys, (e: Employee) => Str(e.name) in ids);
    }
  }
}
