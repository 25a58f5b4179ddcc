/** The employee store: one list, replaced wholesale by both the fetch and
    the search thunk, and the search filter sent to the backend. */
module EmployeeSlice {
  import opened Wrappers
  import opened JsValue
  import opened AsyncCases
  import Text

  datatype Employee = Employee(
    name: string,
    employeeName: string,
    designation: string,
    department: string,
    company: string,
    dateOfJoining: string,
    creation: string,
    modified: string,
    userId: Option<string>,
    status: string,
    email: Option<string>,
    cellNumber: Option<string>)

  datatype EmployeeState = EmployeeState(employees: seq<Employee>, status: Status)

  function InitialState(): EmployeeState {
    EmployeeState([], Status(false, Undefined))
  }

  /** The `filters` parameter of the search: a single
      `[field, operator, pattern]` triple matching the text anywhere in
      `employee_name`. */
  function SearchFilter(text: string): (f: seq<seq<string>>)
    ensures |f| == 1 && |f[0]| == 3
    ensures f[0][0] == "employee_name" && f[0][1] == "like"
    ensures var p := f[0][2];
      |p| == |text| + 2 && p[0] == '%' && p[|p| - 1] == '%' && p[1..|p| - 1] == text
  {
    var pattern := "%" + text + "%";
    assert pattern[1..|pattern| - 1] == text;
    [["employee_name", "like", pattern]]
  }

  datatype EmployeeRequest = FetchEmployees | SearchEmployees

  function RequestFallback(req: EmployeeRequest): string {
    match req
    case FetchEmployees => "Failed to fetch employees"
    case SearchEmployees => "Failed to search employees"
  }

  datatype EmployeeAction =
    | ClearError
    | ClearEmployees
    | Pending
    | Rejected(rejection: Rejection)
    | EmployeesFetched(employees: seq<Employee>)
    | EmployeesFound(employees: seq<Employee>)

  function Reduce(s: EmployeeState, a: EmployeeAction, parse: JsonParser): EmployeeState {
    match a
    case ClearError => s.(status := s.status.(error := Undefined))
    case ClearEmployees => s.(employees := [])
    case Pending => s.(status := AddAsyncPending())
    case Rejected(r) => s.(status := AddAsyncRejected(r, parse))
    case EmployeesFetched(es) => EmployeeState(es, AddAsyncFulfilled())
    case EmployeesFound(es) => EmployeeState(es, AddAsyncFulfilled())
  }

  /** A failed fetch or search leaves the store not loading, with a truthy
      error (the rejected value itself when that is a string), and with its
      list untouched. */
  lemma FailedRequestRecordsError(s: EmployeeState, req: EmployeeRequest, e: JsError, parse: JsonParser)
    ensures var v := ThunkRejectValue(e, RequestFallback(req));
      var s' := Reduce(s, Rejected(RejectedWithValue(v)), parse);
      && !s'.status.loading && Truthy(s'.status.error)
      && (v.Str? ==> s'.status.error == v)
      && s'.employees == s.employees
  {
  }

  /** Both fulfilled cases replace the list; clearing the list touches
      neither `loading` nor `error`; clearing the error touches nothing
      else; pending and rejected leave the list alone. */
  lemma ReducerCases(s: EmployeeState, es: seq<Employee>, r: Rejection, parse: JsonParser)
    ensures Reduce(s, EmployeesFetched(es), parse) == EmployeeState(es, Status(false, Null))
    ensures Reduce(s, EmployeesFound(es), parse) == EmployeeState(es, Status(false, Null))
    ensures Reduce(s, ClearEmployees, parse) == EmployeeState([], s.status)
    ensures Reduce(s, ClearError, parse) == EmployeeState(s.employees, Status(s.status.loading, Undefined))
    ensures Reduce(s, Pending, parse) == EmployeeState(s.employees, Status(true, Null))
    ensures var s' := Reduce(s, Rejected(r), parse);
      s'.employees == s.employees && !s'.status.loading && !Nullish(s'.status.error)
  {
  }

  /** A search pattern always contains the searched text. */
  lemma SearchPatternContainsText(text: string)
    ensures Text.Contains(SearchFilter(text)[0][2], text)
  {
    var p := SearchFilter(text)[0][2];
    assert p[1..][..|text|] == text;
  }
}
