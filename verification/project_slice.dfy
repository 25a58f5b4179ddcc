/** The project store. Its thunks go through the slice's own
    `handleAsyncThunk`, whose fulfilled case leaves `error` as it was. */
module ProjectSlice {
  import opened Wrappers
  import opened JsValue
  import opened AsyncCases
  import KeyedList

  /** A project as the store keeps it. `percentComplete` is None when the
      backend omits it; fractional percentages are not modelled. */
  datatype Project = Project(
    name: string,
    projectName: string,
    status: string,
    priority: string,
    projectType: Option<string>,
    customer: Option<string>,
    expectedStartDate: Option<string>,
    expectedEndDate: Option<string>,
    actualStartDate: Option<string>,
    actualEndDate: Option<string>,
    percentComplete: Option<int>,
    creation: string,
    modified: string,
    owner: string)

  function Name(p: Project): string {
    p.name
  }

  datatype ProjectState = ProjectState(projects: seq<Project>, selected: Option<Project>, status: Status)

  function InitialState(): ProjectState {
    ProjectState([], None, Status(false, Undefined))
  }

  datatype ProjectRequest = FetchProjects | FetchProjectById | CreateProject | UpdateProject | DeleteProject

  function RequestFallback(req: ProjectRequest): string {
    match req
    case FetchProjects => "Failed to fetch projects"
    case FetchProjectById => "Failed to fetch project"
    case CreateProject => "Failed to create project"
    case UpdateProject => "Failed to update project"
    case DeleteProject => "Failed to delete project"
  }

  datatype ProjectAction =
    | ClearSelectedProject
    | ClearError
    | AddTempProject(project: Project)
    | UpdateProjectInList(project: Project)
    | RemoveProjectFromList(name: string)
    | Pending
    | Rejected(rejection: Rejection)
    | ProjectsFetched(projects: seq<Project>)
    | ProjectFetched(project: Project)
    | ProjectCreated(project: Project)
    | ProjectUpdated(project: Project)
    | ProjectDeleted(name: string)

  predicate IsFulfilled(a: ProjectAction) {
    a.ProjectsFetched? || a.ProjectFetched? || a.ProjectCreated? || a.ProjectUpdated? || a.ProjectDeleted?
  }

  function Reduce(s: ProjectState, a: ProjectAction): ProjectState {
    match a
    case ClearSelectedProject => s.(selected := None)
    case ClearError => s.(status := s.status.(error := Undefined))
    case AddTempProject(p) => s.(projects := [p] + s.projects)
    case UpdateProjectInList(p) => s.(projects := KeyedList.ReplaceFirst(s.projects, p, Name))
    case RemoveProjectFromList(n) => s.(projects := KeyedList.RemoveKey(s.projects, Name, n))
    case Pending => s.(status := HandlePending())
    case Rejected(r) => s.(status := HandleRejected(r))
    case ProjectsFetched(ps) => s.(status := HandleFulfilled(s.status), projects := ps)
    case ProjectFetched(p) => s.(status := HandleFulfilled(s.status), selected := Some(p))
    case ProjectCreated(p) => s.(status := HandleFulfilled(s.status), projects := [p] + s.projects)
    case ProjectUpdated(p) =>
      s.(status := HandleFulfilled(s.status),
         projects := KeyedList.ReplaceFirst(s.projects, p, Name),
         selected := KeyedList.ReplaceSelected(s.selected, p, Name))
    case ProjectDeleted(n) =>
      s.(status := HandleFulfilled(s.status),
         projects := KeyedList.RemoveKey(s.projects, Name, n),
         selected := KeyedList.ClearSelected(s.selected, Name, n))
  }

  /** A failed request leaves the store not loading, with the rejected value
      itself as its error, and with its projects and selection untouched. */
  lemma FailedRequestRecordsError(s: ProjectState, req: ProjectRequest, e: JsError)
    ensures var v := ThunkRejectValue(e, RequestFallback(req));
      var s' := Reduce(s, Rejected(RejectedWithValue(v)));
      && !s'.status.loading && Truthy(s'.status.error) && s'.status.error == v
      && s'.projects == s.projects && s'.selected == s.selected
  {
  }

  /** Pending sets `loading` and resets `error` to undefined; rejected stores
      `payload || error.message || 'Something went wrong'`; neither touches
      the data. Fulfilled clears `loading` and keeps `error`. */
  lemma PhaseStatus(s: ProjectState, a: ProjectAction)
    ensures a.Pending? ==> Reduce(s, a) == s.(status := Status(true, Undefined))
    ensures a.Rejected? ==>
      var s' := Reduce(s, a);
      && s'.projects == s.projects && s'.selected == s.selected && !s'.status.loading
      && s'.status.error == FirstTruthy([a.rejection.payload, a.rejection.errorMessage], Str(DefaultMessage))
      && Truthy(s'.status.error)
    ensures IsFulfilled(a) ==> Reduce(s, a).status == Status(false, s.status.error)
  {
  }

  /** An error recorded by one thunk survives a later success of another
      thunk that was already pending: pending A, pending B, B rejected, A
      fulfilled leaves `loading` false and B's error in place. */
  lemma StaleErrorSurvivesSuccess(s: ProjectState, r: Rejection, done: ProjectAction)
    requires IsFulfilled(done)
    ensures var s' := Reduce(Reduce(Reduce(Reduce(s, Pending), Pending), Rejected(r)), done);
      !s'.status.loading && s'.status.error == HandleRejected(r).error && Truthy(s'.status.error)
  {
  }

  /** The plain reducers: each changes exactly one field. */
  lemma PlainReducers(s: ProjectState, p: Project, n: string)
    ensures Reduce(s, ClearSelectedProject) == s.(selected := None)
    ensures Reduce(s, ClearError) == s.(status := Status(s.status.loading, Undefined))
    ensures var s' := Reduce(s, AddTempProject(p));
      |s'.projects| == |s.projects| + 1 && s'.projects[0] == p && s'.projects[1..] == s.projects
      && s'.selected == s.selected && s'.status == s.status
    ensures var s' := Reduce(s, UpdateProjectInList(p));
      s'.selected == s.selected && s'.status == s.status && |s'.projects| == |s.projects|
      && (!KeyedList.HasKey(s.projects, Name, p.name) ==> s'.projects == s.projects)
    ensures var s' := Reduce(s, RemoveProjectFromList(n));
      s'.selected == s.selected && s'.status == s.status
      && !KeyedList.HasKey(s'.projects, Name, n)
      && (forall x :: x in s'.projects ==> x in s.projects && x.name != n)
      && (forall x :: x in s.projects && x.name != n ==> x in s'.projects)
  {
    KeyedList.ReplaceFirstSpec(s.projects, p, Name);
    KeyedList.RemoveKeyMembers(s.projects, Name, n);
  }

  /** The fulfilled fetches and create: fetch replaces the list, fetch-by-id
      sets only the selection, create prepends exactly one project. */
  lemma FetchAndCreateMerges(s: ProjectState, ps: seq<Project>, p: Project)
    ensures var s' := Reduce(s, ProjectsFetched(ps)); s'.projects == ps && s'.selected == s.selected
    ensures var s' := Reduce(s, ProjectFetched(p)); s'.projects == s.projects && s'.selected == Some(p)
    ensures var s' := Reduce(s, ProjectCreated(p));
      |s'.projects| == |s.projects| + 1 && s'.projects[0] == p && s'.projects[1..] == s.projects
      && s'.selected == s.selected
  {
  }

  /** A fulfilled update replaces the first project with its name, and the
      selection when it has that name; nothing else moves. */
  lemma UpdateMerge(s: ProjectState, p: Project)
    ensures var s' := Reduce(s, ProjectUpdated(p));
      && |s'.projects| == |s.projects|
      && (!KeyedList.HasKey(s.projects, Name, p.name) ==> s'.projects == s.projects)
      && (KeyedList.HasKey(s.projects, Name, p.name) ==>
            var i := KeyedList.FindIndex(s.projects, Name, p.name);
            s'.projects[i] == p && forall j :: 0 <= j < |s.projects| && j != i ==> s'.projects[j] == s.projects[j])
      && (s.selected.Some? && s.selected.value.name == p.name ==> s'.selected == Some(p))
      && (s.selected.None? || s.selected.value.name != p.name ==> s'.selected == s.selected)
  {
    KeyedList.ReplaceFirstSpec(s.projects, p, Name);
  }

  /** A fulfilled delete removes every project with the name, keeps every
      other one, and clears a selection with that name. */
  lemma DeleteMerge(s: ProjectState, n: string)
    ensures var s' := Reduce(s, ProjectDeleted(n));
      && !KeyedList.HasKey(s'.projects, Name, n)
      && (forall x :: x in s'.projects ==> x in s.projects && x.name != n)
      && (forall x :: x in s.projects && x.name != n ==> x in s'.projects)
      && (s.selected.Some? && s.selected.value.name == n ==> s'.selected.None?)
      && (s.selected.None? || s.selected.value.name != n ==> s'.selected == s.selected)
  {
    KeyedList.RemoveKeyMembers(s.projects, Name, n);
  }

  ghost predicate Consistent(s: ProjectState) {
    KeyedList.Coherent(s.projects, s.selected, Name)
  }

  ghost predicate SelectionAgrees(s: ProjectState, p: Project) {
    s.selected.Some? && s.selected.value.name == p.name ==> s.selected.value == p
  }

  /** The backend answers under which consistency survives. */
  ghost predicate Admissible(s: ProjectState, a: ProjectAction) {
    match a
    case ProjectsFetched(ps) => KeyedList.Coherent(ps, s.selected, Name)
    case ProjectFetched(p) => KeyedList.Agrees(s.projects, p, Name)
    case ProjectCreated(p) => !KeyedList.HasKey(s.projects, Name, p.name) && SelectionAgrees(s, p)
    case AddTempProject(p) => !KeyedList.HasKey(s.projects, Name, p.name) && SelectionAgrees(s, p)
    case UpdateProjectInList(p) => SelectionAgrees(s, p)
    case _ => true
  }

  /** Distinct names and a selection that agrees with the list are kept by
      every case under admissible answers. */
  lemma ReduceKeepsConsistent(s: ProjectState, a: ProjectAction)
    requires Consistent(s) && Admissible(s, a)
    ensures Consistent(Reduce(s, a))
  {
    match a
    case AddTempProject(p) => KeyedList.PrependCoherent(s.projects, s.selected, p, Name);
    case ProjectCreated(p) => KeyedList.PrependCoherent(s.projects, s.selected, p, Name);
    case UpdateProjectInList(p) => KeyedList.ReplaceListCoherent(s.projects, s.selected, p, Name);
    case ProjectUpdated(p) => KeyedList.ReplaceBothCoherent(s.projects, s.selected, p, Name);
    case RemoveProjectFromList(n) => KeyedList.RemoveCoherent(s.projects, s.selected, n, Name);
    case ProjectDeleted(n) => KeyedList.RemoveCoherent(s.projects, s.selected, n, Name);
    case _ =>
  }
}
