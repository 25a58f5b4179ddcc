/** The task list screen's view model: the filter options offered, the
    filtered and sorted list shown, and the filter reset. The timestamp of a
    task's `creation` string (`new Date(creation).getTime()`) is a
    parameter; only valid dates are modelled. */
module TaskListView {
  import opened Wrappers
  import opened Sequences
  import opened Sorting
  import opened TaskSlice

  const All: string := "all"

  // ---- filterOptions ----

  /** `tasks.map(t => t.project).filter(Boolean)` */
  function ProjectValues(tasks: seq<Task>): (r: seq<string>)
    ensures forall i :: 0 <= i < |r| ==> r[i] != ""
    decreases |tasks|
  {
    if |tasks| == 0 then []
    else (if Present(tasks[0].project) then [tasks[0].project.value] else []) + ProjectValues(tasks[1..])
  }

  /** `tasks.map(t => t.status).filter(Boolean)` */
  function StatusValues(tasks: seq<Task>): (r: seq<string>)
    ensures forall i :: 0 <= i < |r| ==> r[i] != ""
    decreases |tasks|
  {
    if |tasks| == 0 then []
    else (if tasks[0].status != "" then [tasks[0].status] else []) + StatusValues(tasks[1..])
  }

  lemma {:induction false} ProjectValuesSpec(tasks: seq<Task>)
    ensures forall p :: p in ProjectValues(tasks) ==>
      exists i :: 0 <= i < |tasks| && tasks[i].project == Some(p) && p != ""
    ensures forall i :: 0 <= i < |tasks| && Present(tasks[i].project) ==>
      tasks[i].project.value in ProjectValues(tasks)
    decreases |tasks|
  {
    if |tasks| > 0 {
      ProjectValuesSpec(tasks[1..]);
      forall i | 1 <= i < |tasks| ensures tasks[i] == tasks[1..][i - 1] {}
    }
  }

  lemma {:induction false} StatusValuesSpec(tasks: seq<Task>)
    ensures forall s :: s in StatusValues(tasks) ==>
      exists i :: 0 <= i < |tasks| && tasks[i].status == s && s != ""
    ensures forall i :: 0 <= i < |tasks| && tasks[i].status != "" ==>
      tasks[i].status in StatusValues(tasks)
    decreases |tasks|
  {
    if |tasks| > 0 {
      StatusValuesSpec(tasks[1..]);
      forall i | 1 <= i < |tasks| ensures tasks[i] == tasks[1..][i - 1] {}
    }
  }

  /** `['all', ...new Set(values)]` */
  function Options(values: seq<string>): seq<string> {
    [All] + Distinct(values)
  }

  function ProjectOptions(tasks: seq<Task>): seq<string> {
    Options(ProjectValues(tasks))
  }

  function StatusOptions(tasks: seq<Task>): seq<string> {
    Options(StatusValues(tasks))
  }

  /** The project options are 'all' and then every non-empty project of
      some task, each once, in the order projects first occur. */
  lemma ProjectOptionsSpec(tasks: seq<Task>)
    ensures ProjectOptions(tasks)[0] == All
    ensures forall p :: p in ProjectOptions(tasks)[1..] ==>
      exists i :: 0 <= i < |tasks| && tasks[i].project == Some(p) && p != ""
    ensures forall i :: 0 <= i < |tasks| && Present(tasks[i].project) ==>
      tasks[i].project.value in ProjectOptions(tasks)[1..]
    ensures NoDuplicates(ProjectOptions(tasks)[1..])
  {
    ProjectValuesSpec(tasks);
    DistinctSpec(ProjectValues(tasks));
    assert ProjectOptions(tasks)[1..] == Distinct(ProjectValues(tasks));
  }

  /** The same for statuses. */
  lemma StatusOptionsSpec(tasks: seq<Task>)
    ensures StatusOptions(tasks)[0] == All
    ensures forall s :: s in StatusOptions(tasks)[1..] ==>
      exists i :: 0 <= i < |tasks| && tasks[i].status == s && s != ""
    ensures forall i :: 0 <= i < |tasks| && tasks[i].status != "" ==>
      tasks[i].status in StatusOptions(tasks)[1..]
    ensures NoDuplicates(StatusOptions(tasks)[1..])
  {
    StatusValuesSpec(tasks);
    DistinctSpec(StatusValues(tasks));
    assert StatusOptions(tasks)[1..] == Distinct(StatusValues(tasks));
  }

  /** 'all' is prepended without de-duplication: a task whose project is
      literally 'all' makes the option appear twice. */
  lemma AllProjectListedTwice(t: Task)
    requires t.project == Some(All)
    ensures ProjectOptions([t]) == [All, All]
  {
    assert ProjectValues([t]) == [All] by {
      assert [t][1..] == [];
    }
    assert Distinct([All]) == Distinct([]) + [All];
  }

  // ---- filteredAndSortedTasks ----

  datatype SortOrder = Asc | Desc

  /** The three controls of the filter bar. */
  datatype Filters = Filters(project: string, status: string, sortOrder: SortOrder)

  const DefaultFilters: Filters := Filters(All, All, Desc)

  /** The filter test applied to one task. */
  predicate Matches(t: Task, f: Filters) {
    (f.project == All || t.project == Some(f.project)) && (f.status == All || t.status == f.status)
  }

  /** The sort key for `(a, b) => dateB - dateA` (descending) or
      `dateA - dateB` (ascending). */
  function SortKey(order: SortOrder, timeOf: string -> int): Task -> int {
    match order
    case Desc => (t: Task) => -timeOf(t.creation)
    case Asc => (t: Task) => timeOf(t.creation)
  }

  function FilteredAndSorted(tasks: seq<Task>, f: Filters, timeOf: string -> int): seq<Task> {
    SortBy(Filter(tasks, (t: Task) => Matches(t, f)), SortKey(f.sortOrder, timeOf))
  }

  /** The list shown holds exactly the matching tasks, each as often as in
      the store, and is never longer than the store's list. */
  lemma ShownAreTheMatches(tasks: seq<Task>, f: Filters, timeOf: string -> int)
    ensures |FilteredAndSorted(tasks, f, timeOf)| <= |tasks|
    ensures forall t :: multiset(FilteredAndSorted(tasks, f, timeOf))[t]
                     == if Matches(t, f) then multiset(tasks)[t] else 0
  {
    var kept := Filter(tasks, (t: Task) => Matches(t, f));
    SortBySpec(kept, SortKey(f.sortOrder, timeOf));
    FilterCounts(tasks, (t: Task) => Matches(t, f));
  }

  /** With both filters at 'all' every task is shown: a permutation. */
  lemma NoFilterShowsAll(tasks: seq<Task>, order: SortOrder, timeOf: string -> int)
    ensures multiset(FilteredAndSorted(tasks, Filters(All, All, order), timeOf)) == multiset(tasks)
  {
    var f := Filters(All, All, order);
    FilterKeepsAll(tasks, (t: Task) => Matches(t, f));
    SortBySpec(tasks, SortKey(order, timeOf));
  }

  /** 'desc' shows the newest first, 'asc' the oldest first; tasks with the
      same timestamp keep their store order. */
  lemma ShownInCreationOrder(tasks: seq<Task>, f: Filters, timeOf: string -> int)
    ensures var r := FilteredAndSorted(tasks, f, timeOf);
      forall i, j :: 0 <= i < j < |r| ==>
        if f.sortOrder == Desc then timeOf(r[i].creation) >= timeOf(r[j].creation)
        else timeOf(r[i].creation) <= timeOf(r[j].creation)
    ensures forall k :: WithKey(FilteredAndSorted(tasks, f, timeOf), SortKey(f.sortOrder, timeOf), k)
                     == WithKey(Filter(tasks, (t: Task) => Matches(t, f)), SortKey(f.sortOrder, timeOf), k)
  {
    var key := SortKey(f.sortOrder, timeOf);
    var kept := Filter(tasks, (t: Task) => Matches(t, f));
    SortBySpec(kept, key);
    forall k ensures WithKey(SortBy(kept, key), key, k) == WithKey(kept, key, k) {
      SortByStable(kept, key, k);
    }
  }

  // ---- hasActiveFilters / clearFilters ----

  predicate HasActiveFilters(f: Filters) {
    f.project != All || f.status != All || f.sortOrder != Desc
  }

  function ClearFilters(f: Filters): (r: Filters)
    ensures !HasActiveFilters(r)
  {
    DefaultFilters
  }

  /** A filter setting is active exactly when it differs from the defaults
      `clearFilters` restores. */
  lemma ActiveIffNotDefault(f: Filters)
    ensures HasActiveFilters(f) <==> f != ClearFilters(f)
  {
  }
}
