/** The dashboard store: task and project counts computed from two list
    responses, and the three phases of the stats thunk. */
module DashboardSlice {
  import opened Wrappers
  import opened JsValue
  import opened Sequences

  datatype DashboardStats = DashboardStats(
    totalProjects: nat,
    totalTasks: nat,
    completedTasks: nat,
    pendingTasks: nat,
    inProgressTasks: nat)

  datatype DashboardState = DashboardState(stats: DashboardStats, loading: bool, error: Value)

  function InitialState(): DashboardState {
    DashboardState(DashboardStats(0, 0, 0, 0, 0), false, Undefined)
  }

  /** `task.status === status`: strict, case-sensitive equality. A task
      entry that is null or undefined makes the filter throw. */
  predicate HasStatus(task: Value, status: string) {
    Get(task, "status") == Str(status)
  }

  /** `tasks.filter(t => t.status === status).length` */
  function CountStatus(tasks: seq<Value>, status: string): (n: nat)
    ensures n <= |tasks|
    ensures n == |Filter(tasks, (t: Value) => HasStatus(t, status))|
    decreases |tasks|
  {
    if |tasks| == 0 then 0
    else (if HasStatus(tasks[0], status) then 1 else 0) + CountStatus(tasks[1..], status)
  }

  /** The stats the thunk returns for the two lists of entries, or None
      when an entry is null or undefined and reading its `status` throws. */
  function ComputeStats(projects: seq<Value>, tasks: seq<Value>): (r: Option<DashboardStats>)
    ensures r.None? <==> exists i :: 0 <= i < |tasks| && Nullish(tasks[i])
    ensures r.Some? ==> r.value.totalProjects == |projects| && r.value.totalTasks == |tasks|
  {
    if exists i :: 0 <= i < |tasks| && Nullish(tasks[i]) then None
    else Some(DashboardStats(|projects|, |tasks|,
                             CountStatus(tasks, "Completed"),
                             CountStatus(tasks, "Open"),
                             CountStatus(tasks, "Working")))
  }

  /** The stats count the tasks whose status is exactly 'Completed',
      'Open' and 'Working', as completed, pending and in progress. */
  lemma StatsCountStatuses(projects: seq<Value>, tasks: seq<Value>)
    requires ComputeStats(projects, tasks).Some?
    ensures var st := ComputeStats(projects, tasks).value;
      && st.completedTasks == |Filter(tasks, (t: Value) => HasStatus(t, "Completed"))|
      && st.pendingTasks == |Filter(tasks, (t: Value) => HasStatus(t, "Open"))|
      && st.inProgressTasks == |Filter(tasks, (t: Value) => HasStatus(t, "Working"))|
  {
  }

  /** The three counts are of disjoint statuses, so together they never
      exceed the number of tasks. */
  lemma {:induction false} CountsWithinTotal(tasks: seq<Value>)
    ensures CountStatus(tasks, "Completed") + CountStatus(tasks, "Open") + CountStatus(tasks, "Working") <= |tasks|
    decreases |tasks|
  {
    if |tasks| > 0 {
      CountsWithinTotal(tasks[1..]);
      assert "Completed" != "Open" && "Open" != "Working" && "Completed" != "Working" by {
        assert "Completed"[0] != "Open"[0] && "Open"[0] != "Working"[0] && "Completed"[0] != "Working"[0];
      }
    }
  }

  /** Counting distributes over concatenation. */
  lemma {:induction false} CountAppend(xs: seq<Value>, ys: seq<Value>, status: string)
    ensures CountStatus(xs + ys, status) == CountStatus(xs, status) + CountStatus(ys, status)
    decreases |xs|
  {
    if |xs| == 0 {
      assert xs + ys == ys;
    } else {
      assert (xs + ys)[0] == xs[0] && (xs + ys)[1..] == xs[1..] + ys;
      CountAppend(xs[1..], ys, status);
    }
  }

  /** A returned stats record satisfies completed + pending + in progress
      <= total. */
  lemma StatsBounded(projects: seq<Value>, tasks: seq<Value>)
    requires ComputeStats(projects, tasks).Some?
    ensures var st := ComputeStats(projects, tasks).value;
      st.completedTasks + st.pendingTasks + st.inProgressTasks <= st.totalTasks
  {
    CountsWithinTotal(tasks);
  }

  /** Only the exact spelling counts: a task whose status differs from the
      keyword in letter case is not counted. */
  lemma CountIsCaseSensitive(task: Value, status: string)
    requires Get(task, "status").Str? && Get(task, "status").s != status
    ensures CountStatus([task], status) == 0
  {
    assert [task][1..] == [];
  }

  datatype DashboardAction =
    | ClearDashboardError
    | Pending
    | Fulfilled(stats: DashboardStats)
      /** `errorMessage` is `action.error.message` of the rejected action. */
    | Rejected(errorMessage: Value)

  function Reduce(s: DashboardState, a: DashboardAction): DashboardState {
    match a
    case ClearDashboardError => s.(error := Undefined)
    case Pending => s.(loading := true, error := Undefined)
    case Fulfilled(st) => s.(loading := false, stats := st)
    case Rejected(m) => s.(loading := false, error := m)
  }

  /** Pending keeps the stats; fulfilled replaces them and leaves `error`;
      rejected keeps the previous stats and records the error message. */
  lemma ReducerCases(s: DashboardState, st: DashboardStats, m: Value)
    ensures Reduce(s, Pending) == DashboardState(s.stats, true, Undefined)
    ensures Reduce(s, Fulfilled(st)) == DashboardState(st, false, s.error)
    ensures Reduce(s, Rejected(m)) == DashboardState(s.stats, false, m)
    ensures Reduce(s, ClearDashboardError) == DashboardState(s.stats, s.loading, Undefined)
  {
  }

  /** Completed, pending and in progress together within the total. */
  predicate Bounded(s: DashboardState) {
    s.stats.completedTasks + s.stats.pendingTasks + s.stats.inProgressTasks <= s.stats.totalTasks
  }

  /** Bounded stats stay bounded through every case, when a fulfilled
      action carries stats the thunk computed. */
  lemma ReduceKeepsBounded(s: DashboardState, a: DashboardAction, projects: seq<Value>, tasks: seq<Value>)
    requires Bounded(s)
    requires a.Fulfilled? ==> ComputeStats(projects, tasks) == Some(a.stats)
    ensures Bounded(Reduce(s, a))
  {
    if a.Fulfilled? {
      StatsBounded(projects, tasks);
    }
  }

  /** The all-zero initial stats are within the total. */
  lemma InitialBounded()
    ensures Bounded(InitialState())
  {
  }
}
