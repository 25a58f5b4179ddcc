/** The authentication controller: every action runs through
    `performAction`, which brackets the awaited work between a "loading"
    notification and exactly one outcome notification. The controller's
    effects (notifications and the stored-user writes) are returned as an
    ordered log; the awaited work's outcome is an input. */
module AuthController {
  import opened Wrappers
  import opened JsValue
  import opened UserModel

  datatype AuthAction = Login | ForgotPassword | Guest

  /** What the awaited work resolved to: a `User` instance (always truthy)
      or a plain value. */
  datatype Data = UserData(user: User) | Plain(value: Value)

  predicate DataTruthy(d: Data) {
    d.UserData? || Truthy(d.value)
  }

  /** `ActionState`: `error` and `data` are None when the key is absent. */
  datatype ActionState = ActionState(action: AuthAction, loading: bool, error: Option<Value>, data: Option<Data>)

  /** One effect of the controller, in the order it happens. */
  datatype Effect = Notified(state: ActionState) | SavedUser(user: User) | ClearedUser

  /** An awaited piece of work: the effects it performed, then its outcome
      (a value, or the error it threw). */
  datatype Run = Run(effects: seq<Effect>, outcome: Result<Data, JsError>)

  /** The notifications of a log, in order. */
  function Notifications(log: seq<Effect>): (states: seq<ActionState>)
    ensures |states| <= |log|
    decreases |log|
  {
    if |log| == 0 then []
    else (if log[0].Notified? then [log[0].state] else []) + Notifications(log[1..])
  }

  lemma {:induction false} NotificationsAppend(a: seq<Effect>, b: seq<Effect>)
    ensures Notifications(a + b) == Notifications(a) + Notifications(b)
    decreases |a|
  {
    if |a| == 0 {
      assert a + b == b;
    } else {
      var c := a + b;
      assert c[0] == a[0] && c[1..] == a[1..] + b;
      NotificationsAppend(a[1..], b);
      var h: seq<ActionState> := if a[0].Notified? then [a[0].state] else [];
      assert Notifications(c) == h + Notifications(c[1..]);
      assert Notifications(a) == h + Notifications(a[1..]);
      assert h + (Notifications(a[1..]) + Notifications(b)) == (h + Notifications(a[1..])) + Notifications(b);
    }
  }

  /** The loading notification. */
  function Started(action: AuthAction): ActionState {
    ActionState(action, true, None, None)
  }

  /** The outcome notification: `{loading: false, data: result || payload}`
      on success, `{loading: false, error: e.message}` on failure. */
  function Finished(action: AuthAction, outcome: Result<Data, JsError>, payload: Data): (st: ActionState)
    ensures st.action == action && !st.loading
    ensures outcome.Success? ==> st.error.None? && st.data.Some?
    ensures outcome.Success? && DataTruthy(outcome.value) ==> st.data == Some(outcome.value)
    ensures outcome.Success? && !DataTruthy(outcome.value) ==> st.data == Some(payload)
    ensures outcome.Failure? ==> st.data.None? && st.error == Some(outcome.error.message)
  {
    match outcome
    case Success(result) => ActionState(action, false, None, Some(if DataTruthy(result) then result else payload))
    case Failure(e) => ActionState(action, false, Some(e.message), None)
  }

  /** `performAction(action, fn, payload)`: the loading notification, the
      work's own effects, the outcome notification; the work's result is
      returned and its error rethrown. An omitted payload is `undefined`. */
  function PerformAction(action: AuthAction, work: Run, payload: Data): (r: Run)
    ensures r.outcome == work.outcome
    ensures |r.effects| == |work.effects| + 2
    ensures r.effects[0] == Notified(Started(action))
    ensures r.effects[1..|r.effects| - 1] == work.effects
    ensures r.effects[|r.effects| - 1] == Notified(Finished(action, work.outcome, payload))
  {
    Run([Notified(Started(action))] + work.effects + [Notified(Finished(action, work.outcome, payload))],
        work.outcome)
  }

  /** Work that notifies nobody itself: every awaited function here. */
  predicate Quiet(work: Run) {
    Notifications(work.effects) == []
  }

  /** Each call notifies exactly twice: first loading, then done with the
      data or with the error, never both. */
  lemma TwoNotifications(action: AuthAction, work: Run, payload: Data)
    requires Quiet(work)
    ensures var ns := Notifications(PerformAction(action, work, payload).effects);
      && |ns| == 2
      && ns[0] == Started(action)
      && ns[1].action == action && !ns[1].loading
      && !(ns[1].data.Some? && ns[1].error.Some?)
      && (ns[1].error.Some? <==> work.outcome.Failure?)
  {
    var first: seq<Effect> := [Notified(Started(action))];
    var last: seq<Effect> := [Notified(Finished(action, work.outcome, payload))];
    NotificationsAppend(first + work.effects, last);
    NotificationsAppend(first, work.effects);
    assert Notifications(first) == [Started(action)];
    assert Notifications(last) == [Finished(action, work.outcome, payload)];
  }

  /** The `payload` argument when the caller passes none. */
  const NoPayload: Data := Plain(Undefined)

  /** `LocalStorage.getUser()`: the stored string parsed, or null when
      nothing or '' is stored. A failed storage read or parse is thrown. */
  function GetUser(stored: Result<Option<string>, JsError>, parse: JsonParser): (r: Result<Value, JsError>)
    ensures stored.Success? && (stored.value.None? || stored.value.value == "") ==> r == Success(Null)
    ensures stored.Failure? ==> r == Failure(stored.error)
    ensures stored.Success? && stored.value.Some? && stored.value.value != "" ==> r == parse(stored.value.value)
  {
    match stored
    case Failure(e) => Failure(e)
    case Success(json) =>
      if json.None? || json.value == "" then Success(Null) else parse(json.value)
  }

  /** `checkUser()`: the parsed stored user, or null. What is returned is
      the parsed JSON object, not a `User` instance. */
  function CheckUser(stored: Result<Option<string>, JsError>, parse: JsonParser): (r: Run)
    ensures r.outcome.Success? ==> r.outcome.value.Plain? && (Truthy(r.outcome.value.value) || r.outcome.value.value == Null)
    ensures r.outcome.Failure? <==> GetUser(stored, parse).Failure?
  {
    var work := match GetUser(stored, parse)
      case Failure(e) => Run([], Failure(e))
      case Success(saved) => Run([], Success(Plain(if Truthy(saved) then saved else Null)));
    PerformAction(Login, work, NoPayload)
  }

  /** With nothing stored, `checkUser` resolves to null, and its outcome
      notification carries `data: undefined` (null || undefined). */
  lemma CheckUserWithoutStoredUser(parse: JsonParser)
    ensures CheckUser(Success(None), parse).outcome == Success(Plain(Null))
    ensures Notifications(CheckUser(Success(None), parse).effects)
         == [Started(Login), ActionState(Login, false, None, Some(Plain(Undefined)))]
  {
    var r := CheckUser(Success(None), parse);
    TwoNotifications(Login, Run([], Success(Plain(Null))), NoPayload);
  }

  /** `login(username, password)`, given what the login use case returned
      and how the stored-user write went (`LocalStorage.saveUser`). The
      user is saved before the success notification. A rejected write fails
      the whole action even after a successful remote login. */
  function LoginAction(remote: Result<User, JsError>, saved: Result<(), JsError>): (r: Run)
    ensures r.outcome.Success? <==> remote.Success? && saved.Success?
    ensures remote.Success? && saved.Success? ==> r.outcome == Success(UserData(remote.value))
    ensures remote.Failure? ==> r.outcome == Failure(remote.error)
    ensures remote.Success? && saved.Failure? ==> r.outcome == Failure(saved.error)
  {
    var work := match remote
      case Failure(e) => Run([], Failure(e))
      case Success(u) =>
        match saved
        case Success(_) => Run([SavedUser(u)], Success(UserData(u)))
        case Failure(e) => Run([], Failure(e));
    PerformAction(Login, work, NoPayload)
  }

  /** A successful login logs exactly: loading, save, done with the user.
      A failed remote login never writes the stored user, and a failed write
      is reported with its message like any other error. */
  lemma LoginOrder(remote: Result<User, JsError>, saved: Result<(), JsError>)
    ensures remote.Success? && saved.Success? ==>
      LoginAction(remote, saved).effects ==
        [Notified(Started(Login)), SavedUser(remote.value),
         Notified(ActionState(Login, false, None, Some(UserData(remote.value))))]
    ensures remote.Failure? ==>
      LoginAction(remote, saved).effects ==
        [Notified(Started(Login)), Notified(ActionState(Login, false, Some(remote.error.message), None))]
    ensures remote.Success? && saved.Failure? ==>
      LoginAction(remote, saved).effects ==
        [Notified(Started(Login)), Notified(ActionState(Login, false, Some(saved.error.message), None))]
  {
  }

  /** `forgotPassword(email)`: after a delay, `{email}`. */
  function ForgotPasswordAction(email: string): (r: Run)
    ensures r.outcome == Success(Plain(Obj(map["email" := Str(email)])))
    ensures |Notifications(r.effects)| == 2
    ensures Notifications(r.effects)[1].data == Some(Plain(Obj(map["email" := Str(email)])))
  {
    var work := Run([], Success(Plain(Obj(map["email" := Str(email)]))));
    TwoNotifications(ForgotPassword, work, NoPayload);
    PerformAction(ForgotPassword, work, NoPayload)
  }

  const GuestUser: User := User(Str("Guest"), Str("guest"), Str(""))

  /** `skipAsGuest()`: the guest user, under the GUEST action. */
  function SkipAsGuest(): (r: Run)
    ensures r.outcome == Success(UserData(GuestUser))
    ensures Notifications(r.effects) ==
      [Started(Guest), ActionState(Guest, false, None, Some(UserData(GuestUser)))]
  {
    var work := Run([], Success(UserData(GuestUser)));
    TwoNotifications(Guest, work, NoPayload);
    PerformAction(Guest, work, NoPayload)
  }

  /** `logout()`, given how clearing the stored user went: once cleared,
      one LOGIN notification with `data: null`; it does not go through
      `performAction`. A rejected clear is thrown before anyone is
      notified. */
  function Logout(cleared: Result<(), JsError>): (r: Run)
    ensures cleared.Success? ==>
      && |r.effects| == 2 && r.effects[0] == ClearedUser
      && Notifications(r.effects) == [ActionState(Login, false, None, Some(Plain(Null)))]
      && r.outcome == Success(NoPayload)
    ensures cleared.Failure? ==> r.effects == [] && r.outcome == Failure(cleared.error)
  {
    match cleared
    case Failure(e) => Run([], Failure(e))
    case Success(_) =>
      var log := [ClearedUser, Notified(ActionState(Login, false, None, Some(Plain(Null))))];
      assert log[1..][1..] == [];
      Run(log, Success(NoPayload))
  }
}
