/** The session store: the sid taken from the login response's Set-Cookie
    header, the profile, and the login / fetch-profile / logout cases. */
module AuthSlice {
  import opened Wrappers
  import opened JsValue
  import opened AsyncCases
  import opened Text

  /** `setCookie?.[0]?.split(';')[0]?.split('=')[1]`: the text after the
      first '=' of the first cookie's name=value part, up to the next '='. */
  function ExtractSid(setCookie: Option<seq<string>>): (sid: Option<string>)
    ensures sid.Some? ==> '=' !in sid.value && ';' !in sid.value
  {
    if setCookie.None? || |setCookie.value| == 0 then None
    else
      var cookie := Split(setCookie.value[0], ';')[0];
      var fields := Split(cookie, '=');
      if |fields| < 2 then None
      else
        assert ';' !in fields[1] by {
          SplitAddsNothing(cookie, '=', ';');
        }
        Some(fields[1])
  }

  /** Splitting never introduces a character the string lacks. */
  lemma {:induction false} SplitAddsNothing(s: string, c: char, d: char)
    requires d !in s
    ensures forall i :: 0 <= i < |Split(s, c)| ==> d !in Split(s, c)[i]
    decreases |s|
  {
    if |s| > 0 {
      assert forall k :: 0 <= k < |s[1..]| ==> s[1..][k] == s[k + 1];
      SplitAddsNothing(s[1..], c, d);
    }
  }

  /** For a cookie `name=value; attributes` with a plain name and value,
      the extracted sid is the value. */
  lemma SidOfCookie(name: string, value: string, attributes: string, rest: seq<string>)
    requires '=' !in name && ';' !in name && '=' !in value && ';' !in value
    ensures ExtractSid(Some([name + "=" + value + ";" + attributes] + rest)) == Some(value)
  {
    var cookie := name + "=" + value;
    assert name + "=" + value + ";" + attributes == cookie + [';'] + attributes;
    assert ';' !in cookie;
    SplitAfterPiece(cookie, ';', attributes);
    SplitAfterPiece(name, '=', value);
    SplitWithoutSeparator(value, '=');
  }

  /** A cookie value that itself contains '=' is cut at it. */
  lemma SidTruncatedAtEquals(name: string, a: string, b: string)
    requires '=' !in name && ';' !in name && '=' !in a && ';' !in a && ';' !in b
    ensures ExtractSid(Some([name + "=" + a + "=" + b])) == Some(a)
  {
    var cookie := name + "=" + a + "=" + b;
    assert ';' !in cookie;
    SplitWithoutSeparator(cookie, ';');
    assert cookie == name + ['='] + (a + "=" + b);
    SplitAfterPiece(name, '=', a + "=" + b);
    assert a + "=" + b == a + ['='] + b;
    SplitAfterPiece(a, '=', b);
  }

  /** `if (!sid) throw new Error('SID not returned')` */
  function LoginSid(setCookie: Option<seq<string>>): (r: Result<string, JsError>)
    ensures r.Success? <==> ExtractSid(setCookie).Some? && ExtractSid(setCookie).value != ""
    ensures r.Success? ==> r.value == ExtractSid(setCookie).value
    ensures r.Failure? ==> r.error == NewError("SID not returned")
  {
    var sid := ExtractSid(setCookie);
    if sid.None? || sid.value == "" then Failure(NewError("SID not returned")) else Success(sid.value)
  }

  datatype LoginResult = LoginResult(sid: string, user: Value)

  /** `loginUser` settled, given the outcome of the login POST (its
      Set-Cookie header) and of the profile GET, which is only issued once
      a sid was found. Every failure is rejected with the server's message,
      the error's message or 'Login failed'. */
  function LoginThunk(post: Result<Option<seq<string>>, JsError>, profile: Result<Value, JsError>)
    : (r: Result<LoginResult, Value>)
    ensures r.Failure? ==> Truthy(r.error)
    ensures post.Failure? ==> r == Failure(ThunkRejectValue(post.error, "Login failed"))
    ensures post.Success? && LoginSid(post.value).Failure? ==> r == Failure(Str("SID not returned"))
    ensures post.Success? && LoginSid(post.value).Success? && profile.Success? ==>
      r == Success(LoginResult(LoginSid(post.value).value, profile.value))
    ensures post.Success? && LoginSid(post.value).Success? && profile.Failure? ==>
      r == Failure(ThunkRejectValue(profile.error, "Login failed"))
    ensures r.Success? ==>
      (post.Success? && profile.Success?
       && Success(r.value.sid) == LoginSid(post.value) && r.value.user == profile.value)
  {
    match post
    case Failure(e) => Failure(ThunkRejectValue(e, "Login failed"))
    case Success(setCookie) =>
      match LoginSid(setCookie)
      case Failure(e) =>
        ThunkRejectOfNewError("SID not returned", "Login failed");
        Failure(ThunkRejectValue(e, "Login failed"))
      case Success(sid) =>
        match profile
        case Failure(e) => Failure(ThunkRejectValue(e, "Login failed"))
        case Success(user) => Success(LoginResult(sid, user))
  }

  /** `fetchProfile` settled, given the stored sid and the profile GET. */
  function FetchProfileThunk(storedSid: Option<string>, profile: Result<Value, JsError>): (r: Result<Value, Value>)
    ensures r.Failure? ==> Truthy(r.error)
    ensures storedSid.None? || storedSid.value == "" ==> r == Failure(Str("No SID found"))
    ensures storedSid.Some? && storedSid.value != "" && profile.Success? ==> r == Success(profile.value)
    ensures storedSid.Some? && storedSid.value != "" && profile.Failure? ==>
      r == Failure(ThunkRejectValue(profile.error, "Failed to fetch profile"))
    ensures r.Success? ==> profile.Success? && r.value == profile.value
  {
    if storedSid.None? || storedSid.value == "" then
      ThunkRejectOfNewError("No SID found", "Failed to fetch profile");
      Failure(ThunkRejectValue(NewError("No SID found"), "Failed to fetch profile"))
    else
      match profile
      case Failure(e) => Failure(ThunkRejectValue(e, "Failed to fetch profile"))
      case Success(user) => Success(user)
  }

  datatype AuthState = AuthState(user: Value, sid: Option<string>, loading: bool, error: Value)

  function InitialState(): AuthState {
    AuthState(Null, None, false, Null)
  }

  datatype AuthAction =
    | ResetAuth
    | LoginPending
    | LoginFulfilled(result: LoginResult)
    | LoginRejected(payload: Value)
    | ProfilePending
    | ProfileFulfilled(user: Value)
    | ProfileRejected(payload: Value)
    | LogoutPending
    | LogoutFulfilled
    | LogoutRejected(payload: Value)

  function Reduce(s: AuthState, a: AuthAction): AuthState {
    match a
    case ResetAuth => InitialState()
    case LoginPending => s.(loading := true, error := Null)
    case LoginFulfilled(res) => s.(loading := false, sid := Some(res.sid), user := res.user)
    case LoginRejected(p) => s.(loading := false, error := p)
    case ProfilePending => s.(loading := true, error := Null)
    case ProfileFulfilled(u) => s.(loading := false, user := u)
    case ProfileRejected(p) => s.(loading := false, error := p)
    case LogoutPending => s
    case LogoutFulfilled => InitialState()
    case LogoutRejected(_) => s
  }

  /** The reducer cases: pending resets the error, fulfilled login sets sid
      and user, fulfilled fetch replaces only the user, rejection stores the
      payload and keeps sid and user, and logout/reset return the initial
      state while a pending or failed logout changes nothing. */
  lemma ReducerCases(s: AuthState, res: LoginResult, u: Value, p: Value)
    ensures Reduce(s, LoginPending) == Reduce(s, ProfilePending) == s.(loading := true, error := Null)
    ensures Reduce(s, LoginFulfilled(res)) == AuthState(res.user, Some(res.sid), false, s.error)
    ensures Reduce(s, ProfileFulfilled(u)) == AuthState(u, s.sid, false, s.error)
    ensures Reduce(s, LoginRejected(p)) == Reduce(s, ProfileRejected(p)) == AuthState(s.user, s.sid, false, p)
    ensures Reduce(s, LogoutFulfilled) == Reduce(s, ResetAuth) == AuthState(Null, None, false, Null)
    ensures Reduce(s, LogoutPending) == s && Reduce(s, LogoutRejected(p)) == s
  {
  }

  /** A successful login stores the non-empty sid the header carried. */
  lemma LoginStoresSid(s: AuthState, post: Result<Option<seq<string>>, JsError>, profile: Result<Value, JsError>)
    requires LoginThunk(post, profile).Success?
    ensures var s' := Reduce(s, LoginFulfilled(LoginThunk(post, profile).value));
      s'.sid.Some? && s'.sid.value != "" && Some(s'.sid.value) == ExtractSid(post.value)
  {
  }

  /** The settled action of a `fetchProfile` that ended with `r`. */
  function ProfileSettled(r: Result<Value, Value>): AuthAction {
    match r
    case Success(u) => ProfileFulfilled(u)
    case Failure(p) => ProfileRejected(p)
  }

  /** The actions one `loginUser` dispatch puts through the store, in
      order. A login that got its profile dispatches `fetchProfile` before
      returning, so that thunk's pending action comes before the login's
      fulfilled one and its own outcome comes last. The background fetch
      reads the sid the login has just stored and GETs a fixed user's
      profile; `background` is the outcome of that GET. */
  function LoginActions(post: Result<Option<seq<string>>, JsError>, profile: Result<Value, JsError>,
                        background: Result<Value, JsError>): (acts: seq<AuthAction>)
    ensures |acts| >= 2 && acts[0] == LoginPending
    ensures LoginThunk(post, profile).Failure? ==>
      acts == [LoginPending, LoginRejected(LoginThunk(post, profile).error)]
    ensures LoginThunk(post, profile).Success? ==>
      |acts| == 4 && acts[1] == ProfilePending && acts[2] == LoginFulfilled(LoginThunk(post, profile).value)
      && acts[3] == ProfileSettled(FetchProfileThunk(Some(LoginThunk(post, profile).value.sid), background))
  {
    match LoginThunk(post, profile)
    case Failure(p) => [LoginPending, LoginRejected(p)]
    case Success(res) =>
      [LoginPending, ProfilePending, LoginFulfilled(res), ProfileSettled(FetchProfileThunk(Some(res.sid), background))]
  }

  /** The store after a sequence of actions, the first applied first. */
  function ReduceAll(s: AuthState, acts: seq<AuthAction>): AuthState
    decreases |acts|
  {
    if |acts| == 0 then s else ReduceAll(Reduce(s, acts[0]), acts[1..])
  }

  lemma ReduceTwo(s: AuthState, a: AuthAction, b: AuthAction)
    ensures ReduceAll(s, [a, b]) == Reduce(Reduce(s, a), b)
  {
    assert [a, b][1..] == [b] && [b][1..] == [];
    assert ReduceAll(s, [a, b]) == ReduceAll(Reduce(s, a), [b]);
    assert ReduceAll(Reduce(s, a), [b]) == ReduceAll(Reduce(Reduce(s, a), b), []);
  }

  lemma ReduceFour(s: AuthState, a: AuthAction, b: AuthAction, c: AuthAction, d: AuthAction)
    ensures ReduceAll(s, [a, b, c, d]) == Reduce(Reduce(Reduce(Reduce(s, a), b), c), d)
  {
    assert [a, b, c, d][1..] == [b, c, d];
    assert [b, c, d][1..] == [c, d];
    assert ReduceAll(s, [a, b, c, d]) == ReduceAll(Reduce(s, a), [b, c, d]);
    assert ReduceAll(Reduce(s, a), [b, c, d]) == ReduceAll(Reduce(Reduce(s, a), b), [c, d]);
    ReduceTwo(Reduce(Reduce(s, a), b), c, d);
  }

  /** The store once a login has settled, the background fetch included.
      A failed login only records its error. A successful one stores the
      sid and ends not loading; its user is then the background fetch's
      profile when that fetch succeeds, not the profile the login read, and
      when the fetch fails the login's profile stays and the fetch's error
      is recorded even though the login succeeded. */
  lemma LoginOutcome(s: AuthState, post: Result<Option<seq<string>>, JsError>, profile: Result<Value, JsError>,
                     background: Result<Value, JsError>)
    ensures var s' := ReduceAll(s, LoginActions(post, profile, background));
      var login := LoginThunk(post, profile);
      && !s'.loading
      && (login.Failure? ==> s' == s.(loading := false, error := login.error))
      && (login.Success? ==> s'.sid == Some(login.value.sid) && login.value.sid != "")
      && (login.Success? && background.Success? ==> s'.user == background.value && s'.error == Null)
      && (login.Success? && background.Failure? ==>
            s'.user == login.value.user
            && s'.error == ThunkRejectValue(background.error, "Failed to fetch profile")
            && Truthy(s'.error))
  {
    var acts := LoginActions(post, profile, background);
    var login := LoginThunk(post, profile);
    if login.Failure? {
      ReduceTwo(s, acts[0], acts[1]);
    } else {
      ReduceFour(s, acts[0], acts[1], acts[2], acts[3]);
    }
  }
}
