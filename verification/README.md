# Task and project manager front end: a Dafny model of its rules

The application is a React Native client for a Frappe back end. It lists,
creates, edits and assigns tasks and projects, shows dashboard counts, and
logs users in. This project models the deterministic rules behind those
screens, as immutable datatypes and pure functions:

- **Stores.** The task, project, employee, dashboard and auth stores are
  modelled as their state records. Each reducer case is a function from a
  state and an action to the next state. The outcome of every network
  request is an input.
- **Assignment codec.** Task assignments live in one comma-joined string
  field. The model covers how it is decoded, how one id is added or removed,
  and how the list is written back with `", "`.
- **Error normalisation.** `getErrorMessage`, `extractFrappeError`, the
  interceptor's enhanced message, `ApiHelper.extractErrorMessage` and the
  stores' reject values are ordered fallback chains over JavaScript values.
- **Screen logic.** This covers:
  - the task list's filter options, filtering, sorting and filter reset;
  - the detail screen's reading of assigned ids;
  - the create-task form;
  - the project form's validation, progress clamp, date display and save choice;
  - the project list's progress colour, icon, content state and tap handling;
  - the shared status colour.
- **Small state holders.** These are:
  - the `User` JSON mapping;
  - the theme preference;
  - the localisation lookup;
  - the controllers' listener list;
  - the auth controller's two-notification protocol.

JavaScript values are the datatype `JsValue.Value`: undefined, null,
booleans, integer numbers, strings, arrays and objects. Truthiness, `?.`,
`||`, `??` and `String()` are written out over it.

Three built-ins are parameters, not implementations:

- `JSON.parse`: a partial function returning a value or a thrown error.
- `new Date(s)` as a time value: a function, or a partial function where an
  invalid date matters.
- `parseInt`: a partial function where None is NaN.

Controllers return their notifications and storage writes as an ordered log
of effects, instead of calling listeners.

## Model

| member | source | states |
|---|---|---|
| AsyncCases.ServerMessage | src/utils/asyncReducers.ts:54-64 | Whatever the server-message step yields is truthy: the entry's message, else the exception, else 'Operation failed' |
| AsyncCases.ErrorMessage | src/utils/asyncReducers.ts:42-78 | A string payload is the message verbatim; for any other payload the chain always ends in a truthy value, so it never yields an empty message and never throws |
| AsyncCases.PayloadMessageWins | src/utils/asyncReducers.ts:48-51 | A truthy `message` of a non-string payload is the result, before server messages, exception or the error's message |
| AsyncCases.ExceptionBeforeErrorMessage | src/utils/asyncReducers.ts:66-69 | With no payload message and no usable server message, a truthy `payload.exception` is the result and `error.message` is not consulted |
| AsyncCases.UnusableServerMessagesFallThrough | src/utils/asyncReducers.ts:54-69 | When `_server_messages` fails to parse, is not an array or is empty, the result is what the chain gives with that field removed |
| AsyncCases.ServerMessageWins | src/utils/asyncReducers.ts:49-60 | When the payload has no message of its own, a truthy `message` in the first parsed server message is the result |
| AsyncCases.ServerMessageWithoutTextSkipsErrorMessage | src/utils/asyncReducers.ts:58-62 | A first server message without text gives `payload.exception`, else 'Operation failed'; `error.message` is never consulted on that path |
| AsyncCases.ErrorMessageLastResorts | src/utils/asyncReducers.ts:66-77 | With no usable payload message, server message or exception, the result is `error.message` when truthy, else 'Something went wrong' |
| AsyncCases.AddAsyncRejected | src/utils/asyncReducers.ts:31-36 | Rejection clears `loading` and always records a non-nullish error |
| AsyncCases.AddAsyncPending | src/utils/asyncReducers.ts:22-25 | Pending under the shared helper sets `loading` and a null error; TaskSlice.PhaseStatus and EmployeeSlice.ReducerCases state its effect on each store |
| AsyncCases.AddAsyncFulfilled | src/utils/asyncReducers.ts:26-30 | Fulfilled under the shared helper clears `loading` and the error; TaskSlice.PhaseStatus states it for every fulfilled case |
| AsyncCases.ThunkRejectValue | src/features/task/slice/taskSlice.ts:124 | The value the thunks reject with is truthy whenever their fallback text is non-empty |
| AsyncCases.ThunkRejectOfNewError | src/features/task/slice/taskSlice.ts:188-192 | An error thrown as `new Error(m)` with non-empty `m` is rejected with exactly `m` |
| AsyncCases.ThunkFailureMessageRecorded | src/utils/asyncReducers.ts:44-46 | The string a failed thunk rejects with is the error a shared-helper store records, unchanged |
| AsyncCases.HandleFulfilled | src/features/project/slice/projectSlice.ts:140-143 | The project store's fulfilled phase clears `loading` and keeps whatever error was recorded before |
| AsyncCases.HandlePending | src/features/project/slice/projectSlice.ts:136-139 | The project store's pending phase sets `loading` and an undefined error; ProjectSlice.PhaseStatus states that nothing else changes |
| AsyncCases.HandleRejected | src/features/project/slice/projectSlice.ts:144-147 | The project store's rejected phase clears `loading`, records a truthy error, and a truthy payload is that error |
| AssignedCodec.DropEmpty | src/features/task/slice/taskSlice.ts:75 | Dropping empty pieces keeps only non-empty pieces of the input |
| AssignedCodec.DropEmptyIsFilter | src/features/task/slice/taskSlice.ts:75 | Dropping empties equals filtering on non-emptiness: every non-empty piece is kept, in order, with its repetitions |
| AssignedCodec.DecodeIds | src/features/task/slice/taskSlice.ts:72-75 | Every decoded id is clean: non-empty, comma-free and trimmed |
| AssignedCodec.CleanPiecesAreClean | src/features/task/slice/taskSlice.ts:75 | Trimming and dropping empties turns comma-free pieces into clean ids |
| AssignedCodec.NonEmptyDecodes | src/features/task/slice/taskSlice.ts:72-75 | A non-empty stored string decodes as its split on ',', trimmed, without empty pieces |
| AssignedCodec.DecodeStep | src/features/task/slice/taskSlice.ts:75 | A clean id followed by ", " decodes as that id, followed by the decoding of the rest |
| AssignedCodec.CleanSplitEncode | src/features/task/slice/taskSlice.ts:75 | Splitting and cleaning the joined form of a non-empty list of clean ids gives the list back |
| AssignedCodec.EncodeOne | src/features/task/slice/taskSlice.ts:75-97 | Base case of the round trip: one clean id is written as itself and decodes back to the one-element list |
| AssignedCodec.DecodeEncode | src/features/task/slice/taskSlice.ts:75 | Round trip: decoding the ", "-joined form of any list of clean ids returns exactly that list |
| AssignedCodec.NormaliseIdempotent | src/features/task/slice/taskSlice.ts:75 | Decoding, re-encoding and decoding again changes nothing, so one normalisation is final |
| AssignedCodec.AddSpec | src/features/task/slice/taskSlice.ts:84-90 | An add appends the id exactly when it is absent and otherwise leaves the list unchanged; the id is then present, once if it was at most once before |
| AssignedCodec.AddIdempotent | src/features/task/slice/taskSlice.ts:84-90 | Adding the same id twice gives the same list as adding it once |
| AssignedCodec.RemoveAllCounts | src/features/task/slice/taskSlice.ts:91-94 | Removing drops every copy of the id and keeps every other id as often as before; an absent id changes nothing |
| AssignedCodec.RemoveAllSubsequence | src/features/task/slice/taskSlice.ts:91-94 | What removing keeps is a subsequence of the input, so the other ids keep their relative order |
| AssignedCodec.RemoveAllSpec | src/features/task/slice/taskSlice.ts:91-94 | Removal's counts and order together: every copy gone, the rest kept in order |
| AssignedCodec.RemoveSpec | src/features/task/slice/taskSlice.ts:91-94 | The remove action drops every copy of the id and keeps the others in order; removing an absent id is the identity |
| AssignedCodec.EncodeIds | src/features/task/slice/taskSlice.ts:97 | The ', ' join; AssignedCodec.DecodeEncode states that decoding inverts it on clean ids |
| AssignedCodec.RemoveAll | src/features/task/slice/taskSlice.ts:93 | Filtering out one id; AssignedCodec.RemoveAllSpec states that every copy goes and the rest keep their order and counts |
| AssignedCodec.UpdateIds | src/features/task/slice/taskSlice.ts:81-95 | The id list after add or remove; AssignedCodec.AddSpec and AssignedCodec.RemoveSpec state each action |
| AssignedCodec.SetAssignedEmployees | src/features/task/slice/taskSlice.ts:81-98 | The string written back; AssignedCodec.SetThenDecode states that it decodes to the updated list |
| AssignedCodec.RemoveUndoesAdd | src/features/task/slice/taskSlice.ts:84-94 | Removing an id that was just added to a list without it restores the list |
| AssignedCodec.RemoveAllAppend | src/features/task/slice/taskSlice.ts:91-94 | Removing an id from a list that ends with it is the same as removing it from the list without that last entry |
| AssignedCodec.SetThenDecode | src/features/task/slice/taskSlice.ts:81-98 | Wire round trip: for clean ids, decoding the string written after an add or remove gives exactly the updated list |
| AssignedCodec.SubsequenceKeepsClean | src/features/task/slice/taskSlice.ts:91-94 | Dropping entries from a list of clean ids leaves a list of clean ids |
| AssignedCodec.WireAddIdempotent | src/features/task/slice/taskSlice.ts:81-98 | At the string level, adding an id to what an add of that id wrote writes the same string again |
| TaskSlice.AssignedString | src/features/task/slice/taskSlice.ts:66-70 | The string decoded is the first of `custom_assigned_employees`, `assigned_to`, `assigned_employees`, `_assign` that is present and non-empty, or '' when none is |
| TaskSlice.AssignedEmployees | src/features/task/slice/taskSlice.ts:64-76 | The task's ids are clean, and there are none when every assignment field is missing or empty |
| TaskSlice.EmptiedFieldFallsBack | src/features/task/slice/taskSlice.ts:66-72 | A `custom_assigned_employees` emptied to '' is skipped, so the next read decodes the other fields as if it were absent |
| TaskSlice.AssignmentRequest | src/features/task/slice/taskSlice.ts:183-210 | A PUT is planned iff a task is selected, to '/resource/Task/' + taskId; without one the thunk fails with 'Task not found' before any request |
| TaskSlice.AssignmentWritesUpdatedList | src/features/task/slice/taskSlice.ts:194-210 | The string sent decodes to the selected task's ids after the add or remove |
| TaskSlice.AssignmentThunk | src/features/task/slice/taskSlice.ts:183-256 | Without a selected task the thunk rejects with 'Task not found'; with one it succeeds exactly when the PUT does; every rejection value is truthy |
| TaskSlice.NoSelectedTaskNoRequest | src/features/task/slice/taskSlice.ts:188-192 | With no selected task the PUT's outcome cannot matter, because no PUT is issued |
| TaskSlice.BodyIgnoresTaskId | src/features/task/slice/taskSlice.ts:194-210 | The new assignment string is computed from the selected task, never from `taskId` |
| TaskSlice.FailedRequestRecordsError | src/features/task/slice/taskSlice.ts:103-178 | After any failed fetch, create, update or delete the store is not loading and holds a truthy error (the rejected string itself when it is one); tasks and selection are untouched |
| TaskSlice.PhaseStatus | src/utils/asyncReducers.ts:22-36 | Pending sets loading and a null error and nothing else; rejected keeps the tasks and selection and records `getErrorMessage`; every fulfilled case ends with loading false and error null |
| TaskSlice.Reduce | src/features/task/slice/taskSlice.ts:261-341 | The task store's reducer; TaskSlice.PhaseStatus, TaskSlice.PlainReducers, TaskSlice.UpdateMerge, TaskSlice.FetchAndCreateMerges, TaskSlice.DeleteMerge and TaskSlice.ReduceKeepsConsistent state its cases and its invariant |
| TaskSlice.PlainReducers | src/features/task/slice/taskSlice.ts:265-282 | Each plain reducer changes only its own field: clear selection, clear error, prepend a temporary task, replace the first entry with its name, remove by name |
| TaskSlice.UpdateMerge | src/features/task/slice/taskSlice.ts:298-306 | Update, assign and remove replace the first entry with the task's name and no other entry, leave the list unchanged when none matches, and replace the selected task exactly when its name matches |
| TaskSlice.FetchAndCreateMerges | src/features/task/slice/taskSlice.ts:285-296 | Fetching replaces the list wholesale, fetching one task sets only the selection, and creating prepends exactly one entry |
| TaskSlice.DeleteMerge | src/features/task/slice/taskSlice.ts:308-313 | Delete removes every entry with the name and keeps every other entry; the selection is cleared exactly when it had that name |
| TaskSlice.ReduceKeepsConsistent | src/features/task/slice/taskSlice.ts:263-340 | Distinct names, and a selection equal to its list entry, survive every reducer case when the back end's answers are consistent with the state |
| TaskSlice.AssignScenario | src/features/task/slice/taskSlice.ts:183-210 | A selected task assigned 'EMP-A' that gets 'EMP-B' added sends 'EMP-A, EMP-B' to the task's path |
| TaskSlice.AddSecondId | src/features/task/slice/taskSlice.ts:84-97 | Adding 'EMP-B' to ['EMP-A'] writes 'EMP-A, EMP-B' |
| TaskSlice.SingleIdDecodes | src/features/task/slice/taskSlice.ts:64-76 | A task whose custom field holds 'EMP-A' is assigned exactly ['EMP-A'] |
| ProjectSlice.FailedRequestRecordsError | src/features/project/slice/projectSlice.ts:60-122 | After any failed project request the store is not loading and its error is exactly the value the thunk rejected with; projects and selection are untouched |
| ProjectSlice.PhaseStatus | src/features/project/slice/projectSlice.ts:130-148 | Pending sets loading and an undefined error and nothing else; rejected keeps the projects and selection; fulfilled clears loading but keeps the error it found |
| ProjectSlice.Reduce | src/features/project/slice/projectSlice.ts:153-206 | The project store's reducer; ProjectSlice.PhaseStatus, ProjectSlice.PlainReducers, ProjectSlice.UpdateMerge, ProjectSlice.DeleteMerge and ProjectSlice.ReduceKeepsConsistent state its cases and its invariant |
| ProjectSlice.StaleErrorSurvivesSuccess | src/features/project/slice/projectSlice.ts:140-147 | An error recorded by one request is still there after another request succeeds |
| ProjectSlice.PlainReducers | src/features/project/slice/projectSlice.ts:157-174 | Clear selection and clear error each reset one field; the temporary-project prepend, replace-by-name and remove-by-name change only the list |
| ProjectSlice.FetchAndCreateMerges | src/features/project/slice/projectSlice.ts:177-187 | Fetching replaces the list, fetching one project sets only the selection, and creating prepends exactly one project |
| ProjectSlice.UpdateMerge | src/features/project/slice/projectSlice.ts:189-197 | An update replaces the first project with its name and no other, leaves the list unchanged when none matches, and replaces the selection exactly when its name matches |
| ProjectSlice.DeleteMerge | src/features/project/slice/projectSlice.ts:199-204 | Delete removes every project with the name, keeps every other one, and clears the selection exactly when it matched |
| ProjectSlice.ReduceKeepsConsistent | src/features/project/slice/projectSlice.ts:150-206 | Distinct names, and a selection that agrees with the list, are kept by every case under consistent back-end answers |
| EmployeeSlice.SearchFilter | src/features/employee/slice/employeeSlice.ts:77-79 | The search filter is the single triple ['employee_name', 'like', '%' + text + '%'] |
| EmployeeSlice.SearchPatternContainsText | src/features/employee/slice/employeeSlice.ts:77-79 | The like-pattern contains the search text |
| EmployeeSlice.FailedRequestRecordsError | src/features/employee/slice/employeeSlice.ts:60-84 | After a failed fetch or search the store is not loading and holds a truthy error (the rejected string itself when it is one); the list is untouched |
| EmployeeSlice.ReducerCases | src/features/employee/slice/employeeSlice.ts:95-109 | Fetch and search replace the list wholesale; clearing the list keeps the status; clearing the error keeps the list; pending and rejected keep the list |
| EmployeeSlice.Reduce | src/features/employee/slice/employeeSlice.ts:91-111 | The employee store's reducer; EmployeeSlice.ReducerCases states every case |
| DashboardSlice.CountStatus | src/features/dashboard/slice/dashboardSlice.ts:50-52 | A status count is the number of tasks whose status is exactly that string, so it never exceeds the number of tasks |
| DashboardSlice.StatsCountStatuses | src/features/dashboard/slice/dashboardSlice.ts:50-52 | Completed, pending and in-progress are the numbers of tasks whose status is exactly 'Completed', 'Open' and 'Working' |
| DashboardSlice.ComputeStats | src/features/dashboard/slice/dashboardSlice.ts:47-60 | The stats fail exactly when some task is null or undefined; otherwise the totals are the lengths of the two lists |
| DashboardSlice.CountsWithinTotal | src/features/dashboard/slice/dashboardSlice.ts:50-56 | Completed + pending + in progress never exceeds the task total |
| DashboardSlice.CountAppend | src/features/dashboard/slice/dashboardSlice.ts:50-52 | Counting over two lists joined is the sum of the counts |
| DashboardSlice.StatsBounded | src/features/dashboard/slice/dashboardSlice.ts:50-59 | Every computed count is at most the task total, and the three together are too |
| DashboardSlice.CountIsCaseSensitive | src/features/dashboard/slice/dashboardSlice.ts:50-52 | A task whose status differs from 'Completed', 'Open' or 'Working' in any way, letter case included, is not counted for it |
| DashboardSlice.ReducerCases | src/features/dashboard/slice/dashboardSlice.ts:71-88 | Pending keeps the stats and clears the error; fulfilled replaces the stats wholesale; rejected keeps the stats and records the message; clearing resets only the error |
| DashboardSlice.Reduce | src/features/dashboard/slice/dashboardSlice.ts:67-90 | The dashboard store's reducer; DashboardSlice.ReducerCases states every case and DashboardSlice.ReduceKeepsBounded its invariant |
| DashboardSlice.ReduceKeepsBounded | src/features/dashboard/slice/dashboardSlice.ts:75-88 | Every reducer case keeps the counts within the total, when a fulfilled action carries stats the thunk computed |
| DashboardSlice.InitialBounded | src/features/dashboard/slice/dashboardSlice.ts:22-32 | The all-zero initial stats are within the total, so the bound holds from the start |
| AuthSlice.ExtractSid | src/features/auth/slice/authSlice.ts:26 | An extracted sid never contains '=' or ';' |
| AuthSlice.SidOfCookie | src/features/auth/slice/authSlice.ts:26 | For a first cookie `name=value;attributes`, the sid is `value` |
| AuthSlice.SidTruncatedAtEquals | src/features/auth/slice/authSlice.ts:26 | A cookie value holding '=' yields only the text before it |
| AuthSlice.LoginSid | src/features/auth/slice/authSlice.ts:26-27 | Login proceeds iff a non-empty sid was extracted; otherwise it throws 'SID not returned' |
| AuthSlice.LoginThunk | src/features/auth/slice/authSlice.ts:21-50 | The login succeeds with the extracted sid and the profile exactly when the POST succeeds, a non-empty sid is extracted and the profile GET succeeds. A missing sid rejects with 'SID not returned'. A failed request rejects with its server message, its error message or 'Login failed'. Every rejection value is truthy |
| AuthSlice.FetchProfileThunk | src/features/auth/slice/authSlice.ts:53-75 | With no stored sid the thunk rejects with 'No SID found'. With a stored sid it returns the profile when the GET succeeds, and otherwise rejects with the server message, the error message or 'Failed to fetch profile' |
| AuthSlice.ReducerCases | src/features/auth/slice/authSlice.ts:88-117 | Login and profile pending set loading and a null error; login fulfilled sets user and sid, profile fulfilled only the user; both rejections keep user and sid; logout and reset give the initial state; logout pending and rejected change nothing |
| AuthSlice.Reduce | src/features/auth/slice/authSlice.ts:84-119 | The session store's reducer; AuthSlice.ReducerCases states every case |
| AuthSlice.ReduceAll | src/features/auth/slice/authSlice.ts:92-116 | The store after a run of actions, first applied first; AuthSlice.LoginOutcome states it for a whole login |
| AuthSlice.LoginStoresSid | src/features/auth/slice/authSlice.ts:26-100 | After a successful login the store holds a non-empty sid, the one taken from the cookie |
| AuthSlice.LoginActions | src/features/auth/slice/authSlice.ts:21-50 | A failed login puts only its pending and rejected actions through the store. A successful one puts login pending, then the background fetch's pending (dispatched at line 43), then login fulfilled, then that fetch's outcome for the sid just stored |
| AuthSlice.LoginOutcome | src/features/auth/slice/authSlice.ts:92-116 | After a login has settled, the store is not loading. A failed login only records its error. A successful one holds the sid. Its user is the background fetch's profile when that fetch succeeds, with no error. When the fetch fails, the login's profile stays and the fetch's truthy rejection is recorded as the error |
| AxiosInstance.ShouldDelay | src/utils/axiosInstance.ts:24-28 | No delay when the dev flag is off; with it on, every url when the list is empty, otherwise exactly the urls containing an entry |
| AxiosInstance.ConfiguredDelay | src/utils/axiosInstance.ts:13-22 | With the empty endpoint list shipped, a request is delayed exactly in development |
| AxiosInstance.ExtractFrappeError | src/utils/axiosInstance.ts:122-154 | The result is always an object, never a throw; missing error data gives `{message: 'No error data received'}` |
| AxiosInstance.FirstServerMessage | src/utils/axiosInstance.ts:128-143 | A first server message is found only when `_server_messages` is truthy, and it is never null or undefined, so reading its fields cannot throw |
| AxiosInstance.ServerMessageShape | src/utils/axiosInstance.ts:133-138 | With a parsed first message, message, title and indicator come from it unless the error data has those keys, and every key of the error data is spread over them |
| AxiosInstance.GenericMessage | src/utils/axiosInstance.ts:146-153 | Without a usable server message, the message is the data's own `message` property when it has one, even a falsy one, because the spread comes last; otherwise `exception` or 'Unknown Frappe error' |
| AxiosInstance.UnusableServerMessagesIgnored | src/utils/axiosInstance.ts:140-153 | A parse failure or an unusable array falls through to the generic result, which copies `_server_messages` and `exception` from the error data |
| AxiosInstance.EnhancedMessage | src/utils/axiosInstance.ts:101-103 | The enhanced message always starts with 'Frappe ' |
| AxiosInstance.EnhancedMessageParts | src/utils/axiosInstance.ts:101-103 | The message is 'Frappe ' + type + ': ' + detail. The type is a truthy `exc_type`, else 'Error'. The detail is a truthy `exception`, else a truthy `message`, else 'Unknown error' |
| AxiosInstance.InterceptError | src/utils/axiosInstance.ts:101-117 | An error with a response becomes a new error with the enhanced message and no response; one without a response passes through unchanged |
| AxiosInstance.SlicesSeeOnlyTheMessage | src/utils/axiosInstance.ts:101-109 | After interception no response data is visible to the stores, so their reject value is built from the enhanced message |
| ApiHelper.MapWithoutMapper | src/core/network/ApiHelper.ts:47-50 | Without a mapper the response body is returned as it is |
| ApiHelper.MapResponse | src/core/network/ApiHelper.ts:47-50 | The mapper's result, or the body itself without one; ApiHelper.MapWithoutMapper states the second case |
| ApiHelper.ExtractErrorMessage | src/core/network/ApiHelper.ts:52-57 | The message is a truthy `response.data.message`, else a truthy `error.message`, else 'Network Error'; it is always truthy |
| ApiHelper.Send | src/core/network/ApiHelper.ts:59-91 | Success iff the request and the mapper both succeed, with the mapped data and no error; otherwise no data and a truthy error; it never throws |
| ApiHelper.Failed | src/core/network/ApiHelper.ts:68-75 | A failure carries the extracted message and the response status, and no data |
| AuthRemote.CheckLogin | src/feature/auth/data/AuthRemoteDataSource.ts:20-24 | Login yields the data iff the response succeeded with data; otherwise it throws `response.error` or 'Login failed' |
| AuthRemote.LoginFailedText | src/feature/auth/data/AuthRemoteDataSource.ts:21 | The thrown message is a truthy `response.error`, else 'Login failed' |
| AuthRemote.Login | src/feature/auth/data/AuthRemoteDataSource.ts:8-25 | Login succeeds iff the POST succeeded with a non-nullish body, and the user is that body's `fromJson` |
| AuthRemote.ServerMessageReachesCaller | src/feature/auth/data/AuthRemoteDataSource.ts:13-22 | A non-empty server message in the error response is the message the login error carries |
| UserModel.FromJson | src/feature/auth/domain/model/User.ts:13-19 | Reading throws exactly on null or undefined JSON; otherwise no field of the user is null or undefined |
| UserModel.ToJson | src/feature/auth/domain/model/User.ts:21-27 | The JSON has exactly the keys full_name, user_id and sid |
| UserModel.FromJsonToJson | src/feature/auth/domain/model/User.ts:13-27 | Reading back the JSON of a user with no nullish field gives the same user |
| UserModel.ToJsonFromJson | src/feature/auth/domain/model/User.ts:13-27 | Writing a read user agrees with the source object on the three keys where they are non-nullish, and drops every other key |
| UserModel.NormaliseOnce | src/feature/auth/domain/model/User.ts:13-27 | Reading, writing and reading again gives the first reading |
| BaseController.AddListener | src/core/BaseController.ts:15-17 | Registration appends the listener after every earlier one |
| BaseController.AddAllAppends | src/core/BaseController.ts:13-17 | After any series of registrations the earlier listeners are still there in place, followed by the new ones in order; nothing is removed |
| BaseController.Notify | src/core/BaseController.ts:19-21 | A notification calls each registered listener once, in registration order, all with the same state |
| BaseController.NotifyNobody | src/core/BaseController.ts:19-21 | With no listener a notification calls nothing |
| BaseController.AddedTwiceCalledTwice | src/core/BaseController.ts:15-21 | A listener registered twice is called twice per notification |
| BaseController.BroadcastOrder | src/core/BaseController.ts:19-21 | Over several notifications, call k·n+i is listener i with the k-th state |
| AuthController.Finished | src/feature/auth/controller/AuthController.ts:22-26 | The outcome notification has loading false, and either data (result or else payload) with no error, or the error's message with no data |
| AuthController.PerformAction | src/feature/auth/controller/AuthController.ts:16-29 | The loading notification comes first, then the work's own effects, then one outcome notification; the work's result is returned and its error rethrown |
| AuthController.TwoNotifications | src/feature/auth/controller/AuthController.ts:16-29 | Each action notifies exactly twice: loading, then done with an error iff the work failed, never both data and error |
| AuthController.GetUser | src/core/LocalStorge.ts:11-14 | Nothing or '' stored gives null; otherwise the stored string is parsed; a storage failure is thrown |
| AuthController.CheckUser | src/feature/auth/controller/AuthController.ts:31-36 | The check resolves to a truthy stored object or to null, and fails exactly when reading or parsing the stored user fails |
| AuthController.CheckUserWithoutStoredUser | src/feature/auth/controller/AuthController.ts:31-36 | With nothing stored the check resolves to null, and its outcome notification carries undefined data |
| AuthController.LoginAction | src/feature/auth/controller/AuthController.ts:38-44 | Login succeeds with the user exactly when both the remote login and the stored-user write succeed. It rethrows the remote error, or the write's error after a successful remote login |
| AuthController.LoginOrder | src/feature/auth/controller/AuthController.ts:16-44 | A successful login logs loading, the save of the user, then done with the user. A failed remote login never writes storage. A failed write ends with an error notification carrying the write's message |
| AuthController.ForgotPasswordAction | src/feature/auth/controller/AuthController.ts:46-51 | The action resolves to `{email}` and notifies it as data |
| AuthController.SkipAsGuest | src/feature/auth/controller/AuthController.ts:53-57 | The guest action resolves to User('Guest', 'guest', '') and notifies it under GUEST |
| AuthController.Logout | src/feature/auth/controller/AuthController.ts:59-62 | A successful clear of the stored user is followed by one LOGIN notification with loading false and data null. A failed clear is thrown with no notification at all |
| TaskListView.ProjectValuesSpec | src/features/task/screens/TaskListScreen.tsx:42 | The project values are exactly the truthy projects of the tasks |
| TaskListView.StatusValuesSpec | src/features/task/screens/TaskListScreen.tsx:43 | The status values are exactly the non-empty statuses of the tasks |
| TaskListView.ProjectOptionsSpec | src/features/task/screens/TaskListScreen.tsx:41-46 | The options are 'all' followed by every truthy project of the tasks, each once |
| TaskListView.StatusOptionsSpec | src/features/task/screens/TaskListScreen.tsx:41-46 | The options are 'all' followed by every non-empty status of the tasks, each once |
| TaskListView.ProjectOptions | src/features/task/screens/TaskListScreen.tsx:42 | The project picker's options; TaskListView.ProjectOptionsSpec states its contents |
| TaskListView.StatusOptions | src/features/task/screens/TaskListScreen.tsx:43 | The status picker's options; TaskListView.StatusOptionsSpec states its contents |
| TaskListView.AllProjectListedTwice | src/features/task/screens/TaskListScreen.tsx:42 | A task whose project is named 'all' makes 'all' appear twice among the options |
| TaskListView.ShownAreTheMatches | src/features/task/screens/TaskListScreen.tsx:50-54 | The list shown holds exactly the tasks matching both filters, each as often as in the store, and is never longer than the store's list |
| TaskListView.NoFilterShowsAll | src/features/task/screens/TaskListScreen.tsx:50-61 | With both filters at 'all' the list shown is a permutation of all tasks |
| TaskListView.ShownInCreationOrder | src/features/task/screens/TaskListScreen.tsx:57-61 | 'desc' shows the newest first and 'asc' the oldest first; tasks with equal timestamps keep their store order |
| TaskListView.FilteredAndSorted | src/features/task/screens/TaskListScreen.tsx:49-64 | The list shown; TaskListView.ShownAreTheMatches states its contents and TaskListView.ShownInCreationOrder its order |
| TaskListView.ClearFilters | src/features/task/screens/TaskListScreen.tsx:97-101 | After clearing, no filter is active |
| TaskListView.ActiveIffNotDefault | src/features/task/screens/TaskListScreen.tsx:97-103 | Filters are active exactly when they differ from the defaults that clearing restores |
| TaskListView.HasActiveFilters | src/features/task/screens/TaskListScreen.tsx:103 | Whether any filter is set; TaskListView.ActiveIffNotDefault states that it holds exactly off the defaults |
| TaskDetailView.GetAssignedEmployees | src/features/task/screens/TaskDetailScreen.tsx:21-43 | No task or a falsy `assigned` gives []; an array is returned unchanged; a value that is neither array nor string gives [] |
| TaskDetailView.StringAssignedDecodes | src/features/task/screens/TaskDetailScreen.tsx:37-39 | A string `assigned` reads as the store decodes a stored assignment string: clean ids, duplicates kept |
| TaskDetailView.IgnoresCustomAssignedEmployees | src/features/task/screens/TaskDetailScreen.tsx:24 | The ids shown do not depend on `custom_assigned_employees`, the field the store writes on assignment |
| TaskDetailView.ScreenAndStoreCanDisagree | src/features/task/screens/TaskDetailScreen.tsx:24 | A task the store reads as assigned to 'EMP-A' shows no assigned employee on the detail screen |
| TaskDetailView.AssignedListSpec | src/features/task/screens/TaskDetailScreen.tsx:60-70 | The list holds the employees whose name is among the ids, with their multiplicity, and is built in the employees' order |
| TaskDetailView.AssignedEmployeesList | src/features/task/screens/TaskDetailScreen.tsx:60-70 | The assigned employees shown; TaskDetailView.AssignedListSpec states which and in what order |
| TaskCreateForm.CreateTask | src/features/task/screens/TaskCreate.tsx:34-51 | It dispatches iff the trimmed subject is non-empty; a blank subject gives the validation alert; a success gives the success alert; a failure shows the thrown message when it has a truthy one |
| TaskCreateForm.StringRejectionShowsGenericText | src/features/task/screens/TaskCreate.tsx:46-47 | A rejection with a string payload, which the task store always gives, shows the generic failure text |
| TaskCreateForm.InitialFormInvalid | src/features/task/screens/TaskCreate.tsx:23-38 | The initial form cannot be submitted |
| TaskCreateForm.IsFormValid | src/features/task/screens/TaskCreate.tsx:78 | Whether create is enabled; TaskCreateForm.CreateTask states that it decides the dispatch |
| TaskCreateForm.HandleBackPress | src/features/task/screens/TaskCreate.tsx:63-76 | Back asks to discard iff the trimmed subject or trimmed description is non-empty or a project is set |
| TaskCreateForm.HasUnsavedChanges | src/features/task/screens/TaskCreate.tsx:64 | Whether back must ask; TaskCreateForm.HandleBackPress asks exactly when it holds |
| TaskCreateForm.ValidFormIsGuarded | src/features/task/screens/TaskCreate.tsx:63-78 | A form that could be submitted always asks before being discarded |
| TaskCreateForm.InitialFormIsClean | src/features/task/screens/TaskCreate.tsx:23-29 | The initial form goes back without asking |
| TaskCreateForm.SelectProject | src/features/task/screens/TaskCreate.tsx:53-57 | Selecting sets only the project and closes the picker |
| TaskCreateForm.ClearProject | src/features/task/screens/TaskCreate.tsx:171 | Clearing sets only the project, to '' |
| TaskCreateForm.ClearUndoesSelect | src/features/task/screens/TaskCreate.tsx:53-57 | Clearing after selecting empties the project again; selecting never changes validity, and a non-empty selection makes back ask |
| ProjectForm.Validate | src/features/project/screens/ProjectInfoScreen.tsx:88-106 | A name error iff the trimmed name is empty; an end-date error iff both dates are set, both parse, and the end is before the start |
| ProjectForm.ValidateForm | src/features/project/screens/ProjectInfoScreen.tsx:88-110 | The form is valid iff neither error is raised |
| ProjectForm.ProgressNeverInvalid | src/features/project/screens/ProjectInfoScreen.tsx:103-106 | Progress never affects validity, whatever its value |
| ProjectForm.InvalidDateNeverCompares | src/features/project/screens/ProjectInfoScreen.tsx:95-101 | An unparseable date never produces the end-date error |
| ProjectForm.Clamp | src/features/project/screens/ProjectInfoScreen.tsx:283 | The result is in [0, 100], an in-range value is kept, below 0 gives 0 and above 100 gives 100 |
| ProjectForm.ProgressInput | src/features/project/screens/ProjectInfoScreen.tsx:281-284 | The progress is always in [0, 100]; NaN gives 0; a number is clamped |
| ProjectForm.ProgressInputStable | src/features/project/screens/ProjectInfoScreen.tsx:280-284 | Entering the shown progress again keeps it |
| ProjectForm.FormatDateForInput | src/features/project/screens/ProjectInfoScreen.tsx:142-145 | The shown date is a prefix of the input without a space, and the whole input when it has no space |
| ProjectForm.DropsTimePart | src/features/project/screens/ProjectInfoScreen.tsx:142-145 | 'date time' shows as 'date', and formatting a shown date again changes nothing |
| ProjectForm.EditForm | src/features/project/screens/ProjectInfoScreen.tsx:66-77 | Each field comes from the project, with '' , 'Open', 'Medium' or 0 for a missing or empty one |
| ProjectForm.InitialForm | src/features/project/screens/ProjectInfoScreen.tsx:63-78 | Edit mode with a project fills the form from it; otherwise the defaults stay |
| ProjectForm.EditShowsTheProject | src/features/project/screens/ProjectInfoScreen.tsx:66-77 | A project whose fields are all set is shown as it is |
| ProjectForm.HandleSave | src/features/project/screens/ProjectInfoScreen.tsx:112-131 | Nothing is sent when validation fails or when edit mode has no project; create mode creates; edit mode updates under the project's `name` |
| ProjectForm.SaveSendsTheForm | src/features/project/screens/ProjectInfoScreen.tsx:118-127 | Whatever is sent carries the form as entered, and an update is keyed by `name`, not `project_name` |
| ProjectListView.ProgressColorByBands | src/features/project/screens/ProjectListScreen.tsx:150-157 | 0 and unset are grey; any other value gets the colour of the highest band it reaches, red below every band, negatives included |
| ProjectListView.ProgressColor | src/features/project/screens/ProjectListScreen.tsx:150-157 | The progress colour; ProjectListView.ProgressColorByBands states it through the band table and ProjectListView.ProgressColorMonotone its order |
| ProjectListView.ProgressColorMonotone | src/features/project/screens/ProjectListScreen.tsx:152-156 | More progress never shows a lower band |
| ProjectListView.ProjectIcon | src/features/project/screens/ProjectListScreen.tsx:247-256 | The icon is one of the six, and the folder for a missing type |
| ProjectListView.ProjectIconIgnoresCase | src/features/project/screens/ProjectListScreen.tsx:248 | The icon depends only on the lower-cased type |
| ProjectListView.ExternalAnyCase | src/features/project/screens/ProjectListScreen.tsx:248-249 | 'External' in any letter case gets the globe |
| ProjectListView.RenderContent | src/features/project/screens/ProjectListScreen.tsx:279-345 | The spinner, error view, empty state and list are each shown exactly under their conditions, the first that applies winning |
| ProjectListView.HandleProjectSelect | src/features/project/screens/ProjectListScreen.tsx:90-117 | Browse mode only navigates to the detail screen, and only with navigation; selection mode never navigates to it; at most two effects |
| ProjectListView.SelectThenClose | src/features/project/screens/ProjectListScreen.tsx:94-109 | In selection mode the choice is reported before closing, and `onClose` is preferred to going back |
| ProjectListView.BrowseNeverSelects | src/features/project/screens/ProjectListScreen.tsx:110-116 | Browse mode never reports a selection or closes anything |
| StatusColors.StatusColor | src/utils/commonStyles.ts:174-190 | The colour is always a palette value, and the default for a missing status |
| StatusColors.StatusColorIgnoresCase | src/utils/commonStyles.ts:175 | The colour depends only on the lower-cased status |
| StatusColors.StatusGroups | src/utils/commonStyles.ts:176-189 | 'completed' or 'closed' gives completed; 'in progress', 'working' or 'in_progress' gives in progress; 'open' or 'pending' gives open; anything else gives the default |
| Theme.IsDark | src/core/theme/ThemeProvider.tsx:66 | The manual choice when one is set, else whether the system scheme is 'dark' |
| Theme.ThemeOf | src/core/theme/ThemeProvider.tsx:67 | The dark theme iff dark, the light theme iff not |
| Theme.Toggle | src/core/theme/ThemeProvider.tsx:69 | A toggle always flips dark and leaves a manual choice set |
| Theme.ToggleTwice | src/core/theme/ThemeProvider.tsx:69 | Two toggles restore dark, fixed as a manual choice |
| Theme.Encode | src/core/theme/ThemeProvider.tsx:58-64 | A preference is written iff a manual choice is set, as 'dark' or 'light' |
| Theme.Load | src/core/theme/ThemeProvider.tsx:50-54 | Nothing stored leaves the state; a stored string sets the choice to whether it is 'dark' |
| Theme.LoadEncode | src/core/theme/ThemeProvider.tsx:50-64 | Loading what was written restores the manual choice |
| Theme.EncodeLoad | src/core/theme/ThemeProvider.tsx:50-64 | Writing what was loaded gives 'dark' for 'dark' and 'light' for any other stored string |
| Localization.SetLanguage | src/core/localization/LanguageManager.ts:8-10 | Setting a language makes it the current one |
| Localization.NewModule | src/core/localization/AppLocalization.ts:16-20 | Construction succeeds iff the map has a truthy value under the name, either a registered module or a name inherited from `Object.prototype`. A registered name gives its table, an inherited one an empty table, and any other name throws "Module '<name>' localization not found" |
| Localization.ConstructibleModules | src/core/localization/AppLocalization.ts:5-18 | A module constructs iff its name is 'login' or inherited from `Object.prototype`, and every lookup in an inherited module gives '' |
| Localization.Get | src/core/localization/AppLocalization.ts:25-28 | A known key gives its translation in the current language; an unknown key gives '' |
| Localization.SetThenGet | src/core/localization/LanguageManager.ts:2-10 | After setting a language, lookups return its translation; before any change they return English |
| Localization.SkipGuestIsBlank | src/feature/auth/localization/LoginLocalization.ts:11 | The login table has 'loginSkipGuest' but no 'skipGuest', so a lookup of 'skipGuest' gives '' |
| KeyedList.FindIndex | src/features/task/slice/taskSlice.ts:275 | The index found is the first entry with the key, or -1 when there is none |
| KeyedList.ReplaceFirstSpec | src/features/task/slice/taskSlice.ts:274-279 | Replacing keeps the length, changes only the first entry with the key, and changes nothing when no entry has it |
| KeyedList.RemoveKeyMembers | src/features/task/slice/taskSlice.ts:280-282 | Removing by key keeps exactly the entries with other keys |
| KeyedList.RemoveAbsentKey | src/features/task/slice/taskSlice.ts:280-282 | Removing a key no entry has changes nothing |
| Sorting.SortBySpec | src/features/task/screens/TaskListScreen.tsx:57-61 | The sort returns a sorted permutation of its input |
| Sorting.SortByStable | src/features/task/screens/TaskListScreen.tsx:57-61 | Elements with equal keys keep their input order |
| Sequences.DistinctSpec | src/features/task/screens/TaskListScreen.tsx:42-43 | The distinct values are exactly the input's values, each once |
| Text.Trim | src/features/task/screens/TaskCreate.tsx:78 | The result is a contiguous part of the input with no whitespace at either end, and everything cut off before and after it is whitespace |
| Text.SplitJoin | src/features/task/slice/taskSlice.ts:75-97 | Splitting a join of separator-free pieces gives the pieces back |
| Text.JoinSplit | src/features/task/slice/taskSlice.ts:75-97 | Joining the pieces of a split with the separator gives the string back |
| Text.ToLowerIdempotent | src/utils/commonStyles.ts:175 | Lower-casing twice is lower-casing once |
| JsValue.FirstTruthy | src/core/network/ApiHelper.ts:56 | An `||` chain yields its first truthy operand, or the fallback when none is truthy |

## Left out

- Floating-point numbers and NaN: `Num` holds integers only, so fractional
  progress and NaN are not modelled. `parseInt`'s NaN is the None of its
  parameter.
- Invalid dates in the task list's sort comparator: the timestamp is a total
  function. A NaN comparison in `Array.prototype.sort` has no defined
  result.
- `JSON.parse`, `new Date` and `parseInt` are parameters. Their real
  behaviour is outside the model.
- Array-index and string-index keys: `Get` and the object spread treat only
  the properties of objects. Indexing into arrays or strings by property
  name is left out.
- Rendering, styles, navigation wiring, the toast and overlay services, and
  the login, profile and dashboard screens are presentation only. They are
  not part of this model.
- Network I/O: every request's outcome is an input. The axios request
  interceptor's curl text and all console logging are advisory.
- AsyncStorage: the sid, profile and theme writes are left out, and so are
  failures of the theme save. The stored user is an input to `checkUser`.
  The controller's writes are effects in the log, and whether a write or
  clear succeeded is an input of the login and logout actions.
- Timers and races: the one-second delay in `forgotPassword`, the employee
  search debounce and the dashboard refresh timeout are left out.
  Concurrent thunks are applied one reducer case at a time.
- BaseController.Notify: a listener that throws inside `forEach` would stop
  the remaining calls; listeners are modelled as never throwing.
- Redux-toolkit itself is not part of this model. Two of its behaviours are
  taken as given:
  - `rejectWithValue(v)` gives payload `v` and error message 'Rejected';
  - a thrown error gives no payload and keeps its message.
- Task and project fields that no modelled rule reads are left out of the
  records.
- A response body that is not the expected shape is left out. An example is
  `data.data` missing in the dashboard thunk, where only null or undefined
  task entries are modelled.
- The project form's success alerts, `onSave` and `goBack` after a save are
  UI effects. Only the choice of request is modelled.
- The copy of `getProgressColor` in the project detail screen is left out.
- The per-screen status colour switches are left out. These are in
  TaskListScreen.tsx:66-75, ProjectListScreen.tsx:258-267 and
  ProjectInfoScreen.tsx:147-156. None of them calls the shared
  `getStatusColor`, and each maps statuses differently from it: 'open' is
  '#FF9800' on one screen and '#9C27B0' on the others, 'cancelled' and
  'on hold' have colours, and 'closed', 'working' and 'pending' fall to the
  default. The shared helper alone is modelled as StatusColors.
- AuthSlice.LoginActions: fixes the background fetch's outcome as the last
  action. Its storage read and GET cannot settle before the login
  fulfils, because the login fulfils as soon as it returns. The fetch is
  also given the sid the login wrote, since storage writes are taken to
  succeed.
- Localization.NewModule: the inherited names are those of a plain
  object's `Object.prototype`. The declared parameter type admits only
  'login', but nothing enforces that at run time.
- AuthController.ForgotPasswordAction: the awaited one-second timer is left
  out; only its result and notifications are modelled.
- Text.ToLower: `toLowerCase` is modelled for ASCII letters and the Kelvin
  sign only. This is exact for comparing against the lower-case keywords the
  screens match, but it is not general Unicode case mapping.
