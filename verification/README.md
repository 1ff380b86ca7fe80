# Enterprise task manager front end: the behavioural core in Dafny

This project models the parts of the enterprise task manager's React front end
that hold actual behaviour, and proves properties of them. Those parts are:

- **The per-service circuit breaker** (`CircuitBreaker`). It keeps a lazily
  created record per service id: state `CLOSED` / `OPEN` / `HALF-OPEN`, a
  failure count, and the time of the last failure. It refuses calls to an
  open service until 10 000 ms have passed since its last failure, and opens
  after three failures or a failed half-open probe. Admission and completion
  are separate functions (`Admit`, `Complete`), because the source awaits
  the call between them. `Call` composes the two.
- **The three reducers**: tasks (`TaskStore`), projects (`ProjectStore`) and
  authentication (`AuthStore`). Each is a total function from a state and
  an action to the next state. The id-keyed list updates they share live in
  `Keyed`.
- **The forms**: sign-in (`Login`), registration with its password-strength
  meter (`Register`), tasks (`TaskForm`) and projects (`ProjectForm`). This
  covers validation with ordered error messages, field edits, edit-mode
  population, the payload sent, and where each form leads afterwards. The
  rules the forms share are in `FormRules`.
- **The status and priority chips** (`StatusChip`, `PriorityChip`): label,
  icon and colours as functions of the raw value.
- **The protected-route guard** (`ProtectedRoute`): spinner, redirect to
  `/login` remembering the location, or the protected page.
- **The request descriptors** of the task and project API clients
  (`TaskService`, `ProjectService`, over `Http`): verb, path with its
  template-literal interpolations, and body. The body is what the task
  form (`TaskForm.Payload`) or the project form (`ProjectForm.Form`) sends.

Supporting modules:

- `Values`: optional values, ids as JavaScript numbers or strings, and
  truthiness.
- `Decimal`: the rendering of a number inside a template literal, with its
  parser.
- `JsText`:
  - `trim` and the `\s` class;
  - the three regular expressions the validators use (`/.{8,}/`, the
    "contains" classes, `/\S+@\S+\.\S+/`). Each is stated as a declarative
    predicate and also as a left-to-right scanning method, proved to agree
    with the predicate.
- `Navigation`: router locations and their `from` / `returnTo` state.
- `Entities`: the task, project and user records.

A success while `CLOSED` leaves the breaker's failure count alone; only a
successful `HALF-OPEN` probe resets it to 0
(`src/utils/circuitBreaker.js:35-38`). Failures separated by successes
therefore still open the circuit (`CircuitBreaker.InterleavedFailuresOpen`).

The breaker's registry is a map from service id to record. The source keeps
it in a plain object literal, which also answers the names it inherits from
`Object.prototype`; `CircuitBreaker.CallAsWritten` models that, and the
difference is recorded under "## Findings". The rest of the model uses the
map.

## Model

| member | source | states |
|---|---|---|
| CircuitBreaker.Admit | src/utils/circuitBreaker.js:13-31 | Over a registry without inherited names (see "## Findings"), an unseen id gets a fresh `CLOSED` record and is admitted. A call is refused exactly when the record is `OPEN` and fewer than 10 000 ms have passed since the last failure (`null` counting as 0). A refusal leaves the registry unchanged and carries "Service … is unavailable - circuit breaker is open". An `OPEN` record past its timeout becomes `HALF-OPEN`. No other id's record changes. |
| CircuitBreaker.Complete | src/utils/circuitBreaker.js:33-51 | Works on the record as it is at settlement. A success returns the value; it closes a `HALF-OPEN` record with 0 failures and otherwise changes nothing. A failure rethrows the same error, adds exactly one failure and stamps the time. The record is then `OPEN` iff the count reached 3 or the record was not `CLOSED`; otherwise its state is unchanged. |
| CircuitBreaker.Call | src/utils/circuitBreaker.js:12-52 | The whole call. `apiCall` is invoked unless the record refuses; a first call on an unseen id always invokes it. It reports the breaker's own error when refused and the call's result or error otherwise. It gives the count and state effects of success and failure in terms of the record before the call, and touches only its own service. |
| CircuitBreaker.AdmitKeepsValid | src/utils/circuitBreaker.js:13-31 | Admission keeps the invariant: a record that is not `CLOSED` has at least 3 failures and a last-failure time. |
| CircuitBreaker.CompleteKeepsValid | src/utils/circuitBreaker.js:40-49 | Completion keeps the same invariant. Together with the admission lemma, this covers any interleaving of concurrent calls. |
| CircuitBreaker.CallKeepsValid | src/utils/circuitBreaker.js:12-52 | A whole call keeps the invariant. |
| CircuitBreaker.RunKeepsValid | src/utils/circuitBreaker.js:12-52 | Any sequence of calls keeps the invariant. |
| CircuitBreaker.RunIsolatesServices | src/utils/circuitBreaker.js:13-21 | Calls on other services neither create nor change a service's record. |
| CircuitBreaker.ThreeFailuresOpen | src/utils/circuitBreaker.js:41-49 | Three failures on a new service leave it `CLOSED`, `CLOSED`, then `OPEN` with count 3. A fourth call within the timeout is refused without invoking `apiCall`. |
| CircuitBreaker.InterleavedFailuresOpen | src/utils/circuitBreaker.js:35-49 | Fail, succeed, fail, succeed, fail opens the circuit, because a success while `CLOSED` does not reset the count. |
| CircuitBreaker.CallAsWritten | src/utils/circuitBreaker.js:7-52 | On the plain-object registry: an id naming an `Object.prototype` member with no record of its own is always invoked, settles with the call's own result or error, and leaves the registry unchanged; every other id behaves exactly as `Call`. |
| CircuitBreaker.InheritedNamesNeverOpen | src/utils/circuitBreaker.js:13-21 | As written, no sequence of calls gives an inherited name such as `"toString"` a record, so the next call on it is always invoked, however many failed before. |
| CircuitBreaker.ToStringNeverOpens | src/utils/circuitBreaker.js:41-49 | As written, three failures on `"toString"` leave no record and a fourth call within the timeout still invokes `apiCall`: the counterpart of `ThreeFailuresOpen`. |
| CircuitBreaker.RecoveryAfterTimeout | src/utils/circuitBreaker.js:23-38 | After the timeout, a successful probe runs and closes the circuit with count 0. A single later failure leaves it `CLOSED` with count 1. |
| Keyed.Replace | src/context/taskContext.js:64-66 | `map` by id: same length, and each element is the new record exactly where the ids match, otherwise the old one. |
| Keyed.RemoveKeepsOthers | src/context/taskContext.js:75 | `filter` by id: every survivor comes from the list and lacks the id, and every element without the id survives. |
| Keyed.RemoveAppend | src/context/taskContext.js:75 | Filtering distributes over concatenation, so the survivors keep their order. |
| Keyed.RemoveAbsent | src/context/taskContext.js:75 | Filtering by an id no element carries leaves the list unchanged. |
| Keyed.RemoveCount | src/context/projectContext.js:65 | The filtered list is shorter by exactly the number of elements carrying the id. |
| Keyed.ReplaceIdempotent | src/context/taskContext.js:64-66 | Replacing twice with the same record is replacing once. |
| Keyed.RemoveIdempotent | src/context/taskContext.js:75 | Filtering twice by the same id is filtering once. |
| Keyed.ReplaceKeepsKeys | src/context/taskContext.js:64-66 | Replacing leaves every position's id as it was. |
| Keyed.ReplaceKeepsUnique | src/context/projectContext.js:55-57 | Replacing keeps distinct ids distinct. |
| Keyed.RemoveKeepsUnique | src/context/projectContext.js:65 | Filtering keeps distinct ids distinct. |
| TaskStore.Reduce | src/context/taskContext.js:22-99 | The five requests set `loading` and clear `error` and nothing else. Every success ends not loading and without error. A list fetch takes `content` or the bare array, with the `\|\|` fallbacks for the page fields. A create puts the task in front. An update replaces matching ids and the selected task only if its id matches. A delete filters by id and clears a matching selection. The error, clear and unknown actions change only their named fields. |
| TaskStore.FetchPlainArray | src/context/taskContext.js:34-46 | A bare-array payload becomes the list: one page, page 0, and the array's length as both total and page size. |
| TaskStore.FetchPagedZeroPages | src/context/taskContext.js:39 | A page object reporting 0 pages is recorded as 1 page. |
| TaskStore.UpdateIdempotent | src/context/taskContext.js:61-71 | Applying the same update twice is applying it once. |
| TaskStore.DeleteIdempotent | src/context/taskContext.js:72-79 | Applying the same delete twice is applying it once. |
| TaskStore.DeleteKeepsOrder | src/context/taskContext.js:72-79 | Deleting from a list split in two deletes from each part, in order. |
| TaskStore.RouteIdDeleteKeepsNumericTasks | src/components/tasks/TaskDetail.js:51-53 | As the detail page deletes, with the route's string id, a store whose tasks and selection carry numeric ids keeps its list and its selection unchanged. |
| TaskStore.DeleteByShownIdRemovesIt | src/context/taskContext.js:72-79 | Deleting with the id of the task on show clears the selection, removes every task with that id, and keeps every other task. |
| TaskStore.KeepsUniqueIds | src/context/taskContext.js:34-79 | Distinct task ids stay distinct through fetches of distinct tasks, creates of new ids, updates and deletes. |
| TaskStore.LoadingFollowsLastRequest | src/context/taskContext.js:22-99 | After any sequence of actions, the store is loading exactly when the last action that sets `loading` was a request (or, if none did, when it was loading before). |
| ProjectStore.Reduce | src/context/projectContext.js:16-88 | Requests set `loading` and clear `error` only. A list fetch replaces the list wholesale. A create appends at the end and selects the new project. An update replaces matching ids and selects the payload unconditionally. A delete filters by id and leaves the selection alone. The error, clear and unknown actions change only their named fields. |
| ProjectStore.UpdateIdempotent | src/context/projectContext.js:52-61 | Applying the same update twice is applying it once. |
| ProjectStore.DeleteIdempotent | src/context/projectContext.js:62-68 | Applying the same delete twice is applying it once. |
| ProjectStore.DeleteRemovesAll | src/context/projectContext.js:62-68 | A delete removes every project with the id: the list shrinks by exactly their number. |
| ProjectStore.CreateAfterDeleteIsUnique | src/context/projectContext.js:44-68 | After deleting an id and then creating a project with it, exactly one project in the list carries that id. |
| ProjectStore.KeepsUniqueIds | src/context/projectContext.js:24-68 | Distinct project ids stay distinct through fetches of distinct projects, creates of new ids, updates and deletes. |
| AuthStore.Reduce | src/context/authContext.js:16-60 | Only login and logout change who is signed in. A request sets `loading` and clears `error`. A login signs the payload user in. An error records its message and stops loading. A logout resets to signed out. Registration stops loading and clears `error`. Unknown actions change nothing. |
| AuthStore.LogoutIdempotent | src/context/authContext.js:38-45 | Logging out twice is logging out once. |
| AuthStore.SessionFollowsLastLogin | src/context/authContext.js:16-60 | After any sequence of actions, whoever is signed in is decided by the last login or logout, or is unchanged if there was none. |
| JsText.TrimEmptyIffBlank | src/components/tasks/TaskForm.js:88 | For `JsText.Trim`, the model of `s.trim()`: `!s.trim()` holds exactly for all-white-space strings, and a non-empty trim starts and ends with a non-space character. |
| JsText.ScanLine | src/components/auth/Register.js:28 | `JsText.HasLine` states `/.{8,}/` declaratively. The engine's scan for `/.{8,}/` reports a match exactly when eight consecutive characters contain no line terminator. |
| JsText.ScanEmail | src/components/auth/Login.js:53 | `JsText.EmailShaped` states `/\S+@\S+\.\S+/` declaratively. The one-pass scan for `/\S+@\S+\.\S+/` reports a match exactly when the unanchored pattern matches somewhere in the string. |
| JsText.EmailShapedIsLong | src/components/auth/Register.js:137 | A string matching the e-mail pattern has at least five characters, so the empty string never matches. |
| Decimal.ParseRender | src/api/taskService.js:4 | A number interpolated into a URL reads back as the same number. |
| Decimal.RenderInjective | src/api/taskService.js:8 | Distinct numbers interpolate to distinct numerals. |
| FormRules.EmailRule | src/components/auth/Login.js:51-55 | No error iff the pattern matches somewhere. "Email is required" for the empty string, else "Email address is invalid". |
| FormRules.NameRule | src/components/tasks/TaskForm.js:88-94 | No error iff the value is not all white space and its untrimmed length is 3..100. Otherwise the required, too-short or too-long message applies, in that order. |
| FormRules.DescriptionRule | src/components/tasks/TaskForm.js:96-98 | An error exactly for descriptions longer than 500 characters; empty ones never error. |
| Login.Validate | src/components/auth/Login.js:48-62 | An e-mail error exactly when the pattern does not match ("required" when empty, "invalid" otherwise). A password error exactly when it is empty. |
| Login.Submit | src/components/auth/Login.js:64-75 | Sign-in goes ahead exactly when the e-mail is well shaped and the password non-empty, and it sends the form unchanged. Otherwise the non-empty error map is shown. |
| Login.Change | src/components/auth/Login.js:33-40 | The edited field takes the new value, the other keeps its own, and only that field's error is cleared. |
| Login.Destination | src/components/auth/Login.js:24 | The sign-in leads to `state.from.pathname` when present and non-empty, else `/dashboard`. |
| Login.SignInReturnsToGuardedPage | src/components/auth/Login.js:24 | A visitor the guard redirects to `/login` is taken back to the page they asked for after signing in. |
| Register.Unmet | src/components/auth/Register.js:145-147 | The unmet requirements, in declaration order: a requirement is listed iff it is not met, and met plus unmet count all five. |
| Register.AllRequirementsListed | src/components/auth/Register.js:27-33 | Every requirement kind is in the requirement list. |
| Register.CalculateStrength | src/components/auth/Register.js:64-106 | Score is 20 × the number of requirements met (at most 100). Each requirement is marked exactly when met. The score reaches 60 iff at least 3 are met. By the number met: 0 is "Very Weak" and 1 "Weak", both in `error`; 2 is "Fair" in `warning`, 3 "Good" in `info`, and 4 or 5 "Strong" in `success` ("Strong" exactly from 4). An empty password gives the initial strength. |
| Register.Grade | src/components/auth/Register.js:86-103 | The scores 0, 20, 40, 60 and 80/100 get "Very Weak", "Weak", "Fair", "Good" and "Strong" with colours `error`, `error`, `warning`, `info` and `success`; the colour is `error` exactly for the two lowest labels. |
| Register.Scored | src/components/auth/Register.js:77-105 | The general path gives the same score and marks, and the same label and colour for each number of requirements met. |
| Register.EmptyPasswordScoresLikeAnyOther | src/components/auth/Register.js:65-75 | The early return for an empty password agrees with the general scoring: nothing is met, and the score is 0 and "Very Weak". |
| Register.MetIsMonotone | src/components/auth/Register.js:27-33 | Adding characters on either side never unmeets a requirement. |
| Register.CountMetIsMonotone | src/components/auth/Register.js:77-83 | Adding characters on either side never lowers the count met. |
| Register.ScoreNeverDrops | src/components/auth/Register.js:77-84 | Typing more characters, before or after, never lowers the score. |
| Register.Change | src/components/auth/Register.js:108-119 | The edited field takes the new value and every other field keeps its own. Only that field's error is cleared. A password edit shows the new password's strength, other edits leave the strength alone, so the strength on show stays that of the password in the form. |
| Register.LastEditWins | src/components/auth/Register.js:108-119 | Of two edits to one field only the later counts, and repeating an edit changes nothing. |
| Register.EditsCommute | src/components/auth/Register.js:108-119 | Edits to different fields give the same page state in either order. |
| Register.InitialStrengthCurrent | src/components/auth/Register.js:54-62 | The page starts with the strength of its empty password. |
| Register.FieldError | src/components/auth/Register.js:129-156 | Username: an error iff shorter than 3, "required" when empty. E-mail: the shared e-mail rule. Password: an error iff empty or the strength on show scores under 60, with "required" or the too-weak message. Confirmation: an error iff empty or different from the password. |
| Register.Validate | src/components/auth/Register.js:126-159 | The error map has exactly the fields whose rule fails, each with that rule's message. |
| Register.Submit | src/components/auth/Register.js:161-172 | Registration is sent exactly when the error map is empty; errors stop the submission and are shown. Otherwise the registration carries username, e-mail and password, but not the confirmation. |
| Register.SubmitsExactlyWhenValid | src/components/auth/Register.js:126-172 | With the strength current, registration is sent exactly when the username has 3 characters, the e-mail is well shaped, the password meets at least 3 requirements and the confirmation repeats it. |
| Register.WeakPasswordDisablesSubmit | src/components/auth/Register.js:141-150 | A non-empty password is rejected as too weak exactly when the submit button (line 344, `Register.SubmitEnabled`) is disabled for its strength. The message then lists every unmet requirement in declaration order, and there are at least three. |
| Register.FairPasswordIsRejected | src/components/auth/Register.js:141-150 | A password meeting exactly two requirements is labelled "Fair" yet rejected as too weak and disables the submit button (line 344): the threshold is "Good", although the comment on line 144 says "Fair" suffices. |
| Register.UnmarkedAreUnmet | src/components/auth/Register.js:145-147 | Filtering by the strength's marks gives exactly the unmet requirements, in order. |
| TaskForm.Populate | src/components/tasks/TaskForm.js:74-82 | Each field copies the task's value when present and truthy. Otherwise title and description fall back to `''`, priority to `MEDIUM`, status to `TODO`, and project to none. |
| TaskForm.Sync | src/components/tasks/TaskForm.js:72-84 | Outside edit mode, or before a task is loaded, what was typed survives. A followed task always leaves a priority and a status selected, and never a falsy project. |
| TaskForm.SyncIdempotent | src/components/tasks/TaskForm.js:72-84 | Running the effect again changes nothing. |
| TaskForm.SyncThenSubmit | src/components/tasks/TaskForm.js:72-132 | In edit mode, once a complete task is loaded, submitting without edits sends the task's own fields and project back, whatever the form held before. |
| TaskForm.PopulateKeepsCompleteTask | src/components/tasks/TaskForm.js:74-82 | A task whose title and description are present and whose priority and status are non-empty keeps those four fields in the form. |
| TaskForm.FieldError | src/components/tasks/TaskForm.js:88-98 | The title rule (required / at least 3 / under 100, in order) and the description rule. Priority, status and project never error. |
| TaskForm.Validate | src/components/tasks/TaskForm.js:86-102 | The error map has exactly the fields whose rule fails, each with that rule's message. |
| TaskForm.IsValidIffRulesHold | src/components/tasks/TaskForm.js:100-101 | The form is valid exactly when the title is not blank, its untrimmed length is 3..100, and the description has at most 500 characters. |
| TaskForm.LengthIsUntrimmed | src/components/tasks/TaskForm.js:90-94 | The length limits apply to the untrimmed title: `" x "` passes the minimum. |
| TaskForm.Change | src/components/tasks/TaskForm.js:104-112 | An edit changes only its own field and clears only that field's error. |
| TaskForm.ToPayload | src/components/tasks/TaskForm.js:128-132 | Text fields travel unchanged. The project becomes `null` exactly when none is chosen or the choice is falsy, and otherwise is the chosen id. |
| TaskForm.PopulateThenSubmit | src/components/tasks/TaskForm.js:128-132 | Loading such a task (with a truthy project id or none) and submitting it unchanged sends the task's own fields and project back. |
| TaskForm.ReturnPath | src/components/tasks/TaskForm.js:33 | The path is `state.returnTo` when present and non-empty, else `/tasks/{id}` in edit mode, else `/tasks`. |
| TaskForm.AfterSave | src/components/tasks/TaskForm.js:140-147 | A save leads to the edited or the created task's page, carrying the return path as `returnTo`. |
| TaskForm.ReturnPathSurvivesSave | src/components/tasks/TaskForm.js:33-147 | The return path a save carries along is never empty, so a task form opened with that state, in either mode, returns where this one would have. |
| TaskForm.EditModeLeadsToTaskPage | src/components/tasks/TaskForm.js:33-155 | In edit mode without a `returnTo`, cancel and save both lead to `/tasks/{id}`, the item path the API client uses for the same task. |
| ProjectForm.Populate | src/components/projects/ProjectForm.js:37-44 | Name and description are copied, with `''` standing in for missing ones. |
| ProjectForm.Sync | src/components/projects/ProjectForm.js:37-44 | Outside edit mode, or before a project is loaded, what was typed survives. A field the loaded project lacks comes out empty, never as what was typed before. |
| ProjectForm.SyncIdempotent | src/components/projects/ProjectForm.js:37-44 | Running the effect again changes nothing. |
| ProjectForm.FieldError | src/components/projects/ProjectForm.js:46-58 | The name rule (required / at least 3 / under 100, in order) and the description rule, with the project form's messages. |
| ProjectForm.Validate | src/components/projects/ProjectForm.js:46-62 | The error map has exactly the fields whose rule fails, each with that rule's message. |
| ProjectForm.IsValidIffRulesHold | src/components/projects/ProjectForm.js:60-61 | The form is valid exactly when the name is not blank, its untrimmed length is 3..100, and the description has at most 500 characters. |
| ProjectForm.LoadedProjectIsValid | src/components/projects/ProjectForm.js:37-62 | A loaded project with a proper name and description can be saved unchanged. |
| ProjectForm.SyncThenSave | src/components/projects/ProjectForm.js:37-62 | In edit mode, a loaded project with a proper name and description passes validation and is saved back exactly as loaded, whatever the form held before. |
| ProjectForm.Change | src/components/projects/ProjectForm.js:64-71 | The edited field takes the new value, the other keeps its own, and only that field's error is cleared. |
| ProjectForm.CancelTarget | src/components/projects/ProjectForm.js:94-100 | Cancel leads to `/projects/{id}` in edit mode, else to `/projects`. |
| ProjectForm.SaveTarget | src/components/projects/ProjectForm.js:82-88 | A save leads where cancel would in edit mode, else to the created project's page. |
| ProjectForm.TargetsAreProjectPages | src/components/projects/ProjectForm.js:82-100 | Save leads to the item path of the edited or the created project, and cancel in edit mode to that of the edited one; cancelling a creation leads to `/projects`. |
| StatusChip.Color | src/components/tasks/TaskStatusChip.js:5-18 | `IN_PROGRESS`, `REVIEW` and `DONE` get their colours. The grey goes exactly to `TODO` and every unknown status. |
| StatusChip.Label | src/components/tasks/TaskStatusChip.js:20-33 | The four known statuses get their labels; any other status is shown as itself. |
| StatusChip.TextColor | src/components/tasks/TaskStatusChip.js:42 | The text is dark exactly for `TODO`, and white otherwise. |
| StatusChip.Render | src/components/tasks/TaskStatusChip.js:35-47 | A known status can be read back from the chip's caption; an unknown one is its own caption, on grey, in white. The background is grey exactly for `TODO` and unknown statuses, and the text dark exactly for `TODO`. |
| StatusChip.RenderInjective | src/components/tasks/TaskStatusChip.js:35-47 | Two different statuses never render the same chip, even one spelled like the other's label (`"To Do"` against `TODO`). |
| StatusChip.KnownLabelsRoundTrip | src/components/tasks/TaskStatusChip.js:20-29 | The label of a known status determines the status. |
| StatusChip.ColoursDistinct | src/components/tasks/TaskStatusChip.js:5-17 | `IN_PROGRESS`, `REVIEW` and `DONE` get pairwise different colours. |
| StatusChip.UnknownStatusShownVerbatim | src/components/tasks/TaskStatusChip.js:30-31 | An unknown status is shown verbatim, on `TODO`'s grey, in white text. |
| PriorityChip.Color | src/components/tasks/TaskPriorityChip.js:8-19 | `LOW`, `MEDIUM` and `HIGH` get their colours, and the grey goes exactly to every other value. |
| PriorityChip.IconOf | src/components/tasks/TaskPriorityChip.js:21-32 | Down, remove and up icons for `LOW`, `MEDIUM` and `HIGH`; no icon exactly for other values. |
| PriorityChip.TextColor | src/components/tasks/TaskPriorityChip.js:42 | The text is dark exactly for `MEDIUM`, and white otherwise. |
| PriorityChip.Render | src/components/tasks/TaskPriorityChip.js:34-46 | The label is the raw priority. A known priority shows an icon that identifies it; an unknown one shows no icon, on grey, in white. The text is dark exactly for `MEDIUM`. |
| PriorityChip.IconRoundTrip | src/components/tasks/TaskPriorityChip.js:21-32 | The icon of a known priority identifies it. |
| PriorityChip.ColoursDistinct | src/components/tasks/TaskPriorityChip.js:8-19 | The three known priorities get pairwise different colours. |
| PriorityChip.RenderInjective | src/components/tasks/TaskPriorityChip.js:34-46 | Two different priorities never render the same chip. |
| ProtectedRoute.Decide | src/components/common/ProtectedRoute.js:14-31 | The spinner shows exactly while the check is incomplete or loading. The page renders exactly when the check is complete, nothing is loading and the user is signed in. Otherwise it redirects to `/login` with `from` set to the current location, replacing the history entry. |
| ProtectedRoute.AppNeverRendersProtectedPages | src/context/authContext.js:144-151 | As the provider is written, the guard shows the spinner for every auth state. |
| ProtectedRoute.CheckFlagLetsSignedInUsersThrough | src/components/common/ProtectedRoute.js:18-31 | With a completed-check flag supplied and nothing loading, a signed-in user sees the page and a signed-out visitor is redirected. |
| Http.IdText | src/api/taskService.js:8 | A numeric id interpolates as a non-empty string of digits, and a string id verbatim. |
| Http.ParseQueryRoundTrip | src/api/taskService.js:4 | The query string reads back as exactly the page and size it was built from, with defaults 0 and 10. |
| Http.QueryInjective | src/api/taskService.js:4 | Different pages or sizes give different query strings. |
| Http.IdTextNumbers | src/api/taskService.js:8 | Numeric ids interpolate to distinct texts. A string id spelling a number interpolates like that number. |
| Http.ListingListsPage | src/api/taskService.js:3-5 | A listing path starts with its collection and carries the page and size asked for, with defaults filled in. |
| Http.Item | src/api/taskService.js:7-9 | An item path is the collection, a slash, and the id's text. |
| Http.ItemIsNotListing | src/api/projectService.js:3-9 | No item path coincides with a listing path of the same collection. |
| Http.ItemPathsIdentify | src/api/taskService.js:7-9 | The item path of a numeric id determines the id. |
| Http.ItemCanSpellListing | src/api/taskService.js:7-25 | Ids are not escaped: a string id can spell out a listing below the collection. |
| TaskService.GetTasks | src/api/taskService.js:3-5 | A GET without a body; its path is read back by `TaskService.ListCallsCarryPage`. |
| TaskService.GetTaskById | src/api/taskService.js:7-9 | A GET without a body on the task's item path. |
| TaskService.CreateTask | src/api/taskService.js:11-13 | A POST to `/tasks` with the task as the body, unchanged. |
| TaskService.UpdateTask | src/api/taskService.js:15-17 | A PUT on the task's item path with the task as the body, unchanged. |
| TaskService.DeleteTask | src/api/taskService.js:19-21 | A DELETE without a body on the task's item path. |
| TaskService.GetTasksByProject | src/api/taskService.js:23-25 | A GET without a body; its path is read back by `TaskService.ListCallsCarryPage`. |
| TaskService.GetTasksByStatus | src/api/taskService.js:27-29 | A GET without a body; its path is read back by `TaskService.ListCallsCarryPage`. |
| TaskService.ListCallsCarryPage | src/api/taskService.js:3-29 | `getTasks`, `getTasksByProject` and `getTasksByStatus` are GETs without a body. Each path names its collection (with the project id or status) and carries the page and size asked for, 0 and 10 by default. |
| TaskService.ItemCallsShareThePath | src/api/taskService.js:7-21 | `getTaskById`, `updateTask` and `deleteTask` address the same path (GET, PUT with the body, DELETE), and a numeric id is recovered from it. |
| TaskService.ListingsIdentifyPage | src/api/taskService.js:3-5 | Two task-list requests with the same path ask for the same page and size. |
| TaskService.ItemIsNotTaskList | src/api/taskService.js:3-9 | The single-task path differs from the list path for every id and page. |
| TaskService.StringIdsAreNotEscaped | src/api/taskService.js:7-25 | A string task id can address a project's task listing. |
| TaskService.KnownListUrl | src/api/taskService.test.js:31 | `getTasks()` asks for `/tasks?page=0&size=10`. |
| TaskService.KnownPagedListUrl | src/api/taskService.test.js:39 | `getTasks(2, 20)` asks for `/tasks?page=2&size=20`. |
| TaskService.KnownItemUrls | src/api/taskService.test.js:63-134 | Id 1 gives GET, PUT and DELETE on `/tasks/1`. A create is a POST to `/tasks` with the task unchanged. |
| TaskService.KnownProjectUrl | src/api/taskService.test.js:151 | Project 1's tasks, default page: `/tasks/project/1?page=0&size=10`. |
| TaskService.KnownPagedProjectUrl | src/api/taskService.test.js:159 | Project 1's tasks, page 2 of 20: `/tasks/project/1?page=2&size=20`. |
| TaskService.KnownStatusUrl | src/api/taskService.test.js:176 | `IN_PROGRESS` tasks, default page: `/tasks/status/IN_PROGRESS?page=0&size=10`. |
| TaskService.KnownPagedStatusUrl | src/api/taskService.test.js:184 | `IN_PROGRESS` tasks, page 2 of 20: `/tasks/status/IN_PROGRESS?page=2&size=20`. |
| ProjectService.GetProjects | src/api/projectService.js:3-5 | A GET without a body; its path is read back by `ProjectService.ListCallCarriesPage`. |
| ProjectService.GetProjectById | src/api/projectService.js:7-9 | A GET without a body on the project's item path. |
| ProjectService.CreateProject | src/api/projectService.js:11-13 | A POST to `/projects` with the project as the body, unchanged. |
| ProjectService.UpdateProject | src/api/projectService.js:15-17 | A PUT on the project's item path with the project as the body, unchanged. |
| ProjectService.DeleteProject | src/api/projectService.js:19-21 | A DELETE without a body on the project's item path. |
| ProjectService.ListCallCarriesPage | src/api/projectService.js:3-5 | `getProjects` is a GET without a body. Its path names `/projects` and carries the page and size asked for, 0 and 10 by default. |
| ProjectService.ItemCallsShareThePath | src/api/projectService.js:7-21 | `getProjectById`, `updateProject` and `deleteProject` address the same path, which is never the list's, and a numeric id is recovered from it. |
| ProjectService.KnownUrls | src/api/projectService.js:3-21 | The default list URL is `/projects?page=0&size=10`. Id 1 gives GET, PUT (with the body) and DELETE on `/projects/1`. A create is a POST to `/projects` with the body unchanged. |

## Left out

- Sending requests and handling responses: the services return the HTTP client's response unchanged and let its failures propagate. The client is not part of this model, so the model stops at the request descriptor.
- The async action creators of the three contexts, the providers, the initial auth state read from `localStorage`, and the token check on mount: these are network and storage I/O around the reducers.
- The clock: `Date.now()` is a parameter of `Admit` and `Complete` (one per reading).
- CircuitBreaker.Call: assumes nothing else touches the record between admission and completion. Concurrent calls interleaving across the `await` are covered by `Admit` and `Complete` separately and by the invariant lemmas, not by `Call`.
- The breaker's integration with the API clients: nothing in the source routes requests through it.
- Dates: the due date of the task form (population, the date picker and `toISOString` in the payload). These are locale- and clock-dependent library calls.
- The global error clearing on edit (`clearError()` in `handleChange` of the sign-in and registration forms, and in the task and project forms' submit). The reducer action it dispatches is modelled (`ClearError` / `ClearTaskError`), but the call from the forms is not.
- ProjectForm: the effect at `src/components/projects/ProjectForm.js:29-35` is not modelled; only the state it feeds the form is. Its dependency list holds `fetchProjectById` and `clearCurrentProject`, which the provider re-creates on every render (`src/context/projectContext.js:111,179`). So after every dispatch of the project store the effect's cleanup clears the selection, and in edit mode the effect fetches the project again. Modelling it needs React's render and effect scheduling.
- TaskForm.Validate: models the error map `validate` computes; the `setFormErrors` side effect is represented by returning the map.
- TaskForm.Change: a cleared error is removed from the map, while the source stores `undefined` (`''` in the sign-in and registration forms). Every reader only tests the entry's truthiness.
- TaskStore.Reduce: page numbers and sizes are natural numbers. Negative or fractional values from the server are not modelled.
- Http.Query: renders page and size as natural numbers. It does not model `null` arguments (which render as `"null"`), negative or fractional numbers, or JavaScript's exponent notation from 1e21 up.
- JsText.Trim: strings are sequences of Unicode scalar values, while JavaScript counts UTF-16 code units, so characters outside the Basic Multilingual Plane count once here and twice there. This affects the lengths checked against 3, 100 and 500. It also affects `/.{8,}/` (`JsText.HasLine`, `src/components/auth/Register.js:28`): four such characters meet "At least 8 characters" in the source but not in the model, so `Register.CalculateStrength` can score such a password 20 points lower than the source does.
- Rendering: the JSX of the pages, the list and detail views, the layout and MUI styling beyond the chips' label, icon and colours.

## Findings

| source | as written | input that shows it | evidently intended | confidence | as-written member | corrected member |
|---|---|---|---|---|---|---|
| src/utils/circuitBreaker.js:7-13 | The registry is a plain object literal, so `!this.states[serviceId]` is false for a name it inherits from `Object.prototype` (`toString`, `constructor`, `valueOf`, `__proto__`, ...). No record is created, `serviceState` is the inherited member, its `state` is `undefined`, and a failure makes its `failures` `NaN`, which is never `>= 3`. | Three failing calls on service `"toString"`: the fourth is still invoked instead of being refused. | Every service id gets its own record and opens after three failures, as a registry without inherited keys (`Object.create(null)` or a `Map`) gives. | not executed; such ids are unlikely in practice | CircuitBreaker.ToStringNeverOpens | CircuitBreaker.ThreeFailuresOpen |
| src/components/tasks/TaskDetail.js:53 | The detail page deletes with the route parameter, a string, and `deleteTask` dispatches it as the payload (`src/context/taskContext.js:204`). The reducer filters with `task.id !== action.payload`, and a numeric id is never `===` to a string. | A store holding task `5` (a number) shown on `/tasks/5`: after the delete, task 5 is still in the list and still selected. | The delete removes the task on show and clears the selection, as deleting with the task's own id does. | not executed; the list page fetches the tasks again, which hides the stale entry | TaskStore.RouteIdDeleteKeepsNumericTasks | TaskStore.DeleteByShownIdRemovesIt |
| src/components/common/ProtectedRoute.js:15 | The guard reads `initialCheckComplete` from `useAuth()`, but the provider's value (`src/context/authContext.js:144-151`) spreads the reducer state, which has no such field, so it is always `undefined`. | Any auth state, e.g. a signed-in user with `loading` false: the guard shows the spinner. | The provider exposes a flag its token check sets when done, so a signed-in user reaches the page and a signed-out visitor is redirected. | not executed | ProtectedRoute.AppNeverRendersProtectedPages | ProtectedRoute.CheckFlagLetsSignedInUsersThrough |
