/** The task form of src/components/tasks/TaskForm.js: edit-mode
    population from the selected task, validation, field edits, the
    payload sent to the API, and where the form leads afterwards. The due
    date is not part of this model. */
module TaskForm {
  import opened Values
  import opened JsText
  import opened Entities
  import opened Navigation
  import FormRules
  import Http

  /** `TASK_PRIORITIES` and `TASK_STATUSES` (lines 24-25), the choices the
      selects offer. */
  const Priorities: seq<string> := ["LOW", "MEDIUM", "HIGH"]
  const Statuses: seq<string> := ["TODO", "IN_PROGRESS", "REVIEW", "DONE"]

  /** The project select holds `''` (no project) or a project's id. */
  datatype ProjectChoice = NoProject | Chosen(id: Id)

  datatype Form = Form(title: string, description: string, priority: string, status: string, projectId: ProjectChoice)

  datatype Field = Title | Description | Priority | Status | ProjectId

  /** The form before any task is loaded (lines 49-56). */
  const Blank: Form := Form("", "", "MEDIUM", "TODO", NoProject)

  /** Lines 74-82: copy the loaded task, with `''`, `MEDIUM`, `TODO` and no
      project standing in for missing or falsy fields. */
  function Populate(t: Task): (f: Form)
    ensures f.title == OrElse(t.title, "")
    ensures f.description == OrElse(t.description, "")
    ensures f.priority == OrElse(t.priority, "MEDIUM") && f.priority != ""
    ensures f.status == OrElse(t.status, "TODO") && f.status != ""
    ensures f.projectId.Chosen? <==> t.projectId.Some? && Truthy(t.projectId.value)
    ensures f.projectId.Chosen? ==> f.projectId.id == t.projectId.value
  {
    Form(
      OrElse(t.title, ""),
      OrElse(t.description, ""),
      OrElse(t.priority, "MEDIUM"),
      OrElse(t.status, "TODO"),
      if t.projectId.Some? && Truthy(t.projectId.value) then Chosen(t.projectId.value) else NoProject)
  }

  /** The effect at lines 72-84: the form follows the selected task in edit
      mode and is left alone otherwise. A followed task always leaves a
      priority and a status selected, and never a falsy project. */
  function Sync(f: Form, routeId: Option<string>, selected: Option<Task>): (r: Form)
    ensures !IsEditMode(routeId) || selected.None? ==> r == f
    ensures IsEditMode(routeId) && selected.Some? ==>
      r.priority != "" && r.status != "" && (r.projectId.Chosen? ==> Truthy(r.projectId.id))
  {
    if IsEditMode(routeId) && selected.Some? then Populate(selected.value) else f
  }

  /** Running the effect again changes nothing. */
  lemma SyncIdempotent(f: Form, routeId: Option<string>, selected: Option<Task>)
    ensures Sync(Sync(f, routeId, selected), routeId, selected) == Sync(f, routeId, selected)
  {
  }

  /** A loaded task whose fields are all present and truthy comes back
      unchanged through the form. */
  lemma PopulateKeepsCompleteTask(t: Task)
    requires t.title.Some? && t.description.Some?
    requires t.priority.Some? && t.priority.value != "" && t.status.Some? && t.status.value != ""
    ensures var f := Populate(t);
      && f.title == t.title.value && f.description == t.description.value
      && f.priority == t.priority.value && f.status == t.status.value
  {
  }

  /** The rule `validate` applies to one field, with its messages in the
      order the source tries them. */
  function FieldError(f: Form, field: Field): (e: Option<string>)
    ensures field == Title ==> (e.None? <==> !IsBlank(f.title) && 3 <= |f.title| <= 100)
    ensures field == Title && IsBlank(f.title) ==> e == Some("Title is required")
    ensures field == Title && !IsBlank(f.title) && |f.title| < 3 ==> e == Some("Title must be at least 3 characters long")
    ensures field == Title && !IsBlank(f.title) && |f.title| > 100 ==> e == Some("Title must be less than 100 characters long")
    ensures field == Description ==> (e.Some? <==> |f.description| > 500)
    ensures field == Description && e.Some? ==> e.value == "Description must be less than 500 characters long"
    ensures field != Title && field != Description ==> e.None?
  {
    match field
    case Title => FormRules.NameRule(f.title, "Title is required",
        "Title must be at least 3 characters long", "Title must be less than 100 characters long")
    case Description => FormRules.DescriptionRule(f.description)
    case _ => None
  }

  /** `validate` (lines 86-102): every field's error, if it has one. */
  function Validate(f: Form): (errors: map<Field, string>)
    ensures forall field :: field in errors <==> FieldError(f, field).Some?
    ensures forall field :: field in errors ==> Some(errors[field]) == FieldError(f, field)
  {
    map field | field in {Title, Description} && FieldError(f, field).Some? :: FieldError(f, field).value
  }

  /** `validate()`'s return value: true iff no error was recorded. */
  predicate IsValid(f: Form) {
    |Validate(f)| == 0
  }

  lemma IsValidIffRulesHold(f: Form)
    ensures IsValid(f) <==> !IsBlank(f.title) && 3 <= |f.title| <= 100 && |f.description| <= 500
  {
    var e := Validate(f);
    var n, d := FieldError(f, Title), FieldError(f, Description);
    if |e| > 0 {
      var k :| k in e;
      assert k == Title || k == Description;
    } else {
      assert Title !in e && Description !in e;
    }
  }

  /** The length limits apply to the untrimmed title: one letter between two
      spaces passes the three-character minimum. */
  lemma LengthIsUntrimmed()
    ensures Title !in Validate(Form(" x ", "", "MEDIUM", "TODO", NoProject))
  {
  }

  /** An edit of one field. */
  datatype Edit =
    | SetTitle(title: string)
    | SetDescription(description: string)
    | SetPriority(priority: string)
    | SetStatus(status: string)
    | SetProject(choice: ProjectChoice)
  {
    function Target(): Field {
      match this
      case SetTitle(_) => Title
      case SetDescription(_) => Description
      case SetPriority(_) => Priority
      case SetStatus(_) => Status
      case SetProject(_) => ProjectId
    }
  }

  /** `handleChange` (lines 104-112) on the form and the errors on show. */
  function Change(f: Form, errors: map<Field, string>, e: Edit): (r: (Form, map<Field, string>))
    ensures r.1 == errors - {e.Target()}
    ensures e.Target() != Title ==> r.0.title == f.title
    ensures e.Target() != Description ==> r.0.description == f.description
    ensures e.Target() != Priority ==> r.0.priority == f.priority
    ensures e.Target() != Status ==> r.0.status == f.status
    ensures e.Target() != ProjectId ==> r.0.projectId == f.projectId
    ensures e.SetTitle? ==> r.0.title == e.title
    ensures e.SetDescription? ==> r.0.description == e.description
    ensures e.SetPriority? ==> r.0.priority == e.priority
    ensures e.SetStatus? ==> r.0.status == e.status
    ensures e.SetProject? ==> r.0.projectId == e.choice
  {
    var f' := match e
      case SetTitle(v) => f.(title := v)
      case SetDescription(v) => f.(description := v)
      case SetPriority(v) => f.(priority := v)
      case SetStatus(v) => f.(status := v)
      case SetProject(c) => f.(projectId := c);
    (f', errors - {e.Target()})
  }

  /** The body sent to the API, without the due date (lines 128-132). */
  datatype Payload = Payload(title: string, description: string, priority: string, status: string, projectId: Option<Id>)

  /** `{ ...formData, projectId: formData.projectId || null }`: the text
      fields travel as they are and a falsy project choice becomes `null`. */
  function ToPayload(f: Form): (p: Payload)
    ensures p.title == f.title && p.description == f.description
    ensures p.priority == f.priority && p.status == f.status
    ensures p.projectId.None? <==> f.projectId.NoProject? || !Truthy(f.projectId.id)
    ensures p.projectId.Some? ==> f.projectId == Chosen(p.projectId.value)
  {
    Payload(f.title, f.description, f.priority, f.status,
      if f.projectId.Chosen? && Truthy(f.projectId.id) then Some(f.projectId.id) else None)
  }

  /** Loading a task into the form and submitting it unchanged sends the
      task's own fields back (for a task whose fields are present). */
  lemma PopulateThenSubmit(t: Task)
    requires t.title.Some? && t.description.Some?
    requires t.priority.Some? && t.priority.value != "" && t.status.Some? && t.status.value != ""
    requires t.projectId.Some? ==> Truthy(t.projectId.value)
    ensures ToPayload(Populate(t)) == Payload(t.title.value, t.description.value, t.priority.value, t.status.value, t.projectId)
  {
  }

  /** In edit mode, with a complete task loaded, submitting without further
      edits sends the task's own fields back, whatever the form held
      before the task arrived. */
  lemma SyncThenSubmit(f: Form, routeId: Option<string>, t: Task)
    requires IsEditMode(routeId)
    requires t.title.Some? && t.description.Some?
    requires t.priority.Some? && t.priority.value != "" && t.status.Some? && t.status.value != ""
    requires t.projectId.Some? ==> Truthy(t.projectId.value)
    ensures ToPayload(Sync(f, routeId, Some(t))) ==
      Payload(t.title.value, t.description.value, t.priority.value, t.status.value, t.projectId)
  {
    PopulateThenSubmit(t);
  }

  /** `returnPath` (line 33): the `returnTo` the form was opened with, else
      the task's page in edit mode, else the task list. Cancel leads there
      (line 155). */
  function ReturnPath(routeId: Option<string>, location: Location): (path: string)
    ensures ReturnTo(location).Some? && ReturnTo(location).value != "" ==> path == ReturnTo(location).value
    ensures (ReturnTo(location).None? || ReturnTo(location).value == "") && IsEditMode(routeId) ==>
      path == "/tasks/" + routeId.value
    ensures (ReturnTo(location).None? || ReturnTo(location).value == "") && !IsEditMode(routeId) ==>
      path == "/tasks"
  {
    OrElse(ReturnTo(location), if IsEditMode(routeId) then "/tasks/" + routeId.value else "/tasks")
  }

  /** After a save (lines 140, 147): the saved task's page, carrying the
      return path along so that the detail page can lead back. */
  function AfterSave(routeId: Option<string>, location: Location, savedId: string): (to: Location)
    ensures to.pathname == "/tasks/" + (if IsEditMode(routeId) then routeId.value else savedId)
    ensures ReturnTo(to) == Some(ReturnPath(routeId, location))
  {
    Location("/tasks/" + (if IsEditMode(routeId) then routeId.value else savedId), "", "",
      Some(NavState(None, Some(ReturnPath(routeId, location)))))
  }

  /** The return path a save carries along is never empty, so a form opened
      from the page the save leads to returns where this one would have,
      in whichever mode it is opened. */
  lemma ReturnPathSurvivesSave(routeId: Option<string>, location: Location, savedId: string, nextRouteId: Option<string>)
    ensures ReturnPath(nextRouteId, AfterSave(routeId, location, savedId)) == ReturnPath(routeId, location)
  {
  }

  /** Without a `returnTo`, the task pages the form leads to in edit mode,
      on cancel and on save alike, are the edited task's item path, the
      same path the API client uses for it. */
  lemma EditModeLeadsToTaskPage(id: string, location: Location, savedId: string)
    requires id != "" && (ReturnTo(location).None? || ReturnTo(location).value == "")
    ensures ReturnPath(Some(id), location) == Http.Item("/tasks", Str(id))
    ensures AfterSave(Some(id), location, savedId).pathname == Http.Item("/tasks", Str(id))
  {
  }
}
