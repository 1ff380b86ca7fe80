/** The project form of src/components/projects/ProjectForm.js: edit-mode
    population from the selected project, validation, field edits, and
    where cancel and save lead. */
module ProjectForm {
  import opened Values
  import opened JsText
  import opened Entities
  import opened Navigation
  import FormRules
  import Http

  datatype Form = Form(name: string, description: string)

  datatype Field = Name | Description

  /** The form before any project is loaded (lines 22-25). */
  const Blank: Form := Form("", "")

  /** Lines 37-44: copy name and description, `''` standing in for missing
      or empty ones. */
  function Populate(p: Project): (f: Form)
    ensures p.name.Some? ==> f.name == p.name.value
    ensures p.name.None? ==> f.name == ""
    ensures p.description.Some? ==> f.description == p.description.value
    ensures p.description.None? ==> f.description == ""
  {
    Form(OrElse(p.name, ""), OrElse(p.description, ""))
  }

  /** The effect at lines 37-44: the form follows the selected project in
      edit mode and is left alone otherwise. What a followed project lacks
      comes out empty, never as what was typed before. */
  function Sync(f: Form, routeId: Option<string>, selected: Option<Project>): (r: Form)
    ensures !IsEditMode(routeId) || selected.None? ==> r == f
    ensures IsEditMode(routeId) && selected.Some? && selected.value.name.None? ==> r.name == ""
    ensures IsEditMode(routeId) && selected.Some? && selected.value.description.None? ==> r.description == ""
  {
    if IsEditMode(routeId) && selected.Some? then Populate(selected.value) else f
  }

  /** Running the effect again changes nothing. */
  lemma SyncIdempotent(f: Form, routeId: Option<string>, selected: Option<Project>)
    ensures Sync(Sync(f, routeId, selected), routeId, selected) == Sync(f, routeId, selected)
  {
  }

  /** The rule `validate` applies to one field, with its messages in the
      order the source tries them. */
  function FieldError(f: Form, field: Field): (e: Option<string>)
    ensures field == Name ==> (e.None? <==> !IsBlank(f.name) && 3 <= |f.name| <= 100)
    ensures field == Name && IsBlank(f.name) ==> e == Some("Project name is required")
    ensures field == Name && !IsBlank(f.name) && |f.name| < 3 ==> e == Some("Name must be at least 3 characters long")
    ensures field == Name && !IsBlank(f.name) && |f.name| > 100 ==> e == Some("Name must be less than 100 characters long")
    ensures field == Description ==> (e.Some? <==> |f.description| > 500)
    ensures field == Description && e.Some? ==> e.value == "Description must be less than 500 characters long"
  {
    match field
    case Name => FormRules.NameRule(f.name, "Project name is required",
        "Name must be at least 3 characters long", "Name must be less than 100 characters long")
    case Description => FormRules.DescriptionRule(f.description)
  }

  /** `validate` (lines 46-62): every field's error, if it has one. */
  function Validate(f: Form): (errors: map<Field, string>)
    ensures forall field :: field in errors <==> FieldError(f, field).Some?
    ensures forall field :: field in errors ==> Some(errors[field]) == FieldError(f, field)
  {
    map field | field in {Name, Description} && FieldError(f, field).Some? :: FieldError(f, field).value
  }

  /** `validate()`'s return value: true iff no error was recorded. */
  predicate IsValid(f: Form) {
    |Validate(f)| == 0
  }

  lemma IsValidIffRulesHold(f: Form)
    ensures IsValid(f) <==> !IsBlank(f.name) && 3 <= |f.name| <= 100 && |f.description| <= 500
  {
    var e := Validate(f);
    var n, d := FieldError(f, Name), FieldError(f, Description);
    if |e| > 0 {
      var k :| k in e;
      assert k == Name || k == Description;
    } else {
      assert Name !in e && Description !in e;
    }
  }

  /** A project loaded for editing that carries a name of 3..100 characters
      with a visible character and a description of at most 500 characters
      can be saved unchanged. */
  lemma LoadedProjectIsValid(p: Project)
    requires p.name.Some? && !IsBlank(p.name.value) && 3 <= |p.name.value| <= 100
    requires p.description.Some? ==> |p.description.value| <= 500
    ensures IsValid(Populate(p))
  {
  }

  /** In edit mode, a loaded project with a proper name and description
      passes validation and is saved back exactly as it was loaded, whatever
      the form held before it arrived. */
  lemma SyncThenSave(f: Form, routeId: Option<string>, p: Project)
    requires IsEditMode(routeId)
    requires p.name.Some? && !IsBlank(p.name.value) && 3 <= |p.name.value| <= 100
    requires p.description.Some? ==> |p.description.value| <= 500
    ensures var r := Sync(f, routeId, Some(p));
      IsValid(r) && r.name == p.name.value && r.description == OrElse(p.description, "")
  {
    LoadedProjectIsValid(p);
  }

  /** `handleChange` (lines 64-71) on the form and the errors on show. */
  function Change(f: Form, errors: map<Field, string>, field: Field, value: string): (r: (Form, map<Field, string>))
    ensures field == Name ==> r.0 == f.(name := value)
    ensures field == Description ==> r.0 == f.(description := value)
    ensures r.1 == errors - {field}
  {
    var f' := match field case Name => f.(name := value) case Description => f.(description := value);
    (f', errors - {field})
  }

  /** `handleCancel` (lines 94-100). */
  function CancelTarget(routeId: Option<string>): (path: string)
    ensures IsEditMode(routeId) ==> path == "/projects/" + routeId.value
    ensures !IsEditMode(routeId) ==> path == "/projects"
  {
    if IsEditMode(routeId) then "/projects/" + routeId.value else "/projects"
  }

  /** Where a save leads (lines 82-88): the edited project's page, or the
      created project's page. */
  function SaveTarget(routeId: Option<string>, createdId: string): (path: string)
    ensures IsEditMode(routeId) ==> path == CancelTarget(routeId)
    ensures !IsEditMode(routeId) ==> path == "/projects/" + createdId
  {
    "/projects/" + (if IsEditMode(routeId) then routeId.value else createdId)
  }

  /** The project pages cancel and save lead to are item paths of the
      project collection, the same paths the API client uses for the edited
      or the created project; cancelling a creation leads to the collection
      itself. */
  lemma TargetsAreProjectPages(routeId: Option<string>, createdId: string)
    ensures IsEditMode(routeId) ==> CancelTarget(routeId) == Http.Item("/projects", Str(routeId.value))
    ensures SaveTarget(routeId, createdId) ==
      Http.Item("/projects", Str(if IsEditMode(routeId) then routeId.value else createdId))
    ensures !IsEditMode(routeId) ==> CancelTarget(routeId) == "/projects"
  {
  }
}
