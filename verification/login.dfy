/** The sign-in form of src/components/auth/Login.js: field validation, the
    submit decision, field edits, and where a successful sign-in leads. */
module Login {
  import opened Values
  import opened JsText
  import opened Navigation
  import FormRules
  import ProtectedRoute

  datatype Field = Email | Password

  datatype Form = Form(email: string, password: string)

  /** The form as the page first shows it (lines 26-29). */
  const Blank: Form := Form("", "")

  /** `validateForm` (lines 48-62). */
  function Validate(f: Form): (errors: map<Field, string>)
    ensures Email in errors <==> !EmailShaped(f.email)
    ensures Password in errors <==> f.password == ""
    ensures f.email == "" ==> errors[Email] == "Email is required"
    ensures f.email != "" && !EmailShaped(f.email) ==> errors[Email] == "Email address is invalid"
    ensures Password in errors ==> errors[Password] == "Password is required"
  {
    var errors := FormRules.Put(map[], Email, FormRules.EmailRule(f.email));
    if f.password == "" then errors[Password := "Password is required"] else errors
  }

  datatype Submission = ShowErrors(errors: map<Field, string>) | SignIn(credentials: Form)

  /** `handleSubmit` up to the login request (lines 64-75): errors stop the
      submission, otherwise the form is sent as it stands. */
  function Submit(f: Form): (r: Submission)
    ensures r.SignIn? <==> EmailShaped(f.email) && f.password != ""
    ensures r.SignIn? ==> r.credentials == f
    ensures r.ShowErrors? ==> r.errors == Validate(f) && |r.errors| > 0
  {
    var errors := Validate(f);
    if |errors| > 0 then ShowErrors(errors) else SignIn(f)
  }

  /** `handleChange` on the form data and the field errors (lines 33-40):
      the edited field takes the new value and its error is cleared. */
  function Change(f: Form, errors: map<Field, string>, field: Field, value: string): (r: (Form, map<Field, string>))
    ensures field == Email ==> r.0 == f.(email := value)
    ensures field == Password ==> r.0 == f.(password := value)
    ensures r.1 == errors - {field}
  {
    var f' := match field case Email => f.(email := value) case Password => f.(password := value);
    (f', errors - {field})
  }

  /** `from` (line 24): where the user was going, else the dashboard. */
  function Destination(location: Location): (to: string)
    ensures FromPathname(location).Some? && FromPathname(location).value != "" ==> to == FromPathname(location).value
    ensures (FromPathname(location).None? || FromPathname(location).value == "") ==> to == "/dashboard"
  {
    OrElse(FromPathname(location), "/dashboard")
  }

  /** The guard and the sign-in page together: a visitor the guard sends to
      the login page is taken back, after signing in, to the page they
      asked for. */
  lemma SignInReturnsToGuardedPage(location: Location)
    requires location.pathname != ""
    ensures var d := ProtectedRoute.Decide(true, false, false, location);
      d.Redirect? && Destination(ProtectedRoute.LoginLocation(d)) == location.pathname
  {
  }
}
