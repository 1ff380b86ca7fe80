/** Field rules shared by the forms: the e-mail rule of the login and
    registration forms, and the required / length rules of the task and
    project forms. Each rule yields the field's error message, if any. */
module FormRules {
  import opened Values
  import opened JsText

  const MinNameLength: nat := 3
  const MaxNameLength: nat := 100
  const MaxDescriptionLength: nat := 500

  /** Records `error` under `field` when there is one. */
  function Put<F>(errors: map<F, string>, field: F, error: Option<string>): map<F, string> {
    if error.Some? then errors[field := error.value] else errors
  }

  /** src/components/auth/Login.js:51-55 and src/components/auth/Register.js:135-139:
      required, then `/\S+@\S+\.\S+/` somewhere in the value. */
  function EmailRule(email: string): (r: Option<string>)
    ensures r == None <==> EmailShaped(email)
    ensures email == "" ==> r == Some("Email is required")
    ensures email != "" && !EmailShaped(email) ==> r == Some("Email address is invalid")
  {
    if email == "" then Some("Email is required")
    else if !EmailShaped(email) then Some("Email address is invalid")
    else None
  }

  /** The title rule of the task form and the name rule of the project form:
      a value that trims to nothing is missing; otherwise its UNTRIMMED
      length must lie in 3..100. */
  function NameRule(value: string, missing: string, tooShort: string, tooLong: string): (r: Option<string>)
    ensures r == None <==> !IsBlank(value) && MinNameLength <= |value| <= MaxNameLength
    ensures IsBlank(value) ==> r == Some(missing)
    ensures !IsBlank(value) && |value| < MinNameLength ==> r == Some(tooShort)
    ensures !IsBlank(value) && |value| > MaxNameLength ==> r == Some(tooLong)
  {
    TrimEmptyIffBlank(value);
    if Trim(value) == "" then Some(missing)
    else if |value| < MinNameLength then Some(tooShort)
    else if |value| > MaxNameLength then Some(tooLong)
    else None
  }

  /** `description && description.length > 500`. */
  function DescriptionRule(description: string): (r: Option<string>)
    ensures r.Some? <==> |description| > MaxDescriptionLength
    ensures r.Some? ==> r.value == "Description must be less than 500 characters long"
  {
    if description != "" && |description| > MaxDescriptionLength
    then Some("Description must be less than 500 characters long")
    else None
  }
}
