/** The registration form of src/components/auth/Register.js: the password
    requirements and strength meter, field validation, the submit decision
    and the enabled state of the submit button. */
module Register {
  import opened Values
  import opened JsText
  import FormRules

  // ------------------------------------------------------------------ password strength

  /** `PASSWORD_REQUIREMENTS` (lines 27-33), in declaration order. */
  datatype Requirement = Length | Lowercase | Uppercase | Number | Special

  const Requirements: seq<Requirement> := [Length, Lowercase, Uppercase, Number, Special]

  function Text(r: Requirement): string {
    match r
    case Length => "At least 8 characters"
    case Lowercase => "At least one lowercase letter"
    case Uppercase => "At least one uppercase letter"
    case Number => "At least one number"
    case Special => "At least one special character"
  }

  /** `requirement.regex.test(password)`: `/.{8,}/`, `/[a-z]+/`, `/[A-Z]+/`,
      `/[0-9]+/` and `/[^A-Za-z0-9]+/`, each a search anywhere in the
      password. */
  predicate Met(r: Requirement, password: string) {
    match r
    case Length => HasLine(password, 8)
    case Lowercase => ContainsLower(password)
    case Uppercase => ContainsUpper(password)
    case Number => ContainsDigit(password)
    case Special => ContainsSpecial(password)
  }

  /** How many of `reqs` the password meets. */
  function CountMet(reqs: seq<Requirement>, password: string): (n: nat)
    ensures n <= |reqs|
  {
    if |reqs| == 0 then 0 else (if Met(reqs[0], password) then 1 else 0) + CountMet(reqs[1..], password)
  }

  /** The requirements of `reqs` the password does not meet, in order. */
  function Unmet(reqs: seq<Requirement>, password: string): (r: seq<Requirement>)
    ensures |r| + CountMet(reqs, password) == |reqs|
    ensures forall q :: q in r <==> q in reqs && !Met(q, password)
  {
    if |reqs| == 0 then [] else (if Met(reqs[0], password) then [] else [reqs[0]]) + Unmet(reqs[1..], password)
  }

  datatype Strength = Strength(score: nat, color: string, labelText: string, requirements: map<Requirement, bool>)

  /** The strength shown before anything is typed (lines 54-62). */
  const InitialStrength: Strength := Strength(0, "error", "Very Weak", map r | r in Requirements :: false)

  lemma AllRequirementsListed()
    ensures forall q: Requirement :: q in Requirements
  {
    forall q: Requirement
      ensures q in Requirements
    {
      match q
      case Length => assert Requirements[0] == q;
      case Lowercase => assert Requirements[1] == q;
      case Uppercase => assert Requirements[2] == q;
      case Number => assert Requirements[3] == q;
      case Special => assert Requirements[4] == q;
    }
  }

  /** Colour and label for a score (lines 87-103). On the scores a password
      can reach, every 20 points climb one label; red covers the two lowest. */
  function Grade(score: nat): (g: (string, string))
    ensures score == 0 ==> g == ("error", "Very Weak")
    ensures score == 20 ==> g == ("error", "Weak")
    ensures score == 40 ==> g == ("warning", "Fair")
    ensures score == 60 ==> g == ("info", "Good")
    ensures score == 80 || score == 100 ==> g == ("success", "Strong")
    ensures g.0 == "error" <==> g.1 == "Very Weak" || g.1 == "Weak"
  {
    if score < 20 then ("error", "Very Weak")
    else if score < 40 then ("error", "Weak")
    else if score < 60 then ("warning", "Fair")
    else if score < 80 then ("info", "Good")
    else ("success", "Strong")
  }

  /** Lines 77-105: test every requirement and score the password. The
      source computes `met / 5 * 100` in floating point, which is exact for
      every count from 0 to 5. */
  function Scored(password: string): (r: Strength)
    ensures r.score == 20 * CountMet(Requirements, password) && r.score <= 100
    ensures forall q :: q in r.requirements && (r.requirements[q] <==> Met(q, password))
    ensures r.labelText == "Strong" <==> CountMet(Requirements, password) >= 4
    ensures r.score >= 60 <==> CountMet(Requirements, password) >= 3
    ensures CountMet(Requirements, password) == 0 ==> r.color == "error" && r.labelText == "Very Weak"
    ensures CountMet(Requirements, password) == 1 ==> r.color == "error" && r.labelText == "Weak"
    ensures CountMet(Requirements, password) == 2 ==> r.color == "warning" && r.labelText == "Fair"
    ensures CountMet(Requirements, password) == 3 ==> r.color == "info" && r.labelText == "Good"
    ensures CountMet(Requirements, password) >= 4 ==> r.color == "success" && r.labelText == "Strong"
  {
    var n := CountMet(Requirements, password);
    var score := n * 100 / |Requirements|;
    var (color, labelText) := Grade(score);
    AllRequirementsListed();
    Strength(score, color, labelText, map r | r in Requirements :: Met(r, password))
  }

  /** `calculatePasswordStrength` (lines 64-106). */
  function CalculateStrength(password: string): (r: Strength)
    ensures r.score == 20 * CountMet(Requirements, password) && r.score <= 100
    ensures forall q :: q in r.requirements && (r.requirements[q] <==> Met(q, password))
    ensures r.labelText == "Strong" <==> CountMet(Requirements, password) >= 4
    ensures r.score >= 60 <==> CountMet(Requirements, password) >= 3
    ensures CountMet(Requirements, password) == 0 ==> r.color == "error" && r.labelText == "Very Weak"
    ensures CountMet(Requirements, password) == 1 ==> r.color == "error" && r.labelText == "Weak"
    ensures CountMet(Requirements, password) == 2 ==> r.color == "warning" && r.labelText == "Fair"
    ensures CountMet(Requirements, password) == 3 ==> r.color == "info" && r.labelText == "Good"
    ensures CountMet(Requirements, password) >= 4 ==> r.color == "success" && r.labelText == "Strong"
    ensures password == "" ==> r == InitialStrength
  {
    if password == "" then EmptyPasswordScoresLikeAnyOther(); InitialStrength else Scored(password)
  }

  /** The early return for an empty password (lines 65-75) agrees with the
      general computation: an empty password meets no requirement. */
  lemma EmptyPasswordScoresLikeAnyOther()
    ensures Scored("") == InitialStrength
  {
  }

  lemma {:induction false} NothingMetByEmpty(reqs: seq<Requirement>)
    ensures CountMet(reqs, "") == 0
  {
    if |reqs| > 0 {
      assert !Met(reqs[0], "");
      NothingMetByEmpty(reqs[1..]);
    }
  }

  /** Each requirement is a search, so adding characters on either side of a
      password never unmeets it. */
  lemma MetIsMonotone(r: Requirement, p: string, q: string)
    requires Met(r, p)
    ensures Met(r, p + q) && Met(r, q + p)
  {
    match r
    case Length =>
      var from: nat :| from <= |p| && from + 8 <= |p| && LineAt(p, from, 8);
      assert LineAt(p + q, from, 8) by {
        forall k | from <= k < from + 8 ensures (p + q)[k] == p[k] {}
      }
      assert LineAt(q + p, |q| + from, 8) by {
        forall k | |q| + from <= k < |q| + from + 8 ensures (q + p)[k] == p[k - |q|] {}
      }
    case Lowercase =>
      var i :| 0 <= i < |p| && IsLower(p[i]);
      assert (p + q)[i] == p[i] && (q + p)[|q| + i] == p[i];
    case Uppercase =>
      var i :| 0 <= i < |p| && IsUpper(p[i]);
      assert (p + q)[i] == p[i] && (q + p)[|q| + i] == p[i];
    case Number =>
      var i :| 0 <= i < |p| && IsDigit(p[i]);
      assert (p + q)[i] == p[i] && (q + p)[|q| + i] == p[i];
    case Special =>
      var i :| 0 <= i < |p| && !IsAlphanumeric(p[i]);
      assert (p + q)[i] == p[i] && (q + p)[|q| + i] == p[i];
  }

  lemma {:induction false} CountMetIsMonotone(reqs: seq<Requirement>, p: string, q: string)
    ensures CountMet(reqs, p) <= CountMet(reqs, p + q)
    ensures CountMet(reqs, p) <= CountMet(reqs, q + p)
  {
    if |reqs| > 0 {
      if Met(reqs[0], p) {
        MetIsMonotone(reqs[0], p, q);
      }
      CountMetIsMonotone(reqs[1..], p, q);
    }
  }

  /** Typing more characters, before or after, never lowers the score. */
  lemma ScoreNeverDrops(p: string, q: string)
    ensures CalculateStrength(p).score <= CalculateStrength(p + q).score
    ensures CalculateStrength(p).score <= CalculateStrength(q + p).score
  {
    CountMetIsMonotone(Requirements, p, q);
  }

  // ------------------------------------------------------------------ the form

  datatype Field = Username | Email | Password | ConfirmPassword

  datatype Form = Form(username: string, email: string, password: string, confirmPassword: string)

  /** The page's state: the form, the field errors on show, and the strength
      last computed for the password field. */
  datatype State = State(form: Form, errors: map<Field, string>, strength: Strength)

  /** Lines 39-62. */
  const Initial: State := State(Form("", "", "", ""), map[], InitialStrength)

  /** The strength on show is the strength of the password in the form. */
  predicate StrengthCurrent(s: State) {
    s.strength == CalculateStrength(s.form.password)
  }

  /** `formData[name]`. */
  function Get(f: Form, field: Field): string {
    match field
    case Username => f.username
    case Email => f.email
    case Password => f.password
    case ConfirmPassword => f.confirmPassword
  }

  /** `handleChange` on the page state (lines 108-119): the field takes the
      value, a password edit recomputes the strength, and the field's error
      is cleared. */
  function Change(s: State, field: Field, value: string): (r: State)
    ensures Get(r.form, field) == value
    ensures forall other :: other != field ==> Get(r.form, other) == Get(s.form, other)
    ensures r.errors == s.errors - {field}
    ensures StrengthCurrent(s) ==> StrengthCurrent(r)
    ensures field == Password ==> r.strength == CalculateStrength(value)
    ensures field != Password ==> r.strength == s.strength
  {
    var f := s.form;
    var f' := match field
      case Username => f.(username := value)
      case Email => f.(email := value)
      case Password => f.(password := value)
      case ConfirmPassword => f.(confirmPassword := value);
    var strength := if field == Password then CalculateStrength(value) else s.strength;
    State(f', s.errors - {field}, strength)
  }

  /** Only the last of several edits to one field counts, and repeating an
      edit changes nothing. */
  lemma LastEditWins(s: State, field: Field, value: string, later: string)
    ensures Change(Change(s, field, value), field, later) == Change(s, field, later)
    ensures Change(Change(s, field, value), field, value) == Change(s, field, value)
  {
  }

  /** Edits to different fields commute. */
  lemma EditsCommute(s: State, a: Field, x: string, b: Field, y: string)
    requires a != b
    ensures Change(Change(s, a, x), b, y) == Change(Change(s, b, y), a, x)
  {
  }

  lemma InitialStrengthCurrent()
    ensures StrengthCurrent(Initial)
  {
  }

  /** The requirements the strength on show marks as unmet, in declaration
      order (lines 145-147); a requirement missing from the map reads as
      unmet. */
  function Missing(strength: Strength): seq<Requirement> {
    FilterUnmarked(Requirements, strength.requirements)
  }

  function FilterUnmarked(reqs: seq<Requirement>, marks: map<Requirement, bool>): seq<Requirement> {
    if |reqs| == 0 then []
    else (if reqs[0] in marks && marks[reqs[0]] then [] else [reqs[0]]) + FilterUnmarked(reqs[1..], marks)
  }

  function Texts(reqs: seq<Requirement>): seq<string> {
    if |reqs| == 0 then [] else [Text(reqs[0])] + Texts(reqs[1..])
  }

  function WeakPasswordMessage(strength: Strength): string {
    "Password is too weak. Please ensure: " + Join(Texts(Missing(strength)), ", ")
  }

  /** The rule `validateForm` applies to one field (lines 129-156), with its
      messages in the order the source tries them. The password rule reads
      the strength on show, not the password itself. */
  function FieldError(s: State, field: Field): (e: Option<string>)
    ensures field == Username ==> (e.Some? <==> |s.form.username| < 3)
    ensures field == Username && s.form.username == "" ==> e == Some("Username is required")
    ensures field == Username && s.form.username != "" && |s.form.username| < 3 ==>
      e == Some("Username must be at least 3 characters")
    ensures field == Email ==> e == FormRules.EmailRule(s.form.email)
    ensures field == Password ==> (e.Some? <==> s.form.password == "" || s.strength.score < 60)
    ensures field == Password && s.form.password == "" ==> e == Some("Password is required")
    ensures field == Password && s.form.password != "" && s.strength.score < 60 ==>
      e == Some(WeakPasswordMessage(s.strength))
    ensures field == ConfirmPassword ==>
      (e.Some? <==> s.form.confirmPassword == "" || s.form.confirmPassword != s.form.password)
    ensures field == ConfirmPassword && s.form.confirmPassword == "" ==> e == Some("Please confirm your password")
    ensures field == ConfirmPassword && s.form.confirmPassword != "" && s.form.confirmPassword != s.form.password ==>
      e == Some("Passwords do not match")
  {
    var f := s.form;
    match field
    case Username =>
      if f.username == "" then Some("Username is required")
      else if |f.username| < 3 then Some("Username must be at least 3 characters")
      else None
    case Email => FormRules.EmailRule(f.email)
    case Password =>
      if f.password == "" then Some("Password is required")
      else if s.strength.score < 60 then Some(WeakPasswordMessage(s.strength))
      else None
    case ConfirmPassword =>
      if f.confirmPassword == "" then Some("Please confirm your password")
      else if f.password != f.confirmPassword then Some("Passwords do not match")
      else None
  }

  /** `validateForm` (lines 126-159): every field's error, if it has one,
      and nothing else. */
  function Validate(s: State): (errors: map<Field, string>)
    ensures forall field :: field in errors <==> FieldError(s, field).Some?
    ensures forall field :: field in errors ==> Some(errors[field]) == FieldError(s, field)
  {
    map field | field in {Username, Email, Password, ConfirmPassword} && FieldError(s, field).Some? :: FieldError(s, field).value
  }

  /** What the registration request carries: the form without
      `confirmPassword` (line 171). */
  datatype Registration = Registration(username: string, email: string, password: string)

  datatype Submission = ShowErrors(errors: map<Field, string>) | SignUp(data: Registration)

  /** `handleSubmit` up to the register request (lines 161-172). */
  function Submit(s: State): (r: Submission)
    ensures r.SignUp? <==> |Validate(s)| == 0
    ensures r.ShowErrors? ==> r.errors == Validate(s) && |r.errors| > 0
    ensures r.SignUp? ==> r.data == Registration(s.form.username, s.form.email, s.form.password)
  {
    var errors := Validate(s);
    if |errors| > 0 then ShowErrors(errors)
    else SignUp(Registration(s.form.username, s.form.email, s.form.password))
  }

  /** While the strength on show is current, a registration is sent exactly
      when the username has three characters, the e-mail is well shaped, the
      password meets at least three requirements and the confirmation
      repeats it. */
  lemma SubmitsExactlyWhenValid(s: State)
    requires StrengthCurrent(s)
    ensures Submit(s).SignUp? <==>
      && |s.form.username| >= 3
      && EmailShaped(s.form.email)
      && s.form.password != ""
      && CountMet(Requirements, s.form.password) >= 3
      && s.form.confirmPassword == s.form.password
  {
    var e := Validate(s);
    if |e| == 0 {
      assert Username !in e && Email !in e && Password !in e && ConfirmPassword !in e;
    } else {
      var k :| k in e;
    }
  }

  /** A "Fair" password, one meeting exactly two requirements, is rejected
      as too weak and disables the submit button: the threshold of line 143
      and of the button is "Good" (60), though the comment on line 144 asks
      for "at least a Fair password strength". */
  lemma FairPasswordIsRejected(s: State)
    requires StrengthCurrent(s) && s.form.password != ""
    requires CountMet(Requirements, s.form.password) == 2
    ensures s.strength.labelText == "Fair"
    ensures Password in Validate(s) && Validate(s)[Password] == WeakPasswordMessage(s.strength)
    ensures !SubmitEnabled(false, false, s)
  {
  }

  /** The submit button (line 344). */
  predicate SubmitEnabled(loading: bool, success: bool, s: State) {
    !(loading || success || s.strength.score < 60)
  }

  /** A non-empty password is rejected as too weak exactly when the button
      is disabled for its strength; the message then lists every unmet
      requirement, in declaration order, and there are at least three. */
  lemma WeakPasswordDisablesSubmit(s: State)
    requires StrengthCurrent(s) && s.form.password != ""
    ensures Password in Validate(s) <==> !SubmitEnabled(false, false, s)
    ensures Password in Validate(s) ==>
      && Missing(s.strength) == Unmet(Requirements, s.form.password)
      && |Missing(s.strength)| >= 3
      && Validate(s)[Password] == WeakPasswordMessage(s.strength)
  {
    UnmarkedAreUnmet(Requirements, s.strength.requirements, s.form.password);
  }

  lemma {:induction false} UnmarkedAreUnmet(reqs: seq<Requirement>, marks: map<Requirement, bool>, password: string)
    requires forall q :: q in marks && (marks[q] <==> Met(q, password))
    ensures FilterUnmarked(reqs, marks) == Unmet(reqs, password)
  {
    if |reqs| > 0 {
      UnmarkedAreUnmet(reqs[1..], marks, password);
    }
  }
}
