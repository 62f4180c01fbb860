/**
 The login form (LoginForm.jsx): a field reports "required" only once it has
 been touched (blurred, or the form submitted) and is empty; a submit touches
 both fields and attempts the login only when no error is reported. The login
 call is an input: whether it succeeded, or the server's error text.
 */
module LoginForm {
  import opened Wrappers

  datatype Field = Username | Password

  datatype Form = Form(username: string, password: string)

  /** Which fields have been touched; `useState({})` starts with none. */
  datatype Touched = Touched(username: bool, password: bool)

  const UsernameRequired: string := "Username is required"
  const PasswordRequired: string := "Password is required"
  const LoginFailed: string := "Login failed. Please check your credentials."

  /** The form's state: the fields, the touched flags, the errors shown and the submit error. */
  datatype State = State(form: Form, touched: Touched, errors: map<Field, string>, submitError: string)

  const Initial: State := State(Form("", ""), Touched(false, false), map[], "")

  /** `validate()`: an error for each touched field whose value is empty (an empty string is falsy). */
  function Validate(form: Form, touched: Touched): (errors: map<Field, string>)
    ensures Username in errors <==> touched.username && form.username == ""
    ensures Password in errors <==> touched.password && form.password == ""
    ensures Username in errors ==> errors[Username] == UsernameRequired
    ensures Password in errors ==> errors[Password] == PasswordRequired
  {
    var e0: map<Field, string> := map[];
    var e1 := if touched.username && form.username == "" then e0[Username := UsernameRequired] else e0;
    if touched.password && form.password == "" then e1[Password := PasswordRequired] else e1
  }

  /** An untouched field never reports an error, whatever it holds. */
  lemma UntouchedFieldsAreQuiet(form: Form, touched: Touched)
    ensures !touched.username ==> Username !in Validate(form, touched)
    ensures !touched.password ==> Password !in Validate(form, touched)
    ensures !touched.username && !touched.password ==> Validate(form, touched) == map[]
  {
  }

  function IsTouched(touched: Touched, field: Field): bool
  {
    match field
    case Username => touched.username
    case Password => touched.password
  }

  /** `handleBlur`: mark the blurred field touched, keep the other flag. */
  function HandleBlur(s: State, field: Field): (r: State)
    ensures IsTouched(r.touched, field)
    ensures forall f :: f != field ==> IsTouched(r.touched, f) == IsTouched(s.touched, f)
    ensures r.form == s.form && r.errors == s.errors && r.submitError == s.submitError
  {
    match field
    case Username => s.(touched := s.touched.(username := true))
    case Password => s.(touched := s.touched.(password := true))
  }

  /** `handleChange`: set the edited field and clear the submit error. */
  function HandleChange(s: State, field: Field, value: string): (r: State)
    ensures r.submitError == ""
    ensures field == Username ==> r.form.username == value && r.form.password == s.form.password
    ensures field == Password ==> r.form.password == value && r.form.username == s.form.username
    ensures r.touched == s.touched && r.errors == s.errors
  {
    match field
    case Username => s.(form := s.form.(username := value), submitError := "")
    case Password => s.(form := s.form.(password := value), submitError := "")
  }

  /** How the login call ended. */
  datatype LoginOutcome = LoggedIn | Failed(serverError: Option<string>)

  /** What a submit did: the new state, whether login was attempted, and whether the page navigated home. */
  datatype SubmitResult = SubmitResult(state: State, attempted: bool, navigatedHome: bool)

  /** The state after a failed login: the server's error, or the fallback when it is missing or empty. */
  function FailureMessage(e: Option<string>): (m: string)
    ensures m != ""
    ensures e.Some? && e.value != "" ==> m == e.value
    ensures e.None? || e == Some("") ==> m == LoginFailed
  {
    if e.Some? && e.value != "" then e.value else LoginFailed
  }

  /** The rest of a submit once the errors are known: attempt the login only when there are none. */
  function Finish(s: State, errors: map<Field, string>, outcome: LoginOutcome): (r: SubmitResult)
    ensures r.state == s.(touched := Touched(true, true), errors := errors, submitError := r.state.submitError)
    ensures r.attempted <==> |errors| == 0
    ensures r.navigatedHome <==> r.attempted && outcome.LoggedIn?
    ensures r.attempted && outcome.Failed? ==> r.state.submitError == FailureMessage(outcome.serverError)
    ensures !(r.attempted && outcome.Failed?) ==> r.state.submitError == s.submitError
  {
    var next := s.(touched := Touched(true, true), errors := errors);
    if |errors| == 0 then
      match outcome
      case LoggedIn => SubmitResult(next, true, true)
      case Failed(e) => SubmitResult(next.(submitError := FailureMessage(e)), true, false)
    else SubmitResult(next, false, false)
  }

  /** A map over the two fields is empty exactly when neither field is a key. */
  lemma EmptyErrors(errors: map<Field, string>)
    ensures |errors| == 0 <==> Username !in errors && Password !in errors
  {
    if Username in errors || Password in errors {
      assert errors.Keys != {};
      assert |errors.Keys| >= 1;
    } else {
      assert forall f :: f in errors.Keys ==> f == Username || f == Password;
      assert errors.Keys == {};
    }
  }

  /** `handleSubmit` as written: `setTouched` only takes effect at the next render,
      so `validate()` still sees the flags from before the submit. A field that was
      never blurred reports no error, and the login is attempted with it empty. */
  function HandleSubmitAsWritten(s: State, outcome: LoginOutcome): (r: SubmitResult)
    ensures r.state.touched == Touched(true, true)
    ensures r.state.errors == Validate(s.form, s.touched)
    ensures r.attempted <==>
      (!s.touched.username || s.form.username != "") && (!s.touched.password || s.form.password != "")
    ensures r.navigatedHome <==> r.attempted && outcome.LoggedIn?
    ensures r.attempted && outcome.Failed? ==> r.state.submitError == FailureMessage(outcome.serverError)
    ensures !(r.attempted && outcome.Failed?) ==> r.state.submitError == s.submitError
    ensures r.state.form == s.form
  {
    var errors := Validate(s.form, s.touched);
    EmptyErrors(errors);
    Finish(s, errors, outcome)
  }

  /** The first submit of the untouched form sends empty credentials and, if the
      server accepts them, navigates home without ever showing "required". */
  lemma UntouchedSubmitSendsEmptyCredentials()
    ensures var r := HandleSubmitAsWritten(Initial, LoggedIn);
      r.attempted && r.navigatedHome && r.state.errors == map[]
      && r.state.form.username == "" && r.state.form.password == ""
  {
    assert Validate(Initial.form, Initial.touched) == map[];
  }

  /** `handleSubmit` as evidently intended: validate with both fields touched, so
      the login is attempted exactly when both fields are filled in. */
  function HandleSubmit(s: State, outcome: LoginOutcome): (r: SubmitResult)
    ensures r.state.touched == Touched(true, true)
    ensures r.attempted <==> s.form.username != "" && s.form.password != ""
    ensures r.state.errors == Validate(s.form, Touched(true, true))
    ensures r.navigatedHome <==> r.attempted && outcome.LoggedIn?
    ensures r.attempted && outcome.Failed? ==> r.state.submitError == FailureMessage(outcome.serverError)
    ensures r.attempted && outcome.Failed? ==> r.state.submitError != ""
    ensures !(r.attempted && outcome.Failed?) ==> r.state.submitError == s.submitError
    ensures r.state.form == s.form
  {
    var errors := Validate(s.form, Touched(true, true));
    EmptyErrors(errors);
    Finish(s, errors, outcome)
  }

  /** Once both fields have been blurred, the code as written and the intended submit agree. */
  lemma AsWrittenAgreesOnceTouched(s: State, outcome: LoginOutcome)
    requires s.touched == Touched(true, true)
    ensures HandleSubmitAsWritten(s, outcome) == HandleSubmit(s, outcome)
  {
  }

  /** Editing after a failed login clears the error banner. */
  lemma EditClearsFailure(s: State, field: Field, value: string, e: Option<string>)
    requires s.form.username != "" && s.form.password != ""
    ensures HandleSubmit(s, Failed(e)).state.submitError != ""
    ensures HandleChange(HandleSubmit(s, Failed(e)).state, field, value).submitError == ""
  {
  }
}
