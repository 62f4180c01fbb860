/**
 The registration form (RegisterForm.jsx): four independent field checks and a
 submit that succeeds exactly when none of them reports an error. Lengths are
 counted in characters (JavaScript counts UTF-16 code units).
 */
module RegisterForm {
  import EmailPattern

  datatype Field = Username | Email | Password | ConfirmPassword

  datatype Form = Form(username: string, email: string, password: string, confirmPassword: string)

  /** `useState({ username: '', email: '', password: '', confirmPassword: '' })`. */
  const EmptyForm: Form := Form("", "", "", "")

  const UsernameMessage: string := "Username must be at least 3 characters long"
  const EmailMessage: string := "Please enter a valid email address"
  const PasswordMessage: string := "Password must be at least 8 characters long and include uppercase, lowercase, and a number"
  const ConfirmMessage: string := "Passwords do not match"

  function Message(field: Field): string
  {
    match field
    case Username => UsernameMessage
    case Email => EmailMessage
    case Password => PasswordMessage
    case ConfirmPassword => ConfirmMessage
  }

  // ------------------------------------------------------ password pattern

  predicate IsLower(c: char) { 'a' <= c <= 'z' }
  predicate IsUpper(c: char) { 'A' <= c <= 'Z' }
  /** `\d` without the unicode flag: ASCII digits only. */
  predicate IsDigit(c: char) { '0' <= c <= '9' }
  /** `[a-zA-Z\d]`. */
  predicate IsAlnum(c: char) { IsLower(c) || IsUpper(c) || IsDigit(c) }

  /** The characters `.` does not match. */
  predicate IsLineTerminator(c: char)
  {
    c == '\n' || c == '\r' || c == '\U{2028}' || c == '\U{2029}'
  }

  datatype Class = LowerClass | UpperClass | DigitClass

  predicate InClass(c: char, cls: Class)
  {
    match cls
    case LowerClass => IsLower(c)
    case UpperClass => IsUpper(c)
    case DigitClass => IsDigit(c)
  }

  /** `(?=.*[class])` at the start: a character of the class after a run that contains no line terminator. */
  ghost predicate Lookahead(p: string, cls: Class)
  {
    exists k :: 0 <= k < |p| && InClass(p[k], cls) && forall m :: 0 <= m < k ==> !IsLineTerminator(p[m])
  }

  /** `/^(?=.*[a-z])(?=.*[A-Z])(?=.*\d)[a-zA-Z\d]{8,}$/`, read as the regular expression reads. */
  ghost predicate PasswordRegex(p: string)
  {
    && Lookahead(p, LowerClass) && Lookahead(p, UpperClass) && Lookahead(p, DigitClass)
    && |p| >= 8 && forall k :: 0 <= k < |p| ==> IsAlnum(p[k])
  }

  /** The rule in plain words: at least 8 ASCII letters or digits, with a lower-case
      letter, an upper-case letter and a digit among them. */
  ghost predicate PasswordRule(p: string)
  {
    && |p| >= 8 && (forall k :: 0 <= k < |p| ==> IsAlnum(p[k]))
    && (exists k :: 0 <= k < |p| && IsLower(p[k]))
    && (exists k :: 0 <= k < |p| && IsUpper(p[k]))
    && (exists k :: 0 <= k < |p| && IsDigit(p[k]))
  }

  /** On an all-alphanumeric string the lookaheads reduce to plain existence. */
  lemma RegexIsRule(p: string)
    ensures PasswordRegex(p) <==> PasswordRule(p)
  {
    if PasswordRule(p) {
      var l :| 0 <= l < |p| && IsLower(p[l]);
      var u :| 0 <= u < |p| && IsUpper(p[u]);
      var d :| 0 <= d < |p| && IsDigit(p[d]);
      assert InClass(p[l], LowerClass) && InClass(p[u], UpperClass) && InClass(p[d], DigitClass);
    }
    if PasswordRegex(p) {
      var l :| 0 <= l < |p| && InClass(p[l], LowerClass) && forall m :: 0 <= m < l ==> !IsLineTerminator(p[m]);
      var u :| 0 <= u < |p| && InClass(p[u], UpperClass) && forall m :: 0 <= m < u ==> !IsLineTerminator(p[m]);
      var d :| 0 <= d < |p| && InClass(p[d], DigitClass) && forall m :: 0 <= m < d ==> !IsLineTerminator(p[m]);
      assert IsLower(p[l]) && IsUpper(p[u]) && IsDigit(p[d]);
    }
  }

  /** What a scan of the password has seen so far. */
  datatype Seen = Seen(allAlnum: bool, lower: bool, upper: bool, digit: bool)

  function SeenTo(p: string, n: nat): (r: Seen)
    requires n <= |p|
    ensures r.allAlnum <==> forall k :: 0 <= k < n ==> IsAlnum(p[k])
    ensures r.lower <==> exists k :: 0 <= k < n && IsLower(p[k])
    ensures r.upper <==> exists k :: 0 <= k < n && IsUpper(p[k])
    ensures r.digit <==> exists k :: 0 <= k < n && IsDigit(p[k])
  {
    if n == 0 then Seen(true, false, false, false)
    else
      var prev := SeenTo(p, n - 1);
      var c := p[n - 1];
      Seen(prev.allAlnum && IsAlnum(c), prev.lower || IsLower(c), prev.upper || IsUpper(c), prev.digit || IsDigit(c))
  }

  /** The password test, decided in one pass. */
  function PasswordMatches(p: string): (b: bool)
    ensures b <==> PasswordRegex(p)
    ensures b <==> PasswordRule(p)
  {
    RegexIsRule(p);
    var seen := SeenTo(p, |p|);
    |p| >= 8 && seen.allAlnum && seen.lower && seen.upper && seen.digit
  }

  // ------------------------------------------------------------- validate

  /** `validate()`: the error map, one entry per failing field with its message. */
  function Validate(form: Form): (errors: map<Field, string>)
    ensures Username in errors <==> |form.username| < 3
    ensures Email in errors <==> !EmailPattern.ContainsMatch(form.email)
    ensures Password in errors <==> !PasswordRule(form.password)
    ensures ConfirmPassword in errors <==> form.password != form.confirmPassword
    ensures forall f :: f in errors ==> errors[f] == Message(f)
  {
    var e0: map<Field, string> := map[];
    var e1 := if |form.username| < 3 then e0[Username := UsernameMessage] else e0;
    var e2 := if !EmailPattern.Matches(form.email) then e1[Email := EmailMessage] else e1;
    var e3 := if !PasswordMatches(form.password) then e2[Password := PasswordMessage] else e2;
    if form.password != form.confirmPassword then e3[ConfirmPassword := ConfirmMessage] else e3
  }

  /** Each error entry depends only on its own field (the confirmation on both passwords). */
  lemma ErrorsDependOnOwnFields(a: Form, b: Form)
    ensures a.username == b.username ==> (Username in Validate(a) <==> Username in Validate(b))
    ensures a.email == b.email ==> (Email in Validate(a) <==> Email in Validate(b))
    ensures a.password == b.password ==> (Password in Validate(a) <==> Password in Validate(b))
    ensures a.password == b.password && a.confirmPassword == b.confirmPassword ==>
      (ConfirmPassword in Validate(a) <==> ConfirmPassword in Validate(b))
  {
  }

  /** The value of one field. */
  function Get(form: Form, field: Field): string
  {
    match field
    case Username => form.username
    case Email => form.email
    case Password => form.password
    case ConfirmPassword => form.confirmPassword
  }

  /** `handleChange`: `{ ...formData, [name]: value }` sets the named field and keeps the others. */
  function HandleChange(form: Form, field: Field, value: string): (r: Form)
    ensures Get(r, field) == value
    ensures forall f :: f != field ==> Get(r, f) == Get(form, f)
  {
    match field
    case Username => form.(username := value)
    case Email => form.(email := value)
    case Password => form.(password := value)
    case ConfirmPassword => form.(confirmPassword := value)
  }

  /** Editing the username or the email leaves every other field's error as it was. */
  lemma EditingLeavesOtherErrors(form: Form, field: Field, value: string, other: Field)
    requires field == Username || field == Email
    requires other != field
    ensures other in Validate(HandleChange(form, field, value)) <==> other in Validate(form)
  {
  }

  /** The state after a submit: the errors shown and whether the success view appears. */
  datatype Submitted = Submitted(errors: map<Field, string>, submitted: bool)

  /** `handleSubmit`: show the errors; succeed exactly when there are none. */
  function HandleSubmit(form: Form): (r: Submitted)
    ensures r.errors == Validate(form)
    ensures r.submitted <==> |r.errors| == 0
  {
    var errors := Validate(form);
    assert |errors| == 0 <==> errors.Keys == {} by {
      if errors.Keys != {} {
        var f :| f in errors.Keys;
        assert |errors.Keys| >= 1;
      }
    }
    Submitted(errors, |errors| == 0)
  }

  /** A submit succeeds exactly when all four field checks pass. */
  lemma SubmitSucceedsExactly(form: Form)
    ensures HandleSubmit(form).submitted <==>
      |form.username| >= 3 && EmailPattern.ContainsMatch(form.email)
      && PasswordRule(form.password) && form.password == form.confirmPassword
  {
  }

  /** The untouched form fails on username, email and password, but not on the
      confirmation, since both passwords are empty. */
  lemma EmptyFormErrors()
    ensures Validate(EmptyForm).Keys == {Username, Email, Password}
  {
    var e := Validate(EmptyForm);
    assert !EmailPattern.Matches("");
    assert !PasswordRule("");
  }
}
