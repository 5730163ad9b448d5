/**
  The sign-up form (components/auth/register-form.tsx): its schema, its default values,
  the submit handler the form calls once the schema passes, and the Google button.
  `signUp`, `signInWithGoogle`, the analytics event, the toast and the router are outside
  the model: what `signUp` answers is a parameter, and the handler's effects (the
  credentials it signs up with, the event it tracks, the page it opens, the error it
  shows) are its result.
*/
module RegisterForm {
  import opened Common
  import opened Schema

  const Levels: seq<string> := ["beginner", "intermediate", "advanced"]

  const FirstNameRequired: string := "First name is required"
  const LastNameRequired: string := "Last name is required"
  const InvalidEmail: string := "Invalid email address"
  const PasswordTooShort: string := "Password must be at least 6 characters"
  const AcceptTermsRequired: string := "You must accept the terms and conditions"
  const PasswordsDiffer: string := "Passwords don't match"
  const SignUpFailedText: string := "Something went wrong. Please try again."
  const GoogleFailedText: string := "Error signing in with Google"
  const DefaultRedirect: string := "/auth/verify-email"

  /** The form's fields, as the paths of its issues. */
  datatype Field = FirstName | LastName | Email | Password | ConfirmPassword | Level | AcceptTerms

  datatype Values = Values(
    firstName: string,
    lastName: string,
    email: string,
    password: string,
    confirmPassword: string,
    level: string,
    acceptTerms: bool)

  /** The issues of the seven fields, in the schema's order: at most one per field, and
      none exactly when every field rule holds. */
  function FieldIssues(v: Values): (r: seq<Issue<Field>>)
    ensures |r| <= 7
    ensures r == [] <==> v.firstName != "" && v.lastName != "" && IsEmail(v.email) && |v.password| >= 6
                         && |v.confirmPassword| >= 6 && v.level in Levels && v.acceptTerms
  {
    Check(MinLength(v.firstName, 1), FirstName, FirstNameRequired)
    + Check(MinLength(v.lastName, 1), LastName, LastNameRequired)
    + Check(IsEmail(v.email), Email, InvalidEmail)
    + Check(MinLength(v.password, 6), Password, PasswordTooShort)
    + Check(MinLength(v.confirmPassword, 6), ConfirmPassword, PasswordTooShort)
    + Check(v.level in Levels, Level, EnumMessage(Levels, v.level))
    + Check(v.acceptTerms, AcceptTerms, AcceptTermsRequired)
  }

  /** `formSchema`: the field issues, then the object's refinement that the two
      passwords agree, reported at `confirmPassword`. A level outside the enum aborts
      the object, and the refinement does not run then. */
  function Validate(v: Values): (r: seq<Issue<Field>>)
    ensures FieldIssues(v) <= r
  {
    FieldIssues(v)
    + (if v.level in Levels then Check(v.password == v.confirmPassword, ConfirmPassword, PasswordsDiffer) else [])
  }

  /** What the schema demands, rule by rule. */
  predicate Acceptable(v: Values)
  {
    && v.firstName != ""
    && v.lastName != ""
    && IsEmail(v.email)
    && |v.password| >= 6
    && |v.confirmPassword| >= 6
    && v.level in Levels
    && v.acceptTerms
    && v.password == v.confirmPassword
  }

  /** The form passes exactly when every rule holds. */
  lemma ValidateIff(v: Values)
    ensures Validate(v) == [] <==> Acceptable(v)
  {
  }

  /** The issues of the fields, spelled out one rule at a time. */
  lemma IssuesSpelledOut(v: Values)
    ensures Validate(v) == Check(MinLength(v.firstName, 1), FirstName, FirstNameRequired)
      + Check(MinLength(v.lastName, 1), LastName, LastNameRequired)
      + Check(IsEmail(v.email), Email, InvalidEmail)
      + Check(MinLength(v.password, 6), Password, PasswordTooShort)
      + Check(MinLength(v.confirmPassword, 6), ConfirmPassword, PasswordTooShort)
      + Check(v.level in Levels, Level, EnumMessage(Levels, v.level))
      + Check(v.acceptTerms, AcceptTerms, AcceptTermsRequired)
      + (if v.level in Levels then Check(v.password == v.confirmPassword, ConfirmPassword, PasswordsDiffer) else [])
  {
  }

  /** Each name issue is there exactly when its name is empty. */
  lemma NameIssuesIff(v: Values)
    ensures Issue(FirstName, FirstNameRequired) in Validate(v) <==> v.firstName == ""
    ensures Issue(LastName, LastNameRequired) in Validate(v) <==> v.lastName == ""
  {
    FirstNameIssue(v);
    LastNameIssue(v);
  }

  lemma FirstNameIssue(v: Values)
    ensures Issue(FirstName, FirstNameRequired) in Validate(v) <==> v.firstName == ""
  {
    IssuesSpelledOut(v);
  }

  lemma LastNameIssue(v: Values)
    ensures Issue(LastName, LastNameRequired) in Validate(v) <==> v.lastName == ""
  {
    IssuesSpelledOut(v);
  }

  /** The e-mail and password issues are there exactly when their rules fail. */
  lemma CredentialIssuesIff(v: Values)
    ensures Issue(Email, InvalidEmail) in Validate(v) <==> !IsEmail(v.email)
    ensures Issue(Password, PasswordTooShort) in Validate(v) <==> |v.password| < 6
  {
    EmailIssue(v);
    PasswordIssue(v);
  }

  lemma EmailIssue(v: Values)
    ensures Issue(Email, InvalidEmail) in Validate(v) <==> !IsEmail(v.email)
  {
    IssuesSpelledOut(v);
  }

  lemma PasswordIssue(v: Values)
    ensures Issue(Password, PasswordTooShort) in Validate(v) <==> |v.password| < 6
  {
    IssuesSpelledOut(v);
  }

  /** The length rule and the agreement rule of the confirmation are reported at the
      same field and told apart by their messages. */
  lemma ConfirmationIssuesIff(v: Values)
    ensures Issue(ConfirmPassword, PasswordTooShort) in Validate(v) <==> |v.confirmPassword| < 6
    ensures Issue(ConfirmPassword, PasswordsDiffer) in Validate(v)
            <==> v.level in Levels && v.password != v.confirmPassword
  {
    assert |PasswordTooShort| != |PasswordsDiffer|;
    ConfirmLengthIssue(v);
    ConfirmMatchIssue(v);
  }

  lemma ConfirmLengthIssue(v: Values)
    requires PasswordTooShort != PasswordsDiffer
    ensures Issue(ConfirmPassword, PasswordTooShort) in Validate(v) <==> |v.confirmPassword| < 6
  {
    IssuesSpelledOut(v);
  }

  lemma ConfirmMatchIssue(v: Values)
    requires PasswordTooShort != PasswordsDiffer
    ensures Issue(ConfirmPassword, PasswordsDiffer) in Validate(v)
            <==> v.level in Levels && v.password != v.confirmPassword
  {
    IssuesSpelledOut(v);
  }

  /** The level and terms issues are there exactly when their rules fail. */
  lemma ChoiceIssuesIff(v: Values)
    ensures Issue(Level, EnumMessage(Levels, v.level)) in Validate(v) <==> v.level !in Levels
    ensures Issue(AcceptTerms, AcceptTermsRequired) in Validate(v) <==> !v.acceptTerms
  {
    LevelIssue(v);
    TermsIssue(v);
  }

  lemma LevelIssue(v: Values)
    ensures Issue(Level, EnumMessage(Levels, v.level)) in Validate(v) <==> v.level !in Levels
  {
    IssuesSpelledOut(v);
  }

  lemma TermsIssue(v: Values)
    ensures Issue(AcceptTerms, AcceptTermsRequired) in Validate(v) <==> !v.acceptTerms
  {
    IssuesSpelledOut(v);
  }

  /** Equal passwords of six characters pass the length and agreement rules together,
      and two different ones fail at `confirmPassword` even when both are long enough. */
  lemma MismatchReportedAtConfirmation(v: Values)
    requires v.level in Levels && |v.password| >= 6 && |v.confirmPassword| >= 6
    ensures v.password != v.confirmPassword
            ==> Validate(v) != [] && Validate(v)[|Validate(v)| - 1] == Issue(ConfirmPassword, PasswordsDiffer)
  {
  }

  /** `defaultValues`. */
  function Defaults(): (d: Values)
    ensures d.level == "beginner" && !d.acceptTerms
    ensures d.firstName == d.lastName == d.email == d.password == d.confirmPassword == ""
  {
    Values("", "", "", "", "", "beginner", false)
  }

  /** The untouched form does not pass: every text field and the terms box fail, the
      level does not, and the empty passwords agree. */
  lemma DefaultsInvalid()
    ensures !Acceptable(Defaults())
    ensures var r := Validate(Defaults());
      r == [Issue(FirstName, FirstNameRequired), Issue(LastName, LastNameRequired),
            Issue(Email, InvalidEmail), Issue(Password, PasswordTooShort),
            Issue(ConfirmPassword, PasswordTooShort), Issue(AcceptTerms, AcceptTermsRequired)]
  {
    EmailShape("");
    assert "beginner" in Levels;
  }

  /** What `signUp` / `signInWithGoogle` does: it returns, or it throws an error whose
      `message` may be empty. */
  datatype AuthResult = AuthOk | AuthFailed(message: string)

  /** The analytics event; `tag` is its `label`. */
  datatype Event = Event(action: string, category: string, tag: string)

  /** The effects of one handler run. */
  datatype Submission = Submission(
    signUp: Option<(string, string)>,
    tracked: Option<Event>,
    pushed: Option<string>,
    formError: Option<string>)

  /** `error.message || fallback`. */
  function ErrorText(message: string, fallback: string): (r: string)
    ensures r != "" || fallback == ""
    ensures message != "" ==> r == message
  {
    if message != "" then message else fallback
  }

  /** `onSubmit`: without the terms accepted it only shows the error; otherwise it signs
      up with the e-mail and password, then tracks the level and opens `redirectUrl`
      (default `/auth/verify-email`), or shows the failure. */
  function OnSubmit(v: Values, redirectUrl: Option<string>, signUp: AuthResult): (s: Submission)
    ensures s.signUp.Some? <==> v.acceptTerms
    ensures s.signUp.Some? ==> s.signUp.value == (v.email, v.password)
    ensures !v.acceptTerms ==> s.formError == Some(AcceptTermsRequired) && s.pushed.None?
    ensures s.pushed.Some? <==> v.acceptTerms && signUp.AuthOk?
    ensures s.pushed.Some? ==> s.pushed.value == (if redirectUrl.Some? then redirectUrl.value else DefaultRedirect)
    ensures s.formError.None? <==> s.pushed.Some?
    ensures s.tracked.Some? <==> s.pushed.Some?
    ensures s.tracked.Some? ==> s.tracked.value == Event("register", "authentication", v.level)
    ensures v.acceptTerms && signUp.AuthFailed? ==> s.formError == Some(ErrorText(signUp.message, SignUpFailedText))
  {
    if !v.acceptTerms then Submission(None, None, None, Some(AcceptTermsRequired))
    else
      match signUp
      case AuthOk =>
        Submission(Some((v.email, v.password)), Some(Event("register", "authentication", v.level)),
                   Some(if redirectUrl.Some? then redirectUrl.value else DefaultRedirect), None)
      case AuthFailed(m) =>
        Submission(Some((v.email, v.password)), None, None, Some(ErrorText(m, SignUpFailedText)))
  }

  /** `form.handleSubmit(onSubmit)`: the handler runs only on values the schema passes. */
  function HandleSubmit(v: Values, redirectUrl: Option<string>, signUp: AuthResult): (s: Option<Submission>)
    ensures s.Some? <==> Validate(v) == []
  {
    if Validate(v) == [] then Some(OnSubmit(v, redirectUrl, signUp)) else None
  }

  /** No sign-up happens without the terms accepted: the schema already refuses such
      values, and the handler's own check refuses them again. A form that passes
      signs up with its own e-mail and a password of at least six characters. */
  lemma SignUpNeedsTerms(v: Values, redirectUrl: Option<string>, signUp: AuthResult)
    ensures var s := HandleSubmit(v, redirectUrl, signUp);
      s.Some? && s.value.signUp.Some? ==> v.acceptTerms && IsEmail(s.value.signUp.value.0)
                                          && |s.value.signUp.value.1| >= 6
    ensures !v.acceptTerms ==> OnSubmit(v, redirectUrl, signUp).signUp.None?
    ensures Validate(v) == [] ==> OnSubmit(v, redirectUrl, signUp).signUp.Some?
  {
    ValidateIff(v);
  }

  /** `handleGoogleRegister`: it tracks the "google" label and opens `redirectUrl`, or
      shows the failure. */
  function GoogleRegister(redirectUrl: Option<string>, signIn: AuthResult): (s: Submission)
    ensures s.signUp.None?
    ensures s.pushed.Some? <==> signIn.AuthOk?
    ensures s.pushed.Some? ==> s.pushed == OnSubmit(Defaults().(acceptTerms := true), redirectUrl, AuthOk).pushed
    ensures s.tracked.Some? ==> s.tracked.value.tag == "google"
    ensures signIn.AuthFailed? ==> s.formError == Some(ErrorText(signIn.message, GoogleFailedText))
  {
    match signIn
    case AuthOk =>
      Submission(None, Some(Event("register", "authentication", "google")),
                 Some(if redirectUrl.Some? then redirectUrl.value else DefaultRedirect), None)
    case AuthFailed(m) => Submission(None, None, None, Some(ErrorText(m, GoogleFailedText)))
  }
}
