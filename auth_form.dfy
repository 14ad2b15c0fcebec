/**
 * The sign-up and log-in forms: their validation schemas, the choice between
 * them, and where a successful sign-in goes.
 */
module AuthForm {
  import opened Wrappers
  import opened Text
  import ProfileUtils

  datatype FormType = Login | Signup

  /**
   * The form values. `confirmPassword` is a rendered field of the sign-up
   * form that no schema mentions.
   */
  datatype FormValues = FormValues(
    name: string,
    email: string,
    phone: string,
    password: string,
    confirmPassword: string,
    referralCode: Option<string>,
    terms: bool)

  /** The validation messages, one per schema rule. */
  datatype Issue =
    | NameTooShort
    | InvalidEmail
    | InvalidPhone
    | PasswordTooShort
    | PasswordRequired
    | TermsNotAccepted

  /** `/^\d{10}$/`: exactly ten ASCII digits. */
  predicate IsTenDigits(s: string) {
    |s| == 10 && AllDigits(s)
  }

  /**
   * `signupSchema`: every failing rule is reported, in field order. The
   * name is not trimmed. `emailOk` stands for zod's `.email()` check.
   */
  function SignupIssues(v: FormValues, emailOk: string -> bool): (issues: seq<Issue>)
    ensures NameTooShort in issues <==> |v.name| < 3
    ensures InvalidEmail in issues <==> !emailOk(v.email)
    ensures InvalidPhone in issues <==> !IsTenDigits(v.phone)
    ensures PasswordTooShort in issues <==> |v.password| < 8
    ensures TermsNotAccepted in issues <==> !v.terms
    ensures PasswordRequired !in issues
    ensures issues == [] <==>
              (|v.name| >= 3 && emailOk(v.email) && IsTenDigits(v.phone) && |v.password| >= 8 && v.terms)
  {
    Flag(|v.name| < 3, NameTooShort) + Flag(!emailOk(v.email), InvalidEmail) +
    Flag(!IsTenDigits(v.phone), InvalidPhone) + Flag(|v.password| < 8, PasswordTooShort) +
    Flag(!v.terms, TermsNotAccepted)
  }

  /** One rule's contribution to the issues: `issue` when the rule fails. */
  function Flag(fails: bool, issue: Issue): (r: seq<Issue>)
    ensures forall e :: e in r <==> fails && e == issue
  {
    if fails then [issue] else []
  }

  /** `loginSchema`: a valid email and a non-empty password, nothing else. */
  function LoginIssues(v: FormValues, emailOk: string -> bool): (issues: seq<Issue>)
    ensures InvalidEmail in issues <==> !emailOk(v.email)
    ensures PasswordRequired in issues <==> v.password == ""
    ensures forall e :: e in issues ==> e in {InvalidEmail, PasswordRequired}
    ensures issues == [] <==> emailOk(v.email) && v.password != ""
  {
    (if !emailOk(v.email) then [InvalidEmail] else []) +
    (if v.password == "" then [PasswordRequired] else [])
  }

  /** `formSchema`: the schema is chosen by the form type alone. */
  function Issues(t: FormType, v: FormValues, emailOk: string -> bool): (issues: seq<Issue>)
    ensures t == Login ==> issues == LoginIssues(v, emailOk)
    ensures t == Signup ==> issues == SignupIssues(v, emailOk)
  {
    if t == Login then LoginIssues(v, emailOk) else SignupIssues(v, emailOk)
  }

  /** `searchParams.get('from') ?? '/'`: only a missing parameter falls back to `/`. */
  function RedirectTarget(from: Option<string>): (target: string)
    ensures from.None? ==> target == "/"
    ensures from.Some? ==> target == from.value
  {
    from.GetOr("/")
  }

  /**
   * Where the page navigates after a submit that passed validation, given
   * whether the sign-up or log-in call succeeded: a successful log-in replaces
   * the route with the redirect target, and a sign-up never navigates.
   */
  function AfterSubmit(t: FormType, succeeded: bool, from: Option<string>): (route: Option<string>)
    ensures route.Some? <==> t == Login && succeeded
    ensures route.Some? ==> route.value == RedirectTarget(from)
  {
    if t == Login && succeeded then Some(RedirectTarget(from)) else None
  }

  /**
   * Google sign-in and an already signed-in visitor both go to the redirect
   * target; a failed Google sign-in stays on the page.
   */
  function AfterGoogleSignIn(succeeded: bool, from: Option<string>): (route: Option<string>)
    ensures route.Some? <==> succeeded
    ensures route.Some? ==> route.value == RedirectTarget(from)
  {
    if succeeded then Some(RedirectTarget(from)) else None
  }

  /** An empty `from` is kept as it is: `??` only replaces a missing value. */
  lemma EmptyFromIsKept()
    ensures RedirectTarget(Some("")) == ""
  {
  }

  /** The confirmation field never affects validation: the passwords are not compared. */
  lemma ConfirmPasswordIgnored(t: FormType, v: FormValues, other: string, emailOk: string -> bool)
    ensures Issues(t, v.(confirmPassword := other), emailOk) == Issues(t, v, emailOk)
  {
  }

  /** Log-in validation reads only the email and the password. */
  lemma LoginReadsOnlyCredentials(v: FormValues, w: FormValues, emailOk: string -> bool)
    requires v.email == w.email && v.password == w.password
    ensures Issues(Login, v, emailOk) == Issues(Login, w, emailOk)
  {
  }

  /** A phone accepted at sign-up is also accepted by the profile rule. */
  lemma SignupPhoneIsProfilePhone(phone: string, dateParses: string -> bool)
    requires IsTenDigits(phone)
    ensures ProfileUtils.IsFieldFilled(ProfileUtils.Phone, ProfileUtils.Str(phone), dateParses)
  {
    DigitsTrimToThemselves(phone);
    assert ProfileUtils.IsPhoneShaped(Trim(phone));
    ProfileUtils.PhoneRule(phone, dateParses);
  }

  /** The profile rule accepts a phone of more than ten digits, which sign-up refuses. */
  lemma LongPhoneOnlyInProfile(phone: string, dateParses: string -> bool)
    requires AllDigits(phone) && |phone| > 10
    ensures !IsTenDigits(phone)
    ensures ProfileUtils.IsFieldFilled(ProfileUtils.Phone, ProfileUtils.Str(phone), dateParses)
  {
    assert ProfileUtils.IsPhoneShaped(Trim(phone)) by {
      DigitsTrimToThemselves(phone);
    }
    ProfileUtils.PhoneRule(phone, dateParses);
  }

  /** A name of three spaces passes sign-up, which does not trim, but not the profile rule. */
  lemma BlankNamePassesOnlySignup(v: FormValues, emailOk: string -> bool, dateParses: string -> bool)
    requires v.name == "   "
    ensures NameTooShort !in SignupIssues(v, emailOk)
    ensures !ProfileUtils.IsFieldFilled(ProfileUtils.Name, ProfileUtils.Str(v.name), dateParses)
  {
    ProfileUtils.BlankNameNotFilled(dateParses);
  }
}
