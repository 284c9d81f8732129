/**
 * The registration page: the live password indicators of `handleChange`,
 * `validateNID`, `validatePassword`, and `handleSubmit`, whose checks run in
 * a fixed order, stop at the first failure and send no request on failure.
 */
module Register {
  import opened Wrappers
  import opened Fetch
  import opened Text
  import opened Regex
  import opened Patterns

  datatype RegisterForm = RegisterForm(
    name: string, nid: string, email: string, contact: string,
    password: string, confirmPassword: string)

  /** The `passwordErrors` state; despite its name, `true` means "satisfied". */
  datatype PasswordChecks = PasswordChecks(length: bool, uppercase: bool, lowercase: bool)

  datatype RegisterPage = RegisterPage(form: RegisterForm, checks: PasswordChecks, error: string)

  /** The JSON body posted to the registration API. It has no field for the
      password confirmation. */
  datatype RegisterBody = RegisterBody(
    name: string, nid: string, email: string, contact: string, password: string)

  /** What the submit handler does before any network traffic. */
  datatype SubmitCheck = Rejected(error: string) | Request(body: RegisterBody)

  /** What the submit handler ends with: the request sent (if any), the error
      shown and the navigation performed. */
  datatype SubmitOutcome = SubmitOutcome(sent: Option<RegisterBody>, error: string, redirect: Option<string>)

  const NidError := "Please enter a valid Bangladeshi NID (10, 13, or 17 digits)"
  const PasswordError := "Password must be at least 6 characters with uppercase and lowercase letters"
  const MismatchError := "Passwords do not match"
  const PhoneError := "Please enter a valid Bangladeshi phone number (e.g., 01712345678 or +8801712345678)"
  const ServerError := "Registration failed. Please try again."
  const NetworkErrorText := "Network error. Please check your connection."
  const AfterRegister := "/login?registered=true&redirect=/"

  /** `validateNID`: the anchored NID regex, which accepts exactly the
      all-digit strings of length 10, 13 or 17. */
  predicate ValidateNID(nid: string): (ok: bool)
    ensures ok <==> (|nid| == 10 || |nid| == 13 || |nid| == 17) && AllDigits(nid)
  {
    NidPatternAccepts(nid);
    Matches(NidPattern, nid)
  }

  /** `validatePassword`: at least 6 UTF-16 code units holding an upper-case
      and a lower-case ASCII letter. */
  predicate ValidatePassword(password: string): (ok: bool)
    ensures ok <==>
      JsLength(password) >= 6 &&
      (exists i :: 0 <= i < |password| && 'A' <= password[i] <= 'Z') &&
      (exists i :: 0 <= i < |password| && 'a' <= password[i] <= 'z')
  {
    FoundRange('A', 'Z', password);
    FoundRange('a', 'z', password);
    JsLength(password) >= 6 && Found(UpperCase, password) && Found(LowerCase, password)
  }

  /** The indicators `handleChange` computes for a new password value: one
      per requirement of `validatePassword`. */
  function PasswordChecksFor(value: string): (c: PasswordChecks)
    ensures c.length <==> JsLength(value) >= 6
    ensures c.uppercase <==> exists i :: 0 <= i < |value| && 'A' <= value[i] <= 'Z'
    ensures c.lowercase <==> exists i :: 0 <= i < |value| && 'a' <= value[i] <= 'z'
  {
    FoundRange('A', 'Z', value);
    FoundRange('a', 'z', value);
    PasswordChecks(JsLength(value) >= 6, Found(UpperCase, value), Found(LowerCase, value))
  }

  /** A password of two letters and two characters outside the Basic
      Multilingual Plane is six code units long, and so strong enough. */
  lemma AstralPasswordAccepted()
    ensures ValidatePassword("Aa\U{1F600}\U{1F600}")
  {
    var p := "Aa\U{1F600}\U{1F600}";
    assert JsLength(p[3..]) == 2;
    assert JsLength(p[2..]) == 4;
    assert 'A' <= p[0] <= 'Z' && 'a' <= p[1] <= 'z';
  }

  /** `handleChange`: the named field takes the new value, the indicators are
      recomputed only for the password field, and the error is cleared. */
  function HandleChange(page: RegisterPage, field: string, value: string): (r: RegisterPage)
    ensures r.error == ""
    ensures field == "name" ==> r.form == page.form.(name := value)
    ensures field == "nid" ==> r.form == page.form.(nid := value)
    ensures field == "email" ==> r.form == page.form.(email := value)
    ensures field == "contact" ==> r.form == page.form.(contact := value)
    ensures field == "password" ==> r.form == page.form.(password := value)
    ensures field == "confirmPassword" ==> r.form == page.form.(confirmPassword := value)
    ensures field !in {"name", "nid", "email", "contact", "password", "confirmPassword"} ==> r.form == page.form
    ensures r.checks == if field == "password" then PasswordChecksFor(value) else page.checks
  {
    var f := page.form;
    var form :=
      if field == "name" then f.(name := value)
      else if field == "nid" then f.(nid := value)
      else if field == "email" then f.(email := value)
      else if field == "contact" then f.(contact := value)
      else if field == "password" then f.(password := value)
      else if field == "confirmPassword" then f.(confirmPassword := value)
      else f;
    RegisterPage(form, if field == "password" then PasswordChecksFor(value) else page.checks, "")
  }

  /** After typing a password, all three indicators are lit exactly when
      `validatePassword` would accept it. */
  lemma IndicatorsAgreeWithValidation(page: RegisterPage, value: string)
    ensures var c := HandleChange(page, "password", value).checks;
      c.length && c.uppercase && c.lowercase <==> ValidatePassword(value)
  {
  }

  /** The checks of `handleSubmit`, in order: NID, password strength, password
      match, phone. The first failure is reported and nothing is sent; when all
      pass, the body carries the five fields of the form. */
  function Submit(form: RegisterForm): (r: SubmitCheck)
    ensures r == Rejected(NidError) <==> !ValidateNID(form.nid)
    ensures r == Rejected(PasswordError) <==> ValidateNID(form.nid) && !ValidatePassword(form.password)
    ensures r == Rejected(MismatchError) <==>
      ValidateNID(form.nid) && ValidatePassword(form.password) && form.password != form.confirmPassword
    ensures r == Rejected(PhoneError) <==>
      ValidateNID(form.nid) && ValidatePassword(form.password) &&
      form.password == form.confirmPassword && !Matches(PhonePattern, form.contact)
    ensures r.Request? <==>
      ValidateNID(form.nid) && ValidatePassword(form.password) &&
      form.password == form.confirmPassword && Matches(PhonePattern, form.contact)
    ensures r.Request? ==>
      r.body == RegisterBody(form.name, form.nid, form.email, form.contact, form.password)
  {
    if !ValidateNID(form.nid) then Rejected(NidError)
    else if !ValidatePassword(form.password) then Rejected(PasswordError)
    else if form.password != form.confirmPassword then Rejected(MismatchError)
    else if !Matches(PhonePattern, form.contact) then Rejected(PhoneError)
    else Request(RegisterBody(form.name, form.nid, form.email, form.contact, form.password))
  }

  /** A request that leaves the page carries a 10/13/17-digit NID, a strong
      password and an 11-character contact. */
  lemma SentRequestIsWellFormed(form: RegisterForm)
    requires Submit(form).Request?
    ensures var b := Submit(form).body;
      && (|b.nid| == 10 || |b.nid| == 13 || |b.nid| == 17) && AllDigits(b.nid)
      && JsLength(b.password) >= 6
      && (exists i :: 0 <= i < |b.password| && 'A' <= b.password[i] <= 'Z')
      && (exists i :: 0 <= i < |b.password| && 'a' <= b.password[i] <= 'z')
      && |b.contact| == 11
  {
    PhoneLength(form.contact);
  }

  /** The whole of `handleSubmit` with the server's answer as an input: a
      rejected form sends nothing; a sent form either navigates to the login
      page or shows the server's (or a generic) error. */
  function HandleSubmit(form: RegisterForm, response: Response<()>): (r: SubmitOutcome)
    ensures Submit(form).Rejected? ==> r == SubmitOutcome(None, Submit(form).error, None)
    ensures Submit(form).Request? ==> r.sent == Some(Submit(form).body)
    ensures r.redirect.Some? <==> Submit(form).Request? && response.Ok?
    ensures r.redirect.Some? ==> r.redirect.value == AfterRegister && r.error == ""
    ensures Submit(form).Request? && response.Failed? ==> r.error == OrElse(response.message, ServerError)
    ensures Submit(form).Request? && response.NetworkError? ==> r.error == NetworkErrorText
  {
    match Submit(form)
    case Rejected(e) => SubmitOutcome(None, e, None)
    case Request(body) =>
      match response
      case Ok(_) => SubmitOutcome(Some(body), "", Some(AfterRegister))
      case Failed(m) => SubmitOutcome(Some(body), OrElse(m, ServerError), None)
      case NetworkError => SubmitOutcome(Some(body), NetworkErrorText, None)
  }
}
