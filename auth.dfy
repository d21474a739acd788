/**
 * The authentication and signup state of the MediBook page (app.js) as values:
 * one record per handler step, giving the new state and the toast it shows.
 * The class in module App runs the same steps imperatively and is specified by
 * these functions.
 */
module Auth {
  import opened Wrappers
  import opened JsText
  import opened JsNumber

  /** The signup record: the six fields kept by tempSignupData (confirmPassword is not kept). */
  datatype User = User(email: string, password: string, firstName: string,
                       lastName: string, phone: string, dob: string)

  /** The raw values of the seven signup inputs, as the DOM holds them (not yet trimmed). */
  datatype SignupForm = SignupForm(email: string, password: string, confirmPassword: string,
                                   firstName: string, lastName: string, phone: string, dob: string)

  /** The notifications showToast is asked to display. */
  datatype Toast =
    | FillAllFields          // "Please fill in all fields"
    | PasswordsDoNotMatch    // "Passwords do not match"
    | OtpSent(code: nat)     // "OTP sent: <code>"
    | WelcomeBack            // "Welcome back!"
    | InvalidCredentials     // "Invalid login credentials"
    | EnterOtp               // "Please enter OTP"
    | OtpVerified(firstName: string)  // "OTP verified! Welcome <firstName>"
    | InvalidOtp             // "Invalid OTP. Try again."

  /**
   * stored: the medibook_user slot of localStorage; current: currentUser;
   * pending: tempSignupData; otp: generatedOTP; otpWidget: whether the OTP
   * input and its Verify button (#otpContainer) are in the document.
   */
  datatype AppState = AppState(stored: Option<User>, current: Option<User>, pending: Option<User>,
                               otp: Option<nat>, otpWidget: bool)

  /** The state after a handler ran, with the toast it showed. */
  datatype Step = Step(state: AppState, toast: Toast)

  /** The range of Math.floor(100000 + Math.random() * 900000). */
  predicate IsOtp(n: int) {
    100000 <= n <= 999999
  }

  /**
   * The invariant the handlers keep: a pending record exists exactly while a
   * code is issued, the code is in range, and the Verify button is only shown
   * while a code is issued.
   */
  predicate Valid(s: AppState) {
    (s.pending.Some? <==> s.otp.Some?)
    && (s.otp.Some? ==> IsOtp(s.otp.value))
    && (s.otpWidget ==> s.otp.Some?)
  }

  /** Some required signup input is blank; dob is the one input read without trim. */
  predicate AnyBlank(f: SignupForm) {
    AllWhitespace(f.email) || AllWhitespace(f.password) || AllWhitespace(f.confirmPassword)
    || AllWhitespace(f.firstName) || AllWhitespace(f.lastName) || AllWhitespace(f.phone)
    || f.dob == []
  }

  // ---------------------------------------------------------------- checkAuth

  /** checkAuth: a stored record becomes the current user; otherwise nothing changes. */
  function CheckAuth(s: AppState): (r: AppState)
    ensures Valid(s) ==> Valid(r)
    ensures r == s.(current := if s.stored.Some? then s.stored else s.current)
  {
    if s.stored.Some? then s.(current := s.stored) else s
  }

  /** A fresh page (DOMContentLoaded) over the given storage slot: nothing in memory, then checkAuth. */
  function PageLoad(persisted: Option<User>): (r: AppState)
    ensures Valid(r)
    ensures r.stored == persisted && r.current == persisted
    ensures r.pending == None && r.otp == None && !r.otpWidget
  {
    CheckAuth(AppState(persisted, None, None, None, false))
  }

  /** location.reload(): memory and document are lost, the storage slot survives. */
  function Reload(s: AppState): (r: AppState)
    ensures Valid(r)
  {
    PageLoad(s.stored)
  }

  // ---------------------------------------------------------- modal and tabs

  /** closeAllModals: only the OTP input goes; the pending record and the code stay. */
  function CloseAllModals(s: AppState): (r: AppState)
    ensures Valid(s) ==> Valid(r)
    ensures !r.otpWidget
    ensures r.stored == s.stored && r.current == s.current && r.pending == s.pending && r.otp == s.otp
  {
    s.(otpWidget := false)
  }

  /**
   * switchAuthTab: the "login" branch and the other branch both remove the OTP
   * input; which form shows is document state only, so tab does not matter here.
   */
  function SwitchAuthTab(s: AppState, tab: string): (r: AppState)
    ensures Valid(s) ==> Valid(r)
    ensures !r.otpWidget
    ensures r.stored == s.stored && r.current == s.current && r.pending == s.pending && r.otp == s.otp
  {
    s.(otpWidget := false)
  }

  // ------------------------------------------------------------------- login

  /** The credential test of handleLogin against the lone stored record. */
  predicate Matches(stored: Option<User>, email: string, password: string) {
    stored.Some? && stored.value.email == email && stored.value.password == password
  }

  /** handleLogin. */
  function HandleLogin(s: AppState, emailField: string, passwordField: string): (r: Step)
    ensures Valid(s) ==> Valid(r.state)
    ensures r.state.stored == s.stored && r.state.pending == s.pending && r.state.otp == s.otp
    ensures r.toast in {FillAllFields, WelcomeBack, InvalidCredentials}
    ensures r.toast != WelcomeBack ==> r.state == s
  {
    var email := Trim(emailField);
    var password := Trim(passwordField);
    if email == [] || password == [] then
      Step(s, FillAllFields)
    else if Matches(s.stored, email, password) then
      Step(CloseAllModals(s.(current := s.stored)), WelcomeBack)
    else
      Step(s, InvalidCredentials)
  }

  /** A blank email or password is refused before the stored record is consulted. */
  lemma LoginBlankRefused(s: AppState, emailField: string, passwordField: string)
    requires AllWhitespace(emailField) || AllWhitespace(passwordField)
    ensures HandleLogin(s, emailField, passwordField) == Step(s, FillAllFields)
  {
    TrimEmptyIff(emailField);
    TrimEmptyIff(passwordField);
  }

  /**
   * Login shows "Please fill in all fields" exactly when the email or password
   * is whitespace only, and "Invalid login credentials" exactly when both are
   * filled in but do not match the stored record.
   */
  lemma LoginFailureMessages(s: AppState, emailField: string, passwordField: string)
    ensures HandleLogin(s, emailField, passwordField).toast == FillAllFields
        <==> AllWhitespace(emailField) || AllWhitespace(passwordField)
    ensures HandleLogin(s, emailField, passwordField).toast == InvalidCredentials
        <==> !AllWhitespace(emailField) && !AllWhitespace(passwordField)
             && !Matches(s.stored, Trim(emailField), Trim(passwordField))
  {
    TrimEmptyIff(emailField);
    TrimEmptyIff(passwordField);
  }

  /**
   * Login succeeds exactly when both trimmed inputs are non-empty and equal the
   * stored record's email and password; success makes the stored record current.
   */
  lemma LoginSucceedsIff(s: AppState, emailField: string, passwordField: string)
    ensures HandleLogin(s, emailField, passwordField).toast == WelcomeBack
        <==> !AllWhitespace(emailField) && !AllWhitespace(passwordField)
             && Matches(s.stored, Trim(emailField), Trim(passwordField))
    ensures HandleLogin(s, emailField, passwordField).toast == WelcomeBack
        ==> HandleLogin(s, emailField, passwordField).state == CloseAllModals(s.(current := s.stored))
  {
    TrimEmptyIff(emailField);
    TrimEmptyIff(passwordField);
  }

  // ------------------------------------------------------------------ signup

  /** The guards of handleSignupContinue, and the record it keeps when they pass. */
  function ValidateSignup(f: SignupForm): (r: Result<User, Toast>)
    ensures r.Failure? ==> r.error == FillAllFields || r.error == PasswordsDoNotMatch
    ensures r == Failure(FillAllFields) <==> AnyBlank(f)
    ensures r == Failure(PasswordsDoNotMatch) <==> !AnyBlank(f) && Trim(f.password) != Trim(f.confirmPassword)
    ensures r.Success? ==> r.value.password == Trim(f.confirmPassword)
    ensures r.Success? ==>
              && r.value.email == Trim(f.email) && r.value.password == Trim(f.password)
              && r.value.firstName == Trim(f.firstName) && r.value.lastName == Trim(f.lastName)
              && r.value.phone == Trim(f.phone) && r.value.dob == f.dob
  {
    TrimEmptyIff(f.email); TrimEmptyIff(f.password); TrimEmptyIff(f.confirmPassword);
    TrimEmptyIff(f.firstName); TrimEmptyIff(f.lastName); TrimEmptyIff(f.phone);
    var email, password, confirmPassword := Trim(f.email), Trim(f.password), Trim(f.confirmPassword);
    var firstName, lastName, phone := Trim(f.firstName), Trim(f.lastName), Trim(f.phone);
    if email == [] || password == [] || confirmPassword == [] || firstName == []
       || lastName == [] || phone == [] || f.dob == [] then
      Failure(FillAllFields)
    else if password != confirmPassword then
      Failure(PasswordsDoNotMatch)
    else
      Success(User(email, password, firstName, lastName, phone, f.dob))
  }

  /** handleSignupContinue, with code the value Math.random produced. */
  function HandleSignupContinue(s: AppState, f: SignupForm, code: nat): (r: Step)
    requires IsOtp(code)
    ensures Valid(s) ==> Valid(r.state)
    ensures r.state.stored == s.stored && r.state.current == s.current
  {
    match ValidateSignup(f)
    case Failure(t) => Step(s, t)
    case Success(u) => Step(s.(pending := Some(u), otp := Some(code), otpWidget := true), OtpSent(code))
  }

  /** Any blank field leaves the whole state as it was. */
  lemma SignupBlankRefused(s: AppState, f: SignupForm, code: nat)
    requires IsOtp(code) && AnyBlank(f)
    ensures HandleSignupContinue(s, f, code) == Step(s, FillAllFields)
  {
  }

  /** Differing password and confirmation, every field filled in, leaves the state as it was. */
  lemma SignupMismatchRefused(s: AppState, f: SignupForm, code: nat)
    requires IsOtp(code) && !AnyBlank(f) && Trim(f.password) != Trim(f.confirmPassword)
    ensures HandleSignupContinue(s, f, code) == Step(s, PasswordsDoNotMatch)
  {
  }

  /**
   * A successful continue replaces any earlier pending record and code with the
   * six trimmed fields and the new six-digit code, and shows the Verify button.
   */
  lemma SignupIssuesCode(s: AppState, f: SignupForm, code: nat)
    requires IsOtp(code) && !AnyBlank(f) && Trim(f.password) == Trim(f.confirmPassword)
    ensures var r := HandleSignupContinue(s, f, code);
      && r.toast == OtpSent(code)
      && r.state == s.(pending := Some(User(Trim(f.email), Trim(f.password), Trim(f.firstName),
                                            Trim(f.lastName), Trim(f.phone), f.dob)),
                       otp := Some(code), otpWidget := true)
      && |DecimalString(code)| == 6
  {
    SixDigits(code);
  }

  /**
   * dob is not trimmed: a dob made only of whitespace passes the blank test and
   * is kept as typed, while the same value in any other field is refused.
   */
  lemma DobIsNotTrimmed(s: AppState, f: SignupForm, code: nat)
    requires IsOtp(code) && f.dob != [] && AllWhitespace(f.dob)
    requires !AllWhitespace(f.email) && !AllWhitespace(f.password) && !AllWhitespace(f.confirmPassword)
    requires !AllWhitespace(f.firstName) && !AllWhitespace(f.lastName) && !AllWhitespace(f.phone)
    requires Trim(f.password) == Trim(f.confirmPassword)
    ensures HandleSignupContinue(s, f, code).toast == OtpSent(code)
    ensures HandleSignupContinue(s, f, code).state.pending.value.dob == f.dob
    ensures HandleSignupContinue(s, f.(firstName := f.dob), code).toast == FillAllFields
  {
    SignupIssuesCode(s, f, code);
  }

  // --------------------------------------------------------------------- OTP

  /** The comparison enteredOtp === String(generatedOTP), on the trimmed entry. */
  predicate OtpMatches(code: nat, entered: string) {
    Trim(entered) == DecimalString(code)
  }

  /** verifyOtp; only reachable through the Verify button, which exists only while a code is issued. */
  function VerifyOtp(s: AppState, entered: string): (r: Step)
    requires Valid(s) && s.otpWidget
    ensures Valid(r.state)
    ensures r.toast.OtpVerified? || r.state == s
  {
    if Trim(entered) == [] then
      Step(s, EnterOtp)
    else if OtpMatches(s.otp.value, entered) then
      var u := s.pending.value;
      Step(AppState(Some(u), Some(u), None, None, false), OtpVerified(u.firstName))
    else
      Step(s, InvalidOtp)
  }

  /**
   * An entry is accepted exactly when, trimmed, it is the canonical decimal
   * numeral of the issued code: digits only, no leading zero, denoting the code.
   */
  lemma OtpAcceptedIff(s: AppState, entered: string)
    requires Valid(s) && s.otpWidget
    ensures VerifyOtp(s, entered).toast.OtpVerified?
        <==> IsCanonical(Trim(entered)) && DigitsValue(Trim(entered)) == s.otp.value
  {
    ValueOfDecimal(s.otp.value);
    if IsCanonical(Trim(entered)) {
      DecimalOfValue(Trim(entered));
    }
  }

  /** Any accepted entry has exactly six characters once trimmed. */
  lemma AcceptedEntryHasSixDigits(s: AppState, entered: string)
    requires Valid(s) && s.otpWidget && VerifyOtp(s, entered).toast.OtpVerified?
    ensures |Trim(entered)| == 6 && IsDigits(Trim(entered))
  {
    SixDigits(s.otp.value);
  }

  /**
   * A matching entry persists the pending record, makes it current, and clears
   * the pending record, the code and the Verify button.
   */
  lemma VerifyPromotesPending(s: AppState, entered: string)
    requires Valid(s) && s.otpWidget && OtpMatches(s.otp.value, entered)
    ensures VerifyOtp(s, entered)
         == Step(AppState(s.pending, s.pending, None, None, false), OtpVerified(s.pending.value.firstName))
  {
  }

  /** The issued code's own rendering is a matching entry. */
  lemma IssuedCodeMatches(code: nat)
    ensures OtpMatches(code, DecimalString(code))
  {
    TrimOfTrimmed(DecimalString(code));
  }

  /** Entering the issued code, as String renders it, is accepted. */
  lemma IssuedCodeAccepted(s: AppState)
    requires Valid(s) && s.otpWidget
    ensures VerifyOtp(s, DecimalString(s.otp.value)).toast.OtpVerified?
  {
    IssuedCodeMatches(s.otp.value);
  }

  /**
   * A blank or wrong entry changes nothing, so the issued code can still be
   * entered afterwards and is then accepted.
   */
  lemma WrongOtpCanBeRetried(s: AppState, entered: string)
    requires Valid(s) && s.otpWidget && !OtpMatches(s.otp.value, entered)
    ensures var r := VerifyOtp(s, entered);
      && r.state == s
      && r.toast == (if Trim(entered) == [] then EnterOtp else InvalidOtp)
      && VerifyOtp(r.state, DecimalString(s.otp.value)).toast.OtpVerified?
  {
    IssuedCodeAccepted(s);
  }

  // ------------------------------------------------------------------ logout

  /** handleLogout: clear currentUser and the storage slot, then reload the page. */
  function HandleLogout(s: AppState): (r: AppState)
    ensures Valid(r)
    ensures r == PageLoad(None)
  {
    Reload(s.(current := None, stored := None))
  }

  /** After logout no credentials log in, whatever was stored before. */
  lemma NoLoginAfterLogout(s: AppState, emailField: string, passwordField: string)
    ensures HandleLogin(HandleLogout(s), emailField, passwordField).toast != WelcomeBack
  {
  }

  /** A reload keeps the stored record and restores it as the session; a pending signup is lost. */
  lemma ReloadRestoresSession(s: AppState)
    ensures Reload(s).current == s.stored && Reload(s).stored == s.stored
    ensures Reload(s).pending == None && Reload(s).otp == None
  {
  }

  // -------------------------------------------------------------- scenarios

  /**
   * Signing up and then entering the issued code persists exactly the record
   * captured at signup and makes it the current user.
   */
  lemma SignupThenVerify(s: AppState, f: SignupForm, code: nat)
    requires Valid(s) && IsOtp(code) && ValidateSignup(f).Success?
    ensures var s1 := HandleSignupContinue(s, f, code).state;
      && VerifyOtp(s1, DecimalString(code)).state
         == AppState(Some(ValidateSignup(f).value), Some(ValidateSignup(f).value), None, None, false)
  {
    var u := ValidateSignup(f).value;
    var s1 := HandleSignupContinue(s, f, code).state;
    assert s1 == s.(pending := Some(u), otp := Some(code), otpWidget := true);
    IssuedCodeMatches(code);
    VerifyPromotesPending(s1, DecimalString(code));
  }

  /** The email and password given at signup, trimmed or not, log in to the record it persisted. */
  lemma SignedUpCredentialsLogIn(s: AppState, f: SignupForm)
    requires ValidateSignup(f).Success? && s.stored == Some(ValidateSignup(f).value)
    ensures HandleLogin(s, f.email, f.password).toast == WelcomeBack
    ensures HandleLogin(s, Trim(f.email), Trim(f.password)).toast == WelcomeBack
  {
    TrimEmptyIff(f.email);
    TrimEmptyIff(f.password);
    TrimIdempotent(f.email);
    TrimIdempotent(f.password);
    LoginSucceedsIff(s, f.email, f.password);
    LoginSucceedsIff(s, Trim(f.email), Trim(f.password));
  }

  // ------------------------------------------------------------------ traces

  /** The user actions the page reacts to, each with the inputs its handler reads. */
  datatype Event =
    | CloseModal
    | ClickTab(tab: string)
    | SubmitLogin(emailField: string, passwordField: string)
    | SubmitSignup(form: SignupForm, code: nat)
    | ClickVerify(entered: string)
    | ClickLogout

  /**
   * Whether the event can happen: the Verify button exists only while the OTP
   * input is shown, and the Logout button only while a user is signed in
   * (updateUIForLoggedInUser renders it); the random code is always in range.
   */
  predicate Enabled(s: AppState, e: Event) {
    match e
    case ClickVerify(_) => s.otpWidget
    case ClickLogout => s.current.Some?
    case SubmitSignup(_, code) => IsOtp(code)
    case _ => true
  }

  /** One event: the handler runs if the event can happen, otherwise nothing does. */
  function Apply(s: AppState, e: Event): (r: AppState)
    requires Valid(s)
    ensures Valid(r)
  {
    if !Enabled(s, e) then s
    else match e
      case CloseModal => CloseAllModals(s)
      case ClickTab(tab) => SwitchAuthTab(s, tab)
      case SubmitLogin(em, pw) => HandleLogin(s, em, pw).state
      case SubmitSignup(f, code) => HandleSignupContinue(s, f, code).state
      case ClickVerify(entered) => VerifyOtp(s, entered).state
      case ClickLogout => HandleLogout(s)
  }

  /** The state after a sequence of events. */
  function Run(s: AppState, es: seq<Event>): (r: AppState)
    requires Valid(s)
  {
    if es == [] then s else Apply(Run(s, es[..|es| - 1]), es[|es| - 1])
  }

  /** Every state the page reaches keeps the invariant. */
  lemma {:induction false} RunKeepsValid(s: AppState, es: seq<Event>)
    requires Valid(s)
    ensures Valid(Run(s, es))
  {
    if es != [] {
      RunKeepsValid(s, es[..|es| - 1]);
    }
  }

  /** A record that was on storage at page load, or one some accepted signup in es captured. */
  predicate Origin(u: User, persisted: Option<User>, es: seq<Event>) {
    persisted == Some(u)
    || exists i :: 0 <= i < |es| && es[i].SubmitSignup? && IsOtp(es[i].code)
                   && ValidateSignup(es[i].form) == Success(u)
  }

  /** Every record held by the state comes from storage at load or from an accepted signup. */
  predicate Accounted(s: AppState, persisted: Option<User>, es: seq<Event>) {
    (s.stored.Some? ==> Origin(s.stored.value, persisted, es))
    && (s.current.Some? ==> Origin(s.current.value, persisted, es))
    && (s.pending.Some? ==> Origin(s.pending.value, persisted, es))
  }

  lemma OriginExtends(u: User, persisted: Option<User>, es: seq<Event>, e: Event)
    requires Origin(u, persisted, es)
    ensures Origin(u, persisted, es + [e])
  {
    if persisted != Some(u) {
      var i :| 0 <= i < |es| && es[i].SubmitSignup? && IsOtp(es[i].code)
               && ValidateSignup(es[i].form) == Success(u);
      assert (es + [e])[i] == es[i];
    }
  }

  /** One event keeps every held record accounted for. */
  lemma ApplyAccounted(s: AppState, persisted: Option<User>, es: seq<Event>, e: Event)
    requires Valid(s) && Accounted(s, persisted, es)
    ensures Accounted(Apply(s, e), persisted, es + [e])
  {
    forall u | Origin(u, persisted, es) ensures Origin(u, persisted, es + [e]) {
      OriginExtends(u, persisted, es, e);
    }
    if Enabled(s, e) {
      match e
      case SubmitSignup(f, code) =>
        var r := HandleSignupContinue(s, f, code).state;
        if ValidateSignup(f).Success? {
          assert (es + [e])[|es|] == e;
          assert Origin(r.pending.value, persisted, es + [e]);
        } else {
          assert r == s;
        }
      case SubmitLogin(em, pw) =>
        assert HandleLogin(s, em, pw).state.current in {s.current, s.stored};
      case ClickVerify(entered) =>
        var r := VerifyOtp(s, entered).state;
        assert r == s || (r.stored == s.pending && r.current == s.pending && r.pending == None);
      case _ =>
    }
  }

  /**
   * From a fresh page, the stored, current and pending records are only ever the
   * record found on storage at load or a record captured by an accepted signup:
   * nothing else is ever persisted or signed in.
   */
  lemma {:induction false} RunOnlyHoldsSignedUpRecords(persisted: Option<User>, es: seq<Event>)
    ensures Accounted(Run(PageLoad(persisted), es), persisted, es)
  {
    if es != [] {
      var front, e := es[..|es| - 1], es[|es| - 1];
      assert es == front + [e];
      RunOnlyHoldsSignedUpRecords(persisted, front);
      RunKeepsValid(PageLoad(persisted), front);
      ApplyAccounted(Run(PageLoad(persisted), front), persisted, front, e);
    }
  }
}
