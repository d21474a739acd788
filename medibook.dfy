/**
 * The page script itself: the module-level variables of app.js and the
 * localStorage slot as fields of one object, and each handler as a method that
 * updates them in place. Each handler method and Reload is specified by the
 * step function of the same name in module Auth, the constructor Load by
 * Auth.PageLoad; RemoveOtpInput and ShowOtpInput state their effect directly.
 */
module App {
  import opened Wrappers
  import opened JsText
  import opened JsNumber
  import opened Auth

  class MediBook {
    /** localStorage['medibook_user'], abstracted from its JSON text to the record. */
    var savedUser: Option<User>
    var currentUser: Option<User>
    var tempSignupData: Option<User>
    var generatedOtp: Option<nat>
    /** Whether #otpContainer (the OTP input and its Verify button) is in the document. */
    var otpWidget: bool

    function State(): AppState
      reads this
    {
      AppState(savedUser, currentUser, tempSignupData, generatedOtp, otpWidget)
    }

    predicate Valid()
      reads this
    {
      Auth.Valid(State())
    }

    /** DOMContentLoaded on a page whose storage slot holds persisted. */
    constructor Load(persisted: Option<User>)
      ensures Valid()
      ensures State() == PageLoad(persisted)
    {
      savedUser := persisted;
      currentUser := None;
      tempSignupData := None;
      generatedOtp := None;
      otpWidget := false;
      new;
      CheckAuth();
    }

    method CheckAuth()
      requires Valid()
      modifies this
      ensures Valid()
      ensures State() == Auth.CheckAuth(old(State()))
    {
      if savedUser.Some? {
        currentUser := savedUser;
      }
    }

    method RemoveOtpInput()
      requires Valid()
      modifies this
      ensures Valid()
      ensures State() == old(State()).(otpWidget := false)
    {
      otpWidget := false;
    }

    method CloseAllModals()
      requires Valid()
      modifies this
      ensures Valid()
      ensures State() == Auth.CloseAllModals(old(State()))
    {
      RemoveOtpInput();
    }

    method SwitchAuthTab(tab: string)
      requires Valid()
      modifies this
      ensures Valid()
      ensures State() == Auth.SwitchAuthTab(old(State()), tab)
    {
      if tab == "login" {
        RemoveOtpInput();
      } else {
        RemoveOtpInput();
      }
    }

    method HandleLogin(emailField: string, passwordField: string) returns (toast: Toast)
      requires Valid()
      modifies this
      ensures Valid()
      ensures Step(State(), toast) == Auth.HandleLogin(old(State()), emailField, passwordField)
    {
      var email := Trim(emailField);
      var password := Trim(passwordField);
      if email == [] || password == [] {
        return FillAllFields;
      }
      var saved := savedUser;
      if saved.Some? && saved.value.email == email && saved.value.password == password {
        currentUser := saved;
        CloseAllModals();
        toast := WelcomeBack;
      } else {
        toast := InvalidCredentials;
      }
    }

    /** handleSignupContinue; code is what Math.floor(100000 + Math.random() * 900000) yielded. */
    method HandleSignupContinue(form: SignupForm, code: nat) returns (toast: Toast)
      requires Valid() && IsOtp(code)
      modifies this
      ensures Valid()
      ensures Step(State(), toast) == Auth.HandleSignupContinue(old(State()), form, code)
    {
      var email := Trim(form.email);
      var password := Trim(form.password);
      var confirmPassword := Trim(form.confirmPassword);
      var firstName := Trim(form.firstName);
      var lastName := Trim(form.lastName);
      var phone := Trim(form.phone);
      var dob := form.dob;
      if email == [] || password == [] || confirmPassword == [] || firstName == []
         || lastName == [] || phone == [] || dob == [] {
        return FillAllFields;
      }
      if password != confirmPassword {
        return PasswordsDoNotMatch;
      }
      tempSignupData := Some(User(email, password, firstName, lastName, phone, dob));
      generatedOtp := Some(code);
      toast := OtpSent(code);
      ShowOtpInput();
    }

    /** Replaces any OTP input by a fresh one; only called once a code is issued. */
    method ShowOtpInput()
      requires Valid() && generatedOtp.Some?
      modifies this
      ensures Valid()
      ensures State() == old(State()).(otpWidget := true)
    {
      RemoveOtpInput();
      otpWidget := true;
    }

    /** verifyOtp, run by the Verify button, which exists only while the OTP input is shown. */
    method VerifyOtp(entered: string) returns (toast: Toast)
      requires Valid() && otpWidget
      modifies this
      ensures Valid()
      ensures Step(State(), toast) == Auth.VerifyOtp(old(State()), entered)
    {
      var enteredOtp := Trim(entered);
      if enteredOtp == [] {
        return EnterOtp;
      }
      if enteredOtp == DecimalString(generatedOtp.value) {
        savedUser := tempSignupData;
        currentUser := tempSignupData;
        toast := OtpVerified(currentUser.value.firstName);
        CloseAllModals();
        tempSignupData := None;
        generatedOtp := None;
      } else {
        toast := InvalidOtp;
      }
    }

    method HandleLogout()
      requires Valid()
      modifies this
      ensures Valid()
      ensures State() == Auth.HandleLogout(old(State()))
    {
      currentUser := None;
      savedUser := None;
      Reload();
    }

    /** location.reload(): the script starts over on the same storage. */
    method Reload()
      requires Valid()
      modifies this
      ensures Valid()
      ensures State() == Auth.Reload(old(State()))
    {
      currentUser := None;
      tempSignupData := None;
      generatedOtp := None;
      otpWidget := false;
      CheckAuth();
    }
  }
}
