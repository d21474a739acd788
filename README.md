# MediBook sign-in and signup, modelled in Dafny

The MediBook page script (`app.js`) simulates accounts entirely in the browser.
A user signs up with seven fields. The page issues a six-digit one-time code and
shows it in a toast. Entering that code persists the record under the
`medibook_user` key of localStorage and signs the user in. Login compares an
email and password with that single stored record. Logout removes it and
reloads the page.

This project models that state machine:

- `wrappers.dfy` (module `Wrappers`): `Option` and `Result`.
- `js_text.dfy` (module `JsText`): JavaScript's `String.prototype.trim`, over the
  ECMAScript WhiteSpace and LineTerminator code points. Login, signup and verify
  test their inputs for emptiness after trimming them; dob is not trimmed.
- `js_number.dfy` (module `JsNumber`): `String(n)` for an integer `0 <= n <= 2^53`,
  where JavaScript writes the exact decimal numeral, and its inverse `DigitsValue`. The OTP check compares the trimmed entry with the
  string form of the code.
- `auth.dfy` (module `Auth`): the state (`AppState`: the storage slot,
  `currentUser`, `tempSignupData`, `generatedOTP`, and whether the OTP input is
  in the document), its invariant `Valid`, and one step function per handler
  giving the new state; the step functions of handlers that show a toast
  (login, signup and verify) return it with the state in a `Step`. It also holds the lemmas about
  single steps, and about every run of user events from a fresh page.
- `medibook.dfy` (module `App`): class `MediBook`, whose fields are those
  variables. Its methods update the fields in place, following the handlers
  line by line. Each handler method and `Reload` is proved equal to the step
  function of the same name. The constructor `Load` is proved equal to
  `Auth.PageLoad`. The helpers `RemoveOtpInput` and `ShowOtpInput` state their
  effect directly: they clear or set the OTP-input flag and change nothing else.

The handlers read DOM inputs. Here those values come in as raw string
parameters, and the model does the trimming, as the source does. The one
random draw, `Math.floor(100000 + Math.random() * 900000)`, comes in as a
parameter `code` in `[100000, 999999]`.

## Model

| member | source | states |
|---|---|---|
| JsText.TrimStart | app.js:110-115 | the left-trimmed value is no longer than the input and does not start with whitespace |
| JsText.TrimEnd | app.js:110-115 | the right-trimmed value is no longer than the input, does not end with whitespace and starts with the input's first character |
| JsText.TrimStartSuffix | app.js:110-115 | left trimming keeps a suffix of the input and drops only whitespace |
| JsText.TrimEndPrefix | app.js:110-115 | right trimming keeps a prefix of the input and drops only whitespace |
| JsText.Trim | app.js:110-115 | the trimmed value neither starts nor ends with whitespace and is no longer than the input |
| JsText.TrimSlice | app.js:110-115 | trim returns a contiguous slice of the input; everything cut before and after it is whitespace |
| JsText.TrimEmptyIff | app.js:118 | a trimmed input is empty exactly when the raw input is whitespace only |
| JsText.TrimOfTrimmed | app.js:87-88 | trim leaves a string with no whitespace at either end unchanged |
| JsText.TrimIdempotent | app.js:87-88 | trimming twice is the same as trimming once, so values stored trimmed at signup compare equal when trimmed again at login |
| JsNumber.DecimalString | app.js:166 | String(n) is a non-empty digit string with no leading zero |
| JsNumber.ValueOfDecimal | app.js:166 | reading String(n) back as a number gives n |
| JsNumber.DecimalOfValue | app.js:166 | a canonical digit string is String of the number it denotes (the reverse round trip) |
| JsNumber.DecimalInjective | app.js:166 | two codes have the same string form exactly when they are equal |
| JsNumber.DecimalLengthInRange | app.js:132 | if n lies in [10^(k-1), 10^k), String(n) has k digits |
| JsNumber.DecimalLengthBounds | app.js:132 | a number whose String(n) has k digits lies in [10^(k-1), 10^k) |
| JsNumber.DecimalLength | app.js:132 | String(n) has k digits exactly when n lies in [10^(k-1), 10^k) |
| JsNumber.SixDigits | app.js:132 | every code Math.floor(100000 + Math.random() * 900000) can yield renders as exactly six digits |
| Auth.CheckAuth | app.js:28-34 | a stored record becomes the current user; with no stored record nothing changes; the invariant is kept |
| Auth.PageLoad | app.js:22-25 | a fresh page has the stored record, if any, as current user, no pending signup, no code and no OTP input |
| Auth.Reload | app.js:194 | the page after location.reload satisfies the invariant |
| Auth.ReloadRestoresSession | app.js:194 | a reload keeps the storage slot, signs its record in again and drops any pending signup and code |
| Auth.CloseAllModals | app.js:63-66 | closing the modals removes only the OTP input; stored, current, pending record and code are unchanged |
| Auth.SwitchAuthTab | app.js:68-82 | switching to either tab removes only the OTP input and leaves the pending record and code unchanged |
| Auth.HandleLogin | app.js:85-104 | login never writes storage, the pending record or the code; every toast other than "Welcome back!" leaves the state unchanged |
| Auth.LoginBlankRefused | app.js:90-93 | a whitespace-only email or password gives "Please fill in all fields" and changes nothing |
| Auth.LoginFailureMessages | app.js:90-102 | "Please fill in all fields" exactly when the email or password is whitespace only; "Invalid login credentials" exactly when both are filled in and do not match the stored record |
| Auth.LoginSucceedsIff | app.js:95-103 | login succeeds exactly when both trimmed inputs are non-empty and equal the stored email and password; success makes the stored record current and closes the modals |
| Auth.ValidateSignup | app.js:110-129 | "fill in all fields" exactly when some input is whitespace only or dob is empty; "passwords do not match" exactly when all are filled and the trimmed passwords differ; otherwise the record of the six trimmed fields (dob untrimmed), without confirmPassword |
| Auth.HandleSignupContinue | app.js:107-136 | continuing a signup never changes the stored record or the current user, and keeps the invariant |
| Auth.SignupBlankRefused | app.js:118-121 | a signup with any blank input leaves the whole state unchanged |
| Auth.SignupMismatchRefused | app.js:123-126 | a fully filled signup whose passwords differ leaves the whole state unchanged |
| Auth.SignupIssuesCode | app.js:128-135 | an accepted signup replaces any earlier pending record and code with the new record and code, shows the OTP input, leaves storage and current user alone, and the code has six digits |
| Auth.DobIsNotTrimmed | app.js:116-118 | dob is not trimmed: a whitespace-only dob passes the blank test and is kept as typed, while the same value in another field is refused |
| Auth.VerifyOtp | app.js:159-177 | verification keeps the invariant; every outcome except "OTP verified" leaves the state unchanged |
| Auth.OtpAcceptedIff | app.js:160-166 | an entry is accepted exactly when its trimmed form is a digit string without leading zero denoting the issued code |
| Auth.AcceptedEntryHasSixDigits | app.js:160-166 | every accepted entry is six digits once trimmed |
| Auth.VerifyPromotesPending | app.js:166-173 | a matching entry stores the pending record, makes it current, and then clears the pending record, the code and the OTP input |
| Auth.IssuedCodeMatches | app.js:132-133 | the code shown in the toast is itself a matching entry |
| Auth.IssuedCodeAccepted | app.js:159-168 | entering the issued code while the OTP input is shown is accepted |
| Auth.WrongOtpCanBeRetried | app.js:159-177 | a blank entry ("Please enter OTP") or a wrong one ("Invalid OTP") changes nothing, and the issued code is still accepted afterwards |
| Auth.HandleLogout | app.js:191-195 | logout ends in the state of a fresh page with an empty storage slot, whatever the state before |
| Auth.NoLoginAfterLogout | app.js:191-195 | after logout no credentials log in |
| Auth.SignupThenVerify | app.js:128-172 | signing up and entering the issued code leaves exactly the captured record stored and current, with nothing pending |
| Auth.SignedUpCredentialsLogIn | app.js:95-97 | once the signup record is stored, the email and password typed at signup log in, trimmed or not |
| Auth.Apply | app.js:36-54 | every user event, with the widgets it needs present, keeps the invariant |
| Auth.RunKeepsValid | app.js:17-19 | every state reachable by a run of events keeps the invariant |
| Auth.ApplyAccounted | app.js:36-54 | one event never brings in a stored, current or pending record from anywhere except storage at load or an accepted signup |
| Auth.RunOnlyHoldsSignedUpRecords | app.js:166-168 | from a fresh page, the stored, current and pending records are always the record on storage at load or one captured by an accepted signup in the run (a signup event that ran, with an in-range code, and passed validation) |
| App.MediBook.Load | app.js:22-25 | the page-load path, then checkAuth, yields PageLoad of the storage slot |
| App.MediBook.CheckAuth | app.js:28-34 | updates the fields as Auth.CheckAuth says |
| App.MediBook.RemoveOtpInput | app.js:154-157 | removes the OTP input and nothing else |
| App.MediBook.ShowOtpInput | app.js:139-152 | replaces the OTP input with a fresh one and nothing else |
| App.MediBook.CloseAllModals | app.js:63-66 | updates the fields as Auth.CloseAllModals says |
| App.MediBook.SwitchAuthTab | app.js:68-82 | updates the fields as Auth.SwitchAuthTab says |
| App.MediBook.HandleLogin | app.js:85-104 | new fields and toast are those of Auth.HandleLogin |
| App.MediBook.HandleSignupContinue | app.js:107-136 | new fields and toast are those of Auth.HandleSignupContinue |
| App.MediBook.VerifyOtp | app.js:159-177 | new fields and toast are those of Auth.VerifyOtp |
| App.MediBook.HandleLogout | app.js:191-195 | new fields are those of Auth.HandleLogout |
| App.MediBook.Reload | app.js:194 | new fields are those of Auth.Reload |

## Left out

- DOM work is not modelled: element lookups, modal and tab classes, which form is visible, and the header HTML from `updateUIForLoggedInUser`. The model keeps one bit of the document, whether the OTP input exists, because it decides whether `verifyOtp` can run.
- The mobile menu toggle (app.js:204-210) and `openAuthModal` (app.js:56-61) are not modelled. `openAuthModal` changes the model state only through `switchAuthTab`, which is modelled.
- `showToast` and its three-second timer are not modelled (app.js:198-203). The model returns which message was requested, as a `Toast` value, and leaves out its text and display.
- `Math.random` and its floating-point arithmetic are not modelled (app.js:132). The handler takes the resulting integer as a parameter in `[100000, 999999]`.
- JSON encoding and the localStorage API are not modelled. The `medibook_user` slot is an `Option<User>`, and a stored record is assumed to read back as an equal record. The uncaught `JSON.parse` failure on corrupt storage is not modelled.
- `location.reload()` is modelled only by its effect on the script: memory and document are reset, storage survives, and `checkAuth` runs again.
- `app.js` has no email-shape check, no phone digit count, no minimum password length, no `medibook_users` list of all accounts, no OTP resend and no auto-verify at six characters. The model has none of these either. Its only signup guards are the blank test and password equality, and it keeps one stored account.
- Other tabs and windows are not modelled. Every tab of the same origin shares the `medibook_user` slot, and `handleLogin` re-reads it on each submit (app.js:95). In the model only this page writes the slot. So Auth.RunOnlyHoldsSignedUpRecords holds only in that closed world: another tab could store a record this page never captured.
- UTF-16 is not modelled. JavaScript strings are sequences of UTF-16 code units, but a Dafny `string` is a sequence of Unicode scalar values. So an input holding a lone surrogate cannot be represented. On well-formed strings, trim and `===` behave as modelled.
- JsNumber.DecimalString: it is `String(n)` only for integers up to 2^53. Above 2^53 JavaScript prints the shortest numeral that rounds back to the same Number, padded with zeros. So `String(2**64)` is `"18446744073709552000"`, while `DecimalString` gives the exact `"18446744073709551616"`. From 10^21 on JavaScript uses exponent notation (`1e+21`). The model applies it only to codes in `[100000, 999999]`.
- `e.preventDefault()` and optional chaining on missing elements are not modelled. Every input element is assumed to exist.
- Auth.Reload: its own contract states only the invariant. What a reload keeps and drops is stated by Auth.ReloadRestoresSession.
- Auth.Apply: in the source, a click on a button that is not in the document cannot happen. The model treats such an event as a step that changes nothing. The Verify button exists only while the OTP input is shown. The Logout button exists only while a user is signed in.
