/**
 * The account routes: the credential validator, and the decisions of the
 * signup and login routes built on it. The user store is the set of stored
 * (normalised) email addresses; password comparison and the store's writes
 * are oracles passed in as parameters.
 */
module AuthRoutes {
  import opened Base
  import opened Text

  /** The validator's findings. */
  datatype InputError = NameTooShort | EmailRequired | EmailInvalid | PasswordRequired | PasswordTooShort

  /** The message each finding is reported with. */
  function Message(e: InputError): string {
    match e
    case NameTooShort => "Name must be at least 2 characters long"
    case EmailRequired => "Email is required"
    case EmailInvalid => "Please enter a valid email address"
    case PasswordRequired => "Password is required"
    case PasswordTooShort => "Password must be at least 6 characters long"
  }

  const AccountExists: string := "An account with this email already exists"
  const SignupFailed: string := "Failed to create account. Please try again."
  const BadCredentials: string := "Invalid email or password"
  const LoginFailed: string := "Login failed. Please try again."

  /** The language of the pattern `^[^\s@]+@[^\s@]+\.[^\s@]+$`: no whitespace,
      exactly one '@' with something before it, and after it a '.' that is
      neither the first nor the last character of the domain. */
  ghost predicate MatchesEmailPattern(e: string) {
    && NoSpace(e)
    && exists at, dot ::
         && 0 < at && at + 1 < dot && dot + 1 < |e|
         && e[at] == '@' && e[dot] == '.'
         && forall k :: 0 <= k < |e| && e[k] == '@' ==> k == at
  }

  /** The executable email check: locate the first '@' and scan around it. */
  predicate IsEmailAddress(e: string) {
    && NoSpace(e)
    && '@' in e
    && var at := IndexOf(e, '@');
       && 0 < at
       && '@' !in e[at + 1..]
       && at + 3 <= |e|
       && '.' in e[at + 2..|e| - 1]
  }

  /** The executable check accepts exactly the pattern's language. */
  lemma EmailCheckMatchesPattern(e: string)
    ensures IsEmailAddress(e) <==> MatchesEmailPattern(e)
  {
    if IsEmailAddress(e) {
      var at := IndexOf(e, '@');
      var tail := e[at + 2..|e| - 1];
      var d := IndexOf(tail, '.');
      var dot := at + 2 + d;
      assert e[dot] == tail[d];
      assert forall k :: 0 <= k < at ==> e[..at][k] == e[k];
      assert forall k :: at < k < |e| ==> e[at + 1..][k - at - 1] == e[k];
      assert 0 < at && at + 1 < dot && dot + 1 < |e| && e[at] == '@' && e[dot] == '.';
    }
    if MatchesEmailPattern(e) {
      var at, dot :| && 0 < at && at + 1 < dot && dot + 1 < |e|
                     && e[at] == '@' && e[dot] == '.'
                     && forall k :: 0 <= k < |e| && e[k] == '@' ==> k == at;
      assert e[at] in e;
      var i := IndexOf(e, '@');
      assert i == at;
      assert forall k :: at < k < |e| ==> e[at + 1..][k - at - 1] == e[k];
      assert e[at + 2..|e| - 1][dot - at - 2] == '.';
    }
  }

  /** A missing, empty or all-whitespace email: one whose trim is empty. */
  predicate Blank(email: Option<string>) {
    email.None? || AllSpace(email.value)
  }

  /** Blankness is exactly an empty trim. */
  lemma BlankIffTrimEmpty(email: Option<string>)
    ensures Blank(email) <==> email.None? || Trim(email.value) == ""
  {
  }

  /** A missing password or the empty string. */
  predicate NoPassword(password: Option<string>) {
    password.None? || password.value == ""
  }

  /** Which input field a finding is about: 0 name, 1 email, 2 password. */
  function FieldOf(e: InputError): nat {
    match e
    case NameTooShort => 0
    case EmailRequired | EmailInvalid => 1
    case PasswordRequired | PasswordTooShort => 2
  }

  function NameError(name: Option<string>): (error: Option<InputError>)
    ensures error.None? || error == Some(NameTooShort)
    ensures error == Some(NameTooShort) <==> name.Some? && |Trim(name.value)| < 2
  {
    if name.Some? && |Trim(name.value)| < 2 then Some(NameTooShort) else None
  }

  function EmailError(email: Option<string>): (error: Option<InputError>)
    ensures error.None? || error == Some(EmailRequired) || error == Some(EmailInvalid)
    ensures error == Some(EmailRequired) <==> Blank(email)
    ensures error == Some(EmailInvalid) <==> !Blank(email) && !IsEmailAddress(email.value)
  {
    if Blank(email) then Some(EmailRequired)
    else if !IsEmailAddress(email.value) then Some(EmailInvalid)
    else None
  }

  function PasswordError(password: Option<string>): (error: Option<InputError>)
    ensures error.None? || error == Some(PasswordRequired) || error == Some(PasswordTooShort)
    ensures error == Some(PasswordRequired) <==> NoPassword(password)
    ensures error == Some(PasswordTooShort) <==> !NoPassword(password) && |password.value| < 6
  {
    if NoPassword(password) then Some(PasswordRequired)
    else if |password.value| < 6 then Some(PasswordTooShort)
    else None
  }

  function AsSeq(o: Option<InputError>): seq<InputError> {
    if o.Some? then [o.value] else []
  }

  /** The per-field findings as one list, in field order. */
  function Collect(name: Option<InputError>, email: Option<InputError>, password: Option<InputError>): (errors: seq<InputError>)
    requires name.None? || FieldOf(name.value) == 0
    requires email.None? || FieldOf(email.value) == 1
    requires password.None? || FieldOf(password.value) == 2
    ensures |errors| <= 3
    ensures forall i, j :: 0 <= i < j < |errors| ==> FieldOf(errors[i]) < FieldOf(errors[j])
    ensures forall e :: e in errors <==> Some(e) == name || Some(e) == email || Some(e) == password
    ensures errors == [] <==> name.None? && email.None? && password.None?
  {
    AsSeq(name) + AsSeq(email) + AsSeq(password)
  }

  /** The validator. `name` is checked only when supplied (`None` is the absent
      or null name); at most one finding per field, in the order name, email,
      password. */
  function ValidateAuthInput(email: Option<string>, password: Option<string>, name: Option<string>): (errors: seq<InputError>)
    ensures |errors| <= 3
    ensures forall i, j :: 0 <= i < j < |errors| ==> FieldOf(errors[i]) < FieldOf(errors[j])
    ensures forall e :: e in errors <==> Some(e) == NameError(name) || Some(e) == EmailError(email) || Some(e) == PasswordError(password)
    ensures errors == [] <==> NameError(name).None? && EmailError(email).None? && PasswordError(password).None?
    ensures name.None? ==> NameTooShort !in errors
  {
    Collect(NameError(name), EmailError(email), PasswordError(password))
  }

  /** The name rule: reported exactly for a supplied name whose trim is shorter than two characters. */
  lemma ValidatorNameRule(email: Option<string>, password: Option<string>, name: Option<string>)
    ensures NameTooShort in ValidateAuthInput(email, password, name) <==> name.Some? && |Trim(name.value)| < 2
  {
  }

  /** The email rules: a blank email is only "required"; any other email that
      does not match the pattern is only "invalid". */
  lemma ValidatorEmailRules(email: Option<string>, password: Option<string>, name: Option<string>)
    ensures var errors := ValidateAuthInput(email, password, name);
            && (EmailRequired in errors <==> email.None? || Trim(email.value) == "")
            && (EmailInvalid in errors <==> !Blank(email) && !MatchesEmailPattern(email.value))
            && !(EmailRequired in errors && EmailInvalid in errors)
  {
    BlankIffTrimEmpty(email);
    if email.Some? {
      EmailCheckMatchesPattern(email.value);
    }
  }

  /** The password rules: missing or empty is "required"; otherwise fewer than six characters is "too short". */
  lemma ValidatorPasswordRules(email: Option<string>, password: Option<string>, name: Option<string>)
    ensures var errors := ValidateAuthInput(email, password, name);
            && (PasswordRequired in errors <==> password.None? || password.value == "")
            && (PasswordTooShort in errors <==> password.Some? && 0 < |password.value| < 6)
  {
  }

  /** The validator reports nothing exactly when every checked field is valid. */
  lemma ValidatorAcceptsExactlyValid(email: Option<string>, password: Option<string>, name: Option<string>)
    ensures ValidateAuthInput(email, password, name) == [] <==>
              && (name.None? || |Trim(name.value)| >= 2)
              && email.Some? && Trim(email.value) != "" && MatchesEmailPattern(email.value)
              && password.Some? && |password.value| >= 6
  {
    BlankIffTrimEmpty(email);
    if email.Some? {
      EmailCheckMatchesPattern(email.value);
    }
  }

  /** A validated email has no whitespace, so the stored form (lower-cased, then
      trimmed) is the lookup form (lower-cased). */
  lemma StoredFormIsLookupForm(email: string)
    requires IsEmailAddress(email)
    ensures Trim(ToLower(email)) == ToLower(email)
  {
    LowerKeepsNoSpace(email);
  }

  /** The messages of a list of findings, in order: the `errors` array of a 400 answer. */
  function Messages(findings: seq<InputError>): seq<string> {
    seq(|findings|, i requires 0 <= i < |findings| => Message(findings[i]))
  }

  /** Distinct findings are reported with distinct messages, so an answer's
      messages identify its findings. */
  lemma MessageIdentifiesFinding(a: InputError, b: InputError)
    ensures Message(a) == Message(b) <==> a == b
  {
    if a != b {
      var ma, mb := Message(a), Message(b);
      assert ma[0] != mb[0] || ma[9] != mb[9];
    }
  }

  /** A finding absent from the list has its message absent from the messages. */
  lemma AbsentFindingAbsentMessage(findings: seq<InputError>, e: InputError)
    requires e !in findings
    ensures Message(e) !in Messages(findings)
  {
    forall i | 0 <= i < |findings|
      ensures Messages(findings)[i] != Message(e)
    {
      MessageIdentifiesFinding(findings[i], e);
    }
  }

  datatype SignupBody = SignupBody(name: Option<string>, email: Option<string>, password: Option<string>)

  /** How the store's write of a new user ends. */
  datatype SaveOutcome = Stored | DuplicateKey | StoreFailure

  /** How the stored password hash comparison ends. */
  datatype PasswordCheck = Matches | Mismatch | CheckFailed

  datatype AuthResponse =
    | Invalid(error: string, errors: seq<string>)   // 400 with the first message and the full list
    | Refused(code: nat, message: string)
    | Created(name: string, email: string)           // 201
    | LoggedIn(email: string)                        // 200

  datatype Signup = Signup(users: set<string>, response: AuthResponse)

  /** The signup body reaches the user save: it is valid, the existence check
      ran and found no account, and a name is present. */
  predicate ReachesSave(users: set<string>, body: SignupBody, lookupFault: bool) {
    && ValidateAuthInput(body.email, body.password, body.name) == []
    && !lookupFault
    && ToLower(body.email.value) !in users
    && body.name.Some?
  }

  /** `POST /auth/signup`. `lookupFault` is the existence check throwing,
      `save` how the write ends, `tokenFault` the token signing throwing after
      the write. A body that passes validation without a name reaches
      `name.trim()` on a null name, which throws and is answered 500. */
  function SignupRoute(users: set<string>, body: SignupBody, lookupFault: bool, save: SaveOutcome,
                       tokenFault: bool): (r: Signup)
    ensures var findings := ValidateAuthInput(body.email, body.password, body.name);
            && (r.response.Invalid? <==> findings != [])
            && (r.response.Invalid? ==> r.response == Invalid(Message(findings[0]), Messages(findings)))
    ensures ValidateAuthInput(body.email, body.password, body.name) == [] && lookupFault ==>
              r == Signup(users, Refused(500, SignupFailed))
    ensures (&& ValidateAuthInput(body.email, body.password, body.name) == [] && !lookupFault
             && ToLower(body.email.value) in users) ==> r == Signup(users, Refused(400, AccountExists))
    ensures (&& ValidateAuthInput(body.email, body.password, body.name) == [] && !lookupFault
             && ToLower(body.email.value) !in users && body.name.None?) ==> r == Signup(users, Refused(500, SignupFailed))
    ensures ReachesSave(users, body, lookupFault) && save == DuplicateKey ==> r == Signup(users, Refused(400, AccountExists))
    ensures ReachesSave(users, body, lookupFault) && save == StoreFailure ==> r == Signup(users, Refused(500, SignupFailed))
    ensures ReachesSave(users, body, lookupFault) && save == Stored ==>
              && IsEmailAddress(body.email.value)
              && r.users == users + {ToLower(body.email.value)}
              && r.response == (if tokenFault then Refused(500, SignupFailed)
                                else Created(Trim(body.name.value), ToLower(body.email.value)))
    ensures r.users != users ==> ReachesSave(users, body, lookupFault) && save == Stored
  {
    var findings := ValidateAuthInput(body.email, body.password, body.name);
    if findings != [] then Signup(users, Invalid(Message(findings[0]), Messages(findings)))
    else if lookupFault then Signup(users, Refused(500, SignupFailed))
    else
      var email := body.email.value;
      if ToLower(email) in users then Signup(users, Refused(400, AccountExists))
      else if body.name.None? then Signup(users, Refused(500, SignupFailed))
      else
        var stored := Trim(ToLower(email));
        StoredFormIsLookupForm(email);
        match save
        case DuplicateKey => Signup(users, Refused(400, AccountExists))
        case StoreFailure => Signup(users, Refused(500, SignupFailed))
        case Stored =>
          if tokenFault then Signup(users + {stored}, Refused(500, SignupFailed))
          else Signup(users + {stored}, Created(Trim(body.name.value), stored))
  }

  /** `POST /auth/login`. The validator runs without a name. An unknown email
      and a wrong password get the same 401 answer; the user lookup, the
      password comparison, the last-login save and the token signing throwing
      are answered 500. */
  function LoginRoute(users: set<string>, email: Option<string>, password: Option<string>,
                      lookupFault: bool, check: PasswordCheck, lastLoginSaved: bool, tokenFault: bool): (r: AuthResponse)
    ensures var findings := ValidateAuthInput(email, password, None);
            && (r.Invalid? <==> findings != [])
            && (r.Invalid? ==> r == Invalid(Message(findings[0]), Messages(findings)))
    ensures r.Invalid? ==> Message(NameTooShort) !in r.errors
    ensures r.LoggedIn? <==>
              && ValidateAuthInput(email, password, None) == [] && !lookupFault
              && ToLower(email.value) in users && check == Matches && lastLoginSaved && !tokenFault
    ensures r.LoggedIn? ==> r.email == ToLower(email.value)
    ensures (r.Refused? && r.code == 401) <==>
              && ValidateAuthInput(email, password, None) == [] && !lookupFault
              && (ToLower(email.value) !in users || check == Mismatch)
    ensures r.Invalid? || r.LoggedIn? || r.Refused?
    ensures r.Refused? ==> r == Refused(401, BadCredentials) || r == Refused(500, LoginFailed)
  {
    var findings := ValidateAuthInput(email, password, None);
    if findings != [] then
      AbsentFindingAbsentMessage(findings, NameTooShort);
      Invalid(Message(findings[0]), Messages(findings))
    else CheckCredentials(users, ToLower(email.value), lookupFault, check, lastLoginSaved, tokenFault)
  }

  /** The login steps after validation, for the lower-cased email `key`: the
      lookup, the password comparison, the `lastLogin` save and the token. */
  function CheckCredentials(users: set<string>, key: string, lookupFault: bool, check: PasswordCheck,
                            lastLoginSaved: bool, tokenFault: bool): (r: AuthResponse)
    ensures r.LoggedIn? <==> !lookupFault && key in users && check == Matches && lastLoginSaved && !tokenFault
    ensures r.LoggedIn? ==> r.email == key
    ensures (r.Refused? && r.code == 401) <==> !lookupFault && (key !in users || check == Mismatch)
    ensures r.LoggedIn? || r == Refused(401, BadCredentials) || r == Refused(500, LoginFailed)
  {
    if lookupFault then Refused(500, LoginFailed)
    else if key !in users then Refused(401, BadCredentials)
    else match check
      case Mismatch => Refused(401, BadCredentials)
      case CheckFailed => Refused(500, LoginFailed)
      case Matches =>
        if !lastLoginSaved || tokenFault then Refused(500, LoginFailed)
        else LoggedIn(key)
  }

  /** An unknown email is answered exactly like a known email with a wrong password. */
  lemma UniformCredentialFailure(users: set<string>, email: Option<string>, password: Option<string>,
                                 check: PasswordCheck, lastLoginSaved: bool, tokenFault: bool)
    requires ValidateAuthInput(email, password, None) == []
    requires ToLower(email.value) !in users
    ensures LoginRoute(users, email, password, false, check, lastLoginSaved, tokenFault)
            == LoginRoute(users + {ToLower(email.value)}, email, password, false, Mismatch, lastLoginSaved, tokenFault)
            == Refused(401, BadCredentials)
  {
  }

  /** An account created by signup is found by a later login with the same
      email and password: the key stored is the key looked up. */
  lemma {:induction false} SignupThenLogin(users: set<string>, body: SignupBody)
    requires ReachesSave(users, body, false)
    ensures LoginRoute(SignupRoute(users, body, false, Stored, false).users, body.email, body.password,
                       false, Matches, true, false)
            == LoggedIn(ToLower(body.email.value))
  {
    var findings := ValidateAuthInput(body.email, body.password, body.name);
    assert findings == [];
    assert ValidateAuthInput(body.email, body.password, None) == [];
  }
}
