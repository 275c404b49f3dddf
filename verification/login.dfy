/** The login screen: an email/password form with Angular's validators, a
    submit gate, and the handlers that turn the backend's answer into a stored
    token, a navigation, per-control error maps and a banner message. */
module Login {
  import opened Wrappers
  import opened Text
  import opened Storage
  import opened Router
  import opened Http

  // ---------------------------------------------------------------------------
  // Validation-error maps
  // ---------------------------------------------------------------------------

  /** A value in an Angular validation-error object */
  datatype ErrorValue =
    | Flag(on: bool)
    | Message(text: string)
    | LengthError(requiredLength: nat, actualLength: nat)
    | PatternError(requiredPattern: string, actualValue: string)
  {
    /** JavaScript truthiness of the value */
    predicate Truthy() {
      match this
      case Flag(on) => on
      case Message(text) => text != ""
      case _ => true
    }
  }

  /** A control's `errors` object; `None` is `null` */
  type ValidationErrors = map<string, ErrorValue>

  const ServerKey: string := "server"
  const InvalidKey: string := "invalid"

  /** `errors || {}` */
  function OrEmpty(errs: Option<ValidationErrors>): ValidationErrors {
    if errs.Some? then errs.value else map[]
  }

  /** How Angular merges validator results: an empty object becomes `null` */
  function Collapse(m: ValidationErrors): (r: Option<ValidationErrors>)
    ensures r.Some? ==> r.value != map[]
    ensures OrEmpty(r) == m
  {
    if m == map[] then None else Some(m)
  }

  /** `result` is `errs` with `key` set to `v` and every other key kept as is */
  ghost predicate SetOver(result: Option<ValidationErrors>, errs: Option<ValidationErrors>, key: string, v: ErrorValue) {
    && result.Some?
    && key in result.value && result.value[key] == v
    && (forall k :: k != key ==> (k in result.value <==> k in OrEmpty(errs)))
    && (forall k :: k != key && k in result.value ==> result.value[k] == OrEmpty(errs)[k])
  }

  /** `{ ...(errs || {}), key: v }` */
  function MergeKey(errs: Option<ValidationErrors>, key: string, v: ErrorValue): (r: Option<ValidationErrors>)
    ensures SetOver(r, errs, key, v)
  {
    Some(OrEmpty(errs)[key := v])
  }

  /** The stale-server-error strip: when the `server` entry is truthy, `errors`
      loses that key and nothing else, and is `null` once nothing is left;
      otherwise it is left as it was. */
  function StripServer(errs: Option<ValidationErrors>): (r: Option<ValidationErrors>)
    ensures !(errs.Some? && ServerKey in errs.value && errs.value[ServerKey].Truthy()) ==> r == errs
    ensures errs.Some? && ServerKey in errs.value && errs.value[ServerKey].Truthy() ==>
              && ServerKey !in OrEmpty(r)
              && (forall k :: k != ServerKey ==> (k in OrEmpty(r) <==> k in errs.value))
              && (forall k :: k != ServerKey && k in OrEmpty(r) ==> OrEmpty(r)[k] == errs.value[k])
              && (r.None? <==> errs.value.Keys == {ServerKey})
  {
    if errs.Some? && ServerKey in errs.value && errs.value[ServerKey].Truthy() then
      var rest := errs.value - {ServerKey};
      assert rest.Keys == errs.value.Keys - {ServerKey};
      if rest.Keys == {} then None else Some(rest)
    else errs
  }

  // ---------------------------------------------------------------------------
  // Controls and the form
  // ---------------------------------------------------------------------------

  datatype Control = Control(value: string, errors: Option<ValidationErrors>, touched: bool) {
    /** A control with any error object, even one set by the server, is invalid */
    predicate Invalid() {
      errors.Some?
    }
  }

  datatype LoginForm = LoginForm(email: Control, password: Control) {
    /** `form.invalid`: some control is invalid */
    predicate Invalid() {
      email.Invalid() || password.Invalid()
    }
  }

  datatype LoginState = LoginState(
    form: LoginForm,
    showPassword: bool,
    isLoading: bool,
    serverMessage: string)

  // ---------------------------------------------------------------------------
  // Validators
  // ---------------------------------------------------------------------------

  const MinPasswordLength: nat := 8
  const MaxPasswordLength: nat := 64
  const PasswordPatternSource: string := "/^(?=.*[a-z])(?=.*[A-Z])(?=.*\\d)(?=.*[^A-Za-z0-9]).{8,}$/"

  /** `Validators.required` */
  function RequiredErrors(v: string): ValidationErrors {
    if v == "" then map["required" := Flag(true)] else map[]
  }

  /** `Validators.minLength(n)`: an empty value is left to `required` */
  function MinLengthErrors(v: string, n: nat): ValidationErrors {
    if v == "" || Utf16Length(v) >= n then map[]
    else map["minlength" := LengthError(n, Utf16Length(v))]
  }

  /** `Validators.maxLength(n)` */
  function MaxLengthErrors(v: string, n: nat): ValidationErrors {
    if Utf16Length(v) <= n then map[]
    else map["maxlength" := LengthError(n, Utf16Length(v))]
  }

  /** The four character classes the password pattern looks ahead for */
  datatype CharClass = Lower | Upper | Digit | Symbol

  predicate InClass(c: char, k: CharClass) {
    match k
    case Lower => IsAsciiLower(c)
    case Upper => IsAsciiUpper(c)
    case Digit => IsAsciiDigit(c)
    case Symbol => !IsAsciiAlnum(c)
  }

  predicate NoLineTerminatorBefore(s: string, n: nat)
    requires n <= |s|
  {
    forall j :: 0 <= j < n ==> !IsLineTerminator(s[j])
  }

  /** `(?=.*[k])` tried at the start: `.*` reaches a character of class `k`
      without crossing a line terminator */
  predicate LookaheadFinds(s: string, k: CharClass) {
    exists i :: 0 <= i < |s| && InClass(s[i], k) && NoLineTerminatorBefore(s, i)
  }

  /** `^...(?=...).{8,}$`, read literally: the four lookaheads succeed at the
      start, then at least eight code units run to the end with no line
      terminator among them */
  predicate PasswordPatternMatches(s: string) {
    && LookaheadFinds(s, Lower) && LookaheadFinds(s, Upper)
    && LookaheadFinds(s, Digit) && LookaheadFinds(s, Symbol)
    && Utf16Length(s) >= 8 && NoLineTerminatorBefore(s, |s|)
  }

  /** `Validators.pattern(...)`: an empty value is left to `required` */
  function PatternErrors(v: string): ValidationErrors {
    if v == "" || PasswordPatternMatches(v) then map[]
    else map["pattern" := PatternError(PasswordPatternSource, v)]
  }

  /** The password control's merged validator result */
  function PasswordErrors(v: string): Option<ValidationErrors> {
    Collapse(RequiredErrors(v) + MinLengthErrors(v, MinPasswordLength)
             + MaxLengthErrors(v, MaxPasswordLength) + PatternErrors(v))
  }

  /** The email control's merged validator result; `formatOk` stands for the
      verdict of Angular's built-in email pattern on `v` */
  function EmailErrors(v: string, formatOk: bool): Option<ValidationErrors> {
    Collapse(RequiredErrors(v) + (if v == "" || formatOk then map[] else map["email" := Flag(true)]))
  }

  predicate PasswordValid(p: string) {
    PasswordErrors(p).None?
  }

  /** `s` has a character of class `k` somewhere */
  predicate Contains(s: string, k: CharClass) {
    exists i :: 0 <= i < |s| && InClass(s[i], k)
  }

  /** A password passes the validators exactly when it is 8 to 64 UTF-16 code
      units long, has no line terminator, and has a lower-case letter, an
      upper-case letter, a digit and a character outside `[A-Za-z0-9]`. */
  lemma PasswordPolicy(p: string)
    ensures PasswordValid(p) <==>
              && MinPasswordLength <= Utf16Length(p) <= MaxPasswordLength
              && NoLineTerminatorBefore(p, |p|)
              && Contains(p, Lower) && Contains(p, Upper)
              && Contains(p, Digit) && Contains(p, Symbol)
  {
    ValidatorsPass(p);
    if NoLineTerminatorBefore(p, |p|) {
      ContainsIsLookahead(p, Lower);
      ContainsIsLookahead(p, Upper);
      ContainsIsLookahead(p, Digit);
      ContainsIsLookahead(p, Symbol);
    }
  }

  /** The merged validator result is `null` exactly when each validator
      passes on its own */
  lemma ValidatorsPass(p: string)
    ensures PasswordValid(p) <==>
              p != "" && MinPasswordLength <= Utf16Length(p) <= MaxPasswordLength && PasswordPatternMatches(p)
  {
    var m := RequiredErrors(p) + MinLengthErrors(p, MinPasswordLength)
             + MaxLengthErrors(p, MaxPasswordLength) + PatternErrors(p);
    if p != "" && MinPasswordLength <= Utf16Length(p) <= MaxPasswordLength && PasswordPatternMatches(p) {
      assert m == map[];
    } else {
      assert "required" in m || "minlength" in m || "maxlength" in m || "pattern" in m;
    }
  }

  /** On a string free of line terminators a lookahead finds exactly what the
      string contains */
  lemma ContainsIsLookahead(s: string, k: CharClass)
    requires NoLineTerminatorBefore(s, |s|)
    ensures LookaheadFinds(s, k) <==> Contains(s, k)
  {
    if Contains(s, k) {
      var i :| 0 <= i < |s| && InClass(s[i], k);
      assert NoLineTerminatorBefore(s, i);
    }
  }

  // ---------------------------------------------------------------------------
  // The component
  // ---------------------------------------------------------------------------

  const LoginFailedMessage: string := "فشل تسجيل الدخول."
  const InvalidDataMessage: string := "بيانات غير صحيحة."
  const BadCredentialsMessage: string := "البريد أو كلمة المرور غير صحيحة."
  const GenericErrorMessage: string := "حدث خطأ. حاول مرة أخرى."
  const DashboardPath: string := "/dashboard"

  /** The freshly built component: both boxes empty, so the form starts invalid */
  function Create(): (s: LoginState)
    ensures s.form.Invalid() && !s.isLoading && s.serverMessage == ""
    ensures s.form.email.value == "" && s.form.password.value == ""
    ensures !s.showPassword && !s.form.email.touched && !s.form.password.touched
    ensures s.form.email.errors == Some(map["required" := Flag(true)])
    ensures s.form.password.errors == Some(map["required" := Flag(true)])
  {
    assert "required" in RequiredErrors("");
    assert RequiredErrors("") + map[] == map["required" := Flag(true)];
    LoginState(
      LoginForm(Control("", EmailErrors("", false), false),
                Control("", PasswordErrors(""), false)),
      false, false, "")
  }

  /** `togglePassword()` */
  function TogglePassword(s: LoginState): (r: LoginState)
    ensures r.showPassword == !s.showPassword
    ensures r.(showPassword := s.showPassword) == s
  {
    s.(showPassword := !s.showPassword)
  }

  /** The user types `v` into the email box: the validators run again and their
      result replaces every earlier error, so a `server` or `invalid` entry is
      gone and the box is invalid exactly when `required` or the format check
      rejects `v`. The password box and the rest of the state are untouched. */
  function EditEmail(s: LoginState, v: string, formatOk: bool): (r: LoginState)
    ensures r.form.email.value == v
    ensures r.form.email.errors == EmailErrors(v, formatOk)
    ensures ServerKey !in OrEmpty(r.form.email.errors) && InvalidKey !in OrEmpty(r.form.email.errors)
    ensures r.form.email.Invalid() <==> v == "" || !formatOk
    ensures r.form.email.touched == s.form.email.touched
    ensures r.form.password == s.form.password
    ensures r.(form := s.form) == s
  {
    var merged := RequiredErrors(v) + (if v == "" || formatOk then map[] else map["email" := Flag(true)]);
    assert v == "" ==> "required" in merged;
    assert v != "" && !formatOk ==> "email" in merged;
    assert v != "" && formatOk ==> merged == map[];
    s.(form := s.form.(email := s.form.email.(value := v, errors := EmailErrors(v, formatOk))))
  }

  /** The user types `v` into the password box: as for the email box, the
      validators' result replaces every earlier error, a `server` or `invalid`
      entry included, and the box is invalid exactly when `v` fails them */
  function EditPassword(s: LoginState, v: string): (r: LoginState)
    ensures r.form.password.value == v
    ensures r.form.password.errors == PasswordErrors(v)
    ensures ServerKey !in OrEmpty(r.form.password.errors) && InvalidKey !in OrEmpty(r.form.password.errors)
    ensures r.form.password.Invalid() <==> !PasswordValid(v)
    ensures r.form.password.touched == s.form.password.touched
    ensures r.form.email == s.form.email
    ensures r.(form := s.form) == s
  {
    s.(form := s.form.(password := s.form.password.(value := v, errors := PasswordErrors(v))))
  }

  /** `form.getRawValue()`, the body of `AuthService.login` */
  datatype LoginRequest = LoginRequest(email: string, password: string)

  datatype Submission = Submission(state: LoginState, request: Option<LoginRequest>)

  /** `submit()`: an invalid form only clears the banner and marks both
      controls touched, and sends nothing; a valid one starts loading and sends
      the form's values. */
  function Submit(s: LoginState): (r: Submission)
    ensures r.state.serverMessage == ""
    ensures s.form.Invalid() ==>
              && r.request.None?
              && r.state.isLoading == s.isLoading
              && r.state.form.email == s.form.email.(touched := true)
              && r.state.form.password == s.form.password.(touched := true)
    ensures !s.form.Invalid() ==>
              && r.request == Some(LoginRequest(s.form.email.value, s.form.password.value))
              && r.state.isLoading && r.state.form == s.form
    ensures r.state.showPassword == s.showPassword
  {
    var cleared := s.(serverMessage := "");
    if s.form.Invalid() then
      var touched := LoginForm(s.form.email.(touched := true), s.form.password.(touched := true));
      Submission(cleared.(form := touched), None)
    else
      Submission(cleared.(isLoading := true),
                 Some(LoginRequest(s.form.email.value, s.form.password.value)))
  }

  /** The parsed body of a login response; `token` is `data?.token` */
  datatype LoginResponse = LoginResponse(success: bool, message: Option<string>, token: Option<string>)

  /** The state after a handler runs, the token store, and any navigation */
  datatype Step = Step(state: LoginState, store: Store, navigation: Option<Navigation>)

  /** The `next` handler: loading stops; a successful response carrying a
      non-empty token stores it and goes to the dashboard; anything else leaves
      the store alone and shows the response's message or the fallback. */
  function OnLoginResponse(s: LoginState, store: Store, res: Option<LoginResponse>): (r: Step)
    ensures !r.state.isLoading
    ensures r.navigation.Some? <==> res.Some? && res.value.success && Truthy(res.value.token)
    ensures r.navigation.Some? ==>
              && r.navigation.value == Navigate([DashboardPath], map[])
              && r.store == SetToken(store, res.value.token.value)
              && r.state == s.(isLoading := false)
    ensures r.navigation.None? ==>
              && r.store == store
              && r.state.serverMessage != ""
              && r.state == s.(isLoading := false, serverMessage := r.state.serverMessage)
              && (res.Some? && Truthy(res.value.message) ==> r.state.serverMessage == res.value.message.value)
              && (!(res.Some? && Truthy(res.value.message)) ==> r.state.serverMessage == LoginFailedMessage)
  {
    var stopped := s.(isLoading := false);
    if res.Some? && res.value.success && Truthy(res.value.token) then
      Step(stopped, SetToken(store, res.value.token.value), Some(Navigate([DashboardPath], map[])))
    else
      var message := if res.Some? then res.value.message else None;
      Step(stopped.(serverMessage := OrElse(message, LoginFailedMessage)), store, None)
  }

  /** `errors.x?.length`: the list is present and non-empty */
  predicate HasEntries(list: Option<seq<string>>) {
    list.Some? && |list.value| > 0
  }

  /** The branch taken for field-level validation errors */
  predicate IsFieldValidationError(err: HttpErrorResponse) {
    err.status == 422 && err.body.Some? && err.body.value.errors.Some?
  }

  /** The `error` handler. Both controls first lose a stale truthy `server`
      error. A 422 with an `errors` object then puts each non-empty list's first
      message under `server` on its control; a 401 marks the password
      `invalid`; anything else, including a 422 without `errors`, only shows the
      generic message. A banner message is always shown and the values, the
      touched flags and the password toggle are never changed. */
  function OnLoginError(s: LoginState, err: HttpErrorResponse): (r: LoginState)
    ensures !r.isLoading && r.serverMessage != ""
    ensures r.showPassword == s.showPassword
    ensures r.form.email.(errors := s.form.email.errors) == s.form.email
    ensures r.form.password.(errors := s.form.password.errors) == s.form.password
    ensures IsFieldValidationError(err) ==>
              var fe := err.body.value.errors.value;
              && r.serverMessage == OrElse(ErrorMessage(err), InvalidDataMessage)
              && (HasEntries(fe.email) ==>
                    SetOver(r.form.email.errors, StripServer(s.form.email.errors), ServerKey, Message(fe.email.value[0])))
              && (!HasEntries(fe.email) ==> r.form.email.errors == StripServer(s.form.email.errors))
              && (HasEntries(fe.password) ==>
                    SetOver(r.form.password.errors, StripServer(s.form.password.errors), ServerKey, Message(fe.password.value[0])))
              && (!HasEntries(fe.password) ==> r.form.password.errors == StripServer(s.form.password.errors))
    ensures !IsFieldValidationError(err) && err.status == 401 ==>
              && r.serverMessage == OrElse(ErrorMessage(err), BadCredentialsMessage)
              && r.form.email.errors == StripServer(s.form.email.errors)
              && SetOver(r.form.password.errors, StripServer(s.form.password.errors), InvalidKey, Flag(true))
    ensures !IsFieldValidationError(err) && err.status != 401 ==>
              && r.serverMessage == OrElse(ErrorMessage(err), GenericErrorMessage)
              && r.form.email.errors == StripServer(s.form.email.errors)
              && r.form.password.errors == StripServer(s.form.password.errors)
  {
    var email := s.form.email.(errors := StripServer(s.form.email.errors));
    var password := s.form.password.(errors := StripServer(s.form.password.errors));
    var stopped := s.(isLoading := false);
    if IsFieldValidationError(err) then
      var fe := err.body.value.errors.value;
      var email' := if HasEntries(fe.email)
        then email.(errors := MergeKey(email.errors, ServerKey, Message(fe.email.value[0])))
        else email;
      var password' := if HasEntries(fe.password)
        then password.(errors := MergeKey(password.errors, ServerKey, Message(fe.password.value[0])))
        else password;
      stopped.(form := LoginForm(email', password'),
               serverMessage := OrElse(ErrorMessage(err), InvalidDataMessage))
    else if err.status == 401 then
      var password' := password.(errors := MergeKey(password.errors, InvalidKey, Flag(true)));
      stopped.(form := LoginForm(email, password'),
               serverMessage := OrElse(ErrorMessage(err), BadCredentialsMessage))
    else
      stopped.(form := LoginForm(email, password),
               serverMessage := OrElse(ErrorMessage(err), GenericErrorMessage))
  }

  /** A 401, or a 422 naming a field, leaves the form invalid, so the same
      credentials cannot be resubmitted until the user edits them */
  lemma RejectedCredentialsBlockResubmit(s: LoginState, err: HttpErrorResponse)
    requires err.status == 401
          || (IsFieldValidationError(err)
              && (HasEntries(err.body.value.errors.value.email) || HasEntries(err.body.value.errors.value.password)))
    ensures OnLoginError(s, err).form.Invalid()
    ensures Submit(OnLoginError(s, err)).request.None?
  {
  }

  /** The block is not permanent: whatever the failure, retyping the password
      drops its `invalid` and `server` entries, and once both boxes hold values
      the validators accept, the next submit sends exactly those values */
  lemma EditingLiftsRejection(s: LoginState, err: HttpErrorResponse, email: string, password: string)
    ensures var t := EditPassword(OnLoginError(s, err), password);
            InvalidKey !in OrEmpty(t.form.password.errors) && ServerKey !in OrEmpty(t.form.password.errors)
    ensures email != "" && PasswordValid(password) ==>
              Submit(EditPassword(EditEmail(OnLoginError(s, err), email, true), password)).request
                == Some(LoginRequest(email, password))
  {
  }

  /** Handling the same failure twice leaves the same state as handling it
      once: the stale `server` entry is replaced, never stacked */
  lemma ErrorHandlingIsIdempotent(s: LoginState, err: HttpErrorResponse)
    ensures OnLoginError(OnLoginError(s, err), err) == OnLoginError(s, err)
  {
    var once := OnLoginError(s, err);
    var twice := OnLoginError(once, err);
    ReStripEmail(s, err);
    ReStripPassword(s, err);
    assert twice.form.email == once.form.email;
    assert twice.form.password == once.form.password;
  }

  /** Stripping twice is stripping once */
  lemma StripServerIdempotent(errs: Option<ValidationErrors>)
    ensures StripServer(StripServer(errs)) == StripServer(errs)
  {
  }

  /** On a map without a truthy `server` entry, setting `server` or `invalid`,
      stripping, and setting it again gives the map the first setting gave */
  lemma MergeAfterStrip(errs: Option<ValidationErrors>, key: string, v: ErrorValue)
    requires key == ServerKey || key == InvalidKey
    requires !(ServerKey in OrEmpty(errs) && OrEmpty(errs)[ServerKey].Truthy())
    ensures MergeKey(StripServer(MergeKey(errs, key, v)), key, v) == MergeKey(errs, key, v)
  {
    var m := MergeKey(errs, key, v);
    var again := MergeKey(StripServer(m), key, v);
    if key == ServerKey && v.Truthy() {
      var e := OrEmpty(errs);
      var rest := m.value - {ServerKey};
      assert rest == e - {ServerKey};
      if rest.Keys == {} {
        assert e.Keys <= {ServerKey};
        assert e[ServerKey := v] == map[ServerKey := v];
      } else {
        assert rest[ServerKey := v] == e[ServerKey := v];
      }
    } else {
      assert StripServer(m) == m;
      assert m.value[key := v] == m.value;
    }
  }

  lemma ReStripEmail(s: LoginState, err: HttpErrorResponse)
    ensures OnLoginError(OnLoginError(s, err), err).form.email.errors == OnLoginError(s, err).form.email.errors
  {
    StripServerIdempotent(s.form.email.errors);
    if IsFieldValidationError(err) && HasEntries(err.body.value.errors.value.email) {
      MergeAfterStrip(StripServer(s.form.email.errors), ServerKey, Message(err.body.value.errors.value.email.value[0]));
    }
  }

  lemma ReStripPassword(s: LoginState, err: HttpErrorResponse)
    ensures OnLoginError(OnLoginError(s, err), err).form.password.errors == OnLoginError(s, err).form.password.errors
  {
    StripServerIdempotent(s.form.password.errors);
    if IsFieldValidationError(err) {
      if HasEntries(err.body.value.errors.value.password) {
        MergeAfterStrip(StripServer(s.form.password.errors), ServerKey, Message(err.body.value.errors.value.password.value[0]));
      }
    } else if err.status == 401 {
      MergeAfterStrip(StripServer(s.form.password.errors), InvalidKey, Flag(true));
    }
  }

  // ---------------------------------------------------------------------------
  // What the submit gate guarantees
  // ---------------------------------------------------------------------------

  /** Every error the validators report for the control's value is still in
      its error map (server entries may come on top) */
  ghost predicate Reflects(c: Control, v: Option<ValidationErrors>) {
    v.Some? ==> c.errors.Some? && forall k :: k in v.value ==> k in c.errors.value && c.errors.value[k] == v.value[k]
  }

  /** The invariant the handlers keep: the password control reflects its
      validators and the email control reflects `required` */
  ghost predicate Consistent(s: LoginState) {
    && Reflects(s.form.password, PasswordErrors(s.form.password.value))
    && Reflects(s.form.email, Collapse(RequiredErrors(s.form.email.value)))
  }

  lemma CreateIsConsistent()
    ensures Consistent(Create())
  {
  }

  /** Typing in either box keeps the invariant: the validators rerun */
  lemma EditsKeepConsistent(s: LoginState, email: string, formatOk: bool, password: string)
    requires Consistent(s)
    ensures Consistent(EditEmail(s, email, formatOk))
    ensures Consistent(EditPassword(s, password))
  {
    var e := RequiredErrors(email) + (if email == "" || formatOk then map[] else map["email" := Flag(true)]);
    assert "required" in RequiredErrors(email) ==> "required" in e;
  }

  /** Toggling, submitting and a login response keep the invariant: none of
      them touches a value or an error map except to mark controls touched */
  lemma SubmitAndResponseKeepConsistent(s: LoginState, store: Store, res: Option<LoginResponse>)
    requires Consistent(s)
    ensures Consistent(TogglePassword(s))
    ensures Consistent(Submit(s).state)
    ensures Consistent(OnLoginResponse(s, store, res).state)
  {
  }

  /** The error handler keeps the invariant */
  lemma ErrorHandlingKeepsConsistent(s: LoginState, err: HttpErrorResponse)
    requires Consistent(s)
    ensures Consistent(OnLoginError(s, err))
  {
    NoValidatorUsesServerKeys(s.form.email.value, s.form.password.value);
    StripKeepsReflects(s.form.email, Collapse(RequiredErrors(s.form.email.value)));
    StripKeepsReflects(s.form.password, PasswordErrors(s.form.password.value));
  }

  /** The validators report under their own names only, never under `server`
      or `invalid`, and never as an empty object */
  lemma NoValidatorUsesServerKeys(email: string, password: string)
    ensures var v := Collapse(RequiredErrors(email));
            v.Some? ==> ServerKey !in v.value && InvalidKey !in v.value && v.value != map[]
    ensures var v := PasswordErrors(password);
            v.Some? ==> ServerKey !in v.value && InvalidKey !in v.value && v.value != map[]
  {
  }

  /** Stripping `server` and merging `server` or `invalid` keep every
      validator key, since no validator reports under those names */
  lemma StripKeepsReflects(c: Control, v: Option<ValidationErrors>)
    requires Reflects(c, v)
    requires v.Some? ==> ServerKey !in v.value && InvalidKey !in v.value && v.value != map[]
    ensures Reflects(c.(errors := StripServer(c.errors)), v)
    ensures forall key, x :: key == ServerKey || key == InvalidKey ==>
              Reflects(c.(errors := MergeKey(StripServer(c.errors), key, x)), v)
  {
    if v.Some? {
      var k :| k in v.value;
      assert k in OrEmpty(StripServer(c.errors));
    }
  }

  /** The gate: on a consistent state, any request `submit` sends carries a
      non-empty email and a password meeting the whole password policy */
  lemma SubmitSendsOnlyValidPasswords(s: LoginState)
    requires Consistent(s)
    requires Submit(s).request.Some?
    ensures Submit(s).request.value.email != ""
    ensures PasswordValid(Submit(s).request.value.password)
    ensures MinPasswordLength <= Utf16Length(Submit(s).request.value.password) <= MaxPasswordLength
  {
    assert "required" in RequiredErrors("");
    PasswordPolicy(s.form.password.value);
  }
}
