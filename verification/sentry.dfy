/**
 * The Sentry auth driver: login attempts with failure throttling, forced
 * login, account activation and the two-step password reset. Every public
 * operation is a pure transition from a `State` to a `Step`: the value the
 * PHP method returns (or the exception it throws) together with the state
 * it leaves behind. Framework facades become parameters: `Config` for
 * `Config::get`, `Env` for `Request::ip()` and `time()`.
 */
module Sentry {
  import opened Wrappers
  import opened Php
  import opened Users
  import opened Attempts

  /** The language keys of the messages the driver throws with. */
  datatype Message =
    | UserNotFound        // sentry::sentry.user_not_found, thrown by force_login
    | UserLookupFailed    // the message of Sentry_User's own not-found exception
    | AccountNotActivated // sentry::sentry.account_not_activated
    | AccountIsDisabled   // sentry::sentry.account_is_disabled
    | LoginSuspended      // the message Sentry_Attempts::suspend raises

  /** The two exception classes that can leave the driver. */
  datatype Exception =
    | SentryException(msg: Message)
    | SentryUserSuspendedException(msg: Message)

  /** What `parent::login` stores: the user id, or the value force_login was given. */
  datatype Token = UserToken(id: UserId) | GivenToken(value: string)

  /** The session: the token, the remember-me choice and the provider tag. */
  datatype Session = Session(token: Token, remember: bool, provider: string)

  /**
   * `auth.username` (the login column), `auth.sentry.suspend` and the
   * attempt limit Sentry_Attempts::get_limit reads from configuration.
   */
  datatype Config = Config(loginColumn: string, suspend: bool, limit: int)

  /** The request's ip address and the clock reading `time()`. */
  datatype Env = Env(ip: string, now: int)

  datatype State = State(users: UserDb, attempts: Store, session: Option<Session>)

  /** An operation's return value or exception, and the state it leaves. */
  datatype Step<T> = Step(result: Result<T, Exception>, state: State)

  /** The `$arguments` array of `attempt`, with every entry in its PHP string form. */
  datatype Arguments = Arguments(fields: map<string, string>)

  /** `base64_encode($login) . '/' . $hash`, kept abstract and injective. */
  datatype ResetLink = ResetLink(login: string, hash: string)

  /** The array `reset_password` returns when the row was written. */
  datatype ResetConfirmation = ResetConfirmation(email: string, passwordResetHash: string, link: ResetLink)

  const SentryProvider: string := "Sentry"
  const ForcedProvider: string := "Sentry-Forced"
  /** Length of the reset hash, `Str::random(24)`. */
  const ResetHashLength: nat := 24

  // ---------------------------------------------------------------- session

  /** `logout`: forget the session and its provider; users and attempts are untouched. */
  function Logout(st: State): (r: State)
    ensures r.session.None?
    ensures r.users == st.users && r.attempts == st.attempts
  {
    st.(session := None)
  }

  /** `login`: establish a session with the given token, remember flag and provider. */
  function Login(st: State, token: Token, remember: bool, provider: string): (r: State)
    ensures r.session.Some? && r.session.value.token == token
    ensures r.session.value.remember == remember && r.session.value.provider == provider
    ensures r.users == st.users && r.attempts == st.attempts
  {
    st.(session := Some(Session(token, remember, provider)))
  }

  // ---------------------------------------------------------------- lookup

  /** `retrieve($id)` for a truthy id: the row Sentry_User loads, or its exception. */
  function Load(db: UserDb, id: string): (r: Result<UserId, Exception>)
    requires Truthy(id)
    ensures r.Ok? <==> Find(db, id).Some?
    ensures r.Ok? ==> r.value == Find(db, id).value
    ensures r.Err? ==> r.error == SentryException(UserLookupFailed)
  {
    match Find(db, id)
    case Some(uid) => Ok(uid)
    case None => Err(SentryException(UserLookupFailed))
  }

  /**
   * `new Sentry_User($this->token)`: the user the current session's token
   * names, or null when there is no session or its token is falsy.
   */
  function SessionUser(db: UserDb, session: Option<Session>): (r: Result<Option<UserId>, Exception>)
    ensures session.None? ==> r == Ok(None)
    ensures r.Ok? && r.value.Some? ==> r.value.value in db.rows
    ensures r.Err? ==> r.error == SentryException(UserLookupFailed)
    ensures session.Some? && session.value.token == UserToken(0) ==> r == Ok(None)
    ensures session.Some? && session.value.token.UserToken? && session.value.token.id != 0 ==>
      && (r.Ok? <==> session.value.token.id in db.rows)
      && (r.Ok? ==> r == Ok(Some(session.value.token.id)))
    ensures session.Some? && session.value.token.GivenToken? && Truthy(session.value.token.value) ==>
      && (r.Ok? <==> Find(db, session.value.token.value).Some?)
      && (r.Ok? ==> r == Ok(Some(Find(db, session.value.token.value).value)))
    ensures session.Some? && session.value.token.GivenToken? && !Truthy(session.value.token.value) ==>
      r == Ok(None)
  {
    match session
    case None => Ok(None)
    case Some(s) =>
      match s.token
      case UserToken(n) =>
        if n == 0 then Ok(None)
        else if n in db.rows then Ok(Some(n))
        else Err(SentryException(UserLookupFailed))
      case GivenToken(v) =>
        if !Truthy(v) then Ok(None)
        else
          match Load(db, v)
          case Ok(uid) => Ok(Some(uid))
          case Err(e) => Err(e)
  }

  /**
   * `retrieve($id)` with a string id: a truthy id loads its row or throws;
   * a falsy one falls back to the session's user, or null without a session.
   */
  function Retrieve(db: UserDb, id: string, session: Option<Session>): (r: Result<Option<UserId>, Exception>)
    ensures Truthy(id) ==> (r.Ok? <==> Find(db, id).Some?)
    ensures Truthy(id) && r.Ok? ==> r.value == Find(db, id)
    ensures !Truthy(id) ==> r == SessionUser(db, session)
    ensures !Truthy(id) && session.None? ==> r == Ok(None)
    ensures r.Err? ==> r.error == SentryException(UserLookupFailed)
  {
    if Truthy(id) then
      match Load(db, id)
      case Ok(uid) => Ok(Some(uid))
      case Err(e) => Err(e)
    else
      SessionUser(db, session)
  }

  // ---------------------------------------------------------------- validation

  /** Fields whose mismatch may be counted as a failed attempt. */
  predicate Counted(field: Field) {
    field == Password || field == PasswordResetHash
  }

  /** `validate_user`'s activation gate refuses the user `login` names. */
  predicate NotActivated(users: UserDb, login: string, field: Field) {
    && Find(users, login).Some?
    && users.rows[Find(users, login).value].activated != 1
    && field != ActivationHash
  }

  /** The activation gate lets the user through and the status gate refuses it. */
  predicate Disabled(users: UserDb, login: string, field: Field) {
    && Find(users, login).Some?
    && var u := users.rows[Find(users, login).value];
    && (u.activated == 1 || field == ActivationHash) && u.status != 1
  }

  /** Both gates let the user through and the secret does not match the field. */
  predicate Mismatch(users: UserDb, login: string, secret: string, field: Field) {
    && Find(users, login).Some?
    && var u := users.rows[Find(users, login).value];
    && (u.activated == 1 || field == ActivationHash) && u.status == 1 && !CheckPassword(u, secret, field)
  }

  /**
   * `validate_user`: load the row, apply the activation gate (waived for
   * activation codes), then the status gate, then compare the secret. A
   * mismatch returns false and, when `stray` holds and the field is a
   * password or reset hash, records a failure under (login, ip).
   *
   * `stray` is the value of `$this->$suspend` at sentry.php line 463: the
   * code reads a property named by an undefined local, not the `suspend`
   * configuration flag, so the model leaves it as a free parameter.
   */
  function ValidateUser(st: State, login: string, password: string, field: Field, env: Env, stray: bool)
    : (r: Step<Option<UserId>>)
    requires Truthy(login)
    ensures r.state.users == st.users && r.state.session == st.session
    ensures r.result == Err(SentryException(UserLookupFailed)) <==> Find(st.users, login).None?
    ensures Find(st.users, login).Some? ==>
      var u := st.users.rows[Find(st.users, login).value];
      && (r.result == Err(SentryException(AccountNotActivated)) <==>
            u.activated != 1 && field != ActivationHash)
      && (r.result == Err(SentryException(AccountIsDisabled)) <==>
            (u.activated == 1 || field == ActivationHash) && u.status != 1)
      && (r.result == Ok(None) <==>
            (u.activated == 1 || field == ActivationHash) && u.status == 1 && !CheckPassword(u, password, field))
      && (r.result == Ok(Some(Find(st.users, login).value)) <==>
            (u.activated == 1 || field == ActivationHash) && u.status == 1 && CheckPassword(u, password, field))
    ensures r.result.Ok? && r.result.value.Some? ==> r.result.value == Find(st.users, login)
    ensures r.state.attempts ==
      if r.result == Ok(None) && stray && Counted(field) then Add(st.attempts, Key(Some(login), env.ip))
      else st.attempts
  {
    match Load(st.users, login)
    case Err(e) => Step(Err(e), st)
    case Ok(id) =>
      var u := st.users.rows[id];
      if u.activated != 1 && field != ActivationHash then
        Step(Err(SentryException(AccountNotActivated)), st)
      else if u.status != 1 then
        Step(Err(SentryException(AccountIsDisabled)), st)
      else if !CheckPassword(u, password, field) then
        var attempts := if stray && Counted(field) then Add(st.attempts, Key(Some(login), env.ip)) else st.attempts;
        Step(Ok(None), st.(attempts := attempts))
      else
        Step(Ok(Some(id)), st)
  }

  // ---------------------------------------------------------------- attempt

  /** `$arguments[$login_column]`. */
  function LoginValue(cfg: Config, args: Arguments): Option<string> {
    Index(args.fields, cfg.loginColumn)
  }

  /** `array_get($arguments, 'remember')` as a boolean: a missing entry is null, hence false. */
  function RememberValue(args: Arguments): (b: bool)
    ensures b <==> "remember" in args.fields && Truthy(args.fields["remember"])
  {
    var v := Index(args.fields, "remember");
    v.Some? && Truthy(v.value)
  }

  /** `$arguments['password']`. */
  function PasswordValue(args: Arguments): Option<string> {
    Index(args.fields, "password")
  }

  /**
   * The Sentry_Attempts key `attempt` checks and clears. It is built from
   * `$arguments['username']` whatever the login column is, so it can be null.
   */
  function GateKey(args: Arguments, env: Env): Key {
    Key(Index(args.fields, "username"), env.ip)
  }

  /** Suspension is on and the pair has used up its limit. */
  predicate Throttled(cfg: Config, s: Store, k: Key) {
    cfg.suspend && Get(s, k) >= cfg.limit
  }

  /**
   * The arguments array `attempt` builds from explicit parameters. A later
   * entry of the array literal overwrites an earlier one with the same key,
   * so a login column named 'password' or 'remember' loses the login value;
   * the boolean 'remember' entry is kept in its PHP string form.
   */
  function ExplicitArguments(cfg: Config, login: string, password: string, remember: bool): (a: Arguments)
    ensures PasswordValue(a) == Some(password)
    ensures cfg.loginColumn != "password" && cfg.loginColumn != "remember" ==> LoginValue(cfg, a) == Some(login)
    ensures cfg.loginColumn == "remember" ==> LoginValue(cfg, a) == Some(BoolString(remember))
    ensures cfg.loginColumn == "username" ==> Index(a.fields, "username") == Some(login)
    ensures cfg.loginColumn != "username" ==> "username" !in a.fields
    ensures RememberValue(a) == remember
  {
    Arguments(map[cfg.loginColumn := login, "password" := password, "remember" := BoolString(remember)])
  }

  /** What a successful login leaves in a row with the given `now` and `ip`. */
  function Touch(u: User, env: Env): (u': User)
    ensures u'.lastLogin == env.now && u'.ipAddress == env.ip
    ensures Truthy(u.passwordResetHash) ==> u'.passwordResetHash == "" && u'.tempPassword == ""
    ensures !Truthy(u.passwordResetHash) ==>
      u'.passwordResetHash == u.passwordResetHash && u'.tempPassword == u.tempPassword
    ensures u'.email == u.email && u'.password == u.password && u'.rememberMe == u.rememberMe
    ensures u'.activated == u.activated && u'.status == u.status && u'.activationHash == u.activationHash
  {
    var cleared := if Truthy(u.passwordResetHash) then u.(passwordResetHash := "", tempPassword := "") else u;
    cleared.(lastLogin := env.now, ipAddress := env.ip)
  }

  /** The user the login column names exists, is activated and enabled, and the password matches. */
  predicate Accepts(users: UserDb, login: string, password: string) {
    && Find(users, login).Some?
    && var u := users.rows[Find(users, login).value];
    && u.activated == 1 && u.status == 1 && CheckPassword(u, password, Password)
  }

  /**
   * `attempt`: log out, apply the suspension gate, reject empty input,
   * validate the password and, on success, clear the failures, update the
   * row and log the user in with provider 'Sentry'.
   */
  function Attempt(cfg: Config, st: State, args: Arguments, env: Env, stray: bool): (r: Step<bool>)
    ensures r.state.session.Some? <==> r.result == Ok(true)
    ensures r.result.Err? ==> r.result.error.SentryException?
    ensures r.result == Err(SentryException(LoginSuspended)) <==> Throttled(cfg, st.attempts, GateKey(args, env))
    ensures forall k: Key :: k.ip != env.ip ==> Unaffected(st.attempts, r.state.attempts, k)
    ensures Throttled(cfg, st.attempts, GateKey(args, env)) ==>
      r == Step(Err(SentryException(LoginSuspended)),
                State(st.users, Suspend(st.attempts, GateKey(args, env)), None))
    ensures (!Throttled(cfg, st.attempts, GateKey(args, env))
             && (Empty(LoginValue(cfg, args)) || Empty(PasswordValue(args)))) ==>
      r == Step(Ok(false), Logout(st))
    ensures r.result == Ok(true) <==>
      && !Throttled(cfg, st.attempts, GateKey(args, env))
      && !Empty(LoginValue(cfg, args)) && !Empty(PasswordValue(args))
      && Accepts(st.users, LoginValue(cfg, args).value, PasswordValue(args).value)
    ensures r.result == Ok(false) <==>
      && !Throttled(cfg, st.attempts, GateKey(args, env))
      && (|| Empty(LoginValue(cfg, args)) || Empty(PasswordValue(args))
          || Mismatch(st.users, LoginValue(cfg, args).value, PasswordValue(args).value, Password))
    ensures r.result == Err(SentryException(UserLookupFailed)) <==>
      && !Throttled(cfg, st.attempts, GateKey(args, env))
      && !Empty(LoginValue(cfg, args)) && !Empty(PasswordValue(args))
      && Find(st.users, LoginValue(cfg, args).value).None?
    ensures r.result == Err(SentryException(AccountNotActivated)) <==>
      && !Throttled(cfg, st.attempts, GateKey(args, env))
      && !Empty(LoginValue(cfg, args)) && !Empty(PasswordValue(args))
      && NotActivated(st.users, LoginValue(cfg, args).value, Password)
    ensures r.result == Err(SentryException(AccountIsDisabled)) <==>
      && !Throttled(cfg, st.attempts, GateKey(args, env))
      && !Empty(LoginValue(cfg, args)) && !Empty(PasswordValue(args))
      && Disabled(st.users, LoginValue(cfg, args).value, Password)
    ensures r.result != Ok(true) ==> r.state.users == st.users
    ensures r.result.Err? && !Throttled(cfg, st.attempts, GateKey(args, env)) ==> r.state == Logout(st)
    ensures r.result == Ok(false) && !Empty(LoginValue(cfg, args)) && !Empty(PasswordValue(args)) ==>
      r.state.attempts == if stray then Add(st.attempts, Key(LoginValue(cfg, args), env.ip)) else st.attempts
    ensures r.result == Ok(true) ==>
      var id := Find(st.users, LoginValue(cfg, args).value).value;
      && r.state.session == Some(Session(UserToken(id), RememberValue(args), SentryProvider))
      && OnlyRowChanged(st.users, r.state.users, id)
      && r.state.users.rows[id] == Touch(st.users.rows[id], env)
      && (cfg.suspend ==>
            && Get(r.state.attempts, GateKey(args, env)) == 0
            && !IsSuspended(r.state.attempts, GateKey(args, env))
            && forall k :: k != GateKey(args, env) ==> Unaffected(st.attempts, r.state.attempts, k))
      && (!cfg.suspend ==> r.state.attempts == st.attempts)
  {
    var st1 := Logout(st);
    var gate := GateKey(args, env);
    if Throttled(cfg, st1.attempts, gate) then
      Step(Err(SentryException(LoginSuspended)), st1.(attempts := Suspend(st1.attempts, gate)))
    else if Empty(LoginValue(cfg, args)) || Empty(PasswordValue(args)) then
      Step(Ok(false), st1)
    else
      var v := ValidateUser(st1, LoginValue(cfg, args).value, PasswordValue(args).value, Password, env, stray);
      match v.result
      case Err(e) => Step(Err(e), v.state)
      case Ok(None) => Step(Ok(false), v.state)
      case Ok(Some(id)) =>
        var attempts := if cfg.suspend then Clear(v.state.attempts, gate) else v.state.attempts;
        var users := Put(v.state.users, id, Touch(v.state.users.rows[id], env));
        Step(Ok(true), Login(State(users, attempts, v.state.session), UserToken(id), RememberValue(args), SentryProvider))
  }

  // ---------------------------------------------------------------- force login

  /**
   * `force_login`: no credential check and no logout. An id that resolves
   * to no user throws and leaves the state as it was; otherwise the given
   * value becomes the session token, with remember off.
   */
  function ForceLogin(st: State, id: string, provider: string): (r: Step<bool>)
    ensures Truthy(id) ==> (r.result.Ok? <==> Find(st.users, id).Some?)
    ensures Truthy(id) && r.result.Err? ==> r.result.error == SentryException(UserLookupFailed)
    ensures !Truthy(id) && st.session.None? ==> r == Step(Err(SentryException(UserNotFound)), st)
    ensures Retrieve(st.users, id, st.session).Err? ==> r.result == Err(SentryException(UserLookupFailed))
    ensures Retrieve(st.users, id, st.session) == Ok(None) ==> r.result == Err(SentryException(UserNotFound))
    ensures r.result.Ok? <==> Retrieve(st.users, id, st.session).Ok? && Retrieve(st.users, id, st.session).value.Some?
    ensures r.result.Err? ==> r.state == st
    ensures r.result.Ok? ==>
      && r.result.value
      && r.state.session == Some(Session(GivenToken(id), false, provider))
      && r.state.users == st.users && r.state.attempts == st.attempts
  {
    match Retrieve(st.users, id, st.session)
    case Err(e) => Step(Err(e), st)
    case Ok(None) => Step(Err(SentryException(UserNotFound)), st)
    case Ok(Some(_)) => Step(Ok(true), Login(st, GivenToken(id), false, provider))
  }

  /** `force_login($id)` with the provider left at its default, 'Sentry-Forced'. */
  function ForceLoginDefault(st: State, id: string): (r: Step<bool>)
    ensures r.result.Ok? <==> Retrieve(st.users, id, st.session).Ok? && Retrieve(st.users, id, st.session).value.Some?
    ensures Retrieve(st.users, id, st.session).Err? ==> r.result == Err(SentryException(UserLookupFailed))
    ensures Retrieve(st.users, id, st.session) == Ok(None) ==> r.result == Err(SentryException(UserNotFound))
    ensures r.result.Err? ==> r.state == st
    ensures r.result.Ok? ==>
      && r.state.session == Some(Session(GivenToken(id), false, "Sentry-Forced"))
      && r.state.users == st.users && r.state.attempts == st.attempts
  {
    ForceLogin(st, id, ForcedProvider)
  }

  // ---------------------------------------------------------------- activation

  /**
   * `activate_user` with an already decoded login value: on a matching code
   * the row's activation hash is consumed and the account activated; the
   * updated row is returned.
   */
  function ActivateUser(st: State, login: string, code: string, env: Env, stray: bool): (r: Step<Option<User>>)
    ensures Empty(Some(login)) || Empty(Some(code)) ==> r == Step(Ok(None), st)
    ensures r.state.attempts == st.attempts && r.state.session == st.session
    ensures r.result.Err? ==>
      r.result.error == SentryException(UserLookupFailed) || r.result.error == SentryException(AccountIsDisabled)
    ensures r.result == Ok(None) <==>
      Empty(Some(login)) || Empty(Some(code)) || Mismatch(st.users, login, code, ActivationHash)
    ensures r.result == Err(SentryException(UserLookupFailed)) <==>
      !Empty(Some(login)) && !Empty(Some(code)) && Find(st.users, login).None?
    ensures r.result == Err(SentryException(AccountIsDisabled)) <==>
      !Empty(Some(login)) && !Empty(Some(code)) && Disabled(st.users, login, ActivationHash)
    ensures (r.result.Ok? && r.result.value.Some?) <==>
      && !Empty(Some(login)) && !Empty(Some(code))
      && Find(st.users, login).Some?
      && var u := st.users.rows[Find(st.users, login).value];
      && u.status == 1 && u.activationHash == code
    ensures r.result.Ok? && r.result.value.Some? ==>
      var id := Find(st.users, login).value;
      var before := st.users.rows[id];
      var after := r.result.value.value;
      && after.activationHash == "" && after.activated == 1
      && after == before.(activationHash := after.activationHash, activated := after.activated)
      && OnlyRowChanged(st.users, r.state.users, id)
      && r.state.users.rows[id] == after
    ensures !(r.result.Ok? && r.result.value.Some?) ==> r.state == st
  {
    if Empty(Some(login)) || Empty(Some(code)) then Step(Ok(None), st)
    else
      var v := ValidateUser(st, login, code, ActivationHash, env, stray);
      match v.result
      case Err(e) => Step(Err(e), v.state)
      case Ok(None) => Step(Ok(None), v.state)
      case Ok(Some(id)) =>
        var u := v.state.users.rows[id].(activationHash := "", activated := 1);
        Step(Ok(Some(u)), v.state.(users := Put(v.state.users, id, u)))
  }

  // ---------------------------------------------------------------- password reset

  /**
   * `reset_password`: stage the reset hash and the new password as the
   * temporary password, and drop the remember-me token. `hash` is the value
   * of `Str::random(24)`; `written` is what `$user->update` reports.
   */
  function ResetPassword(st: State, login: string, password: string, hash: string, written: bool)
    : (r: Step<Option<ResetConfirmation>>)
    ensures Empty(Some(login)) || Empty(Some(password)) ==> r == Step(Ok(None), st)
    ensures r.state.attempts == st.attempts && r.state.session == st.session
    ensures r.state.users.index == st.users.index && r.state.users.rows.Keys == st.users.rows.Keys
    ensures r.result.Err? <==> !Empty(Some(login)) && !Empty(Some(password)) && Find(st.users, login).None?
    ensures r.result.Err? ==> r.result.error == SentryException(UserLookupFailed)
    ensures (r.result.Ok? && r.result.value.Some?) <==>
      !Empty(Some(login)) && !Empty(Some(password)) && Find(st.users, login).Some? && written
    ensures !(r.result.Ok? && r.result.value.Some?) ==> r.state == st
    ensures r.result.Ok? && r.result.value.Some? ==>
      var id := Find(st.users, login).value;
      var before := st.users.rows[id];
      var after := r.state.users.rows[id];
      && r.result.value.value == ResetConfirmation(before.email, hash, ResetLink(login, hash))
      && OnlyRowChanged(st.users, r.state.users, id)
      && after.passwordResetHash == hash && after.tempPassword == password && after.rememberMe == ""
      && after.password == before.password
      && after == before.(passwordResetHash := hash, tempPassword := password, rememberMe := "")
  {
    if Empty(Some(login)) || Empty(Some(password)) then Step(Ok(None), st)
    else
      match Load(st.users, login)
      case Err(e) => Step(Err(e), st)
      case Ok(id) =>
        var u := st.users.rows[id];
        if written then
          var u' := u.(passwordResetHash := hash, tempPassword := password, rememberMe := "");
          Step(Ok(Some(ResetConfirmation(u.email, hash, ResetLink(login, hash)))),
               st.(users := Put(st.users, id, u')))
        else
          Step(Ok(None), st)
  }

  /**
   * `reset_password_confirm` with an already decoded login value: reject
   * empty input, apply the suspension gate (whose exception is not caught
   * here), validate the reset hash and promote the temporary password.
   */
  function ResetPasswordConfirm(cfg: Config, st: State, login: string, code: string, env: Env, stray: bool)
    : (r: Step<bool>)
    ensures Empty(Some(login)) || Empty(Some(code)) ==> r == Step(Ok(false), st)
    ensures r.state.session == st.session
    ensures r.state.users.index == st.users.index && r.state.users.rows.Keys == st.users.rows.Keys
    ensures forall k: Key :: k.ip != env.ip ==> Unaffected(st.attempts, r.state.attempts, k)
    ensures !Empty(Some(login)) && !Empty(Some(code)) && Throttled(cfg, st.attempts, Key(Some(login), env.ip)) ==>
      r == Step(Err(SentryUserSuspendedException(LoginSuspended)),
                st.(attempts := Suspend(st.attempts, Key(Some(login), env.ip))))
    ensures r.result == Ok(true) <==>
      && !Empty(Some(login)) && !Empty(Some(code))
      && !Throttled(cfg, st.attempts, Key(Some(login), env.ip))
      && Find(st.users, login).Some?
      && var u := st.users.rows[Find(st.users, login).value];
      && u.activated == 1 && u.status == 1 && u.passwordResetHash == code
    ensures r.result == Ok(false) <==>
      || Empty(Some(login)) || Empty(Some(code))
      || (!Throttled(cfg, st.attempts, Key(Some(login), env.ip)) && Mismatch(st.users, login, code, PasswordResetHash))
    ensures r.result == Err(SentryException(UserLookupFailed)) <==>
      && !Empty(Some(login)) && !Empty(Some(code))
      && !Throttled(cfg, st.attempts, Key(Some(login), env.ip))
      && Find(st.users, login).None?
    ensures r.result == Err(SentryException(AccountNotActivated)) <==>
      && !Empty(Some(login)) && !Empty(Some(code))
      && !Throttled(cfg, st.attempts, Key(Some(login), env.ip))
      && NotActivated(st.users, login, PasswordResetHash)
    ensures r.result == Err(SentryException(AccountIsDisabled)) <==>
      && !Empty(Some(login)) && !Empty(Some(code))
      && !Throttled(cfg, st.attempts, Key(Some(login), env.ip))
      && Disabled(st.users, login, PasswordResetHash)
    ensures r.result.Err? && r.result.error.SentryException? ==> r.state == st
    ensures r.result != Ok(true) ==> r.state.users == st.users
    ensures r.result == Ok(false) && !Empty(Some(login)) && !Empty(Some(code)) ==>
      r.state.attempts == if stray then Add(st.attempts, Key(Some(login), env.ip)) else st.attempts
    ensures r.result == Ok(true) ==>
      var id := Find(st.users, login).value;
      var before := st.users.rows[id];
      var after := r.state.users.rows[id];
      && r.state.attempts == st.attempts
      && OnlyRowChanged(st.users, r.state.users, id)
      && after.password == before.tempPassword
      && after.passwordResetHash == "" && after.tempPassword == "" && after.rememberMe == ""
      && after == before.(password := after.password, passwordResetHash := "", tempPassword := "", rememberMe := "")
  {
    if Empty(Some(login)) || Empty(Some(code)) then Step(Ok(false), st)
    else
      var key := Key(Some(login), env.ip);
      if Throttled(cfg, st.attempts, key) then
        Step(Err(SentryUserSuspendedException(LoginSuspended)), st.(attempts := Suspend(st.attempts, key)))
      else
        var v := ValidateUser(st, login, code, PasswordResetHash, env, stray);
        match v.result
        case Err(e) => Step(Err(e), v.state)
        case Ok(None) => Step(Ok(false), v.state)
        case Ok(Some(id)) =>
          var u := v.state.users.rows[id];
          var u' := u.(password := u.tempPassword, passwordResetHash := "", tempPassword := "", rememberMe := "");
          Step(Ok(true), v.state.(users := Put(v.state.users, id, u')))
  }
}
