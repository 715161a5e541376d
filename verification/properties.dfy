/**
 * Properties that relate several driver calls: throttling across a run of
 * attempts, origin independence, the consequence of the 'username' key,
 * single use of activation codes and the password-reset round trip.
 */
module SentryProperties {
  import opened Wrappers
  import opened Php
  import opened Users
  import opened Attempts
  import opened Sentry

  /** The state after a run of login attempts from one origin, results ignored. */
  function Replay(cfg: Config, st: State, tries: seq<Arguments>, env: Env, stray: bool): State
    decreases |tries|
  {
    if tries == [] then st
    else Replay(cfg, Attempt(cfg, st, tries[0], env, stray).state, tries[1..], env, stray)
  }

  /** The user `login` names exists, is activated and is enabled. */
  predicate Active(users: UserDb, login: string) {
    && Find(users, login).Some?
    && var u := users.rows[Find(users, login).value];
    && u.activated == 1 && u.status == 1
  }

  /** Every attempt names `login` and carries a non-empty password that does not match. */
  predicate AllWrong(cfg: Config, users: UserDb, login: string, tries: seq<Arguments>) {
    forall i | 0 <= i < |tries| ::
      && LoginValue(cfg, tries[i]) == Some(login)
      && PasswordValue(tries[i]).Some? && Truthy(PasswordValue(tries[i]).value)
      && !Accepts(users, login, PasswordValue(tries[i]).value)
  }

  /**
   * With suspension on, the login column 'username' and failures counted,
   * each wrong password below the limit adds exactly one failure for the
   * (login, ip) pair and leaves the users untouched.
   */
  lemma {:induction false} FailedAttemptsAccumulate(
    cfg: Config, st: State, login: string, tries: seq<Arguments>, env: Env)
    requires cfg.suspend && cfg.loginColumn == "username"
    requires Truthy(login) && Active(st.users, login)
    requires AllWrong(cfg, st.users, login, tries)
    requires Get(st.attempts, Key(Some(login), env.ip)) + |tries| <= cfg.limit
    ensures Replay(cfg, st, tries, env, true).users == st.users
    ensures Get(Replay(cfg, st, tries, env, true).attempts, Key(Some(login), env.ip))
         == Get(st.attempts, Key(Some(login), env.ip)) + |tries|
    decreases |tries|
  {
    if tries != [] {
      var key := Key(Some(login), env.ip);
      assert GateKey(tries[0], env) == key;
      var step := Attempt(cfg, st, tries[0], env, true);
      assert step.result == Ok(false);
      assert step.state.users == st.users;
      assert Get(step.state.attempts, key) == Get(st.attempts, key) + 1;
      assert AllWrong(cfg, step.state.users, login, tries[1..]) by {
        forall i | 0 <= i < |tries[1..]|
          ensures LoginValue(cfg, tries[1..][i]) == Some(login)
        {
          assert tries[1..][i] == tries[i + 1];
        }
      }
      FailedAttemptsAccumulate(cfg, step.state, login, tries[1..], env);
    }
  }

  /**
   * Once `limit` wrong passwords have been tried from a fresh (login, ip)
   * pair, the next attempt for that login from that ip is refused as
   * suspended, whatever password it carries.
   */
  lemma SuspendedAfterLimit(
    cfg: Config, st: State, login: string, tries: seq<Arguments>, next: Arguments, env: Env)
    requires cfg.suspend && cfg.loginColumn == "username"
    requires Truthy(login) && Active(st.users, login)
    requires AllWrong(cfg, st.users, login, tries)
    requires Get(st.attempts, Key(Some(login), env.ip)) == 0 && |tries| == cfg.limit
    requires LoginValue(cfg, next) == Some(login)
    ensures Attempt(cfg, Replay(cfg, st, tries, env, true), next, env, true).result
         == Err(SentryException(LoginSuspended))
  {
    FailedAttemptsAccumulate(cfg, st, login, tries, env);
    assert GateKey(next, env) == Key(Some(login), env.ip);
  }

  /**
   * With the line-463 flag false, which is what `$this->$suspend` yields in
   * the source, one login attempt never raises the count of any pair.
   */
  lemma UncountedAttemptNeverRaises(cfg: Config, st: State, args: Arguments, env: Env)
    ensures forall k: Key :: Get(Attempt(cfg, st, args, env, false).state.attempts, k) <= Get(st.attempts, k)
  {
  }

  /**
   * The throttling as written: with the line-463 flag false, no run of
   * attempts raises any pair's count, so the suspension gate never fires for
   * a pair that starts below the limit, however many passwords fail.
   */
  lemma {:induction false} UncountedFailuresNeverThrottle(
    cfg: Config, st: State, tries: seq<Arguments>, next: Arguments, env: Env)
    ensures forall k: Key :: Get(Replay(cfg, st, tries, env, false).attempts, k) <= Get(st.attempts, k)
    ensures Get(st.attempts, GateKey(next, env)) < cfg.limit ==>
      Attempt(cfg, Replay(cfg, st, tries, env, false), next, env, false).result
        != Err(SentryException(LoginSuspended))
    decreases |tries|
  {
    if tries != [] {
      var step := Attempt(cfg, st, tries[0], env, false);
      UncountedAttemptNeverRaises(cfg, st, tries[0], env);
      UncountedFailuresNeverThrottle(cfg, step.state, tries[1..], next, env);
    }
  }

  /**
   * With the line-463 flag false, `reset_password_confirm` leaves every
   * pair's count as it was, whatever code it is given.
   */
  lemma UncountedResetConfirm(cfg: Config, st: State, login: string, code: string, env: Env)
    ensures forall k: Key ::
      Get(ResetPasswordConfirm(cfg, st, login, code, env, false).state.attempts, k) == Get(st.attempts, k)
  {
  }

  /**
   * Attempts from one ip never change the failure count or suspension of a
   * pair with another ip.
   */
  lemma {:induction false} OtherOriginUnaffected(
    cfg: Config, st: State, tries: seq<Arguments>, env: Env, stray: bool, k: Key)
    requires k.ip != env.ip
    ensures Unaffected(st.attempts, Replay(cfg, st, tries, env, stray).attempts, k)
    decreases |tries|
  {
    if tries != [] {
      var step := Attempt(cfg, st, tries[0], env, stray);
      OtherOriginUnaffected(cfg, step.state, tries[1..], env, stray, k);
    }
  }

  /** One attempt without a 'username' entry never raises the count under the null-login key. */
  lemma NullKeyNotRaised(cfg: Config, st: State, args: Arguments, env: Env, stray: bool)
    requires "username" !in args.fields
    ensures Get(Attempt(cfg, st, args, env, stray).state.attempts, Key(None, env.ip))
         <= Get(st.attempts, Key(None, env.ip))
  {
  }

  /**
   * `attempt` checks the pair keyed by `$arguments['username']` but
   * `validate_user` counts failures under the login-column value. When the
   * arguments carry no 'username' entry (an explicit-parameter call with
   * another login column), the checked count never grows, so from below the
   * limit no run of attempts, however many passwords fail, is ever refused
   * as suspended.
   */
  lemma {:induction false} UsernameKeyNeverThrottles(
    cfg: Config, st: State, tries: seq<Arguments>, next: Arguments, env: Env, stray: bool)
    requires forall i | 0 <= i < |tries| :: "username" !in tries[i].fields
    requires "username" !in next.fields
    requires Get(st.attempts, Key(None, env.ip)) < cfg.limit
    ensures Get(Replay(cfg, st, tries, env, stray).attempts, Key(None, env.ip))
         <= Get(st.attempts, Key(None, env.ip))
    ensures Attempt(cfg, Replay(cfg, st, tries, env, stray), next, env, stray).result
         != Err(SentryException(LoginSuspended))
    decreases |tries|
  {
    assert GateKey(next, env) == Key(None, env.ip);
    if tries != [] {
      var step := Attempt(cfg, st, tries[0], env, stray);
      NullKeyNotRaised(cfg, st, tries[0], env, stray);
      assert forall i | 0 <= i < |tries[1..]| :: tries[1..][i] == tries[i + 1];
      UsernameKeyNeverThrottles(cfg, step.state, tries[1..], next, env, stray);
    }
  }

  /**
   * An activation code works once: after a successful activation the same
   * call returns false and changes nothing.
   */
  lemma ActivationConsumed(st: State, login: string, code: string, env: Env, stray: bool)
    requires ActivateUser(st, login, code, env, stray).result.Ok?
    requires ActivateUser(st, login, code, env, stray).result.value.Some?
    ensures var s1 := ActivateUser(st, login, code, env, stray).state;
            ActivateUser(s1, login, code, env, stray) == Step(Ok(None), s1)
  {
  }

  /**
   * `reset_password` followed by `reset_password_confirm` with the issued
   * hash makes the submitted password the live one and clears the reset
   * state.
   */
  lemma ResetThenConfirm(cfg: Config, st: State, login: string, password: string, hash: string, env: Env, stray: bool)
    requires Truthy(login) && Truthy(password) && |hash| == ResetHashLength
    requires Active(st.users, login)
    requires !Throttled(cfg, st.attempts, Key(Some(login), env.ip))
    ensures var s1 := ResetPassword(st, login, password, hash, true).state;
            var r := ResetPasswordConfirm(cfg, s1, login, hash, env, stray);
            var id := Find(st.users, login).value;
            && r.result == Ok(true)
            && r.state.users.rows[id].password == password
            && r.state.users.rows[id].passwordResetHash == ""
            && r.state.users.rows[id].tempPassword == ""
  {
  }

  /**
   * After `reset_password` has issued `hash`, confirming with any other code,
   * such as one issued earlier, fails.
   */
  lemma StaleResetCodeRejected(
    cfg: Config, st: State, login: string, password: string, hash: string, code: string, env: Env, stray: bool)
    requires Truthy(login) && Truthy(password) && Find(st.users, login).Some?
    requires code != hash
    ensures var s1 := ResetPassword(st, login, password, hash, true).state;
            ResetPasswordConfirm(cfg, s1, login, code, env, stray).result != Ok(true)
  {
  }

  /** After a confirmed reset, logging in with the new password succeeds. */
  lemma NewPasswordLogsIn(
    cfg: Config, st: State, login: string, password: string, hash: string, env: Env, stray: bool, remember: bool)
    requires cfg.loginColumn != "password" && cfg.loginColumn != "remember"
    requires Truthy(login) && Truthy(password) && |hash| == ResetHashLength
    requires Active(st.users, login)
    requires !Throttled(cfg, st.attempts, Key(Some(login), env.ip))
    requires !Throttled(cfg, st.attempts, GateKey(ExplicitArguments(cfg, login, password, remember), env))
    ensures var s1 := ResetPassword(st, login, password, hash, true).state;
            var s2 := ResetPasswordConfirm(cfg, s1, login, hash, env, stray).state;
            Attempt(cfg, s2, ExplicitArguments(cfg, login, password, remember), env, stray).result == Ok(true)
  {
  }

  /**
   * A successful forced login with a truthy id is what a later `retrieve`
   * with a falsy id finds through the session token.
   */
  lemma ForceLoginThenRetrieve(st: State, id: string, provider: string)
    requires Truthy(id) && ForceLogin(st, id, provider).result.Ok?
    ensures var s1 := ForceLogin(st, id, provider).state;
            Retrieve(s1.users, "", s1.session) == Ok(Some(Find(st.users, id).value))
  {
  }

  /**
   * After a successful `attempt`, `retrieve` with a falsy id finds the user
   * who logged in, except for id 0, whose integer token PHP reads as false.
   */
  lemma AttemptThenRetrieve(cfg: Config, st: State, args: Arguments, env: Env, stray: bool)
    requires Attempt(cfg, st, args, env, stray).result == Ok(true)
    ensures var s1 := Attempt(cfg, st, args, env, stray).state;
            var id := Find(st.users, LoginValue(cfg, args).value).value;
            Retrieve(s1.users, "", s1.session) == if id == 0 then Ok(None) else Ok(Some(id))
  {
  }

  /** After `logout`, `retrieve` with a falsy id finds no user. */
  lemma LogoutThenRetrieve(st: State, id: string)
    requires !Truthy(id)
    ensures Retrieve(Logout(st).users, id, Logout(st).session) == Ok(None)
  {
  }
}
