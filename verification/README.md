# Sentry auth driver: a Dafny model

This project models the decision logic of the Sentry authentication driver
for Laravel (`sentry.php`). It covers logging in with failure throttling,
forced login, account activation and the two-step password reset. The model
is a functional state machine. `State` holds three parts:

- the user table, `Users.UserDb`: rows by id, plus the index Sentry_User
  uses to resolve an id or login-column value;
- the failed-attempt store, `Attempts.Store`, keyed by (login value, ip);
- the session, `Sentry.Session`: token, remember flag and provider tag.

Every public driver method is a pure function from a `State` to a `Step`. A
`Step` carries the method's return value or the exception it throws
(`SentryException` or `SentryUserSuspendedException`), plus the state it
leaves. Effects that happen before an exception stay in that state, as they
do in the PHP code. One example is the suspension mark written just before
`suspend()` throws.

The framework facades become explicit inputs:

- `Config`: the login column `auth.username`, the flag `auth.sentry.suspend`
  and the attempt limit;
- `Env`: `Request::ip()` and `time()`;
- the 24-character reset hash from `Str::random(24)`;
- the success flag returned by `Sentry_User::update`.

`check_password` is modelled as equality with the stored field. The
Sentry_Attempts calls `get`, `add`, `clear` and `suspend` are modelled as
operations on a map.

The model keeps three quirks of the source on purpose:

- `validate_user` decides whether to count a failure by reading
  `$this->$suspend` (sentry.php:463). `$suspend` is an undefined local
  there, so the expression reads a property named `''`. Nothing in the
  driver sets that property, so in the source the flag is never true. The
  model keeps the value as a boolean parameter, `stray`, so that both
  readings can be stated:
  - As written (`stray = false`), no failure is ever counted.
    `SentryProperties.UncountedFailuresNeverThrottle` proves that no run of
    attempts raises any pair's count. So the suspension gate never fires for
    a pair that starts below the limit.
    `SentryProperties.UncountedResetConfirm` proves the same for
    `reset_password_confirm`.
  - With the flag true, as the configuration flag was evidently meant to be
    read, and with the login column 'username', failures accumulate.
    `SentryProperties.SuspendedAfterLimit` proves that the attempt after
    `limit` wrong passwords is refused.
- `attempt` builds its throttling key from `$arguments['username']`
  (sentry.php:140), whatever the login column is. `validate_user` counts
  failures under the login-column value instead. The lemma
  `SentryProperties.UsernameKeyNeverThrottles` shows the consequence in the
  model. With another login column and explicit parameters, the gate is
  checked under a null login, whose record no failure ever raises, so the
  suspension gate never fires. This rests on how the model treats a
  Sentry_Attempts built with a null login (see "## Left out").
- `reset_password` dereferences `retrieve`'s result without a null check
  (sentry.php:302-315). In the model this cannot go wrong. The `empty()`
  guard already rejects every falsy value, and `retrieve` on a truthy value
  either loads a row or throws. A missing user is therefore the error result
  `SentryException(UserLookupFailed)`, not a precondition.
  `Sentry.ValidateUser` requires a truthy login value for the same reason:
  every caller has already applied that guard.

Four facts about the order of checks and the exceptions, each stated in the
contracts:

- `validate_user` throws "not activated" and "disabled" without recording a
  failed attempt (sentry.php:449-458). Only a credential mismatch can add one
  (sentry.php:461-466).
- `reset_password_confirm` rejects empty input (sentry.php:348-351) before
  it applies the suspension gate (sentry.php:353-363). `attempt` applies the
  gate first.
- `reset_password_confirm` does not catch the suspension exception
  (sentry.php:361), so it leaves the driver as
  `SentryUserSuspendedException`. `attempt` rethrows it as `SentryException`
  (sentry.php:145-152).
- Sentry_User's not-found exception is rethrown by `retrieve` as a
  `SentryException` (sentry.php:77-79). It reaches callers of a normal login
  that way.

Modules: `Wrappers` (Option, Result), `Php` (`empty()`, truthiness, array
indexing), `Users`, `Attempts`, `Sentry` (the driver) and `SentryProperties`
(properties that span several calls).

## Model

| member | source | states |
|---|---|---|
| Sentry.Logout | sentry.php:240-244 | logging out removes the session and its provider, and leaves the user table and the attempt store untouched |
| Sentry.Login | sentry.php:226-233 | logging in sets a session holding exactly the given token, remember flag and provider; users and attempts are unchanged |
| Sentry.SessionUser | sentry.php:67-71 | with no session, or a falsy token (id 0 or a falsy string), the result is null. A non-zero id token yields that id iff the row exists, and the lookup error otherwise. A truthy string token yields the user it resolves to iff it resolves, and the lookup error otherwise |
| Sentry.Load | sentry.php:63-66 | a truthy id loads exactly the row the index resolves it to; a missing row is the lookup failure, which retrieve rethrows as SentryException (lines 77-79) |
| Sentry.Retrieve | sentry.php:50-81 | a truthy id succeeds exactly when the index resolves it, and then returns that row; a falsy id falls back to the session's user, which is null without a session; any error is the lookup failure rethrown as SentryException |
| Sentry.ValidateUser | sentry.php:443-471 | a missing user throws lookup-failed; "not activated" is thrown iff activated != 1 and the field is not the activation hash; "disabled" is thrown iff that gate passes and status != 1; false is returned iff both gates pass and the secret mismatches, and the user id iff it matches; users and session never change; a failure is added under (login, ip) only on a mismatch when the line-463 flag holds and the field is the password or the reset hash |
| Sentry.ExplicitArguments | sentry.php:125-132 | the arguments built from explicit parameters carry the password. They carry the login under the login column, except that a later entry overwrites it: for the column 'password' the password wins, and for the column 'remember' the PHP string form of the remember flag wins. They have a 'username' entry only when the login column is 'username'. The remember flag read back from the 'remember' entry is the given flag |
| Sentry.Touch | sentry.php:171-188 | a successful login sets last_login and ip_address; it clears the reset hash and the temporary password only when a reset hash was present; email, password, remember_me, activated, status and the activation hash are unchanged |
| Sentry.RememberValue | sentry.php:191 | the remember flag handed to login is true exactly when the arguments hold a 'remember' entry that PHP reads as true; a missing entry reads as null, hence false |
| Users.Put | sentry.php:184-187 | writing a user row changes that row only, to exactly the given value, and every login still resolves to the same id |
| Sentry.Attempt | sentry.php:119-197 | after the call a session exists iff the result is true. When suspension is on and the 'username'/ip count has reached the limit, the result is the suspended SentryException, with the suspension recorded and the user logged out. Below the gate, each outcome is an iff: false for empty input or a password mismatch after both gates; lookup-failed for a missing user; not-activated and disabled exactly when those gates refuse the user; true when the user exists, is activated and enabled, and the password matches. On success the user is logged in with the user id, the remember flag and provider 'Sentry', only that row is rewritten as `Touch` states, and the gate key's failures are cleared when suspension is on. On a mismatch users are unchanged and one failure is added only when the line-463 flag holds. Exceptions other than the suspension leave only the logout. Pairs with another ip are never affected |
| Sentry.ForceLogin | sentry.php:207-218 | for a truthy id, the call succeeds iff the id resolves and otherwise throws lookup-failed; for any id, a retrieve that throws makes force_login rethrow lookup-failed, and a retrieve that yields null makes it throw user_not_found; a falsy id with no session throws user_not_found; any failure leaves the state unchanged; success stores the given id as the token with remember off and the given provider, and leaves users and attempts alone |
| Sentry.ForceLoginDefault | sentry.php:207-218 | force_login without a provider argument succeeds iff the id resolves; a retrieve that throws makes it rethrow lookup-failed and a null one makes it throw user_not_found; a failure changes nothing; on success the session carries the given id, remember off and provider 'Sentry-Forced', and users and attempts are unchanged |
| Sentry.ActivateUser | sentry.php:254-281 | empty input returns false and changes nothing. The call never touches attempts or the session and never throws "not activated". It returns false iff the input is empty or the code mismatches for an existing, enabled user. It throws lookup-failed iff the user is missing, and disabled iff the user exists with status != 1. It succeeds iff the user exists, is enabled and the code equals the stored activation hash. On success it returns and stores the row with the activation hash cleared and activated = 1, every other field as before |
| Sentry.ResetPassword | sentry.php:293-329 | empty input returns false and changes nothing; a missing user throws lookup-failed; when the write is reported, the row gets the new reset hash and temporary password and loses remember_me, the live password is unchanged, and the result is the user's email, the hash and the link; nothing else changes |
| Sentry.ResetPasswordConfirm | sentry.php:339-380 | empty input returns false before any suspension check. When the login/ip count has reached the limit, the uncaught SentryUserSuspendedException results and the suspension is recorded. Below the gate, each outcome is an iff: false on a reset-hash mismatch after both gates; lookup-failed, not-activated or disabled exactly when the lookup or that gate refuses; true iff the user exists, is activated and enabled, and the code equals the stored reset hash. A SentryException leaves the state unchanged. On success only that row changes: the password becomes the temporary password, and the reset hash, temporary password and remember_me are cleared. A mismatch adds a failure only when the line-463 flag holds |
| Attempts.Add | sentry.php:465 | adding a failure raises the pair's count by one and keeps its suspension mark; every other pair is unaffected |
| Attempts.Clear | sentry.php:168 | clearing the pair leaves it with no failures and no suspension; every other pair is unaffected |
| Attempts.Suspend | sentry.php:147 | suspending the pair marks it suspended and keeps its count; every other pair is unaffected |
| SentryProperties.FailedAttemptsAccumulate | sentry.php:461-466 | when suspension is on, the login column is 'username' and the flag holds, each wrong password tried below the limit adds exactly one failure for (login, ip) and leaves the user table unchanged |
| SentryProperties.SuspendedAfterLimit | sentry.php:138-154 | assuming the line-463 flag is true, which it never is in the source, and the login column is 'username': after exactly `limit` wrong passwords from a fresh pair, the next attempt for that login from that ip is refused as suspended, whatever password it carries |
| SentryProperties.UncountedAttemptNeverRaises | sentry.php:461-466 | with the line-463 flag false, as in the source, one attempt raises no pair's count |
| SentryProperties.UncountedFailuresNeverThrottle | sentry.php:138-168 | with the line-463 flag false, as in the source, no run of attempts raises any pair's count. The attempt that follows is never refused as suspended when its pair started below the limit |
| SentryProperties.UncountedResetConfirm | sentry.php:353-366 | with the line-463 flag false, reset_password_confirm leaves every pair's count unchanged |
| SentryProperties.OtherOriginUnaffected | sentry.php:140 | no run of attempts from one ip changes the count or suspension of a pair with another ip |
| SentryProperties.NullKeyNotRaised | sentry.php:140 | an attempt whose arguments lack a 'username' entry never raises the count kept under the null-login key |
| SentryProperties.UsernameKeyNeverThrottles | sentry.php:140-163 | when the arguments carry no 'username' entry and the checked count starts below the limit, no run of attempts is ever refused as suspended, however many passwords fail |
| SentryProperties.ActivationConsumed | sentry.php:268-277 | after a successful activation, the same call returns false and changes nothing |
| SentryProperties.ResetThenConfirm | sentry.php:293-380 | reset_password followed by reset_password_confirm with the issued hash returns true, makes the submitted password the live one and clears the reset hash and the temporary password |
| SentryProperties.StaleResetCodeRejected | sentry.php:366-376 | after reset_password has issued a hash, confirming with any other code, such as an earlier one, never succeeds |
| SentryProperties.NewPasswordLogsIn | sentry.php:369-374 | after a confirmed reset, logging in with the new password succeeds |
| SentryProperties.ForceLoginThenRetrieve | sentry.php:207-218 | after a successful force_login with a truthy id, retrieve with a falsy id finds that user through the session token |
| SentryProperties.AttemptThenRetrieve | sentry.php:191 | after a successful attempt, retrieve with a falsy id finds the user who logged in. The exception is id 0, whose integer token is falsy, so the result is null |
| SentryProperties.LogoutThenRetrieve | sentry.php:240-244 | after logout, retrieve with a falsy id finds no user |

## Left out

- SentryProperties.UsernameKeyNeverThrottles: Sentry_Attempts is not shown. The model treats one built with a null login as its own (null, ip) record, separate from every (login, ip) record. A store that matched a null login on the ip alone would let the gate count grow with each counted failure from that ip, and this lemma would not hold.
- SentryProperties.NullKeyNotRaised: rests on the same treatment of a null login as its own (null, ip) record.
- Sentry.ValidateUser: on PHP releases before 7.1, reading the empty-named property at sentry.php:463 is a fatal error rather than a false value. The model represents only the value the read yields, as a parameter, and not a fatal error.
- Sentry.ActivateUser: the `$decode` path (`base64_decode` of the login value) is not modelled; the function takes the already decoded value.
- Sentry.ResetPasswordConfirm: the `$decode` path is not modelled for the same reason.
- Sentry.ResetPassword: `base64_encode` in the link is kept abstract as `ResetLink(login, hash)`. The hash from `Str::random(24)` is a parameter.
- Sentry.Retrieve: the `user_cache` memoisation and the `$id === null` branch, which returns `$this->user`, are not modelled. No caller in the core passes null.
- Sentry.ForceLogin: `$id` may be an int or a string; strings are the only scalars modelled, so an integer id is taken in its string form, stored as a string token and resolved through the login index rather than by row id as an integer token would be.
- Sentry.ForceLogin: the assignment of the loaded user to the driver's `$this->user` cache is not modelled; only the session effect is.
- Sentry.Login: the remember-me cookie written by `parent::login` is reduced to the session's remember flag.
- Users.CheckPassword: password hashing and salting inside Sentry_User are not shown; a secret matches when it equals the stored field.
- Attempts.Suspend: Sentry_Attempts is not shown. Its suspension length, expiry and lazy clearing depend on the clock and are not modelled. The model records a suspended mark, and its callers raise the suspended exception as `suspend()` does.
- `get_limit` is the `limit` field of `Config`, not a store query.
- The return value of `Sentry_User::update` is modelled only where the driver reads it, in `reset_password`. There a failed write leaves the state unchanged. The `updated_at` touch flag is not modelled.
- PHP loose comparison of string columns with 1 is not modelled; `activated` and `status` are integers.
- `group`, `group_exists`, `user_exists` and the `attempts` factory are lookups with no decision logic. They are not modelled.
- Concurrent access to attempt records and user rows is not modelled. Each operation is one atomic transition.
- `start.php` only registers the autoloader and the auth driver, so it is not modelled.
