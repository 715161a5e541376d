/**
 * The failed-login store behind Sentry_Attempts, reduced to the five calls
 * the driver makes: `get`, `get_limit` (a configuration value, see
 * `Sentry.Config`), `add`, `clear` and `suspend`.
 */
module Attempts {
  import opened Wrappers

  /**
   * A Sentry_Attempts object is built from a login value and an ip. The
   * login half is optional because `attempt` may pass a missing array entry.
   */
  datatype Key = Key(login: Option<string>, ip: string)

  /** Failure count and suspension mark of one (login, ip) pair. */
  datatype Record = Record(count: nat, suspended: bool)

  type Store = map<Key, Record>

  /** `$attempts->get()`: the failure count, 0 when nothing is recorded. */
  function Get(s: Store, k: Key): nat {
    if k in s then s[k].count else 0
  }

  /** Whether a suspension is recorded for the pair. */
  predicate IsSuspended(s: Store, k: Key) {
    k in s && s[k].suspended
  }

  /** Key `k` reads the same in both stores. */
  predicate Unaffected(s: Store, s': Store, k: Key) {
    Get(s', k) == Get(s, k) && IsSuspended(s', k) == IsSuspended(s, k)
  }

  /** `$attempts->add()`: one more failure for the pair, nothing else changes. */
  function Add(s: Store, k: Key): (s': Store)
    ensures Get(s', k) == Get(s, k) + 1
    ensures IsSuspended(s', k) == IsSuspended(s, k)
    ensures forall k' :: k' != k ==> Unaffected(s, s', k')
  {
    var rec := if k in s then s[k] else Record(0, false);
    s[k := rec.(count := rec.count + 1)]
  }

  /** `$attempts->clear()`: forget the pair's failures and suspension. */
  function Clear(s: Store, k: Key): (s': Store)
    ensures Get(s', k) == 0 && !IsSuspended(s', k)
    ensures forall k' :: k' != k ==> Unaffected(s, s', k')
  {
    s - {k}
  }

  /**
   * `$attempts->suspend()`: mark the pair suspended, keeping its count. The
   * call then raises SentryUserSuspendedException; the callers in the
   * `Sentry` module turn that into their error result.
   */
  function Suspend(s: Store, k: Key): (s': Store)
    ensures IsSuspended(s', k) && Get(s', k) == Get(s, k)
    ensures forall k' :: k' != k ==> Unaffected(s, s', k')
  {
    var rec := if k in s then s[k] else Record(0, false);
    s[k := rec.(suspended := true)]
  }
}
