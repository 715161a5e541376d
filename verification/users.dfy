/**
 * The user table as the driver sees it through Sentry_User: a row per user
 * id, an index from the values `retrieve` accepts (an id or a login-column
 * value) to the row, and `check_password` against one stored field.
 */
module Users {
  import opened Wrappers

  /** Primary key of a user row; the driver logs in with `(int) $user->get('id')`. */
  type UserId = nat

  /**
   * The columns the driver reads or writes. A null column is the empty
   * string; `activated` and `status` keep the integer the driver compares
   * against 1.
   */
  datatype User = User(
    email: string,
    password: string,
    activated: int,
    status: int,
    activationHash: string,
    passwordResetHash: string,
    tempPassword: string,
    rememberMe: string,
    lastLogin: int,
    ipAddress: string)

  /** The `$field` argument of `validate_user`: which stored secret is checked. */
  datatype Field = Password | ActivationHash | PasswordResetHash

  /** The stored value `check_password` compares a supplied secret with. */
  function Stored(u: User, field: Field): string {
    match field
    case Password => u.password
    case ActivationHash => u.activationHash
    case PasswordResetHash => u.passwordResetHash
  }

  /**
   * `$user->check_password($password, $field)`. Hashing is not modelled: a
   * secret matches when it equals the stored field.
   */
  predicate CheckPassword(u: User, supplied: string, field: Field) {
    Stored(u, field) == supplied
  }

  /** Rows by id, and the lookup Sentry_User performs from an id or login value. */
  datatype UserDb = UserDb(rows: map<UserId, User>, index: map<string, UserId>)

  /** The row `new Sentry_User($key)` would load, if any. */
  function Find(db: UserDb, key: string): (r: Option<UserId>)
    ensures r.Some? <==> key in db.index && db.index[key] in db.rows
    ensures r.Some? ==> r.value == db.index[key] && r.value in db.rows
  {
    if key in db.index && db.index[key] in db.rows then Some(db.index[key]) else None
  }

  /** Row `id` was rewritten at most: the index and every other row are as before. */
  predicate OnlyRowChanged(db: UserDb, db': UserDb, id: UserId) {
    && db'.index == db.index
    && db'.rows.Keys == db.rows.Keys
    && forall other :: other in db.rows && other != id ==> db'.rows[other] == db.rows[other]
  }

  /** `$user->update(...)`: writes the whole row back under its id. */
  function Put(db: UserDb, id: UserId, u: User): (db': UserDb)
    requires id in db.rows
    ensures OnlyRowChanged(db, db', id)
    ensures db'.rows[id] == u
    ensures forall key :: Find(db', key) == Find(db, key)
  {
    db.(rows := db.rows[id := u])
  }
}
