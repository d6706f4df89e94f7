/**
 * The User entity: a row of the users table with a generated id, a unique
 * username, the stored password hash and a role drawn from a closed enum.
 */
module UserSchema {
  import opened Wrappers

  /** The `role` enum column. */
  datatype Role = Employee | Manager | Admin

  /** The column default of `role`. */
  const DefaultRole: Role := Employee

  /**
   * A users-table row. `credential` is the stored bcrypt hash, kept opaque;
   * the `requests` relation is derived from the requests table
   * (see `RequestSchema.RequestsOf`).
   */
  datatype User = User(id: nat, username: string, credential: string, role: Role)

  /** The spelling of a role in the database and in request bodies. */
  function RoleName(r: Role): string
  {
    match r
    case Employee => "Employee"
    case Manager => "Manager"
    case Admin => "Admin"
  }

  /** Reads a role from its spelling; anything outside the enum is refused. */
  function ParseRole(s: string): (r: Option<Role>)
    ensures r.Some? <==> s == "Employee" || s == "Manager" || s == "Admin"
    ensures r.Some? ==> RoleName(r.value) == s
  {
    if s == "Employee" then Some(Employee)
    else if s == "Manager" then Some(Manager)
    else if s == "Admin" then Some(Admin)
    else None
  }

  /** Every role survives being written out and read back. */
  lemma ParseRoleName(r: Role)
    ensures ParseRole(RoleName(r)) == Some(r)
  {
  }

  /** The `unique: true` constraint on `username`. */
  ghost predicate UsernamesUnique(users: seq<User>)
  {
    forall i, j :: 0 <= i < j < |users| ==> users[i].username != users[j].username
  }

  /**
   * The generated primary key: ids are positive, below the next value of the
   * sequence, and increase with insertion order (hence are distinct).
   */
  ghost predicate UserIdsGenerated(users: seq<User>, nextId: nat)
  {
    && 1 <= nextId
    && (forall i :: 0 <= i < |users| ==> 1 <= users[i].id < nextId)
    && (forall i, j :: 0 <= i < j < |users| ==> users[i].id < users[j].id)
  }
}
