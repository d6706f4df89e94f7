/**
 * The decisions of the signup and login routes: role coercion, the username
 * lookup and the credential check. Signup's insert is `AccessStore.Store.Signup`.
 */
module AuthRoutes {
  import opened Wrappers
  import opened Tables
  import opened UserSchema
  import opened Access

  /**
   * The role a new account gets: the supplied role when it is one of the
   * three allowed spellings, `Employee` when it is absent or anything else.
   */
  function CoerceRole(supplied: Option<string>): (r: Role)
    ensures supplied.Some? && ParseRole(supplied.value).Some? ==> RoleName(r) == supplied.value
    ensures supplied.None? || ParseRole(supplied.value).None? ==> r == Employee
  {
    match supplied
    case None => Employee
    case Some(s) =>
      match ParseRole(s)
      case Some(role) => role
      case None => Employee
  }

  /** Coercing the spelling of a coerced role gives the same role back. */
  lemma CoerceRoleIdempotent(supplied: Option<string>)
    ensures CoerceRole(Some(RoleName(CoerceRole(supplied)))) == CoerceRole(supplied)
  {
    ParseRoleName(CoerceRole(supplied));
  }

  /** A client asking for a role outside the enum is stored as an Employee. */
  lemma CoerceUnknownRole()
    ensures CoerceRole(Some("SuperAdmin")) == Employee
    ensures CoerceRole(Some("admin")) == Employee
  {
  }

  /** `findOne({ where: { username } })`. */
  function FindUserByName(users: seq<User>, username: string): (r: Option<User>)
    ensures r.Some? ==> r.value in users && r.value.username == username
    ensures r.None? <==> forall u :: u in users ==> u.username != username
  {
    match IndexWhere(users, (u: User) => u.username == username)
    case None => None
    case Some(i) => Some(users[i])
  }

  /** The claims match a stored user: what a token minted by `Login` asserts. */
  ghost predicate Authentic(users: seq<User>, caller: Claims)
  {
    exists u :: u in users && u.id == caller.id && u.username == caller.username && u.role == caller.role
  }

  /**
   * Login: look the user up by name, then check the password against the
   * stored hash with `verify`. An unknown username and a wrong password fail
   * alike; a success yields the stored user's id, username and role.
   */
  function Login(users: seq<User>, username: string, password: string,
                 verify: (string, string) -> bool): (r: Result<Claims, Error>)
    requires UsernamesUnique(users)
    ensures r.Failure? ==> r.error == InvalidCredentials
    ensures r.Success? <==> exists u :: u in users && u.username == username && verify(password, u.credential)
    ensures r.Success? ==> r.value.username == username && Authentic(users, r.value)
  {
    match FindUserByName(users, username)
    case None => Failure(InvalidCredentials)
    case Some(u) =>
      if verify(password, u.credential) then Success(Claims(u.id, u.username, u.role))
      else
        assert forall v :: v in users && v.username == username ==> v == u;
        Failure(InvalidCredentials)
  }
}
