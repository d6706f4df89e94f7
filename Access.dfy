/**
 * The authenticated caller and the role gate every route passes through
 * (`roleMiddleware([...])`), plus the typed failures of the core.
 */
module Access {
  import opened Wrappers
  import opened UserSchema

  /** The claims a login token carries: the stored user's id, username and role. */
  datatype Claims = Claims(id: nat, username: string, role: Role)

  /** The distinct failures the routes report. */
  datatype Error =
    | Unauthorized        // role not in the route's listed set
    | NotFound            // unknown software id or request id
    | InvalidAccessType   // access type not offered by the software
    | InvalidStatus       // resolution status other than Approved or Rejected
    | AlreadyProcessed    // the request is no longer Pending
    | DuplicateUsername   // signup with a username already taken
    | DuplicateSoftware   // software name already in the catalog
    | InvalidCredentials  // login failure, whatever the cause
    | StoreRejected       // the database refused the write (enum column)

  /** "caller role is in the listed set", and nothing more. */
  function Authorize(caller: Claims, allowed: set<Role>): (r: Outcome<Error>)
    ensures r == Pass <==> caller.role in allowed
    ensures r != Pass ==> r == Fail(Unauthorized)
  {
    if caller.role in allowed then Pass else Fail(Unauthorized)
  }
}
