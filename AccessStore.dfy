/**
 * The service's database as one in-memory store: the users, software and
 * requests tables, one id sequence per table and a logical clock that stands
 * in for the `createdAt`/`updatedAt` timestamps. The four writes of the
 * routes are its methods; reads are the functions of the route modules
 * applied to its tables.
 */
module AccessStore {
  import opened Wrappers
  import opened Tables
  import opened UserSchema
  import opened SoftwareSchema
  import opened RequestSchema
  import opened Access
  import opened AuthRoutes
  import opened SoftwareRoutes
  import opened RequestRoutes

  /** A stored user with this id and this role exists. */
  ghost predicate HasUser(users: seq<User>, id: nat, role: Role)
  {
    exists u :: u in users && u.id == id && u.role == role
  }

  /** A stored software with this id offers this access type. */
  ghost predicate Offers(catalog: seq<Software>, softwareId: nat, a: AccessType)
  {
    exists s :: s in catalog && s.id == softwareId && AccessTypeName(a) in s.accessLevels
  }

  /**
   * What holds of every stored request: it was made by an Employee for an
   * access type its software offers, it carries a resolver exactly when it
   * is decided and that resolver is a Manager, and its timestamps are past
   * readings of the clock.
   */
  ghost predicate RequestWellFormed(q: Request, users: seq<User>, catalog: seq<Software>, clock: nat)
  {
    && HasUser(users, q.user, Employee)
    && Offers(catalog, q.software, q.accessType)
    && (q.updatedBy.Some? <==> q.status != Pending)
    && (q.updatedBy.Some? ==> HasUser(users, q.updatedBy.value, Manager))
    && q.createdAt <= q.updatedAt < clock
  }

  /** The requests table: generated ids, well-formed rows, creation times increasing with the id. */
  ghost predicate LedgerWellFormed(rows: seq<Request>, users: seq<User>, catalog: seq<Software>, nextId: nat, clock: nat)
  {
    && RequestIdsGenerated(rows, nextId)
    && (forall i :: 0 <= i < |rows| ==> RequestWellFormed(rows[i], users, catalog, clock))
    && (forall i, j :: 0 <= i < j < |rows| ==> rows[i].createdAt < rows[j].createdAt)
  }

  /**
   * How the requests table may evolve: rows are only appended; an existing
   * row keeps its id, owner, software, access type, reason and creation
   * time; and a decided row never changes again.
   */
  ghost predicate LedgerStep(before: seq<Request>, after: seq<Request>)
  {
    && |before| <= |after|
    && (forall i :: 0 <= i < |before| ==>
          && after[i].id == before[i].id
          && after[i].user == before[i].user
          && after[i].software == before[i].software
          && after[i].accessType == before[i].accessType
          && after[i].reason == before[i].reason
          && after[i].createdAt == before[i].createdAt
          && (before[i].status != Pending ==> after[i] == before[i]))
  }

  /** Steps compose: a decided request stays as it is over any run of operations. */
  lemma LedgerStepTransitive(a: seq<Request>, b: seq<Request>, c: seq<Request>)
    requires LedgerStep(a, b) && LedgerStep(b, c)
    ensures LedgerStep(a, c)
  {
  }

  /** A new user or software row never invalidates a request's references. */
  lemma {:induction false} GrowTablesKeepsLedger(rows: seq<Request>, users: seq<User>, catalog: seq<Software>,
                                                 users': seq<User>, catalog': seq<Software>, nextId: nat, clock: nat)
    requires LedgerWellFormed(rows, users, catalog, nextId, clock)
    requires forall u :: u in users ==> u in users'
    requires forall s :: s in catalog ==> s in catalog'
    ensures LedgerWellFormed(rows, users', catalog', nextId, clock)
  {
    forall i | 0 <= i < |rows|
      ensures RequestWellFormed(rows[i], users', catalog', clock)
    {
      var q := rows[i];
      var u :| u in users && u.id == q.user && u.role == Employee;
      assert u in users';
      var s :| s in catalog && s.id == q.software && AccessTypeName(q.accessType) in s.accessLevels;
      assert s in catalog';
      if q.updatedBy.Some? {
        var m :| m in users && m.id == q.updatedBy.value && m.role == Manager;
        assert m in users';
      }
    }
  }

  /** Appending a fresh, well-formed row stamped with the current clock keeps the table well formed. */
  lemma {:induction false} AppendKeepsLedger(rows: seq<Request>, users: seq<User>, catalog: seq<Software>,
                                             nextId: nat, clock: nat, q: Request)
    requires LedgerWellFormed(rows, users, catalog, nextId, clock)
    requires q.id == nextId && q.createdAt == clock
    requires RequestWellFormed(q, users, catalog, clock + 1)
    ensures LedgerWellFormed(rows + [q], users, catalog, nextId + 1, clock + 1)
    ensures LedgerStep(rows, rows + [q])
  {
    var rows' := rows + [q];
    forall i | 0 <= i < |rows'|
      ensures RequestWellFormed(rows'[i], users, catalog, clock + 1)
    {
      if i < |rows| {
        assert rows'[i] == rows[i];
      }
    }
  }

  /**
   * Resolving a Pending row by a Manager, stamped with the current clock,
   * keeps the table well formed, and is an allowed step.
   */
  lemma {:induction false} ResolveKeepsLedger(rows: seq<Request>, users: seq<User>, catalog: seq<Software>,
                                              nextId: nat, clock: nat, i: nat, q: Request)
    requires LedgerWellFormed(rows, users, catalog, nextId, clock)
    requires i < |rows| && rows[i].status == Pending
    requires q.status != Pending && q.updatedBy.Some? && HasUser(users, q.updatedBy.value, Manager)
    requires q.updatedAt == clock
    requires q == rows[i].(status := q.status, updatedBy := q.updatedBy, updatedAt := q.updatedAt)
    ensures LedgerWellFormed(rows[i := q], users, catalog, nextId, clock + 1)
    ensures LedgerStep(rows, rows[i := q])
  {
    var rows' := rows[i := q];
    forall j | 0 <= j < |rows'|
      ensures RequestWellFormed(rows'[j], users, catalog, clock + 1)
    {
      if j != i {
        assert rows'[j] == rows[j];
      }
    }
  }

  /** In a well-formed table the resolver is set exactly on decided requests. */
  lemma {:induction false} LedgerResolverIffDecided(rows: seq<Request>, users: seq<User>, catalog: seq<Software>,
                                                    nextId: nat, clock: nat)
    requires LedgerWellFormed(rows, users, catalog, nextId, clock)
    ensures ResolverIffDecided(rows)
  {
    forall q | q in rows
      ensures q.updatedBy.Some? <==> q.status != Pending
    {
      var i :| 0 <= i < |rows| && rows[i] == q;
      assert RequestWellFormed(rows[i], users, catalog, clock);
    }
  }

  /**
   * Every access an employee holds was granted by a stored Manager, for an
   * access type the software offered.
   */
  lemma {:induction false} GrantsComeFromManagers(rows: seq<Request>, users: seq<User>, catalog: seq<Software>,
                                                  nextId: nat, clock: nat, caller: Claims)
    requires LedgerWellFormed(rows, users, catalog, nextId, clock)
    ensures forall g :: g in MyAccess(caller, rows) ==>
      && g.updatedBy.Some? && HasUser(users, g.updatedBy.value, Manager)
      && Offers(catalog, g.software, g.accessType)
  {
    var access := MyAccess(caller, rows);
    forall g | g in access
      ensures g.updatedBy.Some? && HasUser(users, g.updatedBy.value, Manager)
      ensures Offers(catalog, g.software, g.accessType)
    {
      var k :| 0 <= k < |access| && access[k] == g;
      assert IsGrantOf(rows, caller.id, access[k]);
      var q :| q in rows && q.user == caller.id && q.status == Approved && g == AsGrant(q);
      var i :| 0 <= i < |rows| && rows[i] == q;
      assert RequestWellFormed(rows[i], users, catalog, clock);
    }
  }

  class Store {
    var users: seq<User>
    var catalog: seq<Software>
    var requests: seq<Request>
    var nextUserId: nat
    var nextSoftwareId: nat
    var nextRequestId: nat
    var clock: nat

    /** The schema's constraints and the lifecycle's invariant. */
    ghost predicate Valid()
      reads this
    {
      && UserIdsGenerated(users, nextUserId) && UsernamesUnique(users)
      && SoftwareIdsGenerated(catalog, nextSoftwareId) && NamesUnique(catalog)
      && LedgerWellFormed(requests, users, catalog, nextRequestId, clock)
    }

    /** An empty database; every id sequence starts at 1. */
    constructor ()
      ensures Valid()
      ensures users == [] && catalog == [] && requests == []
      ensures nextUserId == 1 && nextSoftwareId == 1 && nextRequestId == 1 && clock == 0
    {
      users, catalog, requests := [], [], [];
      nextUserId, nextSoftwareId, nextRequestId := 1, 1, 1;
      clock := 0;
    }

    /**
     * `POST /auth/signup`: a taken username fails and changes nothing;
     * otherwise one user is added with the coerced role. `credential` is the
     * password hash computed by the caller of this model.
     */
    method Signup(username: string, credential: string, role: Option<string>) returns (r: Outcome<Error>)
      requires Valid()
      modifies this`users, this`nextUserId
      ensures Valid()
      ensures r == Pass <==> forall u :: u in old(users) ==> u.username != username
      ensures r != Pass ==> r == Fail(DuplicateUsername) && users == old(users) && nextUserId == old(nextUserId)
      ensures r == Pass ==>
        && users == old(users) + [User(old(nextUserId), username, credential, CoerceRole(role))]
        && nextUserId == old(nextUserId) + 1
    {
      var existing := FindUserByName(users, username);
      if existing.Some? {
        return Fail(DuplicateUsername);
      }
      var user := User(nextUserId, username, credential, CoerceRole(role));
      GrowTablesKeepsLedger(requests, users, catalog, users + [user], catalog, nextRequestId, clock);
      users := users + [user];
      nextUserId := nextUserId + 1;
      r := Pass;
    }

    /**
     * `POST /software` (Admin only): a name already in the catalog fails and
     * changes nothing; otherwise one software is added, with `["Read"]` as
     * its access levels only when none were supplied.
     */
    method CreateSoftware(caller: Claims, name: string, description: string, accessLevels: Option<seq<string>>)
      returns (r: Result<Software, Error>)
      requires Valid()
      modifies this`catalog, this`nextSoftwareId
      ensures Valid()
      ensures caller.role !in CreateSoftwareRoles ==> r == Failure(Unauthorized)
      ensures caller.role in CreateSoftwareRoles && FindSoftwareByName(old(catalog), name).Some? ==>
        r == Failure(DuplicateSoftware)
      ensures r.Success? <==> caller.role in CreateSoftwareRoles && forall s :: s in old(catalog) ==> s.name != name
      ensures r.Failure? ==> catalog == old(catalog) && nextSoftwareId == old(nextSoftwareId)
      ensures r.Success? ==>
        && r.value == Software(old(nextSoftwareId), name, description, InitialAccessLevels(accessLevels))
        && catalog == old(catalog) + [r.value]
        && nextSoftwareId == old(nextSoftwareId) + 1
    {
      if Authorize(caller, CreateSoftwareRoles).Fail? {
        return Failure(Unauthorized);
      }
      var existing := FindSoftwareByName(catalog, name);
      if existing.Some? {
        return Failure(DuplicateSoftware);
      }
      var software := Software(nextSoftwareId, name, description, InitialAccessLevels(accessLevels));
      GrowTablesKeepsLedger(requests, users, catalog, users, catalog + [software], nextRequestId, clock);
      catalog := catalog + [software];
      nextSoftwareId := nextSoftwareId + 1;
      r := Success(software);
    }

    /**
     * `POST /requests` (Employee only): an unknown software fails NotFound,
     * then an access type the software does not list fails
     * InvalidAccessType; a listed spelling outside the enum is refused by the
     * database. Otherwise one Pending request with no resolver is appended,
     * owned by the caller. `reason` is not validated.
     */
    method CreateRequest(caller: Claims, softwareId: nat, accessType: string, reason: string)
      returns (r: Result<Request, Error>)
      requires Valid() && Authentic(users, caller)
      modifies this`requests, this`nextRequestId, this`clock
      ensures Valid()
      ensures LedgerStep(old(requests), requests)
      ensures caller.role !in CreateRequestRoles ==> r == Failure(Unauthorized)
      ensures caller.role in CreateRequestRoles && FindSoftware(catalog, softwareId).None? ==> r == Failure(NotFound)
      ensures (caller.role in CreateRequestRoles && FindSoftware(catalog, softwareId).Some? &&
               accessType !in FindSoftware(catalog, softwareId).value.accessLevels) ==> r == Failure(InvalidAccessType)
      ensures (caller.role in CreateRequestRoles && FindSoftware(catalog, softwareId).Some? &&
               accessType in FindSoftware(catalog, softwareId).value.accessLevels &&
               ParseAccessType(accessType).None?) ==> r == Failure(StoreRejected)
      ensures r.Success? <==>
        && caller.role in CreateRequestRoles
        && FindSoftware(catalog, softwareId).Some?
        && accessType in FindSoftware(catalog, softwareId).value.accessLevels
        && ParseAccessType(accessType).Some?
      ensures r.Failure? ==>
        requests == old(requests) && nextRequestId == old(nextRequestId) && clock == old(clock)
      ensures r.Success? ==>
        && ParseAccessType(accessType).Some?
        && r.value == Request(old(nextRequestId), caller.id, softwareId, ParseAccessType(accessType).value,
                              reason, Pending, None, old(clock), old(clock))
        && requests == old(requests) + [r.value]
        && nextRequestId == old(nextRequestId) + 1 && clock == old(clock) + 1
    {
      if Authorize(caller, CreateRequestRoles).Fail? {
        return Failure(Unauthorized);
      }
      var software := FindSoftware(catalog, softwareId);
      if software.None? {
        return Failure(NotFound);
      }
      if accessType !in software.value.accessLevels {
        return Failure(InvalidAccessType);
      }
      var parsed := ParseAccessType(accessType);
      if parsed.None? {
        return Failure(StoreRejected);
      }
      var request := Request(nextRequestId, caller.id, softwareId, parsed.value, reason, InitialStatus, None, clock, clock);
      assert RequestWellFormed(request, users, catalog, clock + 1);
      AppendKeepsLedger(requests, users, catalog, nextRequestId, clock, request);
      requests := requests + [request];
      nextRequestId := nextRequestId + 1;
      clock := clock + 1;
      r := Success(request);
    }

    /**
     * `PATCH /requests/:id` (Manager only): a status other than Approved or
     * Rejected fails before the lookup, an unknown id fails NotFound, a
     * request that is no longer Pending fails AlreadyProcessed. Otherwise
     * that one request gets the decision, the caller as resolver and a new
     * modification time; every other row is unchanged.
     */
    method ResolveRequest(caller: Claims, id: nat, status: string) returns (r: Result<Request, Error>)
      requires Valid() && Authentic(users, caller)
      modifies this`requests, this`clock
      ensures Valid()
      ensures LedgerStep(old(requests), requests)
      ensures caller.role !in ResolveRequestRoles ==> r == Failure(Unauthorized)
      ensures caller.role in ResolveRequestRoles && ParseDecision(status).None? ==> r == Failure(InvalidStatus)
      ensures (caller.role in ResolveRequestRoles && ParseDecision(status).Some? &&
               FindRequest(old(requests), id).None?) ==> r == Failure(NotFound)
      ensures (caller.role in ResolveRequestRoles && ParseDecision(status).Some? &&
               FindRequest(old(requests), id).Some? &&
               old(requests)[FindRequest(old(requests), id).value].status != Pending) ==> r == Failure(AlreadyProcessed)
      ensures r.Success? <==>
        && caller.role in ResolveRequestRoles
        && ParseDecision(status).Some?
        && FindRequest(old(requests), id).Some?
        && old(requests)[FindRequest(old(requests), id).value].status == Pending
      ensures r.Failure? ==> requests == old(requests) && clock == old(clock)
      ensures r.Success? ==>
        && ParseDecision(status).Some? && FindRequest(old(requests), id).Some?
        && var i := FindRequest(old(requests), id).value;
           && old(requests)[i].status == Pending
           && r.value == old(requests)[i].(status := ParseDecision(status).value,
                                           updatedBy := Some(caller.id), updatedAt := old(clock))
           && requests == old(requests)[i := r.value]
           && clock == old(clock) + 1
    {
      if Authorize(caller, ResolveRequestRoles).Fail? {
        return Failure(Unauthorized);
      }
      var decision := ParseDecision(status);
      if decision.None? {
        return Failure(InvalidStatus);
      }
      var index := FindRequest(requests, id);
      if index.None? {
        return Failure(NotFound);
      }
      var i := index.value;
      var resolved := Resolve(requests[i], decision.value, caller.id, clock);
      if resolved.Failure? {
        return Failure(resolved.error);
      }
      ResolveKeepsLedger(requests, users, catalog, nextRequestId, clock, i, resolved.value);
      requests := requests[i := resolved.value];
      clock := clock + 1;
      r := Success(resolved.value);
    }
  }
}
