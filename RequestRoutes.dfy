/**
 * The decisions and read views of the request routes: the role sets, the
 * one-shot resolution transition and the four listings. The two writes are
 * `AccessStore.Store.CreateRequest` and `AccessStore.Store.ResolveRequest`.
 */
module RequestRoutes {
  import opened Wrappers
  import opened Tables
  import opened UserSchema
  import opened RequestSchema
  import opened Access

  /** Roles listed by `roleMiddleware` on each gated route. */
  const CreateRequestRoles: set<Role> := {Employee}
  const ProcessedByMeRoles: set<Role> := {Manager}
  const ListAllRoles: set<Role> := {Manager, Role.Admin}
  const ResolveRequestRoles: set<Role> := {Manager}

  /** The sort keys of the two ordered listings. */
  function CreatedAt(q: Request): int { q.createdAt }
  function UpdatedAt(q: Request): int { q.updatedAt }

  /** `findOne({ where: { id } })` on the requests table, as a row index. */
  function FindRequest(rows: seq<Request>, id: nat): (r: Option<nat>)
    ensures r.Some? ==> r.value < |rows| && rows[r.value].id == id
    ensures r.None? <==> forall q :: q in rows ==> q.id != id
  {
    IndexWhere(rows, (q: Request) => q.id == id)
  }

  /**
   * The request-level state machine: only a Pending request can be resolved,
   * and resolving it sets the status, the resolver and the modification time
   * together, leaving every other field as it was.
   */
  function Resolve(q: Request, decision: Decision, resolver: nat, now: nat): (r: Result<Request, Error>)
    ensures r.Failure? <==> q.status != Pending
    ensures r.Failure? ==> r.error == AlreadyProcessed
    ensures r.Success? ==>
      && r.value.status == decision && r.value.updatedBy == Some(resolver) && r.value.updatedAt == now
      && r.value.id == q.id && r.value.user == q.user && r.value.software == q.software
      && r.value.accessType == q.accessType && r.value.reason == q.reason && r.value.createdAt == q.createdAt
  {
    if q.status != Pending then Failure(AlreadyProcessed)
    else Success(q.(status := decision, updatedBy := Some(resolver), updatedAt := now))
  }

  /** Approved and Rejected are terminal: a resolved request cannot be resolved again. */
  lemma ResolvedIsTerminal(q: Request, d1: Decision, d2: Decision, m1: nat, m2: nat, t1: nat, t2: nat)
    requires Resolve(q, d1, m1, t1).Success?
    ensures Resolve(Resolve(q, d1, m1, t1).value, d2, m2, t2) == Failure(AlreadyProcessed)
  {
  }

  /** Resolution turns a request that keeps "resolver set iff decided" into one that keeps it too. */
  lemma ResolveKeepsResolverIffDecided(q: Request, d: Decision, m: nat, t: nat)
    requires q.updatedBy.Some? <==> q.status != Pending
    requires Resolve(q, d, m, t).Success?
    ensures Resolve(q, d, m, t).value.updatedBy.Some? && Resolve(q, d, m, t).value.status != Pending
  {
  }

  /** The `counts` object of `/my-requests`. */
  datatype StatusCounts = StatusCounts(total: nat, pending: nat, approved: nat, rejected: nat)

  /** The body of `/my-requests`. */
  datatype MyRequestsView = MyRequestsView(requests: seq<Request>, counts: StatusCounts)

  /**
   * `/my-requests`: the caller's own requests, newest first, and how many of
   * them are in each status. Needs authentication only.
   */
  function MyRequests(caller: Claims, rows: seq<Request>): (v: MyRequestsView)
    ensures forall q :: q in v.requests ==> q in rows && q.user == caller.id
    ensures forall q :: q in rows && q.user == caller.id ==> q in v.requests
    ensures multiset(v.requests) == multiset(RequestsOf(rows, caller.id))
    ensures SortedDesc(v.requests, CreatedAt)
    ensures v.counts.total == |v.requests|
    ensures v.counts.pending == |WithStatus(v.requests, Pending)|
    ensures v.counts.approved == |WithStatus(v.requests, Approved)|
    ensures v.counts.rejected == |WithStatus(v.requests, Rejected)|
    ensures v.counts.pending + v.counts.approved + v.counts.rejected == v.counts.total
  {
    var mine := SortDesc(RequestsOf(rows, caller.id), CreatedAt);
    StatusPartition(mine);
    MyRequestsView(mine, StatusCounts(
      |mine|,
      |WithStatus(mine, Pending)|,
      |WithStatus(mine, Approved)|,
      |WithStatus(mine, Rejected)|))
  }

  /** One entry of `/my-access`: the request projected to what was granted and by whom. */
  datatype Grant = Grant(software: nat, accessType: AccessType, updatedBy: Option<nat>)

  function AsGrant(q: Request): Grant
  {
    Grant(q.software, q.accessType, q.updatedBy)
  }

  /** `where: { user: { id }, status: 'Approved' }`: the approved requests owned by the user. */
  function ApprovedOf(rows: seq<Request>, userId: nat): (r: seq<Request>)
    ensures forall q :: q in r ==> q in rows && q.user == userId && q.status == Approved
    ensures forall q :: q in rows && q.user == userId && q.status == Approved ==> q in r
    ensures multiset(r) <= multiset(rows)
    ensures forall q :: q in rows ==>
      multiset(r)[q] == if q.user == userId && q.status == Approved then multiset(rows)[q] else 0
  {
    Filter(rows, (q: Request) => q.user == userId && q.status == Approved)
  }

  /** The approved requests owned by the user whose grant is `x`. */
  function ApprovedWithGrant(rows: seq<Request>, userId: nat, x: Grant): seq<Request>
  {
    Filter(rows, (q: Request) => q.user == userId && q.status == Approved && AsGrant(q) == x)
  }

  /** `approvedRequests.map(...)`: each request projected to its grant, position by position. */
  function Grants(approved: seq<Request>): (g: seq<Grant>)
    ensures |g| == |approved|
    ensures forall i :: 0 <= i < |g| ==> g[i] == AsGrant(approved[i])
  {
    if |approved| == 0 then [] else [AsGrant(approved[0])] + Grants(approved[1..])
  }

  lemma GrantsConcat(a: seq<Request>, b: seq<Request>)
    ensures Grants(a + b) == Grants(a) + Grants(b)
  {
  }

  /**
   * Each grant occurs in the projection of a user's approved requests exactly
   * as many times as there are approved requests of that user giving it.
   */
  lemma {:induction false} GrantMultiplicity(rows: seq<Request>, userId: nat, x: Grant)
    ensures multiset(Grants(ApprovedOf(rows, userId)))[x] == |ApprovedWithGrant(rows, userId, x)|
  {
    if |rows| > 0 {
      var h := rows[0];
      var gives := h.user == userId && h.status == Approved && AsGrant(h) == x;
      var head := if h.user == userId && h.status == Approved then [h] else [];
      var rest := ApprovedOf(rows[1..], userId);
      assert ApprovedOf(rows, userId) == head + rest;
      assert ApprovedWithGrant(rows, userId, x) == (if gives then [h] else []) + ApprovedWithGrant(rows[1..], userId, x);
      GrantsConcat(head, rest);
      assert multiset(Grants(head))[x] == if gives then 1 else 0;
      assert multiset(Grants(head) + Grants(rest))[x] == multiset(Grants(head))[x] + multiset(Grants(rest))[x];
      GrantMultiplicity(rows[1..], userId, x);
    }
  }

  /** `GrantMultiplicity` for every grant at once. */
  lemma GrantMultiplicities(rows: seq<Request>, userId: nat)
    ensures forall x :: multiset(Grants(ApprovedOf(rows, userId)))[x] == |ApprovedWithGrant(rows, userId, x)|
  {
    forall x {
      GrantMultiplicity(rows, userId, x);
    }
  }

  /** `x` is the grant of some approved request owned by the user. */
  ghost predicate IsGrantOf(rows: seq<Request>, userId: nat, x: Grant)
  {
    exists q :: q in rows && q.user == userId && q.status == Approved && x == AsGrant(q)
  }

  /** Projecting the approved requests of a user gives one grant per such request and nothing else. */
  lemma {:induction false} ProjectionCovers(rows: seq<Request>, userId: nat, approved: seq<Request>, g: seq<Grant>)
    requires forall q :: q in approved ==> q in rows && q.user == userId && q.status == Approved
    requires |g| == |approved| && forall i :: 0 <= i < |g| ==> g[i] == AsGrant(approved[i])
    ensures forall i :: 0 <= i < |g| ==> IsGrantOf(rows, userId, g[i])
    ensures forall q :: q in approved ==> AsGrant(q) in g
  {
    forall i | 0 <= i < |g|
      ensures IsGrantOf(rows, userId, g[i])
    {
      var q := approved[i];
      assert q in approved;
      assert q in rows && q.user == userId && q.status == Approved && g[i] == AsGrant(q);
    }
    forall q | q in approved
      ensures AsGrant(q) in g
    {
      var i :| 0 <= i < |approved| && approved[i] == q;
      assert g[i] == AsGrant(q);
    }
  }

  /**
   * `/my-access`: one grant per approved request of the caller, and nothing
   * else; a grant given by several such requests appears once for each.
   * Needs authentication only.
   */
  function MyAccess(caller: Claims, rows: seq<Request>): (g: seq<Grant>)
    ensures |g| == |ApprovedOf(rows, caller.id)|
    ensures forall x :: multiset(g)[x] == |ApprovedWithGrant(rows, caller.id, x)|
    ensures forall i :: 0 <= i < |g| ==> IsGrantOf(rows, caller.id, g[i])
    ensures forall q :: q in rows && q.user == caller.id && q.status == Approved ==> AsGrant(q) in g
  {
    var approved := ApprovedOf(rows, caller.id);
    var g := Grants(approved);
    ProjectionCovers(rows, caller.id, approved, g);
    GrantMultiplicities(rows, caller.id);
    g
  }

  /** The `counts` object of `/my-manager-requests`. */
  datatype ProcessedCounts = ProcessedCounts(total: nat, approved: nat, rejected: nat)

  /** The body of `/my-manager-requests`. */
  datatype ProcessedView = ProcessedView(counts: ProcessedCounts, approved: seq<Request>, rejected: seq<Request>, all: seq<Request>)

  /** The requests whose resolver is `managerId`. */
  function ResolvedBy(rows: seq<Request>, managerId: nat): (r: seq<Request>)
    ensures forall q :: q in r ==> q in rows && q.updatedBy == Some(managerId)
    ensures forall q :: q in rows && q.updatedBy == Some(managerId) ==> q in r
    ensures multiset(r) <= multiset(rows)
    ensures forall q :: q in rows ==>
      multiset(r)[q] == if q.updatedBy == Some(managerId) then multiset(rows)[q] else 0
  {
    Filter(rows, (q: Request) => q.updatedBy == Some(managerId))
  }

  /**
   * `/my-manager-requests` (Manager only): the requests the caller resolved,
   * most recently modified first, split into approved and rejected, with
   * counts equal to the list lengths.
   */
  function ProcessedByMe(caller: Claims, rows: seq<Request>): (r: Result<ProcessedView, Error>)
    ensures r.Success? <==> caller.role in ProcessedByMeRoles
    ensures r.Failure? ==> r.error == Unauthorized
    ensures r.Success? ==>
      && (forall q :: q in r.value.all ==> q in rows && q.updatedBy == Some(caller.id))
      && (forall q :: q in rows && q.updatedBy == Some(caller.id) ==> q in r.value.all)
      && multiset(r.value.all) == multiset(ResolvedBy(rows, caller.id))
      && SortedDesc(r.value.all, UpdatedAt)
      && r.value.approved == WithStatus(r.value.all, Approved)
      && r.value.rejected == WithStatus(r.value.all, Rejected)
      && (forall q :: q in r.value.approved <==> q in r.value.all && q.status == Approved)
      && (forall q :: q in r.value.rejected <==> q in r.value.all && q.status == Rejected)
      && SortedDesc(r.value.approved, UpdatedAt)
      && SortedDesc(r.value.rejected, UpdatedAt)
      && r.value.counts.total == |r.value.all|
      && r.value.counts.approved == |r.value.approved|
      && r.value.counts.rejected == |r.value.rejected|
  {
    if Authorize(caller, ProcessedByMeRoles).Fail? then Failure(Unauthorized)
    else
      var all := SortDesc(ResolvedBy(rows, caller.id), UpdatedAt);
      var approved := WithStatus(all, Approved);
      var rejected := WithStatus(all, Rejected);
      WithStatusKeepsSortedDesc(all, Approved, UpdatedAt);
      WithStatusKeepsSortedDesc(all, Rejected, UpdatedAt);
      Success(ProcessedView(ProcessedCounts(|all|, |approved|, |rejected|), approved, rejected, all))
  }

  /** A list of decided requests is split exactly between its approved and rejected filters. */
  lemma {:induction false} DecidedPartition(all: seq<Request>)
    requires forall q :: q in all ==> q.status != Pending
    ensures |WithStatus(all, Approved)| + |WithStatus(all, Rejected)| == |all|
  {
    StatusPartition(all);
    var pending := WithStatus(all, Pending);
    assert |pending| == 0;
  }

  /**
   * In a table where the resolver is set exactly on decided requests, what a
   * manager processed is all approved or rejected: the two counts add up to
   * the total.
   */
  lemma {:induction false} ProcessedCountsAddUp(caller: Claims, rows: seq<Request>)
    requires ResolverIffDecided(rows)
    requires caller.role == Manager
    ensures ProcessedByMe(caller, rows).Success?
    ensures var c := ProcessedByMe(caller, rows).value.counts; c.approved + c.rejected == c.total
  {
    var v := ProcessedByMe(caller, rows).value;
    forall q | q in v.all
      ensures q.status != Pending
    {
      assert q in rows && q.updatedBy.Some?;
    }
    DecidedPartition(v.all);
  }

  /** `GET /requests` (Manager or Admin): every request in the table. */
  function ListAll(caller: Claims, rows: seq<Request>): (r: Result<seq<Request>, Error>)
    ensures r.Success? <==> caller.role in ListAllRoles
    ensures r.Failure? ==> r.error == Unauthorized
    ensures r.Success? ==> r.value == rows
  {
    if Authorize(caller, ListAllRoles).Fail? then Failure(Unauthorized) else Success(rows)
  }
}
