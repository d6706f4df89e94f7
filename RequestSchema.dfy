/**
 * The Request entity: one ask for access to one software at one access type,
 * with its status, its optional resolver and its two timestamps.
 */
module RequestSchema {
  import opened Wrappers
  import opened Tables

  /** The `accessType` enum column. */
  datatype AccessType = Read | Write | Admin

  /** The `status` enum column. */
  datatype Status = Pending | Approved | Rejected

  /** The column default of `status`. */
  const InitialStatus: Status := Pending

  /** The two statuses a manager may resolve a request to. */
  type Decision = s: Status | s != Pending witness Approved

  /**
   * A requests-table row. `user`, `software` and `updatedBy` are the ids the
   * three many-to-one relations join on; `updatedBy` is nullable. The two
   * timestamps are readings of the store's logical clock.
   */
  datatype Request = Request(
    id: nat,
    user: nat,
    software: nat,
    accessType: AccessType,
    reason: string,
    status: Status,
    updatedBy: Option<nat>,
    createdAt: nat,
    updatedAt: nat)

  /** The spelling of an access type in the database and in request bodies. */
  function AccessTypeName(a: AccessType): string
  {
    match a
    case Read => "Read"
    case Write => "Write"
    case Admin => "Admin"
  }

  /** Reads an access type from its spelling; the enum column refuses anything else. */
  function ParseAccessType(s: string): (r: Option<AccessType>)
    ensures r.Some? <==> s == "Read" || s == "Write" || s == "Admin"
    ensures r.Some? ==> AccessTypeName(r.value) == s
  {
    if s == "Read" then Some(Read)
    else if s == "Write" then Some(Write)
    else if s == "Admin" then Some(Admin)
    else None
  }

  /** Every access type survives being written out and read back. */
  lemma ParseAccessTypeName(a: AccessType)
    ensures ParseAccessType(AccessTypeName(a)) == Some(a)
  {
  }

  /** Reads a resolution decision: only "Approved" and "Rejected" are accepted. */
  function ParseDecision(s: string): (r: Option<Decision>)
    ensures r.Some? <==> s == "Approved" || s == "Rejected"
    ensures r == Some(Approved) <==> s == "Approved"
    ensures r == Some(Rejected) <==> s == "Rejected"
  {
    if s == "Approved" then Some(Approved)
    else if s == "Rejected" then Some(Rejected)
    else None
  }

  /** The test `req.status === s` of the status filters. */
  function HasStatus(s: Status): Request -> bool
  {
    (q: Request) => q.status == s
  }

  /** The requests of one status, in table order. */
  function WithStatus(rows: seq<Request>, s: Status): (r: seq<Request>)
    ensures forall q :: q in r ==> q in rows && q.status == s
    ensures forall q :: q in rows && q.status == s ==> q in r
    ensures multiset(r) <= multiset(rows)
    ensures forall q :: q in rows ==> multiset(r)[q] == if q.status == s then multiset(rows)[q] else 0
  {
    Filter(rows, HasStatus(s))
  }

  /** A status filter of a list in descending key order is in descending key order too. */
  lemma WithStatusKeepsSortedDesc(rows: seq<Request>, s: Status, key: Request -> int)
    requires SortedDesc(rows, key)
    ensures SortedDesc(WithStatus(rows, s), key)
  {
    FilterKeepsSortedDesc(rows, HasStatus(s), key);
  }

  /** `User.requests`: the inverse of `Request.user`. */
  function RequestsOf(rows: seq<Request>, userId: nat): (r: seq<Request>)
    ensures forall q :: q in r ==> q in rows && q.user == userId
    ensures forall q :: q in rows && q.user == userId ==> q in r
    ensures multiset(r) <= multiset(rows)
    ensures forall q :: q in rows ==> multiset(r)[q] == if q.user == userId then multiset(rows)[q] else 0
  {
    Filter(rows, (q: Request) => q.user == userId)
  }

  /** `Software.requests`: the inverse of `Request.software`. */
  function RequestsFor(rows: seq<Request>, softwareId: nat): (r: seq<Request>)
    ensures forall q :: q in r ==> q in rows && q.software == softwareId
    ensures forall q :: q in rows && q.software == softwareId ==> q in r
    ensures multiset(r) <= multiset(rows)
    ensures forall q :: q in rows ==> multiset(r)[q] == if q.software == softwareId then multiset(rows)[q] else 0
  {
    Filter(rows, (q: Request) => q.software == softwareId)
  }

  /**
   * Every request is counted under exactly one status, so the three status
   * filters together have as many rows as the table.
   */
  lemma {:induction false} StatusPartition(rows: seq<Request>)
    ensures |WithStatus(rows, Pending)| + |WithStatus(rows, Approved)| + |WithStatus(rows, Rejected)| == |rows|
  {
    if |rows| > 0 {
      StatusPartition(rows[1..]);
    }
  }

  /** The generated primary key, as for users. */
  ghost predicate RequestIdsGenerated(rows: seq<Request>, nextId: nat)
  {
    && 1 <= nextId
    && (forall i :: 0 <= i < |rows| ==> 1 <= rows[i].id < nextId)
    && (forall i, j :: 0 <= i < j < |rows| ==> rows[i].id < rows[j].id)
  }

  /** The nullable resolver is set exactly when the request has been decided. */
  ghost predicate ResolverIffDecided(rows: seq<Request>)
  {
    forall q :: q in rows ==> (q.updatedBy.Some? <==> q.status != Pending)
  }
}
