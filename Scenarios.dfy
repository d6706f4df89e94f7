/**
 * Clients of the store that follow the workflow end to end, one step per
 * method, using only the contracts of the operations: what an Admin, an
 * Employee and a Manager see.
 */
module Scenarios {
  import opened Wrappers
  import opened UserSchema
  import opened SoftwareSchema
  import opened RequestSchema
  import opened Access
  import opened AuthRoutes
  import opened SoftwareRoutes
  import opened RequestRoutes
  import opened AccessStore

  /** The stand-in for bcrypt: a stored hash is the password with a prefix. */
  function PrefixVerify(password: string, hash: string): bool
  {
    "h:" + password == hash
  }

  /** The staff of the scenarios, as signup stores them. */
  const Staff: seq<User> := [
    User(1, "root", "h:root", Role.Admin),
    User(2, "erin", "h:erin", Employee),
    User(3, "mia", "h:mia", Manager)]

  const Crm: Software := Software(1, "CRM", "customer records", ["Read", "Write"])

  /** Erin's request for Write access to CRM, as created at clock reading `t`. */
  function AskWrite(t: nat): Request
  {
    Request(1, 2, 1, Write, "need it", Pending, None, t, t)
  }

  /** An Admin, an Employee who asked for no role and a Manager sign up. */
  method SignUpStaff() returns (store: Store)
    ensures fresh(store) && store.Valid()
    ensures store.users == Staff && store.catalog == [] && store.requests == []
    ensures store.nextUserId == 4 && store.nextSoftwareId == 1 && store.nextRequestId == 1
  {
    store := new Store();
    assert CoerceRole(Some("Admin")) == Role.Admin && CoerceRole(Some("Manager")) == Manager;
    var s1 := store.Signup("root", "h:root", Some("Admin"));
    assert store.users == Staff[..1];
    var s2 := store.Signup("erin", "h:erin", None);
    assert store.users == Staff[..2];
    var s3 := store.Signup("mia", "h:mia", Some("Manager"));
    assert store.users == Staff;
  }

  /** A taken username is refused; a client asking to be "SuperAdmin" is stored as an Employee. */
  method SignUpMore(store: Store)
    requires store.Valid() && store.users == Staff && store.nextUserId == 4
    modifies store
    ensures store.users == Staff + [User(4, "eve", "h:eve", Employee)]
  {
    var taken := store.Signup("erin", "h:other", Some("Admin"));
    assert taken == Fail(DuplicateUsername) && store.users == Staff;
    CoerceUnknownRole();
    var eve := store.Signup("eve", "h:eve", Some("SuperAdmin"));
    assert eve == Pass;
  }

  /** Each member of staff logs in with their own password and gets their own claims; wrong passwords and unknown names fail alike. */
  lemma StaffLogins()
    ensures UsernamesUnique(Staff)
    ensures Login(Staff, "root", "root", PrefixVerify) == Success(Claims(1, "root", Role.Admin))
    ensures Login(Staff, "erin", "erin", PrefixVerify) == Success(Claims(2, "erin", Employee))
    ensures Login(Staff, "mia", "mia", PrefixVerify) == Success(Claims(3, "mia", Manager))
    ensures Login(Staff, "erin", "mia", PrefixVerify) == Failure(InvalidCredentials)
    ensures Login(Staff, "nobody", "mia", PrefixVerify) == Failure(InvalidCredentials)
  {
    assert Staff[0] in Staff && Staff[1] in Staff && Staff[2] in Staff;
  }

  /** The Admin registers CRM with Read and Write; the Employee may not. */
  method RegisterCrm(store: Store)
    requires store.Valid() && store.users == Staff && store.catalog == [] && store.nextSoftwareId == 1
    modifies store
    ensures store.Valid() && store.users == Staff && store.catalog == [Crm]
    ensures store.requests == old(store.requests) && store.nextRequestId == old(store.nextRequestId)
  {
    var denied := store.CreateSoftware(Claims(2, "erin", Employee), "CRM", "customer records", None);
    assert denied == Failure(Unauthorized);
    var crm := store.CreateSoftware(Claims(1, "root", Role.Admin), "CRM", "customer records", Some(["Read", "Write"]));
    assert crm == Success(Crm);
  }

  /** The Employee asks for Write access to CRM; the request is Pending with no resolver. */
  method AskForWrite(store: Store)
    requires store.Valid() && store.users == Staff && store.catalog == [Crm]
    requires store.requests == [] && store.nextRequestId == 1
    modifies store
    ensures store.Valid() && store.users == Staff && store.catalog == [Crm]
    ensures store.requests == [AskWrite(old(store.clock))]
  {
    assert Staff[1] in store.users;
    assert FindSoftware(store.catalog, 1) == Some(Crm);
    var asked := store.CreateRequest(Claims(2, "erin", Employee), 1, "Write", "need it");
    assert asked == Success(AskWrite(old(store.clock)));
  }

  /**
   * The Manager approves; the Employee's access then lists CRM at Write,
   * granted by the Manager, and a second resolution is refused.
   */
  method ApproveWrite(store: Store, t: nat)
    requires store.Valid() && store.users == Staff && store.requests == [AskWrite(t)]
    modifies store
    ensures store.requests == [AskWrite(t).(status := Approved, updatedBy := Some(3), updatedAt := old(store.clock))]
  {
    assert Staff[2] in store.users;
    assert FindRequest(store.requests, 1) == Some(0);
    var done := store.ResolveRequest(Claims(3, "mia", Manager), 1, "Approved");
    assert done.Success? && done.value.status == Approved && done.value.updatedBy == Some(3);
    assert store.requests == [done.value];

    var access := MyAccess(Claims(2, "erin", Employee), store.requests);
    assert AsGrant(done.value) == Grant(1, Write, Some(3));
    assert Grant(1, Write, Some(3)) in access;

    assert FindRequest(store.requests, 1) == Some(0);
    var again := store.ResolveRequest(Claims(3, "mia", Manager), 1, "Rejected");
    assert again == Failure(AlreadyProcessed);
  }

  /** Software offering only Read refuses a Write request; an unknown software id is not found first. */
  method RefuseUnoffered(store: Store)
    requires store.Valid() && store.users == Staff
    requires store.catalog == [Software(1, "Wiki", "team notes", ["Read"])]
    modifies store
    ensures store.requests == old(store.requests)
  {
    assert Staff[1] in store.users;
    assert FindSoftware(store.catalog, 1) == Some(store.catalog[0]);
    var asked := store.CreateRequest(Claims(2, "erin", Employee), 1, "Write", "");
    assert asked == Failure(InvalidAccessType);
    var missing := store.CreateRequest(Claims(2, "erin", Employee), 7, "Write", "");
    assert missing == Failure(NotFound);
  }

  /**
   * The whole approval story, step by step: the database ends with one
   * request, Erin's Write request for CRM, approved by Mia.
   */
  method ApproveWriteAccess() returns (store: Store)
    ensures |store.requests| == 1
    ensures store.requests[0].user == 2 && store.requests[0].software == 1 && store.requests[0].accessType == Write
    ensures store.requests[0].status == Approved && store.requests[0].updatedBy == Some(3)
  {
    store := SignUpStaff();
    RegisterCrm(store);
    var t := store.clock;
    AskForWrite(store);
    ApproveWrite(store, t);
  }
}
