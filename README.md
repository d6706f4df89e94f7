# Access-request workflow — a Dafny model

This project models the core of a small Express/TypeORM service for
internal access requests. Employees ask for access to a registered
software at one access level (Read, Write or Admin). Managers approve or
reject pending requests. Admins register software. Everyone signs up and
logs in to get a token that carries their id, username and role.

The model keeps the service's Postgres database as one in-memory store,
`AccessStore.Store`. The store has three tables kept as sequences of rows
in insertion order (users, catalog, requests), one id sequence per table,
and a logical clock that stands in for the `createdAt`/`updatedAt`
timestamps. The four routes that write become methods of the store:

- `POST /api/auth/signup` is `Store.Signup`.
- `POST /api/software` is `Store.CreateSoftware`.
- `POST /api/requests` is `Store.CreateRequest`.
- `PATCH /api/requests/:id` is `Store.ResolveRequest`.

The routes that only decide or read are functions over the tables:

- `Login`, `CoerceRole` and the lookups are in `AuthRoutes`.
- `ListSoftware` and the catalog lookups are in `SoftwareRoutes`.
- The request views are in `RequestRoutes`: `/my-requests`, `/my-access`,
  `/my-manager-requests` and `GET /`.

Each route's `roleMiddleware([...])` becomes `Access.Authorize`. It tests
whether the caller's role is in the listed set, and nothing more.

The store's invariant is `Store.Valid`. It holds the schema constraints:
generated increasing ids, unique usernames and unique software names. It
also holds the lifecycle invariant, `AccessStore.RequestWellFormed`, for
every request:

- The requester is a stored Employee.
- The access type was offered by the software when the request was made.
- `updatedBy` is set exactly when the status is not Pending.
- The resolver is a stored Manager.
- The timestamps are past readings of the clock.

Every write also keeps `AccessStore.LedgerStep`. Under it, rows are only
appended, the fields fixed at creation never change, and a decided request
never changes again.

Modules, leaves first:

- `Wrappers`: the `Option`, `Result` and `Outcome` types.
- `Tables`: first-match lookup, filter and descending insertion sort.
- `UserSchema`, `SoftwareSchema`, `RequestSchema`: the three entities.
- `Access`: the claims, the errors and the role gate.
- `AuthRoutes`, `SoftwareRoutes`, `RequestRoutes`: the route decisions and views.
- `AccessStore`: the store and its writes.
- `Scenarios`: clients that walk the workflow through the contracts alone.

Three behaviours of the code that the model keeps as written:

- A request's `reason` is not validated: the route stores whatever it
  receives, including an empty string (src/routes/request.routes.js:12, 23-29).
- Resolution is an unguarded read-then-write: the status is read, tested
  and written back with nothing that stops a concurrent resolution in
  between (src/routes/request.routes.js:147-166).
- Duplicate usernames and duplicate software names are reported as two
  distinct errors, with different messages.

## Model

| member | source | states |
|---|---|---|
| `Tables.IndexWhere` | src/routes/request.routes.js:14 | `findOne`: the index of the first row that matches, or none exactly when no row matches |
| `Tables.Filter` | src/routes/request.routes.js:49-51 | `where`/`filter`: exactly the matching rows, each kept as many times as the table holds it and nothing else |
| `Tables.FilterConcat` | src/routes/request.routes.js:118-119 | `filter` keeps table order: filtering a concatenation is the concatenation of the filtered parts |
| `Tables.FilterKeepsSortedDesc` | src/routes/request.routes.js:118-119 | filtering a list in descending key order leaves it in descending key order |
| `Tables.InsertDesc` | src/routes/request.routes.js:44 | inserting one row into a descending list keeps it descending and adds exactly that row |
| `Tables.SortDesc` | src/routes/request.routes.js:44 | `order: DESC`: the result is in descending key order and is a permutation of the input |
| `Tables.SortedDescPairwise` | src/routes/request.routes.js:95 | descending order between neighbours means descending order between any two rows (used by `FilterKeepsSortedDesc`) |
| `UserSchema.ParseRole` | src/entities/User.js:18-22 | the role enum accepts exactly "Employee", "Manager" and "Admin", and reads each back as the role it spells |
| `UserSchema.ParseRoleName` | src/entities/User.js:18-22 | every role survives being written out and read back |
| `RequestSchema.ParseAccessType` | src/entities/Request.js:11-14 | the access-type enum accepts exactly "Read", "Write" and "Admin" |
| `RequestSchema.ParseAccessTypeName` | src/entities/Request.js:11-14 | every access type survives being written out and read back |
| `RequestSchema.ParseDecision` | src/routes/request.routes.js:143-145 | a resolution status is accepted exactly when it is "Approved" or "Rejected", and maps to that status |
| `RequestSchema.WithStatus` | src/routes/request.routes.js:49-51 | the requests of one status: exactly the rows with that status, each as many times as the table holds it |
| `RequestSchema.WithStatusKeepsSortedDesc` | src/routes/request.routes.js:118-119 | a status filter of a list in descending key order is in descending key order |
| `RequestSchema.RequestsOf` | src/entities/User.js:32-37 | `User.requests` is the inverse of `Request.user`: exactly the rows owned by the user, each as many times as the table holds it |
| `RequestSchema.RequestsFor` | src/entities/Software.js:31-37 | `Software.requests` is the inverse of `Request.software`: exactly the rows for the software, each as many times as the table holds it |
| `RequestSchema.StatusPartition` | src/entities/Request.js:18-22 | every request has exactly one of the three statuses, so the three status filters add up to the table |
| `Access.Authorize` | src/routes/request.routes.js:10 | the role gate passes exactly when the caller's role is in the route's listed set, and otherwise fails Unauthorized |
| `AuthRoutes.CoerceRole` | src/routes/auth.routes.js:22-24 | the supplied role is kept when it is one of the three allowed spellings; an absent or other role becomes Employee |
| `AuthRoutes.CoerceRoleIdempotent` | src/routes/auth.routes.js:23-24 | coercing an already coerced role changes nothing |
| `AuthRoutes.CoerceUnknownRole` | src/routes/auth.routes.js:23-24 | "SuperAdmin" and the lower-case "admin" are stored as Employee |
| `AuthRoutes.FindUserByName` | src/routes/auth.routes.js:15 | the username lookup finds a stored user with that name exactly when one exists |
| `AuthRoutes.Login` | src/routes/auth.routes.js:40-60 | login succeeds exactly when a user with that name exists and the password verifies against its hash; every failure is the same InvalidCredentials; the claims are the stored user's id, username and role |
| `SoftwareRoutes.FindSoftware` | src/routes/request.routes.js:14-17 | the software lookup by id finds a row with that id exactly when one exists |
| `SoftwareRoutes.FindSoftwareByName` | src/routes/software.routes.js:13-16 | the software lookup by name finds a row with that name exactly when one exists |
| `SoftwareRoutes.InitialAccessLevels` | src/routes/software.routes.js:21 | `["Read"]` is used only when `accessLevels` is absent; a supplied list is kept as given |
| `SoftwareRoutes.EmptyAccessLevelsKept` | src/routes/software.routes.js:21 | a supplied empty list is stored empty, because an empty array is truthy |
| `SoftwareRoutes.ListSoftware` | src/routes/software.routes.js:31-38 | any authenticated caller gets every catalog row, unfiltered |
| `RequestRoutes.FindRequest` | src/routes/request.routes.js:147-154 | the request lookup by id finds a row with that id exactly when one exists |
| `RequestRoutes.Resolve` | src/routes/request.routes.js:156-164 | resolution fails AlreadyProcessed exactly when the request is not Pending; otherwise it sets the decision, the resolver and the modification time and keeps every other field |
| `RequestRoutes.ResolvedIsTerminal` | src/routes/request.routes.js:156-158 | Approved and Rejected are terminal: a resolved request cannot be resolved again |
| `RequestRoutes.ResolveKeepsResolverIffDecided` | src/routes/request.routes.js:160-164 | a resolved request has both a resolver and a non-Pending status |
| `RequestRoutes.MyRequests` | src/routes/request.routes.js:38-61 | exactly the caller's requests, as a permutation of the owned rows, newest first; `total` is their number, the three counts are the status filters, and they add up to `total` |
| `RequestRoutes.ApprovedOf` | src/routes/request.routes.js:66-72 | exactly the caller's approved requests, each as many times as the table holds it |
| `RequestRoutes.GrantMultiplicity` | src/routes/request.routes.js:66-78 | a grant occurs in the projection of a user's approved requests exactly once for each approved request of that user that gives it |
| `RequestRoutes.MyAccess` | src/routes/request.routes.js:63-84 | one grant per approved request of the caller, projected to software, access type and resolver, and nothing else: as many grants as approved requests, and each grant as many times as approved requests give it |
| `RequestRoutes.ProjectionCovers` | src/routes/request.routes.js:74-78 | projecting approved requests gives one grant per request, each the grant of an approved request of that user |
| `RequestRoutes.ResolvedBy` | src/routes/request.routes.js:90-96 | exactly the rows whose resolver is the given manager, each as many times as the table holds it |
| `RequestRoutes.ProcessedByMe` | src/routes/request.routes.js:86-125 | Manager only; `all` is exactly the requests the caller resolved, most recently modified first; `approved` and `rejected` are its status filters, so they keep that order; the counts are the list lengths |
| `RequestRoutes.DecidedPartition` | src/routes/request.routes.js:110-119 | a list of decided requests splits exactly into its approved and rejected filters |
| `RequestRoutes.ProcessedCountsAddUp` | src/routes/request.routes.js:110-114 | where resolvers are set only on decided requests, the approved and rejected counts add up to the total |
| `RequestRoutes.ListAll` | src/routes/request.routes.js:127-136 | Manager or Admin only; every request in the table |
| `AccessStore.LedgerStepTransitive` | src/routes/request.routes.js:156-158 | allowed steps compose, so a decided request stays unchanged over any run of operations |
| `AccessStore.GrowTablesKeepsLedger` | src/entities/Request.js:32-50 | adding users or software never breaks a request's references |
| `AccessStore.AppendKeepsLedger` | src/routes/request.routes.js:23-31 | appending a fresh, well-formed Pending row keeps the table well formed and is an allowed step |
| `AccessStore.ResolveKeepsLedger` | src/routes/request.routes.js:160-166 | resolving a Pending row by a Manager keeps the table well formed and is an allowed step |
| `AccessStore.LedgerResolverIffDecided` | src/entities/Request.js:43-50 | in a well-formed table the nullable `updatedBy` is set exactly on decided requests |
| `AccessStore.GrantsComeFromManagers` | src/routes/request.routes.js:63-78 | every grant in `/my-access` has a resolver who is a stored Manager, for an access type the software offered |
| `AccessStore.Store.constructor` | src/index.js:19-29 | a fresh database: empty tables, every id sequence at 1, the clock at 0 |
| `AccessStore.Store.Signup` | src/routes/auth.routes.js:11-38 | a taken username fails DuplicateUsername and changes nothing; otherwise exactly one user is appended with the next id and the coerced role; the invariant is kept |
| `AccessStore.Store.CreateSoftware` | src/routes/software.routes.js:9-29 | only an Admin may register software; a taken name fails DuplicateSoftware and changes nothing; otherwise exactly one row is appended with the given name and description and the defaulted levels |
| `AccessStore.Store.CreateRequest` | src/routes/request.routes.js:10-36 | Employee only. An unknown software fails NotFound before the access-type check. An access type the software does not list fails InvalidAccessType. A listed spelling outside the enum is refused by the store. Every failure changes nothing. Otherwise exactly one Pending request with no resolver, owned by the caller, is appended. Existing rows are untouched |
| `AccessStore.Store.ResolveRequest` | src/routes/request.routes.js:138-177 | Manager only. A bad status fails before the lookup, then an unknown id fails NotFound, then a non-Pending request fails AlreadyProcessed. Every failure changes nothing. Otherwise only that row changes: it gets the decision, the caller as resolver and a new modification time |
| `Scenarios.SignUpStaff` | src/routes/auth.routes.js:11-32 | three signups give ids 1, 2, 3, with the requested roles, and an absent role becomes Employee |
| `Scenarios.SignUpMore` | src/routes/auth.routes.js:15-24 | a taken username is refused with the table unchanged; "SuperAdmin" is stored as Employee |
| `Scenarios.StaffLogins` | src/routes/auth.routes.js:44-58 | each user logs in to their own claims; a wrong password and an unknown name fail alike |
| `Scenarios.RegisterCrm` | src/routes/software.routes.js:9-24 | an Employee cannot register software; the Admin registers CRM with Read and Write |
| `Scenarios.AskForWrite` | src/routes/request.routes.js:14-31 | the Employee's Write request for CRM is stored Pending with no resolver |
| `Scenarios.ApproveWrite` | src/routes/request.routes.js:143-166 | the Manager's approval sets the status and resolver; the Employee's access then lists CRM at Write by the Manager; a second resolution fails AlreadyProcessed |
| `Scenarios.ApproveWriteAccess` | src/routes/request.routes.js:138-177 | from a fresh database, the whole story ends with one request: the Employee's Write request for CRM, approved by the Manager |
| `Scenarios.RefuseUnoffered` | src/routes/request.routes.js:14-21 | a Write request for Read-only software fails InvalidAccessType, an unknown software id fails NotFound, and no request is added |

## Left out

- Authentication (`authMiddleware`) is not part of this model, because its file is not part of the source. There is no Unauthenticated outcome. Every route takes the caller's verified claims.
- Store.CreateRequest and Store.ResolveRequest require the caller's claims to match a stored user (`AuthRoutes.Authentic`). Tokens are minted only by `Login` from stored users, and users are never deleted. So the foreign-key failure on a missing requester is not modelled. Neither is the missing-updater branch (src/routes/request.routes.js:162-164), which would store a decided request with no resolver.
- bcrypt hashing and comparison are foreign calls. `Store.Signup` takes the stored hash as a parameter, and `Login` takes the password check as a function parameter.
- JWT signing, the secret and the 24-hour expiry are not modelled. `Login` returns the claims triple.
- Wall-clock timestamps are replaced by a logical clock. The clock advances on each create and each resolve, and only the two sort orders read it. The `createdAt`/`updatedAt` columns of users and software are not modelled, because nothing reads them.
- Two managers resolving the same request at the same time is not modelled. The model is sequential, so it cannot express the race that the unguarded read-then-write allows.
- HTTP status codes, JSON shaping, the generic 500 catch blocks and `/api/auth/health` are not modelled. Relations are kept as ids, not eagerly loaded records. A database refusal of an out-of-enum access type is the single error `StoreRejected`.
- Absent or mistyped body fields are not modelled. The parameters are typed, except that `role` and `accessLevels` may be absent. Examples: an undefined `username`, `name` or `softwareId` in a `where` clause; a non-array `accessLevels`; a non-numeric `:id`.
- The comma-joined storage of `simple-array` is not modelled. An access level that itself contains a comma would be split when read back.
- `src/index.js` is not modelled. It holds process bootstrap, CORS, the data-source configuration and route mounting.
- ListSoftware, MyRequests and MyAccess take the caller's claims but test no role, as their routes list none.
- MyAccess: the route gives no order, so the model returns table order and its contract states none.
- ListSoftware and ListAll: `find()` without `order` gives no order (src/routes/software.routes.js:33, src/routes/request.routes.js:129-131). The model returns table order, and its contract fixes that order where the route promises none.
- Ids are unbounded naturals. The generated primary keys are 32-bit Postgres `int` columns (src/entities/User.js:8, Software.js:8, Request.js:8), so an insert past 2^31 - 1 fails; that failure is not modelled.
