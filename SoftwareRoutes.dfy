/**
 * The decisions of the software routes: the catalog lookups, the default for
 * `accessLevels` and the listing. The insert is `AccessStore.Store.CreateSoftware`.
 */
module SoftwareRoutes {
  import opened Wrappers
  import opened Tables
  import opened UserSchema
  import opened SoftwareSchema
  import opened Access

  /** Only an Admin may register software. */
  const CreateSoftwareRoles: set<Role> := {Role.Admin}

  /** `findOne({ where: { id } })` on the catalog. */
  function FindSoftware(catalog: seq<Software>, id: nat): (r: Option<Software>)
    ensures r.Some? ==> r.value in catalog && r.value.id == id
    ensures r.None? <==> forall s :: s in catalog ==> s.id != id
  {
    match IndexWhere(catalog, (s: Software) => s.id == id)
    case None => None
    case Some(i) => Some(catalog[i])
  }

  /** `findOne({ where: { name } })` on the catalog. */
  function FindSoftwareByName(catalog: seq<Software>, name: string): (r: Option<Software>)
    ensures r.Some? ==> r.value in catalog && r.value.name == name
    ensures r.None? <==> forall s :: s in catalog ==> s.name != name
  {
    match IndexWhere(catalog, (s: Software) => s.name == name)
    case None => None
    case Some(i) => Some(catalog[i])
  }

  /**
   * `accessLevels || ["Read"]`: the default applies only when the field is
   * absent; a supplied list, even an empty one, is kept as given.
   */
  function InitialAccessLevels(supplied: Option<seq<string>>): (r: seq<string>)
    ensures supplied.None? ==> r == DefaultAccessLevels
    ensures supplied.Some? ==> r == supplied.value
  {
    match supplied
    case None => DefaultAccessLevels
    case Some(levels) => levels
  }

  /** An empty array is truthy, so it is stored as an empty list, not replaced. */
  lemma EmptyAccessLevelsKept()
    ensures InitialAccessLevels(Some([])) == []
    ensures InitialAccessLevels(None) == ["Read"]
  {
  }

  /** Any authenticated caller gets every catalog row, unfiltered, in table order. */
  function ListSoftware(caller: Claims, catalog: seq<Software>): (r: seq<Software>)
    ensures |r| == |catalog| && forall i :: 0 <= i < |r| ==> r[i] == catalog[i]
  {
    catalog
  }
}
