/**
 * The Software entity: a catalog row with a generated id, a unique name, a
 * description and the list of access levels the software offers.
 */
module SoftwareSchema {

  /**
   * A catalog row. `accessLevels` is a `simple-array` column of strings; its
   * elements are not restricted to the access-type enum. The `requests`
   * relation is derived from the requests table (see `RequestSchema.RequestsFor`).
   */
  datatype Software = Software(id: nat, name: string, description: string, accessLevels: seq<string>)

  /** The column default of `accessLevels`. */
  const DefaultAccessLevels: seq<string> := ["Read"]

  /** The `unique: true` constraint on `name`. */
  ghost predicate NamesUnique(catalog: seq<Software>)
  {
    forall i, j :: 0 <= i < j < |catalog| ==> catalog[i].name != catalog[j].name
  }

  /** The generated primary key, as for users. */
  ghost predicate SoftwareIdsGenerated(catalog: seq<Software>, nextId: nat)
  {
    && 1 <= nextId
    && (forall i :: 0 <= i < |catalog| ==> 1 <= catalog[i].id < nextId)
    && (forall i, j :: 0 <= i < j < |catalog| ==> catalog[i].id < catalog[j].id)
  }
}
