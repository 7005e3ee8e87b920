/** The location-id-v2 plan (database/location_identity.py, build_location_id_plan). */
module LocationIdentity {
  import opened Basics
  import opened Ordering
  import opened Text
  import opened IdAssignment

  /**
   * A location as the plan reads it. `desired` stands for canonical_location_id of the node and
   * `aliases` for location_aliases of its properties.
   */
  datatype Location = Location(elementId: string, rawId: string, desired: string, aliases: seq<string>)

  /** The two truncated digests of an element id. */
  datatype Digests = Digests(suffix: string -> string, temporary: string -> string)

  datatype Row = Row(
    elementId: string,
    oldId: string,
    newId: string,
    temporaryId: string,
    aliases: set<string>,
    changed: bool,
    referenceAliases: set<string>)

  datatype Error = MissingLocationId(elementId: string)

  predicate ElementLe(a: Location, b: Location) { StrLe(a.elementId, b.elementId) }

  function Suffixed(d: Digests, l: Location): string { l.desired + "-" + d.suffix(l.elementId) }

  function ClaimOfLocation(d: Digests, l: Location): Claim {
    Claim(l.elementId, l.desired, Suffixed(d, l))
  }

  function Claims(d: Digests, locations: seq<Location>): (claims: seq<Claim>)
    ensures |claims| == |locations|
    ensures forall i :: 0 <= i < |claims| ==> claims[i] == ClaimOfLocation(d, locations[i])
  {
    seq(|locations|, i requires 0 <= i < |locations| => ClaimOfLocation(d, locations[i]))
  }

  ghost predicate DistinctElements(locations: seq<Location>) {
    forall i, j :: 0 <= i < j < |locations| ==> locations[i].elementId != locations[j].elementId
  }

  /** Digests of fixed length that do not collide on these locations. */
  ghost predicate SoundDigests(d: Digests, locations: seq<Location>) {
    && (forall e :: |d.suffix(e)| == 8)
    && (forall i, j :: 0 <= i < j < |locations| ==>
          d.suffix(locations[i].elementId) != d.suffix(locations[j].elementId))
    && (forall i, j :: 0 <= i < j < |locations| ==>
          d.temporary(locations[i].elementId) != d.temporary(locations[j].elementId))
  }

  lemma SuffixesAreDistinct(d: Digests, locations: seq<Location>)
    requires DistinctElements(locations) && SoundDigests(d, locations)
    ensures DistinctOwners(Claims(d, locations)) && DistinctSuffixes(Claims(d, locations))
  {
    forall i, j | 0 <= i < j < |locations| ensures Suffixed(d, locations[i]) != Suffixed(d, locations[j]) {
      TailsDiffer(locations[i].desired + "-", locations[j].desired + "-",
                  d.suffix(locations[i].elementId), d.suffix(locations[j].elementId));
    }
  }

  // ------------------------------------------------------------------ rows before their reference aliases

  ghost predicate RowOf(d: Digests, l: Location, newId: string, row: Row) {
    && row.elementId == l.elementId
    && row.oldId == Strip(l.rawId) != ""
    && row.newId == newId
    && row.temporaryId == "MIGRATING-" + d.temporary(l.elementId)
    && row.aliases == Elements(l.aliases) + {row.oldId}
    && row.changed == (row.oldId != row.newId)
  }

  /** The id the location gets, given the locations before it. */
  ghost function ChosenId(d: Digests, locations: seq<Location>, i: nat): string
    requires i < |locations|
  {
    Choice(Assign(Claims(d, locations[..i])), ClaimOfLocation(d, locations[i]))
  }

  ghost predicate RowsOf(d: Digests, locations: seq<Location>, rows: seq<Row>) {
    |rows| == |locations| && RowsSoFar(d, locations, rows)
  }

  /** The rows of the first locations. */
  ghost predicate RowsSoFar(d: Digests, locations: seq<Location>, rows: seq<Row>)
    requires |rows| <= |locations|
  {
    forall i :: 0 <= i < |rows| ==> RowOf(d, locations[i], ChosenId(d, locations, i), rows[i])
  }

  lemma ChosenIdIsAssigned(d: Digests, locations: seq<Location>, i: nat)
    requires DistinctElements(locations) && i < |locations|
    ensures locations[i].elementId in Assign(Claims(d, locations))
    ensures ChosenId(d, locations, i) == Assign(Claims(d, locations))[locations[i].elementId]
  {
    assert Claims(d, locations)[..i] == Claims(d, locations[..i]);
    AssignedId(Claims(d, locations), i);
  }

  lemma AssignNext(d: Digests, locations: seq<Location>, k: nat)
    requires DistinctElements(locations) && k < |locations|
    ensures locations[k].elementId !in Assign(Claims(d, locations[..k]))
    ensures Assign(Claims(d, locations[..k + 1]))
         == Assign(Claims(d, locations[..k]))[locations[k].elementId := ChosenId(d, locations, k)]
  {
    AssignedOwners(Claims(d, locations[..k]));
    assert Claims(d, locations[..k + 1])[..k] == Claims(d, locations[..k]);
  }

  /** One turn of the planning loop: the id and the row of one location. */
  method AssignRow(d: Digests, locations: seq<Location>, k: nat, before: map<string, string>)
    returns (row: Row, used: map<string, string>)
    requires DistinctElements(locations) && k < |locations| && Strip(locations[k].rawId) != ""
    requires UsedTable(Assign(Claims(d, locations[..k])), before)
    ensures RowOf(d, locations[k], ChosenId(d, locations, k), row)
    ensures UsedTable(Assign(Claims(d, locations[..k + 1])), used)
  {
    var l := locations[k];
    var oldId := Strip(l.rawId);
    AssignNext(d, locations, k);
    var newId;
    newId, used := Choose(ClaimOfLocation(d, l), before, Assign(Claims(d, locations[..k])));
    row := Row(l.elementId, oldId, newId, "MIGRATING-" + d.temporary(l.elementId),
               Elements(l.aliases) + {oldId}, oldId != newId, {});
  }

  lemma RowsGrow(d: Digests, locations: seq<Location>, rows: seq<Row>, row: Row)
    requires |rows| < |locations| && RowsSoFar(d, locations, rows)
    requires RowOf(d, locations[|rows|], ChosenId(d, locations, |rows|), row)
    ensures RowsSoFar(d, locations, rows + [row])
  {
    var extended := rows + [row];
    forall i | 0 <= i < |extended| ensures RowOf(d, locations[i], ChosenId(d, locations, i), extended[i]) {
      assert extended[i] == if i < |rows| then rows[i] else row;
    }
  }

  /** The locations have ids to replace. */
  ghost predicate Identified(locations: seq<Location>, k: nat)
    requires k <= |locations|
  {
    forall i :: 0 <= i < k ==> Strip(locations[i].rawId) != ""
  }

  method AssignRows(d: Digests, locations: seq<Location>) returns (result: Result<seq<Row>, Error>)
    requires DistinctElements(locations)
    ensures result.Err? <==> !Identified(locations, |locations|)
    ensures result.Ok? ==> RowsOf(d, locations, result.value)
  {
    var used: map<string, string> := map[];
    var rows: seq<Row> := [];
    for k := 0 to |locations|
      invariant Identified(locations, k)
      invariant |rows| == k && RowsSoFar(d, locations, rows)
      invariant UsedTable(Assign(Claims(d, locations[..k])), used)
    {
      if Strip(locations[k].rawId) == "" {
        return Err(MissingLocationId(locations[k].elementId));
      }
      var row;
      row, used := AssignRow(d, locations, k, used);
      RowsGrow(d, locations, rows, row);
      rows := rows + [row];
    }
    result := Ok(rows);
  }

  // ------------------------------------------------------------------ alias ownership

  function OldIdOwners(rows: seq<Row>): map<string, string> {
    if rows == [] then map[]
    else OldIdOwners(rows[..|rows| - 1])[rows[|rows| - 1].oldId := rows[|rows| - 1].newId]
  }

  /** The new ids of the rows that carry the alias. */
  function AliasOwners(rows: seq<Row>, alias: string): set<string> {
    set i | 0 <= i < |rows| && alias in rows[i].aliases :: rows[i].newId
  }

  /** The owner of an old primary id, or else the only row that claims the alias. */
  ghost predicate Owns(rows: seq<Row>, alias: string, newId: string) {
    if alias in OldIdOwners(rows) then OldIdOwners(rows)[alias] == newId
    else AliasOwners(rows, alias) == {newId}
  }

  function AllAliases(rows: seq<Row>): set<string> {
    set i, a | 0 <= i < |rows| && a in rows[i].aliases :: a
  }

  ghost function ReferenceAliases(rows: seq<Row>, row: Row): set<string> {
    (set alias | alias in AllAliases(rows) && Owns(rows, alias, row.newId)) + {row.oldId, row.newId}
  }

  method SetReferenceAliases(rows: seq<Row>) returns (completed: seq<Row>)
    ensures |completed| == |rows|
    ensures forall i :: 0 <= i < |rows| ==>
      completed[i] == rows[i].(referenceAliases := ReferenceAliases(rows, rows[i]))
  {
    var oldIdOwners := OldIdOwners(rows);
    var owned: map<string, set<string>> := map[];
    var left := AllAliases(rows);
    while left != {}
      invariant left <= AllAliases(rows)
      invariant forall id, alias ::
        (id in owned && alias in owned[id]) <==> (alias in AllAliases(rows) && alias !in left && Owns(rows, alias, id))
      decreases left
    {
      var alias :| alias in left;
      left := left - {alias};
      var owners := AliasOwners(rows, alias);
      if alias in oldIdOwners {
        owned := Add(owned, oldIdOwners[alias], alias);
      } else if |owners| == 1 {
        var owner :| owner in owners;
        SingletonOf(owners, owner);
        owned := Add(owned, owner, alias);
      } else {
        forall id ensures owners != {id} { assert |{id}| == 1; }
      }
    }
    completed := seq(|rows|, i requires 0 <= i < |rows| =>
      rows[i].(referenceAliases := (if rows[i].newId in owned then owned[rows[i].newId] else {})
                                   + {rows[i].oldId, rows[i].newId}));
    forall i | 0 <= i < |rows|
      ensures completed[i] == rows[i].(referenceAliases := ReferenceAliases(rows, rows[i]))
    {
      var id := rows[i].newId;
      var mine := if id in owned then owned[id] else {};
      assert mine == set alias | alias in AllAliases(rows) && Owns(rows, alias, id);
    }
  }

  function Add(owned: map<string, set<string>>, id: string, alias: string): (r: map<string, set<string>>)
    ensures forall x, a :: (x in r && a in r[x]) <==> (x in owned && a in owned[x]) || (x == id && a == alias)
  {
    owned[id := (if id in owned then owned[id] else {}) + {alias}]
  }

  lemma SingletonOf<T>(s: set<T>, x: T)
    requires |s| == 1 && x in s
    ensures s == {x}
  {
    assert |s - {x}| == 0;
  }

  /** A complete plan: rows in element order, each with the aliases its references may use. */
  ghost predicate IsPlan(d: Digests, locations: seq<Location>, rows: seq<Row>) {
    && |rows| == |locations|
    && exists bare: seq<Row> :: RowsOf(d, locations, bare)
         && forall i :: 0 <= i < |rows| ==> rows[i] == bare[i].(referenceAliases := ReferenceAliases(bare, bare[i]))
  }

  method BuildLocationIdPlan(d: Digests, nodes: seq<Location>)
    returns (locations: seq<Location>, result: Result<seq<Row>, Error>)
    requires DistinctElements(nodes)
    ensures locations == Sort(nodes, ElementLe)
    ensures result.Err? <==> exists l :: l in nodes && Strip(l.rawId) == ""
    ensures result.Ok? ==> IsPlan(d, locations, result.value)
  {
    locations := Sort(nodes, ElementLe);
    SortContents(nodes, ElementLe);
    KeysStayDistinct(nodes, locations, (x: Location) => x.elementId);
    result := AssignRows(d, locations);
    if result.Err? {
      return;
    }
    forall l | l in nodes ensures Strip(l.rawId) != "" {
      assert l in locations;
    }
    var completed := SetReferenceAliases(result.value);
    result := Ok(completed);
  }

  // ------------------------------------------------------------------ new ids are distinct

  ghost predicate DistinctNewIds(rows: seq<Row>) {
    forall i, j :: 0 <= i < j < |rows| ==> rows[i].newId != rows[j].newId
  }

  /**
   * The planned ids are pairwise distinct exactly when no location that had to be suffixed is handed
   * an id that an earlier location desired as it stands.
   */
  lemma NewIdsDistinctIff(d: Digests, locations: seq<Location>, rows: seq<Row>)
    requires SoundDigests(d, locations) && IsPlan(d, locations, rows)
    ensures DistinctNewIds(rows) <==> forall i, j :: !Clash(Claims(d, locations), i, j)
  {
    SuffixesAreDistinct(d, locations);
    DistinctIff(Claims(d, locations));
    RowsHaveIds(d, locations, rows);
    DistinctRowsAreDistinctIds(d, locations, rows);
  }

  lemma RowsHaveIds(d: Digests, locations: seq<Location>, rows: seq<Row>)
    requires DistinctElements(locations) && IsPlan(d, locations, rows)
    ensures forall i :: 0 <= i < |rows| ==> RowHasId(d, locations, rows, i)
  {
    forall i | 0 <= i < |rows| ensures RowHasId(d, locations, rows, i) {
      ChosenIdIsAssigned(d, locations, i);
    }
  }

  /** Each location gets the id it desires, or that id with its own digest if it is crowded out. */
  lemma NewIdTells(d: Digests, locations: seq<Location>, rows: seq<Row>, i: nat)
    requires DistinctElements(locations) && IsPlan(d, locations, rows) && i < |rows|
    ensures rows[i].newId == if Crowded(Claims(d, locations), i)
      then locations[i].desired + "-" + d.suffix(locations[i].elementId) else locations[i].desired
  {
    var claims := Claims(d, locations);
    RowsHaveIds(d, locations, rows);
    assert RowHasId(d, locations, rows, i);
    SuffixesHaveOwners(d, locations);
    AssignedId(claims, i);
    CollidesIffCrowded(claims, i);
  }

  lemma SuffixesHaveOwners(d: Digests, locations: seq<Location>)
    requires DistinctElements(locations)
    ensures DistinctOwners(Claims(d, locations))
  {
  }

  ghost predicate RowHasId(d: Digests, locations: seq<Location>, rows: seq<Row>, i: nat)
    requires i < |rows| == |locations|
  {
    var ids := Assign(Claims(d, locations));
    locations[i].elementId in ids && rows[i].newId == ids[locations[i].elementId]
  }

  lemma DistinctRowsAreDistinctIds(d: Digests, locations: seq<Location>, rows: seq<Row>)
    requires |rows| == |locations| && DistinctElements(locations)
    requires forall i :: 0 <= i < |rows| ==> RowHasId(d, locations, rows, i)
    ensures DistinctNewIds(rows) <==> DistinctIds(Assign(Claims(d, locations)))
  {
    var ids := Assign(Claims(d, locations));
    if DistinctNewIds(rows) {
      forall a, b | SameId(ids, a, b) ensures a == b {
        var i := ClaimOf(Claims(d, locations), a);
        var j := ClaimOf(Claims(d, locations), b);
        assert RowHasId(d, locations, rows, i) && RowHasId(d, locations, rows, j);
      }
    }
    if DistinctIds(ids) {
      forall i, j | 0 <= i < j < |rows| ensures rows[i].newId != rows[j].newId {
        assert RowHasId(d, locations, rows, i) && RowHasId(d, locations, rows, j);
        assert !SameId(ids, locations[i].elementId, locations[j].elementId);
      }
    }
  }

  /** A sufficient condition to check beforehand: no desired id has the suffixed form of a location. */
  lemma UnsuffixedDesiresSuffice(d: Digests, locations: seq<Location>, rows: seq<Row>)
    requires DistinctElements(locations) && SoundDigests(d, locations) && IsPlan(d, locations, rows)
    requires forall i, j :: 0 <= i < |locations| && 0 <= j < |locations| ==>
      locations[i].desired != Suffixed(d, locations[j])
    ensures DistinctNewIds(rows)
  {
    NewIdsDistinctIff(d, locations, rows);
  }

  /** Three locations, the first of which already carries the suffixed form of the third. */
  function ClashExample(d: Digests, desired: string): seq<Location> {
    [Location("1", "a", desired + "-" + d.suffix("3"), []),
     Location("2", "b", desired, []),
     Location("3", "c", desired, [])]
  }

  /** For these the plan assigns one id twice. */
  lemma SuffixedIdCanClash(d: Digests, desired: string, rows: seq<Row>)
    requires SoundDigests(d, ClashExample(d, desired)) && IsPlan(d, ClashExample(d, desired), rows)
    ensures !DistinctNewIds(rows)
  {
    ExampleClashes(d, desired);
    NewIdsDistinctIff(d, ClashExample(d, desired), rows);
  }

  lemma ExampleClashes(d: Digests, desired: string)
    ensures DistinctElements(ClashExample(d, desired))
    ensures Clash(Claims(d, ClashExample(d, desired)), 0, 2)
  {
    assert "1"[0] != "2"[0] && "1"[0] != "3"[0] && "2"[0] != "3"[0];
    var claims := Claims(d, ClashExample(d, desired));
    assert CrowdsOut(claims[1], claims[2], Crowded(claims, 1));
  }
}
