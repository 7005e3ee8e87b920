/** The migration transaction (scripts/migrate_location_ids_v2.py, execute). */
module LocationMigration {
  import opened Text
  import opened LocationIdentity

  // ------------------------------------------------------------------ references

  ghost predicate DistinctOldIds(rows: seq<Row>) {
    forall i, j :: 0 <= i < j < |rows| ==> rows[i].oldId != rows[j].oldId
  }

  ghost predicate WellReferenced(rows: seq<Row>) {
    forall i :: 0 <= i < |rows| ==> rows[i].referenceAliases == ReferenceAliases(rows, rows[i])
  }

  lemma {:induction false} OwnersIgnoreReferences(rows: seq<Row>, bare: seq<Row>)
    requires |rows| == |bare|
    requires forall i :: 0 <= i < |rows| ==> rows[i] == bare[i].(referenceAliases := rows[i].referenceAliases)
    ensures OldIdOwners(rows) == OldIdOwners(bare)
    ensures forall alias :: AliasOwners(rows, alias) == AliasOwners(bare, alias)
    ensures AllAliases(rows) == AllAliases(bare)
  {
    if rows != [] {
      OwnersIgnoreReferences(rows[..|rows| - 1], bare[..|rows| - 1]);
    }
  }

  /** The rows of a plan carry the reference aliases the plan promises. */
  lemma PlanIsWellReferenced(d: Digests, locations: seq<Location>, rows: seq<Row>)
    requires IsPlan(d, locations, rows)
    ensures WellReferenced(rows)
  {
    var bare: seq<Row> :| RowsOf(d, locations, bare)
      && forall i :: 0 <= i < |rows| ==> rows[i] == bare[i].(referenceAliases := ReferenceAliases(bare, bare[i]));
    ReferencesMatch(rows, bare);
  }

  lemma ReferencesMatch(rows: seq<Row>, bare: seq<Row>)
    requires |rows| == |bare|
    requires forall i :: 0 <= i < |rows| ==> rows[i] == bare[i].(referenceAliases := ReferenceAliases(bare, bare[i]))
    ensures WellReferenced(rows)
  {
    OwnersIgnoreReferences(rows, bare);
    forall i | 0 <= i < |rows| ensures rows[i].referenceAliases == ReferenceAliases(rows, rows[i]) {
      assert forall alias :: Owns(rows, alias, rows[i].newId) == Owns(bare, alias, rows[i].newId);
    }
  }

  lemma {:induction false} OldIdOwner(rows: seq<Row>, i: nat)
    requires DistinctOldIds(rows) && i < |rows|
    ensures rows[i].oldId in OldIdOwners(rows) && OldIdOwners(rows)[rows[i].oldId] == rows[i].newId
  {
    var n := |rows| - 1;
    if i < n {
      OldIdOwner(rows[..n], i);
      assert rows[i].oldId != rows[n].oldId;
    }
  }

  lemma {:induction false} OldIdOwnerIsRow(rows: seq<Row>, alias: string)
    ensures alias in OldIdOwners(rows) <==> exists i :: 0 <= i < |rows| && rows[i].oldId == alias
  {
    if rows != [] {
      var n := |rows| - 1;
      OldIdOwnerIsRow(rows[..n], alias);
      assert forall i :: 0 <= i < n ==> rows[..n][i] == rows[i];
      if alias in OldIdOwners(rows[..n]) {
        var i :| 0 <= i < n && rows[..n][i].oldId == alias;
        assert rows[i].oldId == alias;
      }
    }
  }

  /** The row rewrites a reference of this value. */
  predicate Rewrites(row: Row, value: string) {
    value in row.referenceAliases && value != row.newId
  }

  /** Each value is rewritten to at most one new id, and so by at most one row if no two share theirs. */
  lemma RewritingIsSingleValued(rows: seq<Row>, value: string, i: nat, j: nat)
    requires WellReferenced(rows) && DistinctOldIds(rows)
    requires i < |rows| && j < |rows| && Rewrites(rows[i], value) && Rewrites(rows[j], value)
    ensures rows[i].newId == rows[j].newId
    ensures DistinctNewIds(rows) ==> i == j
  {
    RewriterOwns(rows, value, i);
    RewriterOwns(rows, value, j);
  }

  lemma RewriterOwns(rows: seq<Row>, value: string, i: nat)
    requires WellReferenced(rows) && i < |rows| && Rewrites(rows[i], value)
    requires DistinctOldIds(rows) || value != rows[i].oldId
    ensures Owns(rows, value, rows[i].newId)
  {
    if value == rows[i].oldId { OldIdOwner(rows, i); }
  }

  /** The value after one statement: matches are found before anything is set. */
  function Rewritten(rows: seq<Row>, value: string): string {
    if rows == [] then value
    else if Rewrites(rows[|rows| - 1], value) then rows[|rows| - 1].newId
    else Rewritten(rows[..|rows| - 1], value)
  }

  lemma {:induction false} RewrittenBy(rows: seq<Row>, value: string)
    ensures (forall i :: 0 <= i < |rows| ==> !Rewrites(rows[i], value)) ==> Rewritten(rows, value) == value
    ensures (exists i :: 0 <= i < |rows| && Rewrites(rows[i], value)) ==>
      exists i :: 0 <= i < |rows| && Rewrites(rows[i], value) && Rewritten(rows, value) == rows[i].newId
  {
    if rows != [] {
      var n := |rows| - 1;
      assert forall i :: 0 <= i < n ==> rows[..n][i] == rows[i];
      RewrittenBy(rows[..n], value);
      if !Rewrites(rows[n], value) && exists i :: 0 <= i < |rows| && Rewrites(rows[i], value) {
        var i :| 0 <= i < |rows| && Rewrites(rows[i], value);
        assert Rewrites(rows[..n][i], value);
        var j :| 0 <= j < n && Rewrites(rows[..n][j], value) && Rewritten(rows[..n], value) == rows[..n][j].newId;
        assert Rewrites(rows[j], value);
      }
    }
  }

  /** A reference to an old id ends at the new id of its row, even when new ids permute old ones. */
  lemma OldReferencesMove(rows: seq<Row>, i: nat)
    requires WellReferenced(rows) && DistinctOldIds(rows) && i < |rows|
    ensures Rewritten(rows, rows[i].oldId) == rows[i].newId
  {
    var value := rows[i].oldId;
    OldIdOwner(rows, i);
    RewrittenBy(rows, value);
    if k :| 0 <= k < |rows| && Rewrites(rows[k], value) {
      var j :| 0 <= j < |rows| && Rewrites(rows[j], value) && Rewritten(rows, value) == rows[j].newId;
      RewriterOwns(rows, value, j);
    } else {
      assert !Rewrites(rows[i], value);
    }
  }

  /** An alias that several rows claim, and that is no row's old id, is left alone. */
  lemma SharedAliasIsLeftAlone(rows: seq<Row>, alias: string)
    requires WellReferenced(rows)
    requires forall i :: 0 <= i < |rows| ==> rows[i].oldId != alias
    requires |AliasOwners(rows, alias)| > 1
    ensures Rewritten(rows, alias) == alias
  {
    OldIdOwnerIsRow(rows, alias);
    RewrittenBy(rows, alias);
    forall id ensures AliasOwners(rows, alias) != {id} { assert |{id}| == 1; }
    if i :| 0 <= i < |rows| && Rewrites(rows[i], alias) {
      RewriterOwns(rows, alias, i);
    }
  }

  lemma OwnAliasIsReference(rows: seq<Row>, alias: string, i: nat)
    requires WellReferenced(rows) && i < |rows|
    requires forall k :: 0 <= k < |rows| ==> rows[k].oldId != alias
    requires AliasOwners(rows, alias) == {rows[i].newId}
    ensures alias in rows[i].referenceAliases
  {
    OldIdOwnerIsRow(rows, alias);
    var claimant :| 0 <= claimant < |rows| && alias in rows[claimant].aliases && rows[claimant].newId == rows[i].newId;
    assert alias in AllAliases(rows);
    assert Owns(rows, alias, rows[i].newId);
  }

  lemma OwnAliasRewriter(rows: seq<Row>, alias: string, i: nat, j: nat)
    requires WellReferenced(rows) && i < |rows| && j < |rows| && Rewrites(rows[j], alias)
    requires forall k :: 0 <= k < |rows| ==> rows[k].oldId != alias
    requires AliasOwners(rows, alias) == {rows[i].newId}
    ensures rows[j].newId == rows[i].newId
  {
    RewriterOwns(rows, alias, j);
    OldIdOwnerIsRow(rows, alias);
    assert rows[i].newId in AliasOwners(rows, alias);
  }

  /** An alias that exactly one row claims, and that is no row's old id, moves to that row. */
  lemma OwnAliasMoves(rows: seq<Row>, alias: string, i: nat)
    requires WellReferenced(rows) && i < |rows|
    requires forall k :: 0 <= k < |rows| ==> rows[k].oldId != alias
    requires AliasOwners(rows, alias) == {rows[i].newId}
    ensures Rewritten(rows, alias) == rows[i].newId
  {
    RewrittenBy(rows, alias);
    OwnAliasIsReference(rows, alias, i);
    if k :| 0 <= k < |rows| && Rewrites(rows[k], alias) {
      var j :| 0 <= j < |rows| && Rewrites(rows[j], alias) && Rewritten(rows, alias) == rows[j].newId;
      OwnAliasRewriter(rows, alias, i, j);
    } else {
      assert !Rewrites(rows[i], alias);
    }
  }

  /** What row-by-row matching would give instead. */
  function RewrittenInTurn(rows: seq<Row>, value: string): string {
    if rows == [] then value
    else
      var earlier := RewrittenInTurn(rows[..|rows| - 1], value);
      if Rewrites(rows[|rows| - 1], earlier) then rows[|rows| - 1].newId else earlier
  }

  /** When two locations exchange ids, matching row by row would undo the first rewrite. */
  lemma MatchingBeforeSettingMatters(a: Row, b: Row)
    requires a.oldId == b.newId && b.oldId == a.newId && a.oldId != b.oldId
    requires WellReferenced([a, b])
    ensures RewrittenInTurn([a, b], a.oldId) == a.oldId
    ensures Rewritten([a, b], a.oldId) == a.newId
  {
    var rows := [a, b];
    assert rows[..1] == [a] && [a][..0] == [];
    assert DistinctOldIds(rows);
    OldReferencesMove(rows, 0);
    OldIdOwner(rows, 0);
    OldIdOwner(rows, 1);
    assert rows[0].referenceAliases == ReferenceAliases(rows, rows[0]);
    assert rows[1].referenceAliases == ReferenceAliases(rows, rows[1]);
    assert Rewrites(a, a.oldId) && Rewrites(b, b.oldId);
    assert RewrittenInTurn([a], a.oldId) == a.newId;
  }

  // ------------------------------------------------------------------ two-phase replacement

  type Keys = map<string, string>

  ghost predicate Unique(ids: Keys) {
    forall a, b :: a in ids && b in ids && ids[a] == ids[b] ==> a == b
  }

  /** Ids after the first statement: every changed location holds its temporary id. */
  function TemporaryIds(ids: Keys, rows: seq<Row>): Keys {
    if rows == [] then ids
    else
      var n := |rows| - 1;
      var earlier := TemporaryIds(ids, rows[..n]);
      if rows[n].changed then earlier[rows[n].elementId := rows[n].temporaryId] else earlier
  }

  /** Ids after the second statement: every location holds its new id. */
  function FinalIds(ids: Keys, rows: seq<Row>): Keys {
    if rows == [] then ids
    else FinalIds(ids, rows[..|rows| - 1])[rows[|rows| - 1].elementId := rows[|rows| - 1].newId]
  }

  /** Every row names one location, and no two rows the same. */
  ghost predicate Addressed(ids: Keys, rows: seq<Row>) {
    && (forall i :: 0 <= i < |rows| ==> rows[i].elementId in ids)
    && (forall i, j :: 0 <= i < j < |rows| ==> rows[i].elementId != rows[j].elementId)
  }

  /** What the transaction starts from. */
  ghost predicate Ready(ids: Keys, rows: seq<Row>) {
    && Unique(ids)
    && (forall i, j :: 0 <= i < j < |rows| ==> rows[i].elementId != rows[j].elementId)
    && DistinctNewIds(rows)
    && (forall i, j :: 0 <= i < j < |rows| ==> rows[i].temporaryId != rows[j].temporaryId)
    && (forall e :: e in ids <==> exists i :: 0 <= i < |rows| && rows[i].elementId == e)
    && (forall i :: 0 <= i < |rows| ==> RowReady(ids, rows, i))
  }

  /** The row reads its location's trimmed id, its new id is trimmed, and its temporary id is fresh. */
  ghost predicate RowReady(ids: Keys, rows: seq<Row>, i: nat)
    requires i < |rows|
  {
    var row := rows[i];
    && row.elementId in ids
    && row.oldId == Strip(ids[row.elementId])
    && row.changed == (row.oldId != row.newId)
    && Trimmed(row.newId)
    && (forall e :: e in ids ==> ids[e] != row.temporaryId)
    && (forall j :: 0 <= j < |rows| ==> rows[j].newId != row.temporaryId)
  }

  /** How far a location has come. */
  datatype Stage = Original | Temporary | Final

  /** The id of a location at its stage. */
  ghost function IdAt(ids: Keys, row: Row, stage: Stage): string
    requires row.elementId in ids
  {
    match stage
    case Original => ids[row.elementId]
    case Temporary => row.temporaryId
    case Final => row.newId
  }

  /** The stage of the `i`th location after `m` rows of the first or of the second statement. */
  ghost function StageAt(rows: seq<Row>, second: bool, m: nat, i: nat): Stage
    requires i < |rows|
  {
    if second && i < m then Final
    else if rows[i].changed && (second || i < m) then Temporary
    else Original
  }

  /** A location that keeps its id never holds the new id of another, even before trimming. */
  lemma KeptIdIsNoOthers(ids: Keys, rows: seq<Row>, kept: nat, other: nat)
    requires Ready(ids, rows) && kept < |rows| && other < |rows| && kept != other
    requires !rows[kept].changed
    ensures RowReady(ids, rows, kept) && ids[rows[kept].elementId] != rows[other].newId
  {
    assert RowReady(ids, rows, kept) && RowReady(ids, rows, other);
    StripTrimmed(rows[other].newId);
    assert rows[kept].newId != rows[other].newId;
  }

  lemma TemporaryIdIsFresh(ids: Keys, rows: seq<Row>, i: nat, j: nat)
    requires Ready(ids, rows) && i < |rows| && j < |rows| && i != j
    ensures RowReady(ids, rows, j) && rows[i].temporaryId != ids[rows[j].elementId]
    ensures rows[i].temporaryId != rows[j].newId && rows[i].temporaryId != rows[j].temporaryId
  {
    assert RowReady(ids, rows, i) && RowReady(ids, rows, j);
  }

  lemma OriginalIdsDiffer(ids: Keys, rows: seq<Row>, i: nat, j: nat)
    requires Ready(ids, rows) && i < j < |rows|
    ensures RowReady(ids, rows, i) && RowReady(ids, rows, j)
    ensures ids[rows[i].elementId] != ids[rows[j].elementId] && rows[i].newId != rows[j].newId
  {
    assert RowReady(ids, rows, i) && RowReady(ids, rows, j);
    assert rows[i].elementId != rows[j].elementId;
  }

  /** No id one of two locations can hold is one the other can hold at the same moment. */
  ghost predicate Apart(ids: Keys, a: Row, b: Row) {
    && a.elementId in ids && b.elementId in ids
    && ids[a.elementId] != ids[b.elementId] && a.newId != b.newId && a.temporaryId != b.temporaryId
    && a.temporaryId !in {ids[b.elementId], b.newId} && b.temporaryId !in {ids[a.elementId], a.newId}
    && (!a.changed ==> ids[a.elementId] != b.newId)
    && (!b.changed ==> ids[b.elementId] != a.newId)
  }

  lemma RowsAreApart(ids: Keys, rows: seq<Row>, i: nat, j: nat)
    requires Ready(ids, rows) && i < j < |rows|
    ensures Apart(ids, rows[i], rows[j])
  {
    OriginalIdsDiffer(ids, rows, i, j);
    TemporaryIdIsFresh(ids, rows, i, j);
    TemporaryIdIsFresh(ids, rows, j, i);
    if !rows[i].changed { KeptIdIsNoOthers(ids, rows, i, j); }
    if !rows[j].changed { KeptIdIsNoOthers(ids, rows, j, i); }
  }

  lemma ApartIdsDiffer(ids: Keys, a: Row, b: Row, stageA: Stage, stageB: Stage)
    requires Apart(ids, a, b)
    requires stageA.Final? && stageB.Original? ==> !b.changed
    requires stageA.Original? && stageB.Final? ==> !a.changed
    ensures IdAt(ids, a, stageA) != IdAt(ids, b, stageB)
  {
  }

  /** At one moment two locations never share an id. */
  lemma StagesDiffer(ids: Keys, rows: seq<Row>, second: bool, m: nat, i: nat, j: nat)
    requires Ready(ids, rows) && i < j < |rows|
    ensures rows[i].elementId in ids && rows[j].elementId in ids
    ensures IdAt(ids, rows[i], StageAt(rows, second, m, i)) != IdAt(ids, rows[j], StageAt(rows, second, m, j))
  {
    RowsAreApart(ids, rows, i, j);
    ApartIdsDiffer(ids, rows[i], rows[j], StageAt(rows, second, m, i), StageAt(rows, second, m, j));
  }

  ghost predicate AtStage(ids: Keys, row: Row, now: Keys, stage: Stage) {
    row.elementId in ids && row.elementId in now && now[row.elementId] == IdAt(ids, row, stage)
  }

  /** Every location's id is the one of its stage. */
  ghost predicate Staged(ids: Keys, rows: seq<Row>, now: Keys, second: bool, m: nat) {
    && now.Keys == ids.Keys
    && forall i :: 0 <= i < |rows| ==> AtStage(ids, rows[i], now, StageAt(rows, second, m, i))
  }

  lemma StagedIsUnique(ids: Keys, rows: seq<Row>, now: Keys, second: bool, m: nat)
    requires Ready(ids, rows) && Staged(ids, rows, now, second, m)
    ensures Unique(now)
  {
    forall a, b | a in now && b in now && now[a] == now[b] ensures a == b {
      var i :| 0 <= i < |rows| && rows[i].elementId == a;
      var j :| 0 <= j < |rows| && rows[j].elementId == b;
      assert AtStage(ids, rows[i], now, StageAt(rows, second, m, i));
      assert AtStage(ids, rows[j], now, StageAt(rows, second, m, j));
      if i < j {
        StagesDiffer(ids, rows, second, m, i, j);
      } else if j < i {
        StagesDiffer(ids, rows, second, m, j, i);
      }
    }
  }

  lemma {:induction false} TemporaryIsStaged(ids: Keys, rows: seq<Row>, m: nat)
    requires Addressed(ids, rows) && m <= |rows|
    ensures Staged(ids, rows, TemporaryIds(ids, rows[..m]), false, m)
  {
    var now := TemporaryIds(ids, rows[..m]);
    if m > 0 {
      assert rows[..m][..m - 1] == rows[..m - 1];
      TemporaryIsStaged(ids, rows, m - 1);
    }
    forall i | 0 <= i < |rows| ensures AtStage(ids, rows[i], now, StageAt(rows, false, m, i)) {
      if m > 0 {
        assert AtStage(ids, rows[i], TemporaryIds(ids, rows[..m - 1]), StageAt(rows, false, m - 1, i));
        assert i != m - 1 ==> rows[i].elementId != rows[m - 1].elementId;
      }
    }
  }

  lemma {:induction false} FinalIsStaged(ids: Keys, rows: seq<Row>, m: nat)
    requires Addressed(ids, rows) && m <= |rows|
    ensures Staged(ids, rows, FinalIds(TemporaryIds(ids, rows), rows[..m]), true, m)
  {
    var now := FinalIds(TemporaryIds(ids, rows), rows[..m]);
    if m == 0 {
      assert rows[..|rows|] == rows;
      TemporaryIsStaged(ids, rows, |rows|);
    } else {
      assert rows[..m][..m - 1] == rows[..m - 1];
      FinalIsStaged(ids, rows, m - 1);
    }
    forall i | 0 <= i < |rows| ensures AtStage(ids, rows[i], now, StageAt(rows, true, m, i)) {
      if m == 0 {
        assert AtStage(ids, rows[i], now, StageAt(rows, false, |rows|, i));
      } else {
        assert AtStage(ids, rows[i], FinalIds(TemporaryIds(ids, rows), rows[..m - 1]), StageAt(rows, true, m - 1, i));
        assert i != m - 1 ==> rows[i].elementId != rows[m - 1].elementId;
      }
    }
  }

  /** The id is unique after every single assignment of both statements, whatever the order of the rows. */
  lemma EveryAssignmentKeepsUnique(ids: Keys, rows: seq<Row>, m: nat)
    requires Ready(ids, rows) && m <= |rows|
    ensures Unique(TemporaryIds(ids, rows[..m]))
    ensures Unique(FinalIds(TemporaryIds(ids, rows), rows[..m]))
  {
    TemporaryIsStaged(ids, rows, m);
    StagedIsUnique(ids, rows, TemporaryIds(ids, rows[..m]), false, m);
    FinalIsStaged(ids, rows, m);
    StagedIsUnique(ids, rows, FinalIds(TemporaryIds(ids, rows), rows[..m]), true, m);
  }

  /** In the end every location holds its new id. */
  lemma EveryLocationArrives(ids: Keys, rows: seq<Row>, i: nat)
    requires Ready(ids, rows) && i < |rows|
    ensures var end := FinalIds(TemporaryIds(ids, rows), rows);
      rows[i].elementId in end && end[rows[i].elementId] == rows[i].newId
  {
    assert rows[..|rows|] == rows;
    FinalIsStaged(ids, rows, |rows|);
    var end := FinalIds(TemporaryIds(ids, rows), rows);
    assert AtStage(ids, rows[i], end, StageAt(rows, true, |rows|, i));
  }

  /** Setting the id of one location directly to what another still holds breaks uniqueness half way. */
  lemma DirectReplacementCollides(a: Row, b: Row)
    requires a.elementId != b.elementId && a.newId == b.oldId && a.oldId != b.oldId
    ensures var ids := map[a.elementId := a.oldId, b.elementId := b.oldId];
      Unique(ids) && !Unique(FinalIds(ids, [a, b][..1]))
  {
    var ids := map[a.elementId := a.oldId, b.elementId := b.oldId];
    var half := FinalIds(ids, [a, b][..1]);
    assert [a, b][..1] == [a] && [a][..0] == [];
    assert FinalIds(ids, [a]) == FinalIds(ids, [a][..0])[a.elementId := a.newId];
    assert half == ids[a.elementId := a.newId];
    assert half[a.elementId] == half[b.elementId];
  }

  const TEMPORARY_PREFIX := "MIGRATING-"

  /** The stored ids are those the plan read. */
  ghost predicate Stores(ids: Keys, locations: seq<Location>) {
    && (forall e :: e in ids <==> exists i :: 0 <= i < |locations| && locations[i].elementId == e)
    && (forall i :: 0 <= i < |locations| ==>
          locations[i].elementId in ids && ids[locations[i].elementId] == locations[i].rawId)
  }

  /** A plan with distinct new ids is ready to execute, unless an id in use has the temporary form. */
  lemma PlanIsReady(d: Digests, locations: seq<Location>, rows: seq<Row>, ids: Keys)
    requires SoundDigests(d, locations) && IsPlan(d, locations, rows) && DistinctNewIds(rows)
    requires Stores(ids, locations) && Unique(ids)
    requires forall i :: 0 <= i < |locations| ==> !(TEMPORARY_PREFIX <= locations[i].rawId)
    requires forall i :: 0 <= i < |rows| ==> Trimmed(rows[i].newId) && !(TEMPORARY_PREFIX <= rows[i].newId)
    ensures Ready(ids, rows)
  {
    var bare: seq<Row> :| RowsOf(d, locations, bare)
      && forall i :: 0 <= i < |rows| ==> rows[i] == bare[i].(referenceAliases := ReferenceAliases(bare, bare[i]));
    forall i | 0 <= i < |rows|
      ensures rows[i].elementId == locations[i].elementId
      ensures rows[i].temporaryId == TEMPORARY_PREFIX + d.temporary(locations[i].elementId)
      ensures rows[i].oldId == Strip(locations[i].rawId) && rows[i].changed == (rows[i].oldId != rows[i].newId)
    {
      assert RowOf(d, locations[i], ChosenId(d, locations, i), bare[i]);
    }
    forall i, j | 0 <= i < j < |rows| ensures rows[i].temporaryId != rows[j].temporaryId {
      var s, t := d.temporary(locations[i].elementId), d.temporary(locations[j].elementId);
      assert (TEMPORARY_PREFIX + s)[|TEMPORARY_PREFIX|..] == s && (TEMPORARY_PREFIX + t)[|TEMPORARY_PREFIX|..] == t;
    }
    forall i | 0 <= i < |rows| ensures RowReady(ids, rows, i) {
      assert TEMPORARY_PREFIX <= rows[i].temporaryId;
    }
    forall e ensures e in ids <==> exists i :: 0 <= i < |rows| && rows[i].elementId == e {
      if i :| 0 <= i < |locations| && locations[i].elementId == e { assert rows[i].elementId == e; }
      if i :| 0 <= i < |rows| && rows[i].elementId == e { assert locations[i].elementId == e; }
    }
  }

  // ------------------------------------------------------------------ the transaction

  function RewrittenAll(rows: seq<Row>, references: Keys): Keys {
    map node | node in references :: Rewritten(rows, references[node])
  }

  class LocationGraph {
    var ids: Keys
    var origins: Keys
    var destinations: Keys

    constructor (ids: Keys, origins: Keys, destinations: Keys)
      ensures this.ids == ids && this.origins == origins && this.destinations == destinations
    {
      this.ids, this.origins, this.destinations := ids, origins, destinations;
    }

    /** Temporary ids, final ids, then both kinds of references; unique ids all the way. */
    method Execute(rows: seq<Row>)
      requires Ready(ids, rows)
      modifies this
      ensures ids == FinalIds(TemporaryIds(old(ids), rows), rows) && Unique(ids)
      ensures forall i :: 0 <= i < |rows| ==> rows[i].elementId in ids && ids[rows[i].elementId] == rows[i].newId
      ensures origins == RewrittenAll(rows, old(origins))
      ensures destinations == RewrittenAll(rows, old(destinations))
    {
      SetTemporaryIds(rows);
      SetFinalIds(rows, old(ids));
      forall i | 0 <= i < |rows| ensures rows[i].elementId in ids && ids[rows[i].elementId] == rows[i].newId {
        EveryLocationArrives(old(ids), rows, i);
      }
      origins := RewriteReferences(rows, origins);
      destinations := RewriteReferences(rows, destinations);
    }

    method SetTemporaryIds(rows: seq<Row>)
      requires Ready(ids, rows)
      modifies this`ids
      ensures ids == TemporaryIds(old(ids), rows)
      ensures forall m :: 0 <= m <= |rows| ==> Unique(TemporaryIds(old(ids), rows[..m]))
      ensures Unique(ids)
    {
      for k := 0 to |rows|
        invariant ids == TemporaryIds(old(ids), rows[..k])
        invariant forall m :: 0 <= m <= k ==> Unique(TemporaryIds(old(ids), rows[..m]))
      {
        assert rows[..k + 1][..k] == rows[..k];
        EveryAssignmentKeepsUnique(old(ids), rows, k + 1);
        if rows[k].changed {
          ids := ids[rows[k].elementId := rows[k].temporaryId];
        }
      }
      assert rows[..|rows|] == rows;
    }

    method SetFinalIds(rows: seq<Row>, ghost start: Keys)
      requires Ready(start, rows) && ids == TemporaryIds(start, rows) && Unique(ids)
      modifies this`ids
      ensures ids == FinalIds(TemporaryIds(start, rows), rows)
      ensures forall m :: 0 <= m <= |rows| ==> Unique(FinalIds(TemporaryIds(start, rows), rows[..m]))
      ensures Unique(ids)
    {
      for k := 0 to |rows|
        invariant ids == FinalIds(TemporaryIds(start, rows), rows[..k])
        invariant forall m :: 0 <= m <= k ==> Unique(FinalIds(TemporaryIds(start, rows), rows[..m]))
      {
        assert rows[..k + 1][..k] == rows[..k];
        EveryAssignmentKeepsUnique(start, rows, k + 1);
        ids := ids[rows[k].elementId := rows[k].newId];
      }
      assert rows[..|rows|] == rows;
    }
  }

  /** One statement: every match is found on the values before the statement, then the rows are applied in turn. */
  method RewriteReferences(rows: seq<Row>, before: Keys) returns (references: Keys)
    ensures references == RewrittenAll(rows, before)
  {
    references := before;
    for k := 0 to |rows|
      invariant references == RewrittenAll(rows[..k], before)
    {
      assert rows[..k + 1][..k] == rows[..k];
      references := map node | node in references ::
        if Rewrites(rows[k], before[node]) then rows[k].newId else references[node];
    }
    assert rows[..|rows|] == rows;
  }
}
