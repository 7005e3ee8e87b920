/** First come, first served ids with a digest suffix for late claimants, as both migrations assign them. */
module IdAssignment {
  /** A node asks for `preferred`; if that is taken it gets `suffixed`. */
  datatype Claim = Claim(owner: string, preferred: string, suffixed: string)

  /** Ids by owner. */
  type Ids = map<string, string>

  ghost predicate Taken(ids: Ids, id: string) {
    exists owner :: owner in ids && ids[owner] == id
  }

  ghost function Choice(ids: Ids, c: Claim): string {
    if Taken(ids, c.preferred) then c.suffixed else c.preferred
  }

  ghost function Assign(claims: seq<Claim>): Ids {
    if claims == [] then map[]
    else
      var n := |claims| - 1;
      var ids := Assign(claims[..n]);
      ids[claims[n].owner := Choice(ids, claims[n])]
  }

  ghost predicate DistinctOwners(claims: seq<Claim>) {
    forall i, j :: 0 <= i < j < |claims| ==> claims[i].owner != claims[j].owner
  }

  ghost predicate SameId(ids: Ids, a: string, b: string) {
    a in ids && b in ids && ids[a] == ids[b]
  }

  ghost predicate DistinctIds(ids: Ids) {
    forall a, b :: SameId(ids, a, b) ==> a == b
  }

  /** The claim finds its preferred id taken. */
  ghost predicate Collides(claims: seq<Claim>, j: nat)
    requires j < |claims|
  {
    Taken(Assign(claims[..j]), claims[j].preferred)
  }

  lemma {:induction false} AssignedOwners(claims: seq<Claim>)
    ensures forall owner :: owner in Assign(claims) <==> exists i :: 0 <= i < |claims| && claims[i].owner == owner
  {
    if claims != [] {
      var n := |claims| - 1;
      AssignedOwners(claims[..n]);
      forall owner ensures owner in Assign(claims) <==> exists i :: 0 <= i < |claims| && claims[i].owner == owner {
        if owner in Assign(claims[..n]) {
          var i :| 0 <= i < n && claims[..n][i].owner == owner;
          assert claims[i].owner == owner;
        }
        if i :| 0 <= i < n && claims[i].owner == owner {
          assert claims[..n][i].owner == owner;
        }
      }
    }
  }

  /** An id, once assigned, is kept: it is what the claim chose among the claims before it. */
  lemma {:induction false} AssignedId(claims: seq<Claim>, j: nat)
    requires DistinctOwners(claims) && j < |claims|
    ensures claims[j].owner in Assign(claims)
    ensures Assign(claims)[claims[j].owner] == Choice(Assign(claims[..j]), claims[j])
  {
    var n := |claims| - 1;
    if j < n {
      AssignedId(claims[..n], j);
      assert claims[..n][..j] == claims[..j];
      assert claims[j].owner != claims[n].owner;
    }
  }

  /** Suffixed ids differ from one another: their digests do. */
  ghost predicate DistinctSuffixes(claims: seq<Claim>) {
    forall i, j :: 0 <= i < j < |claims| ==> claims[i].suffixed != claims[j].suffixed
  }

  /** Read off the claims alone: an earlier claim prefers the same id, or was crowded out and suffixed to it. */
  ghost predicate Crowded(claims: seq<Claim>, j: nat)
    requires j < |claims|
    decreases j
  {
    exists h :: 0 <= h < j && CrowdsOut(claims[h], claims[j], Crowded(claims, h))
  }

  predicate CrowdsOut(earlier: Claim, later: Claim, crowded: bool) {
    earlier.preferred == later.preferred || (crowded && earlier.suffixed == later.preferred)
  }

  /** A crowded claim is given the very id an earlier claim preferred. */
  ghost predicate Clash(claims: seq<Claim>, i: nat, j: nat) {
    i < j < |claims| && Crowded(claims, j) && claims[i].preferred == claims[j].suffixed
  }

  lemma {:induction false} IdPersists(claims: seq<Claim>, i: nat, owner: string)
    requires DistinctOwners(claims) && i <= |claims| && owner in Assign(claims[..i])
    ensures owner in Assign(claims) && Assign(claims)[owner] == Assign(claims[..i])[owner]
  {
    var n := |claims| - 1;
    if i <= n {
      assert claims[..n][..i] == claims[..i];
      IdPersists(claims[..n], i, owner);
      AssignedOwners(claims[..n]);
    } else {
      assert claims[..i] == claims;
    }
  }

  /** What an earlier claim preferred is taken, by it or by someone before it. */
  lemma ClaimantTakes(claims: seq<Claim>, i: nat, j: nat)
    requires DistinctOwners(claims) && i < j <= |claims|
    ensures Taken(Assign(claims[..j]), claims[i].preferred)
  {
    assert claims[..j][..i] == claims[..i];
    AssignedId(claims[..j], i);
    if Collides(claims, i) {
      var owner :| owner in Assign(claims[..i]) && Assign(claims[..i])[owner] == claims[i].preferred;
      IdPersists(claims[..j], i, owner);
    }
  }

  lemma EarlierId(claims: seq<Claim>, h: nat, j: nat)
    requires DistinctOwners(claims) && h < j <= |claims|
    ensures claims[h].owner in Assign(claims[..j])
    ensures Assign(claims[..j])[claims[h].owner]
      == if Collides(claims, h) then claims[h].suffixed else claims[h].preferred
  {
    assert claims[..j][..h] == claims[..h];
    AssignedId(claims[..j], h);
  }

  /** Whether a claim collides can be told from the claims. */
  lemma {:induction false} CollidesIffCrowded(claims: seq<Claim>, j: nat)
    requires DistinctOwners(claims) && j < |claims|
    ensures Collides(claims, j) <==> Crowded(claims, j)
    decreases j
  {
    if Collides(claims, j) {
      var owner :| owner in Assign(claims[..j]) && Assign(claims[..j])[owner] == claims[j].preferred;
      var h := ClaimOf(claims[..j], owner);
      EarlierId(claims, h, j);
      CollidesIffCrowded(claims, h);
      assert CrowdsOut(claims[h], claims[j], Crowded(claims, h));
    }
    if Crowded(claims, j) {
      var h :| 0 <= h < j && CrowdsOut(claims[h], claims[j], Crowded(claims, h));
      EarlierId(claims, h, j);
      CollidesIffCrowded(claims, h);
      if claims[h].preferred == claims[j].preferred { ClaimantTakes(claims, h, j); }
    }
  }

  lemma ClashDuplicates(claims: seq<Claim>, i: nat, j: nat)
    requires DistinctOwners(claims) && Clash(claims, i, j)
    ensures !DistinctIds(Assign(claims))
  {
    ClaimantTakes(claims, i, j);
    CollidesIffCrowded(claims, j);
    AssignedId(claims, j);
    var owner :| owner in Assign(claims[..j]) && Assign(claims[..j])[owner] == claims[i].preferred;
    IdPersists(claims, j, owner);
    var h := ClaimOf(claims[..j], owner);
    assert SameId(Assign(claims), owner, claims[j].owner);
  }

  lemma DuplicateClashes(claims: seq<Claim>, i: nat, j: nat)
    requires DistinctOwners(claims) && DistinctSuffixes(claims) && i < j < |claims|
    requires SameId(Assign(claims), claims[i].owner, claims[j].owner)
    ensures Clash(claims, i, j)
  {
    AssignedId(claims, i);
    AssignedId(claims, j);
    AssignedId(claims[..j], i);
    CollidesIffCrowded(claims, j);
    assert claims[..j][..i] == claims[..i] && claims[..j][i] == claims[i];
    assert Assign(claims[..j])[claims[i].owner] == Assign(claims)[claims[i].owner];
  }

  /**
   * With distinct digests the ids are pairwise distinct exactly when no crowded claim is handed an id
   * that an earlier claim preferred: the suffixed form is not checked against the ids in use. The
   * condition speaks of the claims only.
   */
  lemma DistinctIff(claims: seq<Claim>)
    requires DistinctOwners(claims) && DistinctSuffixes(claims)
    ensures DistinctIds(Assign(claims)) <==> forall i, j :: !Clash(claims, i, j)
  {
    if i, j :| Clash(claims, i, j) {
      ClashDuplicates(claims, i, j);
    }
    if forall i, j :: !Clash(claims, i, j) {
      forall a, b | SameId(Assign(claims), a, b) ensures a == b {
        if a != b { SharedIdClashes(claims, a, b); }
      }
    }
  }

  lemma SharedIdClashes(claims: seq<Claim>, a: string, b: string)
    requires DistinctOwners(claims) && DistinctSuffixes(claims)
    requires SameId(Assign(claims), a, b) && a != b
    ensures exists i, j :: Clash(claims, i, j)
  {
    var i := ClaimOf(claims, a);
    var j := ClaimOf(claims, b);
    if i < j { DuplicateClashes(claims, i, j); } else { DuplicateClashes(claims, j, i); }
  }

  lemma ClaimOf(claims: seq<Claim>, owner: string) returns (i: nat)
    requires owner in Assign(claims)
    ensures i < |claims| && claims[i].owner == owner
  {
    AssignedOwners(claims);
    i :| 0 <= i < |claims| && claims[i].owner == owner;
  }

  /** No preferred id has the suffixed form of any claim. */
  ghost predicate FreshSuffixes(claims: seq<Claim>) {
    && DistinctSuffixes(claims)
    && forall i, j :: 0 <= i < |claims| && 0 <= j < |claims| ==> claims[i].preferred != claims[j].suffixed
  }

  /** Under fresh suffixes all ids are distinct, and whoever asks first for an id has it. */
  lemma FreshSuffixesSuffice(claims: seq<Claim>)
    requires DistinctOwners(claims) && FreshSuffixes(claims)
    ensures DistinctIds(Assign(claims))
    ensures forall j :: 0 <= j < |claims| ==>
      (Collides(claims, j) <==> exists i :: 0 <= i < j && claims[i].preferred == claims[j].preferred)
  {
    DistinctIff(claims);
    forall j | 0 <= j < |claims|
      ensures Collides(claims, j) <==> exists i :: 0 <= i < j && claims[i].preferred == claims[j].preferred
    {
      FirstClaimantHasIt(claims, j);
    }
  }

  lemma FirstClaimantHasIt(claims: seq<Claim>, j: nat)
    requires DistinctOwners(claims) && FreshSuffixes(claims) && j < |claims|
    ensures Collides(claims, j) <==> exists i :: 0 <= i < j && claims[i].preferred == claims[j].preferred
  {
    if Collides(claims, j) {
      var i := TakenByClaimant(claims, j);
    }
    if i :| 0 <= i < j && claims[i].preferred == claims[j].preferred {
      ClaimantTakes(claims, i, j);
    }
  }

  lemma TakenByClaimant(claims: seq<Claim>, j: nat) returns (i: nat)
    requires DistinctOwners(claims) && FreshSuffixes(claims) && j < |claims| && Collides(claims, j)
    ensures i < j && claims[i].preferred == claims[j].preferred
  {
    var ids := Assign(claims[..j]);
    var owner :| owner in ids && ids[owner] == claims[j].preferred;
    i := ClaimOf(claims[..j], owner);
    AssignedId(claims[..j], i);
  }

  /** The table of ids in use and their owners. */
  ghost predicate UsedTable(ids: Ids, used: map<string, string>) {
    && (forall id :: id in used <==> Taken(ids, id))
    && (forall id :: id in used ==> used[id] in ids && ids[used[id]] == id)
  }

  lemma UsedTableGrows(ids: Ids, used: map<string, string>, owner: string, id: string)
    requires UsedTable(ids, used) && owner !in ids
    ensures UsedTable(ids[owner := id], used[id := owner])
  {
    var next := ids[owner := id];
    forall x ensures x in used[id := owner] <==> Taken(next, x) {
      if x in used {
        assert next[used[x]] == x;
      }
      if Taken(next, x) && x != id {
        var o :| o in next && next[o] == x;
        assert o in ids && ids[o] == x;
      }
      assert next[owner] == id;
    }
  }

  /** A claim among others: its owner is new at its turn, and what it chooses then is final. */
  lemma AssignedAtTurn(claims: seq<Claim>, before: seq<Claim>, c: Claim)
    requires DistinctOwners(claims) && before + [c] <= claims
    ensures c.owner !in Assign(before)
    ensures Assign(before + [c]) == Assign(before)[c.owner := Choice(Assign(before), c)]
    ensures c.owner in Assign(claims) && Assign(claims)[c.owner] == Choice(Assign(before), c)
  {
    var k := |before|;
    assert claims[k] == c && claims[..k] == before && (before + [c])[..k] == before;
    AssignedId(claims, k);
    AssignedOwners(before);
    assert forall h :: 0 <= h < k ==> before[h] == claims[h];
  }

  /** What both migrations do with their table for one claimant. */
  method Choose(c: Claim, table: map<string, string>, ghost ids: Ids) returns (id: string, used: map<string, string>)
    requires UsedTable(ids, table) && c.owner !in ids
    ensures id == Choice(ids, c)
    ensures UsedTable(ids[c.owner := id], used)
  {
    id := c.preferred;
    if id in table && table[id] != c.owner {
      id := c.suffixed;
    }
    UsedTableGrows(ids, table, c.owner, id);
    used := table[id := c.owner];
  }

  /** Pairwise distinct wishes are all granted. */
  lemma {:induction false} DistinctWishesAreGranted(claims: seq<Claim>, i: nat)
    requires DistinctOwners(claims) && i < |claims|
    requires forall a, b :: 0 <= a < b < |claims| ==> claims[a].preferred != claims[b].preferred
    ensures claims[i].owner in Assign(claims) && Assign(claims)[claims[i].owner] == claims[i].preferred
    decreases i
  {
    AssignedId(claims, i);
    if Taken(Assign(claims[..i]), claims[i].preferred) {
      var owner :| owner in Assign(claims[..i]) && Assign(claims[..i])[owner] == claims[i].preferred;
      var h := ClaimOf(claims[..i], owner);
      DistinctWishesAreGranted(claims, h);
      IdPersists(claims, i, owner);
    }
  }

  /** So pairwise distinct wishes make the ids distinct, whatever the suffixed forms. */
  lemma DistinctWishesDistinctIds(claims: seq<Claim>)
    requires DistinctOwners(claims)
    requires forall a, b :: 0 <= a < b < |claims| ==> claims[a].preferred != claims[b].preferred
    ensures DistinctIds(Assign(claims))
  {
    forall a, b | SameId(Assign(claims), a, b) ensures a == b {
      var i := ClaimOf(claims, a);
      var j := ClaimOf(claims, b);
      GrantedIdsDiffer(claims, i, j);
    }
  }

  lemma GrantedIdsDiffer(claims: seq<Claim>, i: nat, j: nat)
    requires DistinctOwners(claims) && i < |claims| && j < |claims|
    requires forall a, b :: 0 <= a < b < |claims| ==> claims[a].preferred != claims[b].preferred
    requires SameId(Assign(claims), claims[i].owner, claims[j].owner)
    ensures i == j
  {
    DistinctWishesAreGranted(claims, i);
    DistinctWishesAreGranted(claims, j);
  }

  // ------------------------------------------------------------------ counting the ids in use

  function IdsInUse(ids: Ids): set<string> { set owner | owner in ids :: ids[owner] }

  lemma {:induction false} AssignedCount(claims: seq<Claim>)
    requires DistinctOwners(claims)
    ensures |Assign(claims)| == |claims|
  {
    if claims != [] {
      var n := |claims| - 1;
      AssignedCount(claims[..n]);
      AssignedOwners(claims[..n]);
      assert claims[n].owner !in Assign(claims[..n]) by {
        assert forall i :: 0 <= i < n ==> claims[..n][i].owner == claims[i].owner != claims[n].owner;
      }
    }
  }

  /** There are as many ids in use as owners exactly when no two owners share one. */
  lemma {:induction false} InUseCountIff(ids: Ids)
    ensures |IdsInUse(ids)| <= |ids|
    ensures |IdsInUse(ids)| == |ids| <==> DistinctIds(ids)
    decreases |ids|
  {
    if ids != map[] {
      var owner :| owner in ids;
      var rest := ids - {owner};
      assert ids == rest[owner := ids[owner]] && |rest| == |ids| - 1;
      InUseCountIff(rest);
      assert IdsInUse(ids) == IdsInUse(rest) + {ids[owner]};
      if ids[owner] in IdsInUse(rest) {
        var other :| other in rest && rest[other] == ids[owner];
        assert SameId(ids, owner, other);
      } else {
        FreshIdKeepsDistinct(rest, owner, ids[owner]);
      }
    }
  }

  lemma FreshIdKeepsDistinct(rest: Ids, owner: string, id: string)
    requires owner !in rest && id !in IdsInUse(rest)
    ensures DistinctIds(rest[owner := id]) <==> DistinctIds(rest)
  {
    var ids := rest[owner := id];
    forall a, b | SameId(ids, a, b) ensures SameId(rest, a, b) || a == b {
      assert a in rest ==> rest[a] in IdsInUse(rest);
      assert b in rest ==> rest[b] in IdsInUse(rest);
    }
    forall a, b | SameId(rest, a, b) ensures SameId(ids, a, b) {}
  }

  /** The table of ids in use has an entry for every claim exactly when the ids are distinct. */
  lemma UsedCountIff(claims: seq<Claim>, used: map<string, string>)
    requires DistinctOwners(claims) && UsedTable(Assign(claims), used)
    ensures |used| <= |claims|
    ensures |used| == |claims| <==> DistinctIds(Assign(claims))
  {
    AssignedCount(claims);
    InUseCountIff(Assign(claims));
    assert used.Keys == IdsInUse(Assign(claims));
  }
}
