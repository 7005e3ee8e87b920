/** The latest-state store (ais/repository.py, upsert_latest_observations) and what flushing does to it. */
module LatestStore {
  import opened Basics
  import opened AisObservations

  /** The fields of a stored node that follow the coalescing and position rules. */
  datatype Latest = Latest(statics: Statics, position: Position)

  const NO_POSITION := Position(None, None, None, None, None, None, None, None)
  const NO_STATICS := Statics(None, None, None, None, None, None)
  const NOTHING := Latest(NO_STATICS, NO_POSITION)

  /** What an observation means to the store: an untimed position is no position. */
  function Project(o: Observation): Latest {
    Latest(o.statics, if o.position.observedAt.Some? then o.position else NO_POSITION)
  }

  function Combine(current: Latest, incoming: Latest): Latest {
    Latest(MergeStatics(current.statics, incoming.statics), MergePosition(current.position, incoming.position))
  }

  lemma CombineIsAssociative(a: Latest, b: Latest, c: Latest)
    ensures Combine(Combine(a, b), c) == Combine(a, Combine(b, c))
  {
    MergePositionIsAssociative(a.position, b.position, c.position);
  }

  lemma CombineIsIdempotent(a: Latest)
    ensures Combine(a, a) == a && Combine(a, NOTHING) == a
  {
  }

  /** Merging observations and combining what they mean is the same. */
  lemma ProjectionOfMerge(a: Observation, b: Observation)
    ensures Project(MergeInto(a, b)) == Combine(Project(a), Project(b))
  {
  }

  /** The stored state after combining a whole list of observations, oldest first. */
  function CombineAll(base: Latest, observations: seq<Observation>): Latest {
    if observations == [] then base
    else
      var n := |observations| - 1;
      Combine(CombineAll(base, observations[..n]), Project(observations[n]))
  }

  lemma {:induction false} CombineAllAppend(base: Latest, xs: seq<Observation>, ys: seq<Observation>)
    ensures CombineAll(base, xs + ys) == CombineAll(CombineAll(base, xs), ys)
  {
    if ys == [] {
      assert xs + ys == xs;
    } else {
      var n := |ys| - 1;
      assert (xs + ys)[..|xs| + n] == xs + ys[..n];
      CombineAllAppend(base, xs, ys[..n]);
    }
  }

  /** The stored position is the last of the latest position time, the stored one counting as the oldest. */
  ghost predicate PositionIsLatest(base: Position, observations: seq<Observation>, position: Position) {
    var all := [base] + Positions(observations);
    if Untimed(Positions(observations)) then position == base
    else exists k :: 0 <= k < |all| && IsLatest(all, k) && all[k] == position
  }

  /** Field by field: the last static value carried, and the latest position. */
  ghost predicate HoldsLast(base: Latest, observations: seq<Observation>, stored: Latest) {
    && StaticsAreLast(observations, base.statics, stored.statics)
    && PositionIsLatest(base.position, observations, stored.position)
  }

  lemma PositionSnoc(base: Position, observations: seq<Observation>, o: Observation, position: Position)
    requires PositionIsLatest(base, observations, position)
    ensures PositionIsLatest(base, observations + [o], MergePosition(position, Project(o).position))
  {
    var (before, all) := ([base] + Positions(observations), [base] + Positions(observations + [o]));
    assert all == before + [o.position];
    assert Positions(observations + [o]) == Positions(observations) + [o.position];
    if Untimed(Positions(observations)) {
      if o.position.observedAt.Some? {
        assert IsLatest(all, if Supersedes(o.position, base) then |observations| + 1 else 0);
      }
    } else {
      var k :| 0 <= k < |before| && IsLatest(before, k) && before[k] == position;
      LatestAfterSnoc(before, k, o.position);
    }
  }

  lemma {:induction false} CombineAllHoldsLast(base: Latest, observations: seq<Observation>)
    ensures HoldsLast(base, observations, CombineAll(base, observations))
  {
    if observations != [] {
      var earlier, last := observations[..|observations| - 1], observations[|observations| - 1];
      assert observations == earlier + [last];
      CombineAllHoldsLast(base, earlier);
      StaticsAreLastSnoc(earlier, last, base.statics, CombineAll(base, earlier).statics);
      PositionSnoc(base.position, earlier, last, CombineAll(base, earlier).position);
    }
  }

  /** Combining one by one is combining the merge of all. */
  lemma {:induction false} CombineFold(base: Latest, observations: seq<Observation>)
    requires observations != []
    ensures CombineAll(base, observations) == Combine(base, Project(Fold(observations)))
  {
    var n := |observations| - 1;
    if n > 0 {
      var earlier, last := observations[..n], observations[n];
      CombineFold(base, earlier);
      ProjectionOfMerge(Fold(earlier), last);
      CombineIsAssociative(base, Project(Fold(earlier)), Project(last));
    } else {
      assert observations[..n] == [];
    }
  }

  /** Writing a merged batch whose beginning is already stored gives the fold of everything. */
  lemma OverlapIsAbsorbed(base: Latest, observations: seq<Observation>, flushed: nat, stored: nat)
    requires flushed <= stored <= |observations| && flushed < |observations|
    ensures Combine(CombineAll(base, observations[..stored]), Project(Fold(observations[flushed..])))
         == CombineAll(base, observations)
  {
    var x, y, z := observations[..flushed], observations[flushed..stored], observations[stored..];
    assert observations[..stored] == x + y && observations[flushed..] == y + z && observations == (x + y) + z;
    CombineFold(CombineAll(base, x + y), y + z);
    CombineAllAppend(base, x, y);
    CombineAllAppend(CombineAll(base, x + y), y, z);
    CombineAllAppend(base, x + y, z);
    if y != [] {
      var s, p := CombineAll(base, x), Project(Fold(y));
      CombineFold(s, y);
      CombineFold(Combine(s, p), y);
      CombineIsAssociative(s, p, p);
      CombineIsIdempotent(p);
    }
  }

  // ------------------------------------------------------------------ one vessel over a whole run

  /** How one flush ends: written, failed before the upsert took effect, or failed after it did. */
  datatype Outcome = Written | UpsertFailed | FailedAfterUpsert

  datatype Event = Accept(observation: Observation) | Flush(outcome: Outcome)

  datatype Vessel = Vessel(stored: Latest, pending: Option<Observation>)

  function Step(v: Vessel, e: Event): Vessel {
    match e
    case Accept(o) => v.(pending := Some(Merge(v.pending, o)))
    case Flush(outcome) =>
      if v.pending == None || outcome == UpsertFailed then v
      else Vessel(Combine(v.stored, Project(v.pending.value)), if outcome == Written then None else v.pending)
  }

  function Run(v: Vessel, events: seq<Event>): Vessel {
    if events == [] then v
    else Step(Run(v, events[..|events| - 1]), events[|events| - 1])
  }

  function Accepted(events: seq<Event>): seq<Observation> {
    if events == [] then []
    else
      var n := |events| - 1;
      if events[n].Accept? then Accepted(events[..n]) + [events[n].observation] else Accepted(events[..n])
  }

  /** How many accepted observations the last completed flush covered. */
  function FlushedCount(events: seq<Event>): (count: nat)
    ensures count <= StoredCount(events) <= |Accepted(events)|
  {
    if events == [] then 0
    else
      var n := |events| - 1;
      var rest := FlushedCount(events[..n]);
      if events[n] == Flush(Written) then |Accepted(events)| else rest
  }

  /** How many accepted observations the last upsert that took effect covered. */
  function StoredCount(events: seq<Event>): (count: nat)
    ensures count <= |Accepted(events)|
  {
    if events == [] then 0
    else
      var n := |events| - 1;
      if events[n].Flush? && events[n].outcome != UpsertFailed then |Accepted(events)| else StoredCount(events[..n])
  }

  /**
   * After any interleaving of messages and flushes, failing or not, the store is the fold of the
   * accepted observations that reached it, and the buffer is the merge of those not yet flushed.
   */
  lemma {:induction false} RunIsFold(base: Latest, events: seq<Event>)
    ensures Stands(base, Run(Vessel(base, None), events), Accepted(events), FlushedCount(events), StoredCount(events))
  {
    if events != [] {
      var n := |events| - 1;
      var earlier, last := events[..n], events[n];
      var accepted, flushed, stored := Accepted(earlier), FlushedCount(earlier), StoredCount(earlier);
      RunIsFold(base, earlier);
      var v := Run(Vessel(base, None), earlier);
      match last
      case Accept(o) => AcceptStands(base, v, accepted, flushed, stored, o);
      case Flush(outcome) => FlushStands(base, v, accepted, flushed, stored, outcome);
    }
  }

  /** What a vessel stands for: observations up to `stored` reached the store, those from `flushed` are pending. */
  ghost predicate Stands(base: Latest, v: Vessel, accepted: seq<Observation>, flushed: nat, stored: nat) {
    && flushed <= stored <= |accepted|
    && v.stored == CombineAll(base, accepted[..stored])
    && v.pending == if flushed == |accepted| then None else Some(Fold(accepted[flushed..]))
  }

  lemma AcceptStands(base: Latest, v: Vessel, accepted: seq<Observation>, flushed: nat, stored: nat, o: Observation)
    requires Stands(base, v, accepted, flushed, stored)
    ensures Stands(base, Step(v, Accept(o)), accepted + [o], flushed, stored)
  {
    assert (accepted + [o])[..stored] == accepted[..stored];
    assert (accepted + [o])[flushed..] == accepted[flushed..] + [o];
    if flushed < |accepted| { FoldAppend(accepted[flushed..], [o]); }
  }

  lemma FlushStands(base: Latest, v: Vessel, accepted: seq<Observation>, flushed: nat, stored: nat, outcome: Outcome)
    requires Stands(base, v, accepted, flushed, stored)
    ensures var after := Step(v, Flush(outcome));
      && (outcome == Written ==> Stands(base, after, accepted, |accepted|, |accepted|))
      && (outcome == UpsertFailed ==> Stands(base, after, accepted, flushed, stored))
      && (outcome == FailedAfterUpsert ==> Stands(base, after, accepted, flushed, |accepted|))
  {
    assert accepted[..|accepted|] == accepted;
    if outcome != UpsertFailed && flushed < |accepted| {
      OverlapIsAbsorbed(base, accepted, flushed, stored);
    }
  }

  /** After every run the store holds, field by field, the last of what reached it. */
  lemma RunHoldsLast(base: Latest, events: seq<Event>)
    ensures HoldsLast(base, Accepted(events)[..StoredCount(events)], Run(Vessel(base, None), events).stored)
  {
    RunIsFold(base, events);
    CombineAllHoldsLast(base, Accepted(events)[..StoredCount(events)]);
  }

  /** Stored and pending state together always stand for the fold of everything accepted. */
  lemma NothingAcceptedIsLost(base: Latest, events: seq<Event>)
    ensures var v := Run(Vessel(base, None), events);
      (if v.pending.Some? then Combine(v.stored, Project(v.pending.value)) else v.stored)
        == CombineAll(base, Accepted(events))
  {
    RunIsFold(base, events);
    var accepted := Accepted(events);
    assert accepted[..|accepted|] == accepted;
    if FlushedCount(events) < |accepted| {
      OverlapIsAbsorbed(base, accepted, FlushedCount(events), StoredCount(events));
    }
  }

  /** Neither the flush schedule nor replayed batches matter: the last completed flush levels all runs. */
  lemma FlushScheduleDoesNotMatter(base: Latest, events: seq<Event>, others: seq<Event>)
    requires Accepted(events) == Accepted(others)
    ensures Run(Vessel(base, None), events + [Flush(Written)]) == Run(Vessel(base, None), others + [Flush(Written)])
         == Vessel(CombineAll(base, Accepted(events)), None)
  {
    forall es | es == events || es == others
      ensures Run(Vessel(base, None), es + [Flush(Written)]) == Vessel(CombineAll(base, Accepted(events)), None)
    {
      var closed := es + [Flush(Written)];
      assert closed[..|es|] == es;
      RunIsFold(base, closed);
      assert Accepted(closed)[..|Accepted(closed)|] == Accepted(events);
    }
  }

  // ------------------------------------------------------------------ the upsert

  function Lookup(nodes: map<string, Latest>, mmsi: string): Latest {
    if mmsi in nodes then nodes[mmsi] else NOTHING
  }

  function UpsertRow(nodes: map<string, Latest>, row: Observation): map<string, Latest> {
    nodes[row.mmsi := Combine(Lookup(nodes, row.mmsi), Project(row))]
  }

  function UpsertAll(nodes: map<string, Latest>, rows: seq<Observation>): map<string, Latest> {
    if rows == [] then nodes
    else UpsertRow(UpsertAll(nodes, rows[..|rows| - 1]), rows[|rows| - 1])
  }

  ghost predicate DistinctVessels(rows: seq<Observation>) {
    forall i, j :: 0 <= i < j < |rows| ==> rows[i].mmsi != rows[j].mmsi
  }

  /** With one row per vessel, every vessel changes by its own row and no other. */
  lemma {:induction false} UpsertAllByVessel(nodes: map<string, Latest>, rows: seq<Observation>, mmsi: string)
    requires DistinctVessels(rows)
    ensures (forall i :: 0 <= i < |rows| ==> rows[i].mmsi != mmsi) ==>
      Lookup(UpsertAll(nodes, rows), mmsi) == Lookup(nodes, mmsi)
    ensures forall i :: 0 <= i < |rows| && rows[i].mmsi == mmsi ==>
      Lookup(UpsertAll(nodes, rows), mmsi) == Combine(Lookup(nodes, mmsi), Project(rows[i]))
  {
    if rows != [] {
      UpsertAllByVessel(nodes, rows[..|rows| - 1], mmsi);
    }
  }

  /** Vessel nodes and their latest-observation nodes, both keyed by vessel. */
  class Store {
    var vessels: map<string, Latest>
    var observations: map<string, Latest>

    /** The observation node mirrors its vessel. */
    ghost predicate Valid()
      reads this
    {
      vessels == observations
    }

    constructor (nodes: map<string, Latest>)
      ensures Valid() && vessels == nodes
    {
      vessels, observations := nodes, nodes;
    }

    /**
     * One row at a time: both nodes coalesce their own static fields; the position group of both
     * moves together, when the row's position is no older than the vessel's.
     */
    method Upsert(rows: seq<Observation>)
      requires Valid()
      modifies this
      ensures Valid() && vessels == UpsertAll(old(vessels), rows)
    {
      for k := 0 to |rows|
        invariant Valid() && vessels == UpsertAll(old(vessels), rows[..k])
      {
        var row := rows[k];
        var vessel, observation := Lookup(vessels, row.mmsi), Lookup(observations, row.mmsi);
        var updatePosition := row.position.observedAt.Some? &&
          (vessel.position.observedAt == None || row.position.observedAt.value >= vessel.position.observedAt.value);
        assert rows[..k + 1][..k] == rows[..k];
        vessels := vessels[row.mmsi := Latest(MergeStatics(vessel.statics, row.statics),
                                              if updatePosition then row.position else vessel.position)];
        observations := observations[row.mmsi := Latest(MergeStatics(observation.statics, row.statics),
                                                        if updatePosition then row.position else observation.position)];
      }
      assert rows[..|rows|] == rows;
    }
  }
}
