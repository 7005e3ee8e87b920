/** Normalized AIS observations and their merge (ais/models.py). */
module AisObservations {
  import opened Basics

  /** The fields a merge takes from one observation together. */
  datatype Position = Position(
    latitude: Option<real>,
    longitude: Option<real>,
    speedKnots: Option<real>,
    courseDegrees: Option<real>,
    headingDegrees: Option<int>,
    statusCode: Option<int>,
    status: Option<string>,
    observedAt: Option<int>)

  /** The fields a merge coalesces one by one. */
  datatype Statics = Statics(
    imo: Option<string>,
    vesselName: Option<string>,
    vesselType: Option<int>,
    callSign: Option<string>,
    destination: Option<string>,
    draught: Option<real>)

  datatype Observation = Observation(
    mmsi: string,
    messageType: string,
    observedAt: int,
    receivedAt: int,
    dedupeKey: string,
    statics: Statics,
    position: Position,
    staticObservedAt: Option<int>,
    targetIds: set<string>,
    messageTypes: set<string>)
  {
    predicate HasPosition() {
      position.latitude.Some? && position.longitude.Some? && position.observedAt.Some?
    }

    function WithTargets(ids: set<string>): Observation {
      this.(targetIds := targetIds + ids)
    }

    /** message_types, or the single message type when that is empty. */
    function Types(): set<string> {
      if messageTypes == {} then {messageType} else messageTypes
    }
  }

  function Coalesce<T>(incoming: Option<T>, current: Option<T>): Option<T> {
    if incoming.Some? then incoming else current
  }

  function MergeStatics(current: Statics, incoming: Statics): Statics {
    Statics(
      Coalesce(incoming.imo, current.imo),
      Coalesce(incoming.vesselName, current.vesselName),
      Coalesce(incoming.vesselType, current.vesselType),
      Coalesce(incoming.callSign, current.callSign),
      Coalesce(incoming.destination, current.destination),
      Coalesce(incoming.draught, current.draught))
  }

  /** The incoming position wins when it carries a time no older than the current one. */
  predicate Supersedes(incoming: Position, current: Position) {
    incoming.observedAt.Some? &&
    (current.observedAt == None || incoming.observedAt.value >= current.observedAt.value)
  }

  function MergePosition(current: Position, incoming: Position): Position {
    if Supersedes(incoming, current) then incoming else current
  }

  function LatestTime(a: Option<int>, b: Option<int>): Option<int> {
    match (a, b)
    case (Some(x), Some(y)) => Some(Max(x, y))
    case (Some(x), None) => a
    case (None, _) => b
  }

  function MergeInto(current: Observation, incoming: Observation): Observation {
    var newest := if incoming.observedAt >= current.observedAt then incoming else current;
    Observation(
      current.mmsi,
      newest.messageType,
      Max(current.observedAt, incoming.observedAt),
      Max(current.receivedAt, incoming.receivedAt),
      newest.dedupeKey,
      MergeStatics(current.statics, incoming.statics),
      MergePosition(current.position, incoming.position),
      LatestTime(current.staticObservedAt, incoming.staticObservedAt),
      current.targetIds + incoming.targetIds,
      current.Types() + incoming.Types())
  }

  function Merge(current: Option<Observation>, incoming: Observation): Observation {
    match current
    case None => incoming
    case Some(observation) => MergeInto(observation, incoming)
  }

  // ------------------------------------------------------------------ algebra of the merge

  lemma MergeIsAssociative(a: Observation, b: Observation, c: Observation)
    ensures MergeInto(MergeInto(a, b), c) == MergeInto(a, MergeInto(b, c))
  {
    MergePositionIsAssociative(a.position, b.position, c.position);
    assert (a.targetIds + b.targetIds) + c.targetIds == a.targetIds + (b.targetIds + c.targetIds);
    assert (a.Types() + b.Types()) + c.Types() == a.Types() + (b.Types() + c.Types());
    assert a.Types() != {} && b.Types() != {} && c.Types() != {};
  }

  lemma MergePositionIsAssociative(a: Position, b: Position, c: Position)
    ensures MergePosition(MergePosition(a, b), c) == MergePosition(a, MergePosition(b, c))
  {
  }

  /** Replaying a batch that overlaps what was merged before adds nothing but its new part. */
  lemma MergeAbsorbsReplay(a: Observation, b: Observation, c: Observation)
    ensures MergeInto(MergeInto(a, b), MergeInto(b, c)) == MergeInto(MergeInto(a, b), c)
  {
    assert a.Types() != {} && b.Types() != {} && c.Types() != {};
    assert (a.targetIds + b.targetIds) + (b.targetIds + c.targetIds) == a.targetIds + b.targetIds + c.targetIds;
    assert (a.Types() + b.Types()) + (b.Types() + c.Types()) == a.Types() + b.Types() + c.Types();
  }

  // ------------------------------------------------------------------ position of a fold

  function Fold(observations: seq<Observation>): Observation
    requires observations != []
  {
    var n := |observations| - 1;
    if n == 0 then observations[0] else MergeInto(Fold(observations[..n]), observations[n])
  }

  /** A fold can be cut anywhere. */
  lemma {:induction false} FoldAppend(xs: seq<Observation>, ys: seq<Observation>)
    requires xs != [] && ys != []
    ensures Fold(xs + ys) == MergeInto(Fold(xs), Fold(ys))
  {
    var n := |ys| - 1;
    assert (xs + ys)[..|xs| + n] == xs + ys[..n];
    if n > 0 {
      FoldAppend(xs, ys[..n]);
      MergeIsAssociative(Fold(xs), Fold(ys[..n]), ys[n]);
    } else {
      assert xs + ys[..n] == xs;
    }
  }

  function Positions(observations: seq<Observation>): (positions: seq<Position>)
    ensures |positions| == |observations|
    ensures forall i :: 0 <= i < |observations| ==> positions[i] == observations[i].position
  {
    seq(|observations|, i requires 0 <= i < |observations| => observations[i].position)
  }

  /** `k` carries the greatest position time, and is the last to do so. */
  ghost predicate IsLatest(positions: seq<Position>, k: nat) {
    && k < |positions|
    && positions[k].observedAt.Some?
    && (forall i :: 0 <= i < |positions| && positions[i].observedAt.Some? ==>
          positions[i].observedAt.value <= positions[k].observedAt.value)
    && (forall i :: k < i < |positions| && positions[i].observedAt.Some? ==>
          positions[i].observedAt.value < positions[k].observedAt.value)
  }

  ghost predicate Untimed(positions: seq<Position>) {
    forall i :: 0 <= i < |positions| ==> positions[i].observedAt == None
  }

  lemma LatestAfterSnoc(positions: seq<Position>, k: nat, next: Position)
    requires IsLatest(positions, k)
    ensures IsLatest(positions + [next], if Supersedes(next, positions[k]) then |positions| else k)
    ensures MergePosition(positions[k], next) == if Supersedes(next, positions[k]) then next else positions[k]
  {
  }

  /** A fold ends with the latest position, or with the first one when none carries a time. */
  lemma {:induction false} FoldKeepsLatestPosition(observations: seq<Observation>) returns (k: nat)
    requires observations != []
    ensures k < |observations| && Fold(observations).position == observations[k].position
    ensures if Untimed(Positions(observations)) then k == 0 else IsLatest(Positions(observations), k)
  {
    var n := |observations| - 1;
    k := 0;
    if n > 0 {
      var positions, earlier := Positions(observations), Positions(observations[..n]);
      var last := observations[n].position;
      k := FoldKeepsLatestPosition(observations[..n]);
      assert positions == earlier + [last];
      if Untimed(earlier) {
        if last.observedAt.Some? { k := n; }
      } else {
        LatestAfterSnoc(earlier, k, last);
        if Supersedes(last, earlier[k]) { k := n; }
      }
    }
  }

  // ------------------------------------------------------------------ static fields of a fold

  /** The value of the last observation that carries one, or else the one before all of them. */
  ghost predicate LastCarried<T(!new)>(observations: seq<Observation>, field: Statics -> Option<T>, base: Option<T>,
                                       value: Option<T>)
  {
    if forall i :: 0 <= i < |observations| ==> field(observations[i].statics) == None then value == base
    else exists k :: 0 <= k < |observations| && CarriedLast(observations, field, k)
                     && field(observations[k].statics) == value
  }

  ghost predicate CarriedLast<T>(observations: seq<Observation>, field: Statics -> Option<T>, k: nat)
    requires k < |observations|
  {
    && field(observations[k].statics).Some?
    && forall i :: k < i < |observations| ==> field(observations[i].statics) == None
  }

  function Imo(s: Statics): Option<string> { s.imo }

  function VesselName(s: Statics): Option<string> { s.vesselName }

  function VesselType(s: Statics): Option<int> { s.vesselType }

  function CallSign(s: Statics): Option<string> { s.callSign }

  function Destination(s: Statics): Option<string> { s.destination }

  function Draught(s: Statics): Option<real> { s.draught }

  /** Each of the six fields is the last one carried. */
  ghost predicate StaticsAreLast(observations: seq<Observation>, base: Statics, statics: Statics) {
    && LastCarried(observations, Imo, base.imo, statics.imo)
    && LastCarried(observations, VesselName, base.vesselName, statics.vesselName)
    && LastCarried(observations, VesselType, base.vesselType, statics.vesselType)
    && LastCarried(observations, CallSign, base.callSign, statics.callSign)
    && LastCarried(observations, Destination, base.destination, statics.destination)
    && LastCarried(observations, Draught, base.draught, statics.draught)
  }

  lemma LastCarriedSnoc<T(!new)>(observations: seq<Observation>, o: Observation, field: Statics -> Option<T>,
                                 base: Option<T>, value: Option<T>)
    requires LastCarried(observations, field, base, value)
    ensures LastCarried(observations + [o], field, base,
                        if field(o.statics).Some? then field(o.statics) else value)
  {
    var all := observations + [o];
    if field(o.statics).Some? {
      assert CarriedLast(all, field, |observations|);
    } else if k :| 0 <= k < |observations| && CarriedLast(observations, field, k) {
      assert forall i :: 0 <= i < |observations| ==> all[i] == observations[i];
      assert CarriedLast(all, field, k);
      assert LastCarried(all, field, base, value) by { OneCarriedLast(observations, field, base, value, k); }
    } else {
      NoneCarried(observations, field, base, value);
    }
  }

  lemma OneCarriedLast<T(!new)>(observations: seq<Observation>, field: Statics -> Option<T>, base: Option<T>,
                                value: Option<T>, k: nat)
    requires LastCarried(observations, field, base, value)
    requires k < |observations| && CarriedLast(observations, field, k)
    ensures field(observations[k].statics) == value
  {
    var l :| 0 <= l < |observations| && CarriedLast(observations, field, l) && field(observations[l].statics) == value;
    assert k == l;
  }

  lemma NoneCarried<T(!new)>(observations: seq<Observation>, field: Statics -> Option<T>, base: Option<T>,
                             value: Option<T>)
    requires LastCarried(observations, field, base, value)
    requires forall k :: 0 <= k < |observations| ==> !CarriedLast(observations, field, k)
    ensures value == base && forall i :: 0 <= i < |observations| ==> field(observations[i].statics) == None
  {
  }

  lemma StaticsAreLastSnoc(observations: seq<Observation>, o: Observation, base: Statics, statics: Statics)
    requires StaticsAreLast(observations, base, statics)
    ensures StaticsAreLast(observations + [o], base, MergeStatics(statics, o.statics))
  {
    LastCarriedSnoc(observations, o, Imo, base.imo, statics.imo);
    LastCarriedSnoc(observations, o, VesselName, base.vesselName, statics.vesselName);
    LastCarriedSnoc(observations, o, VesselType, base.vesselType, statics.vesselType);
    LastCarriedSnoc(observations, o, CallSign, base.callSign, statics.callSign);
    LastCarriedSnoc(observations, o, Destination, base.destination, statics.destination);
    LastCarriedSnoc(observations, o, Draught, base.draught, statics.draught);
  }

  lemma OneCarries(o: Observation)
    ensures StaticsAreLast([o], Statics(None, None, None, None, None, None), o.statics)
  {
    var none := Statics(None, None, None, None, None, None);
    assert StaticsAreLast([], none, none);
    StaticsAreLastSnoc([], o, none, none);
    assert MergeStatics(none, o.statics) == o.statics;
    assert [] + [o] == [o];
  }

  lemma FoldSnoc(observations: seq<Observation>, o: Observation)
    requires observations != []
    ensures Fold(observations + [o]) == MergeInto(Fold(observations), o)
  {
    assert (observations + [o])[..|observations|] == observations;
  }

  /** Each static field of a fold is that of the last observation that carries one, if any does. */
  lemma {:induction false} FoldKeepsLastStatics(observations: seq<Observation>)
    requires observations != []
    ensures StaticsAreLast(observations, Statics(None, None, None, None, None, None), Fold(observations).statics)
  {
    var earlier, last := observations[..|observations| - 1], observations[|observations| - 1];
    assert observations == earlier + [last];
    if earlier == [] {
      OneCarries(last);
      assert observations == [last];
    } else {
      FoldKeepsLastStatics(earlier);
      FoldSnoc(earlier, last);
      StaticsAreLastSnoc(earlier, last, Statics(None, None, None, None, None, None), Fold(earlier).statics);
    }
  }

  // ------------------------------------------------------------------ what else a fold keeps

  ghost predicate LatestMessage(observations: seq<Observation>, k: nat)
    requires k < |observations|
  {
    && (forall i :: 0 <= i < |observations| ==> observations[i].observedAt <= observations[k].observedAt)
    && (forall i :: k < i < |observations| ==> observations[i].observedAt < observations[k].observedAt)
  }

  /** Message type and key are those of the last message of the latest time. */
  ghost predicate MessageIsLatest(observations: seq<Observation>, f: Observation) {
    exists k :: 0 <= k < |observations| && LatestMessage(observations, k)
      && f.observedAt == observations[k].observedAt && f.messageType == observations[k].messageType
      && f.dedupeKey == observations[k].dedupeKey
  }

  ghost predicate ReceivedIsLatest(observations: seq<Observation>, f: Observation) {
    && (forall i :: 0 <= i < |observations| ==> observations[i].receivedAt <= f.receivedAt)
    && (exists i :: 0 <= i < |observations| && observations[i].receivedAt == f.receivedAt)
  }

  ghost predicate StaticTimeIsLatest(observations: seq<Observation>, f: Observation) {
    && (forall i :: 0 <= i < |observations| && observations[i].staticObservedAt.Some? ==>
          f.staticObservedAt.Some? && observations[i].staticObservedAt.value <= f.staticObservedAt.value)
    && (exists i :: 0 <= i < |observations| && observations[i].staticObservedAt == f.staticObservedAt)
  }

  /** Targets and message types are those of any of the observations. */
  ghost predicate Collects(observations: seq<Observation>, f: Observation) {
    && (forall id :: id in f.targetIds <==> exists i :: 0 <= i < |observations| && id in observations[i].targetIds)
    && (forall kind :: kind in f.Types() <==> exists i :: 0 <= i < |observations| && kind in observations[i].Types())
  }

  /** What a fold says besides position and static fields. */
  ghost predicate FoldSummarizes(observations: seq<Observation>, f: Observation)
    requires observations != []
  {
    && f.mmsi == observations[0].mmsi
    && MessageIsLatest(observations, f)
    && ReceivedIsLatest(observations, f)
    && StaticTimeIsLatest(observations, f)
    && Collects(observations, f)
  }

  lemma MessageSnoc(observations: seq<Observation>, f: Observation, o: Observation)
    requires MessageIsLatest(observations, f)
    ensures MessageIsLatest(observations + [o], MergeInto(f, o))
  {
    var all := observations + [o];
    var k :| 0 <= k < |observations| && LatestMessage(observations, k)
          && f.observedAt == observations[k].observedAt && f.messageType == observations[k].messageType
          && f.dedupeKey == observations[k].dedupeKey;
    assert forall i :: 0 <= i < |observations| ==> all[i] == observations[i];
    assert LatestMessage(all, if o.observedAt >= f.observedAt then |observations| else k);
  }

  lemma TimesSnoc(observations: seq<Observation>, f: Observation, o: Observation)
    requires ReceivedIsLatest(observations, f) && StaticTimeIsLatest(observations, f)
    ensures ReceivedIsLatest(observations + [o], MergeInto(f, o))
    ensures StaticTimeIsLatest(observations + [o], MergeInto(f, o))
  {
    var all := observations + [o];
    var i :| 0 <= i < |observations| && observations[i].receivedAt == f.receivedAt;
    var j :| 0 <= j < |observations| && observations[j].staticObservedAt == f.staticObservedAt;
    assert all[i] == observations[i] && all[j] == observations[j] && all[|observations|] == o;
  }

  lemma CollectionSnoc(observations: seq<Observation>, f: Observation, o: Observation)
    requires Collects(observations, f)
    ensures Collects(observations + [o], MergeInto(f, o))
  {
    var (all, next) := (observations + [o], MergeInto(f, o));
    assert all[|observations|] == o && forall i :: 0 <= i < |observations| ==> all[i] == observations[i];
    assert next.Types() == f.Types() + o.Types() by { assert f.Types() != {}; }
    forall id ensures id in next.targetIds <==> exists i :: 0 <= i < |all| && id in all[i].targetIds {
      if id in f.targetIds {
        var i :| 0 <= i < |observations| && id in observations[i].targetIds;
        assert id in all[i].targetIds;
      }
    }
    forall kind ensures kind in next.Types() <==> exists i :: 0 <= i < |all| && kind in all[i].Types() {
      if kind in f.Types() {
        var i :| 0 <= i < |observations| && kind in observations[i].Types();
        assert kind in all[i].Types();
      }
    }
  }

  lemma SummarySnoc(observations: seq<Observation>, f: Observation, o: Observation)
    requires observations != [] && FoldSummarizes(observations, f)
    ensures FoldSummarizes(observations + [o], MergeInto(f, o))
  {
    MessageSnoc(observations, f, o);
    TimesSnoc(observations, f, o);
    CollectionSnoc(observations, f, o);
  }

  lemma OneSummarizes(o: Observation)
    ensures FoldSummarizes([o], o)
  {
    assert LatestMessage([o], 0) && [o][0] == o;
  }

  /** Message, times, targets and types of a fold. */
  lemma {:induction false} FoldKeepsRest(observations: seq<Observation>)
    requires observations != []
    ensures FoldSummarizes(observations, Fold(observations))
    decreases |observations|, 0
  {
    var earlier, last := observations[..|observations| - 1], observations[|observations| - 1];
    assert observations == earlier + [last];
    LongerFoldKeepsRest(earlier, last);
  }

  lemma {:induction false} LongerFoldKeepsRest(earlier: seq<Observation>, last: Observation)
    ensures FoldSummarizes(earlier + [last], Fold(earlier + [last]))
    decreases |earlier|, 1
  {
    if earlier == [] {
      assert earlier + [last] == [last];
      OneSummarizes(last);
    } else {
      FoldKeepsRest(earlier);
      SummarySnoc(earlier, Fold(earlier), last);
      FoldSnoc(earlier, last);
    }
  }

  // ------------------------------------------------------------------ order of a fold

  /** Position times tell the positions of these observations apart. */
  ghost predicate DistinctPositionTimes(observations: seq<Observation>) {
    forall a, b :: a in observations && b in observations && a.position.observedAt.Some? ==>
      (a.position.observedAt == b.position.observedAt ==> a.position == b.position)
  }

  /** With distinct position times, the position of a fold is the same under every permutation. */
  lemma FoldPositionForgetsOrder(xs: seq<Observation>, ys: seq<Observation>)
    requires multiset(xs) == multiset(ys)
    requires !Untimed(Positions(xs)) && DistinctPositionTimes(xs)
    ensures ys != [] && Fold(xs).position == Fold(ys).position
  {
    MultisetSeqMember(xs, ys);
    SameTimes(xs, ys);
    SameTimes(ys, xs);
    var k := FoldKeepsLatestPosition(xs);
    var l := FoldKeepsLatestPosition(ys);
    assert Positions(xs)[k] in Positions(ys) && Positions(ys)[l] in Positions(xs);
    assert xs[k] in xs && ys[l] in xs;
    SameLatestTime(Positions(xs), k, Positions(ys), l);
  }

  lemma SameLatestTime(ps: seq<Position>, k: nat, qs: seq<Position>, l: nat)
    requires IsLatest(ps, k) && IsLatest(qs, l) && ps[k] in qs && qs[l] in ps
    ensures ps[k].observedAt == qs[l].observedAt
  {
    LatestIsGreatest(ps, k, qs[l]);
    LatestIsGreatest(qs, l, ps[k]);
  }

  lemma SameTimes(xs: seq<Observation>, ys: seq<Observation>)
    requires forall x :: x in xs ==> x in ys
    ensures forall p :: p in Positions(xs) ==> p in Positions(ys)
    ensures Untimed(Positions(ys)) ==> Untimed(Positions(xs))
  {
    forall p | p in Positions(xs) ensures p in Positions(ys) {
      var i :| 0 <= i < |xs| && Positions(xs)[i] == p;
      assert xs[i] in ys;
      var j :| 0 <= j < |ys| && ys[j] == xs[i];
      assert Positions(ys)[j] == p;
    }
    if Untimed(Positions(ys)) {
      forall i | 0 <= i < |xs| ensures Positions(xs)[i].observedAt == None {
        assert Positions(xs)[i] in Positions(ys);
      }
    }
  }

  lemma LatestIsGreatest(positions: seq<Position>, k: nat, p: Position)
    requires IsLatest(positions, k) && p in positions && p.observedAt.Some?
    ensures p.observedAt.value <= positions[k].observedAt.value
  {
  }
}
