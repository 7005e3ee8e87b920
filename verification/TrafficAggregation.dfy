/** Windowed port traffic (ais/aggregation.py, PortTrafficAggregator). */
module TrafficAggregation {
  import opened Basics
  import opened AisObservations

  datatype Box = Box(south: real, west: real, north: real, east: real) {
    predicate Contains(latitude: real, longitude: real) {
      south <= latitude <= north && west <= longitude <= east
    }
  }

  datatype Target = Target(id: string, aggregation: Box, subscription: Box)

  datatype VesselState = VesselState(inside: bool, observedAt: int)

  datatype PositionEvent = PositionEvent(time: int, mmsi: string)

  /** The five dictionaries of the aggregator, for one target. */
  datatype Track = Track(
    states: map<string, VesselState>,
    latestInside: map<string, Observation>,
    events: seq<PositionEvent>,
    arrivals: seq<int>,
    departures: seq<int>)

  const NO_TRACK := Track(map[], map[], [], [], [])

  /** An observation older than what is known of the vessel is ignored. */
  predicate Outdated(t: Track, o: Observation) {
    o.mmsi in t.states && o.observedAt < t.states[o.mmsi].observedAt
  }

  /** The vessel is known to have been on the other side. */
  predicate Crosses(t: Track, o: Observation, inside: bool) {
    o.mmsi in t.states && t.states[o.mmsi].inside != inside
  }

  function IngestInto(t: Track, o: Observation, inside: bool): Track {
    if Outdated(t, o) then t
    else
      Track(t.states[o.mmsi := VesselState(inside, o.observedAt)],
            if inside then t.latestInside[o.mmsi := o] else t.latestInside - {o.mmsi},
            t.events + [PositionEvent(o.observedAt, o.mmsi)],
            if Crosses(t, o, inside) && inside then t.arrivals + [o.observedAt] else t.arrivals,
            if Crosses(t, o, inside) && !inside then t.departures + [o.observedAt] else t.departures)
  }

  function EventTime(e: PositionEvent): int { e.time }

  function Itself(time: int): int { time }

  function Recent<T>(time: T -> int, cutoff: int): T -> bool { x => time(x) >= cutoff }

  /** Removes leading elements older than the cutoff, as popleft does. */
  function DropOld<T>(queue: seq<T>, time: T -> int, cutoff: int): (r: seq<T>)
    ensures |r| <= |queue|
  {
    if queue != [] && time(queue[0]) < cutoff then DropOld(queue[1..], time, cutoff) else queue
  }

  function Stale(t: Track, horizon: int): set<string> {
    set mmsi | mmsi in t.states && t.states[mmsi].observedAt < horizon
  }

  function PruneTrack(t: Track, cutoff: int, window: int): Track {
    Track(t.states - Stale(t, cutoff - window),
          t.latestInside - Stale(t, cutoff - window),
          DropOld(t.events, EventTime, cutoff),
          DropOld(t.arrivals, Itself, cutoff),
          DropOld(t.departures, Itself, cutoff))
  }

  // ------------------------------------------------------------------ what pruning a queue drops

  /** Pruning drops only a head of the queue, and never an element at or after the cutoff or anything later. */
  lemma {:induction false} DropOldKeepsRecent<T>(queue: seq<T>, time: T -> int, cutoff: int, later: int)
    requires cutoff <= later
    ensures Filter(DropOld(queue, time, cutoff), Recent(time, later)) == Filter(queue, Recent(time, later))
    ensures DropOld(queue, time, cutoff) == queue[|queue| - |DropOld(queue, time, cutoff)|..]
  {
    if queue != [] && time(queue[0]) < cutoff {
      DropOldKeepsRecent(queue[1..], time, cutoff, later);
    }
  }

  /** No element before the cutoff stands behind one that is kept. */
  ghost predicate NoneBehind<T>(queue: seq<T>, time: T -> int, cutoff: int) {
    forall i, j :: 0 <= i < j < |queue| && time(queue[i]) >= cutoff ==> time(queue[j]) >= cutoff
  }

  /** Pruning is the exact filter if and only if no late element stands behind a kept one. */
  lemma {:induction false} DropOldIsFilterIff<T>(queue: seq<T>, time: T -> int, cutoff: int)
    ensures DropOld(queue, time, cutoff) == Filter(queue, Recent(time, cutoff)) <==> NoneBehind(queue, time, cutoff)
  {
    if queue != [] {
      if time(queue[0]) < cutoff {
        DropOldIsFilterIff(queue[1..], time, cutoff);
        assert forall i :: 0 < i < |queue| ==> queue[i] == queue[1..][i - 1];
        assert NoneBehind(queue[1..], time, cutoff) <==> NoneBehind(queue, time, cutoff);
      } else {
        FilterIsIdentityIff(queue, Recent(time, cutoff));
      }
    }
  }

  lemma {:induction false} FilterIsIdentityIff<T>(xs: seq<T>, keep: T -> bool)
    ensures Filter(xs, keep) == xs <==> forall i :: 0 <= i < |xs| ==> keep(xs[i])
  {
    if xs != [] {
      FilterIsIdentityIff(xs[1..], keep);
      assert xs == [xs[0]] + xs[1..];
      if keep(xs[0]) {
        assert Filter(xs, keep)[1..] == Filter(xs[1..], keep);
        assert (forall i :: 0 <= i < |xs| ==> keep(xs[i])) <==> (forall i :: 0 <= i < |xs| - 1 ==> keep(xs[1..][i]));
      } else {
        assert |Filter(xs, keep)| < |xs|;
      }
    }
  }

  ghost predicate TimeOrdered<T>(queue: seq<T>, time: T -> int) {
    forall i, j :: 0 <= i < j < |queue| ==> time(queue[i]) <= time(queue[j])
  }

  /** A queue filled in time order is pruned exactly. */
  lemma TimeOrderPrunesExactly<T>(queue: seq<T>, time: T -> int, cutoff: int)
    requires TimeOrdered(queue, time)
    ensures DropOld(queue, time, cutoff) == Filter(queue, Recent(time, cutoff))
  {
    DropOldIsFilterIff(queue, time, cutoff);
  }

  // ------------------------------------------------------------------ runs of one target

  datatype Move = Ingest(observation: Observation, inside: bool) | Prune(cutoff: int)

  /**
   * A track with the totals of its run, read off the changes of the track: vessels first seen
   * inside, arrivals and departures recorded, vessels that left the inside list by pruning, and for
   * every known vessel the accepted times and the crossings (true for an arrival) since first seen.
   */
  datatype Tally = Tally(
    track: Track,
    firstInside: int,
    arrived: int,
    departed: int,
    prunedInside: int,
    times: map<string, seq<int>>,
    crossings: map<string, seq<bool>>)

  const NEW_TALLY := Tally(NO_TRACK, 0, 0, 0, 0, map[], map[])

  function InsideSet(states: map<string, VesselState>): set<string> {
    set mmsi | mmsi in states && states[mmsi].inside
  }

  function Known<T>(m: map<string, seq<T>>, mmsi: string): seq<T> {
    if mmsi in m then m[mmsi] else []
  }

  function TallyIngest(y: Tally, o: Observation, inside: bool): Tally {
    var track := IngestInto(y.track, o, inside);
    var arrivals, departures := |track.arrivals| - |y.track.arrivals|, |track.departures| - |y.track.departures|;
    var crossing := (if arrivals > 0 then [true] else []) + (if departures > 0 then [false] else []);
    if Outdated(y.track, o) then y
    else
      Tally(track,
            if o.mmsi !in y.track.states && o.mmsi in track.latestInside then y.firstInside + 1 else y.firstInside,
            y.arrived + arrivals,
            y.departed + departures,
            y.prunedInside,
            y.times[o.mmsi := Known(y.times, o.mmsi) + [o.observedAt]],
            y.crossings[o.mmsi := Known(y.crossings, o.mmsi) + crossing])
  }

  function TallyPrune(y: Tally, cutoff: int, window: int): Tally {
    var track := PruneTrack(y.track, cutoff, window);
    var forgotten := y.track.states.Keys - track.states.Keys;
    y.(track := track,
       prunedInside := y.prunedInside + |y.track.latestInside.Keys - track.latestInside.Keys|,
       times := y.times - forgotten,
       crossings := y.crossings - forgotten)
  }

  function TallyStep(y: Tally, m: Move, window: int): Tally {
    match m
    case Ingest(o, inside) => TallyIngest(y, o, inside)
    case Prune(cutoff) => TallyPrune(y, cutoff, window)
  }

  function TallyRun(moves: seq<Move>, window: int): Tally {
    if moves == [] then NEW_TALLY
    else TallyStep(TallyRun(moves[..|moves| - 1], window), moves[|moves| - 1], window)
  }

  ghost predicate Alternates(crossings: seq<bool>) {
    forall i :: 0 <= i < |crossings| - 1 ==> crossings[i] != crossings[i + 1]
  }

  ghost predicate NonDecreasing(times: seq<int>) {
    forall i, j :: 0 <= i < j < |times| ==> times[i] <= times[j]
  }

  /** What the run knows of one vessel. */
  ghost predicate VesselOk(y: Tally, mmsi: string)
    requires mmsi in y.track.states
  {
    mmsi in y.times && mmsi in y.crossings && HistoryOk(y.track.states[mmsi], y.times[mmsi], y.crossings[mmsi])
  }

  /** Times end with the state's and never decrease; crossings end with where it is and alternate. */
  ghost predicate HistoryOk(state: VesselState, times: seq<int>, crossings: seq<bool>) {
    && times != [] && times[|times| - 1] == state.observedAt
    && NonDecreasing(times)
    && Alternates(crossings)
    && (crossings != [] ==> crossings[|crossings| - 1] == state.inside)
  }

  ghost predicate TallyOk(y: Tally) {
    && y.track.latestInside.Keys == InsideSet(y.track.states)
    && CountOk(y)
    && (forall mmsi :: mmsi in y.track.states ==> VesselOk(y, mmsi))
    && y.times.Keys <= y.track.states.Keys && y.crossings.Keys <= y.track.states.Keys
    && (forall mmsi :: mmsi in y.track.latestInside ==> y.track.latestInside[mmsi].mmsi == mmsi)
  }

  lemma IngestMovesInside(t: Track, o: Observation, inside: bool)
    requires t.latestInside.Keys == InsideSet(t.states) && !Outdated(t, o)
    ensures var next := IngestInto(t, o, inside);
      && next.latestInside.Keys == InsideSet(next.states)
      && next.latestInside.Keys == (if inside then t.latestInside.Keys + {o.mmsi} else t.latestInside.Keys - {o.mmsi})
      && (o.mmsi in t.latestInside <==> o.mmsi in t.states && t.states[o.mmsi].inside)
  {
  }

  lemma AddedCount(s: set<string>, x: string)
    ensures |s + {x}| == if x in s then |s| else |s| + 1
    ensures |s - {x}| == if x in s then |s| - 1 else |s|
  {
    if x in s {
      assert s + {x} == s;
    } else {
      assert s - {x} == s;
    }
  }

  lemma IngestKeepsVessels(y: Tally, o: Observation, inside: bool)
    requires !Outdated(y.track, o) && forall mmsi :: mmsi in y.track.states ==> VesselOk(y, mmsi)
    requires y.times.Keys <= y.track.states.Keys && y.crossings.Keys <= y.track.states.Keys
    ensures var next := TallyIngest(y, o, inside);
      forall mmsi :: mmsi in next.track.states ==> VesselOk(next, mmsi)
  {
    var next := TallyIngest(y, o, inside);
    forall mmsi | mmsi in next.track.states ensures VesselOk(next, mmsi) {
      if mmsi == o.mmsi {
        IngestKeepsVessel(y, o, inside);
      } else {
        assert VesselOk(y, mmsi);
      }
    }
  }

  lemma IngestKeepsVessel(y: Tally, o: Observation, inside: bool)
    requires !Outdated(y.track, o) && (o.mmsi in y.track.states ==> VesselOk(y, o.mmsi))
    requires o.mmsi !in y.track.states ==> o.mmsi !in y.times && o.mmsi !in y.crossings
    ensures o.mmsi in TallyIngest(y, o, inside).track.states && VesselOk(TallyIngest(y, o, inside), o.mmsi)
  {
  }

  lemma IngestKeepsTally(y: Tally, o: Observation, inside: bool)
    requires TallyOk(y)
    ensures TallyOk(TallyIngest(y, o, inside))
  {
    if !Outdated(y.track, o) {
      IngestMovesInside(y.track, o, inside);
      IngestKeepsCount(y, o, inside);
      IngestKeepsVessels(y, o, inside);
    }
  }

  ghost predicate CountOk(y: Tally) {
    |y.track.latestInside.Keys| + y.departed + y.prunedInside == y.firstInside + y.arrived
  }

  lemma IngestKeepsCount(y: Tally, o: Observation, inside: bool)
    requires !Outdated(y.track, o) && CountOk(y) && y.track.latestInside.Keys == InsideSet(y.track.states)
    ensures CountOk(TallyIngest(y, o, inside))
  {
    IngestMovesInside(y.track, o, inside);
    AddedCount(y.track.latestInside.Keys, o.mmsi);
  }

  lemma PruneMovesInside(t: Track, cutoff: int, window: int)
    requires t.latestInside.Keys == InsideSet(t.states)
    ensures var next := PruneTrack(t, cutoff, window);
      && next.latestInside.Keys == InsideSet(next.states)
      && |next.latestInside.Keys| + |t.latestInside.Keys - next.latestInside.Keys| == |t.latestInside.Keys|
  {
    var next := PruneTrack(t, cutoff, window);
    var stale, inside := Stale(t, cutoff - window), InsideSet(t.states);
    assert InsideSet(next.states) == inside - stale == next.latestInside.Keys;
    assert next.latestInside.Keys + (inside - next.latestInside.Keys) == inside;
  }

  lemma PruneKeepsVessel(y: Tally, cutoff: int, window: int, mmsi: string)
    requires mmsi in TallyPrune(y, cutoff, window).track.states
    requires mmsi in y.track.states && VesselOk(y, mmsi)
    ensures VesselOk(TallyPrune(y, cutoff, window), mmsi)
  {
    var next := TallyPrune(y, cutoff, window);
    assert mmsi in next.times && mmsi in next.crossings;
    assert next.track.states[mmsi] == y.track.states[mmsi];
    assert next.times[mmsi] == y.times[mmsi] && next.crossings[mmsi] == y.crossings[mmsi];
  }

  lemma PruneKeepsTally(y: Tally, cutoff: int, window: int)
    requires TallyOk(y)
    ensures TallyOk(TallyPrune(y, cutoff, window))
  {
    PruneMovesInside(y.track, cutoff, window);
    var next := TallyPrune(y, cutoff, window);
    forall mmsi | mmsi in next.track.states ensures VesselOk(next, mmsi) {
      PruneKeepsVessel(y, cutoff, window, mmsi);
    }
  }

  /**
   * After every run: a vessel is listed inside iff its state says so; the number inside is first
   * seen inside plus arrivals minus departures minus pruned; and between prunings of a vessel its
   * accepted times never decrease and its arrivals and departures alternate.
   */
  lemma {:induction false} RunKeepsTally(moves: seq<Move>, window: int)
    ensures TallyOk(TallyRun(moves, window))
  {
    if moves != [] {
      var earlier := moves[..|moves| - 1];
      RunKeepsTally(earlier, window);
      match moves[|moves| - 1]
      case Ingest(o, inside) => IngestKeepsTally(TallyRun(earlier, window), o, inside);
      case Prune(cutoff) => PruneKeepsTally(TallyRun(earlier, window), cutoff, window);
    }
  }

  /** What the program does with one move. */
  function TrackStep(t: Track, m: Move, window: int): Track {
    match m
    case Ingest(o, inside) => IngestInto(t, o, inside)
    case Prune(cutoff) => PruneTrack(t, cutoff, window)
  }

  /** The totals do not disturb what the program computes. */
  lemma TallyFollowsTrack(y: Tally, m: Move, window: int)
    ensures TallyStep(y, m, window).track == TrackStep(y.track, m, window)
  {
  }

  // ------------------------------------------------------------------ when accepted times decrease

  /** The times of all observations of a vessel accepted in a run, pruned in between or not. */
  function AcceptedTimes(moves: seq<Move>, window: int, mmsi: string): seq<int> {
    if moves == [] then []
    else
      var n := |moves| - 1;
      var earlier := AcceptedTimes(moves[..n], window, mmsi);
      if Accepts(TallyRun(moves[..n], window).track, mmsi, moves[n]) then earlier + [moves[n].observation.observedAt]
      else earlier
  }

  predicate Reports(m: Move, mmsi: string) { m.Ingest? && m.observation.mmsi == mmsi }

  predicate Accepts(t: Track, mmsi: string, m: Move) {
    Reports(m, mmsi) && !Outdated(t, m.observation)
  }

  function Last(times: seq<int>): int
    requires times != []
  {
    times[|times| - 1]
  }

  lemma NonDecreasingSnoc(times: seq<int>, next: int)
    ensures NonDecreasing(times + [next]) <==> NonDecreasing(times) && (times != [] ==> Last(times) <= next)
  {
    var extended := times + [next];
    assert forall i :: 0 <= i < |times| ==> extended[i] == times[i];
    if NonDecreasing(extended) && times != [] {
      assert extended[|times| - 1] <= extended[|times|];
    }
  }

  predicate Precedes(time: Option<int>, horizon: int) { time.Some? && time.value < horizon }

  predicate ReachesUp(greatest: Option<int>, time: int) { greatest.Some? ==> time >= greatest.value }

  function GreatestNext(greatest: Option<int>, m: Move, mmsi: string): Option<int> {
    if Reports(m, mmsi) && ReachesUp(greatest, m.observation.observedAt) then Some(m.observation.observedAt)
    else greatest
  }

  predicate ForgottenNext(greatest: Option<int>, forgotten: bool, m: Move, window: int, mmsi: string) {
    match m
    case Prune(cutoff) => forgotten || Precedes(greatest, cutoff - window)
    case Ingest(o, inside) => forgotten && (o.mmsi == mmsi ==> !ReachesUp(greatest, o.observedAt))
  }

  predicate Late(greatest: Option<int>, forgotten: bool, m: Move, mmsi: string) {
    Reports(m, mmsi) && forgotten && !ReachesUp(greatest, m.observation.observedAt)
  }

  /** The greatest time the vessel has reported, accepted or not. */
  function Greatest(moves: seq<Move>, mmsi: string): Option<int> {
    if moves == [] then None
    else GreatestNext(Greatest(moves[..|moves| - 1], mmsi), moves[|moves| - 1], mmsi)
  }

  /** Some cutoff was more than a window after that time, and nothing as late was reported since. */
  predicate Forgotten(moves: seq<Move>, window: int, mmsi: string) {
    moves != [] &&
    var (earlier, last) := (moves[..|moves| - 1], moves[|moves| - 1]);
    ForgottenNext(Greatest(earlier, mmsi), Forgotten(earlier, window, mmsi), last, window, mmsi)
  }

  /** The last move reports, for a forgotten vessel, a time before the greatest one. */
  predicate ReportsLate(moves: seq<Move>, window: int, mmsi: string) {
    moves != [] &&
    var (earlier, last) := (moves[..|moves| - 1], moves[|moves| - 1]);
    Late(Greatest(earlier, mmsi), Forgotten(earlier, window, mmsi), last, mmsi)
  }

  /** No move of the run does that. It speaks of what was reported and pruned when, not of the aggregator. */
  predicate NeverReportsLate(moves: seq<Move>, window: int, mmsi: string) {
    moves == [] || (NeverReportsLate(moves[..|moves| - 1], window, mmsi) && !ReportsLate(moves, window, mmsi))
  }

  /** What is known of a vessel that never reported late. */
  ghost predicate KnownFrom(t: Track, times: seq<int>, greatest: Option<int>, forgotten: bool, mmsi: string) {
    && (mmsi in t.states <==> greatest.Some? && !forgotten)
    && (mmsi in t.states ==> t.states[mmsi].observedAt == greatest.value)
    && (times == [] <==> greatest == None)
    && (times != [] ==> Last(times) == greatest.value)
    && NonDecreasing(times)
  }

  lemma {:induction false} PromptVesselIsKnown(moves: seq<Move>, window: int, mmsi: string)
    requires NeverReportsLate(moves, window, mmsi)
    ensures KnownFrom(TallyRun(moves, window).track, AcceptedTimes(moves, window, mmsi), Greatest(moves, mmsi),
                      Forgotten(moves, window, mmsi), mmsi)
  {
    if moves != [] {
      var (earlier, last) := (moves[..|moves| - 1], moves[|moves| - 1]);
      PromptVesselIsKnown(earlier, window, mmsi);
      TallyFollowsTrack(TallyRun(earlier, window), last, window);
      PromptMoveKeepsKnown(TallyRun(earlier, window).track, AcceptedTimes(earlier, window, mmsi),
                           Greatest(earlier, mmsi), Forgotten(earlier, window, mmsi), last, window, mmsi);
    }
  }

  lemma PromptMoveKeepsKnown(t: Track, times: seq<int>, greatest: Option<int>, forgotten: bool, m: Move, window: int,
                             mmsi: string)
    requires KnownFrom(t, times, greatest, forgotten, mmsi) && !Late(greatest, forgotten, m, mmsi)
    ensures KnownFrom(TrackStep(t, m, window),
                      times + if Accepts(t, mmsi, m) then [m.observation.observedAt] else [],
                      GreatestNext(greatest, m, mmsi), ForgottenNext(greatest, forgotten, m, window, mmsi), mmsi)
  {
    if Accepts(t, mmsi, m) {
      NonDecreasingSnoc(times, m.observation.observedAt);
    } else {
      assert times + [] == times;
    }
  }

  lemma {:induction false} LateReportDecreases(moves: seq<Move>, window: int, mmsi: string)
    requires !NeverReportsLate(moves, window, mmsi)
    ensures !NonDecreasing(AcceptedTimes(moves, window, mmsi))
  {
    var (earlier, last) := (moves[..|moves| - 1], moves[|moves| - 1]);
    if !NeverReportsLate(earlier, window, mmsi) {
      LateReportDecreases(earlier, window, mmsi);
    } else {
      PromptVesselIsKnown(earlier, window, mmsi);
    }
    if Accepts(TallyRun(earlier, window).track, mmsi, last) {
      NonDecreasingSnoc(AcceptedTimes(earlier, window, mmsi), last.observation.observedAt);
    }
  }

  /** The accepted times of a vessel never decrease exactly when, once forgotten, it never reports an earlier time. */
  lemma TimesNeverDecreaseIff(moves: seq<Move>, window: int, mmsi: string)
    ensures NonDecreasing(AcceptedTimes(moves, window, mmsi)) <==> NeverReportsLate(moves, window, mmsi)
  {
    if NeverReportsLate(moves, window, mmsi) {
      PromptVesselIsKnown(moves, window, mmsi);
    } else {
      LateReportDecreases(moves, window, mmsi);
    }
  }

  lemma ReportAfterPrune(moves: seq<Move>, o: Observation, late: Observation, window: int, inside: bool,
                         insideAgain: bool)
    requires !Outdated(TallyRun(moves, window).track, o) && late.mmsi == o.mmsi
    ensures
      var run := ((moves + [Ingest(o, inside)]) + [Prune(o.observedAt + window + 1)]) + [Ingest(late, insideAgain)];
      AcceptedTimes(run, window, o.mmsi) == (AcceptedTimes(moves, window, o.mmsi) + [o.observedAt]) + [late.observedAt]
  {
    var reported := moves + [Ingest(o, inside)];
    var pruned := reported + [Prune(o.observedAt + window + 1)];
    RunSnoc(moves, Ingest(o, inside), window, o.mmsi);
    RunSnoc(reported, Prune(o.observedAt + window + 1), window, o.mmsi);
    RunSnoc(pruned, Ingest(late, insideAgain), window, o.mmsi);
    StaleVesselIsForgotten(TallyRun(moves, window).track, o, inside, window);
  }

  /**
   * Continue any run, the empty one for instance, by an accepted report, a prune more than a window
   * later, and an earlier report: that report is accepted too, and the accepted times decrease.
   */
  lemma PruningForgetsTime(moves: seq<Move>, o: Observation, late: Observation, window: int, inside: bool,
                           insideAgain: bool)
    requires !Outdated(TallyRun(moves, window).track, o)
    requires late.mmsi == o.mmsi && late.observedAt < o.observedAt
    ensures
      var run := ((moves + [Ingest(o, inside)]) + [Prune(o.observedAt + window + 1)]) + [Ingest(late, insideAgain)];
      && AcceptedTimes(run, window, o.mmsi)
         == (AcceptedTimes(moves, window, o.mmsi) + [o.observedAt]) + [late.observedAt]
      && !NonDecreasing(AcceptedTimes(run, window, o.mmsi))
  {
    ReportAfterPrune(moves, o, late, window, inside, insideAgain);
    NonDecreasingSnoc(AcceptedTimes(moves, window, o.mmsi) + [o.observedAt], late.observedAt);
  }

  lemma StaleVesselIsForgotten(t: Track, o: Observation, inside: bool, window: int)
    ensures o.mmsi !in PruneTrack(IngestInto(t, o, inside), o.observedAt + window + 1, window).states
      || Outdated(t, o)
  {
  }

  lemma RunSnoc(moves: seq<Move>, m: Move, window: int, mmsi: string)
    ensures TallyRun(moves + [m], window).track == TrackStep(TallyRun(moves, window).track, m, window)
    ensures AcceptedTimes(moves + [m], window, mmsi) == AcceptedTimes(moves, window, mmsi)
      + if Accepts(TallyRun(moves, window).track, mmsi, m) then [m.observation.observedAt] else []
  {
    assert (moves + [m])[..|moves|] == moves;
    TallyFollowsTrack(TallyRun(moves, window), m, window);
  }

  // ------------------------------------------------------------------ what the queues hold after a run

  /** Everything a run ever queued: accepted positions, and crossings in and out of the area. */
  datatype Log = Log(events: seq<PositionEvent>, arrivals: seq<int>, departures: seq<int>)

  /** What one move adds to the log, on a track in this state. */
  function LogStep(log: Log, before: Track, m: Move): Log {
    if m.Prune? || Outdated(before, m.observation) then log
    else
      var (o, inside) := (m.observation, m.inside);
      var wasKnown := o.mmsi in before.states;
      Log(log.events + [PositionEvent(o.observedAt, o.mmsi)],
          log.arrivals + (if wasKnown && !before.states[o.mmsi].inside && inside then [o.observedAt] else []),
          log.departures + (if wasKnown && before.states[o.mmsi].inside && !inside then [o.observedAt] else []))
  }

  function LogOf(moves: seq<Move>, window: int): Log {
    if moves == [] then Log([], [], [])
    else
      var n := |moves| - 1;
      LogStep(LogOf(moves[..n], window), TallyRun(moves[..n], window).track, moves[n])
  }

  /** The queue is an end of the log, and misses nothing in it from the cutoff on. */
  ghost predicate HoldsRecent<T(!new)>(queue: seq<T>, log: seq<T>, time: T -> int, cutoff: int) {
    && (exists dropped :: dropped + queue == log)
    && Filter(queue, Recent(time, cutoff)) == Filter(log, Recent(time, cutoff))
  }

  lemma HoldsRecentAppend<T(!new)>(queue: seq<T>, log: seq<T>, more: seq<T>, time: T -> int, cutoff: int)
    requires HoldsRecent(queue, log, time, cutoff)
    ensures HoldsRecent(queue + more, log + more, time, cutoff)
  {
    var dropped :| dropped + queue == log;
    assert dropped + (queue + more) == log + more;
    FilterAppend(queue, more, Recent(time, cutoff));
    FilterAppend(log, more, Recent(time, cutoff));
  }

  lemma HoldsRecentDrop<T(!new)>(queue: seq<T>, log: seq<T>, time: T -> int, cutoff: int, later: int)
    requires HoldsRecent(queue, log, time, later) && cutoff <= later
    ensures HoldsRecent(DropOld(queue, time, cutoff), log, time, later)
  {
    var dropped :| dropped + queue == log;
    var kept := DropOld(queue, time, cutoff);
    DropOldKeepsRecent(queue, time, cutoff, later);
    assert (dropped + queue[..|queue| - |kept|]) + kept == log;
  }

  ghost predicate NoCutoffAfter(moves: seq<Move>, cutoff: int) {
    forall m :: m in moves && m.Prune? ==> m.cutoff <= cutoff
  }

  ghost predicate TrackHolds(t: Track, log: Log, cutoff: int) {
    && HoldsRecent(t.events, log.events, EventTime, cutoff)
    && HoldsRecent(t.arrivals, log.arrivals, Itself, cutoff)
    && HoldsRecent(t.departures, log.departures, Itself, cutoff)
  }

  lemma IngestHolds(t: Track, log: Log, o: Observation, inside: bool, cutoff: int)
    requires TrackHolds(t, log, cutoff) && !Outdated(t, o)
    ensures var next := IngestInto(t, o, inside);
      var crossed := o.mmsi in t.states && t.states[o.mmsi].inside != inside;
      TrackHolds(next, Log(log.events + [PositionEvent(o.observedAt, o.mmsi)],
                           log.arrivals + (if crossed && inside then [o.observedAt] else []),
                           log.departures + (if crossed && !inside then [o.observedAt] else [])), cutoff)
  {
    var crossed := o.mmsi in t.states && t.states[o.mmsi].inside != inside;
    assert t.arrivals + [] == t.arrivals && t.departures + [] == t.departures;
    HoldsRecentAppend(t.events, log.events, [PositionEvent(o.observedAt, o.mmsi)], EventTime, cutoff);
    HoldsRecentAppend(t.arrivals, log.arrivals, if crossed && inside then [o.observedAt] else [], Itself, cutoff);
    HoldsRecentAppend(t.departures, log.departures, if crossed && !inside then [o.observedAt] else [],
                      Itself, cutoff);
  }

  lemma PruneHolds(t: Track, log: Log, cutoff: int, window: int, later: int)
    requires TrackHolds(t, log, later) && cutoff <= later
    ensures TrackHolds(PruneTrack(t, cutoff, window), log, later)
  {
    HoldsRecentDrop(t.events, log.events, EventTime, cutoff, later);
    HoldsRecentDrop(t.arrivals, log.arrivals, Itself, cutoff, later);
    HoldsRecentDrop(t.departures, log.departures, Itself, cutoff, later);
  }

  /**
   * After every run the three queues are ends of what was ever queued, and from the latest cutoff on
   * nothing is missing.
   */
  lemma {:induction false} RunHoldsRecent(moves: seq<Move>, window: int, cutoff: int)
    requires NoCutoffAfter(moves, cutoff)
    ensures TrackHolds(TallyRun(moves, window).track, LogOf(moves, window), cutoff)
  {
    if moves != [] {
      var n := |moves| - 1;
      var before := TallyRun(moves[..n], window);
      RunHoldsRecent(moves[..n], window, cutoff);
      TallyFollowsTrack(before, moves[n], window);
      match moves[n]
      case Ingest(o, inside) =>
        if !Outdated(before.track, o) { IngestHolds(before.track, LogOf(moves[..n], window), o, inside, cutoff); }
      case Prune(c) =>
        assert moves[n] in moves;
        PruneHolds(before.track, LogOf(moves[..n], window), c, window, cutoff);
    } else {
      EmptyHolds(EventTime, cutoff);
      EmptyHolds(Itself, cutoff);
    }
  }

  lemma OrderedEndIsPrunedExactly<T(!new)>(queue: seq<T>, log: seq<T>, time: T -> int, cutoff: int)
    requires HoldsRecent(queue, log, time, cutoff) && TimeOrdered(log, time)
    ensures DropOld(queue, time, cutoff) == Filter(log, Recent(time, cutoff))
  {
    var dropped :| dropped + queue == log;
    assert forall i :: 0 <= i < |queue| ==> queue[i] == log[|dropped| + i];
    TimeOrderPrunesExactly(queue, time, cutoff);
  }

  ghost predicate LogOrdered(log: Log) {
    TimeOrdered(log.events, EventTime) && TimeOrdered(log.arrivals, Itself) && TimeOrdered(log.departures, Itself)
  }

  /** The queues are exactly what the log holds from the cutoff on. */
  ghost predicate TrackIsFiltered(t: Track, log: Log, cutoff: int) {
    && t.events == Filter(log.events, Recent(EventTime, cutoff))
    && t.arrivals == Filter(log.arrivals, Recent(Itself, cutoff))
    && t.departures == Filter(log.departures, Recent(Itself, cutoff))
  }

  lemma OrderedTrackIsPrunedExactly(t: Track, log: Log, window: int, cutoff: int)
    requires TrackHolds(t, log, cutoff) && LogOrdered(log)
    ensures TrackIsFiltered(PruneTrack(t, cutoff, window), log, cutoff)
  {
    OrderedEndIsPrunedExactly(t.events, log.events, EventTime, cutoff);
    OrderedEndIsPrunedExactly(t.arrivals, log.arrivals, Itself, cutoff);
    OrderedEndIsPrunedExactly(t.departures, log.departures, Itself, cutoff);
  }

  /** Observations come in the order of their times. */
  ghost predicate IngestedInOrder(moves: seq<Move>) {
    forall i, j :: 0 <= i < j < |moves| && moves[i].Ingest? && moves[j].Ingest? ==>
      moves[i].observation.observedAt <= moves[j].observation.observedAt
  }

  ghost predicate LogWithin(log: Log, bound: int) {
    && (forall e :: e in log.events ==> e.time <= bound)
    && (forall time :: time in log.arrivals ==> time <= bound)
    && (forall time :: time in log.departures ==> time <= bound)
  }

  lemma StepStaysWithin(log: Log, before: Track, m: Move, bound: int)
    requires LogWithin(log, bound) && (m.Ingest? ==> m.observation.observedAt <= bound)
    ensures LogWithin(LogStep(log, before, m), bound)
  {
  }

  lemma {:induction false} LogStaysWithin(moves: seq<Move>, window: int, bound: int)
    requires forall m :: m in moves && m.Ingest? ==> m.observation.observedAt <= bound
    ensures LogWithin(LogOf(moves, window), bound)
  {
    if moves != [] {
      var (earlier, last) := (moves[..|moves| - 1], moves[|moves| - 1]);
      LogStaysWithin(earlier, window, bound);
      StepStaysWithin(LogOf(earlier, window), TallyRun(earlier, window).track, last, bound);
    }
  }

  lemma OrderedSnoc<T>(queue: seq<T>, more: seq<T>, time: T -> int, bound: int)
    requires TimeOrdered(queue, time) && |more| <= 1
    requires forall x :: x in queue ==> time(x) <= bound
    requires forall x :: x in more ==> time(x) == bound
    ensures TimeOrdered(queue + more, time)
  {
    var all := queue + more;
    forall i, j | 0 <= i < j < |all| ensures time(all[i]) <= time(all[j]) {
      assert all[i] == queue[i] && queue[i] in queue;
      assert j >= |queue| ==> all[j] == more[0] && more[0] in more;
    }
  }

  lemma StepStaysOrdered(log: Log, before: Track, m: Move)
    requires LogOrdered(log) && (m.Ingest? ==> LogWithin(log, m.observation.observedAt))
    ensures LogOrdered(LogStep(log, before, m))
  {
    if m.Ingest? && !Outdated(before, m.observation) {
      var (o, inside) := (m.observation, m.inside);
      var crossed := o.mmsi in before.states && before.states[o.mmsi].inside != inside;
      OrderedSnoc(log.events, [PositionEvent(o.observedAt, o.mmsi)], EventTime, o.observedAt);
      OrderedSnoc(log.arrivals, if crossed && inside then [o.observedAt] else [], Itself, o.observedAt);
      OrderedSnoc(log.departures, if crossed && !inside then [o.observedAt] else [], Itself, o.observedAt);
    }
  }

  lemma {:induction false} OrderedIngestionOrdersLog(moves: seq<Move>, window: int)
    requires IngestedInOrder(moves)
    ensures LogOrdered(LogOf(moves, window))
  {
    if moves != [] {
      var (earlier, last) := (moves[..|moves| - 1], moves[|moves| - 1]);
      OrderedIngestionOrdersLog(earlier, window);
      if last.Ingest? { LogStaysWithin(earlier, window, last.observation.observedAt); }
      StepStaysOrdered(LogOf(earlier, window), TallyRun(earlier, window).track, last);
    }
  }

  /** When ingestion was time-ordered, a run that ends with its latest cutoff keeps exactly what is not older. */
  lemma TimeOrderedRunIsExact(moves: seq<Move>, window: int, cutoff: int)
    requires moves != [] && moves[|moves| - 1] == Prune(cutoff) && NoCutoffAfter(moves, cutoff)
    requires IngestedInOrder(moves)
    ensures TrackIsFiltered(TallyRun(moves, window).track, LogOf(moves, window), cutoff)
  {
    var earlier := moves[..|moves| - 1];
    OrderedIngestionOrdersLog(earlier, window);
    RunHoldsRecent(earlier, window, cutoff);
    TallyFollowsTrack(TallyRun(earlier, window), moves[|moves| - 1], window);
    OrderedTrackIsPrunedExactly(TallyRun(earlier, window).track, LogOf(earlier, window), window, cutoff);
  }

  lemma EmptyHolds<T(!new)>(time: T -> int, cutoff: int)
    ensures HoldsRecent([], [], time, cutoff)
  {
    var none: seq<T> := [];
    assert none + none == none;
  }

  // ------------------------------------------------------------------ the aggregator

  /** Start of the window that holds `now`: windows start at multiples of their length since the epoch. */
  function WindowStart(now: int, window: int): (start: int)
    requires window > 0
    ensures start <= now < start + window && start == now / window * window
  {
    now - now % window
  }

  datatype Snapshot = Snapshot(
    targetId: string,
    windowStart: int,
    vesselCount: nat,
    arrivalCount: nat,
    departureCount: nat,
    observationCount: nat)

  function TrackOf(tracks: map<string, Track>, id: string): Track {
    if id in tracks then tracks[id] else NO_TRACK
  }

  predicate Matches(target: Target, o: Observation) {
    o.HasPosition() && target.subscription.Contains(o.position.latitude.value, o.position.longitude.value)
  }

  /** The targets whose subscription box holds the observation's position. */
  function MatchedIds(targets: seq<Target>, o: Observation): set<string> {
    set i | 0 <= i < |targets| && Matches(targets[i], o) :: targets[i].id
  }

  function IngestTarget(target: Target, t: Track, o: Observation): Track {
    if Matches(target, o) then
      IngestInto(t, o, target.aggregation.Contains(o.position.latitude.value, o.position.longitude.value))
    else t
  }

  /** Vessels listed inside whose position is within the window. */
  function Active(t: Track, start: int): set<string> {
    set mmsi | mmsi in t.latestInside && t.latestInside[mmsi].position.observedAt.Some?
            && t.latestInside[mmsi].position.observedAt.value >= start
  }

  function SnapshotOf(id: string, t: Track, start: int): Snapshot {
    Snapshot(id, start, |Active(t, start)|, |t.arrivals|, |t.departures|, |t.events|)
  }

  ghost predicate DistinctTargets(targets: seq<Target>) {
    forall i, j :: 0 <= i < j < |targets| ==> targets[i].id != targets[j].id
  }

  /** The moves a target sees of an observation. */
  function MovesFor(target: Target, o: Observation): seq<Move> {
    if Matches(target, o) then
      [Ingest(o, target.aggregation.Contains(o.position.latitude.value, o.position.longitude.value))]
    else []
  }

  ghost predicate InBox(box: Box, latitude: real, longitude: real) {
    && box.south <= latitude && latitude <= box.north
    && box.west <= longitude && longitude <= box.east
  }

  /** A target sees an observation that has a timed position in its subscription box; inside is its aggregation box. */
  lemma MovesTell(target: Target, o: Observation)
    ensures var p := o.position;
      if p.latitude.Some? && p.longitude.Some? && p.observedAt.Some?
         && InBox(target.subscription, p.latitude.value, p.longitude.value)
      then MovesFor(target, o) == [Ingest(o, InBox(target.aggregation, p.latitude.value, p.longitude.value))]
      else MovesFor(target, o) == []
  {
  }

  /** The ids of the targets that see it. */
  lemma MatchedTell(targets: seq<Target>, o: Observation)
    ensures forall id :: id in MatchedIds(targets, o) <==>
      exists i :: 0 <= i < |targets| && targets[i].id == id && MovesFor(targets[i], o) != []
  {
    forall id | id in MatchedIds(targets, o)
      ensures exists i :: 0 <= i < |targets| && targets[i].id == id && MovesFor(targets[i], o) != []
    {
      var i :| 0 <= i < |targets| && Matches(targets[i], o) && targets[i].id == id;
      assert MovesFor(targets[i], o) != [];
    }
  }

  /** The moves of all targets after an observation. */
  ghost function Moved(targets: seq<Target>, moves: seq<seq<Move>>, o: Observation): seq<seq<Move>>
    requires |moves| == |targets|
  {
    seq(|targets|, i requires 0 <= i < |targets| => moves[i] + MovesFor(targets[i], o))
  }

  lemma TargetFollows(target: Target, t: Track, moves: seq<Move>, window: int, o: Observation)
    requires t == TallyRun(moves, window).track
    ensures IngestTarget(target, t, o) == TallyRun(moves + MovesFor(target, o), window).track
  {
    if Matches(target, o) {
      RunSnoc(moves, MovesFor(target, o)[0], window, o.mmsi);
    } else {
      assert moves + [] == moves;
    }
  }

  lemma PrunedFollows(t: Track, moves: seq<Move>, window: int, cutoff: int)
    requires t == TallyRun(moves, window).track
    ensures PruneTrack(t, cutoff, window) == TallyRun(moves + [Prune(cutoff)], window).track
  {
    RunSnoc(moves, Prune(cutoff), window, "");
  }

  /** Snapshots of the targets with events left, in the order of the targets. */
  function SnapshotsOf(targets: seq<Target>, tracks: map<string, Track>, start: int): seq<Snapshot> {
    if targets == [] then []
    else
      var (n, id) := (|targets| - 1, targets[|targets| - 1].id);
      SnapshotsOf(targets[..n], tracks, start)
        + if TrackOf(tracks, id).events != [] then [SnapshotOf(id, TrackOf(tracks, id), start)] else []
  }

  lemma {:induction false} SnapshotsDependOnTargets(targets: seq<Target>, tracks: map<string, Track>,
                                                    others: map<string, Track>, start: int)
    requires forall i :: 0 <= i < |targets| ==> TrackOf(tracks, targets[i].id) == TrackOf(others, targets[i].id)
    ensures SnapshotsOf(targets, tracks, start) == SnapshotsOf(targets, others, start)
  {
    if targets != [] {
      var n := |targets| - 1;
      assert forall i :: 0 <= i < n ==> targets[..n][i] == targets[i];
      SnapshotsDependOnTargets(targets[..n], tracks, others, start);
    }
  }

  /** The queue of snapshots after one more target was pruned. */
  lemma SnapshotsNext(targets: seq<Target>, k: nat, tracks: map<string, Track>, pruned: Track, start: int)
    requires k < |targets| && DistinctTargets(targets)
    ensures SnapshotsOf(targets[..k + 1], tracks[targets[k].id := pruned], start)
      == SnapshotsOf(targets[..k], tracks, start)
        + if pruned.events != [] then [SnapshotOf(targets[k].id, pruned, start)] else []
  {
    assert targets[..k + 1][..k] == targets[..k];
    SnapshotsDependOnTargets(targets[..k], tracks, tracks[targets[k].id := pruned], start);
  }

  // ------------------------------------------------------------------ what a snapshot counts

  /** Vessels known to be inside whose last listed position is not older than the start. */
  ghost function PresentSince(t: Track, start: int): set<string> {
    set mmsi | mmsi in t.states && t.states[mmsi].inside && ListedSince(t, mmsi, start)
  }

  ghost predicate ListedSince(t: Track, mmsi: string, start: int) {
    && mmsi in t.latestInside && t.latestInside[mmsi].position.observedAt.Some?
    && t.latestInside[mmsi].position.observedAt.value >= start
  }

  function AtOrAfter(times: seq<int>, start: int): nat {
    if times == [] then 0
    else AtOrAfter(times[..|times| - 1], start) + if times[|times| - 1] >= start then 1 else 0
  }

  function EventTimes(events: seq<PositionEvent>): (times: seq<int>)
    ensures |times| == |events| && forall i :: 0 <= i < |events| ==> times[i] == events[i].time
  {
    seq(|events|, i requires 0 <= i < |events| => events[i].time)
  }

  /** None of the recent is missing from the counts. */
  ghost predicate CountsAtLeast(x: Snapshot, log: Log, start: int) {
    && x.arrivalCount >= AtOrAfter(log.arrivals, start)
    && x.departureCount >= AtOrAfter(log.departures, start)
    && x.observationCount >= AtOrAfter(EventTimes(log.events), start)
  }

  ghost predicate CountsExactly(x: Snapshot, log: Log, start: int) {
    && x.arrivalCount == AtOrAfter(log.arrivals, start)
    && x.departureCount == AtOrAfter(log.departures, start)
    && x.observationCount == AtOrAfter(EventTimes(log.events), start)
  }

  /**
   * What a snapshot says of a run that pruned to its window and no further: the vessels present, and
   * at least the recent arrivals, departures and accepted positions, exactly these if observations
   * came in order.
   */
  ghost predicate CountsRight(x: Snapshot, t: Track, moves: seq<Move>, window: int, start: int) {
    && x.windowStart == start
    && x.vesselCount == |PresentSince(t, start)|
    && (NoCutoffAfter(moves, start) ==> CountsAtLeast(x, LogOf(moves, window), start))
    && (NoCutoffAfter(moves, start) && IngestedInOrder(moves) ==> CountsExactly(x, LogOf(moves, window), start))
  }

  lemma {:induction false} FilteredCount(times: seq<int>, start: int)
    ensures |Filter(times, Recent(Itself, start))| == AtOrAfter(times, start)
  {
    if times != [] {
      var earlier, last := times[..|times| - 1], times[|times| - 1];
      assert times == earlier + [last];
      FilterSnoc(earlier, last, Recent(Itself, start));
      FilteredCount(earlier, start);
    }
  }

  lemma {:induction false} FilteredEventCount(events: seq<PositionEvent>, start: int)
    ensures |Filter(events, Recent(EventTime, start))| == AtOrAfter(EventTimes(events), start)
  {
    if events != [] {
      var earlier, last := events[..|events| - 1], events[|events| - 1];
      assert events == earlier + [last] && EventTimes(events)[..|events| - 1] == EventTimes(earlier);
      FilterSnoc(earlier, last, Recent(EventTime, start));
      FilteredEventCount(earlier, start);
    }
  }

  lemma HeldIsCounted(t: Track, log: Log, start: int)
    requires TrackHolds(t, log, start)
    ensures |t.arrivals| >= AtOrAfter(log.arrivals, start)
    ensures |t.departures| >= AtOrAfter(log.departures, start)
    ensures |t.events| >= AtOrAfter(EventTimes(log.events), start)
  {
    assert |Filter(t.arrivals, Recent(Itself, start))| <= |t.arrivals|;
    assert |Filter(t.departures, Recent(Itself, start))| <= |t.departures|;
    assert |Filter(t.events, Recent(EventTime, start))| <= |t.events|;
    FilteredCount(log.arrivals, start);
    FilteredCount(log.departures, start);
    FilteredEventCount(log.events, start);
  }

  lemma FilteredIsCounted(t: Track, log: Log, start: int)
    requires TrackIsFiltered(t, log, start)
    ensures |t.arrivals| == AtOrAfter(log.arrivals, start)
    ensures |t.departures| == AtOrAfter(log.departures, start)
    ensures |t.events| == AtOrAfter(EventTimes(log.events), start)
  {
    FilteredCount(log.arrivals, start);
    FilteredCount(log.departures, start);
    FilteredEventCount(log.events, start);
  }

  lemma PresentIsActive(moves: seq<Move>, window: int, start: int)
    ensures var t := TallyRun(moves, window).track; Active(t, start) == PresentSince(t, start)
  {
    RunKeepsTally(moves, window);
    var t := TallyRun(moves, window).track;
    assert t.latestInside.Keys == InsideSet(t.states);
    forall mmsi ensures mmsi in Active(t, start) <==> mmsi in PresentSince(t, start) {
      assert mmsi in t.latestInside <==> mmsi in InsideSet(t.states);
    }
  }

  /** The snapshot of a track that was just pruned counts what its run left there. */
  lemma SnapshotCountsRight(id: string, moves: seq<Move>, window: int, start: int)
    requires moves != [] && moves[|moves| - 1] == Prune(start)
    ensures CountsRight(SnapshotOf(id, TallyRun(moves, window).track, start), TallyRun(moves, window).track,
                        moves, window, start)
  {
    var t := TallyRun(moves, window).track;
    PresentIsActive(moves, window, start);
    if NoCutoffAfter(moves, start) {
      RunHoldsRecent(moves, window, start);
      HeldIsCounted(t, LogOf(moves, window), start);
      if IngestedInOrder(moves) {
        TimeOrderedRunIsExact(moves, window, start);
        assert LogOf(moves, window) == LogOf(moves[..|moves| - 1], window);
        FilteredIsCounted(t, LogOf(moves, window), start);
      }
    }
  }

  ghost predicate IsSnapshotOf(targets: seq<Target>, tracks: map<string, Track>, start: int, x: Snapshot, i: nat)
    requires i < |targets|
  {
    var t := TrackOf(tracks, targets[i].id);
    t.events != [] && x == SnapshotOf(targets[i].id, t, start)
  }

  /** Exactly the targets with an accepted position left have a snapshot, and it is their own. */
  lemma {:induction false} SnapshotMember(targets: seq<Target>, tracks: map<string, Track>, start: int, x: Snapshot)
    ensures x in SnapshotsOf(targets, tracks, start)
      <==> exists i :: 0 <= i < |targets| && IsSnapshotOf(targets, tracks, start, x, i)
  {
    if targets != [] {
      var n := |targets| - 1;
      SnapshotMember(targets[..n], tracks, start, x);
      if x in SnapshotsOf(targets[..n], tracks, start) {
        var i :| 0 <= i < n && IsSnapshotOf(targets[..n], tracks, start, x, i);
        assert IsSnapshotOf(targets, tracks, start, x, i);
      } else if x in SnapshotsOf(targets, tracks, start) {
        assert IsSnapshotOf(targets, tracks, start, x, n);
      } else if i :| 0 <= i < |targets| && IsSnapshotOf(targets, tracks, start, x, i) {
        assert i < n ==> IsSnapshotOf(targets[..n], tracks, start, x, i);
      }
    }
  }

  /** What a list of snapshots says of one target. */
  ghost predicate ShowsTarget(snapshots: seq<Snapshot>, target: Target, t: Track, moves: seq<Move>, window: int,
                              start: int)
  {
    && ((exists x :: x in snapshots && x.targetId == target.id) <==> t.events != [])
    && (forall x :: x in snapshots && x.targetId == target.id ==> CountsRight(x, t, moves, window, start))
  }

  lemma SnapshotsShowTarget(targets: seq<Target>, tracks: map<string, Track>, i: nat, moves: seq<Move>, window: int,
                            start: int)
    requires DistinctTargets(targets) && i < |targets|
    requires TrackOf(tracks, targets[i].id) == TallyRun(moves, window).track
    requires moves != [] && moves[|moves| - 1] == Prune(start)
    ensures ShowsTarget(SnapshotsOf(targets, tracks, start), targets[i], TrackOf(tracks, targets[i].id), moves, window,
                        start)
  {
    var (snapshots, id, t) := (SnapshotsOf(targets, tracks, start), targets[i].id, TrackOf(tracks, targets[i].id));
    SnapshotCountsRight(id, moves, window, start);
    SnapshotMember(targets, tracks, start, SnapshotOf(id, t, start));
    assert t.events != [] ==> IsSnapshotOf(targets, tracks, start, SnapshotOf(id, t, start), i);
    forall x | x in snapshots && x.targetId == id ensures t.events != [] && x == SnapshotOf(id, t, start) {
      SnapshotMember(targets, tracks, start, x);
      var j :| 0 <= j < |targets| && IsSnapshotOf(targets, tracks, start, x, j);
      assert i == j;
    }
  }

  /** Every snapshot is of one of the targets, and says the right things of it. */
  ghost predicate ShowsTargets(snapshots: seq<Snapshot>, targets: seq<Target>, tracks: map<string, Track>,
                               moves: seq<seq<Move>>, window: int, start: int)
    requires |moves| == |targets|
  {
    && (forall x :: x in snapshots ==> exists i :: 0 <= i < |targets| && x.targetId == targets[i].id)
    && (forall i :: 0 <= i < |targets| ==>
          ShowsTarget(snapshots, targets[i], TrackOf(tracks, targets[i].id), moves[i], window, start))
  }

  /** All targets have just been pruned. */
  ghost predicate AllPruned(targets: seq<Target>, tracks: map<string, Track>, moves: seq<seq<Move>>, window: int,
                            start: int)
  {
    |moves| == |targets| && forall i :: 0 <= i < |targets| ==> JustPruned(targets, tracks, moves, window, start, i)
  }

  ghost predicate JustPruned(targets: seq<Target>, tracks: map<string, Track>, moves: seq<seq<Move>>, window: int,
                             start: int, i: nat)
    requires |moves| == |targets| && i < |targets|
  {
    && moves[i] != [] && moves[i][|moves[i]| - 1] == Prune(start)
    && TrackOf(tracks, targets[i].id) == TallyRun(moves[i], window).track
  }

  ghost function AfterPrune(moves: seq<seq<Move>>, start: int): seq<seq<Move>> {
    seq(|moves|, i requires 0 <= i < |moves| => moves[i] + [Prune(start)])
  }

  lemma PrunedFollowAll(targets: seq<Target>, before: map<string, Track>, tracks: map<string, Track>,
                        moves: seq<seq<Move>>, window: int, start: int)
    requires |moves| == |targets|
    requires forall i :: 0 <= i < |targets| ==> TrackOf(before, targets[i].id) == TallyRun(moves[i], window).track
    requires forall i :: 0 <= i < |targets| ==>
      TrackOf(tracks, targets[i].id) == PruneTrack(TrackOf(before, targets[i].id), start, window)
    ensures AllPruned(targets, tracks, AfterPrune(moves, start), window, start)
  {
    forall i | 0 <= i < |targets| ensures JustPruned(targets, tracks, AfterPrune(moves, start), window, start, i) {
      PrunedFollows(TrackOf(before, targets[i].id), moves[i], window, start);
    }
  }

  lemma SnapshotsShowTargets(targets: seq<Target>, tracks: map<string, Track>, moves: seq<seq<Move>>, window: int,
                             start: int)
    requires DistinctTargets(targets) && AllPruned(targets, tracks, moves, window, start)
    ensures ShowsTargets(SnapshotsOf(targets, tracks, start), targets, tracks, moves, window, start)
  {
    forall x | x in SnapshotsOf(targets, tracks, start)
      ensures exists i :: 0 <= i < |targets| && x.targetId == targets[i].id
    {
      SnapshotMember(targets, tracks, start, x);
      var i :| 0 <= i < |targets| && IsSnapshotOf(targets, tracks, start, x, i);
    }
    forall i | 0 <= i < |targets|
      ensures ShowsTarget(SnapshotsOf(targets, tracks, start), targets[i], TrackOf(tracks, targets[i].id), moves[i],
                          window, start)
    {
      assert JustPruned(targets, tracks, moves, window, start, i);
      SnapshotsShowTarget(targets, tracks, i, moves[i], window, start);
    }
  }

  /** The first `k` targets have been pruned, the others not yet. */
  ghost predicate PrunedUpTo(targets: seq<Target>, k: nat, before: map<string, Track>, tracks: map<string, Track>,
                             start: int, window: int)
  {
    forall i :: 0 <= i < |targets| ==>
      TrackOf(tracks, targets[i].id)
        == if i < k then PruneTrack(TrackOf(before, targets[i].id), start, window) else TrackOf(before, targets[i].id)
  }

  lemma PruneNext(targets: seq<Target>, k: nat, before: map<string, Track>, tracks: map<string, Track>,
                  start: int, window: int)
    requires DistinctTargets(targets) && k < |targets| && PrunedUpTo(targets, k, before, tracks, start, window)
    ensures PrunedUpTo(targets, k + 1, before,
                       tracks[targets[k].id := PruneTrack(TrackOf(tracks, targets[k].id), start, window)],
                       start, window)
  {
    var next := tracks[targets[k].id := PruneTrack(TrackOf(tracks, targets[k].id), start, window)];
    forall i | 0 <= i < |targets| && i != k ensures TrackOf(next, targets[i].id) == TrackOf(tracks, targets[i].id) {
      assert targets[i].id != targets[k].id;
    }
  }

  class PortTrafficAggregator {
    const targets: seq<Target>
    const window: int
    var tracks: map<string, Track>
    ghost var moves: seq<seq<Move>>

    /** The track of every target is what its moves so far make of an empty one. */
    ghost predicate Valid()
      reads this
    {
      && DistinctTargets(targets)
      && |moves| == |targets|
      && forall i :: 0 <= i < |targets| ==> TrackOf(tracks, targets[i].id) == TallyRun(moves[i], window).track
    }

    constructor (targets: seq<Target>, window: int)
      requires DistinctTargets(targets)
      ensures Valid()
      ensures this.targets == targets && this.window == window && tracks == map[]
      ensures moves == seq(|targets|, _ => [])
    {
      this.targets, this.window, tracks := targets, window, map[];
      moves := seq(|targets|, _ => []);
    }

    /** Every matching target ingests the observation; the others keep their track. */
    method Ingest(o: Observation) returns (matched: set<string>)
      requires Valid()
      modifies this
      ensures Valid()
      ensures matched == MatchedIds(targets, o)
      ensures moves == Moved(targets, old(moves), o)
    {
      matched := IngestAll(o);
      forall i | 0 <= i < |targets|
        ensures TrackOf(tracks, targets[i].id) == TallyRun(moves[i] + MovesFor(targets[i], o), window).track
      {
        TargetFollows(targets[i], TrackOf(old(tracks), targets[i].id), moves[i], window, o);
      }
      moves := Moved(targets, moves, o);
    }

    method IngestAll(o: Observation) returns (matched: set<string>)
      requires DistinctTargets(targets)
      modifies this`tracks
      ensures matched == MatchedIds(targets, o)
      ensures forall i :: 0 <= i < |targets| ==>
        TrackOf(tracks, targets[i].id) == IngestTarget(targets[i], TrackOf(old(tracks), targets[i].id), o)
    {
      assert targets[..|targets|] == targets;
      matched := {};
      if !o.HasPosition() {
        return;
      }
      for k := 0 to |targets|
        invariant matched == MatchedIds(targets[..k], o)
        invariant forall i :: 0 <= i < k ==>
          TrackOf(tracks, targets[i].id) == IngestTarget(targets[i], TrackOf(old(tracks), targets[i].id), o)
        invariant forall i :: k <= i < |targets| ==>
          TrackOf(tracks, targets[i].id) == TrackOf(old(tracks), targets[i].id)
      {
        var target := targets[k];
        assert targets[..k + 1] == targets[..k] + [target];
        if target.subscription.Contains(o.position.latitude.value, o.position.longitude.value) {
          matched := matched + {target.id};
          tracks := tracks[target.id := IngestTarget(target, TrackOf(tracks, target.id), o)];
        }
      }
    }

    /** Prunes every target to the current window and counts what is left; silent targets give no snapshot. */
    method BuildSnapshots(now: int) returns (snapshots: seq<Snapshot>)
      requires Valid() && window > 0
      modifies this
      ensures Valid()
      ensures snapshots == SnapshotsOf(targets, tracks, WindowStart(now, window))
      ensures moves == AfterPrune(old(moves), WindowStart(now, window))
      ensures ShowsTargets(snapshots, targets, tracks, moves, window, WindowStart(now, window))
    {
      ghost var start := WindowStart(now, window);
      snapshots := PruneAll(WindowStart(now, window));
      PrunedFollowAll(targets, old(tracks), tracks, moves, window, start);
      moves := AfterPrune(moves, start);
      SnapshotsShowTargets(targets, tracks, moves, window, start);
      assert forall i :: 0 <= i < |targets| ==> JustPruned(targets, tracks, moves, window, start, i);
    }

    method PruneAll(start: int) returns (snapshots: seq<Snapshot>)
      requires DistinctTargets(targets)
      modifies this`tracks
      ensures snapshots == SnapshotsOf(targets, tracks, start)
      ensures forall i :: 0 <= i < |targets| ==>
        TrackOf(tracks, targets[i].id) == PruneTrack(TrackOf(old(tracks), targets[i].id), start, window)
    {
      snapshots := [];
      for k := 0 to |targets|
        invariant PrunedUpTo(targets, k, old(tracks), tracks, start, window)
        invariant snapshots == SnapshotsOf(targets[..k], tracks, start)
      {
        var id := targets[k].id;
        var pruned := PruneTrack(TrackOf(tracks, id), start, window);
        SnapshotsNext(targets, k, tracks, pruned, start);
        PruneNext(targets, k, old(tracks), tracks, start, window);
        tracks := tracks[id := pruned];
        if pruned.events != [] {
          snapshots := snapshots + [SnapshotOf(id, pruned, start)];
        }
      }
      assert targets[..|targets|] == targets;
    }
  }

  /** So what holds of every run holds of every target of the aggregator, whatever it has been through. */
  lemma TargetIsConserved(a: PortTrafficAggregator, i: nat, cutoff: int)
    requires a.Valid() && i < |a.targets| && NoCutoffAfter(a.moves[i], cutoff)
    ensures var (t, y) := (TrackOf(a.tracks, a.targets[i].id), TallyRun(a.moves[i], a.window));
      && t.latestInside.Keys == InsideSet(t.states)
      && |t.latestInside| + y.departed + y.prunedInside == y.firstInside + y.arrived
      && (forall mmsi :: mmsi in t.states ==> VesselOk(y, mmsi))
      && TrackHolds(t, LogOf(a.moves[i], a.window), cutoff)
  {
    RunKeepsTally(a.moves[i], a.window);
    RunHoldsRecent(a.moves[i], a.window, cutoff);
    var t := TrackOf(a.tracks, a.targets[i].id);
    assert |t.latestInside| == |t.latestInside.Keys|;
  }
}
