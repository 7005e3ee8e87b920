/** Pooling candidates, rerouting around risk, filtering and ranking (app/recommendation/engine.py). */
module Recommendations {
  import opened Basics
  import opened Ordering
  import opened RouteGraph
  import opened KShortestPaths
  import opened RouteScoring

  datatype Strategy = Plain(objective: Objective) | Custom

  datatype Settings = Settings(
    scoring: ScoringSettings,
    riskThreshold: real,
    perObjectiveLimit: int,
    maximumPoolSize: int)

  /** A validated request, its resolved weights, and what building a route looks up. */
  datatype Task = Task(
    origins: set<string>,
    destinations: set<string>,
    strategy: Strategy,
    weights: Weights,
    quantity: Quantity,
    constraints: Constraints,
    limit: nat,
    autoReroute: bool,
    settings: Settings,
    estimate: Path -> Estimates,
    routeId: seq<string> -> string)

  datatype Rejection = Rejection(routeId: string, reasons: seq<Failure>)

  datatype Recommendation = Recommendation(
    networkPathFound: bool,
    candidateCount: nat,
    eligibleCount: nat,
    rejected: seq<Rejection>,
    routes: seq<Route>,
    rerouted: bool,
    fallbackUsed: bool)

  datatype Error = InvertedAnchors

  const REJECTIONS_SHOWN := 50

  function Prefix<T>(xs: seq<T>, n: nat): (r: seq<T>)
    ensures r <= xs && |r| == if n < |xs| then n else |xs|
  {
    if n < |xs| then xs[..n] else xs
  }

  // ------------------------------------------------------------------ the pool of candidates

  function Primary(strategy: Strategy): Objective {
    if strategy.Custom? then Balanced else strategy.objective
  }

  /** The primary objective first, then the others in their fixed order. */
  function Objectives(strategy: Strategy): (objectives: seq<Objective>)
    ensures |objectives| == 4 && objectives[0] == Primary(strategy) && NoDuplicates(objectives)
  {
    match Primary(strategy)
    case MinRisk => [MinRisk, MinCost, Fastest, Balanced]
    case MinCost => [MinCost, MinRisk, Fastest, Balanced]
    case Fastest => [Fastest, MinRisk, MinCost, Balanced]
    case Balanced => [Balanced, MinRisk, MinCost, Fastest]
  }

  ghost function Turn(o: Objective): int {
    match o case MinRisk => 1 case MinCost => 2 case Fastest => 3 case Balanced => 4
  }

  /** After the primary one the others take their turns: risk, cost, duration, then the balance. */
  lemma ObjectivesTakeTurns(strategy: Strategy, i: nat, j: nat)
    requires 1 <= i < j < 4
    ensures Turn(Objectives(strategy)[i]) < Turn(Objectives(strategy)[j])
  {
  }

  lemma EveryObjectiveIsTried(strategy: Strategy, o: Objective)
    ensures o in Objectives(strategy)
  {
    var all := Objectives(strategy);
    assert all[0] in all && all[1] in all && all[2] in all && all[3] in all;
  }

  function RiskShare(w: Weights): (share: real)
    ensures NonNegativeWeights(w) ==> 0.0 <= share <= 1.0
    ensures if w.risk + w.cost == 0.0 then share == 0.5 else share * (w.risk + w.cost) == w.risk
  {
    if w.risk + w.cost == 0.0 then 0.5
    else
      assert NonNegativeWeights(w) ==> 0.0 <= w.risk / (w.risk + w.cost) <= 1.0 by {
        if NonNegativeWeights(w) { ShareOfSpan(w.risk, w.risk + w.cost); }
      }
      w.risk / (w.risk + w.cost)
  }

  function QueryFor(t: Task, objective: Objective): Query {
    Query(t.origins, t.destinations, Pricing(objective, RiskShare(t.weights)),
          Max(t.limit * 3, t.settings.perObjectiveLimit), t.constraints.maxHops)
  }

  /** Each search looks for three times the routes asked for, and for no fewer than configured. */
  lemma QueryTells(t: Task, o: Objective)
    ensures var q := QueryFor(t, o);
      && q.origins == t.origins && q.destinations == t.destinations
      && q.maxHops == t.constraints.maxHops && q.pricing == Pricing(o, RiskShare(t.weights))
      && q.limit >= t.limit + t.limit + t.limit && q.limit >= t.settings.perObjectiveLimit
      && q.limit in {t.limit + t.limit + t.limit, t.settings.perObjectiveLimit}
  {
  }

  /** What one search finds. */
  ghost function SearchBy(t: Task, segments: seq<Segment>): Objective -> seq<Path> {
    o => Enumeration(QueryFor(t, o), segments).paths
  }

  ghost function Found(t: Task, segments: seq<Segment>, objectives: seq<Objective>): seq<Path> {
    FlatMap(objectives, SearchBy(t, segments))
  }

  ghost predicate Holds(paths: seq<Path>, signature: seq<string>) {
    exists i :: 0 <= i < |paths| && Signature(paths[i]) == signature
  }

  /** The first path of every signature, in order. */
  ghost function Distinct(paths: seq<Path>): seq<Path> {
    if paths == [] then []
    else
      var (rest, last) := (Distinct(paths[..|paths| - 1]), paths[|paths| - 1]);
      if Holds(rest, Signature(last)) then rest else rest + [last]
  }

  ghost function Candidates(t: Task, segments: seq<Segment>): seq<Path> {
    Prefix(Distinct(Found(t, segments, Objectives(t.strategy))), Max(t.settings.maximumPoolSize, 1))
  }

  lemma DistinctSnoc(paths: seq<Path>, p: Path)
    ensures Distinct(paths + [p])
         == if Holds(Distinct(paths), Signature(p)) then Distinct(paths) else Distinct(paths) + [p]
  {
    assert (paths + [p])[..|paths|] == paths;
  }

  lemma {:induction false} DistinctGrows(paths: seq<Path>, more: seq<Path>)
    ensures Distinct(paths) <= Distinct(paths + more)
  {
    if more == [] {
      assert paths + more == paths;
    } else {
      var n := |more| - 1;
      assert paths + more == (paths + more[..n]) + [more[n]];
      DistinctSnoc(paths + more[..n], more[n]);
      DistinctGrows(paths, more[..n]);
    }
  }

  /** Dropping repeated signatures keeps one path of each, and no two of the same. */
  lemma {:induction false} DistinctContents(paths: seq<Path>)
    ensures forall p :: p in Distinct(paths) ==> p in paths
    ensures forall p :: p in paths ==> Holds(Distinct(paths), Signature(p))
    ensures forall i, j :: 0 <= i < j < |Distinct(paths)| ==>
      Signature(Distinct(paths)[i]) != Signature(Distinct(paths)[j])
  {
    if paths != [] {
      var n := |paths| - 1;
      var rest := Distinct(paths[..n]);
      DistinctContents(paths[..n]);
      assert paths == paths[..n] + [paths[n]];
      forall p | p in paths ensures Holds(Distinct(paths), Signature(p)) {
        if p in paths[..n] {
          var i :| 0 <= i < |rest| && Signature(rest[i]) == Signature(p);
          assert Distinct(paths)[i] == rest[i];
        } else if !Holds(rest, Signature(p)) {
          assert Distinct(paths)[|rest|] == p;
        }
      }
    }
  }

  /** What every objective calls admissible: the query without its price and its limit. */
  ghost predicate Travels(t: Task, segments: seq<Segment>, p: Path) {
    Admissible(QueryFor(t, MinRisk), segments, p)
  }

  /** Candidates are admissible paths of the network, all of different signatures, at most a pool full. */
  lemma CandidatesAreAdmissible(t: Task, segments: seq<Segment>)
    ensures var pool := Candidates(t, segments);
      && (forall p :: p in pool ==> Travels(t, segments, p))
      && (forall i, j :: 0 <= i < j < |pool| ==> Signature(pool[i]) != Signature(pool[j]))
      && |pool| <= Max(t.settings.maximumPoolSize, 1)
  {
    var found := Found(t, segments, Objectives(t.strategy));
    DistinctContents(found);
    forall p | p in Candidates(t, segments) ensures Travels(t, segments, p) {
      assert p in Distinct(found);
      FlatMapMember(Objectives(t.strategy), SearchBy(t, segments), p);
      var o :| o in Objectives(t.strategy) && p in SearchBy(t, segments)(o);
      ReturnedPathsAreAdmissible(QueryFor(t, o), segments);
    }
  }

  lemma DistinctKeepsHead(paths: seq<Path>)
    requires paths != []
    ensures Distinct(paths) != [] && Distinct(paths)[0] == paths[0]
  {
    assert [paths[0]][..0] == [];
    assert Distinct([paths[0]]) == [paths[0]];
    assert paths == [paths[0]] + paths[1..];
    DistinctGrows([paths[0]], paths[1..]);
  }

  /** What the preparation of segments promises about the cost score. */
  ghost predicate Priced(segments: seq<Segment>) {
    forall s :: s in segments && s.costScore.Some? ==> s.costScore.value >= 0.0
  }

  /** The first candidate is a cheapest path for the request's own objective. */
  lemma FirstCandidateIsBest(t: Task, segments: seq<Segment>)
    requires NonNegativeWeights(t.weights) && Priced(segments)
    requires Enumeration(QueryFor(t, Primary(t.strategy)), segments).paths != []
    ensures var pool := Candidates(t, segments);
      pool != [] && forall p :: Travels(t, segments, p) ==>
        PathCost(pool[0], QueryFor(t, Primary(t.strategy)).pricing)
          <= PathCost(p, QueryFor(t, Primary(t.strategy)).pricing)
  {
    var q := QueryFor(t, Primary(t.strategy));
    var best := Enumeration(q, segments).paths;
    WeightsAreNonNegative(q.pricing, segments);
    DistinctKeepsHead(Found(t, segments, Objectives(t.strategy)));
    forall p: Path | Travels(t, segments, p) ensures PathCost(best[0], q.pricing) <= PathCost(p, q.pricing) {
      assert Admissible(q, segments, p);
      FirstPathIsCheapest(q, segments, p);
    }
  }

  /** In the fields the strategy stands for; a custom strategy weighs risk against cost as its weights do. */
  lemma FirstCandidateIsBestInFields(t: Task, segments: seq<Segment>, p: Path)
    requires NonNegativeWeights(t.weights) && Priced(segments)
    requires Enumeration(QueryFor(t, Primary(t.strategy)), segments).paths != [] && Travels(t, segments, p)
    ensures Candidates(t, segments) != []
    ensures var (first, share) := (Candidates(t, segments)[0], RiskShare(t.weights));
      match t.strategy
      case Plain(objective) => NoWorse(Pricing(objective, share), first, p)
      case Custom => NoWorse(Pricing(Balanced, share), first, p)
  {
    FirstCandidateIsBest(t, segments);
    CheaperIsNoWorse(Pricing(Primary(t.strategy), RiskShare(t.weights)), Candidates(t, segments)[0], p);
  }

  /** Paths whose search was not cut short, by the limit or by the cap. */
  ghost predicate Uncut(q: Query, segments: seq<Segment>) {
    var end := Enumeration(q, segments);
    |end.paths| < q.limit && end.expansions < EXPANSION_CAP
  }

  /** A pool that is not full, with one search not cut short, knows every admissible path by its signature. */
  lemma UncutPoolIsExhaustive(t: Task, segments: seq<Segment>, o: Objective)
    requires NonNegativeWeights(t.weights) && Priced(segments)
    requires |Candidates(t, segments)| < t.settings.maximumPoolSize
    requires Uncut(QueryFor(t, o), segments)
    ensures forall p :: Travels(t, segments, p) ==> Holds(Candidates(t, segments), Signature(p))
  {
    var q := QueryFor(t, o);
    var found := Found(t, segments, Objectives(t.strategy));
    WeightsAreNonNegative(q.pricing, segments);
    UncutSearchIsExhaustive(q, segments);
    DistinctContents(found);
    EveryObjectiveIsTried(t.strategy, o);
    assert Candidates(t, segments) == Distinct(found);
    forall p: Path | Travels(t, segments, p) ensures Holds(Distinct(found), Signature(p)) {
      assert Admissible(q, segments, p);
      var paths := Enumeration(q, segments).paths;
      assert Reported(paths, p, q.pricing);
      var i :| 0 <= i < |paths| && Signature(paths[i]) == Signature(p);
      assert paths[i] in SearchBy(t, segments)(o);
      FlatMapMember(Objectives(t.strategy), SearchBy(t, segments), paths[i]);
    }
  }

  lemma FoundForgetsOrder(t: Task, segments: seq<Segment>, permuted: seq<Segment>, objectives: seq<Objective>)
    requires multiset(segments) == multiset(permuted)
    requires forall a, b :: a in segments && b in segments && a.segmentId == b.segmentId ==> a == b
    ensures Found(t, segments, objectives) == Found(t, permuted, objectives)
  {
    forall o: Objective ensures SearchBy(t, segments)(o) == SearchBy(t, permuted)(o) {
      EnumerationForgetsOrder(QueryFor(t, o), segments, permuted);
    }
    FlatMapSame(objectives, SearchBy(t, segments), SearchBy(t, permuted));
  }

  /** Without segments there is nothing to enumerate, so the early return is no special case. */
  lemma NoSegmentsNoCandidates(t: Task)
    ensures Candidates(t, []) == []
  {
    CandidatesAreAdmissible(t, []);
    var pool := Candidates(t, []);
    assert pool != [] ==> pool[0] in pool;
    forall p: Path ensures !Travels(t, [], p) {
      var none: seq<Segment> := [];
      assert p != [] ==> p[0] !in none;
    }
  }

  lemma PrefixOfGrown<T>(xs: seq<T>, ys: seq<T>, n: nat)
    requires xs <= ys && |xs| >= n
    ensures Prefix(xs, n) == Prefix(ys, n)
  {
  }

  /** A full pool stays as it is, whatever the remaining searches find. */
  lemma PoolIsFull(t: Task, segments: seq<Segment>, objectives: seq<Objective>, i: nat)
    requires objectives == Objectives(t.strategy) && i <= |objectives|
    requires |Distinct(Found(t, segments, objectives[..i]))| >= Max(t.settings.maximumPoolSize, 1)
    ensures Candidates(t, segments)
         == Prefix(Distinct(Found(t, segments, objectives[..i])), Max(t.settings.maximumPoolSize, 1))
  {
    FlatMapAppend(objectives[..i], objectives[i..], SearchBy(t, segments));
    assert objectives == objectives[..i] + objectives[i..];
    DistinctGrows(Found(t, segments, objectives[..i]), Found(t, segments, objectives[i..]));
    PrefixOfGrown(Distinct(Found(t, segments, objectives[..i])), Distinct(Found(t, segments, objectives)),
                  Max(t.settings.maximumPoolSize, 1));
  }

  lemma NextPath(seen: seq<Path>, found: seq<Path>, j: nat, paths: seq<Path>, signatures: set<seq<string>>)
    requires j < |found| && paths == Distinct(seen + found[..j]) && Indexed(paths, signatures)
    ensures Signature(found[j]) in signatures ==> Distinct(seen + found[..j + 1]) == paths
    ensures Signature(found[j]) !in signatures ==>
      && Distinct(seen + found[..j + 1]) == paths + [found[j]]
      && Indexed(paths + [found[j]], signatures + {Signature(found[j])})
  {
    assert seen + found[..j + 1] == (seen + found[..j]) + [found[j]];
    DistinctSnoc(seen + found[..j], found[j]);
    if Signature(found[j]) !in signatures { IndexedSnoc(paths, signatures, found[j]); }
  }

  lemma PoolOverflows(maximum: int, seen: seq<Path>, found: seq<Path>, j: nat)
    requires j <= |found| && |Distinct(seen + found[..j])| == Max(maximum, 1)
    ensures Prefix(Distinct(seen + found), Max(maximum, 1)) == Distinct(seen + found[..j])
  {
    assert seen + found == (seen + found[..j]) + found[j..];
    DistinctGrows(seen + found[..j], found[j..]);
    PrefixOfGrown(Distinct(seen + found[..j]), Distinct(seen + found), Max(maximum, 1));
  }

  /** The inner loop: adds the paths of new signatures until the pool is full. */
  method AddPaths(maximum: int, found: seq<Path>, ghost seen: seq<Path>, pool: seq<Path>, known: set<seq<string>>)
    returns (paths: seq<Path>, signatures: set<seq<string>>, full: bool)
    requires pool == Distinct(seen) && Indexed(pool, known) && |pool| < Max(maximum, 1)
    ensures paths == Prefix(Distinct(seen + found), Max(maximum, 1))
    ensures full ==> |paths| == Max(maximum, 1)
    ensures !full ==> |paths| < Max(maximum, 1) && Indexed(paths, signatures)
  {
    paths, signatures := pool, known;
    assert seen + found[..0] == seen;
    for j := 0 to |found|
      invariant paths == Distinct(seen + found[..j])
      invariant Indexed(paths, signatures)
      invariant |paths| < Max(maximum, 1)
    {
      var path := found[j];
      NextPath(seen, found, j, paths, signatures);
      if Signature(path) !in signatures {
        signatures := signatures + {Signature(path)};
        paths := paths + [path];
        if |paths| >= maximum {
          PoolOverflows(maximum, seen, found, j + 1);
          return paths, signatures, true;
        }
      }
    }
    assert found[..|found|] == found;
    full := false;
  }

  method CandidatePaths(t: Task, segments: seq<Segment>) returns (paths: seq<Path>)
    ensures paths == Candidates(t, segments)
  {
    if segments == [] {
      NoSegmentsNoCandidates(t);
      return [];
    }
    var objectives := Objectives(t.strategy);
    paths := [];
    var signatures: set<seq<string>> := {};
    for i := 0 to |objectives|
      invariant paths == Distinct(Found(t, segments, objectives[..i]))
      invariant Indexed(paths, signatures)
      invariant |paths| < Max(t.settings.maximumPoolSize, 1)
    {
      var found, _ := Enumerate(QueryFor(t, objectives[i]), segments);
      FlatMapNext(objectives, i, SearchBy(t, segments));
      var full: bool;
      paths, signatures, full := AddPaths(t.settings.maximumPoolSize, found, Found(t, segments, objectives[..i]),
                                          paths, signatures);
      if full {
        PoolIsFull(t, segments, objectives, i + 1);
        return;
      }
    }
    assert objectives[..|objectives|] == objectives;
  }

  // ------------------------------------------------------------------ rerouting

  predicate HighRisk(s: Segment, threshold: real) {
    s.riskScore.Some? && s.riskScore.value >= threshold
  }

  function HighRiskIds(segments: seq<Segment>, threshold: real): set<string> {
    set s | s in segments && HighRisk(s, threshold) :: s.segmentId
  }

  function AllowedSegments(t: Task, segments: seq<Segment>): seq<Segment> {
    if t.constraints.avoidedZones == {} then segments
    else Filter(segments, (s: Segment) => t.constraints.avoidedZones !! s.zones)
  }

  function SafeSegments(t: Task, allowed: seq<Segment>): seq<Segment> {
    var risky := HighRiskIds(allowed, t.settings.riskThreshold);
    Filter(allowed, (s: Segment) => s.segmentId !in risky)
  }

  lemma AllowedContents(t: Task, segments: seq<Segment>)
    ensures forall s :: s in AllowedSegments(t, segments) <==>
      s in segments && forall zone :: zone in s.zones ==> zone !in t.constraints.avoidedZones
  {
  }

  /** Safe are the segments whose id no segment of known risk at or above the threshold shares. */
  lemma SafeContents(t: Task, allowed: seq<Segment>)
    ensures forall s :: s in SafeSegments(t, allowed) <==>
      s in allowed && !exists other :: RiskyTwin(t, allowed, s, other)
  {
    var risky := HighRiskIds(allowed, t.settings.riskThreshold);
    forall s: Segment ensures s.segmentId in risky <==> exists other :: RiskyTwin(t, allowed, s, other) {
      if s.segmentId in risky {
        var other :| other in allowed && HighRisk(other, t.settings.riskThreshold) && other.segmentId == s.segmentId;
        assert RiskyTwin(t, allowed, s, other);
      }
    }
  }

  ghost predicate RiskyTwin(t: Task, allowed: seq<Segment>, s: Segment, other: Segment) {
    && other in allowed && other.segmentId == s.segmentId
    && other.riskScore.Some? && other.riskScore.value >= t.settings.riskThreshold
  }

  /** What is known once the candidates are chosen. */
  datatype Routing = Routing(
    baseline: seq<Path>,
    rerouteRequested: bool,
    fallbackUsed: bool,
    candidates: seq<Path>)

  predicate RerouteRequested(t: Task, baseline: seq<Path>) {
    t.autoReroute && baseline != [] && HighRiskIds(baseline[0], t.settings.riskThreshold) != {}
  }

  ghost function RoutingOf(t: Task, segments: seq<Segment>): Routing {
    var allowed := AllowedSegments(t, segments);
    var baseline := Candidates(t, allowed);
    var requested := RerouteRequested(t, baseline);
    var safe := if requested then Candidates(t, SafeSegments(t, allowed)) else baseline;
    var fallback := requested && safe == [] && baseline != [];
    Routing(baseline, requested, fallback, if fallback then baseline else safe)
  }

  method ChooseCandidates(t: Task, segments: seq<Segment>) returns (routing: Routing)
    ensures routing == RoutingOf(t, segments)
  {
    var allowed := AllowedSegments(t, segments);
    var baseline := CandidatePaths(t, allowed);
    var requested := RerouteRequested(t, baseline);
    var safe := baseline;
    if requested {
      safe := CandidatePaths(t, SafeSegments(t, allowed));
    }
    var fallback := requested && safe == [] && baseline != [];
    routing := Routing(baseline, requested, fallback, if fallback then baseline else safe);
  }

  lemma TravelsWithin(t: Task, segments: seq<Segment>, p: Path)
    requires Travels(t, segments, p)
    ensures forall s :: s in p ==> s in segments
  {
  }

  /** With or without a reroute, every candidate stays on segments outside the avoided zones. */
  lemma CandidatesAvoidZones(t: Task, segments: seq<Segment>)
    ensures forall p, s :: p in RoutingOf(t, segments).candidates && s in p ==>
      s in segments && t.constraints.avoidedZones !! s.zones
  {
    var allowed := AllowedSegments(t, segments);
    CandidatesAreAdmissible(t, allowed);
    CandidatesAreAdmissible(t, SafeSegments(t, allowed));
    forall p, s | p in RoutingOf(t, segments).candidates && s in p ensures s in allowed {
      if p in Candidates(t, allowed) {
        TravelsWithin(t, allowed, p);
      } else {
        TravelsWithin(t, SafeSegments(t, allowed), p);
      }
    }
  }

  /** A reroute that found anything leads over no segment at or above the threshold. */
  lemma RerouteAvoidsRisk(t: Task, segments: seq<Segment>)
    requires RoutingOf(t, segments).rerouteRequested && !RoutingOf(t, segments).fallbackUsed
    ensures forall p, s :: p in RoutingOf(t, segments).candidates && s in p ==>
      !HighRisk(s, t.settings.riskThreshold)
    ensures forall p :: p in RoutingOf(t, segments).candidates ==>
      Signature(p) != Signature(RoutingOf(t, segments).baseline[0])
  {
    var allowed := AllowedSegments(t, segments);
    var safe := SafeSegments(t, allowed);
    var first := RoutingOf(t, segments).baseline[0];
    var threshold := t.settings.riskThreshold;
    CandidatesAreAdmissible(t, allowed);
    CandidatesAreAdmissible(t, safe);
    TravelsWithin(t, allowed, first);
    var risky :| risky in first && HighRisk(risky, threshold);
    forall p | p in RoutingOf(t, segments).candidates
      ensures Signature(p) != Signature(first)
      ensures forall s :: s in p ==> !HighRisk(s, threshold)
    {
      TravelsWithin(t, safe, p);
      assert forall s :: s in p ==> s.segmentId !in HighRiskIds(allowed, threshold);
      SharedSignatureSharesIds(p, first, risky);
    }
  }

  lemma SharedSignatureSharesIds(p: Path, q: Path, s: Segment)
    requires s in q
    ensures Signature(p) == Signature(q) ==> exists r :: r in p && r.segmentId == s.segmentId
  {
    var i :| 0 <= i < |q| && q[i] == s;
    if Signature(p) == Signature(q) {
      assert Signature(p)[i] == Signature(q)[i];
      assert p[i] in p;
    }
  }

  /** Falling back to the baseline never changes whether anything was found. */
  lemma CandidatesEmptyIffBaselineEmpty(t: Task, segments: seq<Segment>)
    ensures RoutingOf(t, segments).candidates == [] <==> RoutingOf(t, segments).baseline == []
  {
  }

  /**
   * The baseline is used despite its risk only when it must be: if one of the safe searches was not
   * cut short, every admissible path outside the avoided zones has a segment whose id is high-risk.
   */
  lemma FallbackIsLastResort(t: Task, segments: seq<Segment>, o: Objective)
    requires NonNegativeWeights(t.weights) && Priced(segments)
    requires RoutingOf(t, segments).fallbackUsed
    requires t.settings.maximumPoolSize > 0
    requires Uncut(QueryFor(t, o), SafeSegments(t, AllowedSegments(t, segments)))
    ensures forall p: Path :: Travels(t, AllowedSegments(t, segments), p) ==>
      exists s: Segment :: s in p && s.segmentId in HighRiskIds(AllowedSegments(t, segments), t.settings.riskThreshold)
  {
    var allowed := AllowedSegments(t, segments);
    var safe := SafeSegments(t, allowed);
    UncutPoolIsExhaustive(t, safe, o);
    forall p: Path ensures !Travels(t, safe, p) {
      assert !Holds([], Signature(p));
    }
    forall p: Path | Travels(t, allowed, p)
      ensures exists s: Segment :: s in p && s.segmentId in HighRiskIds(allowed, t.settings.riskThreshold)
    {
      TravelsSafely(t, allowed, p);
    }
  }

  lemma TravelsSafely(t: Task, allowed: seq<Segment>, p: Path)
    requires Travels(t, allowed, p)
    requires !Travels(t, SafeSegments(t, allowed), p)
    ensures exists s: Segment :: s in p && s.segmentId in HighRiskIds(allowed, t.settings.riskThreshold)
  {
    TravelsWithin(t, allowed, p);
    var i :| 0 <= i < |p| && p[i] !in SafeSegments(t, allowed);
    assert p[i] in p;
  }

  // ------------------------------------------------------------------ filtering and ranking

  predicate AllScorable(t: Task, paths: seq<Path>) {
    forall p :: p in paths ==> Scorable(t.estimate(p), t.settings.scoring)
  }

  function BuildRoute(t: Task, p: Path): (r: Route)
    requires Scorable(t.estimate(p), t.settings.scoring)
  {
    Route(t.routeId(Signature(p)), Signature(p), p, t.estimate(p),
          ScoreOf(t.estimate(p), t.quantity, t.weights, t.settings.scoring))
  }

  function BuildRoutes(t: Task, paths: seq<Path>): (routes: seq<Route>)
    requires AllScorable(t, paths)
    ensures |routes| == |paths|
    ensures forall i :: 0 <= i < |paths| ==> routes[i] == BuildRoute(t, paths[i])
  {
    seq(|paths|, i requires 0 <= i < |paths| => BuildRoute(t, paths[i]))
  }

  function Eligible(c: Constraints): Route -> bool { r => Failures(r, c) == [] }

  function Ineligible(c: Constraints): Route -> bool { r => Failures(r, c) != [] }

  function Rejections(rejected: seq<Route>, c: Constraints): (r: seq<Rejection>)
    ensures |r| == |rejected|
    ensures forall i :: 0 <= i < |r| ==> r[i] == Rejection(rejected[i].id, Failures(rejected[i], c))
  {
    seq(|rejected|, i requires 0 <= i < |rejected| => Rejection(rejected[i].id, Failures(rejected[i], c)))
  }

  function RiskFirstReroute(routing: Routing): bool { routing.rerouteRequested && !routing.fallbackUsed }

  function Ranked(t: Task, routes: seq<Route>, riskFirst: bool): seq<Route> {
    Sort(Filter(routes, Eligible(t.constraints)), RankingOrder(riskFirst))
  }

  /** What is made of the candidates. */
  function Selection(t: Task, routing: Routing): Recommendation
    requires AllScorable(t, routing.candidates)
  {
    var routes := BuildRoutes(t, routing.candidates);
    var ranked := Ranked(t, routes, RiskFirstReroute(routing));
    var rejected := Rejections(Filter(routes, Ineligible(t.constraints)), t.constraints);
    Recommendation(routing.baseline != [], |routing.candidates|, |ranked|, Prefix(rejected, REJECTIONS_SHOWN),
                   Prefix(ranked, t.limit), RiskFirstReroute(routing) && Prefix(ranked, t.limit) != [],
                   routing.fallbackUsed)
  }

  ghost function Recommended(t: Task, segments: seq<Segment>): Result<Recommendation, Error> {
    var routing := RoutingOf(t, segments);
    if AllScorable(t, routing.candidates) then Ok(Selection(t, routing)) else Err(InvertedAnchors)
  }

  /** Every scored route lands on exactly one of the two lists. */
  lemma SplitIsExact(routes: seq<Route>, c: Constraints)
    ensures multiset(routes) == multiset(Filter(routes, Eligible(c))) + multiset(Filter(routes, Ineligible(c)))
    ensures |routes| == |Filter(routes, Eligible(c))| + |Filter(routes, Ineligible(c))|
  {
    FilterPartitions(routes, Eligible(c), Ineligible(c));
  }

  lemma SplitSnoc(routes: seq<Route>, r: Route, c: Constraints)
    ensures Filter(routes + [r], Eligible(c))
         == if Failures(r, c) == [] then Filter(routes, Eligible(c)) + [r] else Filter(routes, Eligible(c))
    ensures Rejections(Filter(routes + [r], Ineligible(c)), c)
         == if Failures(r, c) == [] then Rejections(Filter(routes, Ineligible(c)), c)
            else Rejections(Filter(routes, Ineligible(c)), c) + [Rejection(r.id, Failures(r, c))]
  {
    FilterSnoc(routes, r, Eligible(c));
    RejectionsSnoc(routes, r, c);
  }

  lemma RejectionsSnoc(routes: seq<Route>, r: Route, c: Constraints)
    ensures Rejections(Filter(routes + [r], Ineligible(c)), c)
         == if Failures(r, c) == [] then Rejections(Filter(routes, Ineligible(c)), c)
            else Rejections(Filter(routes, Ineligible(c)), c) + [Rejection(r.id, Failures(r, c))]
  {
    FilterSnoc(routes, r, Ineligible(c));
    RejectionsAppend(Filter(routes, Ineligible(c)), r, c);
  }

  lemma RejectionsAppend(rejected: seq<Route>, r: Route, c: Constraints)
    ensures Rejections(rejected + [r], c) == Rejections(rejected, c) + [Rejection(r.id, Failures(r, c))]
  {
  }

  method SplitRoutes(routes: seq<Route>, c: Constraints) returns (eligible: seq<Route>, rejected: seq<Rejection>)
    ensures eligible == Filter(routes, Eligible(c))
    ensures rejected == Rejections(Filter(routes, Ineligible(c)), c)
  {
    eligible, rejected := [], [];
    for i := 0 to |routes|
      invariant eligible == Filter(routes[..i], Eligible(c))
      invariant rejected == Rejections(Filter(routes[..i], Ineligible(c)), c)
    {
      var route := routes[i];
      var reasons := Failures(route, c);
      TakeOneMore(routes, i);
      SplitSnoc(routes[..i], route, c);
      if reasons != [] {
        rejected := rejected + [Rejection(route.id, reasons)];
      } else {
        eligible := eligible + [route];
      }
    }
    assert routes[..|routes|] == routes;
  }

  /** The program's own test, signatures compared and all. */
  predicate Rerouted(t: Task, routing: Routing, selected: seq<Route>) {
    var baselineSignature := if routing.baseline != [] then Signature(routing.baseline[0]) else [];
    var selectedSignature := if selected != [] then selected[0].segmentIds else [];
    && selected != []
    && t.autoReroute
    && (routing.baseline != [] && HighRiskIds(routing.baseline[0], t.settings.riskThreshold) != {})
    && !routing.fallbackUsed
    && baselineSignature != selectedSignature
  }

  /** It amounts to this: a reroute without fallback selected a route. */
  lemma ReroutedIff(t: Task, segments: seq<Segment>, selected: seq<Route>)
    requires AllScorable(t, RoutingOf(t, segments).candidates)
    requires selected <=
      Ranked(t, BuildRoutes(t, RoutingOf(t, segments).candidates), RiskFirstReroute(RoutingOf(t, segments)))
    ensures Rerouted(t, RoutingOf(t, segments), selected)
      <==> RiskFirstReroute(RoutingOf(t, segments)) && selected != []
  {
    var routing := RoutingOf(t, segments);
    if RiskFirstReroute(routing) && selected != [] {
      var ranked := Ranked(t, BuildRoutes(t, routing.candidates), true);
      assert selected[0] == ranked[0] && ranked[0] in ranked;
      RankedComesFromPool(t, routing.candidates, selected[0], true);
      RerouteAvoidsRisk(t, segments);
    }
  }

  method Recommend(t: Task, segments: seq<Segment>) returns (result: Result<Recommendation, Error>)
    ensures result == Recommended(t, segments)
  {
    var routing := ChooseCandidates(t, segments);
    if routing.candidates == [] {
      return Ok(Recommendation(routing.baseline != [], 0, 0, [], [], false, routing.fallbackUsed));
    }
    if !AllScorable(t, routing.candidates) {
      return Err(InvertedAnchors);
    }
    var recommendation := Select(t, routing, BuildRoutes(t, routing.candidates));
    ReroutedIff(t, segments, recommendation.routes);
    result := Ok(recommendation);
  }

  method Select(t: Task, routing: Routing, routes: seq<Route>) returns (r: Recommendation)
    requires AllScorable(t, routing.candidates) && routes == BuildRoutes(t, routing.candidates)
    requires routing.baseline != []
    ensures r == Selection(t, routing).(rerouted := Rerouted(t, routing, r.routes))
    ensures r.routes <= Ranked(t, routes, RiskFirstReroute(routing))
  {
    var eligible, rejected := SplitRoutes(routes, t.constraints);
    var riskFirst := routing.rerouteRequested && !routing.fallbackUsed;
    SortContents(eligible, RankingOrder(riskFirst));
    var selected := Prefix(Sort(eligible, RankingOrder(riskFirst)), t.limit);
    r := Recommendation(true, |routing.candidates|, |eligible|, Prefix(rejected, REJECTIONS_SHOWN), selected,
                        Rerouted(t, routing, selected), routing.fallbackUsed);
  }

  lemma RankedIsEligible(t: Task, routes: seq<Route>, r: Route, riskFirst: bool)
    requires r in Ranked(t, routes, riskFirst)
    ensures r in routes && Satisfies(r, t.constraints)
  {
    SortContents(Filter(routes, Eligible(t.constraints)), RankingOrder(riskFirst));
  }

  lemma RankedComesFromPool(t: Task, pool: seq<Path>, r: Route, riskFirst: bool)
    requires AllScorable(t, pool) && r in Ranked(t, BuildRoutes(t, pool), riskFirst)
    ensures r.path in pool && r == BuildRoute(t, r.path)
    ensures Satisfies(r, t.constraints)
  {
    var routes := BuildRoutes(t, pool);
    RankedIsEligible(t, routes, r, riskFirst);
    var i :| 0 <= i < |routes| && routes[i] == r;
    assert r == BuildRoute(t, pool[i]);
  }

  // ------------------------------------------------------------------ main results

  /** What is returned: satisfying routes of admissible paths outside the avoided zones, at most `limit`. */
  lemma RecommendedRoutesAreSound(t: Task, segments: seq<Segment>)
    requires Recommended(t, segments).Ok?
    ensures var r := Recommended(t, segments).value;
      && |r.routes| == (if r.eligibleCount < t.limit then r.eligibleCount else t.limit)
      && (forall route :: route in r.routes ==> SoundRoute(t, segments, route))
  {
    var ranked := Ranked(t, BuildRoutes(t, RoutingOf(t, segments).candidates),
                         RiskFirstReroute(RoutingOf(t, segments)));
    forall route | route in Recommended(t, segments).value.routes ensures SoundRoute(t, segments, route) {
      assert route in ranked;
      RankedComesFromPool(t, RoutingOf(t, segments).candidates, route, RiskFirstReroute(RoutingOf(t, segments)));
      CandidatesAvoidZones(t, segments);
      CandidatesTravel(t, segments, route.path);
      TravelsLeadThrough(t, AllowedSegments(t, segments), route.path);
    }
  }

  ghost predicate SoundRoute(t: Task, segments: seq<Segment>, route: Route) {
    && Travels(t, AllowedSegments(t, segments), route.path)
    && (forall s :: s in route.path ==> s in segments && t.constraints.avoidedZones !! s.zones)
    && LeadsThrough(t, route.path)
    && |route.segmentIds| == |route.path|
    && (forall i :: 0 <= i < |route.path| ==> route.segmentIds[i] == route.path[i].segmentId)
    && route.id == t.routeId(route.segmentIds)
    && route.estimates == t.estimate(route.path)
    && Satisfies(route, t.constraints)
  }

  /** From one of the origins to one of the destinations, by at most so many hops. */
  ghost predicate LeadsThrough(t: Task, path: Path) {
    && path != [] && |path| <= t.constraints.maxHops
    && path[0].from in t.origins && path[|path| - 1].to in t.destinations
    && (forall i :: 0 <= i < |path| - 1 ==> path[i].to == path[i + 1].from && path[i].to !in t.destinations)
  }

  lemma TravelsLeadThrough(t: Task, segments: seq<Segment>, p: Path)
    requires Travels(t, segments, p)
    ensures LeadsThrough(t, p)
  {
    forall i | 0 <= i < |p| - 1 ensures p[i].to == p[i + 1].from {
      assert p[i + 1].from == Visited(p[0].from, p)[i + 1];
    }
  }

  lemma CandidatesTravel(t: Task, segments: seq<Segment>, p: Path)
    requires p in RoutingOf(t, segments).candidates
    ensures Travels(t, AllowedSegments(t, segments), p)
  {
    var allowed := AllowedSegments(t, segments);
    CandidatesAreAdmissible(t, allowed);
    if p !in Candidates(t, allowed) {
      CandidatesAreAdmissible(t, SafeSegments(t, allowed));
      TravelsWider(t, SafeSegments(t, allowed), allowed, p);
    }
  }

  lemma TravelsWider(t: Task, segments: seq<Segment>, more: seq<Segment>, p: Path)
    requires Travels(t, segments, p) && forall s :: s in segments ==> s in more
    ensures Travels(t, more, p)
  {
  }

  /** The routes come in the order of the key, and no eligible candidate left out ranks before one of them. */
  lemma RecommendedRoutesAreTheBest(t: Task, segments: seq<Segment>)
    requires Recommended(t, segments).Ok?
    ensures var routes := Recommended(t, segments).value.routes;
      var order := RankingOrder(RiskFirstReroute(RoutingOf(t, segments)));
      Sorted(routes, order) && LeavesNoBetter(t, RoutingOf(t, segments).candidates, routes, order)
  {
    SelectionIsTheBest(t, RoutingOf(t, segments));
  }

  /** A candidate whose route satisfies the constraints and is not returned. */
  ghost predicate LeftOut(t: Task, segments: seq<Segment>, p: Path)
    requires Recommended(t, segments).Ok?
  {
    && p in RoutingOf(t, segments).candidates
    && Satisfies(BuildRoute(t, p), t.constraints)
    && BuildRoute(t, p) !in Recommended(t, segments).value.routes
  }

  /**
   * Read off the routes' own fields: returned routes come in the right order, and a satisfying
   * candidate left out stands in the right order behind each of them. A recommendation that rerouted
   * goes by risk first, any other by final score first.
   */
  lemma RecommendedRoutesAreRight(t: Task, segments: seq<Segment>)
    requires Recommended(t, segments).Ok?
    ensures var r := Recommended(t, segments).value;
      && (forall i, j :: 0 <= i < j < |r.routes| ==> RightOrder(r.rerouted, r.routes[i], r.routes[j]))
      && (forall p, route :: LeftOut(t, segments, p) && route in r.routes ==>
            RightOrder(r.rerouted, route, BuildRoute(t, p)))
  {
    RecommendedRoutesAreTheBest(t, segments);
    RerouteIsSound(t, segments);
    var r := Recommended(t, segments).value;
    var riskFirst := RiskFirstReroute(RoutingOf(t, segments));
    forall i, j | 0 <= i < j < |r.routes| ensures RightOrder(r.rerouted, r.routes[i], r.routes[j]) {
      RankingIsRight(riskFirst, r.routes[i], r.routes[j]);
    }
    forall p, route | LeftOut(t, segments, p) && route in r.routes
      ensures RightOrder(r.rerouted, route, BuildRoute(t, p))
    {
      RankingIsRight(riskFirst, route, BuildRoute(t, p));
    }
  }

  /** Each satisfying candidate is selected, or ranks behind all that are. */
  ghost predicate LeavesNoBetter(t: Task, pool: seq<Path>, selected: seq<Route>, order: (Route, Route) -> bool)
    requires AllScorable(t, pool)
  {
    forall p :: p in pool && Satisfies(BuildRoute(t, p), t.constraints) ==>
      BuildRoute(t, p) in selected || forall r :: r in selected ==> order(r, BuildRoute(t, p))
  }

  lemma SelectionIsTheBest(t: Task, routing: Routing)
    requires AllScorable(t, routing.candidates)
    ensures var order := RankingOrder(RiskFirstReroute(routing));
      Sorted(Selection(t, routing).routes, order)
      && LeavesNoBetter(t, routing.candidates, Selection(t, routing).routes, order)
  {
    var riskFirst := RiskFirstReroute(routing);
    var ranked := Ranked(t, BuildRoutes(t, routing.candidates), riskFirst);
    RankedIsSorted(t, BuildRoutes(t, routing.candidates), riskFirst);
    forall p | p in routing.candidates && Satisfies(BuildRoute(t, p), t.constraints)
      ensures BuildRoute(t, p) in ranked
    {
      EligibleIsRanked(t, routing.candidates, p, riskFirst);
    }
    PrefixIsLeast(ranked, t.limit, RankingOrder(riskFirst));
  }

  lemma RankedIsSorted(t: Task, routes: seq<Route>, riskFirst: bool)
    ensures Sorted(Ranked(t, routes, riskFirst), RankingOrder(riskFirst))
  {
    RankingIsAnOrder(riskFirst);
    SortSorted(Filter(routes, Eligible(t.constraints)), RankingOrder(riskFirst));
  }

  lemma EligibleIsRanked(t: Task, pool: seq<Path>, p: Path, riskFirst: bool)
    requires AllScorable(t, pool) && p in pool && Satisfies(BuildRoute(t, p), t.constraints)
    ensures BuildRoute(t, p) in Ranked(t, BuildRoutes(t, pool), riskFirst)
  {
    var built := BuildRoutes(t, pool);
    var i :| 0 <= i < |pool| && pool[i] == p;
    assert built[i] in built;
    SortContents(Filter(built, Eligible(t.constraints)), RankingOrder(riskFirst));
  }

  lemma PrefixIsLeast<T(!new)>(xs: seq<T>, n: nat, le: (T, T) -> bool)
    requires Sorted(xs, le)
    ensures Sorted(Prefix(xs, n), le)
    ensures forall x :: x in xs ==> x in Prefix(xs, n) || forall y :: y in Prefix(xs, n) ==> le(y, x)
  {
    assert forall k :: 0 <= k < |Prefix(xs, n)| ==> Prefix(xs, n)[k] == xs[k] && xs[k] in Prefix(xs, n);
    forall x, y | x in xs && x !in Prefix(xs, n) && y in Prefix(xs, n) ensures le(y, x) {
      var j :| 0 <= j < |Prefix(xs, n)| && Prefix(xs, n)[j] == y;
      var i :| 0 <= i < |xs| && xs[i] == x;
    }
  }

  ghost predicate IdsTellApart(t: Task, paths: seq<Path>) {
    forall p, q :: p in paths && q in paths && t.routeId(Signature(p)) == t.routeId(Signature(q)) ==>
      Signature(p) == Signature(q)
  }

  /** With route ids that tell the candidates apart, no two candidates tie under either key. */
  lemma RankingIsStrict(t: Task, segments: seq<Segment>, riskFirst: bool)
    requires AllScorable(t, RoutingOf(t, segments).candidates)
    requires IdsTellApart(t, RoutingOf(t, segments).candidates)
    ensures Separates(RankingOrder(riskFirst), BuildRoutes(t, RoutingOf(t, segments).candidates))
  {
    var allowed := AllowedSegments(t, segments);
    CandidatesAreAdmissible(t, allowed);
    CandidatesAreAdmissible(t, SafeSegments(t, allowed));
    BuiltRoutesDiffer(t, RoutingOf(t, segments).candidates, riskFirst);
  }

  lemma BuiltRoutesDiffer(t: Task, pool: seq<Path>, riskFirst: bool)
    requires AllScorable(t, pool) && IdsTellApart(t, pool)
    requires forall i, j :: 0 <= i < j < |pool| ==> Signature(pool[i]) != Signature(pool[j])
    ensures Separates(RankingOrder(riskFirst), BuildRoutes(t, pool))
  {
    var routes := BuildRoutes(t, pool);
    forall a, b | a in routes && b in routes && Ranking(riskFirst, a, b) && Ranking(riskFirst, b, a) ensures a == b {
      RankingIsAnOrder(riskFirst);
      SameRoute(t, pool, a, b);
    }
  }

  lemma SameRoute(t: Task, pool: seq<Path>, a: Route, b: Route)
    requires AllScorable(t, pool) && IdsTellApart(t, pool)
    requires forall i, j :: 0 <= i < j < |pool| ==> Signature(pool[i]) != Signature(pool[j])
    requires a in BuildRoutes(t, pool) && b in BuildRoutes(t, pool) && a.id == b.id
    ensures a == b
  {
    var i :| 0 <= i < |pool| && BuildRoutes(t, pool)[i] == a;
    var j :| 0 <= j < |pool| && BuildRoutes(t, pool)[j] == b;
    assert pool[i] in pool && pool[j] in pool;
    assert Signature(pool[i]) == Signature(pool[j]);
  }

  /** Nothing is lost between the lists; only the printed rejections are cut at fifty. */
  lemma CountsAddUp(t: Task, segments: seq<Segment>)
    requires Recommended(t, segments).Ok?
    ensures Counted(Recommended(t, segments).value)
    ensures Recommended(t, segments).value.networkPathFound <==> Recommended(t, segments).value.candidateCount > 0
  {
    SelectionCounts(t, RoutingOf(t, segments));
  }

  ghost predicate Counted(r: Recommendation) {
    var refused := r.candidateCount - r.eligibleCount;
    && refused >= 0
    && |r.rejected| == (if refused < 50 then refused else 50)
    && forall x :: x in r.rejected ==> x.reasons != []
  }

  lemma SelectionCounts(t: Task, routing: Routing)
    requires AllScorable(t, routing.candidates)
    ensures Counted(Selection(t, routing))
  {
    var built := BuildRoutes(t, routing.candidates);
    SplitIsExact(built, t.constraints);
    SortContents(Filter(built, Eligible(t.constraints)), RankingOrder(RiskFirstReroute(routing)));
    RejectionsHaveReasons(built, t.constraints);
  }

  lemma RejectionsHaveReasons(routes: seq<Route>, c: Constraints)
    ensures forall x :: x in Rejections(Filter(routes, Ineligible(c)), c) ==> x.reasons != []
  {
    var refused := Filter(routes, Ineligible(c));
    assert forall i :: 0 <= i < |refused| ==> refused[i] in refused;
  }

  /** A segment of the preferred baseline path whose known risk reaches the threshold. */
  ghost predicate RiskyInBaseline(t: Task, segments: seq<Segment>, s: Segment) {
    var baseline := RoutingOf(t, segments).baseline;
    baseline != [] && s in baseline[0] && s.riskScore.Some? && s.riskScore.value >= t.settings.riskThreshold
  }

  lemma RequestedIffRisky(t: Task, segments: seq<Segment>)
    ensures RoutingOf(t, segments).rerouteRequested <==>
      t.autoReroute && exists s :: RiskyInBaseline(t, segments, s)
  {
    var (baseline, threshold) := (RoutingOf(t, segments).baseline, t.settings.riskThreshold);
    if s :| RiskyInBaseline(t, segments, s) { assert s.segmentId in HighRiskIds(baseline[0], threshold); }
    if baseline != [] && HighRiskIds(baseline[0], threshold) != {} {
      var id :| id in HighRiskIds(baseline[0], threshold);
      var s :| s in baseline[0] && HighRisk(s, threshold) && s.segmentId == id;
      assert RiskyInBaseline(t, segments, s);
    }
  }

  /**
   * Rerouting is sound: when one is requested and no fallback was needed, no returned route has a
   * segment at or above the threshold, and "rerouted" says exactly that some route is returned.
   */
  lemma RerouteIsSound(t: Task, segments: seq<Segment>)
    requires Recommended(t, segments).Ok?
    ensures var (r, routing) := (Recommended(t, segments).value, RoutingOf(t, segments));
      && (r.rerouted <==> routing.rerouteRequested && !r.fallbackUsed && r.routes != [])
      && (routing.rerouteRequested && !r.fallbackUsed ==>
            (forall route, s :: route in r.routes && s in route.path && s.riskScore.Some? ==>
               s.riskScore.value < t.settings.riskThreshold) &&
            (forall route :: route in r.routes ==> route.segmentIds != Signature(routing.baseline[0])))
    ensures RoutingOf(t, segments).rerouteRequested <==>
      t.autoReroute && exists s :: RiskyInBaseline(t, segments, s)
  {
    RequestedIffRisky(t, segments);
    var routing := RoutingOf(t, segments);
    var ranked := Ranked(t, BuildRoutes(t, routing.candidates), RiskFirstReroute(routing));
    if routing.rerouteRequested && !routing.fallbackUsed {
      RerouteAvoidsRisk(t, segments);
      forall route | route in Recommended(t, segments).value.routes
        ensures route.path in routing.candidates && route.segmentIds == Signature(route.path)
      {
        assert route in ranked;
        RankedComesFromPool(t, RoutingOf(t, segments).candidates, route, RiskFirstReroute(RoutingOf(t, segments)));
      }
    }
  }

  /** With distinct segment ids, the recommendation does not depend on the order of the segments. */
  lemma RecommendationForgetsOrder(t: Task, segments: seq<Segment>, permuted: seq<Segment>)
    requires multiset(segments) == multiset(permuted)
    requires forall a, b :: a in segments && b in segments && a.segmentId == b.segmentId ==> a == b
    ensures Recommended(t, segments) == Recommended(t, permuted)
  {
    var (allowed, allowedToo) := (AllowedSegments(t, segments), AllowedSegments(t, permuted));
    FilterSameMultiset(segments, permuted, (s: Segment) => t.constraints.avoidedZones !! s.zones);
    CandidatesForgetOrder(t, allowed, allowedToo);
    SafeForgetsOrder(t, allowed, allowedToo);
    CandidatesForgetOrder(t, SafeSegments(t, allowed), SafeSegments(t, allowedToo));
  }

  lemma SafeForgetsOrder(t: Task, segments: seq<Segment>, permuted: seq<Segment>)
    requires multiset(segments) == multiset(permuted)
    ensures multiset(SafeSegments(t, segments)) == multiset(SafeSegments(t, permuted))
  {
    var risky := HighRiskIds(segments, t.settings.riskThreshold);
    MultisetSeqMember(segments, permuted);
    assert risky == HighRiskIds(permuted, t.settings.riskThreshold);
    FilterSameMultiset(segments, permuted, (s: Segment) => s.segmentId !in risky);
  }

  lemma CandidatesForgetOrder(t: Task, segments: seq<Segment>, permuted: seq<Segment>)
    requires multiset(segments) == multiset(permuted)
    requires forall a, b :: a in segments && b in segments && a.segmentId == b.segmentId ==> a == b
    ensures Candidates(t, segments) == Candidates(t, permuted)
  {
    FoundForgetsOrder(t, segments, permuted, Objectives(t.strategy));
  }
}
