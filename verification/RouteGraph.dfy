/** Segments, their prices, and paths over them (app/route_optimizer.py). */
module RouteGraph {
  import opened Basics
  import opened Ordering

  datatype Objective = MinRisk | MinCost | Fastest | Balanced

  datatype Segment = Segment(
    segmentId: string,
    from: string,
    to: string,
    riskScore: Option<real>,
    completeness: Option<real>,
    costUsd: Option<real>,
    timeDays: Option<real>,
    costScore: Option<real>,
    zones: set<string>)

  /** What a search minimises: the objective and the share of risk in the balanced one. */
  datatype Pricing = Pricing(objective: Objective, riskWeight: real)

  type Path = seq<Segment>

  const UNKNOWN_RISK_PENALTY := 1.0
  const INCOMPLETENESS_PENALTY := 0.25
  const UNKNOWN_COST_PENALTY := 1000000000.0
  const UNKNOWN_DURATION_PENALTY := 1000000000.0
  const SMALLEST_PRICE := 0.000001

  function MinReal(a: real, b: real): real { if b < a then b else a }

  function MaxReal(a: real, b: real): real { if b > a then b else a }

  function RiskOptimizationValue(s: Segment): (r: real)
    ensures 0.0 <= r <= 1.0
    ensures s.riskScore == None ==> r == 1.0
    ensures s.riskScore.Some? ==> r >= MinReal(1.0, s.riskScore.value)
  {
    match s.riskScore
    case None => UNKNOWN_RISK_PENALTY
    case Some(risk) =>
      var completeness := MinReal(MaxReal(if s.completeness.Some? then s.completeness.value else 0.0, 0.0), 1.0);
      MinReal(1.0, MaxReal(risk, 0.0) + (1.0 - completeness) * INCOMPLETENESS_PENALTY)
  }

  function Weight(s: Segment, pricing: Pricing): real {
    var risk := RiskOptimizationValue(s);
    var cost := if s.costScore.Some? then s.costScore.value else 1.0;
    match pricing.objective
    case MinRisk => risk
    case MinCost => if s.costUsd.Some? then MaxReal(s.costUsd.value, SMALLEST_PRICE) else UNKNOWN_COST_PENALTY
    case Fastest => if s.timeDays.Some? then MaxReal(s.timeDays.value, SMALLEST_PRICE) else UNKNOWN_DURATION_PENALTY
    case Balanced => pricing.riskWeight * risk + (1.0 - pricing.riskWeight) * cost
  }

  /** Missing data adds up to a quarter to a known risk, in proportion, unless that exceeds the scale. */
  lemma MissingDataCosts(s: Segment, completeness: real)
    requires s.riskScore.Some? && 0.0 <= s.riskScore.value && 0.0 <= completeness <= 1.0
    requires s.completeness == Some(completeness) || (s.completeness == None && completeness == 0.0)
    ensures RiskOptimizationValue(s) == 1.0 || 4.0 * (RiskOptimizationValue(s) - s.riskScore.value) == 1.0 - completeness
    ensures 4.0 * s.riskScore.value + 1.0 - completeness <= 4.0 ==>
      4.0 * (RiskOptimizationValue(s) - s.riskScore.value) == 1.0 - completeness
  {
  }

  /** More risk or less complete data never makes a segment look safer. */
  lemma RiskValueIsMonotone(a: Segment, b: Segment)
    requires a.riskScore.Some? && (b.riskScore.Some? ==> a.riskScore.value <= b.riskScore.value)
    requires b.completeness.Some? ==> a.completeness.Some? && a.completeness.value >= b.completeness.value
    ensures RiskOptimizationValue(a) <= RiskOptimizationValue(b)
  {
  }

  /** The balanced weight moves from the cost score to the risk value as the risk share grows. */
  lemma BalancedWeightMixes(s: Segment, share: real)
    requires 0.0 <= share <= 1.0
    ensures var risk := Weight(s, Pricing(MinRisk, share));
      var cost := Weight(s, Pricing(Balanced, 0.0));
      && Weight(s, Pricing(Balanced, 1.0)) == risk
      && MinReal(risk, cost) <= Weight(s, Pricing(Balanced, share)) <= MaxReal(risk, cost)
  {
    MixLiesBetween(share, Weight(s, Pricing(MinRisk, share)), Weight(s, Pricing(Balanced, 0.0)));
  }

  lemma MixLiesBetween(share: real, a: real, b: real)
    requires 0.0 <= share <= 1.0
    ensures MinReal(a, b) <= share * a + (1.0 - share) * b <= MaxReal(a, b)
  {
    var mix := share * a + (1.0 - share) * b;
    assert mix == b + share * (a - b) && mix == a + (1.0 - share) * (b - a);
    if a <= b {
      ProductNonNegative(share, b - a);
      ProductNonNegative(1.0 - share, b - a);
    } else {
      ProductNonNegative(share, a - b);
      ProductNonNegative(1.0 - share, a - b);
    }
  }

  lemma ProductNonNegative(x: real, y: real)
    requires x >= 0.0 && y >= 0.0
    ensures x * y >= 0.0
  {
  }

  /** What makes every weight nonnegative: the API's bounds on the risk share and the cost score. */
  ghost predicate SoundPricing(pricing: Pricing, segments: seq<Segment>) {
    pricing.objective == Balanced ==>
      0.0 <= pricing.riskWeight <= 1.0 &&
      forall s :: s in segments && s.costScore.Some? ==> s.costScore.value >= 0.0
  }

  ghost predicate NonNegative(pricing: Pricing, segments: seq<Segment>) {
    forall s :: s in segments ==> Weight(s, pricing) >= 0.0
  }

  lemma WeightsAreNonNegative(pricing: Pricing, segments: seq<Segment>)
    requires SoundPricing(pricing, segments)
    ensures NonNegative(pricing, segments)
    ensures pricing.objective in {MinCost, Fastest} ==>
      forall s :: s in segments ==> Weight(s, pricing) > 0.0
  {
    forall s | s in segments ensures Weight(s, pricing) >= 0.0 {
      WeightIsNonNegative(s, pricing);
    }
  }

  lemma WeightIsNonNegative(s: Segment, pricing: Pricing)
    requires pricing.objective == Balanced ==> 0.0 <= pricing.riskWeight <= 1.0
    requires pricing.objective == Balanced && s.costScore.Some? ==> s.costScore.value >= 0.0
    ensures Weight(s, pricing) >= 0.0
  {
    var cost := if s.costScore.Some? then s.costScore.value else 1.0;
    if pricing.objective == Balanced {
      BlendNonNegative(pricing.riskWeight, RiskOptimizationValue(s), cost);
    }
  }

  lemma BlendNonNegative(share: real, a: real, b: real)
    requires 0.0 <= share <= 1.0 && a >= 0.0 && b >= 0.0
    ensures share * a + (1.0 - share) * b >= 0.0
  {
    var rest := 1.0 - share;
    assert share * a >= 0.0 && rest * b >= 0.0;
  }

  function PathCost(path: Path, pricing: Pricing): real {
    if path == [] then 0.0
    else PathCost(path[..|path| - 1], pricing) + Weight(path[|path| - 1], pricing)
  }

  /** The nodes a path visits, its origin first. */
  function Visited(origin: string, path: Path): (nodes: seq<string>)
    ensures |nodes| == |path| + 1
    ensures nodes[0] == origin
    ensures forall i :: 0 <= i < |path| ==> nodes[i + 1] == path[i].to
  {
    [origin] + seq(|path|, i requires 0 <= i < |path| => path[i].to)
  }

  /** Segments of the network that follow one another from `origin`. */
  ghost predicate Walk(segments: seq<Segment>, origin: string, path: Path) {
    forall i :: 0 <= i < |path| ==> path[i] in segments && path[i].from == Visited(origin, path)[i]
  }

  function End(origin: string, path: Path): string {
    if path == [] then origin else path[|path| - 1].to
  }

  function Signature(path: Path): (ids: seq<string>)
    ensures |ids| == |path|
    ensures forall i :: 0 <= i < |path| ==> ids[i] == path[i].segmentId
  {
    seq(|path|, i requires 0 <= i < |path| => path[i].segmentId)
  }

  lemma PathCostStep(path: Path, s: Segment, pricing: Pricing)
    ensures PathCost(path + [s], pricing) == PathCost(path, pricing) + Weight(s, pricing)
  {
    assert (path + [s])[..|path|] == path;
  }

  lemma {:induction false} PathCostAppend(p: Path, q: Path, pricing: Pricing)
    ensures PathCost(p + q, pricing) == PathCost(p, pricing) + PathCost(q, pricing)
  {
    if q == [] {
      assert p + q == p;
    } else {
      var n := |q| - 1;
      assert p + q == (p + q[..n]) + [q[n]];
      PathCostStep(p + q[..n], q[n], pricing);
      PathCostAppend(p, q[..n], pricing);
    }
  }

  lemma {:induction false} PathCostNonNegative(segments: seq<Segment>, path: Path, pricing: Pricing)
    requires NonNegative(pricing, segments)
    requires forall i :: 0 <= i < |path| ==> path[i] in segments
    ensures PathCost(path, pricing) >= 0.0
  {
    if path != [] {
      PathCostNonNegative(segments, path[..|path| - 1], pricing);
    }
  }

  /** With nonnegative weights, a prefix never costs more than the whole. */
  lemma PrefixCostsLess(segments: seq<Segment>, prefix: Path, path: Path, pricing: Pricing)
    requires NonNegative(pricing, segments)
    requires forall i :: 0 <= i < |path| ==> path[i] in segments
    requires prefix <= path
    ensures PathCost(prefix, pricing) <= PathCost(path, pricing)
  {
    var rest := path[|prefix|..];
    assert path == prefix + rest;
    PathCostAppend(prefix, rest, pricing);
    PathCostNonNegative(segments, rest, pricing);
  }

  lemma WalkStep(segments: seq<Segment>, origin: string, path: Path, s: Segment)
    requires Walk(segments, origin, path)
    requires s in segments && s.from == End(origin, path)
    ensures Walk(segments, origin, path + [s])
    ensures Visited(origin, path + [s]) == Visited(origin, path) + [s.to]
  {
    assert Visited(origin, path + [s]) == Visited(origin, path) + [s.to];
  }

  lemma WalkPrefix(segments: seq<Segment>, origin: string, prefix: Path, path: Path)
    requires Walk(segments, origin, path) && prefix <= path
    ensures Walk(segments, origin, prefix)
    ensures Visited(origin, prefix) <= Visited(origin, path)
    ensures End(origin, prefix) == Visited(origin, path)[|prefix|]
  {
    assert forall i :: 0 <= i <= |prefix| ==> Visited(origin, prefix)[i] == Visited(origin, path)[i];
    forall i | 0 <= i < |prefix| ensures prefix[i] in segments && prefix[i].from == Visited(origin, prefix)[i] {
      assert prefix[i] == path[i];
    }
  }

  /** The segment that follows a proper prefix of a simple walk leaves its end for a fresh node. */
  lemma SimpleWalkNext(segments: seq<Segment>, origin: string, prefix: Path, path: Path)
    requires Walk(segments, origin, path) && NoDuplicates(Visited(origin, path))
    requires prefix <= path && |prefix| < |path|
    ensures var s := path[|prefix|];
      s in segments && s.from == End(origin, prefix) && s.to !in Visited(origin, prefix) && prefix + [s] <= path
  {
    var n := |prefix|;
    WalkPrefix(segments, origin, prefix, path);
    assert path[n].to == Visited(origin, path)[n + 1];
    LaterIsFresh(Visited(origin, path), Visited(origin, prefix), n + 1);
    assert path[..n + 1] == prefix + [path[n]];
  }

  // ------------------------------------------------------------------ what paths cost, in the segments' own fields

  /** Sum of one field along a path. */
  function Total(path: Path, field: Segment -> real): real {
    if path == [] then 0.0 else Total(path[..|path| - 1], field) + field(path[|path| - 1])
  }

  function OrElse(value: Option<real>, otherwise: real): real { if value.Some? then value.value else otherwise }

  /** An unknown price counts as a billion. */
  function Dollars(s: Segment): real { OrElse(s.costUsd, 1000000000.0) }

  function Days(s: Segment): real { OrElse(s.timeDays, 1000000000.0) }

  /** An unknown risk counts as the worst. */
  function Risk(s: Segment): real { OrElse(s.riskScore, 1.0) }

  /** Risk and cost score blended by the share of risk; an unknown cost score counts as one. */
  function RiskAndCost(share: real): Segment -> real {
    s => share * Risk(s) + (1.0 - share) * OrElse(s.costScore, 1.0)
  }

  /** Every known price is at least the smallest that counts. */
  ghost predicate DollarsCount(path: Path) {
    forall s :: s in path && s.costUsd.Some? ==> s.costUsd.value >= 0.000001
  }

  ghost predicate DaysCount(path: Path) {
    forall s :: s in path && s.timeDays.Some? ==> s.timeDays.value >= 0.000001
  }

  ghost predicate DollarsKnown(path: Path) { forall s :: s in path ==> s.costUsd.Some? }

  ghost predicate DaysKnown(path: Path) { forall s :: s in path ==> s.timeDays.Some? }

  /** Risk scores stay within the scale; an unknown one counts as the worst. */
  ghost predicate RisksInScale(path: Path) {
    forall s :: s in path && s.riskScore.Some? ==> 0.0 <= s.riskScore.value <= 1.0
  }

  /** Moreover, each known risk score rests on complete data. */
  ghost predicate RisksComplete(path: Path) {
    RisksInScale(path) && forall s :: s in path && s.riskScore.Some? ==> s.completeness == Some(1.0)
  }

  /**
   * What it means for a search that one path is at least as good as another, said of the fields the
   * objective stands for. A path with an unknown price or duration is never preferred to one that
   * stays below a billion.
   */
  ghost predicate NoWorse(pricing: Pricing, a: Path, b: Path) {
    match pricing.objective
    case MinCost => DollarsCount(b) ==>
      && Total(a, Dollars) <= Total(b, Dollars)
      && (Total(b, Dollars) < 1000000000.0 ==> DollarsKnown(a))
    case Fastest => DaysCount(b) ==>
      && Total(a, Days) <= Total(b, Days)
      && (Total(b, Days) < 1000000000.0 ==> DaysKnown(a))
    case MinRisk => RisksInScale(a) && RisksComplete(b) ==> Total(a, Risk) <= Total(b, Risk)
    case Balanced => RisksInScale(a) && RisksComplete(b) && 0.0 <= pricing.riskWeight <= 1.0 ==>
      Total(a, RiskAndCost(pricing.riskWeight)) <= Total(b, RiskAndCost(pricing.riskWeight))
  }

  lemma {:induction false} TotalIsBelow(path: Path, pricing: Pricing, field: Segment -> real)
    requires forall s :: s in path ==> field(s) <= Weight(s, pricing)
    ensures Total(path, field) <= PathCost(path, pricing)
  {
    if path != [] {
      assert path[|path| - 1] in path;
      TotalIsBelow(path[..|path| - 1], pricing, field);
    }
  }

  lemma {:induction false} TotalIsCost(path: Path, pricing: Pricing, field: Segment -> real)
    requires forall s :: s in path ==> field(s) == Weight(s, pricing)
    ensures Total(path, field) == PathCost(path, pricing)
  {
    if path != [] {
      assert path[|path| - 1] in path;
      TotalIsCost(path[..|path| - 1], pricing, field);
    }
  }

  lemma {:induction false} OneWeightIsBelow(path: Path, pricing: Pricing, s: Segment)
    requires s in path && forall other :: other in path ==> Weight(other, pricing) >= 0.0
    ensures PathCost(path, pricing) >= Weight(s, pricing)
  {
    var n := |path| - 1;
    assert path[n] in path;
    if s in path[..n] {
      OneWeightIsBelow(path[..n], pricing, s);
    } else {
      PathCostNonNegative(path, path[..n], pricing);
    }
  }

  lemma LowestInDollars(a: Path, b: Path, share: real)
    requires PathCost(a, Pricing(MinCost, share)) <= PathCost(b, Pricing(MinCost, share))
    ensures NoWorse(Pricing(MinCost, share), a, b)
  {
    var pricing := Pricing(MinCost, share);
    TotalIsBelow(a, pricing, Dollars);
    if DollarsCount(b) { TotalIsCost(b, pricing, Dollars); }
    if s :| s in a && s.costUsd == None { OneWeightIsBelow(a, pricing, s); }
  }

  lemma LowestInDays(a: Path, b: Path, share: real)
    requires PathCost(a, Pricing(Fastest, share)) <= PathCost(b, Pricing(Fastest, share))
    ensures NoWorse(Pricing(Fastest, share), a, b)
  {
    var pricing := Pricing(Fastest, share);
    TotalIsBelow(a, pricing, Days);
    if DaysCount(b) { TotalIsCost(b, pricing, Days); }
    if s :| s in a && s.timeDays == None { OneWeightIsBelow(a, pricing, s); }
  }

  lemma LowestInRisk(a: Path, b: Path, share: real)
    requires PathCost(a, Pricing(MinRisk, share)) <= PathCost(b, Pricing(MinRisk, share))
    ensures NoWorse(Pricing(MinRisk, share), a, b)
  {
    var pricing := Pricing(MinRisk, share);
    if RisksInScale(a) && RisksComplete(b) {
      TotalIsBelow(a, pricing, Risk);
      TotalIsCost(b, pricing, Risk);
    }
  }

  lemma BlendIsBelow(s: Segment, share: real)
    requires s.riskScore.Some? ==> 0.0 <= s.riskScore.value <= 1.0
    requires share >= 0.0
    ensures RiskAndCost(share)(s) <= Weight(s, Pricing(Balanced, share))
  {
    ProductNonNegative(share, RiskOptimizationValue(s) - Risk(s));
  }

  lemma BlendIsWeight(s: Segment, share: real)
    requires s.riskScore.Some? ==> 0.0 <= s.riskScore.value <= 1.0 && s.completeness == Some(1.0)
    ensures RiskAndCost(share)(s) == Weight(s, Pricing(Balanced, share))
  {
    assert RiskOptimizationValue(s) == Risk(s);
  }

  lemma BlendTotalIsBelow(path: Path, share: real)
    requires RisksInScale(path) && share >= 0.0
    ensures Total(path, RiskAndCost(share)) <= PathCost(path, Pricing(Balanced, share))
  {
    forall s | s in path ensures RiskAndCost(share)(s) <= Weight(s, Pricing(Balanced, share)) {
      BlendIsBelow(s, share);
    }
    TotalIsBelow(path, Pricing(Balanced, share), RiskAndCost(share));
  }

  lemma BlendTotalIsCost(path: Path, share: real)
    requires RisksComplete(path)
    ensures Total(path, RiskAndCost(share)) == PathCost(path, Pricing(Balanced, share))
  {
    forall s | s in path ensures RiskAndCost(share)(s) == Weight(s, Pricing(Balanced, share)) {
      BlendIsWeight(s, share);
    }
    TotalIsCost(path, Pricing(Balanced, share), RiskAndCost(share));
  }

  lemma LowestInBlend(a: Path, b: Path, share: real)
    requires PathCost(a, Pricing(Balanced, share)) <= PathCost(b, Pricing(Balanced, share))
    ensures NoWorse(Pricing(Balanced, share), a, b)
  {
    if RisksInScale(a) && RisksComplete(b) && 0.0 <= share <= 1.0 {
      BlendTotalIsBelow(a, share);
      BlendTotalIsCost(b, share);
    }
  }

  /** A lower cost is a lower sum of the very field the objective names. */
  lemma CheaperIsNoWorse(pricing: Pricing, a: Path, b: Path)
    requires PathCost(a, pricing) <= PathCost(b, pricing)
    ensures NoWorse(pricing, a, b)
  {
    match pricing.objective
    case MinRisk => LowestInRisk(a, b, pricing.riskWeight);
    case MinCost => LowestInDollars(a, b, pricing.riskWeight);
    case Fastest => LowestInDays(a, b, pricing.riskWeight);
    case Balanced => LowestInBlend(a, b, pricing.riskWeight);
  }

  // ------------------------------------------------------------------ adjacency

  /** The key (segment id, target) under which outgoing segments are sorted. */
  predicate SegmentLe(a: Segment, b: Segment) {
    if a.segmentId == b.segmentId then StrLe(a.to, b.to) else StrLe(a.segmentId, b.segmentId)
  }

  lemma SegmentLeOrder()
    ensures Preorder(SegmentLe)
  {
    StrLeOrder();
  }

  type Adjacency = map<string, seq<Segment>>

  function Leaving(segments: seq<Segment>, node: string): seq<Segment> {
    Filter(segments, (s: Segment) => s.from == node)
  }

  lemma LeavingSnoc(segments: seq<Segment>, s: Segment, node: string)
    ensures Leaving(segments + [s], node)
         == if s.from == node then Leaving(segments, node) + [s] else Leaving(segments, node)
  {
    FilterSnoc(segments, s, (s: Segment) => s.from == node);
  }

  function Outgoing(segments: seq<Segment>, node: string): seq<Segment> {
    Sort(Leaving(segments, node), SegmentLe)
  }

  function Origins(segments: seq<Segment>): set<string> { set s | s in segments :: s.from }

  /** The dictionary of outgoing segments of a network, as a value. */
  ghost function AdjacencyOf(segments: seq<Segment>): Adjacency {
    map node | node in Origins(segments) :: Outgoing(segments, node)
  }

  function Lookup(adjacency: Adjacency, node: string): seq<Segment> {
    if node in adjacency then adjacency[node] else []
  }

  lemma LookupContents(segments: seq<Segment>, node: string)
    ensures forall s :: s in Lookup(AdjacencyOf(segments), node) <==> s in segments && s.from == node
  {
    SortContents(Leaving(segments, node), SegmentLe);
  }

  /** With distinct segment ids, the dictionary does not depend on the order of the segments. */
  lemma AdjacencyForgetsOrder(segments: seq<Segment>, permuted: seq<Segment>)
    requires multiset(segments) == multiset(permuted)
    requires forall a, b :: a in segments && b in segments && a.segmentId == b.segmentId ==> a == b
    ensures AdjacencyOf(segments) == AdjacencyOf(permuted)
  {
    MultisetSeqMember(segments, permuted);
    SegmentLeOrder();
    StrLeOrder();
    forall node ensures Outgoing(segments, node) == Outgoing(permuted, node) {
      FilterSameMultiset(segments, permuted, (s: Segment) => s.from == node);
      assert Separates(SegmentLe, Leaving(segments, node));
      SortForgetsOrder(Leaving(segments, node), Leaving(permuted, node), SegmentLe);
    }
  }

  /** The lists so far hold each segment under its origin, in order. */
  ghost predicate ListsOk(segments: seq<Segment>, lists: Adjacency) {
    && lists.Keys == Origins(segments)
    && (forall node :: node in lists ==> lists[node] == Leaving(segments, node))
  }

  lemma NobodyLeaves(segments: seq<Segment>, node: string)
    requires forall s :: s in segments ==> s.from != node
    ensures Leaving(segments, node) == []
  {
    if segments != [] { NobodyLeaves(segments[1..], node); }
  }

  lemma ListsGrow(segments: seq<Segment>, s: Segment, lists: Adjacency)
    requires ListsOk(segments, lists)
    ensures ListsOk(segments + [s], lists[s.from := Lookup(lists, s.from) + [s]])
  {
    var next := lists[s.from := Lookup(lists, s.from) + [s]];
    assert s in segments + [s];
    forall node | node in next ensures next[node] == Leaving(segments + [s], node) {
      LeavingSnoc(segments, s, node);
      if node !in lists { NobodyLeaves(segments, node); }
    }
    assert Origins(segments + [s]) == Origins(segments) + {s.from};
  }

  lemma SortedListsAreAdjacency(segments: seq<Segment>, lists: Adjacency)
    requires ListsOk(segments, lists)
    ensures (map node | node in lists :: Sort(lists[node], SegmentLe)) == AdjacencyOf(segments)
  {
    forall node | node in lists ensures Sort(lists[node], SegmentLe) == AdjacencyOf(segments)[node] {}
  }

  /** Builds the dictionary by appending each segment under its origin, then sorts every list. */
  method BuildAdjacency(segments: seq<Segment>) returns (adjacency: Adjacency)
    ensures adjacency == AdjacencyOf(segments)
  {
    var lists: Adjacency := map[];
    for i := 0 to |segments|
      invariant ListsOk(segments[..i], lists)
    {
      var segment := segments[i];
      TakeOneMore(segments, i);
      ListsGrow(segments[..i], segment, lists);
      lists := lists[segment.from := Lookup(lists, segment.from) + [segment]];
    }
    assert segments[..|segments|] == segments;
    SortedListsAreAdjacency(segments, lists);
    adjacency := map node | node in lists :: Sort(lists[node], SegmentLe);
  }
}
