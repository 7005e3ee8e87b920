/** Scores, hard constraints and ranking keys of one route (app/recommendation/engine.py). */
module RouteScoring {
  import opened Basics
  import opened Ordering
  import opened RouteGraph

  /** The fixed anchors of one measure. */
  datatype Bounds = Bounds(best: real, worst: real)

  datatype Weights = Weights(risk: real, cost: real, duration: real)

  datatype ScoringSettings = ScoringSettings(risk: Bounds, cost: Bounds, duration: Bounds, penaltyWeight: real)

  type Quantity = n: int | n >= 1 witness 1

  /** What the estimators say about a route. An absent confidence is zero. */
  datatype Estimates = Estimates(
    modes: set<string>,
    riskScore: Option<real>,
    riskCompleteness: real,
    cost: Option<real>,
    costConfidence: real,
    durationP50: Option<real>,
    durationP90: Option<real>,
    durationConfidence: real)

  datatype Score = Score(final: real, penalty: real, completeness: real)

  datatype Route = Route(id: string, segmentIds: seq<string>, path: Path, estimates: Estimates, score: Score)

  function Bounded(value: real, minimum: real, maximum: real): real {
    MinReal(MaxReal(value, minimum), maximum)
  }

  // ------------------------------------------------------------------ utilities

  predicate Inverted(bounds: Bounds) { bounds.worst <= bounds.best }

  /** Position of a value between its anchors: 100 at the best, 0 at the worst. */
  function UtilityScore(value: real, bounds: Bounds): (utility: real)
    requires !Inverted(bounds)
    ensures 0.0 <= utility <= 100.0
    ensures value <= bounds.best <==> utility == 100.0
    ensures value >= bounds.worst <==> utility == 0.0
    ensures bounds.best <= value <= bounds.worst ==>
      utility * (bounds.worst - bounds.best) == 100.0 * (bounds.worst - value)
  {
    var clipped := Bounded(value, bounds.best, bounds.worst);
    ShareOfSpan(bounds.worst - clipped, bounds.worst - bounds.best);
    (bounds.worst - clipped) / (bounds.worst - bounds.best) * 100.0
  }

  lemma ShareOfSpan(part: real, span: real)
    requires 0.0 <= part <= span && span > 0.0
    ensures 0.0 <= part / span <= 1.0
    ensures part / span == 0.0 <==> part == 0.0
    ensures part / span == 1.0 <==> part == span
  {
    var share := part / span;
    assert share * span == part;
    assert share < 0.0 ==> share * span < 0.0;
    assert share > 1.0 ==> share * span > span;
  }

  lemma ShareGrows(part: real, more: real, span: real)
    requires part <= more && span > 0.0
    ensures part / span <= more / span
  {
    assert part / span * span == part && more / span * span == more;
  }

  /** A smaller value never has the lower utility. */
  lemma UtilityIsAntitone(smaller: real, larger: real, bounds: Bounds)
    requires !Inverted(bounds) && smaller <= larger
    ensures UtilityScore(smaller, bounds) >= UtilityScore(larger, bounds)
  {
    ShareGrows(bounds.worst - Bounded(larger, bounds.best, bounds.worst),
               bounds.worst - Bounded(smaller, bounds.best, bounds.worst),
               bounds.worst - bounds.best);
  }

  /** The cost score the search blends with risk: what is missing of a full utility. */
  function PenaltyScore(value: Option<real>, bounds: Bounds): (penalty: real)
    requires value.Some? ==> !Inverted(bounds)
    ensures 0.0 <= penalty <= 1.0
    ensures value == None ==> penalty == 1.0
    ensures value.Some? ==> 100.0 * (1.0 - penalty) == UtilityScore(value.value, bounds)
  {
    1.0 - Utility(value, bounds) / 100.0
  }

  /** The utility a route is credited with; an unknown value earns none. */
  function Utility(value: Option<real>, bounds: Bounds): (utility: real)
    requires value.Some? ==> !Inverted(bounds)
    ensures 0.0 <= utility <= 100.0
  {
    if value.Some? then UtilityScore(value.value, bounds) else 0.0
  }

  function Confidence(value: Option<real>, reported: real): (c: real)
    ensures 0.0 <= c <= 1.0
  {
    if value.Some? then Bounded(reported, 0.0, 1.0) else 0.0
  }

  // ------------------------------------------------------------------ the score

  function PerVehicle(cost: Option<real>, quantity: Quantity): Option<real> {
    if cost.Some? then Some(cost.value / quantity as real) else None
  }

  /** Scoring raises an error exactly when a known value meets inverted anchors. */
  predicate Scorable(e: Estimates, settings: ScoringSettings) {
    && (e.riskScore.Some? ==> !Inverted(settings.risk))
    && (e.cost.Some? ==> !Inverted(settings.cost))
    && (e.durationP50.Some? ==> !Inverted(settings.duration))
  }

  /** One number for each measure: risk, cost and duration. */
  type Triple = (real, real, real)

  function Utilities(e: Estimates, quantity: Quantity, settings: ScoringSettings): Triple
    requires Scorable(e, settings)
  {
    (Utility(e.riskScore, settings.risk), Utility(PerVehicle(e.cost, quantity), settings.cost),
     Utility(e.durationP50, settings.duration))
  }

  function Confidences(e: Estimates): Triple {
    (Confidence(e.riskScore, e.riskCompleteness), Confidence(e.cost, e.costConfidence),
     Confidence(e.durationP50, e.durationConfidence))
  }

  function Doubts(confidences: Triple): Triple {
    (1.0 - confidences.0, 1.0 - confidences.1, 1.0 - confidences.2)
  }

  function Blend(w: Weights, t: Triple): real {
    w.risk * t.0 + w.cost * t.1 + w.duration * t.2
  }

  function Penalty(weight: real, doubt: real): real { 100.0 * weight * doubt }

  function Final(base: real, penalty: real): real { Bounded(base - penalty, 0.0, 100.0) }

  lemma PenaltyGrows(weight: real, less: real, more: real)
    requires weight >= 0.0 && less <= more
    ensures Penalty(weight, less) <= Penalty(weight, more)
  {
    ProductGrows(100.0 * weight, less, more);
  }

  lemma FinalGrows(base: real, penalty: real, lower: real, higher: real)
    requires base >= lower && penalty <= higher
    ensures Final(base, penalty) >= Final(lower, higher)
  {
  }

  /** Weighted utilities, less what uncertainty costs, kept within the scale. */
  function ScoreFrom(utilities: Triple, confidences: Triple, w: Weights, penaltyWeight: real): (score: Score)
    ensures 0.0 <= score.final <= 100.0
  {
    var penalty := Penalty(penaltyWeight, Blend(w, Doubts(confidences)));
    Score(Final(Blend(w, utilities), penalty), penalty, Blend(w, confidences))
  }

  function ScoreOf(e: Estimates, quantity: Quantity, w: Weights, settings: ScoringSettings): (score: Score)
    requires Scorable(e, settings)
    ensures 0.0 <= score.final <= 100.0
  {
    ScoreFrom(Utilities(e, quantity, settings), Confidences(e), w, settings.penaltyWeight)
  }

  ghost predicate NonNegativeWeights(w: Weights) {
    w.risk >= 0.0 && w.cost >= 0.0 && w.duration >= 0.0
  }

  ghost predicate NoneLarger(a: Triple, b: Triple) { a.0 <= b.0 && a.1 <= b.1 && a.2 <= b.2 }

  lemma BlendGrows(w: Weights, a: Triple, b: Triple)
    requires NonNegativeWeights(w) && NoneLarger(a, b)
    ensures Blend(w, a) <= Blend(w, b)
  {
    ProductGrows(w.risk, a.0, b.0);
    ProductGrows(w.cost, a.1, b.1);
    ProductGrows(w.duration, a.2, b.2);
  }

  lemma ProductGrows(factor: real, a: real, b: real)
    requires factor >= 0.0 && a <= b
    ensures factor * a <= factor * b
  {
    assert factor * (b - a) >= 0.0;
  }

  lemma ScoreGrows(ua: Triple, ca: Triple, ub: Triple, cb: Triple, w: Weights, penaltyWeight: real)
    requires NoneLarger(ub, ua) && NoneLarger(cb, ca)
    requires NonNegativeWeights(w) && penaltyWeight >= 0.0
    ensures ScoreFrom(ua, ca, w, penaltyWeight).final >= ScoreFrom(ub, cb, w, penaltyWeight).final
    ensures ScoreFrom(ua, ca, w, penaltyWeight).completeness >= ScoreFrom(ub, cb, w, penaltyWeight).completeness
  {
    BlendGrows(w, ub, ua);
    BlendGrows(w, cb, ca);
    BlendGrows(w, Doubts(ca), Doubts(cb));
    PenaltyGrows(penaltyWeight, Blend(w, Doubts(ca)), Blend(w, Doubts(cb)));
    FinalGrows(Blend(w, ua), Penalty(penaltyWeight, Blend(w, Doubts(ca))),
               Blend(w, ub), Penalty(penaltyWeight, Blend(w, Doubts(cb))));
  }

  /** A route known with full confidence pays no penalty: its score is the weighted mean of its utilities. */
  lemma CertainRouteScoresItsMean(utilities: Triple, w: Weights, penaltyWeight: real)
    requires NonNegativeWeights(w) && w.risk + w.cost + w.duration == 1.0
    requires NoneLarger((0.0, 0.0, 0.0), utilities) && NoneLarger(utilities, (100.0, 100.0, 100.0))
    ensures ScoreFrom(utilities, (1.0, 1.0, 1.0), w, penaltyWeight)
      == Score(w.risk * utilities.0 + w.cost * utilities.1 + w.duration * utilities.2, 0.0, 1.0)
  {
    BlendGrows(w, (0.0, 0.0, 0.0), utilities);
    BlendGrows(w, utilities, (100.0, 100.0, 100.0));
    assert Blend(w, Doubts((1.0, 1.0, 1.0))) == 0.0;
    assert Blend(w, (100.0, 100.0, 100.0)) == 100.0 * (w.risk + w.cost + w.duration);
  }

  /** What weighing one measure alone makes of its utility and the confidence in it. */
  ghost function Alone(utility: real, confidence: real, penaltyWeight: real): Score {
    var penalty := 100.0 * penaltyWeight * (1.0 - confidence);
    var rest := utility - penalty;
    Score(if rest < 0.0 then 0.0 else if rest > 100.0 then 100.0 else rest, penalty, confidence)
  }

  /** A reported confidence within the unit interval counts as it is; others count as the nearer end. */
  ghost function Clamped(reported: real): real {
    if reported < 0.0 then 0.0 else if reported > 1.0 then 1.0 else reported
  }

  lemma AloneBlends(t: Triple)
    ensures Blend(Weights(1.0, 0.0, 0.0), t) == t.0
    ensures Blend(Weights(0.0, 1.0, 0.0), t) == t.1
    ensures Blend(Weights(0.0, 0.0, 1.0), t) == t.2
  {
  }

  lemma ConfidenceIsClamped(value: Option<real>, reported: real)
    ensures Confidence(value, reported) == if value.Some? then Clamped(reported) else 0.0
  {
  }

  lemma ScoreAlone(utilities: Triple, confidences: Triple, w: Weights, penaltyWeight: real,
                   utility: real, confidence: real)
    requires Blend(w, utilities) == utility && Blend(w, confidences) == confidence
    requires Blend(w, Doubts(confidences)) == 1.0 - confidence
    ensures ScoreFrom(utilities, confidences, w, penaltyWeight) == Alone(utility, confidence, penaltyWeight)
  {
  }

  lemma RiskWeighedAlone(utilities: Triple, confidences: Triple, penaltyWeight: real)
    ensures ScoreFrom(utilities, confidences, Weights(1.0, 0.0, 0.0), penaltyWeight)
      == Alone(utilities.0, confidences.0, penaltyWeight)
  {
    AloneBlends(utilities);
    AloneBlends(confidences);
    AloneBlends(Doubts(confidences));
    ScoreAlone(utilities, confidences, Weights(1.0, 0.0, 0.0), penaltyWeight, utilities.0, confidences.0);
  }

  /** A request that weighs risk alone is scored by the risk score against its anchors, and by nothing else. */
  lemma RiskAloneDecides(e: Estimates, quantity: Quantity, settings: ScoringSettings)
    requires Scorable(e, settings)
    ensures var score := ScoreOf(e, quantity, Weights(1.0, 0.0, 0.0), settings);
      match e.riskScore
      case None => score == Alone(0.0, 0.0, settings.penaltyWeight)
      case Some(risk) =>
        score == Alone(UtilityScore(risk, settings.risk), Clamped(e.riskCompleteness), settings.penaltyWeight)
  {
    RiskWeighedAlone(Utilities(e, quantity, settings), Confidences(e), settings.penaltyWeight);
    ConfidenceIsClamped(e.riskScore, e.riskCompleteness);
  }

  lemma CostWeighedAlone(utilities: Triple, confidences: Triple, penaltyWeight: real)
    ensures ScoreFrom(utilities, confidences, Weights(0.0, 1.0, 0.0), penaltyWeight)
      == Alone(utilities.1, confidences.1, penaltyWeight)
  {
    AloneBlends(utilities);
    AloneBlends(confidences);
    AloneBlends(Doubts(confidences));
    ScoreAlone(utilities, confidences, Weights(0.0, 1.0, 0.0), penaltyWeight, utilities.1, confidences.1);
  }

  /** Weighing cost alone: the cost per vehicle counts. */
  lemma CostAloneDecides(e: Estimates, quantity: Quantity, settings: ScoringSettings)
    requires Scorable(e, settings)
    ensures var score := ScoreOf(e, quantity, Weights(0.0, 1.0, 0.0), settings);
      match e.cost
      case None => score == Alone(0.0, 0.0, settings.penaltyWeight)
      case Some(cost) =>
        score == Alone(UtilityScore(cost / quantity as real, settings.cost), Clamped(e.costConfidence),
                       settings.penaltyWeight)
  {
    CostWeighedAlone(Utilities(e, quantity, settings), Confidences(e), settings.penaltyWeight);
    ConfidenceIsClamped(e.cost, e.costConfidence);
  }

  lemma DurationWeighedAlone(utilities: Triple, confidences: Triple, penaltyWeight: real)
    ensures ScoreFrom(utilities, confidences, Weights(0.0, 0.0, 1.0), penaltyWeight)
      == Alone(utilities.2, confidences.2, penaltyWeight)
  {
    AloneBlends(utilities);
    AloneBlends(confidences);
    AloneBlends(Doubts(confidences));
    ScoreAlone(utilities, confidences, Weights(0.0, 0.0, 1.0), penaltyWeight, utilities.2, confidences.2);
  }

  /** Weighing duration alone: the median counts, not the ninetieth percentile. */
  lemma DurationAloneDecides(e: Estimates, quantity: Quantity, settings: ScoringSettings)
    requires Scorable(e, settings)
    ensures var score := ScoreOf(e, quantity, Weights(0.0, 0.0, 1.0), settings);
      match e.durationP50
      case None => score == Alone(0.0, 0.0, settings.penaltyWeight)
      case Some(days) =>
        score == Alone(UtilityScore(days, settings.duration), Clamped(e.durationConfidence), settings.penaltyWeight)
  {
    DurationWeighedAlone(Utilities(e, quantity, settings), Confidences(e), settings.penaltyWeight);
    ConfidenceIsClamped(e.durationP50, e.durationConfidence);
  }

  // ------------------------------------------------------------------ dominance

  /** Known and not larger, or the other is unknown. */
  predicate OptionLe(a: Option<real>, b: Option<real>) {
    b == None || (a.Some? && a.value <= b.value)
  }

  /** At least as good as the other in all three measures and in the confidence in each. */
  ghost predicate Dominates(a: Estimates, b: Estimates) {
    && OptionLe(a.riskScore, b.riskScore)
    && OptionLe(a.cost, b.cost)
    && OptionLe(a.durationP50, b.durationP50)
    && NoneLarger(Confidences(b), Confidences(a))
  }

  lemma UtilityOfBetter(a: Option<real>, b: Option<real>, bounds: Bounds)
    requires (a.Some? || b.Some?) ==> !Inverted(bounds)
    requires OptionLe(a, b)
    ensures Utility(a, bounds) >= Utility(b, bounds)
  {
    if b.Some? { UtilityIsAntitone(a.value, b.value, bounds); }
  }

  lemma PerVehicleKeepsOrder(a: Option<real>, b: Option<real>, quantity: Quantity)
    requires OptionLe(a, b)
    ensures OptionLe(PerVehicle(a, quantity), PerVehicle(b, quantity))
  {
    if b.Some? { ShareGrows(a.value, b.value, quantity as real); }
  }

  /** A route at least as good in every respect never has the lower final score. */
  lemma DominatingRouteScoresNoLower(a: Estimates, b: Estimates, quantity: Quantity, w: Weights,
                                     settings: ScoringSettings)
    requires Scorable(a, settings) && Dominates(a, b)
    requires NonNegativeWeights(w) && settings.penaltyWeight >= 0.0
    ensures ScoreOf(a, quantity, w, settings).final >= ScoreOf(b, quantity, w, settings).final
    ensures ScoreOf(a, quantity, w, settings).completeness >= ScoreOf(b, quantity, w, settings).completeness
  {
    UtilityOfBetter(a.riskScore, b.riskScore, settings.risk);
    PerVehicleKeepsOrder(a.cost, b.cost, quantity);
    UtilityOfBetter(PerVehicle(a.cost, quantity), PerVehicle(b.cost, quantity), settings.cost);
    UtilityOfBetter(a.durationP50, b.durationP50, settings.duration);
    ScoreGrows(Utilities(a, quantity, settings), Confidences(a), Utilities(b, quantity, settings), Confidences(b),
               w, settings.penaltyWeight);
  }

  // ------------------------------------------------------------------ ranking

  predicate Before(a: Option<real>, b: Option<real>) { OptionLe(a, b) && !OptionLe(b, a) }

  /** Cost, then duration, then the route id; an unknown value counts as infinite. */
  predicate TieBreak(a: Route, b: Route) {
    Before(a.estimates.cost, b.estimates.cost) ||
    (OptionLe(a.estimates.cost, b.estimates.cost) &&
     (Before(a.estimates.durationP50, b.estimates.durationP50) ||
      (OptionLe(a.estimates.durationP50, b.estimates.durationP50) && StrLe(a.id, b.id))))
  }

  /** Higher final score first, then lower risk. */
  predicate ScoreFirst(a: Route, b: Route) {
    a.score.final > b.score.final ||
    (a.score.final == b.score.final &&
     (Before(a.estimates.riskScore, b.estimates.riskScore) ||
      (OptionLe(a.estimates.riskScore, b.estimates.riskScore) && TieBreak(a, b))))
  }

  /** Lower risk first, then higher final score. */
  predicate RiskFirst(a: Route, b: Route) {
    Before(a.estimates.riskScore, b.estimates.riskScore) ||
    (OptionLe(a.estimates.riskScore, b.estimates.riskScore) &&
     (a.score.final > b.score.final || (a.score.final == b.score.final && TieBreak(a, b))))
  }

  predicate Ranking(riskFirst: bool, a: Route, b: Route) {
    if riskFirst then RiskFirst(a, b) else ScoreFirst(a, b)
  }

  function RankingOrder(riskFirst: bool): (Route, Route) -> bool {
    (a, b) => Ranking(riskFirst, a, b)
  }

  lemma TieBreakOrder()
    ensures Preorder(TieBreak)
    ensures forall a, b :: TieBreak(a, b) && TieBreak(b, a) ==> a.id == b.id
  {
    StrLeOrder();
  }

  /** Both keys are total orders up to the route id, the last component of either. */
  lemma RankingIsAnOrder(riskFirst: bool)
    ensures Preorder(RankingOrder(riskFirst))
    ensures forall a, b :: Ranking(riskFirst, a, b) && Ranking(riskFirst, b, a) ==> a.id == b.id
  {
    TieBreakOrder();
  }

  ghost predicate SameButId(a: Route, b: Route) {
    && a.score.final == b.score.final
    && a.estimates.riskScore == b.estimates.riskScore
    && a.estimates.cost == b.estimates.cost
    && a.estimates.durationP50 == b.estimates.durationP50
  }

  /** A dominating route is never ranked behind, whichever key is used, unless only their ids differ. */
  lemma DominatingRouteRanksNoLater(riskFirst: bool, a: Route, b: Route, quantity: Quantity, w: Weights,
                                    settings: ScoringSettings)
    requires Scorable(a.estimates, settings) && a.score == ScoreOf(a.estimates, quantity, w, settings)
    requires Scorable(b.estimates, settings) && b.score == ScoreOf(b.estimates, quantity, w, settings)
    requires NonNegativeWeights(w) && settings.penaltyWeight >= 0.0
    requires Dominates(a.estimates, b.estimates)
    ensures Ranking(riskFirst, a, b) || SameButId(a, b)
  {
    DominatingRouteScoresNoLower(a.estimates, b.estimates, quantity, w, settings);
  }

  // ------------------------------------------------------------------ ranking, in the routes' own fields

  /** A known value comes before an unknown one, a smaller before a larger. */
  ghost predicate KnownAndLower(a: Option<real>, b: Option<real>) {
    (a == None ==> b == None) && (a.Some? && b.Some? ==> a.value <= b.value)
  }

  /** What decides between routes whose leading values are equal: cost, then duration, then the id. */
  ghost predicate TiedRight(a: Route, b: Route) {
    var (x, y) := (a.estimates, b.estimates);
    && KnownAndLower(x.cost, y.cost)
    && (x.cost == y.cost ==> KnownAndLower(x.durationP50, y.durationP50))
    && (x.cost == y.cost && x.durationP50 == y.durationP50 ==> StrLe(a.id, b.id))
  }

  /** An ordinary ranking: final scores never increase; equal ones are ordered by risk, then by the tie-break. */
  ghost predicate ScoredRight(a: Route, b: Route) {
    && a.score.final >= b.score.final
    && (a.score.final == b.score.final ==> KnownAndLower(a.estimates.riskScore, b.estimates.riskScore))
    && (a.score.final == b.score.final && a.estimates.riskScore == b.estimates.riskScore ==> TiedRight(a, b))
  }

  /** The ranking of a reroute: risks never decrease, unknown ones last; equal ones are ordered by final score. */
  ghost predicate ReroutedRight(a: Route, b: Route) {
    && KnownAndLower(a.estimates.riskScore, b.estimates.riskScore)
    && (a.estimates.riskScore == b.estimates.riskScore ==> a.score.final >= b.score.final)
    && (a.estimates.riskScore == b.estimates.riskScore && a.score.final == b.score.final ==> TiedRight(a, b))
  }

  /** The ranking in force, read off the fields. */
  ghost predicate RightOrder(rerouted: bool, a: Route, b: Route) {
    (rerouted ==> ReroutedRight(a, b)) && (!rerouted ==> ScoredRight(a, b))
  }

  lemma RankingIsRight(riskFirst: bool, a: Route, b: Route)
    ensures Ranking(riskFirst, a, b) <==> RightOrder(riskFirst, a, b)
  {
  }

  // ------------------------------------------------------------------ hard constraints

  datatype Constraints = Constraints(
    maxRiskScore: Option<real>,
    maxCostUsd: Option<real>,
    maxDurationDays: Option<real>,
    allowedModes: set<string>,
    avoidedZones: set<string>,
    minDataCompleteness: Option<real>,
    requireKnownRisk: bool,
    maxHops: int)

  datatype Failure =
    | ModeNotAllowed(modes: set<string>)
    | RiskUnknown
    | RiskUnverifiable
    | RiskTooHigh
    | CostUnverifiable
    | CostTooHigh
    | DurationUnverifiable
    | DurationTooLong
    | CompletenessTooLow

  function LimitFailure(value: Option<real>, limit: Option<real>,
                        unverifiable: Failure, exceeded: Failure): seq<Failure>
  {
    if limit == None then []
    else if value == None then [unverifiable]
    else if value.value > limit.value then [exceeded]
    else []
  }

  function ModeFailure(e: Estimates, c: Constraints): seq<Failure> {
    if e.modes <= c.allowedModes then [] else [ModeNotAllowed(e.modes - c.allowedModes)]
  }

  function UnknownRiskFailure(e: Estimates, c: Constraints): seq<Failure> {
    if c.requireKnownRisk && e.riskScore == None then [RiskUnknown] else []
  }

  function CompletenessFailure(r: Route, c: Constraints): seq<Failure> {
    if c.minDataCompleteness.Some? && r.score.completeness < c.minDataCompleteness.value then [CompletenessTooLow]
    else []
  }

  function Failures(r: Route, c: Constraints): (reasons: seq<Failure>)
    ensures reasons == [] <==> Satisfies(r, c)
  {
    var e := r.estimates;
    ModeFailure(e, c)
    + UnknownRiskFailure(e, c)
    + LimitFailure(e.riskScore, c.maxRiskScore, RiskUnverifiable, RiskTooHigh)
    + LimitFailure(e.cost, c.maxCostUsd, CostUnverifiable, CostTooHigh)
    + LimitFailure(e.durationP90, c.maxDurationDays, DurationUnverifiable, DurationTooLong)
    + CompletenessFailure(r, c)
  }

  predicate Within(value: Option<real>, limit: Option<real>) {
    limit.Some? ==> value.Some? && value.value <= limit.value
  }

  /** What a caller may rely on: every bound set in the request is met by a known value. */
  predicate Satisfies(r: Route, c: Constraints) {
    && (forall mode :: mode in r.estimates.modes ==> mode in c.allowedModes)
    && (c.requireKnownRisk ==> r.estimates.riskScore.Some?)
    && Within(r.estimates.riskScore, c.maxRiskScore)
    && Within(r.estimates.cost, c.maxCostUsd)
    && Within(r.estimates.durationP90, c.maxDurationDays)
    && (c.minDataCompleteness.Some? ==> r.score.completeness >= c.minDataCompleteness.value)
  }

  // ------------------------------------------------------------------ which reasons are given

  /** A bound that is set speaks of a value that is unknown, or of one that is too large. */
  ghost predicate BoundUnmet(value: Option<real>, limit: Option<real>, known: bool) {
    limit.Some? && value.Some? == known && (known ==> value.value > limit.value)
  }

  lemma InOneOf<T>(a: seq<T>, b: seq<T>, c: seq<T>, d: seq<T>, e: seq<T>, f: seq<T>, x: T)
    ensures x in a + b + c + d + e + f <==> x in a || x in b || x in c || x in d || x in e || x in f
  {
  }

  lemma OnlyOneReason(r: Route, c: Constraints, x: Failure)
    ensures var e := r.estimates;
      x in Failures(r, c) <==>
        || x in ModeFailure(e, c)
        || x in UnknownRiskFailure(e, c)
        || x in LimitFailure(e.riskScore, c.maxRiskScore, RiskUnverifiable, RiskTooHigh)
        || x in LimitFailure(e.cost, c.maxCostUsd, CostUnverifiable, CostTooHigh)
        || x in LimitFailure(e.durationP90, c.maxDurationDays, DurationUnverifiable, DurationTooLong)
        || x in CompletenessFailure(r, c)
  {
    var e := r.estimates;
    InOneOf(ModeFailure(e, c), UnknownRiskFailure(e, c),
            LimitFailure(e.riskScore, c.maxRiskScore, RiskUnverifiable, RiskTooHigh),
            LimitFailure(e.cost, c.maxCostUsd, CostUnverifiable, CostTooHigh),
            LimitFailure(e.durationP90, c.maxDurationDays, DurationUnverifiable, DurationTooLong),
            CompletenessFailure(r, c), x);
  }

  /** The modes that are named are those not allowed, if there are any. */
  lemma ModesTell(r: Route, c: Constraints, modes: set<string>)
    ensures ModeNotAllowed(modes) in Failures(r, c) <==>
      modes != {} && forall mode :: mode in modes <==> mode in r.estimates.modes && mode !in c.allowedModes
  {
    OnlyOneReason(r, c, ModeNotAllowed(modes));
    var named := r.estimates.modes - c.allowedModes;
    if modes != {} && forall mode :: mode in modes <==> mode in r.estimates.modes && mode !in c.allowedModes {
      assert modes == named;
      var mode :| mode in modes;
    } else if !(r.estimates.modes <= c.allowedModes) {
      var mode :| mode in r.estimates.modes && mode !in c.allowedModes;
      assert mode in named;
    }
  }

  /** Each other reason, read off the route and the request. */
  lemma FailuresTell(r: Route, c: Constraints)
    ensures var (e, reasons) := (r.estimates, Failures(r, c));
      && (RiskUnknown in reasons <==> c.requireKnownRisk && e.riskScore == None)
      && (RiskUnverifiable in reasons <==> BoundUnmet(e.riskScore, c.maxRiskScore, false))
      && (RiskTooHigh in reasons <==> BoundUnmet(e.riskScore, c.maxRiskScore, true))
      && (CostUnverifiable in reasons <==> BoundUnmet(e.cost, c.maxCostUsd, false))
      && (CostTooHigh in reasons <==> BoundUnmet(e.cost, c.maxCostUsd, true))
      && (DurationUnverifiable in reasons <==> BoundUnmet(e.durationP90, c.maxDurationDays, false))
      && (DurationTooLong in reasons <==> BoundUnmet(e.durationP90, c.maxDurationDays, true))
      && (CompletenessTooLow in reasons <==>
            c.minDataCompleteness.Some? && r.score.completeness < c.minDataCompleteness.value)
  {
    OnlyOneReason(r, c, RiskUnknown);
    OnlyOneReason(r, c, RiskUnverifiable);
    OnlyOneReason(r, c, RiskTooHigh);
    OnlyOneReason(r, c, CostUnverifiable);
    OnlyOneReason(r, c, CostTooHigh);
    OnlyOneReason(r, c, DurationUnverifiable);
    OnlyOneReason(r, c, DurationTooLong);
    OnlyOneReason(r, c, CompletenessTooLow);
  }
}
