/** Points along a polyline by arc length (weather/route_sampling.py). */
module RouteSampling {

  /** Degrees north and east. */
  datatype Point = Point(latitude: real, longitude: real)

  /** Distance between two points; the program uses great circles. */
  type Metric = (Point, Point) -> real

  ghost predicate NonNegativeMetric(d: Metric) {
    forall a, b :: d(a, b) >= 0.0
  }

  // ------------------------------------------------------------------ interpolation

  /** The remainder modulo a full turn, shifted to start at -180. */
  function Wrap(degrees: real): (w: real)
    ensures -180.0 <= w < 180.0
    ensures -180.0 <= degrees < 180.0 ==> w == degrees
  {
    var turns := ((degrees + 180.0) / 360.0).Floor;
    degrees - 360.0 * turns as real
  }

  function Interpolate(left: Point, right: Point, fraction: real): Point {
    var delta := Wrap(right.longitude - left.longitude);
    Point(left.latitude + (right.latitude - left.latitude) * fraction,
          Wrap(left.longitude + delta * fraction))
  }

  predicate Canonical(p: Point) { -180.0 <= p.longitude < 180.0 }

  lemma WrapForgetsTurns(degrees: real, turns: int)
    ensures Wrap(degrees + 360.0 * turns as real) == Wrap(degrees)
  {
    var a := (degrees + 180.0) / 360.0;
    var b := (degrees + 360.0 * turns as real + 180.0) / 360.0;
    assert b == a + turns as real;
    assert b.Floor == a.Floor + turns;
  }

  /** Wrapping the difference and adding it back leads to the other longitude, up to full turns. */
  lemma WrapOfDifference(a: real, b: real)
    ensures Wrap(a + Wrap(b - a)) == Wrap(b)
  {
    var turns := ((b - a + 180.0) / 360.0).Floor;
    assert a + Wrap(b - a) == b + 360.0 * (-turns) as real;
    WrapForgetsTurns(b, -turns);
  }

  /** Interpolation starts at the left point and ends at the right one, up to how the date line is written. */
  lemma InterpolationMeetsItsEnds(left: Point, right: Point)
    ensures Interpolate(left, right, 0.0) == left <==> Canonical(left)
    ensures Interpolate(left, right, 1.0) == right <==> Canonical(right)
    ensures Interpolate(left, right, 1.0) == Point(right.latitude, Wrap(right.longitude))
  {
    WrapOfDifference(left.longitude, right.longitude);
  }

  /** The coordinates the program accepts reach from -180 to 180, so only the date line is rewritten. */
  lemma OnlyTheDateLineIsRewritten(left: Point, right: Point)
    requires -180.0 <= right.longitude <= 180.0
    ensures Interpolate(left, right, 1.0) == right <==> right.longitude != 180.0
    ensures right.longitude == 180.0 ==> Interpolate(left, right, 1.0).longitude == -180.0
  {
    InterpolationMeetsItsEnds(left, right);
  }

  /** In between, latitudes change in proportion. */
  lemma LatitudeIsProportional(left: Point, right: Point, fraction: real)
    ensures Interpolate(left, right, fraction).latitude == left.latitude + (right.latitude - left.latitude) * fraction
  {
  }

  /** And so do longitudes where no date line is crossed. */
  lemma LongitudeIsProportional(left: Point, right: Point, way: real, fraction: real)
    requires Canonical(left) && Canonical(right) && way == right.longitude - left.longitude
    requires -180.0 <= way < 180.0 && 0.0 <= fraction <= 1.0
    ensures Interpolate(left, right, fraction).longitude == left.longitude + way * fraction
  {
    PartIsWithin(way, fraction, way * fraction);
    PartWayIsBetween(left.longitude, right.longitude, way, way * fraction);
  }

  /** Part of a way leads no farther than the way, in either direction. */
  lemma PartIsWithin(way: real, fraction: real, part: real)
    requires 0.0 <= fraction <= 1.0 && part == way * fraction
    ensures way >= 0.0 ==> 0.0 <= part <= way
    ensures way < 0.0 ==> way <= part <= 0.0
  {
    var rest := way * (1.0 - fraction);
    assert part + rest == way;
    if way >= 0.0 {
      assert part >= 0.0 && rest >= 0.0;
    } else {
      assert part <= 0.0 && rest <= 0.0;
    }
  }

  lemma PartWayIsBetween(a: real, b: real, way: real, part: real)
    requires -180.0 <= a < 180.0 && -180.0 <= b < 180.0 && b == a + way
    requires if way >= 0.0 then 0.0 <= part <= way else way <= part <= 0.0
    ensures Wrap(a + part) == a + part
  {
  }

  // ------------------------------------------------------------------ arc length

  function Legs(points: seq<Point>, d: Metric): (legs: seq<real>)
    requires points != []
    ensures |legs| == |points| - 1
    ensures forall i :: 0 <= i < |legs| ==> legs[i] == d(points[i], points[i + 1])
  {
    seq(|points| - 1, i requires 0 <= i < |points| - 1 => d(points[i], points[i + 1]))
  }

  function Sum(xs: seq<real>): real {
    if xs == [] then 0.0 else Sum(xs[..|xs| - 1]) + xs[|xs| - 1]
  }

  lemma SumNext(xs: seq<real>, i: nat)
    requires i < |xs|
    ensures Sum(xs[..i + 1]) == Sum(xs[..i]) + xs[i]
  {
    assert xs[..i + 1][..i] == xs[..i];
  }

  ghost predicate NoneNegative(legs: seq<real>) { forall i :: 0 <= i < |legs| ==> legs[i] >= 0.0 }

  lemma {:induction false} SumsGrow(legs: seq<real>, i: nat, j: nat)
    requires NoneNegative(legs) && i <= j <= |legs|
    ensures Sum(legs[..i]) <= Sum(legs[..j])
  {
    if i < j {
      SumNext(legs, j - 1);
      SumsGrow(legs, i, j - 1);
    }
  }

  /** A place on the line: how far along which leg. */
  datatype Place = Place(leg: nat, local: real)

  ghost function Arc(legs: seq<real>, place: Place): real
    requires place.leg < |legs|
  {
    Sum(legs[..place.leg]) + place.local * legs[place.leg]
  }

  /** The first place at an arc length: the leg begins before it and ends at or after it. */
  ghost predicate Reaches(legs: seq<real>, target: real, place: Place) {
    && place.leg < |legs|
    && Sum(legs[..place.leg]) < target <= Sum(legs[..place.leg + 1])
    && Arc(legs, place) == target
  }

  /** The leg has a length, so the local fraction is no division by zero, and it stays within the leg. */
  lemma ReachedLocally(legs: seq<real>, target: real, place: Place)
    requires Reaches(legs, target, place)
    ensures legs[place.leg] > 0.0 && 0.0 < place.local <= 1.0
  {
    SumNext(legs, place.leg);
    PartOfLeg(place.local, legs[place.leg], target - Sum(legs[..place.leg]));
  }

  lemma PartOfLeg(local: real, length: real, part: real)
    requires local * length == part && 0.0 < part <= length
    ensures length > 0.0 && 0.0 < local <= 1.0
  {
    assert local <= 0.0 ==> local * length <= 0.0;
    assert local > 1.0 ==> (local - 1.0) * length > 0.0;
  }

  predicate PlaceLe(a: Place, b: Place) { a.leg < b.leg || (a.leg == b.leg && a.local <= b.local) }

  /** Farther along the line is never earlier on it; in particular a place is determined by its arc length. */
  lemma PlacesFollowArcLength(legs: seq<real>, less: real, more: real, a: Place, b: Place)
    requires NoneNegative(legs) && less <= more
    requires Reaches(legs, less, a) && Reaches(legs, more, b)
    ensures PlaceLe(a, b)
    ensures less == more ==> a == b
  {
    LegsFollowArcLength(legs, less, more, a, b);
    if less == more { LegsFollowArcLength(legs, more, less, b, a); }
    if a.leg == b.leg {
      ReachedLocally(legs, more, b);
      var before := Sum(legs[..a.leg]);
      SameLegOrder(legs[a.leg], a.local, b.local, less - before, more - before);
    }
  }

  lemma LegsFollowArcLength(legs: seq<real>, less: real, more: real, a: Place, b: Place)
    requires NoneNegative(legs) && less <= more
    requires Reaches(legs, less, a) && Reaches(legs, more, b)
    ensures a.leg <= b.leg
  {
    if b.leg < a.leg { SumsGrow(legs, b.leg + 1, a.leg); }
  }

  lemma SameLegOrder(length: real, x: real, y: real, near: real, far: real)
    requires length > 0.0 && x * length == near && y * length == far && near <= far
    ensures x <= y && (near == far ==> x == y)
  {
    CancelLength(length, x, y);
    CancelLength(length, y, x);
  }

  lemma CancelLength(length: real, x: real, y: real)
    requires length > 0.0
    ensures x * length <= y * length ==> x <= y
  {
    assert x > y ==> (x - y) * length > 0.0;
  }

  // ------------------------------------------------------------------ the sampled point

  function Last(points: seq<Point>): Point
    requires points != []
  {
    points[|points| - 1]
  }

  /** The point a fraction of the way along a line. */
  ghost predicate IsSample(points: seq<Point>, d: Metric, fraction: real, p: Point)
    requires points != []
  {
    IsSampleOf(points, Legs(points, d), fraction, p)
  }

  ghost predicate IsSampleOf(points: seq<Point>, legs: seq<real>, fraction: real, p: Point)
    requires |legs| == |points| - 1
  {
    if fraction <= 0.0 then p == points[0]
    else if fraction >= 1.0 then p == Last(points)
    else if Sum(legs) <= 0.0 then p == points[0]
    else IsPointAt(points, legs, Target(fraction, legs), p)
  }

  function PartOf(total: real, fraction: real): real { total * fraction }

  function Target(fraction: real, legs: seq<real>): real { PartOf(Sum(legs), fraction) }

  /** The point at an arc length. */
  ghost predicate IsPointAt(points: seq<Point>, legs: seq<real>, target: real, p: Point)
    requires |legs| == |points| - 1
  {
    exists place :: Reaches(legs, target, place) && p == PointOn(points, place)
  }

  ghost function PointOn(points: seq<Point>, place: Place): Point
    requires place.leg < |points| - 1
  {
    Interpolate(points[place.leg], points[place.leg + 1], place.local)
  }

  /** The walk along the line finds that point, wherever legs of no length lie. */
  method PointAlongLine(points: seq<Point>, d: Metric, fraction: real) returns (p: Point)
    requires points != []
    ensures IsSample(points, d, fraction, p)
  {
    EndsAreSamples(points, Legs(points, d), fraction);
    if fraction <= 0.0 { return points[0]; }
    if fraction >= 1.0 { return points[|points| - 1]; }
    var lengths := Legs(points, d);
    var total := Sum(lengths);
    if total <= 0.0 { return points[0]; }
    TargetIsWithin(lengths, fraction);
    p := WalkTo(points, lengths, Target(fraction, lengths));
    InnerPointIsSample(points, lengths, fraction, p);
  }

  /** What the early returns give is the sample. */
  lemma EndsAreSamples(points: seq<Point>, legs: seq<real>, fraction: real)
    requires |legs| == |points| - 1
    ensures fraction <= 0.0 ==> IsSampleOf(points, legs, fraction, points[0])
    ensures fraction >= 1.0 ==> IsSampleOf(points, legs, fraction, Last(points))
    ensures 0.0 < fraction < 1.0 && Sum(legs) <= 0.0 ==> IsSampleOf(points, legs, fraction, points[0])
  {
  }

  lemma InnerPointIsSample(points: seq<Point>, legs: seq<real>, fraction: real, p: Point)
    requires |legs| == |points| - 1 && 0.0 < fraction < 1.0 && Sum(legs) > 0.0
    requires IsPointAt(points, legs, Target(fraction, legs), p)
    ensures IsSampleOf(points, legs, fraction, p)
  {
  }

  lemma TargetIsWithin(legs: seq<real>, fraction: real)
    requires Sum(legs) > 0.0 && 0.0 < fraction < 1.0
    ensures 0.0 < Target(fraction, legs) <= Sum(legs)
  {
    PartIsPositive(Sum(legs), fraction);
    PartIsLess(Sum(legs), fraction);
  }

  method WalkTo(points: seq<Point>, lengths: seq<real>, target: real) returns (p: Point)
    requires |lengths| == |points| - 1 && 0.0 < target <= Sum(lengths)
    ensures IsPointAt(points, lengths, target, p)
  {
    p := points[|points| - 1];
    var traversed := 0.0;
    assert lengths[..|lengths|] == lengths;
    for index := 0 to |lengths|
      invariant traversed == Sum(lengths[..index]) < target
    {
      var length := lengths[index];
      SumNext(lengths, index);
      if traversed + length >= target {
        var localFraction := if length != 0.0 then (target - traversed) / length else 0.0;
        ReachedHere(lengths, target, index, localFraction);
        p := Interpolate(points[index], points[index + 1], localFraction);
        assert p == PointOn(points, Place(index, localFraction));
        return;
      }
      traversed := traversed + length;
    }
  }

  lemma ReachedHere(legs: seq<real>, target: real, leg: nat, local: real)
    requires leg < |legs|
    requires Sum(legs[..leg]) < target <= Sum(legs[..leg]) + legs[leg]
    requires legs[leg] != 0.0 && local == (target - Sum(legs[..leg])) / legs[leg]
    ensures Reaches(legs, target, Place(leg, local))
  {
    SumNext(legs, leg);
    var (part, length) := (target - Sum(legs[..leg]), legs[leg]);
    assert part / length * length == part;
  }

  lemma ProductIsLess(total: real, fraction: real)
    requires total > 0.0 && fraction < 1.0
    ensures total * fraction < total
  {
  }

  lemma PartIsPositive(total: real, fraction: real)
    requires total > 0.0 && 0.0 < fraction
    ensures 0.0 < PartOf(total, fraction)
  {
  }

  lemma PartIsLess(total: real, fraction: real)
    requires total > 0.0 && fraction < 1.0
    ensures PartOf(total, fraction) < total
  {
    ProductIsLess(total, fraction);
  }

  lemma PlaceOfPoint(points: seq<Point>, legs: seq<real>, target: real, p: Point) returns (place: Place)
    requires |legs| == |points| - 1 && IsPointAt(points, legs, target, p)
    ensures place.leg < |legs| && 0.0 < place.local <= 1.0 && Arc(legs, place) == target
    ensures p == Interpolate(points[place.leg], points[place.leg + 1], place.local)
  {
    place :| Reaches(legs, target, place) && p == PointOn(points, place);
    ReachedLocally(legs, target, place);
  }

  lemma InnerSampleIsPoint(points: seq<Point>, legs: seq<real>, fraction: real, p: Point)
    requires |legs| == |points| - 1 && 0.0 < fraction < 1.0 && Sum(legs) > 0.0
    requires IsSampleOf(points, legs, fraction, p)
    ensures IsPointAt(points, legs, Target(fraction, legs), p)
  {
  }

  lemma TargetIsPartOfLength(legs: seq<real>, fraction: real)
    ensures Target(fraction, legs) == Sum(legs) * fraction
  {
  }

  /** An inner sample lies on a leg, at that fraction of the whole length. */
  lemma SampleIsPartWay(points: seq<Point>, legs: seq<real>, fraction: real, p: Point) returns (place: Place)
    requires |legs| == |points| - 1 && IsSampleOf(points, legs, fraction, p)
    requires 0.0 < fraction < 1.0 && Sum(legs) > 0.0
    ensures place.leg < |legs| && 0.0 < place.local <= 1.0
    ensures p == Interpolate(points[place.leg], points[place.leg + 1], place.local)
    ensures Arc(legs, place) == Sum(legs) * fraction
  {
    InnerSampleIsPoint(points, legs, fraction, p);
    place := PlaceOfPoint(points, legs, Target(fraction, legs), p);
    TargetIsPartOfLength(legs, fraction);
  }

  /** Each fraction has one point. */
  lemma SampleIsUnique(points: seq<Point>, d: Metric, fraction: real, p: Point, q: Point)
    requires points != [] && NonNegativeMetric(d)
    requires IsSample(points, d, fraction, p) && IsSample(points, d, fraction, q)
    ensures p == q
  {
    var legs := Legs(points, d);
    if 0.0 < fraction < 1.0 && Sum(legs) > 0.0 {
      PointIsUnique(points, legs, Target(fraction, legs), p, q);
    }
  }

  lemma PointIsUnique(points: seq<Point>, legs: seq<real>, target: real, p: Point, q: Point)
    requires |legs| == |points| - 1 && NoneNegative(legs)
    requires IsPointAt(points, legs, target, p) && IsPointAt(points, legs, target, q)
    ensures p == q
  {
    var a :| Reaches(legs, target, a) && p == PointOn(points, a);
    var b :| Reaches(legs, target, b) && q == PointOn(points, b);
    PlacesFollowArcLength(legs, target, target, a, b);
  }

  /** A larger fraction is never earlier on the line. */
  lemma SamplesAdvance(legs: seq<real>, less: real, more: real, a: Place, b: Place)
    requires NoneNegative(legs) && less <= more
    requires Reaches(legs, Target(less, legs), a) && Reaches(legs, Target(more, legs), b)
    ensures PlaceLe(a, b)
  {
    TargetsAdvance(legs, less, more);
    PlacesFollowArcLength(legs, Target(less, legs), Target(more, legs), a, b);
  }

  lemma TargetsAdvance(legs: seq<real>, less: real, more: real)
    requires NoneNegative(legs) && less <= more
    ensures Target(less, legs) <= Target(more, legs)
  {
    SumsGrow(legs, 0, |legs|);
    assert legs[..|legs|] == legs && legs[..0] == [];
    assert Sum(legs) * (more - less) >= 0.0;
  }

  // ------------------------------------------------------------------ the samples of a line

  function SampleCount(wanted: int): (count: nat)
    ensures count >= 2
  {
    if wanted > 2 then wanted else 2
  }

  function SampleFractions(wanted: int): (fractions: seq<real>)
    ensures |fractions| == SampleCount(wanted)
    ensures forall i :: 0 <= i < |fractions| ==> fractions[i] == i as real / (|fractions| - 1) as real
  {
    var count := SampleCount(wanted);
    seq(count, i requires 0 <= i < count => i as real / (count - 1) as real)
  }

  ghost predicate AreSamples(points: seq<Point>, d: Metric, fractions: seq<real>, samples: seq<Point>)
    requires points != []
  {
    |samples| <= |fractions| && forall i :: 0 <= i < |samples| ==> IsSample(points, d, fractions[i], samples[i])
  }

  lemma SamplesSnoc(points: seq<Point>, d: Metric, fractions: seq<real>, samples: seq<Point>, p: Point)
    requires points != [] && AreSamples(points, d, fractions, samples) && |samples| < |fractions|
    requires IsSample(points, d, fractions[|samples|], p)
    ensures AreSamples(points, d, fractions, samples + [p])
  {
    var extended := samples + [p];
    forall i | 0 <= i < |extended| ensures IsSample(points, d, fractions[i], extended[i]) {
      if i < |samples| {
        assert extended[i] == samples[i];
        assert IsSample(points, d, fractions[i], samples[i]);
      }
    }
  }

  method SampleAll(points: seq<Point>, d: Metric, fractions: seq<real>) returns (samples: seq<Point>)
    requires points != [] && NonNegativeMetric(d)
    ensures |samples| == |fractions| && AreSamples(points, d, fractions, samples)
  {
    samples := [];
    for i := 0 to |fractions|
      invariant |samples| == i && AreSamples(points, d, fractions, samples)
    {
      var p := PointAlongLine(points, d, fractions[i]);
      SamplesSnoc(points, d, fractions, samples, p);
      samples := samples + [p];
    }
  }

  /** Samples are spaced evenly, from the first point of the line to its last, both exact. */
  method SampleLine(points: seq<Point>, d: Metric, wanted: int) returns (samples: seq<Point>)
    requires points != [] && NonNegativeMetric(d)
    ensures |samples| == if wanted > 2 then wanted else 2
    ensures samples[0] == points[0] && Last(samples) == Last(points)
    ensures AreSamples(points, d, SampleFractions(wanted), samples)
  {
    var fractions := SampleFractions(wanted);
    FractionsRunFromZeroToOne(wanted);
    samples := SampleAll(points, d, fractions);
    EndSamplesAreExact(points, d, fractions, samples);
  }

  lemma FractionsRunFromZeroToOne(wanted: int)
    ensures SampleFractions(wanted)[0] == 0.0 && SampleFractions(wanted)[SampleCount(wanted) - 1] == 1.0
  {
    WholeOfWhole((SampleCount(wanted) - 1) as real);
  }

  lemma WholeOfWhole(n: real)
    requires n > 0.0
    ensures n / n == 1.0 && 0.0 / n == 0.0
  {
  }

  lemma EndSamplesAreExact(points: seq<Point>, d: Metric, fractions: seq<real>, samples: seq<Point>)
    requires points != [] && AreSamples(points, d, fractions, samples) && |samples| == |fractions| > 0
    requires fractions[0] == 0.0 && fractions[|fractions| - 1] == 1.0
    ensures samples[0] == points[0] && Last(samples) == Last(points)
  {
    assert IsSample(points, d, fractions[0], samples[0]);
    assert IsSample(points, d, fractions[|fractions| - 1], samples[|samples| - 1]);
  }
}
