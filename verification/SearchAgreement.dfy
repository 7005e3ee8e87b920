/** The two searches of app/route_optimizer.py give the same optimum. */
module SearchAgreement {
  import opened Basics
  import opened RouteGraph
  import opened KShortestPaths
  import S = ShortestPath

  ghost function NodesFrom(segments: seq<Segment>, origin: string): set<string> {
    {origin} + set s | s in segments :: s.to
  }

  /** Where the nodes of a cut path come from. */
  lemma CutNodes(origin: string, path: Path, i: nat, j: nat)
    requires i < j <= |path| && Visited(origin, path)[i] == Visited(origin, path)[j]
    ensures var cut := path[..i] + path[j..];
      forall k :: 0 <= k <= |cut| ==>
        Visited(origin, cut)[k] == Visited(origin, path)[if k < i then k else k - i + j]
  {
    var nodes, cut := Visited(origin, path), path[..i] + path[j..];
    forall k | 0 <= k <= |cut| ensures Visited(origin, cut)[k] == nodes[if k < i then k else k - i + j] {
      if k == 0 {
      } else if k <= i {
        assert cut[k - 1] == path[k - 1];
      } else {
        assert cut[k - 1] == path[k - 1 - i + j];
      }
    }
  }

  lemma CutCost(segments: seq<Segment>, pricing: Pricing, path: Path, i: nat, j: nat)
    requires NonNegative(pricing, segments) && forall k :: 0 <= k < |path| ==> path[k] in segments
    requires i < j <= |path|
    ensures PathCost(path[..i] + path[j..], pricing) <= PathCost(path, pricing)
  {
    var first, detour, last := path[..i], path[i..j], path[j..];
    assert path == (first + detour) + last;
    PathCostAppend(first + detour, last, pricing);
    PathCostAppend(first, detour, pricing);
    PathCostAppend(first, last, pricing);
    PathCostNonNegative(segments, detour, pricing);
  }

  lemma EndIsLastVisited(origin: string, path: Path)
    ensures End(origin, path) == Visited(origin, path)[|path|]
  {
  }

  lemma CutWalks(segments: seq<Segment>, origin: string, path: Path, i: nat, j: nat)
    requires i < j <= |path| && Visited(origin, path)[i] == Visited(origin, path)[j] && Walk(segments, origin, path)
    ensures Walk(segments, origin, path[..i] + path[j..])
  {
    CutNodes(origin, path, i, j);
    var cut := path[..i] + path[j..];
    forall k | 0 <= k < |cut| ensures cut[k] in segments && cut[k].from == Visited(origin, cut)[k] {
      assert cut[k] == path[if k < i then k else k - i + j];
    }
  }

  lemma CutEnds(origin: string, path: Path, i: nat, j: nat)
    requires i < j <= |path| && Visited(origin, path)[i] == Visited(origin, path)[j]
    ensures End(origin, path[..i] + path[j..]) == End(origin, path)
  {
    CutNodes(origin, path, i, j);
    EndIsLastVisited(origin, path[..i] + path[j..]);
    EndIsLastVisited(origin, path);
  }

  /** Cutting the detour between two visits of the same node leaves a route that costs no more. */
  lemma CutCycle(segments: seq<Segment>, origin: string, destination: string, pricing: Pricing,
                 path: Path, i: nat, j: nat)
    requires NonNegative(pricing, segments) && S.Route(segments, origin, destination, path)
    requires i < j <= |path| && Visited(origin, path)[i] == Visited(origin, path)[j]
    ensures S.Route(segments, origin, destination, path[..i] + path[j..])
    ensures PathCost(path[..i] + path[j..], pricing) <= PathCost(path, pricing)
  {
    CutCost(segments, pricing, path, i, j);
    CutWalks(segments, origin, path, i, j);
    CutEnds(origin, path, i, j);
  }

  /** Every route can be made simple without costing more. */
  lemma {:induction false} SimpleRoute(segments: seq<Segment>, origin: string, destination: string,
                                       pricing: Pricing, path: Path) returns (simple: Path)
    requires NonNegative(pricing, segments) && S.Route(segments, origin, destination, path)
    ensures S.Route(segments, origin, destination, simple)
    ensures NoDuplicates(Visited(origin, simple))
    ensures PathCost(simple, pricing) <= PathCost(path, pricing)
    decreases |path|
  {
    var nodes := Visited(origin, path);
    if NoDuplicates(nodes) {
      simple := path;
    } else {
      var i: nat, j: nat :| i < j < |nodes| && nodes[i] == nodes[j];
      CutCycle(segments, origin, destination, pricing, path, i, j);
      simple := SimpleRoute(segments, origin, destination, pricing, path[..i] + path[j..]);
    }
  }

  /** A simple route between different nodes is admissible once the hop limit reaches the node count. */
  lemma SimpleRouteIsAdmissible(q: Query, segments: seq<Segment>, origin: string, destination: string, path: Path)
    requires q.origins == {origin} && q.destinations == {destination} && origin != destination
    requires q.maxHops >= |NodesFrom(segments, origin)| - 1
    requires S.Route(segments, origin, destination, path) && NoDuplicates(Visited(origin, path))
    ensures Admissible(q, segments, path)
  {
    var nodes := Visited(origin, path);
    assert path != [] && path[0].from == nodes[0];
    forall x | x in nodes ensures x in NodesFrom(segments, origin) {
      var k :| 0 <= k < |nodes| && nodes[k] == x;
      if k > 0 { assert x == path[k - 1].to && path[k - 1] in segments; }
    }
    DistinctWithin(nodes, NodesFrom(segments, origin));
    forall i | 0 <= i < |path| - 1 ensures path[i].to !in q.destinations {
      assert path[i].to == nodes[i + 1] != nodes[|path|] == destination;
    }
  }

  /**
   * With a hop limit of at least the node count minus one: a first path has exactly the distance the
   * other search reports, and unless the cap was reached, one comes back empty iff the other does.
   */
  lemma SearchesAgree(q: Query, segments: seq<Segment>, origin: string, destination: string,
                      answer: Option<(real, Path)>)
    requires NonNegative(q.pricing, segments)
    requires q.origins == {origin} && q.destinations == {destination} && origin != destination
    requires q.limit >= 1 && q.maxHops >= |NodesFrom(segments, origin)| - 1
    requires S.IsAnswer(segments, origin, destination, q.pricing, answer)
    ensures var paths := Enumeration(q, segments).paths;
      && (paths != [] ==> answer.Some? && PathCost(paths[0], q.pricing) == answer.value.0)
      && (Enumeration(q, segments).expansions < 5000 ==> (paths == [] <==> answer == None))
  {
    if Enumeration(q, segments).paths != [] {
      FirstPathIsRoute(q, segments, origin, destination);
    }
    if answer.Some? {
      AnswerIsMatched(q, segments, origin, destination, answer.value);
    }
  }

  lemma FirstPathIsRoute(q: Query, segments: seq<Segment>, origin: string, destination: string)
    requires q.origins == {origin} && q.destinations == {destination}
    requires Enumeration(q, segments).paths != []
    ensures S.Route(segments, origin, destination, Enumeration(q, segments).paths[0])
  {
    ReturnedPathsAreAdmissible(q, segments);
    var first := Enumeration(q, segments).paths[0];
    assert first in Enumeration(q, segments).paths;
  }

  /** A route found by the other search is matched here, unless the cap was reached. */
  lemma AnswerIsMatched(q: Query, segments: seq<Segment>, origin: string, destination: string, answer: (real, Path))
    requires NonNegative(q.pricing, segments)
    requires q.origins == {origin} && q.destinations == {destination} && origin != destination
    requires q.limit >= 1 && q.maxHops >= |NodesFrom(segments, origin)| - 1
    requires S.Route(segments, origin, destination, answer.1)
    ensures var paths := Enumeration(q, segments).paths;
      && (paths != [] ==> PathCost(paths[0], q.pricing) <= PathCost(answer.1, q.pricing))
      && (Enumeration(q, segments).expansions < EXPANSION_CAP ==> paths != [])
  {
    var simple := SimpleRoute(segments, origin, destination, q.pricing, answer.1);
    SimpleRouteIsAdmissible(q, segments, origin, destination, simple);
    if Enumeration(q, segments).paths != [] {
      FirstPathIsCheapest(q, segments, simple);
    } else if Enumeration(q, segments).expansions < EXPANSION_CAP {
      UncutSearchIsExhaustive(q, segments);
    }
  }
}
