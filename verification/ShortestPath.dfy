/** Dijkstra with lazy deletion and early exit (app/route_optimizer.py, shortest_path). */
module ShortestPath {
  import opened Basics
  import opened Ordering
  import opened HeapQueue
  import opened RouteGraph

  type Distances = map<string, real>
  type Parents = map<string, (string, Segment)>

  datatype Label = Label(distance: real, node: string)

  predicate LabelLe(a: Label, b: Label) {
    a.distance < b.distance || (a.distance == b.distance && StrLe(a.node, b.node))
  }

  lemma LabelLeOrder()
    ensures Preorder(LabelLe)
  {
    StrLeOrder();
  }

  // ------------------------------------------------------------------ what a shortest path is

  ghost predicate Route(segments: seq<Segment>, origin: string, destination: string, path: Path) {
    Walk(segments, origin, path) && End(origin, path) == destination
  }

  ghost predicate Reachable(segments: seq<Segment>, origin: string, destination: string) {
    exists path :: Route(segments, origin, destination, path)
  }

  /** No route, or one whose weight sum is `distance` and minimal over all walks. */
  ghost predicate IsAnswer(segments: seq<Segment>, origin: string, destination: string, pricing: Pricing,
                           answer: Option<(real, Path)>)
  {
    match answer
    case None => !Reachable(segments, origin, destination)
    case Some((distance, path)) =>
      && Route(segments, origin, destination, path)
      && PathCost(path, pricing) == distance
      && forall other :: Route(segments, origin, destination, other) ==> distance <= PathCost(other, pricing)
  }

  // ------------------------------------------------------------------ loop state

  /** Everything the search reads: the network, the origin and the pricing. */
  datatype Problem = Problem(segments: seq<Segment>, origin: string, pricing: Pricing)

  /**
   * The state of the search. `settled` are the nodes already taken from the queue at their final
   * distance; `tree` is the path the `previous` pointers stand for.
   */
  datatype State = State(
    distances: Distances,
    previous: Parents,
    queue: seq<Label>,
    settled: set<string>,
    tree: map<string, Path>)

  ghost function Nodes(p: Problem): set<string> {
    {p.origin} + set s | s in p.segments :: s.to
  }

  /** The node carries a path of exactly its distance. */
  ghost predicate Reached(p: Problem, st: State, n: string)
    requires n in st.distances
  {
    && n in Nodes(p)
    && n in st.tree
    && Route(p.segments, p.origin, n, st.tree[n])
    && PathCost(st.tree[n], p.pricing) == st.distances[n]
  }

  /** The node's pointer leads to a settled node and extends that node's path by one segment. */
  ghost predicate Linked(st: State, n: string) {
    && n in st.previous && n in st.tree
    && st.previous[n].0 in st.settled && st.previous[n].0 in st.tree
    && st.tree[n] == st.tree[st.previous[n].0] + [st.previous[n].1]
  }

  ghost predicate TreeOk(p: Problem, st: State) {
    && p.origin in st.tree && p.origin in st.distances
    && st.tree[p.origin] == []
    && st.settled <= st.distances.Keys
    && (forall n {:trigger Reached(p, st, n)} :: n in st.distances ==> Reached(p, st, n))
    && (forall n {:trigger Linked(st, n)} :: n in st.distances && n != p.origin ==> Linked(st, n))
  }

  /** A label is never better than the distance it announces, and is outdated once its node is settled. */
  ghost predicate LabelOk(st: State, l: Label) {
    && l.node in st.distances
    && st.distances[l.node] <= l.distance
    && (l.node in st.settled ==> st.distances[l.node] < l.distance)
    && (forall n :: n in st.settled && n in st.distances ==> st.distances[n] <= l.distance)
  }

  ghost predicate Queued(st: State, n: string)
    requires n in st.distances
  {
    Label(st.distances[n], n) in st.queue
  }

  ghost predicate QueueOk(st: State) {
    && NoDuplicates(st.queue)
    && (forall l :: l in st.queue ==> LabelOk(st, l))
    && (forall n :: n in st.distances && n !in st.settled ==> Queued(st, n))
  }

  /** Segment `s` has been relaxed. */
  ghost predicate Relaxed(p: Problem, st: State, s: Segment) {
    s.from in st.distances && s.to in st.distances
    && st.distances[s.to] <= st.distances[s.from] + Weight(s, p.pricing)
  }

  ghost predicate SettledRelaxed(p: Problem, st: State) {
    forall s :: s in p.segments && s.from in st.settled ==> Relaxed(p, st, s)
  }

  ghost predicate Invariant(p: Problem, st: State) {
    TreeOk(p, st) && QueueOk(st) && SettledRelaxed(p, st)
  }

  // ------------------------------------------------------------------ optimality

  /** Some node still in the frontier is at most `bound` away. */
  ghost predicate FrontierWithin(st: State, bound: real) {
    exists n :: n in st.distances && n !in st.settled && st.distances[n] <= bound
  }

  /** A walk either stays within settled nodes, or passes a frontier node that is no farther. */
  lemma {:induction false} WalkMeetsFrontier(p: Problem, st: State, path: Path)
    requires NonNegative(p.pricing, p.segments)
    requires p.origin in st.distances && st.distances[p.origin] == 0.0 && SettledRelaxed(p, st)
    requires Walk(p.segments, p.origin, path)
    ensures var end := End(p.origin, path);
      || FrontierWithin(st, PathCost(path, p.pricing))
      || (end in st.settled && end in st.distances && st.distances[end] <= PathCost(path, p.pricing))
    decreases |path|
  {
    if path == [] {
    } else {
      var n := |path| - 1;
      var prefix, last := path[..n], path[n];
      WalkPrefix(p.segments, p.origin, prefix, path);
      WalkMeetsFrontier(p, st, prefix);
      assert last in p.segments && Weight(last, p.pricing) >= 0.0;
      if FrontierWithin(st, PathCost(prefix, p.pricing)) {
        var m :| m in st.distances && m !in st.settled && st.distances[m] <= PathCost(prefix, p.pricing);
        assert st.distances[m] <= PathCost(path, p.pricing);
      } else {
        assert Relaxed(p, st, last);
      }
    }
  }

  /** When the destination heads the queue its distance is final. */
  lemma HeadIsFinal(p: Problem, st: State, node: string, path: Path)
    requires NonNegative(p.pricing, p.segments) && Invariant(p, st)
    requires node in st.distances
    requires forall l :: l in st.queue ==> st.distances[node] <= l.distance
    requires Route(p.segments, p.origin, node, path)
    ensures st.distances[node] <= PathCost(path, p.pricing)
  {
    assert Reached(p, st, p.origin);
    WalkMeetsFrontier(p, st, path);
    if FrontierWithin(st, PathCost(path, p.pricing)) {
      var m :| m in st.distances && m !in st.settled && st.distances[m] <= PathCost(path, p.pricing);
      assert Queued(st, m);
    }
  }

  /** An empty queue leaves nothing reachable without a distance. */
  lemma EmptyQueueIsExhaustive(p: Problem, st: State, node: string)
    requires NonNegative(p.pricing, p.segments) && Invariant(p, st) && st.queue == []
    requires Reachable(p.segments, p.origin, node)
    ensures node in st.distances
  {
    var path :| Route(p.segments, p.origin, node, path);
    assert Reached(p, st, p.origin);
    WalkMeetsFrontier(p, st, path);
  }

  // ------------------------------------------------------------------ the moves of the search

  ghost function Start(p: Problem): State {
    State(map[p.origin := 0.0], map[], [Label(0.0, p.origin)], {}, map[p.origin := []])
  }

  /** The label still announces the distance of its node. */
  predicate Current(distances: Distances, l: Label) {
    l.node in distances && l.distance == distances[l.node]
  }

  /** Dropping an outdated head changes nothing. */
  lemma DropStale(p: Problem, st: State, i: nat)
    requires Invariant(p, st) && i < |st.queue|
    requires !Current(st.distances, st.queue[i])
    ensures Invariant(p, st.(queue := Without(st.queue, i)))
  {
    WithoutDistinct(st.queue, i);
    var after := st.(queue := Without(st.queue, i));
    forall n | n in after.distances ensures Reached(p, after, n) && (n != p.origin ==> Linked(after, n)) {
      assert Reached(p, st, n) && (n != p.origin ==> Linked(st, n));
    }
    forall n | n in after.distances && n !in after.settled ensures Queued(after, n) { assert Queued(st, n); }
    forall l | l in after.queue ensures LabelOk(after, l) { assert LabelOk(st, l); }
    forall s | s in p.segments && s.from in after.settled ensures Relaxed(p, after, s) { assert Relaxed(p, st, s); }
  }

  /** While `node` is being expanded, `done` are the segments of it that have been relaxed. */
  ghost predicate Expanding(p: Problem, st: State, node: string, done: set<Segment>) {
    TreeOk(p, st) && QueueOk(st) && Farthest(st, node) && RelaxedSoFar(p, st, node, done)
  }

  ghost function Settled(st: State, i: nat): State
    requires i < |st.queue|
  {
    st.(queue := Without(st.queue, i), settled := st.settled + {st.queue[i].node})
  }

  lemma SettleKeepsQueue(st: State, i: nat)
    requires QueueOk(st) && i < |st.queue|
    requires Current(st.distances, st.queue[i])
    requires forall l :: l in st.queue ==> st.queue[i].distance <= l.distance
    ensures QueueOk(Settled(st, i))
  {
    WithoutDistinct(st.queue, i);
    var head := st.queue[i];
    var after := Settled(st, i);
    forall l | l in after.queue ensures LabelOk(after, l) {
      assert l in st.queue && l != head && LabelOk(st, l);
    }
    forall n | n in after.distances && n !in after.settled ensures Queued(after, n) {
      assert Queued(st, n);
    }
  }

  lemma SettleKeepsTree(p: Problem, st: State, i: nat)
    requires TreeOk(p, st) && i < |st.queue| && st.queue[i].node in st.distances
    ensures TreeOk(p, Settled(st, i))
  {
    var after := Settled(st, i);
    forall n | n in after.distances ensures Reached(p, after, n) && (n != p.origin ==> Linked(after, n)) {
      assert Reached(p, st, n) && (n != p.origin ==> Linked(st, n));
    }
  }

  lemma SettleKeepsRelaxed(p: Problem, st: State, i: nat)
    requires SettledRelaxed(p, st) && i < |st.queue|
    ensures RelaxedSoFar(p, Settled(st, i), st.queue[i].node, {})
  {
    var after := Settled(st, i);
    forall s | s in p.segments && s.from in after.settled && s.from != st.queue[i].node ensures Relaxed(p, after, s) {
      assert Relaxed(p, st, s);
    }
  }

  lemma SettleIsFarthest(p: Problem, st: State, i: nat)
    requires TreeOk(p, st) && QueueOk(st) && i < |st.queue| && Current(st.distances, st.queue[i])
    ensures Farthest(Settled(st, i), st.queue[i].node) && st.queue[i].node !in st.settled
  {
    assert st.queue[i] in st.queue && LabelOk(st, st.queue[i]);
  }

  lemma Settle(p: Problem, st: State, i: nat)
    requires Invariant(p, st) && i < |st.queue|
    requires Current(st.distances, st.queue[i])
    requires forall l :: l in st.queue ==> st.queue[i].distance <= l.distance
    ensures st.queue[i].node !in st.settled && st.queue[i].node in Nodes(p)
    ensures Expanding(p, Settled(st, i), st.queue[i].node, {})
  {
    SettleKeepsQueue(st, i);
    SettleKeepsTree(p, st, i);
    SettleKeepsRelaxed(p, st, i);
    SettleIsFarthest(p, st, i);
    assert Reached(p, st, st.queue[i].node);
  }

  predicate Improves(distances: Distances, node: string, candidate: real) {
    node !in distances || candidate < distances[node]
  }

  ghost function Relax(st: State, node: string, s: Segment, candidate: real): State
    requires node in st.tree
  {
    if Improves(st.distances, s.to, candidate) then Improved(st, node, s, candidate) else st
  }

  ghost function Improved(st: State, node: string, s: Segment, candidate: real): State
    requires node in st.tree
  {
    State(st.distances[s.to := candidate], st.previous[s.to := (node, s)],
          st.queue + [Label(candidate, s.to)], st.settled, st.tree[s.to := st.tree[node] + [s]])
  }

  /** Settled nodes are no farther than the node being expanded. */
  ghost predicate Farthest(st: State, node: string) {
    node in st.settled && node in st.distances &&
    forall n :: n in st.settled ==> n in st.distances && st.distances[n] <= st.distances[node]
  }

  ghost predicate RelaxedSoFar(p: Problem, st: State, node: string, done: set<Segment>) {
    forall s :: s in p.segments && s.from in st.settled && (s.from != node || s in done) ==> Relaxed(p, st, s)
  }

  lemma ImprovementIsUnsettled(p: Problem, st: State, node: string, s: Segment)
    requires NonNegative(p.pricing, p.segments) && Farthest(st, node) && s in p.segments
    requires Improves(st.distances, s.to, st.distances[node] + Weight(s, p.pricing))
    ensures s.to !in st.settled && Weight(s, p.pricing) >= 0.0
  {
    assert Weight(s, p.pricing) >= 0.0;
  }

  /** The improved node carries its new path, and it is not the origin. */
  lemma ImprovedIsReached(p: Problem, st: State, node: string, s: Segment)
    requires NonNegative(p.pricing, p.segments) && TreeOk(p, st)
    requires node in st.settled && node in st.tree && node in st.distances
    requires s in p.segments && s.from == node
    requires Improves(st.distances, s.to, st.distances[node] + Weight(s, p.pricing))
    ensures s.to != p.origin
    ensures Reached(p, Improved(st, node, s, st.distances[node] + Weight(s, p.pricing)), s.to)
  {
    assert Reached(p, st, node) && Reached(p, st, p.origin);
    WalkStep(p.segments, p.origin, st.tree[node], s);
    PathCostStep(st.tree[node], s, p.pricing);
    PathCostNonNegative(p.segments, st.tree[node] + [s], p.pricing);
    assert st.distances[p.origin] == 0.0;
  }

  lemma ImprovementKeepsTree(p: Problem, st: State, node: string, s: Segment)
    requires NonNegative(p.pricing, p.segments) && TreeOk(p, st)
    requires node in st.settled && node in st.tree && node in st.distances
    requires s in p.segments && s.from == node && s.to !in st.settled
    requires Improves(st.distances, s.to, st.distances[node] + Weight(s, p.pricing))
    ensures TreeOk(p, Improved(st, node, s, st.distances[node] + Weight(s, p.pricing)))
  {
    var next := Improved(st, node, s, st.distances[node] + Weight(s, p.pricing));
    ImprovedIsReached(p, st, node, s);
    forall n | n in next.distances ensures Reached(p, next, n) && (n != p.origin ==> Linked(next, n)) {
      if n != s.to {
        assert Reached(p, st, n) && (n != p.origin ==> Linked(st, n));
      }
    }
  }

  lemma ImprovementKeepsQueue(st: State, node: string, s: Segment, candidate: real)
    requires QueueOk(st) && Farthest(st, node) && node in st.tree
    requires s.to !in st.settled && Improves(st.distances, s.to, candidate) && st.distances[node] <= candidate
    ensures QueueOk(Improved(st, node, s, candidate))
  {
    var next := Improved(st, node, s, candidate);
    forall l | l in st.queue && l.node == s.to ensures l.distance != candidate {
      assert LabelOk(st, l);
    }
    forall l | l in next.queue ensures LabelOk(next, l) {
      if l != Label(candidate, s.to) { assert LabelOk(st, l); }
    }
    forall n | n in next.distances && n !in next.settled ensures Queued(next, n) {
      if n != s.to { assert Queued(st, n); }
    }
  }

  lemma ImprovementKeepsRelaxed(p: Problem, st: State, node: string, done: set<Segment>, s: Segment)
    requires node in st.settled && node in st.distances && node in st.tree && s.from == node && s.to !in st.settled
    requires Improves(st.distances, s.to, st.distances[node] + Weight(s, p.pricing))
    requires RelaxedSoFar(p, st, node, done)
    ensures RelaxedSoFar(p, Improved(st, node, s, st.distances[node] + Weight(s, p.pricing)), node, done + {s})
  {
    var next := Improved(st, node, s, st.distances[node] + Weight(s, p.pricing));
    forall t | t in p.segments && t.from in next.settled && (t.from != node || t in done + {s})
      ensures Relaxed(p, next, t)
    {
      if t != s { assert Relaxed(p, st, t); }
    }
  }

  lemma ImprovementKeepsFarthest(st: State, node: string, s: Segment, candidate: real)
    requires Farthest(st, node) && node in st.tree && s.to !in st.settled
    ensures Farthest(Improved(st, node, s, candidate), node)
  {
  }

  lemma ImprovementKeepsExpanding(p: Problem, st: State, node: string, done: set<Segment>, s: Segment)
    requires NonNegative(p.pricing, p.segments) && Expanding(p, st, node, done) && node in st.tree
    requires s in p.segments && s.from == node
    requires Improves(st.distances, s.to, st.distances[node] + Weight(s, p.pricing))
    ensures s.to !in st.settled
    ensures Expanding(p, Improved(st, node, s, st.distances[node] + Weight(s, p.pricing)), node, done + {s})
  {
    var candidate := st.distances[node] + Weight(s, p.pricing);
    ImprovementIsUnsettled(p, st, node, s);
    ImprovementKeepsTree(p, st, node, s);
    ImprovementKeepsQueue(st, node, s, candidate);
    ImprovementKeepsRelaxed(p, st, node, done, s);
    ImprovementKeepsFarthest(st, node, s, candidate);
  }

  /** Relaxing a segment of the node being expanded never touches a settled node. */
  lemma RelaxKeepsExpanding(p: Problem, st: State, node: string, done: set<Segment>, s: Segment)
    requires NonNegative(p.pricing, p.segments) && Expanding(p, st, node, done)
    requires s in p.segments && s.from == node
    ensures node in st.tree
    ensures var next := Relax(st, node, s, st.distances[node] + Weight(s, p.pricing));
      && Expanding(p, next, node, done + {s})
      && next.settled == st.settled
      && next.distances[node] == st.distances[node]
  {
    assert Reached(p, st, node);
    if Improves(st.distances, s.to, st.distances[node] + Weight(s, p.pricing)) {
      ImprovementKeepsExpanding(p, st, node, done, s);
    } else {
      assert Relaxed(p, st, s);
    }
  }

  // ------------------------------------------------------------------ the program

  lemma TraceStep(st: State, cursor: string, collected: Path)
    requires Linked(st, cursor)
    ensures var (parent, segment) := st.previous[cursor];
      && |st.tree[parent]| < |st.tree[cursor]|
      && st.tree[parent] + Reverse(collected + [segment]) == st.tree[cursor] + Reverse(collected)
  {
    var (parent, segment) := st.previous[cursor];
    assert (collected + [segment])[..|collected|] == collected;
    assert Reverse(collected + [segment]) == [segment] + Reverse(collected);
  }

  /** Follows the `previous` pointers back to the origin; ends even when cycles of weight zero exist. */
  method TraceBack(p: Problem, previous: Parents, destination: string, ghost st: State) returns (path: Path)
    requires TreeOk(p, st) && previous == st.previous && destination in st.distances
    ensures destination in st.tree && path == st.tree[destination]
  {
    assert Reached(p, st, destination);
    var collected: Path := [];
    var cursor := destination;
    while cursor != p.origin
      invariant cursor in st.distances && cursor in st.tree && destination in st.tree
      invariant st.tree[cursor] + Reverse(collected) == st.tree[destination]
      decreases |st.tree[cursor]|
    {
      TraceStep(st, cursor, collected);
      var (parent, segment) := previous[cursor];
      collected := collected + [segment];
      cursor := parent;
    }
    path := Reverse(collected);
  }

  ghost predicate Tracks(st: State, distances: Distances, previous: Parents, queue: seq<Label>) {
    distances == st.distances && previous == st.previous && queue == st.queue
  }

  /** Relaxes one segment of the node being expanded. */
  method RelaxOne(p: Problem, node: string, distance: real, segment: Segment, before: Distances, parents: Parents,
                  heap: seq<Label>, ghost st: State, ghost done: set<Segment>)
    returns (distances: Distances, previous: Parents, queue: seq<Label>, ghost next: State)
    requires NonNegative(p.pricing, p.segments) && Expanding(p, st, node, done) && Tracks(st, before, parents, heap)
    requires node in before && distance == before[node]
    requires segment in p.segments && segment.from == node
    ensures Expanding(p, next, node, done + {segment}) && Tracks(next, distances, previous, queue)
    ensures next.settled == st.settled
    ensures node in distances && distance == distances[node]
  {
    RelaxKeepsExpanding(p, st, node, done, segment);
    distances, previous, queue := before, parents, heap;
    var candidate := distance + Weight(segment, p.pricing);
    next := Relax(st, node, segment, candidate);
    if Improves(distances, segment.to, candidate) {
      distances := distances[segment.to := candidate];
      previous := previous[segment.to := (node, segment)];
      queue := queue + [Label(candidate, segment.to)];
    }
  }

  method RelaxAll(p: Problem, node: string, distance: real, outgoing: seq<Segment>,
                  before: Distances, parents: Parents, heap: seq<Label>, ghost st: State)
    returns (distances: Distances, previous: Parents, queue: seq<Label>, ghost next: State)
    requires NonNegative(p.pricing, p.segments) && Expanding(p, st, node, {})
    requires Tracks(st, before, parents, heap)
    requires distance == before[node]
    requires forall s :: s in outgoing <==> s in p.segments && s.from == node
    ensures Tracks(next, distances, previous, queue)
    ensures next.settled == st.settled
    ensures Invariant(p, next)
  {
    distances, previous, queue, next := before, parents, heap, st;
    ghost var done: set<Segment> := {};
    for k := 0 to |outgoing|
      invariant Tracks(next, distances, previous, queue)
      invariant next.settled == st.settled
      invariant Expanding(p, next, node, done)
      invariant forall j :: 0 <= j < k ==> outgoing[j] in done
      invariant node in distances && distance == distances[node]
    {
      distances, previous, queue, next :=
        RelaxOne(p, node, distance, outgoing[k], distances, previous, queue, next, done);
      done := done + {outgoing[k]};
    }
    AllRelaxed(p, next, node, done);
  }

  lemma AllRelaxed(p: Problem, st: State, node: string, done: set<Segment>)
    requires Expanding(p, st, node, done)
    requires forall s :: s in p.segments && s.from == node ==> s in done
    ensures Invariant(p, st)
  {
  }

  /** No walk to the destination is better in the fields that the objective stands for. */
  lemma AnswerIsBestInFields(segments: seq<Segment>, origin: string, destination: string, pricing: Pricing,
                             answer: Option<(real, Path)>, other: Path)
    requires IsAnswer(segments, origin, destination, pricing, answer)
    requires Route(segments, origin, destination, other)
    ensures answer.Some? && NoWorse(pricing, answer.value.1, other)
  {
    CheaperIsNoWorse(pricing, answer.value.1, other);
  }

  method Search(segments: seq<Segment>, origin: string, destination: string, pricing: Pricing)
    returns (answer: Option<(real, Path)>)
    requires NonNegative(pricing, segments)
    ensures IsAnswer(segments, origin, destination, pricing, answer)
  {
    var p := Problem(segments, origin, pricing);
    var adjacency := BuildAdjacency(segments);
    var distances: Distances := map[origin := 0.0];
    var previous: Parents := map[];
    var queue := [Label(0.0, origin)];
    ghost var st := Start(p);
    ghost var final := false;
    while queue != []
      invariant Invariant(p, st) && !final
      invariant Tracks(st, distances, previous, queue)
      decreases Nodes(p) - st.settled, |queue|
    {
      var i := MinIndex(queue, LabelLe);
      var head := queue[i];
      LabelLeOrder();
      PopIsLeast(queue, LabelLe);
      queue := Without(queue, i);
      if !Current(distances, head) {
        DropStale(p, st, i);
        st := st.(queue := queue);
        continue;
      }
      if head.node == destination {
        final := true;
        break;
      }
      Settle(p, st, i);
      LookupContents(segments, head.node);
      st := Settled(st, i);
      distances, previous, queue, st :=
        RelaxAll(p, head.node, head.distance, Lookup(adjacency, head.node), distances, previous, queue, st);
    }
    if destination !in distances {
      if Reachable(segments, origin, destination) {
        EmptyQueueIsExhaustive(p, st, destination);
      }
      return None;
    }
    forall other | Route(segments, origin, destination, other)
      ensures distances[destination] <= PathCost(other, pricing)
    {
      HeadIsFinal(p, st, destination, other);
    }
    assert Reached(p, st, destination);
    var path := TraceBack(p, previous, destination, st);
    answer := Some((distances[destination], path));
  }
}
