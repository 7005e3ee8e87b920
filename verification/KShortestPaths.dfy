/** Best-first enumeration of simple paths (app/route_optimizer.py, k_shortest_paths). */
module KShortestPaths {
  import opened Basics
  import opened Ordering
  import opened HeapQueue
  import opened RouteGraph

  const EXPANSION_CAP := 5000

  datatype Query = Query(
    origins: set<string>,
    destinations: set<string>,
    pricing: Pricing,
    limit: int,
    maxHops: int)

  datatype Entry = Entry(cost: real, order: nat, node: string, visited: seq<string>, path: Path)

  /** The local variables of the enumeration. */
  datatype Search = Search(
    queue: seq<Entry>,
    sequence: nat,
    paths: seq<Path>,
    signatures: set<seq<string>>,
    expansions: nat)

  predicate EntryLe(a: Entry, b: Entry) {
    a.cost < b.cost || (a.cost == b.cost && a.order <= b.order)
  }

  // ------------------------------------------------------------------ the enumeration as a state machine

  function Seeds(origins: seq<string>): (queue: seq<Entry>)
    ensures |queue| == |origins|
    ensures forall i :: 0 <= i < |queue| ==> queue[i] == Entry(0.0, i, origins[i], [origins[i]], [])
  {
    seq(|origins|, i requires 0 <= i < |origins| => Entry(0.0, i, origins[i], [origins[i]], []))
  }

  function Start(q: Query): Search {
    Search(Seeds(SortedStrings(q.origins)), |q.origins|, [], {}, 0)
  }

  function Child(q: Query, e: Entry, s: Segment, order: nat): Entry {
    Entry(e.cost + Weight(s, q.pricing), order, s.to, e.visited + [s.to], e.path + [s])
  }

  /** Pushes one child for every outgoing segment that leads to an unvisited node. */
  function Expand(q: Query, st: Search, e: Entry, outgoing: seq<Segment>): Search
    decreases |outgoing|
  {
    if outgoing == [] then st
    else if outgoing[0].to in e.visited then Expand(q, st, e, outgoing[1..])
    else
      var pushed := st.(queue := st.queue + [Child(q, e, outgoing[0], st.sequence)],
                        sequence := st.sequence + 1,
                        expansions := st.expansions + 1);
      Expand(q, pushed, e, outgoing[1..])
  }

  predicate Running(q: Query, st: Search) {
    st.queue != [] && |st.paths| < q.limit && st.expansions < EXPANSION_CAP
  }

  function Popped(st: Search): (Entry, Search)
    requires st.queue != []
  {
    var i := MinIndex(st.queue, EntryLe);
    (st.queue[i], st.(queue := Without(st.queue, i)))
  }

  predicate Reports(q: Query, e: Entry) {
    e.node in q.destinations && e.path != []
  }

  predicate Expands(q: Query, e: Entry) {
    !Reports(q, e) && |e.path| < q.maxHops
  }

  /** One turn of the main loop. */
  function Step(q: Query, adjacency: Adjacency, st: Search): Search
    requires st.queue != []
  {
    var (e, rest) := Popped(st);
    if Reports(q, e) then
      if Signature(e.path) in rest.signatures then rest
      else rest.(signatures := rest.signatures + {Signature(e.path)}, paths := rest.paths + [e.path])
    else if Expands(q, e) then Expand(q, rest, e, Lookup(adjacency, e.node))
    else rest
  }

  function Budget(st: Search): nat {
    if st.expansions < EXPANSION_CAP then EXPANSION_CAP - st.expansions else 0
  }

  lemma {:induction false} ExpandGrows(q: Query, st: Search, e: Entry, outgoing: seq<Segment>)
    ensures var after := Expand(q, st, e, outgoing);
      && st.queue <= after.queue
      && after.expansions - st.expansions == |after.queue| - |st.queue|
      && after.paths == st.paths && after.signatures == st.signatures
    decreases |outgoing|
  {
    if outgoing != [] {
      if outgoing[0].to in e.visited {
        ExpandGrows(q, st, e, outgoing[1..]);
      } else {
        var pushed := st.(queue := st.queue + [Child(q, e, outgoing[0], st.sequence)],
                          sequence := st.sequence + 1, expansions := st.expansions + 1);
        ExpandGrows(q, pushed, e, outgoing[1..]);
      }
    }
  }

  /** Every turn spends budget or shortens the queue. */
  lemma StepProgress(q: Query, adjacency: Adjacency, st: Search)
    requires Running(q, st)
    ensures var next := Step(q, adjacency, st);
      Budget(next) < Budget(st) || (Budget(next) == Budget(st) && |next.queue| < |st.queue|)
  {
    var (e, rest) := Popped(st);
    ExpandGrows(q, rest, e, Lookup(adjacency, e.node));
  }

  ghost function Run(q: Query, adjacency: Adjacency, st: Search): Search
    decreases Budget(st), |st.queue|
  {
    if Running(q, st) then
      StepProgress(q, adjacency, st);
      Run(q, adjacency, Step(q, adjacency, st))
    else st
  }

  // ------------------------------------------------------------------ what is enumerated

  /** Simple, within the hop limit, from an origin to a destination, no destination in between. */
  ghost predicate Admissible(q: Query, segments: seq<Segment>, path: Path) {
    && path != []
    && |path| <= q.maxHops
    && path[0].from in q.origins
    && path[|path| - 1].to in q.destinations
    && Walk(segments, path[0].from, path)
    && NoDuplicates(Visited(path[0].from, path))
    && forall i :: 0 <= i < |path| - 1 ==> path[i].to !in q.destinations
  }

  ghost predicate EntryOk(q: Query, segments: seq<Segment>, e: Entry) {
    && |e.visited| > 0
    && e.visited[0] in q.origins
    && e.visited == Visited(e.visited[0], e.path)
    && e.node == End(e.visited[0], e.path)
    && e.cost == PathCost(e.path, q.pricing)
    && Walk(segments, e.visited[0], e.path)
    && NoDuplicates(e.visited)
    && (e.path != [] ==> |e.path| <= q.maxHops)
    && forall i :: 0 <= i < |e.path| - 1 ==> e.path[i].to !in q.destinations
  }

  /** The entry can still grow into the path. */
  ghost predicate Covers(e: Entry, path: Path)
    requires path != []
  {
    |e.visited| > 0 && e.visited[0] == path[0].from && e.path <= path
  }

  ghost predicate Reported(paths: seq<Path>, path: Path, pricing: Pricing) {
    exists i :: 0 <= i < |paths| && Signature(paths[i]) == Signature(path)
             && PathCost(paths[i], pricing) <= PathCost(path, pricing)
  }

  /** The signature set is exactly the signatures of the paths, each of them once. */
  ghost predicate Indexed(paths: seq<Path>, signatures: set<seq<string>>) {
    && (forall i :: 0 <= i < |paths| ==> Signature(paths[i]) in signatures)
    && (forall sig :: sig in signatures ==> exists i :: 0 <= i < |paths| && Signature(paths[i]) == sig)
    && (forall i, j :: 0 <= i < j < |paths| ==> Signature(paths[i]) != Signature(paths[j]))
  }

  ghost predicate Sound(q: Query, segments: seq<Segment>, st: Search) {
    && (forall e :: e in st.queue ==> EntryOk(q, segments, e))
    && (forall p :: p in st.paths ==> Admissible(q, segments, p))
    && Indexed(st.paths, st.signatures)
    && |st.paths| <= Max(q.limit, 0)
  }

  /** Costs come out in order, and nothing left in the queue is cheaper. */
  ghost predicate InOrder(q: Query, st: Search) {
    && (forall i, j :: 0 <= i < j < |st.paths| ==>
          PathCost(st.paths[i], q.pricing) <= PathCost(st.paths[j], q.pricing))
    && (forall p, e :: p in st.paths && e in st.queue ==> PathCost(p, q.pricing) <= e.cost)
  }

  ghost predicate Pending(st: Search, path: Path)
    requires path != []
  {
    exists e :: e in st.queue && Covers(e, path)
  }

  ghost predicate Complete(q: Query, segments: seq<Segment>, st: Search) {
    forall p :: Admissible(q, segments, p) ==> Reported(st.paths, p, q.pricing) || Pending(st, p)
  }

  ghost predicate Invariant(q: Query, segments: seq<Segment>, st: Search) {
    && Sound(q, segments, st)
    && (NonNegative(q.pricing, segments) ==> InOrder(q, st) && Complete(q, segments, st))
  }

  // ------------------------------------------------------------------ the invariant is kept

  lemma SeedIsOk(q: Query, segments: seq<Segment>, i: nat)
    requires i < |q.origins|
    ensures EntryOk(q, segments, Start(q).queue[i])
  {
    var e := Start(q).queue[i];
    assert e.visited == Visited(e.visited[0], e.path);
  }

  lemma StartIsComplete(q: Query, segments: seq<Segment>)
    ensures Complete(q, segments, Start(q))
  {
    var st := Start(q);
    var origins := SortedStrings(q.origins);
    forall p: Path | Admissible(q, segments, p) ensures Pending(st, p) {
      var i :| 0 <= i < |origins| && origins[i] == p[0].from;
      assert Covers(st.queue[i], p);
    }
  }

  lemma StartKeepsInvariant(q: Query, segments: seq<Segment>)
    ensures Invariant(q, segments, Start(q))
  {
    forall e | e in Start(q).queue ensures EntryOk(q, segments, e) {
      var i :| 0 <= i < |q.origins| && Start(q).queue[i] == e;
      SeedIsOk(q, segments, i);
    }
    StartIsComplete(q, segments);
  }

  /** What an expansion adds to the queue: the children of the entry, all of them and nothing else. */
  lemma {:induction false} ExpandContents(q: Query, st: Search, e: Entry, outgoing: seq<Segment>)
    ensures var after := Expand(q, st, e, outgoing);
      && (forall x :: x in after.queue ==> (x in st.queue ||
            exists s :: s in outgoing && s.to !in e.visited && x == Child(q, e, s, x.order)))
      && (forall x :: x in st.queue ==> x in after.queue)
      && (forall s :: s in outgoing && s.to !in e.visited ==>
            exists order :: Child(q, e, s, order) in after.queue)
    decreases |outgoing|
  {
    if outgoing != [] {
      assert outgoing == [outgoing[0]] + outgoing[1..];
      if outgoing[0].to in e.visited {
        ExpandContents(q, st, e, outgoing[1..]);
      } else {
        var child := Child(q, e, outgoing[0], st.sequence);
        var pushed := st.(queue := st.queue + [child], sequence := st.sequence + 1, expansions := st.expansions + 1);
        ExpandContents(q, pushed, e, outgoing[1..]);
        assert child in pushed.queue;
      }
    }
  }

  lemma ChildOk(q: Query, segments: seq<Segment>, e: Entry, s: Segment, order: nat)
    requires EntryOk(q, segments, e) && |e.path| < q.maxHops
    requires s in segments && s.from == e.node && s.to !in e.visited
    requires e.node !in q.destinations || e.path == []
    ensures EntryOk(q, segments, Child(q, e, s, order))
  {
    var child := Child(q, e, s, order);
    WalkStep(segments, e.visited[0], e.path, s);
    PathCostStep(e.path, s, q.pricing);
    assert child.visited[0] == e.visited[0];
  }

  /** A turn that expands, read off the network: the popped entry makes way for its children. */
  lemma StepExpands(q: Query, segments: seq<Segment>, st: Search)
    requires st.queue != [] && Expands(q, Popped(st).0)
    ensures var (e, rest) := Popped(st);
      var next := Step(q, AdjacencyOf(segments), st);
      && next.paths == st.paths && next.signatures == st.signatures
      && (forall x :: x in next.queue ==> (x in rest.queue || IsChild(q, segments, e, x)))
      && (forall x :: x in rest.queue ==> x in next.queue)
      && (forall s :: s in segments && s.from == e.node && s.to !in e.visited ==>
            exists order :: Child(q, e, s, order) in next.queue)
  {
    var (e, rest) := Popped(st);
    var outgoing := Lookup(AdjacencyOf(segments), e.node);
    ExpandGrows(q, rest, e, outgoing);
    ExpandContents(q, rest, e, outgoing);
    LookupContents(segments, e.node);
  }

  ghost predicate IsChild(q: Query, segments: seq<Segment>, e: Entry, x: Entry) {
    exists s :: s in segments && s.from == e.node && s.to !in e.visited && x == Child(q, e, s, x.order)
  }

  lemma ReportedEntryIsAdmissible(q: Query, segments: seq<Segment>, e: Entry)
    requires EntryOk(q, segments, e) && Reports(q, e)
    ensures Admissible(q, segments, e.path)
  {
    assert e.path[0].from == e.visited[0];
  }

  lemma IndexedSnoc(paths: seq<Path>, signatures: set<seq<string>>, p: Path)
    requires Indexed(paths, signatures) && Signature(p) !in signatures
    ensures Indexed(paths + [p], signatures + {Signature(p)})
  {
    var extended := paths + [p];
    forall sig | sig in signatures + {Signature(p)}
      ensures exists i :: 0 <= i < |extended| && Signature(extended[i]) == sig
    {
      if sig in signatures {
        var i :| 0 <= i < |paths| && Signature(paths[i]) == sig;
        assert extended[i] == paths[i];
      } else {
        assert extended[|paths|] == p;
      }
    }
  }

  lemma ReportKeepsSound(q: Query, segments: seq<Segment>, st: Search)
    requires Running(q, st) && Sound(q, segments, st) && Reports(q, Popped(st).0)
    ensures Sound(q, segments, Step(q, AdjacencyOf(segments), st))
  {
    var (e, rest) := Popped(st);
    assert e in st.queue;
    if Signature(e.path) !in st.signatures {
      ReportedEntryIsAdmissible(q, segments, e);
      IndexedSnoc(st.paths, st.signatures, e.path);
    }
  }

  lemma ExpansionKeepsSound(q: Query, segments: seq<Segment>, st: Search)
    requires Running(q, st) && Sound(q, segments, st) && Expands(q, Popped(st).0)
    ensures Sound(q, segments, Step(q, AdjacencyOf(segments), st))
  {
    var (e, rest) := Popped(st);
    var next := Step(q, AdjacencyOf(segments), st);
    assert e in st.queue && EntryOk(q, segments, e);
    StepExpands(q, segments, st);
    forall x | x in next.queue ensures EntryOk(q, segments, x) {
      if x !in rest.queue {
        var s :| s in segments && s.from == e.node && s.to !in e.visited && x == Child(q, e, s, x.order);
        ChildOk(q, segments, e, s, x.order);
      }
    }
  }

  lemma StepKeepsSound(q: Query, segments: seq<Segment>, st: Search)
    requires Running(q, st) && Sound(q, segments, st)
    ensures Sound(q, segments, Step(q, AdjacencyOf(segments), st))
  {
    var e := Popped(st).0;
    if Reports(q, e) {
      ReportKeepsSound(q, segments, st);
    } else if Expands(q, e) {
      ExpansionKeepsSound(q, segments, st);
    }
  }

  lemma PoppedIsCheapest(st: Search)
    requires st.queue != []
    ensures var (e, rest) := Popped(st);
      && e in st.queue
      && (forall x :: x in st.queue ==> e.cost <= x.cost)
      && (forall x :: x in rest.queue ==> x in st.queue)
      && (forall x :: x in st.queue ==> x == e || x in rest.queue)
  {
    PopIsLeast(st.queue, EntryLe);
  }

  lemma ChildrenCostNoLess(q: Query, segments: seq<Segment>, st: Search)
    requires Running(q, st) && Expands(q, Popped(st).0) && NonNegative(q.pricing, segments)
    ensures forall x :: x in Step(q, AdjacencyOf(segments), st).queue ==>
      x in Popped(st).1.queue || Popped(st).0.cost <= x.cost
  {
    var (e, rest) := Popped(st);
    StepExpands(q, segments, st);
    forall x | x in Step(q, AdjacencyOf(segments), st).queue && x !in rest.queue ensures e.cost <= x.cost {
      var s :| s in segments && s.from == e.node && s.to !in e.visited && x == Child(q, e, s, x.order);
      assert Weight(s, q.pricing) >= 0.0;
    }
  }

  /** A turn reports at most the popped path, and queues nothing cheaper than the popped entry. */
  lemma StepFromCheapest(q: Query, segments: seq<Segment>, st: Search)
    requires Running(q, st) && Sound(q, segments, st) && NonNegative(q.pricing, segments)
    ensures var (e, next) := (Popped(st).0, Step(q, AdjacencyOf(segments), st));
      && (forall x :: x in next.queue ==> e.cost <= x.cost)
      && (next.paths == st.paths || next.paths == st.paths + [e.path])
      && e in st.queue && e.cost == PathCost(e.path, q.pricing)
  {
    var e := Popped(st).0;
    PoppedIsCheapest(st);
    assert EntryOk(q, segments, e);
    if Expands(q, e) {
      StepExpands(q, segments, st);
      ChildrenCostNoLess(q, segments, st);
    }
  }

  lemma StepKeepsInOrder(q: Query, segments: seq<Segment>, st: Search)
    requires Running(q, st) && Sound(q, segments, st) && InOrder(q, st)
    requires NonNegative(q.pricing, segments)
    ensures InOrder(q, Step(q, AdjacencyOf(segments), st))
  {
    StepFromCheapest(q, segments, st);
    OrderedNext(q, st, Popped(st).0, Step(q, AdjacencyOf(segments), st));
  }

  lemma OrderedNext(q: Query, st: Search, e: Entry, next: Search)
    requires InOrder(q, st) && e in st.queue && e.cost == PathCost(e.path, q.pricing)
    requires forall x :: x in next.queue ==> e.cost <= x.cost
    requires next.paths == st.paths || next.paths == st.paths + [e.path]
    ensures InOrder(q, next)
  {
    forall p, x | p in next.paths && x in next.queue ensures PathCost(p, q.pricing) <= x.cost {
      assert p in st.paths || p == e.path;
    }
    forall i, j | 0 <= i < j < |next.paths|
      ensures PathCost(next.paths[i], q.pricing) <= PathCost(next.paths[j], q.pricing)
    {
      assert next.paths[i] == st.paths[i] && st.paths[i] in st.paths;
      assert j < |st.paths| ==> next.paths[j] == st.paths[j];
    }
  }

  lemma CoveredPathIsLonger(q: Query, segments: seq<Segment>, e: Entry, p: Path)
    requires EntryOk(q, segments, e) && Admissible(q, segments, p) && Covers(e, p) && !Reports(q, e)
    ensures |e.path| < |p|
  {
    assert |e.path| == |p| ==> e.path == p;
  }

  /** The next segment of a covered path is one the expansion pushes. */
  lemma NextHop(q: Query, segments: seq<Segment>, e: Entry, p: Path) returns (s: Segment)
    requires EntryOk(q, segments, e) && Admissible(q, segments, p) && Covers(e, p) && !Reports(q, e)
    ensures Expands(q, e)
    ensures s in segments && s.from == e.node && s.to !in e.visited && e.path + [s] <= p
  {
    CoveredPathIsLonger(q, segments, e, p);
    s := p[|e.path|];
    SimpleWalkNext(segments, p[0].from, e.path, p);
  }

  /** An expanded entry hands the paths it covers to one of its children. */
  lemma ExpandedEntryIsCovered(q: Query, segments: seq<Segment>, st: Search, p: Path)
    requires Running(q, st) && Sound(q, segments, st)
    requires Admissible(q, segments, p) && Covers(Popped(st).0, p)
    requires !Reports(q, Popped(st).0)
    ensures Pending(Step(q, AdjacencyOf(segments), st), p)
  {
    var e := Popped(st).0;
    assert e in st.queue;
    var s := NextHop(q, segments, e, p);
    StepExpands(q, segments, st);
    var order :| Child(q, e, s, order) in Step(q, AdjacencyOf(segments), st).queue;
    assert Covers(Child(q, e, s, order), p);
  }

  lemma StepKeepsComplete(q: Query, segments: seq<Segment>, st: Search)
    requires Running(q, st) && Sound(q, segments, st) && InOrder(q, st) && Complete(q, segments, st)
    ensures Complete(q, segments, Step(q, AdjacencyOf(segments), st))
  {
    var next := Step(q, AdjacencyOf(segments), st);
    forall p: Path | Admissible(q, segments, p)
      ensures Reported(next.paths, p, q.pricing) || Pending(next, p)
    {
      if Reported(st.paths, p, q.pricing) {
        StepKeepsReported(q, segments, st, p);
      } else {
        StepKeepsPending(q, segments, st, p);
      }
    }
  }

  lemma StepGrows(q: Query, segments: seq<Segment>, st: Search)
    requires Running(q, st)
    ensures var (rest, next) := (Popped(st).1, Step(q, AdjacencyOf(segments), st));
      st.paths <= next.paths && forall x :: x in rest.queue ==> x in next.queue
  {
    var (e, rest) := Popped(st);
    ExpandGrows(q, rest, e, Lookup(AdjacencyOf(segments), e.node));
  }

  lemma StepKeepsReported(q: Query, segments: seq<Segment>, st: Search, p: Path)
    requires Running(q, st) && Reported(st.paths, p, q.pricing)
    ensures Reported(Step(q, AdjacencyOf(segments), st).paths, p, q.pricing)
  {
    StepGrows(q, segments, st);
    var i :| 0 <= i < |st.paths| && Signature(st.paths[i]) == Signature(p)
          && PathCost(st.paths[i], q.pricing) <= PathCost(p, q.pricing);
    assert Step(q, AdjacencyOf(segments), st).paths[i] == st.paths[i];
  }

  lemma StepKeepsPending(q: Query, segments: seq<Segment>, st: Search, p: Path)
    requires Running(q, st) && Sound(q, segments, st) && InOrder(q, st)
    requires Admissible(q, segments, p) && Pending(st, p)
    ensures var next := Step(q, AdjacencyOf(segments), st);
      Reported(next.paths, p, q.pricing) || Pending(next, p)
  {
    var (e, rest) := Popped(st);
    var c :| c in st.queue && Covers(c, p);
    if c in rest.queue {
      StepGrows(q, segments, st);
    } else {
      PoppedIsCheapest(st);
      if Reports(q, e) {
        PoppedDestinationIsReported(q, segments, st, p);
      } else {
        ExpandedEntryIsCovered(q, segments, st, p);
      }
    }
  }

  /** An entry at a destination that covers a path has grown into all of it. */
  lemma CoveredPathIsWhole(q: Query, segments: seq<Segment>, e: Entry, p: Path)
    requires EntryOk(q, segments, e) && Admissible(q, segments, p) && Covers(e, p) && Reports(q, e)
    ensures e.path == p
  {
    var n := |e.path|;
    assert e.path[n - 1] == p[n - 1];
  }

  /** Popping a path reports it, unless its signature was reported, at no greater cost, before. */
  lemma PoppedPathIsReported(q: Query, adjacency: Adjacency, st: Search)
    requires st.queue != [] && Reports(q, Popped(st).0) && Indexed(st.paths, st.signatures)
    requires forall r :: r in st.paths ==> PathCost(r, q.pricing) <= PathCost(Popped(st).0.path, q.pricing)
    ensures Reported(Step(q, adjacency, st).paths, Popped(st).0.path, q.pricing)
  {
    var p := Popped(st).0.path;
    if Signature(p) in st.signatures {
      var i :| 0 <= i < |st.paths| && Signature(st.paths[i]) == Signature(p);
      assert st.paths[i] in st.paths;
    } else {
      assert (st.paths + [p])[|st.paths|] == p;
    }
  }

  /** A popped entry at a destination is the covered path itself, and its signature is then reported. */
  lemma PoppedDestinationIsReported(q: Query, segments: seq<Segment>, st: Search, p: Path)
    requires Running(q, st) && Sound(q, segments, st) && InOrder(q, st)
    requires Admissible(q, segments, p) && Covers(Popped(st).0, p)
    requires Reports(q, Popped(st).0)
    ensures Reported(Step(q, AdjacencyOf(segments), st).paths, p, q.pricing)
  {
    var e := Popped(st).0;
    assert e in st.queue && EntryOk(q, segments, e);
    CoveredPathIsWhole(q, segments, e, p);
    PoppedPathIsReported(q, AdjacencyOf(segments), st);
  }

  lemma StepKeepsInvariant(q: Query, segments: seq<Segment>, st: Search)
    requires Running(q, st) && Invariant(q, segments, st)
    ensures Invariant(q, segments, Step(q, AdjacencyOf(segments), st))
  {
    StepKeepsSound(q, segments, st);
    if NonNegative(q.pricing, segments) {
      StepKeepsInOrder(q, segments, st);
      StepKeepsComplete(q, segments, st);
    }
  }

  lemma {:induction false} RunKeepsInvariant(q: Query, segments: seq<Segment>, st: Search)
    requires Invariant(q, segments, st)
    ensures Invariant(q, segments, Run(q, AdjacencyOf(segments), st))
    ensures !Running(q, Run(q, AdjacencyOf(segments), st))
    decreases Budget(st), |st.queue|
  {
    if Running(q, st) {
      StepProgress(q, AdjacencyOf(segments), st);
      StepKeepsInvariant(q, segments, st);
      RunKeepsInvariant(q, segments, Step(q, AdjacencyOf(segments), st));
    }
  }

  // ------------------------------------------------------------------ main results

  ghost function Enumeration(q: Query, segments: seq<Segment>): Search {
    Run(q, AdjacencyOf(segments), Start(q))
  }

  /** Whatever the weights, only admissible paths are returned, each signature once, at most `limit`. */
  lemma ReturnedPathsAreAdmissible(q: Query, segments: seq<Segment>)
    ensures var paths := Enumeration(q, segments).paths;
      && (forall p :: p in paths ==> Admissible(q, segments, p))
      && (forall i, j :: 0 <= i < j < |paths| ==> Signature(paths[i]) != Signature(paths[j]))
      && |paths| <= Max(q.limit, 0)
  {
    StartKeepsInvariant(q, segments);
    RunKeepsInvariant(q, segments, Start(q));
  }

  /**
   * With nonnegative weights the result is a list of best paths in nondecreasing cost, even when the
   * cap cuts the search short: an admissible path is either matched by a returned path of the same
   * signature that costs no more, or costs at least as much as every returned path.
   */
  lemma ReturnedPathsAreBest(q: Query, segments: seq<Segment>)
    requires NonNegative(q.pricing, segments)
    ensures var paths := Enumeration(q, segments).paths;
      && (forall i, j :: 0 <= i < j < |paths| ==> PathCost(paths[i], q.pricing) <= PathCost(paths[j], q.pricing))
      && (forall p :: Admissible(q, segments, p) ==>
            Reported(paths, p, q.pricing) ||
            forall r :: r in paths ==> PathCost(r, q.pricing) <= PathCost(p, q.pricing))
  {
    StartKeepsInvariant(q, segments);
    RunKeepsInvariant(q, segments, Start(q));
    var st := Enumeration(q, segments);
    forall p, r | Admissible(q, segments, p) && !Reported(st.paths, p, q.pricing) && r in st.paths
      ensures PathCost(r, q.pricing) <= PathCost(p, q.pricing)
    {
      var e :| e in st.queue && Covers(e, p);
      assert EntryOk(q, segments, e);
      PrefixCostsLess(segments, e.path, p, q.pricing);
    }
  }

  /** In particular no admissible path is cheaper than the first one returned. */
  lemma FirstPathIsCheapest(q: Query, segments: seq<Segment>, p: Path)
    requires NonNegative(q.pricing, segments) && Enumeration(q, segments).paths != [] && Admissible(q, segments, p)
    ensures PathCost(Enumeration(q, segments).paths[0], q.pricing) <= PathCost(p, q.pricing)
  {
    ReturnedPathsAreBest(q, segments);
    var paths := Enumeration(q, segments).paths;
    assert paths[0] in paths;
  }

  /** The same of the fields that the objective stands for: dollars, days, risk scores or their blend. */
  lemma ReturnedPathsAreBestInFields(q: Query, segments: seq<Segment>)
    requires NonNegative(q.pricing, segments)
    ensures var paths := Enumeration(q, segments).paths;
      && (forall i, j :: 0 <= i < j < |paths| ==> NoWorse(q.pricing, paths[i], paths[j]))
      && (forall p :: Admissible(q, segments, p) && paths != [] ==> NoWorse(q.pricing, paths[0], p))
      && (forall p, r :: Admissible(q, segments, p) && !SignatureKnown(paths, p) && r in paths ==>
            NoWorse(q.pricing, r, p))
  {
    ReturnedPathsAreBest(q, segments);
    var paths := Enumeration(q, segments).paths;
    forall i, j | 0 <= i < j < |paths| ensures NoWorse(q.pricing, paths[i], paths[j]) {
      CheaperIsNoWorse(q.pricing, paths[i], paths[j]);
    }
    forall p: Path | Admissible(q, segments, p) && paths != [] ensures NoWorse(q.pricing, paths[0], p) {
      FirstPathIsCheapest(q, segments, p);
      CheaperIsNoWorse(q.pricing, paths[0], p);
    }
    forall p: Path, r | Admissible(q, segments, p) && !SignatureKnown(paths, p) && r in paths
      ensures NoWorse(q.pricing, r, p)
    {
      assert !Reported(paths, p, q.pricing);
      CheaperIsNoWorse(q.pricing, r, p);
    }
  }

  /** Some returned path has this signature. */
  ghost predicate SignatureKnown(paths: seq<Path>, p: Path) {
    exists i :: 0 <= i < |paths| && Signature(paths[i]) == Signature(p)
  }

  /** When the queue ran empty, in particular when neither limit nor cap was reached, nothing is missing. */
  lemma UncutSearchIsExhaustive(q: Query, segments: seq<Segment>)
    requires NonNegative(q.pricing, segments)
    requires var end := Enumeration(q, segments);
      end.queue == [] || (|end.paths| < q.limit && end.expansions < 5000)
    ensures forall p :: Admissible(q, segments, p) ==> Reported(Enumeration(q, segments).paths, p, q.pricing)
  {
    StartKeepsInvariant(q, segments);
    RunKeepsInvariant(q, segments, Start(q));
    assert Enumeration(q, segments).queue == [];
  }

  /** With distinct segment ids, the enumeration does not depend on the order of the segments. */
  lemma EnumerationForgetsOrder(q: Query, segments: seq<Segment>, permuted: seq<Segment>)
    requires multiset(segments) == multiset(permuted)
    requires forall a, b :: a in segments && b in segments && a.segmentId == b.segmentId ==> a == b
    ensures Enumeration(q, segments) == Enumeration(q, permuted)
  {
    AdjacencyForgetsOrder(segments, permuted);
  }

  // ------------------------------------------------------------------ the program's loop

  method PushChildren(q: Query, e: Entry, outgoing: seq<Segment>,
                      before: seq<Entry>, start: nat, spent: nat,
                      ghost paths: seq<Path>, ghost signatures: set<seq<string>>)
    returns (queue: seq<Entry>, sequence: nat, expansions: nat)
    ensures Search(queue, sequence, paths, signatures, expansions)
         == Expand(q, Search(before, start, paths, signatures, spent), e, outgoing)
  {
    queue, sequence, expansions := before, start, spent;
    for k := 0 to |outgoing|
      invariant Expand(q, Search(queue, sequence, paths, signatures, expansions), e, outgoing[k..])
             == Expand(q, Search(before, start, paths, signatures, spent), e, outgoing)
    {
      assert outgoing[k..][1..] == outgoing[k + 1..];
      if outgoing[k].to !in e.visited {
        queue := queue + [Child(q, e, outgoing[k], sequence)];
        sequence := sequence + 1;
        expansions := expansions + 1;
      }
    }
  }

  /**
   * The enumeration itself. The second result is the expansion counter at exit, which tells
   * whether the cap was reached.
   */
  method Enumerate(q: Query, segments: seq<Segment>) returns (paths: seq<Path>, expansions: nat)
    ensures paths == Enumeration(q, segments).paths
    ensures expansions == Enumeration(q, segments).expansions
  {
    var adjacency := BuildAdjacency(segments);
    var queue: seq<Entry> := [];
    var sequence: nat := 0;
    var origins := SortedStrings(q.origins);
    while sequence < |origins|
      invariant sequence <= |origins|
      invariant queue == Seeds(origins)[..sequence]
    {
      queue := queue + [Entry(0.0, sequence, origins[sequence], [origins[sequence]], [])];
      sequence := sequence + 1;
    }
    paths := [];
    var signatures: set<seq<string>> := {};
    expansions := 0;
    ghost var st := Start(q);
    while queue != [] && |paths| < q.limit && expansions < EXPANSION_CAP
      invariant st == Search(queue, sequence, paths, signatures, expansions)
      invariant Run(q, adjacency, st) == Enumeration(q, segments)
      decreases Budget(st), |queue|
    {
      StepProgress(q, adjacency, st);
      ghost var next := Step(q, adjacency, st);
      var i := MinIndex(queue, EntryLe);
      var e := queue[i];
      queue := Without(queue, i);
      if e.node in q.destinations && e.path != [] {
        var signature := Signature(e.path);
        if signature !in signatures {
          signatures := signatures + {signature};
          paths := paths + [e.path];
        }
      } else if |e.path| < q.maxHops {
        queue, sequence, expansions :=
          PushChildren(q, e, Lookup(adjacency, e.node), queue, sequence, expansions, paths, signatures);
      }
      st := next;
    }
  }
}
