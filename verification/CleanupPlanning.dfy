/** Planning which nodes are safe to delete (scripts/cleanup_synthetic_data.py, build_cleanup_plan). */
module CleanupPlanning {
  import opened Basics
  import opened Ordering

  /** A graph node with the reasons that protect it, if any. */
  datatype Node = Node(id: string, protection: set<string>)

  datatype Relationship = Relationship(kind: string, start: Node, end: Node)

  datatype Reason =
    | ProtectedLink(kind: string, protection: set<string>)
    | BoundaryLink(kind: string)
    | DependsOn(id: string)

  datatype Disposition = Protected(protection: set<string>) | Blocked(reasons: set<Reason>) | Candidate

  /** What the plan is made from. */
  datatype Request = Request(selected: seq<Node>, links: seq<Relationship>, allowBoundary: bool)

  /** The selected nodes by id; of several nodes with one id the last counts. */
  function ById(nodes: seq<Node>): map<string, Node> {
    if nodes == [] then map[] else ById(nodes[..|nodes| - 1])[nodes[|nodes| - 1].id := nodes[|nodes| - 1]]
  }

  function Candidates(r: Request): set<string> {
    set id | id in ById(r.selected) && ById(r.selected)[id].protection == {}
  }

  /** An endpoint as the plan sees it: the selected node of that id, or else the relationship's own copy. */
  function Resolve(r: Request, endpoint: Node): Node {
    if endpoint.id in ById(r.selected) then ById(r.selected)[endpoint.id] else endpoint
  }

  /** Why a link to a node that is no candidate blocks a candidate, if it does. */
  function LinkReasons(r: Request, kind: string, neighbor: Node): set<Reason> {
    var protection := Resolve(r, neighbor).protection;
    if protection != {} then {ProtectedLink(kind, protection)}
    else if !r.allowBoundary then {BoundaryLink(kind)}
    else {}
  }

  // ------------------------------------------------------------------ safe sets

  /** The far end of a link may stay behind, or goes as well. */
  ghost predicate FarEndOk(r: Request, chosen: set<string>, far: Node) {
    far.id in chosen || (far.id !in Candidates(r) && r.allowBoundary && Resolve(r, far).protection == {})
  }

  /** A set of candidates that leaves no link from a deleted node to anything that must stay connected. */
  ghost predicate Safe(r: Request, chosen: set<string>) {
    && chosen <= Candidates(r)
    && forall link :: link in r.links ==>
         && (link.start.id in chosen ==> FarEndOk(r, chosen, link.end))
         && (link.end.id in chosen ==> FarEndOk(r, chosen, link.start))
  }

  /** With boundary links disallowed, every link that touches a deleted node has both ends deleted. */
  lemma SafeLeavesNoDanglingLink(r: Request, chosen: set<string>, link: Relationship)
    requires Safe(r, chosen) && link in r.links && !r.allowBoundary
    ensures link.start.id in chosen <==> link.end.id in chosen
  {
  }

  /** In either mode, no deleted node touches a protected node or a candidate that stays. */
  lemma SafeTouchesNothingKept(r: Request, chosen: set<string>, link: Relationship, near: Node, far: Node)
    requires Safe(r, chosen) && link in r.links
    requires (near == link.start && far == link.end) || (near == link.end && far == link.start)
    requires near.id in chosen
    ensures Resolve(r, far).protection == {}
    ensures far.id in Candidates(r) ==> far.id in chosen
  {
  }

  /** Safe sets are closed under union, so a greatest one exists. */
  lemma SafeUnion(r: Request, first: set<string>, second: set<string>)
    requires Safe(r, first) && Safe(r, second)
    ensures Safe(r, first + second)
  {
    forall link | link in r.links
      ensures link.start.id in first + second ==> FarEndOk(r, first + second, link.end)
      ensures link.end.id in first + second ==> FarEndOk(r, first + second, link.start)
    {
      assert link.start.id in first ==> FarEndOk(r, first, link.end);
      assert link.start.id in second ==> FarEndOk(r, second, link.end);
      assert link.end.id in first ==> FarEndOk(r, first, link.start);
      assert link.end.id in second ==> FarEndOk(r, second, link.start);
    }
  }

  ghost predicate GreatestSafe(r: Request, chosen: set<string>) {
    Safe(r, chosen) && forall other :: Safe(r, other) ==> other <= chosen
  }

  // ------------------------------------------------------------------ the program

  type Links = map<string, set<string>>
  type Blocks = map<string, set<Reason>>

  function Neighbors(adjacency: Links, id: string): set<string> {
    if id in adjacency then adjacency[id] else {}
  }

  /** The reasons recorded for the candidate so far. */
  function ReasonsFor(blocked: Blocks, id: string): set<Reason> {
    if id in blocked then blocked[id] else {}
  }

  function AddBlock(blocked: Blocks, id: string, reasons: set<Reason>): Blocks {
    if reasons == {} then blocked
    else blocked[id := ReasonsFor(blocked, id) + reasons]
  }

  /** The link joins two candidates, one of them `a` and the other `b`. */
  ghost predicate Joins(r: Request, link: Relationship, a: string, b: string) {
    && a in Candidates(r) && b in Candidates(r)
    && ((link.start.id == a && link.end.id == b) || (link.start.id == b && link.end.id == a))
  }

  /** The link, to a node that is no candidate, gives this reason to keep the candidate. */
  ghost predicate GivesReason(r: Request, link: Relationship, id: string, reason: Reason) {
    && id in Candidates(r)
    && ((link.start.id == id && link.end.id !in Candidates(r) && reason in LinkReasons(r, link.kind, link.end))
        || (link.end.id == id && link.start.id !in Candidates(r) && reason in LinkReasons(r, link.kind, link.start)))
  }

  ghost predicate NeighborsRead(r: Request, links: seq<Relationship>, adjacency: Links) {
    forall a, b :: b in Neighbors(adjacency, a) <==> exists link :: link in links && Joins(r, link, a, b)
  }

  ghost predicate ReasonsRead(r: Request, links: seq<Relationship>, blocked: Blocks) {
    && (forall id, reason :: reason in ReasonsFor(blocked, id) <==>
          exists link :: link in links && GivesReason(r, link, id, reason))
    && (forall id :: id in blocked ==> blocked[id] != {})
  }

  ghost predicate LinksRead(r: Request, links: seq<Relationship>, adjacency: Links, blocked: Blocks) {
    NeighborsRead(r, links, adjacency) && ReasonsRead(r, links, blocked)
  }

  method ReadLink(r: Request, candidates: set<string>, link: Relationship, before: Links, reasons: Blocks)
    returns (adjacency: Links, blocked: Blocks)
    requires candidates == Candidates(r)
    requires forall id :: id in reasons ==> reasons[id] != {}
    ensures forall a, b :: b in Neighbors(adjacency, a) <==> b in Neighbors(before, a) || Joins(r, link, a, b)
    ensures forall id, reason :: reason in ReasonsFor(blocked, id) <==>
      reason in ReasonsFor(reasons, id) || GivesReason(r, link, id, reason)
    ensures forall id :: id in blocked ==> blocked[id] != {}
  {
    adjacency, blocked := before, reasons;
    var start, end := link.start, link.end;
    if start.id in candidates && end.id in candidates {
      adjacency := adjacency[start.id := Neighbors(adjacency, start.id) + {end.id}];
      adjacency := adjacency[end.id := Neighbors(adjacency, end.id) + {start.id}];
      return;
    }
    if start.id in candidates && end.id !in candidates {
      blocked := AddBlock(blocked, start.id, LinkReasons(r, link.kind, end));
    }
    if end.id in candidates && start.id !in candidates {
      blocked := AddBlock(blocked, end.id, LinkReasons(r, link.kind, start));
    }
  }

  lemma NeighborsSnoc(r: Request, links: seq<Relationship>, link: Relationship, before: Links, adjacency: Links)
    requires NeighborsRead(r, links, before)
    requires forall a, b :: b in Neighbors(adjacency, a) <==> b in Neighbors(before, a) || Joins(r, link, a, b)
    ensures NeighborsRead(r, links + [link], adjacency)
  {
    forall a, b
      ensures b in Neighbors(adjacency, a) <==> exists other :: other in links + [link] && Joins(r, other, a, b)
    {
      assert b in Neighbors(before, a) <==> exists other :: other in links && Joins(r, other, a, b);
    }
  }

  lemma ReasonsSnoc(r: Request, links: seq<Relationship>, link: Relationship, before: Blocks, blocked: Blocks)
    requires ReasonsRead(r, links, before)
    requires forall id, reason :: reason in ReasonsFor(blocked, id) <==>
      reason in ReasonsFor(before, id) || GivesReason(r, link, id, reason)
    requires forall id :: id in blocked ==> blocked[id] != {}
    ensures ReasonsRead(r, links + [link], blocked)
  {
    forall id, reason
      ensures reason in ReasonsFor(blocked, id) <==>
        exists other :: other in links + [link] && GivesReason(r, other, id, reason)
    {
      assert reason in ReasonsFor(before, id) <==> exists other :: other in links && GivesReason(r, other, id, reason);
    }
  }

  method ReadLinks(r: Request, candidates: set<string>) returns (adjacency: Links, blocked: Blocks)
    requires candidates == Candidates(r)
    ensures LinksRead(r, r.links, adjacency, blocked)
  {
    adjacency, blocked := map[], map[];
    for k := 0 to |r.links|
      invariant LinksRead(r, r.links[..k], adjacency, blocked)
    {
      assert r.links[..k + 1] == r.links[..k] + [r.links[k]];
      var nextAdjacency, nextBlocked := ReadLink(r, candidates, r.links[k], adjacency, blocked);
      NeighborsSnoc(r, r.links[..k], r.links[k], adjacency, nextAdjacency);
      ReasonsSnoc(r, r.links[..k], r.links[k], blocked, nextBlocked);
      adjacency, blocked := nextAdjacency, nextBlocked;
    }
    assert r.links[..|r.links|] == r.links;
  }

  /** No safe set contains any of these. */
  ghost predicate Unsafe(r: Request, ids: set<string>) {
    forall chosen :: Safe(r, chosen) ==> chosen !! ids
  }

  lemma LinkBlockedIsUnsafe(r: Request, link: Relationship, id: string, reason: Reason, chosen: set<string>)
    requires link in r.links && GivesReason(r, link, id, reason) && Safe(r, chosen)
    ensures id !in chosen
  {
  }

  lemma JoinedToUnsafeIsUnsafe(r: Request, link: Relationship, id: string, blockedId: string, chosen: set<string>)
    requires link in r.links && Joins(r, link, blockedId, id) && Safe(r, chosen) && blockedId !in chosen
    ensures id !in chosen
  {
  }

  ghost predicate CausedBy(adjacency: Links, blocked: Blocks, id: string, cause: string)
    requires id in blocked
  {
    id in Neighbors(adjacency, cause) && blocked[id] == {DependsOn(cause)}
  }

  /** A candidate blocked by links keeps their reasons; one blocked by spreading names a blocked neighbor. */
  ghost predicate Explained(adjacency: Links, initial: Blocks, blocked: Blocks) {
    forall id :: id in blocked ==>
      if id in initial then blocked[id] == initial[id]
      else exists cause :: cause in blocked && CausedBy(adjacency, blocked, id, cause)
  }

  /** Between two turns of the queue: only nodes still waiting may have neighbors that are not blocked. */
  ghost predicate Spreading(r: Request, adjacency: Links, initial: Blocks, blocked: Blocks, queue: seq<string>) {
    && initial.Keys <= blocked.Keys <= Candidates(r)
    && Unsafe(r, blocked.Keys)
    && Explained(adjacency, initial, blocked)
    && (forall id :: id in queue ==> id in blocked)
    && (forall id :: id in blocked && id !in queue ==> Neighbors(adjacency, id) <= blocked.Keys)
  }

  lemma SpreadKeepsSpreading(r: Request, adjacency: Links, initial: Blocks, before: Blocks, waiting: seq<string>,
                             blocked: Blocks, queue: seq<string>)
    requires waiting != [] && Spreading(r, adjacency, initial, before, waiting)
    requires blocked.Keys == before.Keys + Neighbors(adjacency, waiting[0]) <= Candidates(r)
    requires Unsafe(r, blocked.Keys)
    requires forall n :: n in before ==> blocked[n] == before[n]
    requires forall n :: n in blocked && n !in before ==> blocked[n] == {DependsOn(waiting[0])}
    requires forall n :: n in queue <==> n in waiting[1..] || (n in blocked && n !in before)
    ensures Spreading(r, adjacency, initial, blocked, queue)
  {
    assert waiting == [waiting[0]] + waiting[1..];
    forall id | id in blocked
      ensures id in initial ==> blocked[id] == initial[id]
      ensures id in initial || exists cause :: cause in blocked && CausedBy(adjacency, blocked, id, cause)
    {
      if id in before && id !in initial {
        var cause :| cause in before && CausedBy(adjacency, before, id, cause);
        assert CausedBy(adjacency, blocked, id, cause);
      } else if id !in before {
        assert CausedBy(adjacency, blocked, id, waiting[0]);
      }
    }
  }

  lemma InitialIsSpreading(r: Request, adjacency: Links, initial: Blocks, queue: seq<string>)
    requires LinksRead(r, r.links, adjacency, initial) && forall id :: id in queue <==> id in initial
    ensures Spreading(r, adjacency, initial, initial, queue)
  {
    forall id | id in initial
      ensures id in Candidates(r)
      ensures forall chosen :: Safe(r, chosen) ==> id !in chosen
    {
      var reason :| reason in initial[id];
      assert reason in ReasonsFor(initial, id);
      var link :| link in r.links && GivesReason(r, link, id, reason);
      forall chosen | Safe(r, chosen) ensures id !in chosen { LinkBlockedIsUnsafe(r, link, id, reason, chosen); }
    }
  }

  /** Spreads "blocked" over links between candidates, breadth first. */
  method Propagate(r: Request, adjacency: Links, initial: Blocks) returns (blocked: Blocks)
    requires LinksRead(r, r.links, adjacency, initial)
    ensures Spreading(r, adjacency, initial, blocked, [])
  {
    blocked := initial;
    var queue := SortedStrings(initial.Keys);
    InitialIsSpreading(r, adjacency, initial, queue);
    while queue != []
      invariant Spreading(r, adjacency, initial, blocked, queue)
      decreases Candidates(r) - blocked.Keys, |queue|
    {
      var next, waiting := Spread(r, adjacency, blocked, queue[1..], queue[0]);
      SpreadKeepsSpreading(r, adjacency, initial, blocked, queue, next, waiting);
      blocked, queue := next, waiting;
    }
  }

  method Spread(r: Request, adjacency: Links, before: Blocks, waiting: seq<string>, id: string)
    returns (blocked: Blocks, queue: seq<string>)
    requires NeighborsRead(r, r.links, adjacency)
    requires id in before && before.Keys <= Candidates(r) && Unsafe(r, before.Keys)
    ensures blocked.Keys == before.Keys + Neighbors(adjacency, id) <= Candidates(r)
    ensures Unsafe(r, blocked.Keys)
    ensures forall n :: n in before ==> blocked[n] == before[n]
    ensures forall n :: n in blocked && n !in before ==> blocked[n] == {DependsOn(id)}
    ensures forall n :: n in queue <==> n in waiting || (n in blocked && n !in before)
    ensures blocked.Keys == before.Keys ==> queue == waiting
  {
    blocked, queue := before, waiting;
    var left := Neighbors(adjacency, id);
    while left != {}
      invariant left <= Neighbors(adjacency, id)
      invariant blocked.Keys == before.Keys + (Neighbors(adjacency, id) - left) <= Candidates(r)
      invariant Unsafe(r, blocked.Keys)
      invariant forall n :: n in before ==> blocked[n] == before[n]
      invariant forall n :: n in blocked && n !in before ==> blocked[n] == {DependsOn(id)}
      invariant forall n :: n in queue <==> n in waiting || (n in blocked && n !in before)
      invariant blocked.Keys == before.Keys ==> queue == waiting
      decreases left
    {
      var neighbor :| neighbor in left;
      left := left - {neighbor};
      if neighbor !in blocked {
        ghost var link :| link in r.links && Joins(r, link, id, neighbor);
        forall chosen | Safe(r, chosen) ensures neighbor !in chosen {
          JoinedToUnsafeIsUnsafe(r, link, neighbor, id, chosen);
        }
        blocked := blocked[neighbor := {DependsOn(id)}];
        queue := queue + [neighbor];
      }
    }
  }

  lemma UnblockedIsSafe(r: Request, adjacency: Links, initial: Blocks, blocked: Blocks)
    requires LinksRead(r, r.links, adjacency, initial)
    requires Spreading(r, adjacency, initial, blocked, [])
    ensures Safe(r, Candidates(r) - blocked.Keys)
  {
    var chosen := Candidates(r) - blocked.Keys;
    forall link | link in r.links
      ensures link.start.id in chosen ==> FarEndOk(r, chosen, link.end)
      ensures link.end.id in chosen ==> FarEndOk(r, chosen, link.start)
    {
      if link.start.id in chosen { FarEndIsOk(r, adjacency, initial, blocked, link, link.start, link.end); }
      if link.end.id in chosen { FarEndIsOk(r, adjacency, initial, blocked, link, link.end, link.start); }
    }
  }

  lemma FarEndIsOk(r: Request, adjacency: Links, initial: Blocks, blocked: Blocks,
                   link: Relationship, near: Node, far: Node)
    requires LinksRead(r, r.links, adjacency, initial) && link in r.links
    requires initial.Keys <= blocked.Keys
    requires forall id :: id in blocked ==> Neighbors(adjacency, id) <= blocked.Keys
    requires (near == link.start && far == link.end) || (near == link.end && far == link.start)
    requires near.id in Candidates(r) && near.id !in blocked
    ensures FarEndOk(r, Candidates(r) - blocked.Keys, far)
  {
    if far.id in Candidates(r) {
      assert Joins(r, link, far.id, near.id);
      assert near.id in Neighbors(adjacency, far.id);
    } else {
      forall reason ensures reason !in LinkReasons(r, link.kind, far) {
        assert reason !in ReasonsFor(initial, near.id);
        assert !GivesReason(r, link, near.id, reason);
      }
      assert LinkReasons(r, link.kind, far) == {};
    }
  }

  lemma UnblockedIsGreatest(r: Request, adjacency: Links, initial: Blocks, blocked: Blocks)
    requires LinksRead(r, r.links, adjacency, initial)
    requires Spreading(r, adjacency, initial, blocked, [])
    ensures GreatestSafe(r, Candidates(r) - blocked.Keys)
  {
    UnblockedIsSafe(r, adjacency, initial, blocked);
    forall other | Safe(r, other) ensures other <= Candidates(r) - blocked.Keys {
      assert other !! blocked.Keys;
    }
  }

  ghost predicate HasLinkReason(r: Request, id: string) {
    exists link, reason :: link in r.links && GivesReason(r, link, id, reason)
  }

  /** All reasons that links give, or else one candidate that stays and is joined to this one. */
  ghost predicate RightReasons(r: Request, deleted: set<string>, id: string, reasons: set<Reason>) {
    if HasLinkReason(r, id) then
      forall reason :: reason in reasons <==> exists link :: link in r.links && GivesReason(r, link, id, reason)
    else
      exists cause, link :: cause !in deleted && link in r.links && Joins(r, link, cause, id)
                            && reasons == {DependsOn(cause)}
  }

  lemma BlockedByLinksRightly(r: Request, initial: Blocks, deleted: set<string>, id: string)
    requires ReasonsRead(r, r.links, initial) && id in initial
    ensures RightReasons(r, deleted, id, initial[id])
  {
    assert initial[id] == ReasonsFor(initial, id);
    var reason :| reason in initial[id];
    var link :| link in r.links && GivesReason(r, link, id, reason);
    assert HasLinkReason(r, id);
  }

  lemma BlockedByNeighborRightly(r: Request, adjacency: Links, initial: Blocks, blocked: Blocks, deleted: set<string>,
                                 id: string, cause: string)
    requires NeighborsRead(r, r.links, adjacency) && ReasonsRead(r, r.links, initial)
    requires id in blocked && id !in initial && cause !in deleted && CausedBy(adjacency, blocked, id, cause)
    ensures RightReasons(r, deleted, id, blocked[id])
  {
    var link :| link in r.links && Joins(r, link, cause, id);
    forall other, reason | other in r.links ensures !GivesReason(r, other, id, reason) {
      assert reason !in ReasonsFor(initial, id);
    }
  }

  lemma BlockedRightly(r: Request, adjacency: Links, initial: Blocks, blocked: Blocks, deleted: set<string>, id: string)
    requires LinksRead(r, r.links, adjacency, initial) && Explained(adjacency, initial, blocked)
    requires id in blocked && deleted !! blocked.Keys
    ensures RightReasons(r, deleted, id, blocked[id])
  {
    if id in initial {
      BlockedByLinksRightly(r, initial, deleted, id);
    } else {
      var cause :| cause in blocked && CausedBy(adjacency, blocked, id, cause);
      BlockedByNeighborRightly(r, adjacency, initial, blocked, deleted, id, cause);
    }
  }

  /** What the plan says of a node it selected. */
  ghost predicate DisposedRightly(r: Request, deleted: set<string>, id: string, d: Disposition)
    requires id in ById(r.selected)
  {
    match d
    case Candidate => id in deleted
    case Protected(protection) => protection == ById(r.selected)[id].protection != {}
    case Blocked(reasons) => id in Candidates(r) && id !in deleted && RightReasons(r, deleted, id, reasons)
  }

  /** The plan deletes exactly the greatest safe set of candidates, and says of every other node why it stays. */
  method BuildCleanupPlan(r: Request) returns (dispositions: map<string, Disposition>, deletionIds: seq<string>)
    ensures NoDuplicates(deletionIds) && Sorted(deletionIds, StrLe)
    ensures GreatestSafe(r, Elements(deletionIds))
    ensures dispositions.Keys == ById(r.selected).Keys
    ensures forall id :: id in dispositions ==> DisposedRightly(r, Elements(deletionIds), id, dispositions[id])
  {
    var candidates := Candidates(r);
    var adjacency, initial := ReadLinks(r, candidates);
    var blocked := Propagate(r, adjacency, initial);
    UnblockedIsGreatest(r, adjacency, initial, blocked);
    deletionIds := SortedStrings(candidates - blocked.Keys);
    assert Elements(deletionIds) == candidates - blocked.Keys;
    dispositions := Dispose(r, blocked);
    forall id | id in dispositions ensures DisposedRightly(r, Elements(deletionIds), id, dispositions[id]) {
      if id in blocked { BlockedRightly(r, adjacency, initial, blocked, Elements(deletionIds), id); }
    }
  }

  function Dispose(r: Request, blocked: Blocks): map<string, Disposition> {
    var selected := ById(r.selected);
    map id | id in selected ::
      if selected[id].protection != {} then Protected(selected[id].protection)
      else if id in blocked then Blocked(blocked[id])
      else Candidate
  }

  /** The selected node of an id is the last one given. */
  lemma {:induction false} SelectedIsLast(nodes: seq<Node>, k: nat)
    requires k < |nodes| && forall l :: k < l < |nodes| ==> nodes[l].id != nodes[k].id
    ensures nodes[k].id in ById(nodes) && ById(nodes)[nodes[k].id] == nodes[k]
  {
    if k < |nodes| - 1 { SelectedIsLast(nodes[..|nodes| - 1], k); }
  }

  /** Protection that counts: that of the selected node, or of the copy in the link if it was not selected. */
  ghost predicate ProtectedBy(r: Request, endpoint: Node, protection: set<string>) {
    && protection != {}
    && protection == if endpoint.id in ById(r.selected) then ById(r.selected)[endpoint.id].protection
                     else endpoint.protection
  }

  /** A protected neighbor is named as such; any other outside the candidates blocks as a boundary, unless allowed. */
  lemma LinkReasonsTell(r: Request, kind: string, neighbor: Node)
    ensures forall protection :: ProtectedLink(kind, protection) in LinkReasons(r, kind, neighbor) <==>
      ProtectedBy(r, neighbor, protection)
    ensures BoundaryLink(kind) in LinkReasons(r, kind, neighbor) <==>
      !r.allowBoundary && !exists protection :: ProtectedBy(r, neighbor, protection)
    ensures forall reason :: reason in LinkReasons(r, kind, neighbor) ==> !reason.DependsOn? && reason.kind == kind
  {
    var protection := Resolve(r, neighbor).protection;
    assert protection != {} ==> ProtectedBy(r, neighbor, protection);
  }
}
