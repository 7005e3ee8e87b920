/** Event clusters of news articles (gdelt/risk.py, cluster_articles and content hashes). */
module Clustering {
  import opened Basics
  import opened Ordering
  import opened DisjointSets

  /** Times are microseconds since the epoch, in UTC. */
  const HOUR := 3600000000
  const DAY := 24 * HOUR

  /** `title` is the normalized title, `headline` the one that is shown. */
  datatype Article = Article(
    seenAt: int,
    urlHash: string,
    category: string,
    headline: string,
    domain: Option<string>,
    title: string,
    tokens: set<string>,
    contentHash: string,
    severity: real)

  /** Members and the representative are positions in the list of articles. */
  datatype Cluster = Cluster(
    clusterId: string,
    members: seq<nat>,
    representative: nat,
    firstSeen: int,
    lastSeen: int,
    severity: real,
    domains: set<string>)

  datatype Settings = Settings(threshold: real, windowHours: int, prefix: string)

  function Jaccard(left: set<string>, right: set<string>): real {
    if left == {} || right == {} then 0.0
    else
      assert left + right != {};
      |left * right| as real / |left + right| as real
  }

  predicate TimeLe(a: Article, b: Article) { a.seenAt <= b.seenAt }

  function Gap(a: Article, b: Article): int {
    if a.seenAt <= b.seenAt then b.seenAt - a.seenAt else a.seenAt - b.seenAt
  }

  /** What the inner loop tests once it is within the window. */
  predicate SameStory(s: Settings, a: Article, b: Article) {
    a.category == b.category && (a.title == b.title || Jaccard(a.tokens, b.tokens) >= s.threshold)
  }

  /** The all-pairs relation clusters are made of. */
  ghost predicate Related(s: Settings, a: Article, b: Article) {
    a.urlHash == b.urlHash || (SameStory(s, a, b) && Gap(a, b) <= s.windowHours * HOUR)
  }

  /** Two articles tell the same story if their titles agree, or if enough of their tokens do. */
  lemma SameStoryIff(s: Settings, a: Article, b: Article)
    ensures SameStory(s, a, b) <==> a.category == b.category && (a.title == b.title || TokensAgree(s, a, b))
  {
    var (shared, all) := (|a.tokens * b.tokens|, |a.tokens + b.tokens|);
    if a.tokens == {} || b.tokens == {} {
      assert a.tokens * b.tokens == {};
    } else {
      assert a.tokens + b.tokens != {};
      ShareAtLeastIff(shared as real, all as real, s.threshold);
    }
  }

  /** Shared tokens make up the threshold's part of all tokens; without tokens there is no likeness. */
  ghost predicate TokensAgree(s: Settings, a: Article, b: Article) {
    if a.tokens == {} || b.tokens == {} then s.threshold <= 0.0
    else |a.tokens * b.tokens| as real >= s.threshold * |a.tokens + b.tokens| as real
  }

  lemma ShareAtLeastIff(part: real, whole: real, threshold: real)
    requires whole > 0.0
    ensures part / whole >= threshold <==> part >= threshold * whole
  {
    var share := part / whole;
    assert share * whole == part;
    assert (share - threshold) * whole == part - threshold * whole;
    assert share >= threshold ==> (share - threshold) * whole >= 0.0;
    assert share < threshold ==> (threshold - share) * whole > 0.0;
  }

  ghost predicate WithinHours(a: Article, b: Article, hours: int) {
    -3600000000 * hours <= a.seenAt - b.seenAt <= 3600000000 * hours
  }

  /** Articles are related by address, or by story within so many hours of each other. */
  lemma RelatedIff(s: Settings, a: Article, b: Article)
    ensures Related(s, a, b) <==> a.urlHash == b.urlHash || (SameStory(s, a, b) && WithinHours(a, b, s.windowHours))
  {
  }

  lemma RelatedIsSymmetric(s: Settings, a: Article, b: Article)
    requires Related(s, a, b)
    ensures Related(s, b, a)
  {
    assert a.tokens * b.tokens == b.tokens * a.tokens;
    assert a.tokens + b.tokens == b.tokens + a.tokens;
  }

  // ------------------------------------------------------------------ connected components

  ghost predicate Chain(s: Settings, articles: seq<Article>, links: seq<nat>) {
    && (forall k :: 0 <= k < |links| ==> links[k] < |articles|)
    && (forall k :: 0 <= k < |links| - 1 ==> Related(s, articles[links[k]], articles[links[k + 1]]))
  }

  ghost predicate ChainBetween(s: Settings, articles: seq<Article>, i: nat, j: nat, links: seq<nat>) {
    links != [] && links[0] == i && links[|links| - 1] == j && Chain(s, articles, links)
  }

  ghost predicate Connected(s: Settings, articles: seq<Article>, i: nat, j: nat) {
    exists links :: ChainBetween(s, articles, i, j, links)
  }

  lemma ConnectedReflexive(s: Settings, articles: seq<Article>, i: nat)
    requires i < |articles|
    ensures Connected(s, articles, i, i)
  {
    assert ChainBetween(s, articles, i, i, [i]);
  }

  lemma ConnectedByLink(s: Settings, articles: seq<Article>, i: nat, j: nat)
    requires i < |articles| && j < |articles| && Related(s, articles[i], articles[j])
    ensures Connected(s, articles, i, j)
  {
    assert ChainBetween(s, articles, i, j, [i, j]);
  }

  lemma ConnectedTransitive(s: Settings, articles: seq<Article>, i: nat, j: nat, k: nat)
    requires Connected(s, articles, i, j) && Connected(s, articles, j, k)
    ensures Connected(s, articles, i, k)
  {
    var first :| ChainBetween(s, articles, i, j, first);
    var second :| ChainBetween(s, articles, j, k, second);
    var links := first + second[1..];
    forall m | 0 <= m < |links| - 1 ensures Related(s, articles[links[m]], articles[links[m + 1]]) {
      if m < |first| - 1 {
        assert links[m] == first[m] && links[m + 1] == first[m + 1];
      } else {
        var n := m - (|first| - 1);
        assert links[m] == second[n] && links[m + 1] == second[n + 1];
      }
    }
    assert ChainBetween(s, articles, i, k, links);
  }

  lemma ConnectedSymmetric(s: Settings, articles: seq<Article>, i: nat, j: nat)
    requires Connected(s, articles, i, j)
    ensures Connected(s, articles, j, i)
  {
    var links :| ChainBetween(s, articles, i, j, links);
    var back := Reverse(links);
    forall m | 0 <= m < |back| - 1 ensures Related(s, articles[back[m]], articles[back[m + 1]]) {
      var n := |links| - 2 - m;
      assert Related(s, articles[links[n]], articles[links[n + 1]]);
      RelatedIsSymmetric(s, articles[links[n]], articles[links[n + 1]]);
    }
    assert ChainBetween(s, articles, j, i, back);
  }

  // ------------------------------------------------------------------ what the scan maintains

  /** Every element is connected to its root: the scan never joins too much. */
  ghost predicate Sound(s: Settings, articles: seq<Article>, roots: seq<nat>) {
    |roots| == |articles| && forall i :: 0 <= i < |roots| ==> Connected(s, articles, i, roots[i])
  }

  /** Related pairs below `bound` share their root: the scan misses nothing so far. */
  ghost predicate JoinedBelow(s: Settings, articles: seq<Article>, roots: seq<nat>, bound: nat) {
    bound <= |articles| == |roots| &&
    forall i, j :: 0 <= i < bound && 0 <= j < bound && Related(s, articles[i], articles[j]) ==> roots[i] == roots[j]
  }

  lemma MergedIsSound(s: Settings, articles: seq<Article>, roots: seq<nat>, left: nat, right: nat)
    requires Sound(s, articles, roots) && left < |roots| && right < |roots|
    requires Related(s, articles[left], articles[right])
    ensures Sound(s, articles, Merged(roots, left, right))
  {
    var merged := Merged(roots, left, right);
    ConnectedByLink(s, articles, left, right);
    ConnectedSymmetric(s, articles, left, right);
    forall i | 0 <= i < |roots| ensures Connected(s, articles, i, merged[i]) {
      if roots[i] == roots[left] {
        ConnectedSymmetric(s, articles, left, roots[left]);
        ConnectedTransitive(s, articles, i, roots[left], left);
        ConnectedTransitive(s, articles, i, left, right);
        ConnectedTransitive(s, articles, i, right, roots[right]);
      } else if roots[i] == roots[right] {
        ConnectedSymmetric(s, articles, right, roots[right]);
        ConnectedTransitive(s, articles, i, roots[right], right);
        ConnectedTransitive(s, articles, i, right, left);
        ConnectedTransitive(s, articles, i, left, roots[left]);
      }
    }
  }

  /** Once all related pairs share a root, sharing a root is being connected. */
  lemma RootsAreComponents(s: Settings, articles: seq<Article>, roots: seq<nat>, i: nat, j: nat)
    requires Sound(s, articles, roots) && JoinedBelow(s, articles, roots, |articles|)
    requires i < |articles| && j < |articles|
    ensures roots[i] == roots[j] <==> Connected(s, articles, i, j)
  {
    if roots[i] == roots[j] {
      ConnectedSymmetric(s, articles, j, roots[j]);
      ConnectedTransitive(s, articles, i, roots[i], j);
    }
    if Connected(s, articles, i, j) {
      var links :| ChainBetween(s, articles, i, j, links);
      ChainSharesRoot(s, articles, roots, links);
    }
  }

  lemma {:induction false} ChainSharesRoot(s: Settings, articles: seq<Article>, roots: seq<nat>, links: seq<nat>)
    requires JoinedBelow(s, articles, roots, |articles|)
    requires links != [] && Chain(s, articles, links)
    ensures roots[links[0]] == roots[links[|links| - 1]]
  {
    if |links| > 1 {
      ChainSharesRoot(s, articles, roots, links[1..]);
      assert Related(s, articles[links[0]], articles[links[1]]);
    }
  }

  // ------------------------------------------------------------------ the scan

  /** The owner table: each hash seen so far, with an index that carries it. */
  ghost predicate OwnersOk(articles: seq<Article>, roots: seq<nat>, owners: map<string, nat>, bound: nat) {
    && bound <= |articles| == |roots|
    && (forall h :: h in owners ==> owners[h] < bound && articles[owners[h]].urlHash == h)
    && (forall i :: 0 <= i < bound ==>
          articles[i].urlHash in owners && roots[i] == roots[owners[articles[i].urlHash]])
  }

  /** `index` shares its root with every earlier article of the same story within the window, down to `low`. */
  ghost predicate JoinedBackTo(s: Settings, articles: seq<Article>, roots: seq<nat>, index: nat, low: int) {
    index < |articles| == |roots| &&
    forall i :: 0 <= i < index && low <= i && SameStory(s, articles[index], articles[i])
                && Gap(articles[index], articles[i]) <= s.windowHours * HOUR
                ==> roots[index] == roots[i]
  }

  /** Elements that shared a root still do. */
  ghost predicate Coarser(before: seq<nat>, after: seq<nat>) {
    |before| == |after| &&
    forall i, j :: 0 <= i < |before| && 0 <= j < |before| && before[i] == before[j] ==> after[i] == after[j]
  }

  lemma JoiningAddsOwned(s: Settings, articles: seq<Article>, roots: seq<nat>, owners: map<string, nat>, index: nat)
    requires index < |articles| && OwnersOk(articles, roots, owners, index) && JoinedBelow(s, articles, roots, index)
    requires articles[index].urlHash in owners
    ensures var merged := Merged(roots, index, owners[articles[index].urlHash]);
      OwnersOk(articles, merged, owners, index + 1) && JoinedBelow(s, articles, merged, index)
  {
  }

  lemma OwningAddsFirst(articles: seq<Article>, roots: seq<nat>, owners: map<string, nat>, index: nat)
    requires index < |articles| && OwnersOk(articles, roots, owners, index)
    requires articles[index].urlHash !in owners
    ensures OwnersOk(articles, roots, owners[articles[index].urlHash := index], index + 1)
  {
  }

  lemma CoarserKeeps(s: Settings, articles: seq<Article>, before: seq<nat>, after: seq<nat>,
                     owners: map<string, nat>, index: nat)
    requires Coarser(before, after) && index < |articles|
    requires OwnersOk(articles, before, owners, index + 1) && JoinedBelow(s, articles, before, index)
    ensures OwnersOk(articles, after, owners, index + 1) && JoinedBelow(s, articles, after, index)
  {
  }

  lemma LookBackJoins(s: Settings, articles: seq<Article>, start: seq<nat>, roots: seq<nat>, index: nat, previous: nat)
    requires previous < index < |articles| == |roots| && Coarser(start, roots)
    requires JoinedBackTo(s, articles, roots, index, previous + 1)
    ensures var merged := Merged(roots, index, previous);
      Coarser(start, merged) && JoinedBackTo(s, articles, merged, index, previous)
  {
  }

  /** The scan over the time-ordered articles; it stops looking back at the window edge. */
  method Scan(s: Settings, articles: seq<Article>, disjoint: DisjointSet)
    requires disjoint.Valid() && disjoint.parent.Length == |articles|
    requires forall i :: 0 <= i < |articles| ==> disjoint.Labels()[i] == i
    requires Sorted(articles, TimeLe)
    modifies disjoint.parent
    ensures disjoint.Valid()
    ensures Sound(s, articles, disjoint.Labels())
    ensures JoinedBelow(s, articles, disjoint.Labels(), |articles|)
  {
    var owners: map<string, nat> := map[];
    forall i | 0 <= i < |articles| ensures Connected(s, articles, i, disjoint.Labels()[i]) {
      ConnectedReflexive(s, articles, i);
    }
    for index := 0 to |articles|
      invariant disjoint.Valid()
      invariant Sound(s, articles, disjoint.Labels())
      invariant JoinedBelow(s, articles, disjoint.Labels(), index)
      invariant OwnersOk(articles, disjoint.Labels(), owners, index)
    {
      var hash := articles[index].urlHash;
      ghost var before := disjoint.Labels();
      if hash in owners {
        MergedIsSound(s, articles, before, index, owners[hash]);
        JoiningAddsOwned(s, articles, before, owners, index);
        disjoint.Union(index, owners[hash]);
      } else {
        OwningAddsFirst(articles, before, owners, index);
        owners := owners[hash := index];
      }
      ghost var owned := disjoint.Labels();
      LookBack(s, articles, disjoint, index);
      CoarserKeeps(s, articles, owned, disjoint.Labels(), owners, index);
      JoinNext(s, articles, disjoint.Labels(), owners, index);
    }
  }

  method LookBack(s: Settings, articles: seq<Article>, disjoint: DisjointSet, index: nat)
    requires disjoint.Valid() && index < |articles|
    requires Sorted(articles, TimeLe)
    requires Sound(s, articles, disjoint.Labels())
    modifies disjoint.parent
    ensures disjoint.Valid()
    ensures Sound(s, articles, disjoint.Labels())
    ensures JoinedBackTo(s, articles, disjoint.Labels(), index, 0)
    ensures Coarser(old(disjoint.Labels()), disjoint.Labels())
  {
    var previous := index - 1;
    while previous >= 0
      invariant -1 <= previous < index
      invariant disjoint.Valid()
      invariant Sound(s, articles, disjoint.Labels())
      invariant JoinedBackTo(s, articles, disjoint.Labels(), index, previous + 1)
      invariant Coarser(old(disjoint.Labels()), disjoint.Labels())
    {
      if articles[index].seenAt - articles[previous].seenAt > s.windowHours * HOUR {
        WindowEdge(s, articles, index, previous);
        break;
      }
      if SameStory(s, articles[index], articles[previous]) {
        assert TimeLe(articles[previous], articles[index]);
        MergedIsSound(s, articles, disjoint.Labels(), index, previous);
        LookBackJoins(s, articles, old(disjoint.Labels()), disjoint.Labels(), index, previous);
        disjoint.Union(index, previous);
      }
      previous := previous - 1;
    }
  }

  /** Past the window edge of a time-ordered list everything is out of the window. */
  lemma WindowEdge(s: Settings, articles: seq<Article>, index: nat, edge: nat)
    requires edge < index < |articles| && Sorted(articles, TimeLe)
    requires articles[index].seenAt - articles[edge].seenAt > s.windowHours * HOUR
    ensures forall i :: 0 <= i <= edge ==> Gap(articles[index], articles[i]) > s.windowHours * HOUR
  {
    assert TimeLe(articles[edge], articles[index]);
    forall i | 0 <= i <= edge ensures Gap(articles[index], articles[i]) > s.windowHours * HOUR {
      assert i < edge ==> TimeLe(articles[i], articles[edge]);
    }
  }

  lemma JoinNext(s: Settings, articles: seq<Article>, roots: seq<nat>, owners: map<string, nat>, index: nat)
    requires index < |articles|
    requires JoinedBelow(s, articles, roots, index)
    requires OwnersOk(articles, roots, owners, index + 1)
    requires JoinedBackTo(s, articles, roots, index, 0)
    ensures JoinedBelow(s, articles, roots, index + 1)
  {
    forall i, j | 0 <= i <= index && 0 <= j <= index && Related(s, articles[i], articles[j])
      ensures roots[i] == roots[j]
    {
      RelatedIsSymmetric(s, articles[i], articles[j]);
      if articles[i].urlHash == articles[j].urlHash {
      } else if i == index && j < index {
      } else if j == index && i < index {
      }
    }
  }

  // ------------------------------------------------------------------ groups and cluster ids

  /** The indices below `bound` whose root is `root`, in order. */
  ghost function Members(roots: seq<nat>, root: nat, bound: nat): (members: seq<nat>)
    requires bound <= |roots|
    ensures forall i :: i in members <==> 0 <= i < bound && roots[i] == root
    ensures NoDuplicates(members)
  {
    if bound == 0 then []
    else if roots[bound - 1] == root then Members(roots, root, bound - 1) + [bound - 1]
    else Members(roots, root, bound - 1)
  }

  ghost predicate GroupsOk(roots: seq<nat>, order: seq<nat>, groups: map<nat, seq<nat>>, bound: nat) {
    && bound <= |roots|
    && NoDuplicates(order)
    && (forall r :: r in order <==> r in groups)
    && (forall r :: r in groups ==> groups[r] == Members(roots, r, bound) && groups[r] != [])
    && (forall i :: 0 <= i < bound ==> roots[i] in groups)
  }

  lemma {:induction false} NoMembers(roots: seq<nat>, root: nat, bound: nat)
    requires bound <= |roots| && forall i :: 0 <= i < bound ==> roots[i] != root
    ensures Members(roots, root, bound) == []
  {
    if bound > 0 { NoMembers(roots, root, bound - 1); }
  }

  lemma GroupsOpen(roots: seq<nat>, order: seq<nat>, groups: map<nat, seq<nat>>, index: nat)
    requires index < |roots| && GroupsOk(roots, order, groups, index) && roots[index] !in groups
    ensures GroupsOk(roots, order + [roots[index]], groups[roots[index] := [index]], index + 1)
  {
    NoMembers(roots, roots[index], index);
  }

  lemma GroupsExtend(roots: seq<nat>, order: seq<nat>, groups: map<nat, seq<nat>>, index: nat)
    requires index < |roots| && GroupsOk(roots, order, groups, index) && roots[index] in groups
    ensures GroupsOk(roots, order, groups[roots[index] := groups[roots[index]] + [index]], index + 1)
  {
  }

  /** Groups the indices by root; the keys keep the order of their first appearance. */
  method Group(disjoint: DisjointSet) returns (order: seq<nat>, groups: map<nat, seq<nat>>)
    requires disjoint.Valid()
    modifies disjoint.parent
    ensures disjoint.Valid() && disjoint.Labels() == old(disjoint.Labels())
    ensures GroupsOk(disjoint.Labels(), order, groups, disjoint.parent.Length)
  {
    order, groups := [], map[];
    ghost var roots := disjoint.Labels();
    for index := 0 to disjoint.parent.Length
      invariant disjoint.Valid() && disjoint.Labels() == roots
      invariant GroupsOk(roots, order, groups, index)
    {
      var root := disjoint.Find(index);
      order, groups := AppendTo(root, index, order, groups, roots);
    }
  }

  /** One turn of the grouping: appends the index under its root, opening the group if need be. */
  method AppendTo(root: nat, index: nat, order: seq<nat>, groups: map<nat, seq<nat>>, ghost roots: seq<nat>)
    returns (newOrder: seq<nat>, newGroups: map<nat, seq<nat>>)
    requires index < |roots| && root == roots[index] && GroupsOk(roots, order, groups, index)
    ensures GroupsOk(roots, newOrder, newGroups, index + 1)
  {
    if root in groups {
      GroupsExtend(roots, order, groups, index);
      newOrder, newGroups := order, groups[root := groups[root] + [index]];
    } else {
      GroupsOpen(roots, order, groups, index);
      newOrder, newGroups := order + [root], groups[root := [index]];
    }
  }

  predicate InRange(articles: seq<Article>, members: seq<nat>) {
    forall k :: 0 <= k < |members| ==> members[k] < |articles|
  }

  function Hashes(articles: seq<Article>, members: seq<nat>): set<string>
    requires InRange(articles, members)
  {
    set k | 0 <= k < |members| :: articles[members[k]].contentHash
  }

  function LastSeen(articles: seq<Article>, members: seq<nat>): (last: int)
    requires members != [] && InRange(articles, members)
    ensures forall k :: 0 <= k < |members| ==> articles[members[k]].seenAt <= last
    ensures exists k :: 0 <= k < |members| && articles[members[k]].seenAt == last
  {
    var first := articles[members[0]].seenAt;
    if |members| == 1 then first
    else
      var last := LastSeen(articles, members[1..]);
      assert forall k :: 0 < k < |members| ==> members[k] == members[1..][k - 1];
      Max(first, last)
  }

  function FirstSeen(articles: seq<Article>, members: seq<nat>): (seen: int)
    requires members != [] && InRange(articles, members)
    ensures forall k :: 0 <= k < |members| ==> seen <= articles[members[k]].seenAt
    ensures exists k :: 0 <= k < |members| && articles[members[k]].seenAt == seen
  {
    var first := articles[members[0]].seenAt;
    if |members| == 1 then first
    else
      var seen := FirstSeen(articles, members[1..]);
      assert forall k :: 0 < k < |members| ==> members[k] == members[1..][k - 1];
      if seen < first then seen else first
  }

  /** More severe, or as severe with a headline no longer. */
  predicate Represents(a: Article, b: Article) {
    a.severity > b.severity || (a.severity == b.severity && |a.headline| <= |b.headline|)
  }

  /** The most severe article, of these one with the shortest headline, and of these the first. */
  function Representative(articles: seq<Article>, members: seq<nat>): (best: nat)
    requires members != [] && InRange(articles, members)
    ensures best < |articles|
    ensures forall k :: 0 <= k < |members| ==> Represents(articles[best], articles[members[k]])
    ensures exists k :: 0 <= k < |members| && members[k] == best
                        && forall l :: 0 <= l < k ==> !Represents(articles[members[l]], articles[best])
  {
    if |members| == 1 then members[0]
    else
      var best := Representative(articles, members[1..]);
      assert forall k :: 0 < k < |members| ==> members[k] == members[1..][k - 1];
      if Represents(articles[members[0]], articles[best]) then members[0]
      else
        assert exists k :: 1 <= k < |members| && members[k] == best
                           && forall l :: 0 <= l < k ==> !Represents(articles[members[l]], articles[best]);
        best
  }

  function Domains(articles: seq<Article>, members: seq<nat>): set<string>
    requires InRange(articles, members)
  {
    set k | 0 <= k < |members| && articles[members[k]].domain.Some? :: articles[members[k]].domain.value
  }

  /** The severity of a cluster, the greatest of its members, is that of its representative. */
  function MakeCluster(s: Settings, articles: seq<Article>, members: seq<nat>): (c: Cluster)
    requires members != [] && InRange(articles, members)
    ensures c.representative in members
    ensures forall k :: 0 <= k < |members| ==> articles[members[k]].severity <= c.severity
  {
    assert articles[members[0]].contentHash in Hashes(articles, members);
    var best := Representative(articles, members);
    assert forall k :: 0 <= k < |members| ==> Represents(articles[best], articles[members[k]]);
    Cluster(s.prefix + Least(Hashes(articles, members)), members, best, FirstSeen(articles, members),
            LastSeen(articles, members), articles[best].severity, Domains(articles, members))
  }

  /** Latest first, then most severe first. */
  predicate ClusterBefore(a: Cluster, b: Cluster) {
    a.lastSeen > b.lastSeen || (a.lastSeen == b.lastSeen && a.severity >= b.severity)
  }

  ghost predicate ClusterOk(s: Settings, articles: seq<Article>, c: Cluster) {
    && c.members != [] && NoDuplicates(c.members)
    && InRange(articles, c.members)
    && c == MakeCluster(s, articles, c.members)
    && (forall i, j :: i in c.members && 0 <= j < |articles| ==> (j in c.members <==> Connected(s, articles, i, j)))
  }

  ghost predicate InSome(clusters: seq<Cluster>, i: nat) {
    exists c :: c in clusters && i in c.members
  }

  /** The clusters are exactly the connected components, each once, and every article carries its cluster's id. */
  ghost predicate IsClustering(s: Settings, articles: seq<Article>, clusters: seq<Cluster>, ids: seq<string>) {
    && NoDuplicates(clusters)
    && (forall c :: c in clusters ==> ClusterOk(s, articles, c))
    && (forall c, d, i :: c in clusters && d in clusters && i in c.members && i in d.members ==> c == d)
    && (forall i :: 0 <= i < |articles| ==> InSome(clusters, i))
    && |ids| == |articles|
    && (forall c, i :: c in clusters && i in c.members ==> ids[i] == c.clusterId)
  }

  ghost predicate GroupsInRange(articles: seq<Article>, order: seq<nat>, groups: map<nat, seq<nat>>) {
    forall k :: 0 <= k < |order| ==>
      order[k] in groups && groups[order[k]] != [] && InRange(articles, groups[order[k]])
  }

  ghost predicate ClustersMade(s: Settings, articles: seq<Article>, order: seq<nat>, groups: map<nat, seq<nat>>,
                               clusters: seq<Cluster>)
    requires GroupsInRange(articles, order, groups) && |clusters| <= |order|
  {
    forall k :: 0 <= k < |clusters| ==> clusters[k] == MakeCluster(s, articles, groups[order[k]])
  }

  ghost predicate IdsWritten(clusters: seq<Cluster>, ids: seq<string>) {
    forall k, m :: 0 <= k < |clusters| && 0 <= m < |ids| && m in clusters[k].members ==> ids[m] == clusters[k].clusterId
  }

  /** What holds after the clusters of the first groups have been made. */
  ghost predicate Built(s: Settings, articles: seq<Article>, order: seq<nat>, groups: map<nat, seq<nat>>,
                        clusters: seq<Cluster>, ids: seq<string>)
  {
    && GroupsInRange(articles, order, groups)
    && |clusters| <= |order| && |ids| == |articles|
    && ClustersMade(s, articles, order, groups, clusters)
    && IdsWritten(clusters, ids)
  }

  lemma BuiltClusterOk(s: Settings, articles: seq<Article>, roots: seq<nat>,
                       order: seq<nat>, groups: map<nat, seq<nat>>,
                       clusters: seq<Cluster>, ids: seq<string>, k: nat)
    requires Sound(s, articles, roots) && JoinedBelow(s, articles, roots, |articles|)
    requires GroupsOk(roots, order, groups, |articles|)
    requires Built(s, articles, order, groups, clusters, ids) && k < |order| == |clusters|
    ensures ClusterOk(s, articles, clusters[k])
    ensures clusters[k].members == Members(roots, order[k], |articles|)
  {
    var c := clusters[k];
    forall i, j | i in c.members && 0 <= j < |articles| ensures j in c.members <==> Connected(s, articles, i, j) {
      RootsAreComponents(s, articles, roots, i, j);
    }
  }

  lemma EveryArticleIsClustered(roots: seq<nat>, order: seq<nat>, clusters: seq<Cluster>, i: nat)
    requires |clusters| == |order| && i < |roots| && roots[i] in order
    requires forall k :: 0 <= k < |order| ==> clusters[k].members == Members(roots, order[k], |roots|)
    ensures InSome(clusters, i)
  {
    var k :| 0 <= k < |order| && order[k] == roots[i];
    assert clusters[k] in clusters && i in clusters[k].members;
  }

  lemma BuiltClustersAreOk(s: Settings, articles: seq<Article>, roots: seq<nat>,
                           order: seq<nat>, groups: map<nat, seq<nat>>, clusters: seq<Cluster>, ids: seq<string>)
    requires Sound(s, articles, roots) && JoinedBelow(s, articles, roots, |articles|)
    requires GroupsOk(roots, order, groups, |articles|)
    requires Built(s, articles, order, groups, clusters, ids) && |clusters| == |order|
    ensures forall c :: c in clusters ==> ClusterOk(s, articles, c)
    ensures forall k :: 0 <= k < |order| ==>
      clusters[k].members == Members(roots, order[k], |articles|) && clusters[k].members != []
  {
    forall k | 0 <= k < |order|
      ensures ClusterOk(s, articles, clusters[k])
      ensures clusters[k].members == Members(roots, order[k], |articles|) && clusters[k].members != []
    {
      BuiltClusterOk(s, articles, roots, order, groups, clusters, ids, k);
    }
  }

  lemma BuiltClustersAreComponents(s: Settings, articles: seq<Article>, roots: seq<nat>,
                                   order: seq<nat>, groups: map<nat, seq<nat>>,
                                   clusters: seq<Cluster>, ids: seq<string>)
    requires Sound(s, articles, roots) && JoinedBelow(s, articles, roots, |articles|)
    requires GroupsOk(roots, order, groups, |articles|)
    requires Built(s, articles, order, groups, clusters, ids) && |clusters| == |order|
    ensures IsClustering(s, articles, clusters, ids)
  {
    BuiltClustersAreOk(s, articles, roots, order, groups, clusters, ids);
    ComponentsAreClustering(s, articles, roots, order, clusters, ids);
  }

  lemma ComponentsAreClustering(s: Settings, articles: seq<Article>, roots: seq<nat>, order: seq<nat>,
                                clusters: seq<Cluster>, ids: seq<string>)
    requires |roots| == |articles| == |ids| && |clusters| == |order|
    requires NoDuplicates(order) && forall i :: 0 <= i < |articles| ==> roots[i] in order
    requires forall c :: c in clusters ==> ClusterOk(s, articles, c)
    requires forall k :: 0 <= k < |order| ==>
      clusters[k].members == Members(roots, order[k], |articles|) && clusters[k].members != []
    requires IdsWritten(clusters, ids)
    ensures IsClustering(s, articles, clusters, ids)
  {
    BuiltClustersAreApart(articles, roots, order, clusters);
    forall i | 0 <= i < |articles| ensures InSome(clusters, i) {
      EveryArticleIsClustered(roots, order, clusters, i);
    }
    forall c, i | c in clusters && i in c.members ensures 0 <= i < |ids| && ids[i] == c.clusterId {
      var k :| 0 <= k < |clusters| && clusters[k] == c;
      assert i in clusters[k].members;
    }
  }

  lemma BuiltClustersAreApart(articles: seq<Article>, roots: seq<nat>, order: seq<nat>, clusters: seq<Cluster>)
    requires NoDuplicates(order) && |clusters| == |order| && |roots| == |articles|
    requires forall k :: 0 <= k < |order| ==>
      clusters[k].members == Members(roots, order[k], |articles|) && clusters[k].members != []
    ensures NoDuplicates(clusters)
    ensures forall c, d, i :: c in clusters && d in clusters && i in c.members && i in d.members ==> c == d
  {
    forall k, l, i | 0 <= k < |order| && 0 <= l < |order| && i in clusters[k].members && i in clusters[l].members
      ensures k == l
    {
      assert order[k] == roots[i] == order[l];
    }
    forall k, l | 0 <= k < l < |order| ensures clusters[k] != clusters[l] {
      assert clusters[k].members[0] in clusters[k].members;
    }
  }

  lemma ClusteringPermuted(s: Settings, articles: seq<Article>, clusters: seq<Cluster>,
                           permuted: seq<Cluster>, ids: seq<string>)
    requires IsClustering(s, articles, clusters, ids) && multiset(clusters) == multiset(permuted)
    ensures IsClustering(s, articles, permuted, ids)
  {
    NoDuplicatesPermuted(clusters, permuted);
    MultisetSeqMember(clusters, permuted);
    forall i | 0 <= i < |articles| ensures InSome(permuted, i) {
      assert InSome(clusters, i);
    }
  }

  lemma IdsWrittenNext(clusters: seq<Cluster>, cluster: Cluster, before: seq<string>, ids: seq<string>)
    requires IdsWritten(clusters, before) && |ids| == |before|
    requires forall i :: 0 <= i < |before| ==> ids[i] == if i in cluster.members then cluster.clusterId else before[i]
    requires forall c, i :: c in clusters && i in c.members ==> i !in cluster.members
    ensures IdsWritten(clusters + [cluster], ids)
  {
    forall k, m | 0 <= k < |clusters| && 0 <= m < |ids| && m in clusters[k].members
      ensures ids[m] == clusters[k].clusterId
    {
      assert clusters[k] in clusters;
    }
  }

  lemma GroupsAreApart(s: Settings, articles: seq<Article>, roots: seq<nat>,
                       order: seq<nat>, groups: map<nat, seq<nat>>, clusters: seq<Cluster>)
    requires |roots| == |articles|
    requires GroupsOk(roots, order, groups, |articles|) && GroupsInRange(articles, order, groups)
    requires |clusters| < |order| && ClustersMade(s, articles, order, groups, clusters)
    ensures forall c, i :: c in clusters && i in c.members ==> i !in groups[order[|clusters|]]
  {
    forall k, i | 0 <= k < |clusters| && i in clusters[k].members ensures i !in groups[order[|clusters|]] {
      assert clusters[k].members == groups[order[k]];
      assert roots[i] == order[k] != order[|clusters|];
    }
  }

  lemma GroupsAreInRange(articles: seq<Article>, roots: seq<nat>, order: seq<nat>, groups: map<nat, seq<nat>>)
    requires |roots| == |articles| && GroupsOk(roots, order, groups, |articles|)
    ensures GroupsInRange(articles, order, groups)
  {
    forall k | 0 <= k < |order| ensures InRange(articles, groups[order[k]]) {
      var members := groups[order[k]];
      assert forall m :: 0 <= m < |members| ==> members[m] in members;
    }
  }

  lemma ClustersMadeNext(s: Settings, articles: seq<Article>, order: seq<nat>, groups: map<nat, seq<nat>>,
                         clusters: seq<Cluster>, cluster: Cluster)
    requires GroupsInRange(articles, order, groups) && |clusters| < |order|
    requires ClustersMade(s, articles, order, groups, clusters)
    requires cluster == MakeCluster(s, articles, groups[order[|clusters|]])
    ensures ClustersMade(s, articles, order, groups, clusters + [cluster])
  {
  }

  method Build(s: Settings, articles: seq<Article>, ghost roots: seq<nat>,
               order: seq<nat>, groups: map<nat, seq<nat>>)
    returns (clusters: seq<Cluster>, ids: seq<string>)
    requires |roots| == |articles| && GroupsOk(roots, order, groups, |articles|)
    ensures Built(s, articles, order, groups, clusters, ids) && |clusters| == |order|
  {
    GroupsAreInRange(articles, roots, order, groups);
    clusters, ids := [], seq(|articles|, _ => "");
    for k := 0 to |order|
      invariant Built(s, articles, order, groups, clusters, ids) && |clusters| == k
    {
      var cluster := MakeCluster(s, articles, groups[order[k]]);
      var written := WriteIds(ids, cluster.members, cluster.clusterId);
      GroupsAreApart(s, articles, roots, order, groups, clusters);
      IdsWrittenNext(clusters, cluster, ids, written);
      ClustersMadeNext(s, articles, order, groups, clusters, cluster);
      clusters, ids := clusters + [cluster], written;
    }
  }

  // ------------------------------------------------------------------ what a cluster says of its members

  ghost predicate SpansSeen(articles: seq<Article>, c: Cluster)
    requires InRange(articles, c.members)
  {
    && (forall k :: 0 <= k < |c.members| ==> c.firstSeen <= articles[c.members[k]].seenAt <= c.lastSeen)
    && (exists k :: 0 <= k < |c.members| && articles[c.members[k]].seenAt == c.firstSeen)
    && (exists k :: 0 <= k < |c.members| && articles[c.members[k]].seenAt == c.lastSeen)
  }

  ghost predicate MostSevere(articles: seq<Article>, c: Cluster)
    requires InRange(articles, c.members)
  {
    && (forall k :: 0 <= k < |c.members| ==> articles[c.members[k]].severity <= c.severity)
    && (exists k :: 0 <= k < |c.members| && articles[c.members[k]].severity == c.severity)
  }

  ghost predicate CollectsDomains(articles: seq<Article>, c: Cluster)
    requires InRange(articles, c.members)
  {
    forall domain :: domain in c.domains <==>
      exists k :: 0 <= k < |c.members| && articles[c.members[k]].domain == Some(domain)
  }

  /** The id is the prefix and the hash of a member that no member's hash precedes. */
  ghost predicate NamedByHash(s: Settings, articles: seq<Article>, c: Cluster)
    requires InRange(articles, c.members)
  {
    exists k :: 0 <= k < |c.members| && c.clusterId == s.prefix + articles[c.members[k]].contentHash
      && forall l :: 0 <= l < |c.members| ==>
           StrLe(articles[c.members[k]].contentHash, articles[c.members[l]].contentHash)
  }

  /** The representative is the most severe member of shortest headline, and the first of these. */
  ghost predicate WellRepresented(articles: seq<Article>, c: Cluster)
    requires InRange(articles, c.members)
  {
    exists k :: 0 <= k < |c.members| && c.members[k] == c.representative && StandsOut(articles, c.members, k)
  }

  ghost predicate StandsOut(articles: seq<Article>, members: seq<nat>, k: nat)
    requires InRange(articles, members) && k < |members|
  {
    forall l :: 0 <= l < |members| ==>
      var (best, other) := (articles[members[k]], articles[members[l]]);
      && best.severity >= other.severity
      && (best.severity == other.severity ==> |best.headline| <= |other.headline|)
      && (l < k && best.severity == other.severity ==> |best.headline| < |other.headline|)
  }

  /** What a cluster tells of its members: representative, times, severity, domains and the hash in its id. */
  ghost predicate Summarizes(s: Settings, articles: seq<Article>, c: Cluster) {
    && InRange(articles, c.members)
    && WellRepresented(articles, c) && SpansSeen(articles, c) && MostSevere(articles, c)
    && CollectsDomains(articles, c) && NamedByHash(s, articles, c)
  }

  lemma ClusterSpansSeen(s: Settings, articles: seq<Article>, c: Cluster)
    requires c.members != [] && InRange(articles, c.members) && c == MakeCluster(s, articles, c.members)
    ensures SpansSeen(articles, c) && CollectsDomains(articles, c)
  {
  }

  lemma ClusterIsMostSevere(s: Settings, articles: seq<Article>, c: Cluster)
    requires c.members != [] && InRange(articles, c.members) && c == MakeCluster(s, articles, c.members)
    ensures MostSevere(articles, c)
  {
    var k :| 0 <= k < |c.members| && c.members[k] == c.representative;
    assert articles[c.members[k]].severity == c.severity;
  }

  lemma ClusterIsWellRepresented(s: Settings, articles: seq<Article>, c: Cluster)
    requires c.members != [] && InRange(articles, c.members) && c == MakeCluster(s, articles, c.members)
    ensures WellRepresented(articles, c)
  {
    var best := Representative(articles, c.members);
    var k :| 0 <= k < |c.members| && c.members[k] == best
          && forall l :: 0 <= l < k ==> !Represents(articles[c.members[l]], articles[best]);
    assert StandsOut(articles, c.members, k);
  }

  lemma ClusterIsNamedByHash(s: Settings, articles: seq<Article>, c: Cluster)
    requires c.members != [] && InRange(articles, c.members) && c == MakeCluster(s, articles, c.members)
    ensures NamedByHash(s, articles, c)
  {
    var least := Least(Hashes(articles, c.members));
    var k :| 0 <= k < |c.members| && articles[c.members[k]].contentHash == least;
    forall l | 0 <= l < |c.members| ensures StrLe(least, articles[c.members[l]].contentHash) {
      assert articles[c.members[l]].contentHash in Hashes(articles, c.members);
    }
  }

  lemma ClusterSummarizes(s: Settings, articles: seq<Article>, c: Cluster)
    requires ClusterOk(s, articles, c)
    ensures Summarizes(s, articles, c)
  {
    ClusterIsWellRepresented(s, articles, c);
    ClusterSpansSeen(s, articles, c);
    ClusterIsMostSevere(s, articles, c);
    ClusterIsNamedByHash(s, articles, c);
  }

  /** Latest first, and of the same last time the most severe first. */
  ghost predicate LatestFirst(clusters: seq<Cluster>) {
    forall i, j :: 0 <= i < j < |clusters| ==>
      && clusters[i].lastSeen >= clusters[j].lastSeen
      && (clusters[i].lastSeen == clusters[j].lastSeen ==> clusters[i].severity >= clusters[j].severity)
  }

  lemma ClusteringSummarizes(s: Settings, articles: seq<Article>, clusters: seq<Cluster>, ids: seq<string>)
    requires IsClustering(s, articles, clusters, ids)
    ensures forall c :: c in clusters ==> Summarizes(s, articles, c)
  {
    forall c | c in clusters ensures Summarizes(s, articles, c) { ClusterSummarizes(s, articles, c); }
  }

  lemma SortedIsLatestFirst(clusters: seq<Cluster>)
    requires Sorted(clusters, ClusterBefore)
    ensures LatestFirst(clusters)
  {
  }

  ghost predicate InTime(articles: seq<Article>) {
    forall i, j :: 0 <= i < j < |articles| ==> articles[i].seenAt <= articles[j].seenAt
  }

  lemma SortedInTime(articles: seq<Article>)
    requires Sorted(articles, TimeLe)
    ensures InTime(articles)
  {
  }

  /** Clusters of a list of articles, latest first, with the id written on every article. */
  method ClusterArticles(s: Settings, articles: seq<Article>)
    returns (ordered: seq<Article>, clusters: seq<Cluster>, ids: seq<string>)
    ensures multiset(ordered) == multiset(articles)
    ensures InTime(ordered)
    ensures IsClustering(s, ordered, clusters, ids)
    ensures forall c :: c in clusters ==> Summarizes(s, ordered, c)
    ensures LatestFirst(clusters)
  {
    if articles == [] {
      return [], [], [];
    }
    ordered := Sort(articles, TimeLe);
    SortContents(articles, TimeLe);
    SortSorted(articles, TimeLe);
    var disjoint := new DisjointSet(|ordered|);
    Scan(s, ordered, disjoint);
    var order, groups := Group(disjoint);
    clusters, ids := Build(s, ordered, disjoint.Labels(), order, groups);
    BuiltClustersAreComponents(s, ordered, disjoint.Labels(), order, groups, clusters, ids);
    SortContents(clusters, ClusterBefore);
    ClusteringPermuted(s, ordered, clusters, Sort(clusters, ClusterBefore), ids);
    SortSorted(clusters, ClusterBefore);
    clusters := Sort(clusters, ClusterBefore);
    ClusteringSummarizes(s, ordered, clusters, ids);
    SortedIsLatestFirst(clusters);
    SortedInTime(ordered);
  }

  method WriteIds(before: seq<string>, members: seq<nat>, id: string) returns (ids: seq<string>)
    requires forall k :: 0 <= k < |members| ==> members[k] < |before|
    ensures |ids| == |before|
    ensures forall i :: 0 <= i < |before| ==> ids[i] == if i in members then id else before[i]
  {
    ids := before;
    for k := 0 to |members|
      invariant |ids| == |before|
      invariant forall i :: 0 <= i < |before| ==> ids[i] == if i in members[..k] then id else before[i]
    {
      assert members[..k + 1] == members[..k] + [members[k]];
      ids := ids[members[k] := id];
    }
    assert members[..|members|] == members;
  }

  // ------------------------------------------------------------------ cluster ids are distinct

  function Day(time: int): int { time / DAY }

  /** What prepare_article hashes: normalized title, UTC date and category. */
  function ContentIdentity(title: string, day: string, category: string): string {
    title + "|" + day + "|" + category
  }

  /** Text before the first separator is determined by the whole. */
  lemma {:induction false} SplitAtSeparator(a: string, b: string, restA: string, restB: string)
    requires '|' !in a && '|' !in b
    requires a + "|" + restA == b + "|" + restB
    ensures a == b && restA == restB
  {
    assert (a + "|" + restA)[0] == if a == "" then '|' else a[0];
    assert (b + "|" + restB)[0] == if b == "" then '|' else b[0];
    if a == "" {
      assert (a + "|" + restA)[1..] == restA && (b + "|" + restB)[1..] == restB;
    } else {
      assert (a + "|" + restA)[1..] == a[1..] + "|" + restA;
      assert (b + "|" + restB)[1..] == b[1..] + "|" + restB;
      SplitAtSeparator(a[1..], b[1..], restA, restB);
      assert a == [a[0]] + a[1..] && b == [b[0]] + b[1..];
    }
  }

  lemma ContentIdentityIsInjective(title: string, day: string, category: string,
                                   title': string, day': string, category': string)
    requires '|' !in title && '|' !in title' && '|' !in day && '|' !in day'
    requires ContentIdentity(title, day, category) == ContentIdentity(title', day', category')
    ensures title == title' && day == day' && category == category'
  {
    assert ContentIdentity(title, day, category) == title + "|" + (day + "|" + category);
    assert ContentIdentity(title', day', category') == title' + "|" + (day' + "|" + category');
    SplitAtSeparator(title, title', day + "|" + category, day' + "|" + category');
    SplitAtSeparator(day, day', category, category');
  }

  function Content(a: Article, printDay: int -> string): string {
    ContentIdentity(a.title, printDay(Day(a.seenAt)), a.category)
  }

  /** The hash of every article is the digest of its content. */
  ghost predicate Hashed(articles: seq<Article>, digest: string -> string, printDay: int -> string) {
    forall a :: a in articles ==> a.contentHash == digest(Content(a, printDay))
  }

  /** Printed dates are told apart and hold no separator. */
  ghost predicate DaysTold(printDay: int -> string) {
    (forall d, e :: printDay(d) == printDay(e) ==> d == e) && (forall d :: '|' !in printDay(d))
  }

  /** No digest of these articles collides; printed dates are told apart; separators stay out of titles and dates. */
  ghost predicate Prepared(articles: seq<Article>, digest: string -> string, printDay: int -> string) {
    && Hashed(articles, digest, printDay)
    && (forall a, b :: a in articles && b in articles && a.contentHash == b.contentHash ==>
          Content(a, printDay) == Content(b, printDay))
    && DaysTold(printDay)
    && (forall a :: a in articles ==> '|' !in a.title)
  }

  /** Equal content hashes mean the same story on the same day. */
  lemma EqualHashesAreRelated(s: Settings, articles: seq<Article>, digest: string -> string,
                              printDay: int -> string, a: Article, b: Article)
    requires Prepared(articles, digest, printDay) && s.windowHours >= 24
    requires a in articles && b in articles && a.contentHash == b.contentHash
    ensures Related(s, a, b)
  {
    ContentIdentityIsInjective(a.title, printDay(Day(a.seenAt)), a.category,
                               b.title, printDay(Day(b.seenAt)), b.category);
    assert Day(a.seenAt) == Day(b.seenAt);
    assert Gap(a, b) < DAY <= s.windowHours * HOUR;
  }

  /** With a window of a day or more, different clusters have different ids. */
  lemma ClusterIdsAreDistinct(s: Settings, articles: seq<Article>, clusters: seq<Cluster>, ids: seq<string>,
                              digest: string -> string, printDay: int -> string)
    requires Prepared(articles, digest, printDay) && s.windowHours >= 24
    requires IsClustering(s, articles, clusters, ids)
    ensures forall c, d :: c in clusters && d in clusters && c.clusterId == d.clusterId ==> c == d
    ensures forall i, j :: 0 <= i < |articles| && 0 <= j < |articles| ==>
      (ids[i] == ids[j] <==> Connected(s, articles, i, j))
  {
    forall c, d | c in clusters && d in clusters && c.clusterId == d.clusterId ensures c == d {
      SameIdSameCluster(s, articles, clusters, ids, digest, printDay, c, d);
    }
    forall i, j | 0 <= i < |articles| && 0 <= j < |articles|
      ensures ids[i] == ids[j] <==> Connected(s, articles, i, j)
    {
      assert InSome(clusters, i) && InSome(clusters, j);
      var c :| c in clusters && i in c.members;
      var d :| d in clusters && j in d.members;
      assert ClusterOk(s, articles, c) && ClusterOk(s, articles, d);
      if Connected(s, articles, i, j) { assert j in c.members; }
    }
  }

  /** The member whose hash makes up the id of its cluster. */
  lemma HashHolder(s: Settings, articles: seq<Article>, c: Cluster) returns (i: nat)
    requires c.members != [] && InRange(articles, c.members) && c == MakeCluster(s, articles, c.members)
    ensures i < |articles| && i in c.members && c.clusterId == s.prefix + articles[i].contentHash
  {
    var hash := Least(Hashes(articles, c.members));
    assert hash in Hashes(articles, c.members);
    var k :| 0 <= k < |c.members| && articles[c.members[k]].contentHash == hash;
    i := c.members[k];
  }

  lemma SameIdSameCluster(s: Settings, articles: seq<Article>, clusters: seq<Cluster>, ids: seq<string>,
                          digest: string -> string, printDay: int -> string, c: Cluster, d: Cluster)
    requires Prepared(articles, digest, printDay) && s.windowHours >= 24
    requires IsClustering(s, articles, clusters, ids)
    requires c in clusters && d in clusters && c.clusterId == d.clusterId
    ensures c == d
  {
    assert ClusterOk(s, articles, c) && ClusterOk(s, articles, d);
    var i := HashHolder(s, articles, c);
    var j := HashHolder(s, articles, d);
    assert c.clusterId[|s.prefix|..] == articles[i].contentHash;
    assert d.clusterId[|s.prefix|..] == articles[j].contentHash;
    EqualHashesAreRelated(s, articles, digest, printDay, articles[i], articles[j]);
    ConnectedByLink(s, articles, i, j);
    assert j in c.members;
  }

  // ------------------------------------------------------------------ a shorter window is not enough

  /** Two copies of a story at the two ends of one day, under different addresses. */
  ghost function DayEnds(title: string, category: string, digest: string -> string,
                         printDay: int -> string): seq<Article>
  {
    var hash := digest(ContentIdentity(title, printDay(0), category));
    [Article(0, "first", category, title, None, title, {}, hash, 0.0),
     Article(DAY - 1, "second", category, title, None, title, {}, hash, 0.0)]
  }

  lemma DayEndsArePrepared(title: string, category: string, digest: string -> string, printDay: int -> string)
    requires DaysTold(printDay) && '|' !in title
    ensures Prepared(DayEnds(title, category, digest, printDay), digest, printDay)
  {
    var articles := DayEnds(title, category, digest, printDay);
    assert Day(0) == 0 && Day(DAY - 1) == 0;
    assert forall a :: a in articles ==> a == articles[0] || a == articles[1];
    assert Content(articles[0], printDay) == Content(articles[1], printDay);
  }

  lemma DayEndsAreApart(s: Settings, title: string, category: string, digest: string -> string, printDay: int -> string)
    requires s.windowHours < 24
    ensures !Connected(s, DayEnds(title, category, digest, printDay), 0, 1)
  {
    var articles := DayEnds(title, category, digest, printDay);
    assert !Related(s, articles[0], articles[1]);
    if Connected(s, articles, 0, 1) {
      var links :| ChainBetween(s, articles, 0, 1, links);
      UnrelatedPairIsApart(s, articles, links);
    }
  }

  /** For every window shorter than a day, two unconnected articles, and so two clusters, share one id, no matter
      the digest: the articles meet every other demand of `ClusterIdsAreDistinct`. */
  lemma ShortWindowSharesIds(s: Settings, title: string, category: string, digest: string -> string,
                             printDay: int -> string, clusters: seq<Cluster>, ids: seq<string>)
    requires s.windowHours < 24 && DaysTold(printDay) && '|' !in title
    requires IsClustering(s, DayEnds(title, category, digest, printDay), clusters, ids)
    ensures Prepared(DayEnds(title, category, digest, printDay), digest, printDay)
    ensures exists c, d :: c in clusters && d in clusters && c != d && c.clusterId == d.clusterId
  {
    var articles := DayEnds(title, category, digest, printDay);
    DayEndsArePrepared(title, category, digest, printDay);
    DayEndsAreApart(s, title, category, digest, printDay);
    OneHashSharesIds(s, articles, clusters, ids, articles[0].contentHash, 0, 1);
  }

  /** When all articles have one hash, any two clusters share their id. */
  lemma OneHashSharesIds(s: Settings, articles: seq<Article>, clusters: seq<Cluster>, ids: seq<string>,
                         hash: string, i: nat, j: nat)
    requires IsClustering(s, articles, clusters, ids) && forall a :: a in articles ==> a.contentHash == hash
    requires i < |articles| && j < |articles| && !Connected(s, articles, i, j)
    ensures exists c, d :: c in clusters && d in clusters && c != d && c.clusterId == d.clusterId
  {
    assert InSome(clusters, i) && InSome(clusters, j);
    var c :| c in clusters && i in c.members;
    var d :| d in clusters && j in d.members;
    assert ClusterOk(s, articles, c) && ClusterOk(s, articles, d);
    OnlyHash(articles, c.members, hash);
    OnlyHash(articles, d.members, hash);
  }

  lemma OnlyHash(articles: seq<Article>, members: seq<nat>, hash: string)
    requires members != [] && InRange(articles, members)
    requires forall a :: a in articles ==> a.contentHash == hash
    ensures Hashes(articles, members) == {hash}
  {
    assert articles[members[0]] in articles;
  }

  lemma {:induction false} UnrelatedPairIsApart(s: Settings, articles: seq<Article>, links: seq<nat>)
    requires |articles| == 2 && !Related(s, articles[0], articles[1])
    requires links != [] && Chain(s, articles, links) && links[0] == 0
    ensures links[|links| - 1] == 0
  {
    if |links| > 1 {
      assert Related(s, articles[links[0]], articles[links[1]]);
      UnrelatedPairIsApart(s, articles, links[1..]);
    }
  }
}
