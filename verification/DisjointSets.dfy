/** Union-find with path halving and links to the smaller root (gdelt/risk.py, DisjointSet). */
module DisjointSets {
  import opened Basics

  /** Parents never exceed the index: what makes `find` end. */
  ghost predicate Forest(parent: seq<nat>) {
    forall i :: 0 <= i < |parent| ==> parent[i] <= i
  }

  ghost function Root(parent: seq<nat>, i: nat): (root: nat)
    requires Forest(parent) && i < |parent|
    ensures root <= i && parent[root] == root
    decreases i
  {
    if parent[i] == i then i else Root(parent, parent[i])
  }

  /** Pointing an element at its grandparent changes no root. */
  lemma {:induction false} HalvingKeepsRoots(parent: seq<nat>, item: nat, i: nat)
    requires Forest(parent) && item < |parent| && i < |parent|
    ensures var halved := parent[item := parent[parent[item]]];
      Forest(halved) && Root(halved, i) == Root(parent, i)
    decreases i
  {
    var halved := parent[item := parent[parent[item]]];
    if parent[i] != i {
      HalvingKeepsRoots(parent, item, parent[i]);
      if i == item && parent[parent[i]] != parent[i] {
        HalvingKeepsRoots(parent, item, parent[parent[i]]);
      }
    }
  }

  /** Linking one root below a smaller one moves exactly the class of the larger. */
  lemma {:induction false} LinkingMergesClasses(parent: seq<nat>, low: nat, high: nat, i: nat)
    requires Forest(parent) && low < high < |parent| && i < |parent|
    requires parent[low] == low && parent[high] == high
    ensures var linked := parent[high := low];
      Forest(linked) && Root(linked, i) == if Root(parent, i) == high then low else Root(parent, i)
    decreases i
  {
    if parent[i] != i {
      LinkingMergesClasses(parent, low, high, parent[i]);
    } else if i == high {
      assert Root(parent[high := low], low) == low;
    }
  }

  ghost function Roots(parent: seq<nat>): (roots: seq<nat>)
    requires Forest(parent)
    ensures |roots| == |parent|
    ensures forall i :: 0 <= i < |roots| ==> roots[i] == Root(parent, i)
  {
    seq(|parent|, i requires 0 <= i < |parent| => Root(parent, i))
  }

  /** A root is the smallest index of its class. */
  lemma RootIsLeastOfClass(parent: seq<nat>, i: nat, j: nat)
    requires Forest(parent) && i < |parent| && j < |parent| && Root(parent, i) == Root(parent, j)
    ensures Root(parent, i) <= j && Root(parent, Root(parent, i)) == Root(parent, i)
  {
  }

  function Min(a: nat, b: nat): nat { if a <= b then a else b }

  /** The classes of `left` and `right` become one, named by its smaller root. */
  ghost function Merged(roots: seq<nat>, left: nat, right: nat): (merged: seq<nat>)
    requires left < |roots| && right < |roots|
    ensures |merged| == |roots|
    ensures forall i :: 0 <= i < |roots| ==>
      merged[i] == if roots[i] == roots[left] || roots[i] == roots[right]
                   then Min(roots[left], roots[right]) else roots[i]
  {
    seq(|roots|, i requires 0 <= i < |roots| =>
      if roots[i] == roots[left] || roots[i] == roots[right] then Min(roots[left], roots[right]) else roots[i])
  }

  class DisjointSet {
    const parent: array<nat>

    ghost predicate Valid()
      reads this, parent
    {
      Forest(parent[..])
    }

    /** The root of every element. */
    ghost function Labels(): (roots: seq<nat>)
      requires Valid()
      reads this, parent
      ensures |roots| == parent.Length
    {
      Roots(parent[..])
    }

    constructor (size: nat)
      ensures Valid() && fresh(parent) && parent.Length == size
      ensures forall i :: 0 <= i < size ==> Labels()[i] == i
    {
      parent := new nat[size](i => i);
      new;
      assert forall i :: 0 <= i < size ==> parent[..][i] == i;
    }

    method Find(item: nat) returns (root: nat)
      requires Valid() && item < parent.Length
      modifies parent
      ensures Valid() && Labels() == old(Labels())
      ensures root == Labels()[item]
    {
      root := item;
      while parent[root] != root
        invariant Valid() && root < parent.Length
        invariant Labels() == old(Labels())
        invariant Labels()[root] == old(Labels()[item])
        decreases root
      {
        ghost var before := parent[..];
        parent[root] := parent[parent[root]];
        ghost var halved := before[root := before[before[root]]];
        assert parent[..] == halved;
        forall i | 0 <= i < |before| ensures Forest(halved) && Root(halved, i) == Root(before, i) {
          HalvingKeepsRoots(before, root, i);
        }
        assert Roots(halved) == Roots(before);
        root := parent[root];
      }
    }

    method Union(left: nat, right: nat)
      requires Valid() && left < parent.Length && right < parent.Length
      modifies parent
      ensures Valid() && Labels() == Merged(old(Labels()), left, right)
    {
      var leftRoot := Find(left);
      var rightRoot := Find(right);
      if leftRoot != rightRoot {
        var low: nat, high: nat := Min(leftRoot, rightRoot), Max(leftRoot, rightRoot);
        ghost var before := parent[..];
        parent[high] := low;
        ghost var linked := before[high := low];
        assert parent[..] == linked;
        forall i | 0 <= i < |before|
          ensures Forest(linked) && Root(linked, i) == if Root(before, i) == high then low else Root(before, i)
        {
          LinkingMergesClasses(before, low, high, i);
        }
      }
      assert Labels() == Merged(old(Labels()), left, right);
    }
  }
}
