/** Small vocabulary shared by every component. */
module Basics {

  datatype Option<+T> = None | Some(value: T)

  datatype Result<+T, +E> = Ok(value: T) | Err(error: E)

  function Max(a: int, b: int): int { if a >= b then a else b }

  ghost predicate NoDuplicates<T>(xs: seq<T>) {
    forall i, j :: 0 <= i < j < |xs| ==> xs[i] != xs[j]
  }

  lemma LaterIsFresh<T>(xs: seq<T>, prefix: seq<T>, k: nat)
    requires NoDuplicates(xs) && prefix <= xs && |prefix| <= k < |xs|
    ensures xs[k] !in prefix
  {
    assert forall i :: 0 <= i < |prefix| ==> prefix[i] == xs[i];
  }

  /** The elements of `xs` that satisfy `keep`, in their order. */
  function Filter<T>(xs: seq<T>, keep: T -> bool): (r: seq<T>)
    ensures |r| <= |xs|
    ensures forall x :: x in r ==> x in xs && keep(x)
    ensures forall x :: x in xs && keep(x) ==> x in r
  {
    if xs == [] then []
    else
      assert xs == [xs[0]] + xs[1..];
      (if keep(xs[0]) then [xs[0]] else []) + Filter(xs[1..], keep)
  }

  function Reverse<T>(xs: seq<T>): (r: seq<T>)
    ensures |r| == |xs|
    ensures forall i :: 0 <= i < |xs| ==> r[i] == xs[|xs| - 1 - i]
  {
    if xs == [] then [] else [xs[|xs| - 1]] + Reverse(xs[..|xs| - 1])
  }

  lemma TakeOneMore<T>(xs: seq<T>, i: nat)
    requires i < |xs|
    ensures xs[..i + 1] == xs[..i] + [xs[i]]
  {
  }

  lemma FilterAppend<T>(xs: seq<T>, ys: seq<T>, keep: T -> bool)
    ensures Filter(xs + ys, keep) == Filter(xs, keep) + Filter(ys, keep)
  {
    if xs == [] {
      assert xs + ys == ys;
    } else {
      assert (xs + ys)[1..] == xs[1..] + ys;
      FilterAppend(xs[1..], ys, keep);
    }
  }

  lemma FilterSnoc<T>(xs: seq<T>, y: T, keep: T -> bool)
    ensures Filter(xs + [y], keep) == if keep(y) then Filter(xs, keep) + [y] else Filter(xs, keep)
  {
    FilterAppend(xs, [y], keep);
  }

  lemma FilterPrefix<T>(xs: seq<T>, k: nat, keep: T -> bool)
    requires k <= |xs|
    ensures Filter(xs[..k], keep) <= Filter(xs, keep)
  {
    assert xs == xs[..k] + xs[k..];
    FilterAppend(xs[..k], xs[k..], keep);
  }

  lemma {:induction false} FilterAll<T>(xs: seq<T>, keep: T -> bool)
    requires forall x :: x in xs ==> keep(x)
    ensures Filter(xs, keep) == xs
  {
    if xs != [] {
      FilterAll(xs[1..], keep);
      assert xs == [xs[0]] + xs[1..] && xs[0] in xs;
    }
  }

  lemma FilterMove<T>(before: seq<T>, x: T, after: seq<T>, keep: T -> bool)
    ensures multiset(Filter(before + ([x] + after), keep))
         == multiset(Filter([x], keep)) + multiset(Filter(before + after, keep))
  {
    FilterAppend(before, [x] + after, keep);
    FilterAppend([x], after, keep);
    FilterAppend(before, after, keep);
  }

  /** The lists `f` makes of the elements, joined. */
  function FlatMap<T, U>(xs: seq<T>, f: T -> seq<U>): seq<U> {
    if xs == [] then [] else f(xs[0]) + FlatMap(xs[1..], f)
  }

  lemma {:induction false} FlatMapAppend<T, U>(xs: seq<T>, ys: seq<T>, f: T -> seq<U>)
    ensures FlatMap(xs + ys, f) == FlatMap(xs, f) + FlatMap(ys, f)
  {
    if xs == [] {
      assert xs + ys == ys;
    } else {
      assert (xs + ys)[1..] == xs[1..] + ys;
      FlatMapAppend(xs[1..], ys, f);
    }
  }

  lemma FlatMapNext<T, U>(xs: seq<T>, i: nat, f: T -> seq<U>)
    requires i < |xs|
    ensures FlatMap(xs[..i + 1], f) == FlatMap(xs[..i], f) + f(xs[i])
  {
    TakeOneMore(xs, i);
    FlatMapAppend(xs[..i], [xs[i]], f);
  }

  lemma {:induction false} FlatMapMember<T, U>(xs: seq<T>, f: T -> seq<U>, u: U)
    ensures u in FlatMap(xs, f) <==> exists x :: x in xs && u in f(x)
  {
    if xs != [] {
      FlatMapMember(xs[1..], f, u);
      assert xs == [xs[0]] + xs[1..];
    }
  }

  lemma {:induction false} FlatMapSame<T, U>(xs: seq<T>, f: T -> seq<U>, g: T -> seq<U>)
    requires forall x :: x in xs ==> f(x) == g(x)
    ensures FlatMap(xs, f) == FlatMap(xs, g)
  {
    if xs != [] {
      assert xs == [xs[0]] + xs[1..];
      FlatMapSame(xs[1..], f, g);
    }
  }

  lemma TakeOut<T>(xs: seq<T>, i: nat)
    requires i < |xs|
    ensures xs == xs[..i] + ([xs[i]] + xs[i + 1..])
    ensures multiset(xs[..i] + xs[i + 1..]) == multiset(xs) - multiset{xs[i]}
  {
    assert xs == xs[..i] + ([xs[i]] + xs[i + 1..]);
  }

  /** Two opposite filters share a list between them. */
  lemma {:induction false} FilterPartitions<T>(xs: seq<T>, keep: T -> bool, drop: T -> bool)
    requires forall x :: x in xs ==> drop(x) == !keep(x)
    ensures multiset(xs) == multiset(Filter(xs, keep)) + multiset(Filter(xs, drop))
    ensures |xs| == |Filter(xs, keep)| + |Filter(xs, drop)|
  {
    if xs != [] {
      assert xs == [xs[0]] + xs[1..];
      FilterPartitions(xs[1..], keep, drop);
    }
  }

  /** Filtering commutes with permuting. */
  lemma {:induction false} FilterSameMultiset<T>(xs: seq<T>, ys: seq<T>, keep: T -> bool)
    requires multiset(xs) == multiset(ys)
    ensures multiset(Filter(xs, keep)) == multiset(Filter(ys, keep))
    decreases |xs|
  {
    MultisetSeqMember(xs, ys);
    if xs != [] {
      assert xs[0] in ys;
      var i :| 0 <= i < |ys| && ys[i] == xs[0];
      TakeOut(xs, 0);
      TakeOut(ys, i);
      FilterMove(xs[..0], xs[0], xs[1..], keep);
      FilterMove(ys[..i], xs[0], ys[i + 1..], keep);
      FilterSameMultiset(xs[..0] + xs[1..], ys[..i] + ys[i + 1..], keep);
    }
  }

  lemma MultisetSeqMember<T>(xs: seq<T>, ys: seq<T>)
    requires multiset(xs) == multiset(ys)
    ensures |xs| == |ys|
    ensures forall x :: x in xs <==> x in ys
  {
    assert |multiset(xs)| == |multiset(ys)|;
    forall x ensures x in xs <==> x in ys {
      assert x in xs <==> x in multiset(xs);
      assert x in ys <==> x in multiset(ys);
    }
  }

  /** A list without duplicates keeps that property under any permutation. */
  lemma NoDuplicatesPermuted<T>(xs: seq<T>, ys: seq<T>)
    requires multiset(xs) == multiset(ys) && NoDuplicates(xs)
    ensures NoDuplicates(ys)
  {
    forall i, j | 0 <= i < j < |ys| ensures ys[i] != ys[j] {
      if ys[i] == ys[j] {
        OccursTwice(ys, i, j);
        OccursOnce(xs, ys[i]);
      }
    }
  }

  lemma KeysStayDistinct<T, K>(xs: seq<T>, ys: seq<T>, key: T -> K)
    requires multiset(xs) == multiset(ys)
    requires forall i, j :: 0 <= i < j < |xs| ==> key(xs[i]) != key(xs[j])
    ensures forall i, j :: 0 <= i < j < |ys| ==> key(ys[i]) != key(ys[j])
  {
    MultisetSeqMember(xs, ys);
    NoDuplicatesPermuted(xs, ys);
    forall i, j | 0 <= i < j < |ys| ensures key(ys[i]) != key(ys[j]) {
      assert ys[i] in xs && ys[j] in xs;
    }
  }

  lemma OccursTwice<T>(xs: seq<T>, i: nat, j: nat)
    requires i < j < |xs| && xs[i] == xs[j]
    ensures multiset(xs)[xs[i]] >= 2
  {
    assert xs == xs[..i] + [xs[i]] + xs[i + 1..j] + [xs[j]] + xs[j + 1..];
  }

  lemma {:induction false} OccursOnce<T>(xs: seq<T>, x: T)
    requires NoDuplicates(xs)
    ensures multiset(xs)[x] <= 1
  {
    if xs != [] {
      assert xs == [xs[0]] + xs[1..];
      OccursOnce(xs[1..], x);
      if x == xs[0] { assert x !in xs[1..]; }
    }
  }

  /** The members of a list, as a set. */
  function Elements<T>(xs: seq<T>): set<T> { set x | x in xs }

  lemma {:induction false} DistinctWithin<T>(xs: seq<T>, universe: set<T>)
    requires NoDuplicates(xs)
    requires forall x :: x in xs ==> x in universe
    ensures |xs| <= |universe|
  {
    if xs != [] {
      var last := xs[|xs| - 1];
      var rest := xs[..|xs| - 1];
      DistinctWithin(rest, universe - {last});
    }
  }
}

/** Orders and the stable sort the program takes from its standard library. */
module Ordering {
  import opened Basics

  ghost predicate Total<T(!new)>(le: (T, T) -> bool) {
    forall a, b :: le(a, b) || le(b, a)
  }

  ghost predicate Transitive<T(!new)>(le: (T, T) -> bool) {
    forall a, b, c :: le(a, b) && le(b, c) ==> le(a, c)
  }

  ghost predicate Preorder<T(!new)>(le: (T, T) -> bool) {
    Total(le) && Transitive(le)
  }

  /** `le` tells apart the elements of `xs`. */
  ghost predicate Separates<T>(le: (T, T) -> bool, xs: seq<T>) {
    forall a, b :: a in xs && b in xs && le(a, b) && le(b, a) ==> a == b
  }

  ghost predicate Sorted<T>(xs: seq<T>, le: (T, T) -> bool) {
    forall i, j :: 0 <= i < j < |xs| ==> le(xs[i], xs[j])
  }

  /** Places `x` in front of the first element it does not exceed. */
  function Insert<T>(x: T, xs: seq<T>, le: (T, T) -> bool): seq<T> {
    if xs == [] || le(x, xs[0]) then [x] + xs
    else [xs[0]] + Insert(x, xs[1..], le)
  }

  function Sort<T>(xs: seq<T>, le: (T, T) -> bool): seq<T> {
    if xs == [] then [] else Insert(xs[0], Sort(xs[1..], le), le)
  }

  lemma {:induction false} InsertContents<T>(x: T, xs: seq<T>, le: (T, T) -> bool)
    ensures multiset(Insert(x, xs, le)) == multiset{x} + multiset(xs)
  {
    if xs == [] || le(x, xs[0]) {
    } else {
      InsertContents(x, xs[1..], le);
      assert xs == [xs[0]] + xs[1..];
    }
  }

  lemma {:induction false} InsertSorted<T(!new)>(x: T, xs: seq<T>, le: (T, T) -> bool)
    requires Preorder(le) && Sorted(xs, le)
    ensures Sorted(Insert(x, xs, le), le)
  {
    if xs == [] || le(x, xs[0]) {
    } else {
      var rest := Insert(x, xs[1..], le);
      InsertSorted(x, xs[1..], le);
      InsertContents(x, xs[1..], le);
      forall j | 0 <= j < |rest| ensures le(xs[0], rest[j]) {
        assert rest[j] in multiset(rest);
        assert rest[j] == x || rest[j] in xs[1..];
      }
    }
  }

  /** The sort permutes its input. */
  lemma {:induction false} SortContents<T>(xs: seq<T>, le: (T, T) -> bool)
    ensures multiset(Sort(xs, le)) == multiset(xs)
    ensures |Sort(xs, le)| == |xs|
    ensures forall x :: x in Sort(xs, le) <==> x in xs
  {
    if xs != [] {
      SortContents(xs[1..], le);
      InsertContents(xs[0], Sort(xs[1..], le), le);
      assert xs == [xs[0]] + xs[1..];
    }
    MultisetSeqMember(Sort(xs, le), xs);
  }

  lemma {:induction false} SortSorted<T(!new)>(xs: seq<T>, le: (T, T) -> bool)
    requires Preorder(le)
    ensures Sorted(Sort(xs, le), le)
  {
    if xs != [] {
      SortSorted(xs[1..], le);
      InsertSorted(xs[0], Sort(xs[1..], le), le);
    }
  }

  lemma HeadIsLeast<T(!new)>(xs: seq<T>, x: T, le: (T, T) -> bool)
    requires Preorder(le) && Sorted(xs, le) && x in xs
    ensures le(xs[0], x)
  {
    var i :| 0 <= i < |xs| && xs[i] == x;
    assert le(xs[0], xs[0]);
  }

  lemma SameHead<T(!new)>(xs: seq<T>, ys: seq<T>, le: (T, T) -> bool)
    requires Preorder(le) && Separates(le, xs) && xs != []
    requires Sorted(xs, le) && Sorted(ys, le) && multiset(xs) == multiset(ys)
    ensures ys != [] && xs[0] == ys[0]
  {
    MultisetSeqMember(xs, ys);
    assert xs[0] in xs;
    HeadIsLeast(xs, ys[0], le);
    HeadIsLeast(ys, xs[0], le);
  }

  lemma SameTailContents<T>(xs: seq<T>, ys: seq<T>)
    requires xs != [] && ys != [] && xs[0] == ys[0] && multiset(xs) == multiset(ys)
    ensures multiset(xs[1..]) == multiset(ys[1..])
  {
    assert xs == [xs[0]] + xs[1..] && ys == [ys[0]] + ys[1..];
    assert multiset(xs[1..]) == multiset(xs) - multiset{xs[0]};
    assert multiset(ys[1..]) == multiset(ys) - multiset{ys[0]};
  }

  lemma TailStaysSorted<T>(xs: seq<T>, le: (T, T) -> bool)
    requires Sorted(xs, le) && xs != []
    ensures Sorted(xs[1..], le)
    ensures Separates(le, xs) ==> Separates(le, xs[1..])
  {
  }

  /** A sorted list of told-apart elements is determined by its contents. */
  lemma {:induction false} SortedIsUnique<T(!new)>(xs: seq<T>, ys: seq<T>, le: (T, T) -> bool)
    requires Preorder(le) && Separates(le, xs)
    requires Sorted(xs, le) && Sorted(ys, le) && multiset(xs) == multiset(ys)
    ensures xs == ys
  {
    if xs != [] {
      SameHead(xs, ys, le);
      SameTailContents(xs, ys);
      TailStaysSorted(xs, le);
      TailStaysSorted(ys, le);
      SortedIsUnique(xs[1..], ys[1..], le);
      assert xs == [xs[0]] + xs[1..] && ys == [ys[0]] + ys[1..];
    } else {
      assert |multiset(ys)| == 0;
    }
  }

  /** Sorting forgets the order of its input when the key tells all elements apart. */
  lemma SortForgetsOrder<T(!new)>(xs: seq<T>, ys: seq<T>, le: (T, T) -> bool)
    requires Preorder(le) && Separates(le, xs) && multiset(xs) == multiset(ys)
    ensures Sort(xs, le) == Sort(ys, le)
  {
    SortContents(xs, le);
    SortContents(ys, le);
    SortSorted(xs, le);
    SortSorted(ys, le);
    SortedIsUnique(Sort(xs, le), Sort(ys, le), le);
  }

  /** Lexicographic order on strings. */
  predicate StrLe(a: string, b: string) {
    a == "" || (b != "" && (a[0] < b[0] || (a[0] == b[0] && StrLe(a[1..], b[1..]))))
  }

  lemma {:induction false} StrLeTotal(a: string, b: string)
    ensures StrLe(a, b) || StrLe(b, a)
  {
    if a != "" && b != "" && a[0] == b[0] { StrLeTotal(a[1..], b[1..]); }
  }

  lemma {:induction false} StrLeTransitive(a: string, b: string, c: string)
    requires StrLe(a, b) && StrLe(b, c)
    ensures StrLe(a, c)
  {
    if a != "" && a[0] == b[0] && b[0] == c[0] { StrLeTransitive(a[1..], b[1..], c[1..]); }
  }

  lemma {:induction false} StrLeAntisymmetric(a: string, b: string)
    requires StrLe(a, b) && StrLe(b, a)
    ensures a == b
  {
    if a != "" && b != "" {
      StrLeAntisymmetric(a[1..], b[1..]);
      assert a == [a[0]] + a[1..] && b == [b[0]] + b[1..];
    }
  }

  lemma StrLeOrder()
    ensures Preorder(StrLe)
    ensures forall a, b :: StrLe(a, b) && StrLe(b, a) ==> a == b
  {
    forall a, b ensures StrLe(a, b) || StrLe(b, a) { StrLeTotal(a, b); }
    forall a, b, c | StrLe(a, b) && StrLe(b, c) ensures StrLe(a, c) { StrLeTransitive(a, b, c); }
    forall a, b | StrLe(a, b) && StrLe(b, a) ensures a == b { StrLeAntisymmetric(a, b); }
  }

  /** The members of a finite set of strings, in increasing order. */
  function SortedStrings(s: set<string>): (r: seq<string>)
    ensures |r| == |s|
    ensures forall x :: x in r <==> x in s
    ensures NoDuplicates(r) && Sorted(r, StrLe)
  {
    if s == {} then []
    else
      var rest := SortedStrings(s - {Least(s)});
      SortedCons(Least(s), rest);
      [Least(s)] + rest
  }

  lemma SortedCons(x: string, rest: seq<string>)
    requires NoDuplicates(rest) && Sorted(rest, StrLe) && x !in rest
    requires forall y :: y in rest ==> StrLe(x, y)
    ensures NoDuplicates([x] + rest) && Sorted([x] + rest, StrLe)
  {
    assert StrLe(x, x) by { StrLeOrder(); }
  }

  function Least(s: set<string>): (least: string)
    requires s != {}
    ensures IsLeast(least, s)
  {
    LeastExists(s);
    StrLeOrder();
    var x :| x in s && IsLeast(x, s);
    x
  }

  predicate IsLeast(x: string, s: set<string>) {
    x in s && forall y :: y in s ==> StrLe(x, y)
  }

  lemma {:induction false} LeastExists(s: set<string>)
    requires s != {}
    ensures exists x :: IsLeast(x, s)
  {
    var y :| y in s;
    StrLeOrder();
    assert StrLe(y, y);
    if s == {y} {
      assert IsLeast(y, s);
    } else {
      LeastExists(s - {y});
      var x :| IsLeast(x, s - {y});
      if StrLe(x, y) {
        assert IsLeast(x, s);
      } else {
        assert IsLeast(y, s);
      }
    }
  }
}

/** heapq over a list, seen through what its two operations promise. */
module HeapQueue {
  import opened Basics
  import opened Ordering

  /** Position of the first smallest element, the one heappop removes. */
  function MinIndex<T>(queue: seq<T>, le: (T, T) -> bool): (m: nat)
    requires queue != []
    ensures m < |queue|
  {
    if |queue| == 1 then 0
    else
      var m := MinIndex(queue[1..], le) + 1;
      if le(queue[0], queue[m]) then 0 else m
  }

  function Without<T>(queue: seq<T>, i: nat): (rest: seq<T>)
    requires i < |queue|
    ensures |rest| == |queue| - 1
    ensures forall x :: x in rest ==> x in queue
    ensures forall x :: x in queue ==> x == queue[i] || x in rest
  {
    assert queue == queue[..i] + [queue[i]] + queue[i + 1..];
    queue[..i] + queue[i + 1..]
  }

  lemma {:induction false} PopIsLeast<T(!new)>(queue: seq<T>, le: (T, T) -> bool)
    requires queue != [] && Preorder(le)
    ensures forall x :: x in queue ==> le(queue[MinIndex(queue, le)], x)
  {
    assert le(queue[0], queue[0]);
    if |queue| > 1 {
      assert queue == [queue[0]] + queue[1..];
      PopIsLeast(queue[1..], le);
    }
  }

  lemma WithoutDistinct<T>(queue: seq<T>, i: nat)
    requires i < |queue| && NoDuplicates(queue)
    ensures NoDuplicates(Without(queue, i))
    ensures queue[i] !in Without(queue, i)
  {
  }
}
