/** The hand-written binary heap of the route search (route.go). */
module MinHeaps {
  import opened Keys

  datatype PqItem = PqItem(node: PubKey, cost: real)

  /** The slot `i` of a binary heap is a child of slot `p`. */
  predicate IsChild(p: int, i: int) {
    2 * p + 1 <= i <= 2 * p + 2
  }

  /** No entry is cheaper than its parent. */
  ghost predicate HeapOrdered(a: seq<PqItem>) {
    forall p, i {:trigger IsChild(p, i)} :: 0 <= p < |a| && 0 <= i < |a| && IsChild(p, i) ==> a[p].cost <= a[i].cost
  }

  /** Heap order except possibly between `hole` and its parent; the children of
      `hole` do not undercut its parent. */
  ghost predicate OrderedExceptUp(a: seq<PqItem>, hole: nat) {
    && (forall p, i {:trigger IsChild(p, i)} :: 0 <= p < |a| && 0 <= i < |a| && i != hole && IsChild(p, i) ==>
          a[p].cost <= a[i].cost)
    && (forall p, i {:trigger IsChild(p, hole), IsChild(hole, i)} ::
          0 <= p < |a| && 0 <= i < |a| && IsChild(p, hole) && IsChild(hole, i) ==> a[p].cost <= a[i].cost)
  }

  /** Heap order except possibly between `hole` and its children; the children of
      `hole` do not undercut its parent. */
  ghost predicate OrderedExceptDown(a: seq<PqItem>, hole: nat) {
    && (forall p, i {:trigger IsChild(p, i)} :: 0 <= p < |a| && 0 <= i < |a| && p != hole && IsChild(p, i) ==>
          a[p].cost <= a[i].cost)
    && (forall p, i {:trigger IsChild(p, hole), IsChild(hole, i)} ::
          0 <= p < |a| && 0 <= i < |a| && IsChild(p, hole) && IsChild(hole, i) ==> a[p].cost <= a[i].cost)
  }

  /** In a heap-ordered sequence the first entry is a cheapest one. */
  lemma {:induction false} RootIsMinimal(a: seq<PqItem>, i: nat)
    requires HeapOrdered(a) && i < |a|
    ensures a[0].cost <= a[i].cost
  {
    if i != 0 {
      var p := (i - 1) / 2;
      assert IsChild(p, i);
      RootIsMinimal(a, p);
    }
  }

  function Swap(a: seq<PqItem>, i: nat, j: nat): seq<PqItem>
    requires i < |a| && j < |a|
  {
    a[i := a[j]][j := a[i]]
  }

  lemma SwapPermutes(a: seq<PqItem>, i: nat, j: nat)
    requires i < |a| && j < |a|
    ensures multiset(Swap(a, i, j)) == multiset(a)
  {
  }

  /** Moving a too-cheap entry one level up moves the hole one level up. */
  lemma SiftUpStep(a: seq<PqItem>, p: nat, i: nat)
    requires p < |a| && i < |a| && IsChild(p, i)
    requires OrderedExceptUp(a, i)
    requires a[i].cost < a[p].cost
    ensures OrderedExceptUp(Swap(a, p, i), p)
  {
    var b := Swap(a, p, i);
    forall q, j | 0 <= q < |b| && 0 <= j < |b| && j != p && IsChild(q, j)
      ensures b[q].cost <= b[j].cost
    {
      if q == i { assert a[p].cost <= a[j].cost; }
    }
    forall q, j | 0 <= q < |b| && 0 <= j < |b| && IsChild(q, p) && IsChild(p, j)
      ensures b[q].cost <= b[j].cost
    {
      assert a[q].cost <= a[p].cost;
      if j != i { assert a[p].cost <= a[j].cost; }
    }
  }

  /** Swapping a too-costly entry with its cheapest child moves the hole to that child. */
  lemma SiftDownStep(a: seq<PqItem>, i: nat, c: nat)
    requires i < |a| && c < |a| && IsChild(i, c)
    requires OrderedExceptDown(a, i)
    requires a[c].cost < a[i].cost
    requires forall j :: 0 <= j < |a| && IsChild(i, j) ==> a[c].cost <= a[j].cost
    ensures OrderedExceptDown(Swap(a, i, c), c)
  {
    var b := Swap(a, i, c);
    forall q, j | 0 <= q < |b| && 0 <= j < |b| && q != c && IsChild(q, j)
      ensures b[q].cost <= b[j].cost
    {
      if j == i { assert a[q].cost <= a[c].cost; }
    }
    forall q, j | 0 <= q < |b| && 0 <= j < |b| && IsChild(q, c) && IsChild(c, j)
      ensures b[q].cost <= b[j].cost
    {
      assert q == i;
      assert a[c].cost <= a[j].cost;
    }
  }

  /** Taking the root out and moving the last entry into its place removes one entry
      and leaves the order intact except at the root. */
  lemma RemoveRoot(a: seq<PqItem>, b: seq<PqItem>)
    requires HeapOrdered(a) && a != []
    requires b == a[0 := a[|a| - 1]][..|a| - 1]
    ensures multiset(a) == multiset(b) + multiset{a[0]}
    ensures OrderedExceptDown(b, 0)
  {
    var n := |a|;
    if n == 1 {
      assert a == [a[0]] && b == [];
    } else {
      assert a == [a[0]] + a[1..n - 1] + [a[n - 1]];
      assert b == [a[n - 1]] + a[1..n - 1];
    }
  }

  /** `b` is `a` without one entry `top`. */
  ghost predicate IsRest(b: seq<PqItem>, a: seq<PqItem>, top: PqItem) {
    multiset(a) == multiset(b) + multiset{top} && |b| == |a| - 1
  }

  lemma RestOf(b: seq<PqItem>, a: seq<PqItem>, top: PqItem)
    requires IsRest(b, a, top)
    ensures multiset(a) == multiset(b) + multiset{top}
  {
  }

  lemma ChildIsLater(i: nat, c: nat)
    requires IsChild(i, c)
    ensures i < c
  {
  }

  lemma SwapKeepsRest(b: seq<PqItem>, a: seq<PqItem>, top: PqItem, i: nat, j: nat)
    requires IsRest(b, a, top) && i < |b| && j < |b|
    ensures IsRest(Swap(b, i, j), a, top)
  {
    SwapPermutes(b, i, j);
  }

  /** The first entry is a cheapest one. */
  lemma RootIsLeast(a: seq<PqItem>)
    requires HeapOrdered(a) && a != []
    ensures forall x :: x in a ==> a[0].cost <= x.cost
  {
    forall x | x in a ensures a[0].cost <= x.cost {
      var i :| 0 <= i < |a| && a[i] == x;
      RootIsMinimal(a, i);
    }
  }

  /** The cheaper of the children that undercut entry `i`, or `i` itself if none does. */
  function PickChild(a: seq<PqItem>, i: nat): (s: nat)
    ensures s == i || s < |a|
  {
    var l, r := 2 * i + 1, 2 * i + 2;
    var s := if l < |a| && a[l].cost < a[i].cost then l else i;
    if r < |a| && a[r].cost < a[s].cost then r else s
  }

  lemma PickedChild(a: seq<PqItem>, i: nat)
    requires i < |a|
    ensures var s := PickChild(a, i);
            && (forall j :: 0 <= j < |a| && IsChild(i, j) ==> a[s].cost <= a[j].cost)
            && (s != i ==> IsChild(i, s) && a[s].cost < a[i].cost)
  {
  }

  /** Nothing left to sift. */
  lemma SiftedDown(a: seq<PqItem>, i: nat)
    requires OrderedExceptDown(a, i) && PickChild(a, i) == i && (a == [] || i < |a|)
    ensures HeapOrdered(a)
  {
    if a != [] { PickedChild(a, i); }
  }

  class MinHeap {
    var items: seq<PqItem>

    constructor (first: PqItem)
      ensures items == [first] && HeapOrdered(items)
    {
      items := [first];
    }

    method Push(it: PqItem)
      requires HeapOrdered(items)
      modifies this
      ensures HeapOrdered(items)
      ensures multiset(items) == old(multiset(items)) + multiset{it}
      ensures |items| == old(|items|) + 1
    {
      items := items + [it];
      var i := |items| - 1;
      while i > 0
        invariant 0 <= i < |items|
        invariant |items| == old(|items|) + 1
        invariant OrderedExceptUp(items, i)
        invariant multiset(items) == old(multiset(items)) + multiset{it}
      {
        var parent := (i - 1) / 2;
        if items[parent].cost <= items[i].cost {
          break;
        }
        SwapPermutes(items, parent, i);
        SiftUpStep(items, parent, i);
        items := Swap(items, parent, i);
        i := parent;
      }
    }

    method Pop() returns (top: PqItem)
      requires HeapOrdered(items)
      requires items != []
      modifies this
      ensures HeapOrdered(items)
      ensures old(multiset(items)) == multiset(items) + multiset{top}
      ensures |items| == old(|items|) - 1
      ensures forall x :: x in old(items) ==> top.cost <= x.cost
    {
      ghost var a := items;
      var n := |items|;
      top := items[0];
      RootIsLeast(a);
      items := items[0 := items[n - 1]];
      items := items[..n - 1];
      RemoveRoot(a, items);
      assert IsRest(items, a, top);
      hide OrderedExceptDown, HeapOrdered, IsRest, Swap, IsChild;
      var i, sz := 0, |items|;
      while true
        invariant 0 <= i && sz == |items| == n - 1
        invariant sz == 0 || i < sz
        invariant OrderedExceptDown(items, i)
        invariant IsRest(items, a, top)
        decreases sz - i
      {
        var l, r, smallest := 2 * i + 1, 2 * i + 2, i;
        if l < sz && items[l].cost < items[smallest].cost {
          smallest := l;
        }
        if r < sz && items[r].cost < items[smallest].cost {
          smallest := r;
        }
        assert smallest == PickChild(items, i);
        if smallest == i {
          break;
        }
        PickedChild(items, i);
        SwapKeepsRest(items, a, top, i, smallest);
        ChildIsLater(i, smallest);
        SiftDownStep(items, i, smallest);
        items := Swap(items, i, smallest);
        i := smallest;
      }
      SiftedDown(items, i);
      RestOf(items, a, top);
    }
  }
}
