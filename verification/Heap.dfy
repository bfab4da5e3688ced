/** A binary min-heap in a vector, as std::push_heap, std::pop_heap and std::make_heap keep it. */
module Heap {
  type Key<!T> = T -> int

  function Parent(i: nat): nat
    requires i > 0
  {
    (i - 1) / 2
  }

  ghost predicate Ordered<T>(h: seq<T>, key: Key<T>, i: nat)
    requires 0 < i < |h|
  {
    key(h[Parent(i)]) <= key(h[i])
  }

  ghost predicate IsHeap<T>(h: seq<T>, key: Key<T>) {
    forall i :: 0 < i < |h| ==> Ordered(h, key, i)
  }

  /** The front of a heap is a least element. */
  lemma {:induction false} FrontIsLeast<T>(h: seq<T>, key: Key<T>, i: nat)
    requires IsHeap(h, key) && i < |h|
    ensures key(h[0]) <= key(h[i])
  {
    if i > 0 {
      assert Ordered(h, key, i);
      FrontIsLeast(h, key, Parent(i));
    }
  }

  function Swap<T>(h: seq<T>, i: nat, j: nat): (r: seq<T>)
    requires i < |h| && j < |h|
    ensures |r| == |h|
  {
    h[i := h[j]][j := h[i]]
  }

  lemma SwapPermutes<T>(h: seq<T>, i: nat, j: nat)
    requires i < |h| && j < |h|
    ensures multiset(Swap(h, i, j)) == multiset(h)
  {
  }

  // ----- Sifting up -----

  /** A heap but for position `i`, whose value may be too small; its children respect its parent. */
  ghost predicate HeapButUp<T>(h: seq<T>, key: Key<T>, i: nat) {
    && i < |h|
    && (forall j :: 0 < j < |h| && j != i ==> Ordered(h, key, j))
    && (forall j :: 0 < j < |h| && Parent(j) == i && i > 0 ==> key(h[Parent(i)]) <= key(h[j]))
  }

  lemma SiftUpStep<T>(h: seq<T>, key: Key<T>, i: nat)
    requires HeapButUp(h, key, i) && i > 0 && key(h[i]) < key(h[Parent(i)])
    ensures HeapButUp(Swap(h, i, Parent(i)), key, Parent(i))
  {
    var p, r := Parent(i), Swap(h, i, Parent(i));
    forall j | 0 < j < |r| && j != p ensures Ordered(r, key, j) {
      if j != i {
        assert Ordered(h, key, j);
      }
    }
    forall j | 0 < j < |r| && Parent(j) == p && p > 0 ensures key(r[Parent(p)]) <= key(r[j]) {
      assert Ordered(h, key, p);
      if j != i {
        assert Ordered(h, key, j);
      }
    }
  }

  /** std::push_heap on a vector whose last element was just pushed. */
  method PushHeap<T>(v: seq<T>, key: Key<T>) returns (h: seq<T>)
    requires v != [] && IsHeap(v[..|v| - 1], key)
    ensures IsHeap(h, key) && multiset(h) == multiset(v)
  {
    h := v;
    var i := |v| - 1;
    forall j | 0 < j < |v| && j != i ensures Ordered(v, key, j) {
      assert Ordered(v[..|v| - 1], key, j);
    }
    while i > 0 && key(h[i]) < key(h[Parent(i)])
      invariant 0 <= i < |h| && HeapButUp(h, key, i)
      invariant multiset(h) == multiset(v)
    {
      SiftUpStep(h, key, i);
      SwapPermutes(h, i, Parent(i));
      h := Swap(h, i, Parent(i));
      i := Parent(i);
    }
  }

  // ----- Sifting down -----

  /** From `lo` on a heap but for position `i`, whose value may be too large; its children respect its parent. */
  ghost predicate HeapButDown<T>(h: seq<T>, key: Key<T>, lo: nat, i: nat) {
    && lo <= i
    && (forall j :: 0 < j < |h| && lo <= Parent(j) && Parent(j) != i ==> Ordered(h, key, j))
    && (forall j :: 0 < j < |h| && i < |h| && i > 0 && lo <= Parent(i) && Parent(j) == i ==>
          key(h[Parent(i)]) <= key(h[j]))
  }

  /** A heap as far as positions with parents from `lo` on are concerned. */
  ghost predicate HeapFrom<T>(h: seq<T>, key: Key<T>, lo: nat) {
    forall j :: 0 < j < |h| && lo <= Parent(j) ==> Ordered(h, key, j)
  }

  /** The smaller child of `i`. */
  function SmallerChild<T>(h: seq<T>, key: Key<T>, i: nat): (c: nat)
    requires 2 * i + 1 < |h|
    ensures i < c < |h| && Parent(c) == i
    ensures forall j :: 0 < j < |h| && Parent(j) == i ==> key(h[c]) <= key(h[j])
  {
    if 2 * i + 2 < |h| && key(h[2 * i + 2]) < key(h[2 * i + 1]) then 2 * i + 2 else 2 * i + 1
  }

  lemma SiftDownStep<T>(h: seq<T>, key: Key<T>, lo: nat, i: nat)
    requires HeapButDown(h, key, lo, i) && 2 * i + 1 < |h|
    requires key(h[SmallerChild(h, key, i)]) < key(h[i])
    ensures var c := SmallerChild(h, key, i); HeapButDown(Swap(h, i, c), key, lo, c)
  {
    var c := SmallerChild(h, key, i);
    var r := Swap(h, i, c);
    forall j | 0 < j < |r| && lo <= Parent(j) && Parent(j) != c ensures Ordered(r, key, j) {
      if Parent(j) == i {
        assert key(h[c]) <= key(h[j]);
      } else {
        assert Ordered(h, key, j);
      }
    }
    forall j | 0 < j < |r| && Parent(j) == c ensures key(r[Parent(c)]) <= key(r[j]) {
      assert Ordered(h, key, j);
    }
  }

  lemma SiftDownDone<T>(h: seq<T>, key: Key<T>, lo: nat, i: nat)
    requires HeapButDown(h, key, lo, i)
    requires 2 * i + 1 < |h| ==> key(h[i]) <= key(h[SmallerChild(h, key, i)])
    ensures HeapFrom(h, key, lo)
  {
  }

  method SiftDown<T>(v: seq<T>, key: Key<T>, lo: nat) returns (h: seq<T>)
    requires HeapFrom(v, key, lo + 1)
    ensures HeapFrom(h, key, lo) && multiset(h) == multiset(v) && |h| == |v|
  {
    h := v;
    var i := lo;
    while 2 * i + 1 < |h| && key(h[SmallerChild(h, key, i)]) < key(h[i])
      invariant |h| == |v| && HeapButDown(h, key, lo, i)
      invariant multiset(h) == multiset(v)
      decreases |h| - i
    {
      var c := SmallerChild(h, key, i);
      SiftDownStep(h, key, lo, i);
      SwapPermutes(h, i, c);
      h := Swap(h, i, c);
      i := c;
    }
    SiftDownDone(h, key, lo, i);
  }

  /** The last element takes the place of the front. */
  lemma FrontTakenOut<T>(v: seq<T>)
    requires |v| > 1
    ensures multiset(v[0 := v[|v| - 1]][..|v| - 1]) + multiset{v[0]} == multiset(v)
  {
    var front, middle, last := v[0], v[1..|v| - 1], v[|v| - 1];
    assert v == [front] + middle + [last];
    assert v[0 := last][..|v| - 1] == [last] + middle;
  }

  /** std::pop_heap followed by pop_back: takes the front out. */
  method PopHeap<T>(v: seq<T>, key: Key<T>) returns (h: seq<T>, front: T)
    requires v != [] && IsHeap(v, key)
    ensures IsHeap(h, key) && front == v[0] && multiset(h) + multiset{front} == multiset(v)
    ensures |h| == |v| - 1
  {
    front := v[0];
    var last := v[|v| - 1];
    if |v| == 1 {
      assert v == [front];
      return [], front;
    }
    var w := v[0 := last][..|v| - 1];
    FrontTakenOut(v);
    forall j | 0 < j < |w| && 1 <= Parent(j) ensures Ordered(w, key, j) {
      assert Ordered(v, key, j);
    }
    h := SiftDown(w, key, 0);
    HeapFromZero(h, key);
  }

  lemma HeapFromZero<T>(h: seq<T>, key: Key<T>)
    requires HeapFrom(h, key, 0)
    ensures IsHeap(h, key)
  {
  }

  /** std::make_heap. */
  method MakeHeap<T>(v: seq<T>, key: Key<T>) returns (h: seq<T>)
    ensures IsHeap(h, key) && multiset(h) == multiset(v)
  {
    h := v;
    var lo := |v| / 2;
    while lo > 0
      invariant 0 <= lo && |h| == |v| && HeapFrom(h, key, lo)
      invariant multiset(h) == multiset(v)
    {
      lo := lo - 1;
      h := SiftDown(h, key, lo);
    }
    HeapFromZero(h, key);
  }
}
