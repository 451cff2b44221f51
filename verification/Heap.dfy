/** Binary heaps kept in a sequence, with the operations of Go's `container/heap`
    that the transaction lists rely on. The order is a parameter. */
module Heap {

  /** `less` never holds both ways, and "not after" is transitive. */
  ghost predicate WeakOrder<T(!new)>(less: (T, T) -> bool) {
    && (forall a, b :: less(a, b) ==> !less(b, a))
    && (forall a, b, c :: !less(b, a) && !less(c, b) ==> !less(c, a))
  }

  predicate InOrder<T>(less: (T, T) -> bool, h: seq<T>, child: nat)
    requires child < |h|
  {
    child == 0 || !less(h[child], h[(child - 1) / 2])
  }

  ghost predicate IsHeap<T(!new)>(less: (T, T) -> bool, h: seq<T>) {
    forall i :: 0 <= i < |h| ==> InOrder(less, h, i)
  }

  /** The root of a heap comes no later than any other element. */
  lemma {:induction false} RootIsLeast<T(!new)>(less: (T, T) -> bool, h: seq<T>, i: nat)
    requires WeakOrder(less) && IsHeap(less, h) && i < |h|
    ensures !less(h[i], h[0])
  {
    if i == 0 {
    } else {
      RootIsLeast(less, h, (i - 1) / 2);
      assert InOrder(less, h, i);
    }
  }

  lemma RootIsLeastOfAll<T(!new)>(less: (T, T) -> bool, h: seq<T>)
    requires WeakOrder(less) && IsHeap(less, h) && |h| > 0
    ensures forall x :: x in h ==> !less(x, h[0])
  {
    forall x | x in h ensures !less(x, h[0]) {
      var i: nat :| i < |h| && h[i] == x;
      RootIsLeast(less, h, i);
    }
  }

  function Swap<T>(h: seq<T>, i: nat, j: nat): (r: seq<T>)
    requires i < |h| && j < |h|
    ensures |r| == |h| && multiset(r) == multiset(h)
    ensures r[i] == h[j] && r[j] == h[i]
    ensures forall k :: 0 <= k < |h| && k != i && k != j ==> r[k] == h[k]
  {
    h[i := h[j]][j := h[i]]
  }

  /** Every edge holds except possibly the one above `hole`, and the children of
      `hole` stand in order with its parent. */
  ghost predicate HoleAbove<T(!new)>(less: (T, T) -> bool, h: seq<T>, hole: nat) {
    && (forall i :: 0 <= i < |h| && i != hole ==> InOrder(less, h, i))
    && (forall i :: 0 < i < |h| && (i - 1) / 2 == hole && hole > 0 ==> !less(h[i], h[(hole - 1) / 2]))
  }

  /** Every edge from `low` on holds except possibly those below `hole`, and the
      children of `hole` stand in order with its parent. */
  ghost predicate HoleBelow<T(!new)>(less: (T, T) -> bool, h: seq<T>, hole: nat, low: nat) {
    && (forall i :: 0 < i < |h| && (i - 1) / 2 >= low && (i - 1) / 2 != hole ==> InOrder(less, h, i))
    && (forall i :: 0 < i < |h| && (i - 1) / 2 == hole && hole > 0 && (hole - 1) / 2 >= low
          ==> !less(h[i], h[(hole - 1) / 2]))
  }

  /** The edges whose upper end is at `low` or beyond hold. */
  ghost predicate IsHeapFrom<T(!new)>(less: (T, T) -> bool, h: seq<T>, low: nat) {
    forall i :: 0 < i < |h| && (i - 1) / 2 >= low ==> InOrder(less, h, i)
  }

  lemma RiseMoves<T(!new)>(less: (T, T) -> bool, h: seq<T>, parent: nat, j: nat)
    requires WeakOrder(less) && 0 < j < |h| && HoleAbove(less, h, j) && parent == (j - 1) / 2 && less(h[j], h[parent])
    ensures HoleAbove(less, Swap(h, parent, j), parent)
  {
    var r := Swap(h, parent, j);
    forall i | 0 <= i < |r| && i != parent ensures InOrder(less, r, i) {
      assert i != j ==> InOrder(less, h, i);
    }
    forall i | 0 < i < |r| && (i - 1) / 2 == parent && parent > 0 ensures !less(r[i], r[(parent - 1) / 2]) {
      assert InOrder(less, h, parent);
      assert i != j ==> InOrder(less, h, i);
    }
  }

  method Up<T(!new)>(less: (T, T) -> bool, h: seq<T>, start: nat) returns (r: seq<T>)
    requires WeakOrder(less) && start < |h| && HoleAbove(less, h, start)
    ensures IsHeap(less, r) && multiset(r) == multiset(h)
  {
    r := h;
    var j: nat := start;
    while j > 0 && less(r[j], r[(j - 1) / 2])
      invariant |r| == |h| && j < |r|
      invariant multiset(r) == multiset(h)
      invariant HoleAbove(less, r, j)
    {
      var parent := (j - 1) / 2;
      RiseMoves(less, r, parent, j);
      r := Swap(r, parent, j);
      j := parent;
    }
  }

  /** `child` is a child of `i` that comes no later than its sibling. */
  predicate LeastChild<T>(less: (T, T) -> bool, h: seq<T>, i: nat, child: nat) {
    && (child == 2 * i + 1 || child == 2 * i + 2)
    && child < |h|
    && (2 * i + 1 < |h| ==> !less(h[2 * i + 1], h[child]))
    && (2 * i + 2 < |h| ==> !less(h[2 * i + 2], h[child]))
  }

  lemma SinkStops<T(!new)>(less: (T, T) -> bool, h: seq<T>, i: nat, child: nat, low: nat)
    requires WeakOrder(less) && HoleBelow(less, h, i, low) && LeastChild(less, h, i, child)
    requires !less(h[child], h[i])
    ensures IsHeapFrom(less, h, low)
  {
    forall k | 0 < k < |h| && (k - 1) / 2 == i ensures InOrder(less, h, k) {
      assert k == 2 * i + 1 || k == 2 * i + 2;
    }
  }

  lemma SinkMoves<T(!new)>(less: (T, T) -> bool, h: seq<T>, i: nat, child: nat, low: nat)
    requires WeakOrder(less) && low <= i < |h| && HoleBelow(less, h, i, low) && LeastChild(less, h, i, child)
    requires less(h[child], h[i])
    ensures HoleBelow(less, Swap(h, i, child), child, low)
  {
    var r := Swap(h, i, child);
    forall k | 0 < k < |r| && (k - 1) / 2 >= low && (k - 1) / 2 != child ensures InOrder(less, r, k) {
      if (k - 1) / 2 == i {
        assert k == 2 * i + 1 || k == 2 * i + 2;
      } else if k == i {
        assert !less(h[child], h[(i - 1) / 2]);
      } else {
        assert InOrder(less, h, k);
      }
    }
    forall k | 0 < k < |r| && (k - 1) / 2 == child ensures !less(r[k], r[i]) {
      assert InOrder(less, h, k);
    }
  }

  method Down<T(!new)>(less: (T, T) -> bool, h: seq<T>, start: nat, low: nat) returns (r: seq<T>)
    requires WeakOrder(less) && low <= start < |h| && HoleBelow(less, h, start, low)
    ensures IsHeapFrom(less, r, low) && multiset(r) == multiset(h) && |r| == |h|
  {
    r := h;
    var i: nat := start;
    while 2 * i + 1 < |r|
      invariant |r| == |h| && low <= i < |r| && multiset(r) == multiset(h)
      invariant HoleBelow(less, r, i, low)
      decreases |r| - i
    {
      var child := 2 * i + 1;
      if child + 1 < |r| && less(r[child + 1], r[child]) {
        child := child + 1;
      }
      assert LeastChild(less, r, i, child);
      if !less(r[child], r[i]) {
        SinkStops(less, r, i, child, low);
        break;
      }
      SinkMoves(less, r, i, child, low);
      r := Swap(r, i, child);
      i := child;
    }
  }

  method Push<T(!new)>(less: (T, T) -> bool, h: seq<T>, x: T) returns (r: seq<T>)
    requires WeakOrder(less) && IsHeap(less, h)
    ensures IsHeap(less, r) && multiset(r) == multiset(h) + multiset{x}
  {
    r := h + [x];
    forall i | 0 <= i < |r| && i != |h| ensures InOrder(less, r, i) {
      assert InOrder(less, h, i);
    }
    r := Up(less, r, |h|);
  }

  method Pop<T(!new)>(less: (T, T) -> bool, h: seq<T>) returns (x: T, r: seq<T>)
    requires WeakOrder(less) && IsHeap(less, h) && |h| > 0
    ensures x == h[0] && forall y :: y in h ==> !less(y, x)
    ensures IsHeap(less, r) && multiset(h) == multiset(r) + multiset{x}
  {
    RootIsLeastOfAll(less, h);
    var n := |h| - 1;
    var swapped := Swap(h, 0, n);
    x := swapped[n];
    r := swapped[..n];
    assert swapped == r + [x];
    if n > 0 {
      forall i | 0 < i < |r| && (i - 1) / 2 != 0 ensures InOrder(less, r, i) {
        assert InOrder(less, h, i);
      }
      r := Down(less, r, 0, 0);
    }
  }

  method Init<T(!new)>(less: (T, T) -> bool, h: seq<T>) returns (r: seq<T>)
    requires WeakOrder(less)
    ensures IsHeap(less, r) && multiset(r) == multiset(h) && |r| == |h|
  {
    r := h;
    var i := |h| / 2;
    while i > 0
      invariant 0 <= i <= |h| / 2
      invariant |r| == |h| && multiset(r) == multiset(h)
      invariant IsHeapFrom(less, r, i)
    {
      i := i - 1;
      r := Down(less, r, i, i);
    }
  }

  /** Removes the element at position `k`. */
  method Remove<T(!new)>(less: (T, T) -> bool, h: seq<T>, k: nat) returns (r: seq<T>)
    requires WeakOrder(less) && IsHeap(less, h) && k < |h|
    ensures IsHeap(less, r) && multiset(h) == multiset(r) + multiset{h[k]}
  {
    var n := |h| - 1;
    var swapped := Swap(h, k, n);
    r := swapped[..n];
    assert swapped == r + [h[k]];
    if k == n {
      forall i | 0 <= i < |r| ensures InOrder(less, r, i) { assert InOrder(less, h, i); }
    } else {
      r := FixAt(less, h, r, k);
    }
  }

  /** Restores the heap after position `k` of `h` was overwritten. */
  method FixAt<T(!new)>(less: (T, T) -> bool, ghost h: seq<T>, s: seq<T>, k: nat) returns (r: seq<T>)
    requires WeakOrder(less) && IsHeap(less, h) && k < |s| <= |h|
    requires forall i :: 0 <= i < |s| && i != k ==> s[i] == h[i]
    ensures IsHeap(less, r) && multiset(r) == multiset(s)
  {
    forall i | 0 < i < |s| && i != k && (i - 1) / 2 != k ensures InOrder(less, s, i) {
      assert InOrder(less, h, i);
    }
    forall i | 0 < i < |s| && (i - 1) / 2 == k && k > 0 ensures !less(s[i], s[(k - 1) / 2]) {
      assert InOrder(less, h, i) && InOrder(less, h, k);
    }
    if k > 0 && less(s[k], s[(k - 1) / 2]) {
      forall i | 0 < i < |s| && (i - 1) / 2 == k ensures InOrder(less, s, i) {
        assert !less(s[i], s[(k - 1) / 2]);
      }
      r := Up(less, s, k);
    } else {
      r := Down(less, s, k, 0);
    }
  }

  /** Sorting by repeated removal of the root, with the contract of Go's `sort.Sort`. */
  method Sort<T(!new)>(less: (T, T) -> bool, s: seq<T>) returns (r: seq<T>)
    requires WeakOrder(less)
    ensures multiset(r) == multiset(s) && |r| == |s|
    ensures forall i, j :: 0 <= i < j < |r| ==> !less(r[j], r[i])
  {
    var h := Init(less, s);
    r := [];
    while |h| > 0
      invariant IsHeap(less, h) && multiset(r) + multiset(h) == multiset(s)
      invariant forall i, j :: 0 <= i < j < |r| ==> !less(r[j], r[i])
      invariant forall i, x :: 0 <= i < |r| && x in h ==> !less(x, r[i])
      decreases |h|
    {
      ghost var before := h;
      var x;
      x, h := Pop(less, h);
      assert |multiset(before)| == |multiset(h)| + 1;
      assert forall y :: y in h ==> y in before by {
        forall y | y in h ensures y in before {
          assert y in multiset(h);
          assert y in multiset(before);
        }
      }
      assert x in before;
      r := r + [x];
    }
    assert |multiset(r)| == |multiset(s)|;
  }

  /** A sequence in which nothing occurs twice. */
  ghost predicate Distinct<T(!new)>(s: seq<T>) {
    forall x :: multiset(s)[x] <= 1
  }

  lemma DistinctAt<T(!new)>(s: seq<T>, i: nat, j: nat)
    requires Distinct(s) && i < j < |s|
    ensures s[i] != s[j]
  {
    assert s == s[..j] + [s[j]] + s[j + 1..];
    assert s[..j][i] == s[i];
    assert s[i] in multiset(s[..j]);
    assert multiset(s)[s[j]] == multiset(s[..j])[s[j]] + 1 + multiset(s[j + 1..])[s[j]];
  }
}
