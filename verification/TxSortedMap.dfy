/** The nonce-sorted transaction map of one account: a hash map, a heap of its
    nonces and a cache of its sorted contents, kept in step with one another. */
module TxSortedMaps {
  import opened Transactions
  import opened NonceMaps
  import Heap

  predicate NonceLess(a: nat, b: nat) { a < b }

  predicate TxNonceLess(a: Tx, b: Tx) { a.nonce < b.nonce }

  ghost function Nonces(s: seq<Tx>): set<nat> {
    set i | 0 <= i < |s| :: s[i].nonce
  }

  lemma {:induction false} SortedPrefixSize(s: seq<Tx>, p: nat)
    requires p <= |s|
    requires forall i, j :: 0 <= i < j < |s| ==> s[i].nonce < s[j].nonce
    ensures |Nonces(s[..p])| == p
  {
    if p == 0 {
      assert Nonces(s[..p]) == {};
    } else {
      SortedPrefixSize(s, p - 1);
      assert Nonces(s[..p]) == Nonces(s[..p - 1]) + {s[p - 1].nonce} by {
        assert s[..p][p - 1].nonce == s[p - 1].nonce;
        forall n | n in Nonces(s[..p - 1]) ensures n in Nonces(s[..p]) {
          var i :| 0 <= i < p - 1 && s[..p - 1][i].nonce == n;
          assert s[..p][i].nonce == n;
        }
        forall n | n in Nonces(s[..p]) ensures n in Nonces(s[..p - 1]) + {s[p - 1].nonce} {
          var i :| 0 <= i < p && s[..p][i].nonce == n;
          assert i < p - 1 ==> s[..p - 1][i].nonce == n;
        }
      }
    }
  }

  lemma SubsetOfSameSize(a: set<nat>, b: set<nat>)
    requires a <= b && |a| == |b|
    ensures a == b
  {
    if a != b { Proper(a, b); }
  }

  lemma SortedCovers(s: seq<Tx>, m: NonceMap)
    requires Sorted(s, m)
    ensures Nonces(s) == m.Keys
  {
    SortedPrefixSize(s, |s|);
    assert s[..|s|] == s;
    SubsetOfSameSize(Nonces(s), m.Keys);
  }

  /** The front of a sorted listing names an initial segment. */
  lemma SortedFront(s: seq<Tx>, m: NonceMap, p: nat, r: NonceMap)
    requires Sorted(s, m) && p <= |s| && r == (map n | n in m && n in Nonces(s[..p]) :: m[n])
    ensures r == Lowest(m, p) && |r| == p
  {
    SortedPrefixSize(s, p);
    SortedCovers(s, m);
    FrontKeys(s, m, p);
    assert r.Keys == Nonces(s[..p]);
    forall a, b | a in r && b in m && b !in r ensures a < b { FrontIsLow(s, p, a, b); }
    LowestIsUnique(r, m, p);
  }

  lemma FrontKeys(s: seq<Tx>, m: NonceMap, p: nat)
    requires Sorted(s, m) && p <= |s|
    ensures Nonces(s[..p]) <= m.Keys
  {
    forall n | n in Nonces(s[..p]) ensures n in m {
      var i :| 0 <= i < p && s[..p][i].nonce == n;
      assert In(m, s[i]);
    }
  }

  lemma FrontIsLow(s: seq<Tx>, p: nat, a: nat, b: nat)
    requires p <= |s| && (forall i, j :: 0 <= i < j < |s| ==> s[i].nonce < s[j].nonce)
    requires a in Nonces(s[..p]) && b in Nonces(s) && b !in Nonces(s[..p])
    ensures a < b
  {
    var i :| 0 <= i < p && s[..p][i].nonce == a;
    var j :| 0 <= j < |s| && s[j].nonce == b;
    if j < p { NonceInFront(s, p, j); }
  }

  /** Cutting a sorted listing short lists the lowest nonces. */
  lemma SortedTake(s: seq<Tx>, m: NonceMap, p: nat)
    requires Sorted(s, m) && p <= |s|
    ensures Sorted(s[..p], Lowest(m, p))
  {
    var r := map n | n in m && n in Nonces(s[..p]) :: m[n];
    SortedFront(s, m, p, r);
    forall i | 0 <= i < p ensures In(r, s[..p][i]) {
      assert In(m, s[i]);
      NonceInFront(s, p, i);
    }
  }

  /** What is left of it lists the other nonces. */
  lemma SortedDrop(s: seq<Tx>, m: NonceMap, p: nat, rest: NonceMap)
    requires Sorted(s, m) && p <= |s| && rest == m - Lowest(m, p).Keys
    ensures Sorted(s[p..], rest)
  {
    var r := map n | n in m && n in Nonces(s[..p]) :: m[n];
    SortedFront(s, m, p, r);
    SubmapSize(r, m);
    forall i | p <= i < |s| ensures In(rest, s[i]) {
      NotInFront(s, p, i);
      assert In(m, s[i]);
    }
    SortedTail(s, p, rest);
  }

  lemma SortedTail(s: seq<Tx>, p: nat, rest: NonceMap)
    requires p <= |s| && |rest| == |s| - p && (forall i :: p <= i < |s| ==> In(rest, s[i]))
    requires forall i, j :: 0 <= i < j < |s| ==> s[i].nonce < s[j].nonce
    ensures Sorted(s[p..], rest)
  {
  }

  lemma NonceInFront(s: seq<Tx>, p: nat, i: nat)
    requires i < p <= |s|
    ensures s[i].nonce in Nonces(s[..p])
  {
    assert s[..p][i].nonce == s[i].nonce;
  }

  lemma NotInFront(s: seq<Tx>, p: nat, i: nat)
    requires p <= i < |s|
    requires forall i, j :: 0 <= i < j < |s| ==> s[i].nonce < s[j].nonce
    ensures s[i].nonce !in Nonces(s[..p])
  {
    forall j | 0 <= j < p ensures s[..p][j].nonce != s[i].nonce {}
  }

  /** What sorting a listing of `m` in any order yields. */
  lemma SortedByNonce(s: seq<Tx>, m: NonceMap)
    requires |s| == |m| && (forall x :: x in s ==> In(m, x)) && Heap.Distinct(s)
    requires forall i, j :: 0 <= i < j < |s| ==> !TxNonceLess(s[j], s[i])
    ensures Sorted(s, m)
  {
    forall i, j | 0 <= i < j < |s| ensures s[i].nonce < s[j].nonce {
      Heap.DistinctAt(s, i, j);
      assert In(m, s[i]) && In(m, s[j]);
    }
  }

  /** What a filter selects. */
  function Selected(m: NonceMap, drop: Tx -> bool): NonceMap {
    map n | n in m && drop(m[n]) :: m[n]
  }

  /** `drops` are transactions of `m` that `kept` lacks, highest nonce first. */
  ghost predicate Dropped(drops: seq<Tx>, m: NonceMap, kept: NonceMap) {
    && (forall i :: 0 <= i < |drops| ==> In(m, drops[i]) && drops[i].nonce !in kept)
    && (forall i, n :: 0 <= i < |drops| && n in kept ==> n < drops[i].nonce)
    && (forall i, j :: 0 <= i < j < |drops| ==> drops[i].nonce > drops[j].nonce)
  }

  lemma DroppedStep(drops: seq<Tx>, m: NonceMap, kept: NonceMap, n: nat)
    requires Dropped(drops, m, kept) && WellKeyed(kept) && kept.Keys <= m.Keys && n in kept && m[n] == kept[n]
    requires forall x :: x in kept ==> x <= n
    ensures Dropped(drops + [kept[n]], m, kept - {n})
  {
  }

  lemma LowestStep(m: NonceMap, size: nat)
    requires 0 < size <= |m|
    ensures |Lowest(m, size)| == size && Lowest(m, size) != map[]
    ensures Lowest(m, size - 1) == Lowest(m, size) - {MaxKey(Lowest(m, size))}
    ensures Initial(Lowest(m, size), m)
  {
    LowestIsInitial(m, size);
    LowestDropsMax(Lowest(m, size));
    LowestOfLowest(m, size, size - 1);
  }

  predicate MapKey(k: nat) { true }

  /** The state of Cap's loop: the `size` lowest nonces are left. */
  ghost predicate Dropping(sorted: seq<nat>, size: nat, all: NonceMap, items: NonceMap, drops: seq<Tx>) {
    forall k {:trigger MapKey(k)} :: MapKey(k) ==>
      && size <= |sorted| == |all| && size == |items| && items == Lowest(all, size) && WellKeyed(items)
      && multiset(sorted[..size]) == multiset(items.Keys) && |drops| == |all| - size && Dropped(drops, all, items)
  }

  lemma DroppingStarts(sorted: seq<nat>, items: NonceMap)
    requires WellKeyed(items) && multiset(sorted) == multiset(items.Keys) && |sorted| == |items|
    ensures Dropping(sorted, |items|, items, items, [])
  {
    assert sorted[..|items|] == sorted;
  }

  lemma DroppingEnds(sorted: seq<nat>, size: nat, all: NonceMap, items: NonceMap, drops: seq<Tx>)
    requires Dropping(sorted, size, all, items, drops)
    ensures size <= |sorted| && items == Lowest(all, size) && |items| == size && WellKeyed(items)
    ensures multiset(sorted[..size]) == multiset(items.Keys) && |drops| == |all| - size && Dropped(drops, all, items)
  {
    assert MapKey(0);
  }

  /** One more transaction dropped from the upper end. */
  lemma DropLast(sorted: seq<nat>, size: nat, next: nat, all: NonceMap, items: NonceMap, drops: seq<Tx>)
    requires Increasing(sorted) && 0 < size && next + 1 == size && Dropping(sorted, size, all, items, drops)
    ensures next < |sorted| && sorted[next] in items
    ensures Dropping(sorted, next, all, items - {sorted[next]}, drops + [items[sorted[next]]])
  {
    assert MapKey(0);
    LastIsMax(sorted, size, items);
    LowestStep(all, size);
    SizeOfRemoval(items, sorted[next]);
    DroppedStep(drops, all, items, sorted[next]);
  }

  // ----- the heap of nonces

  /** `index` is a heap of exactly the nonces of `items`. */
  ghost predicate Indexes(index: seq<nat>, items: NonceMap) {
    && WellKeyed(items)
    && Heap.IsHeap(NonceLess, index)
    && multiset(index) == multiset(items.Keys)
  }

  lemma IndexMembers(index: seq<nat>, items: NonceMap)
    requires Indexes(index, items)
    ensures (forall n :: n in index <==> n in items) && |index| == |items|
  {
    forall n ensures n in index <==> n in items {
      assert n in index <==> n in multiset(index);
      assert n in items <==> n in multiset(items.Keys);
    }
    assert |multiset(index)| == |multiset(items.Keys)|;
  }

  lemma IndexFront(index: seq<nat>, items: NonceMap)
    requires Indexes(index, items) && |index| > 0
    ensures items != map[] && index[0] == MinKey(items)
  {
    IndexMembers(index, items);
    Heap.RootIsLeastOfAll(NonceLess, index);
    assert index[0] in items;
  }

  lemma IndexAfterPut(index: seq<nat>, items: NonceMap, tx: Tx, index': seq<nat>)
    requires Indexes(index, items) && Heap.IsHeap(NonceLess, index')
    requires if tx.nonce in items then index' == index else multiset(index') == multiset(index) + multiset{tx.nonce}
    ensures Indexes(index', items[tx.nonce := tx])
  {
    assert items[tx.nonce := tx].Keys == items.Keys + {tx.nonce};
  }

  lemma KeysShrink(m: NonceMap, n: nat)
    requires n in m
    ensures multiset((m - {n}).Keys) == multiset(m.Keys) - multiset{n}
  {
    assert (m - {n}).Keys == m.Keys - {n};
  }

  lemma IndexAfterRemoval(index: seq<nat>, items: NonceMap, n: nat, index': seq<nat>)
    requires Indexes(index, items) && Heap.IsHeap(NonceLess, index') && n in items
    requires multiset(index) == multiset(index') + multiset{n}
    ensures Indexes(index', items - {n})
  {
    KeysShrink(items, n);
  }

  /** Sorting a heap of nonces lists the map's keys in increasing order. */
  lemma SortedIndex(index: seq<nat>, items: NonceMap, sorted: seq<nat>)
    requires Indexes(index, items) && multiset(sorted) == multiset(index)
    requires forall i, j :: 0 <= i < j < |sorted| ==> !NonceLess(sorted[j], sorted[i])
    ensures Increasing(sorted) && multiset(sorted) == multiset(items.Keys)
  {
    forall i, j | 0 <= i < j < |sorted| ensures sorted[i] < sorted[j] { Heap.DistinctAt(sorted, i, j); }
  }

  ghost predicate Increasing(s: seq<nat>) {
    forall i, j :: 0 <= i < j < |s| ==> s[i] < s[j]
  }

  lemma LastIsMax(sorted: seq<nat>, size: nat, items: NonceMap)
    requires Increasing(sorted) && 0 < size <= |sorted| && multiset(sorted[..size]) == multiset(items.Keys)
    ensures items != map[] && sorted[size - 1] == MaxKey(items)
    ensures multiset(sorted[..size - 1]) == multiset((items - {sorted[size - 1]}).Keys)
  {
    var nonce := sorted[size - 1];
    assert sorted[..size] == sorted[..size - 1] + [nonce];
    assert nonce in multiset(sorted[..size]);
    assert nonce in items;
    forall n | n in items ensures n <= nonce {
      assert n in multiset(items.Keys);
      assert n in multiset(sorted[..size]);
      assert n in sorted[..size];
    }
    KeysShrink(items, nonce);
  }

  /** Appending the lowest remaining transaction to a sorted listing of lower ones. */
  lemma SortedExtend(listed: seq<Tx>, gone: NonceMap, items: NonceMap, n: nat)
    requires Sorted(listed, gone) && WellKeyed(items) && n in items && n !in gone
    requires forall a :: a in gone ==> a < n
    ensures Sorted(listed + [items[n]], gone[n := items[n]])
  {
    var tx := items[n];
    assert gone[n := tx].Keys == gone.Keys + {n};
    var r := listed + [tx];
    forall i | 0 <= i < |r| ensures In(gone[n := tx], r[i]) {
      if i < |listed| { assert In(gone, listed[i]); }
    }
    forall i, j | 0 <= i < j < |r| ensures r[i].nonce < r[j].nonce {
      assert In(gone, listed[i]);
    }
  }

  lemma RunEndIs(m: NonceMap, n: nat, e: nat)
    requires n <= e && e !in m && forall i :: n <= i < e ==> i in m
    ensures RunEnd(m, n) == e
  {
  }

  lemma NothingBelowMin(m: NonceMap, n: nat)
    requires m != map[] && n == MinKey(m)
    ensures AtLeast(m, n) == m && Below(m, n) == map[]
  {
  }

  ghost predicate Spans(m: NonceMap, first: nat, next: nat) {
    forall n :: first <= n < next ==> n in m
  }

  lemma SpanGrows(m: NonceMap, first: nat, n: nat, next: nat)
    requires Spans(m, first, n) && n in m && next == n + 1
    ensures Spans(m, first, next)
  {
  }

  /** A run ends where the front of the heap is not the next nonce. */
  lemma RunStops(m: NonceMap, first: nat, next: nat, rest: NonceMap, index: seq<nat>)
    requires Indexes(index, rest) && rest == AtLeast(m, next) && (|index| == 0 || index[0] != next)
    requires first <= next && Spans(m, first, next)
    ensures RunEnd(m, first) == next
  {
    IndexMembers(index, rest);
    if |index| > 0 { IndexFront(index, rest); }
    assert next !in rest;
    RunEndIs(m, first, next);
  }

  /** Popping the lowest of what is left from `cut` on moves the cut past it. */
  lemma CutMoves(m: NonceMap, cut: nat, n: nat)
    requires AtLeast(m, cut) != map[] && n == MinKey(AtLeast(m, cut))
    ensures AtLeast(m, cut) - {n} == AtLeast(m, n + 1)
    ensures Below(m, cut)[n := m[n]] == Below(m, n + 1)
  {
    forall x | x in m && x >= cut ensures x >= n { assert x in AtLeast(m, cut); }
  }

  lemma PopStep(listed: seq<Tx>, m: NonceMap, cut: nat, n: nat, next: nat)
    requires next == n + 1
    requires WellKeyed(m) && AtLeast(m, cut) != map[] && n == MinKey(AtLeast(m, cut))
    requires Sorted(listed, Below(m, cut))
    ensures AtLeast(m, cut) - {n} == AtLeast(m, next)
    ensures Sorted(listed + [m[n]], Below(m, next))
  {
    CutMoves(m, cut, n);
    SortedExtend(listed, Below(m, cut), m, n);
  }

  lemma CutSettles(m: NonceMap, cut: nat, k: nat)
    requires cut <= k && forall n :: n in AtLeast(m, cut) ==> n >= k
    ensures AtLeast(m, cut) == AtLeast(m, k) && Below(m, cut) == Below(m, k)
  {
    forall n | n in m && n >= cut ensures n >= k { assert n in AtLeast(m, cut); }
  }

  lemma ForwardCache(c: seq<Tx>, m: NonceMap, k: nat, removed: seq<Tx>)
    requires Sorted(c, m) && Sorted(removed, Below(m, k))
    ensures |removed| <= |c| && Sorted(c[|removed|..], AtLeast(m, k))
  {
    BelowIsLowest(m, k, Below(m, k));
    assert AtLeast(m, k) == m - Below(m, k).Keys;
    SortedDrop(c, m, |removed|, AtLeast(m, k));
  }

  class TxSortedMap {
    var items: NonceMap
    var index: seq<nat>
    var cache: Option<seq<Tx>>

    ghost predicate Valid()
      reads this
    {
      Indexes(index, items) && (cache.Some? ==> Sorted(cache.value, items))
    }

    constructor ()
      ensures Valid() && items == map[]
    {
      items, index, cache := map[], [], None;
    }

    method Put(tx: Tx)
      requires Valid()
      modifies this
      ensures Valid() && items == old(items)[tx.nonce := tx]
    {
      if tx.nonce !in items {
        index := Heap.Push(NonceLess, index, tx.nonce);
      }
      IndexAfterPut(old(index), items, tx, index);
      items, cache := items[tx.nonce := tx], None;
    }

    /** Takes the lowest nonce off the heap and its transaction out of the map. */
    method PopFront() returns (tx: Tx)
      requires Indexes(index, items) && |index| > 0
      modifies this`items, this`index
      ensures Indexes(index, items) && |index| == |old(index)| - 1
      ensures old(items) != map[] && tx == old(items)[MinKey(old(items))] && tx.nonce == old(index)[0]
      ensures items == old(items) - {tx.nonce}
    {
      IndexFront(index, items);
      IndexMembers(index, items);
      var nonce;
      nonce, index := Heap.Pop(NonceLess, index);
      IndexAfterRemoval(old(index), items, nonce, index);
      SizeOfRemoval(items, nonce);
      tx := items[nonce];
      items := items - {nonce};
      IndexMembers(index, items);
    }

    /** Appends the lowest transaction left from `cut` on to a listing of those below. */
    method PopOnto(listed: seq<Tx>, ghost all: NonceMap, ghost cut: nat, ghost next: nat) returns (r: seq<Tx>)
      requires Indexes(index, items) && |index| > 0 && WellKeyed(all) && next == index[0] + 1
      requires items == AtLeast(all, cut) && Sorted(listed, Below(all, cut))
      modifies this`items, this`index
      ensures Indexes(index, items) && |index| < |old(index)|
      ensures cut <= old(index)[0] && old(index)[0] in all && items == AtLeast(all, next) && Sorted(r, Below(all, next))
    {
      IndexFront(index, items);
      ghost var n := index[0];
      PopStep(listed, all, cut, n, next);
      var tx := PopFront();
      assert tx == all[n];
      r := listed + [tx];
    }

    method Forward(threshold: nat) returns (removed: seq<Tx>)
      requires Valid()
      modifies this
      ensures Valid() && items == AtLeast(old(items), threshold)
      ensures Sorted(removed, Below(old(items), threshold))
    {
      removed := PopBelow(threshold);
      if cache.Some? {
        ForwardCache(cache.value, old(items), threshold, removed);
        cache := Some(cache.value[|removed|..]);
      }
    }

    method PopBelow(threshold: nat) returns (removed: seq<Tx>)
      requires Indexes(index, items)
      modifies this`items, this`index
      ensures Indexes(index, items) && items == AtLeast(old(items), threshold)
      ensures Sorted(removed, Below(old(items), threshold))
    {
      removed := [];
      ghost var all := items;
      ghost var cut: nat := 0;
      assert AtLeast(all, 0) == all && Below(all, 0) == map[];
      while |index| > 0 && index[0] < threshold
        invariant Indexes(index, items) && cut <= threshold
        invariant items == AtLeast(all, cut)
        invariant Sorted(removed, Below(all, cut))
        decreases |index|
      {
        ghost var next := index[0] + 1;
        removed := PopOnto(removed, all, cut, next);
        cut := next;
      }
      IndexMembers(index, items);
      if |index| > 0 { IndexFront(index, items); }
      CutSettles(all, cut, threshold);
    }

    /** Rebuilds the heap from the items. */
    method Reheap()
      requires WellKeyed(items)
      modifies this`index, this`cache
      ensures Valid() && cache.None?
    {
      var nonces := [];
      var rest := items.Keys;
      while rest != {}
        invariant rest <= items.Keys
        invariant multiset(nonces) == multiset(items.Keys - rest)
        decreases rest
      {
        var n :| n in rest;
        assert items.Keys - (rest - {n}) == (items.Keys - rest) + {n};
        nonces, rest := nonces + [n], rest - {n};
      }
      assert items.Keys - {} == items.Keys;
      index := Heap.Init(NonceLess, nonces);
      cache := None;
    }

    /** Drops what the predicate selects, leaving the heap behind. */
    method FilterItems(drop: Tx -> bool) returns (removed: NonceMap)
      requires WellKeyed(items)
      modifies this`items, this`cache
      ensures removed == Selected(old(items), drop)
      ensures items == old(items) - removed.Keys && WellKeyed(items)
      ensures removed == map[] ==> cache == old(cache) && items == old(items)
    {
      removed := map n | n in items && drop(items[n]) :: items[n];
      items := items - removed.Keys;
      if removed != map[] {
        cache := None;
      }
    }

    method Filter(drop: Tx -> bool) returns (removed: NonceMap)
      requires Valid()
      modifies this
      ensures Valid() && removed == Selected(old(items), drop)
      ensures items == old(items) - removed.Keys
    {
      removed := FilterItems(drop);
      if removed != map[] {
        Reheap();
      }
    }

    method Cap(threshold: nat) returns (drops: seq<Tx>)
      requires Valid()
      modifies this
      ensures Valid() && items == Lowest(old(items), threshold)
      ensures |drops| == |old(items)| - |items|
      ensures Dropped(drops, old(items), items)
    {
      drops := [];
      if |items| <= threshold {
        return;
      }
      IndexMembers(index, items);
      var sorted := Heap.Sort(NonceLess, index);
      SortedIndex(index, items, sorted);
      drops := DropAbove(sorted, threshold);
      index := Heap.Init(NonceLess, sorted[..threshold]);
      if cache.Some? {
        SortedTake(cache.value, old(items), threshold);
        cache := Some(cache.value[..|cache.value| - |drops|]);
      }
    }

    /** Deletes the items whose nonces stand at or beyond `threshold` in `sorted`. */
    method DropAbove(sorted: seq<nat>, threshold: nat) returns (drops: seq<Tx>)
      requires WellKeyed(items) && Increasing(sorted) && multiset(sorted) == multiset(items.Keys)
      requires threshold <= |sorted| == |items|
      modifies this`items
      ensures items == Lowest(old(items), threshold) && |items| == threshold && WellKeyed(items)
      ensures multiset(sorted[..threshold]) == multiset(items.Keys)
      ensures |drops| == |old(items)| - threshold && Dropped(drops, old(items), items)
    {
      drops := [];
      ghost var all := items;
      var size := |items|;
      DroppingStarts(sorted, items);
      while size > threshold
        invariant threshold <= size && Dropping(sorted, size, all, items, drops)
      {
        var next: nat := size - 1;
        DropLast(sorted, size, next, all, items, drops);
        var nonce := sorted[next];
        drops := drops + [items[nonce]];
        items := items - {nonce};
        size := next;
      }
      DroppingEnds(sorted, threshold, all, items, drops);
    }

    method Remove(nonce: nat) returns (found: bool)
      requires Valid()
      modifies this
      ensures Valid() && found == (nonce in old(items))
      ensures items == old(items) - {nonce}
    {
      if nonce !in items {
        return false;
      }
      IndexMembers(index, items);
      var i := 0;
      while i < |index| && index[i] != nonce
        invariant 0 <= i <= |index| && nonce !in index[..i]
      {
        i := i + 1;
      }
      assert i < |index| by { assert nonce in index[..|index|]; }
      index := Heap.Remove(NonceLess, index, i);
      IndexAfterRemoval(old(index), items, nonce, index);
      items, cache := items - {nonce}, None;
      found := true;
    }

    method Ready(start: nat) returns (ready: seq<Tx>)
      requires Valid()
      modifies this
      ensures Valid() && Sorted(ready, ReadyRun(old(items), start))
      ensures items == old(items) - ReadyRun(old(items), start).Keys
    {
      ready := [];
      IndexMembers(index, items);
      if |index| > 0 { IndexFront(index, items); }
      if |index| == 0 || index[0] > start {
        assert items == items - {};
        return;
      }
      ghost var all := items;
      ready := PopRun();
      assert all - Below(all, RunEnd(all, MinKey(all))).Keys == AtLeast(all, RunEnd(all, MinKey(all)));
      cache := None;
    }

    /** Takes consecutive nonces off the front until one is missing. */
    method PopRun() returns (ready: seq<Tx>)
      requires Indexes(index, items) && |index| > 0
      modifies this`items, this`index
      ensures Indexes(index, items) && old(items) != map[]
      ensures var e := RunEnd(old(items), MinKey(old(items)));
        items == AtLeast(old(items), e) && Sorted(ready, Below(old(items), e))
    {
      IndexFront(index, items);
      ready := [];
      ghost var all := items;
      var next := index[0];
      ghost var first := next;
      NothingBelowMin(all, next);
      while |index| > 0 && index[0] == next
        invariant Indexes(index, items) && first <= next
        invariant Spans(all, first, next)
        invariant items == AtLeast(all, next)
        invariant Sorted(ready, Below(all, next))
        decreases |index|
      {
        var above := next + 1;
        ready := PopOnto(ready, all, next, above);
        SpanGrows(all, first, next, above);
        next := above;
      }
      RunStops(all, first, next, items, index);
    }

    /** The sorted contents, cached for the next call. */
    method Flatten() returns (txs: seq<Tx>)
      requires Valid()
      modifies this`cache
      ensures Valid() && Sorted(txs, items) && cache == Some(txs)
    {
      if cache.None? {
        var s := [];
        var rest := items;
        while rest != map[]
          invariant rest.Keys <= items.Keys && forall n :: n in rest ==> rest[n] == items[n]
          invariant |s| + |rest| == |items|
          invariant forall x :: x in s ==> In(items, x) && x.nonce !in rest
          invariant Heap.Distinct(s)
          decreases |rest|
        {
          var n :| n in rest;
          SizeOfRemoval(rest, n);
          assert rest[n] !in s;
          s, rest := s + [rest[n]], rest - {n};
        }
        var t := Heap.Sort(TxNonceLess, s);
        forall x | x in t ensures In(items, x) { assert x in multiset(t); assert x in s; }
        SortedByNonce(t, items);
        cache := Some(t);
      }
      txs := cache.value;
    }

    method LastElement() returns (tx: Tx)
      requires Valid() && items != map[]
      modifies this`cache
      ensures Valid() && tx == items[MaxKey(items)]
    {
      var txs := Flatten();
      SortedCovers(txs, items);
      tx := txs[|txs| - 1];
      assert In(items, tx);
      ghost var i :| 0 <= i < |txs| && txs[i].nonce == MaxKey(items);
    }
  }
}
