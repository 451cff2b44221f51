/** The two price heaps over the pool's remote transactions. Entries of removed
    transactions stay behind until they surface or the heaps are rebuilt. */
module PricedLists {
  import opened Transactions
  import opened TxLookups
  import opened HeapEntries
  import Heap

  const URGENT_RATIO := 4
  const FLOATING_RATIO := 1

  function CompareInt(a: int, b: int): int {
    if a < b then -1 else if a > b then 1 else 0
  }

  /** The tip a transaction pays on top of the base fee; may be negative. */
  function EffectiveTip(tx: Tx, baseFee: nat): int {
    if tx.gasTipCap <= tx.gasFeeCap - baseFee then tx.gasTipCap else tx.gasFeeCap - baseFee
  }

  /** Price order: effective tip if a base fee is set, then fee cap, then tip cap. */
  function Compare(baseFee: Option<nat>, a: Tx, b: Tx): int {
    var byTip :=
      if baseFee.Some? then CompareInt(EffectiveTip(a, baseFee.value), EffectiveTip(b, baseFee.value)) else 0;
    if byTip != 0 then byTip
    else if a.gasFeeCap != b.gasFeeCap then CompareInt(a.gasFeeCap, b.gasFeeCap)
    else CompareInt(a.gasTipCap, b.gasTipCap)
  }

  /** Heap order: cheaper first, at equal price the higher nonce first. */
  predicate Less(baseFee: Option<nat>, a: Tx, b: Tx) {
    var c := Compare(baseFee, a, b);
    c == -1 || (c == 0 && a.nonce > b.nonce)
  }

  function Order(baseFee: Option<nat>): (Tx, Tx) -> bool {
    (a, b) => Less(baseFee, a, b)
  }

  lemma OrderIsWeak(baseFee: Option<nat>)
    ensures Heap.WeakOrder(Order(baseFee))
  {
    forall a, b, c | !Less(baseFee, b, a) && !Less(baseFee, c, b) ensures !Less(baseFee, c, a) {}
    forall a, b | Less(baseFee, a, b) ensures !Less(baseFee, b, a) {}
    var less := Order(baseFee);
    assert forall a, b :: less(a, b) == Less(baseFee, a, b);
  }

  // ----- what the order means

  /** The tip at a base fee: the smaller of the tip cap and what the fee cap leaves. */
  ghost predicate PaysTip(tx: Tx, fee: nat, tip: int) {
    tip <= tx.gasTipCap && tip <= tx.gasFeeCap - fee && (tip == tx.gasTipCap || tip == tx.gasFeeCap - fee)
  }

  /** `a` offers less than `b`: a lower fee cap, or the same and a lower tip cap. */
  predicate OffersLess(a: Tx, b: Tx) {
    a.gasFeeCap < b.gasFeeCap || (a.gasFeeCap == b.gasFeeCap && a.gasTipCap < b.gasTipCap)
  }

  /** `a` pays less than `b` in a block with the base fee: a lower tip, or the same tip and
      it offers less. Without a base fee it is what they offer that counts. */
  ghost predicate PaysLess(baseFee: Option<nat>, a: Tx, b: Tx) {
    if baseFee.None? then OffersLess(a, b)
    else
      exists ta, tb :: PaysTip(a, baseFee.value, ta) && PaysTip(b, baseFee.value, tb)
        && (ta < tb || (ta == tb && OffersLess(a, b)))
  }

  /** `a` goes before `b`: it pays less, or as much and has the higher nonce. */
  ghost predicate Cheaper(baseFee: Option<nat>, a: Tx, b: Tx) {
    PaysLess(baseFee, a, b) || (!PaysLess(baseFee, b, a) && a.nonce > b.nonce)
  }

  /** The comparison is about what the two pay. */
  lemma ComparesPays(baseFee: Option<nat>, a: Tx, b: Tx)
    ensures Compare(baseFee, a, b) < 0 <==> PaysLess(baseFee, a, b)
    ensures Compare(baseFee, a, b) > 0 <==> PaysLess(baseFee, b, a)
  {
    if baseFee.Some? {
      var fee := baseFee.value;
      assert PaysTip(a, fee, EffectiveTip(a, fee)) && PaysTip(b, fee, EffectiveTip(b, fee));
    }
  }

  lemma LessIsCheaper(baseFee: Option<nat>, a: Tx, b: Tx)
    ensures Less(baseFee, a, b) <==> Cheaper(baseFee, a, b)
  {
    ComparesPays(baseFee, a, b);
  }

  /** There are live entries, and none of them is worth less than the transaction: in the
      urgent heap by what it pays at the base fee, in the floating one by what it offers. */
  ghost predicate PricedOut(remotes: Content, u: seq<Tx>, f: seq<Tx>, baseFee: Option<nat>, tx: Tx) {
    && remotes != map[]
    && (forall x :: x in u && x.hash in remotes ==> !PaysLess(baseFee, x, tx))
    && (forall x :: x in f && x.hash in remotes ==> !OffersLess(x, tx))
  }

  /** What was given up, and what is left of the heaps `u0` and `f0` then. Entries only move
      from the urgent to the floating heap, cheapest first at the base fee and no more than
      the ratio asks for; of the floating ones the cheapest by their caps go first. */
  ghost predicate PriceRanked(remotes: Content, fee: Option<nat>, u0: seq<Tx>, f0: seq<Tx>, u: seq<Tx>, f: seq<Tx>,
                              drop: seq<Tx>) {
    forall k {:trigger HeapKey(k)} :: HeapKey(k) ==>
      && (forall x :: x in u ==> x in u0)
      && (forall x :: x in f0 && x.hash in remotes ==> x in f || x in drop)
      && (forall x :: x in f || x in drop ==> x in f0 || (x in u0 && forall y :: y in u ==> !Cheaper(fee, y, x)))
      && (forall x :: (x in f || x in drop) && x !in f0 ==> 4 * |f| <= |u| + 4)
      && CheapestFirst(remotes, f0, drop)
  }

  /** Nothing that was floating and is not given up is cheaper than what is. */
  ghost predicate CheapestFirst(remotes: Content, f0: seq<Tx>, drop: seq<Tx>) {
    forall d, x :: d in drop && x in f0 && x.hash in remotes && x !in drop ==> !Cheaper(None, x, d)
  }

  /** Stale entries were dropped from the heaps. */
  ghost predicate Cleaned(remotes: Content, u: seq<Tx>, f: seq<Tx>, u': seq<Tx>, f': seq<Tx>) {
    && (forall x :: x in u' ==> x in u) && (forall x :: x in f' ==> x in f)
    && (forall x :: x in f && x.hash in remotes ==> x in f')
  }

  lemma RankedAfterCleaning(remotes: Content, fee: Option<nat>, u0: seq<Tx>, f0: seq<Tx>, u1: seq<Tx>, f1: seq<Tx>,
                            u: seq<Tx>,
                            f: seq<Tx>, drop: seq<Tx>)
    requires Cleaned(remotes, u0, f0, u1, f1) && PriceRanked(remotes, fee, u1, f1, u, f, drop)
    requires forall x :: x in drop ==> x.hash in remotes
    ensures PriceRanked(remotes, fee, u0, f0, u, f, drop)
  {
    assert HeapKey(0);
  }

  lemma RankedStarts(remotes: Content, fee: Option<nat>, u: seq<Tx>, f: seq<Tx>)
    ensures PriceRanked(remotes, fee, u, f, u, f, [])
  {
  }

  /** The cheapest urgent entry moves, or is dropped because it is stale. */
  lemma RankedUrgent(remotes: Content, fee: Option<nat>, u0: seq<Tx>, f0: seq<Tx>, u: seq<Tx>, f: seq<Tx>,
                     drop: seq<Tx>,
                     x: Tx, u': seq<Tx>, f': seq<Tx>)
    requires PriceRanked(remotes, fee, u0, f0, u, f, drop) && |u| > 4 * |f| && |u'| + 1 == |u|
    requires (forall y :: y in u <==> y in u' || y == x) && forall y :: y in u' ==> !Cheaper(fee, y, x)
    requires if x.hash in remotes then |f'| == |f| + 1 && forall y :: y in f' <==> y in f || y == x else f' == f
    ensures PriceRanked(remotes, fee, u0, f0, u', f', drop)
  {
    assert HeapKey(0);
  }

  /** The cheapest floating entry is given up, or dropped because it is stale. */
  lemma RankedFloating(remotes: Content, fee: Option<nat>, u0: seq<Tx>, f0: seq<Tx>, u: seq<Tx>, f: seq<Tx>,
                       drop: seq<Tx>,
                       x: Tx, f': seq<Tx>, drop': seq<Tx>)
    requires PriceRanked(remotes, fee, u0, f0, u, f, drop) && |f'| + 1 == |f|
    requires (forall y :: y in f <==> y in f' || y == x) && forall y :: y in f' ==> !Cheaper(None, y, x)
    requires if x.hash in remotes then forall y :: y in drop' <==> y in drop || y == x else drop' == drop
    ensures PriceRanked(remotes, fee, u0, f0, u, f', drop')
  {
    assert HeapKey(0);
  }

  lemma OneMoreDropped(drop: seq<Tx>, x: Tx, more: seq<Tx>)
    requires more == drop + [x]
    ensures |more| > 0 && more[..|more| - 1] == drop && more[|more| - 1] == x
    ensures SlotsOf(more) == SlotsOf(drop) + NumSlots(x)
    ensures forall i :: 0 <= i < |more| ==> more[i] == x || more[i] in drop
  {
    SlotsOfAppend(drop, x);
  }

  /** Guards Gathering, like Key. */
  predicate GatherKey(k: int) { true }

  /** Covering heaps with live roots are empty only if there is nothing to cover. */
  lemma AnyLive(remotes: Content, u: seq<Tx>, f: seq<Tx>)
    requires Covers(remotes, u, f, []) && (u != [] ==> u[0].hash in remotes) && (f != [] ==> f[0].hash in remotes)
    ensures u != [] || f != [] <==> remotes != map[]
  {
    assert HeapKey(0);
    if h :| h in remotes { assert remotes[h] in u || remotes[h] in f; }
  }

  lemma PutBack(m: Content, x: Tx)
    requires Holds(m, x)
    ensures (m - {x.hash})[x.hash := x] == m
  {
  }

  lemma SecondEntry(remotes: Content, u: seq<Tx>, f: seq<Tx>, x: Tx, u': seq<Tx>)
    requires (x in u || x in f) && x.hash in remotes && multiset(u') == multiset(u) + multiset{x}
    ensures multiset(u')[x] + multiset(f)[x] >= 2 && !Unique(remotes, u', f)
  {
    assert x in multiset(u) || x in multiset(f);
    assert x in multiset(u');
    assert HeapKey(0);
  }

  lemma ElementsAfterPop<T(!new)>(h: seq<T>, r: seq<T>, x: T)
    requires multiset(h) == multiset(r) + multiset{x}
    ensures forall y :: y in h <==> y in r || y == x
    ensures |h| == |r| + 1
  {
    forall y ensures y in h <==> y in r || y == x {
      assert y in h <==> y in multiset(h);
      assert y in r <==> y in multiset(r);
    }
    assert |multiset(h)| == |multiset(r)| + 1;
  }

  lemma ValuesGrow(m: Content, rest: set<Hash>, h: Hash)
    requires KeyedByHash(m) && rest <= m.Keys && h in rest
    ensures multiset((m - (rest - {h})).Values) == multiset((m - rest).Values) + multiset{m[h]}
  {
    var small, large := m - rest, m - (rest - {h});
    assert large == small[h := m[h]];
    assert m[h] !in small.Values by {
      forall g | g in small ensures small[g] != m[h] { assert small[g].hash == g; }
    }
    assert large.Values == small.Values + {m[h]} by {
      forall x | x in small.Values ensures x in large.Values {
        var g :| g in small && small[g] == x;
        assert large[g] == x;
      }
      assert large[h] == m[h];
    }
  }

  lemma ValuesCovered(m: Content, u: seq<Tx>, f: seq<Tx>)
    requires multiset(u) + multiset(f) == multiset(m.Values)
    ensures Covers(m, u, f, [])
  {
    forall h | h in m ensures m[h] in u || m[h] in f {
      assert m[h] in m.Values;
      assert m[h] in multiset(m.Values);
    }
  }

  lemma ValuesSize(m: Content)
    requires KeyedByHash(m)
    ensures |m.Values| == |m|
    decreases |m|
  {
    if m != map[] {
      var h :| h in m;
      ValuesGrow(m, {h}, h);
      assert m - {} == m && (m - {h}).Keys == m.Keys - {h};
      assert {h} - {h} == {};
      ValuesSize(m - {h});
      assert |multiset(m.Values)| == |multiset((m - {h}).Values)| + 1;
    }
  }

  class TxPricedList {
    const all: TxLookup
    var stales: int
    var urgent: seq<Tx>
    var floating: seq<Tx>
    var baseFee: Option<nat>

    ghost predicate Valid()
      reads this
    {
      forall k {:trigger HeapKey(k)} :: HeapKey(k) ==>
        Heap.IsHeap(Order(baseFee), urgent) && Heap.IsHeap(Order(None), floating)
    }

    ghost predicate Covering(also: seq<Tx>)
      reads this, all
    {
      Covers(all.remotes, urgent, floating, also)
    }

    constructor (lookup: TxLookup)
      ensures all == lookup && Valid() && urgent == [] && floating == [] && baseFee == None
    {
      all, stales, urgent, floating, baseFee := lookup, 0, [], [], None;
    }

    method PushUrgent(tx: Tx)
      requires Valid()
      modifies this`urgent
      ensures Valid() && |urgent| == |old(urgent)| + 1 && multiset(urgent) == multiset(old(urgent)) + multiset{tx}
      ensures forall x :: x in urgent <==> x in old(urgent) || x == tx
    {
      assert HeapKey(0);
      OrderIsWeak(baseFee);
      urgent := Heap.Push(Order(baseFee), urgent, tx);
      ElementsAfterPop(urgent, old(urgent), tx);
    }

    method PushFloating(tx: Tx)
      requires Valid()
      modifies this`floating
      ensures Valid() && |floating| == |old(floating)| + 1
      ensures multiset(floating) == multiset(old(floating)) + multiset{tx}
      ensures forall x :: x in floating <==> x in old(floating) || x == tx
    {
      assert HeapKey(0);
      OrderIsWeak(None);
      floating := Heap.Push(Order(None), floating, tx);
      ElementsAfterPop(floating, old(floating), tx);
    }

    method PopUrgent() returns (tx: Tx)
      requires Valid() && |urgent| > 0
      modifies this`urgent
      ensures Valid() && |urgent| == |old(urgent)| - 1 && tx == old(urgent)[0]
      ensures multiset(old(urgent)) == multiset(urgent) + multiset{tx}
      ensures forall x :: x in old(urgent) <==> x in urgent || x == tx
      ensures forall x :: x in urgent ==> !Cheaper(baseFee, x, tx)
    {
      assert HeapKey(0);
      OrderIsWeak(baseFee);
      tx, urgent := Heap.Pop(Order(baseFee), urgent);
      ElementsAfterPop(old(urgent), urgent, tx);
      forall x | x in urgent ensures !Cheaper(baseFee, x, tx) {
        assert !Order(baseFee)(x, tx);
        LessIsCheaper(baseFee, x, tx);
      }
    }

    method PopFloating() returns (tx: Tx)
      requires Valid() && |floating| > 0
      modifies this`floating
      ensures Valid() && |floating| == |old(floating)| - 1 && tx == old(floating)[0]
      ensures multiset(old(floating)) == multiset(floating) + multiset{tx}
      ensures forall x :: x in old(floating) <==> x in floating || x == tx
      ensures forall x :: x in floating ==> !Cheaper(None, x, tx)
    {
      assert HeapKey(0);
      OrderIsWeak(None);
      tx, floating := Heap.Pop(Order(None), floating);
      ElementsAfterPop(old(floating), floating, tx);
      forall x | x in floating ensures !Cheaper(None, x, tx) {
        assert !Order(None)(x, tx);
        LessIsCheaper(None, x, tx);
      }
    }

    method Put(tx: Tx, local: bool)
      requires Valid()
      modifies this`urgent
      ensures Valid()
      ensures local ==> urgent == old(urgent)
      ensures !local ==> multiset(urgent) == multiset(old(urgent)) + multiset{tx}
      ensures !local ==> forall x :: x in urgent <==> x in old(urgent) || x == tx
    {
      if !local {
        PushUrgent(tx);
      }
    }

    /** The slots that the live entries stand for. */
    ghost function Live(): nat
      reads this, all
    {
      LiveSlots(all.remotes, urgent, floating)
    }

    /** One step of Discard: an entry is dropped as stale, moved to the floating
        heap, or handed over for eviction. */
    method DiscardStep(drop: seq<Tx>, ghost u0: seq<Tx>, ghost f0: seq<Tx>) returns (r: seq<Tx>, victim: Option<Tx>)
      requires PriceRanked(all.remotes, baseFee, u0, f0, urgent, floating, drop)
      requires Valid() && all.Valid() && Covering(drop) && (|urgent| > 0 || |floating| > 0)
      modifies this`stales, this`urgent, this`floating
      ensures Valid() && Covering(r) && Thinned(old(urgent), old(floating), drop, urgent, floating, r)
      ensures PriceRanked(all.remotes, baseFee, u0, f0, urgent, floating, r)
      ensures SlotsOf(r) + Live() == SlotsOf(drop) + old(Live())
      ensures 2 * |urgent| + |floating| < old(2 * |urgent| + |floating|)
      ensures victim.None? ==> r == drop
      ensures victim.Some? ==> r == drop + [victim.value] && victim.value.hash in all.remotes
      ensures victim.Some? ==>
        |urgent| <= 4 * |floating| + 4 && forall x :: x in floating ==> !Cheaper(None, x, victim.value)
    {
      if |urgent| * FLOATING_RATIO > |floating| * URGENT_RATIO {
        MoveUrgent(drop, u0, f0);
        r, victim := drop, None;
      } else {
        r, victim := TakeFloating(drop, u0, f0);
      }
    }

    /** The cheapest urgent entry moves to the floating heap, unless it is stale. */
    method MoveUrgent(ghost drop: seq<Tx>, ghost u0: seq<Tx>, ghost f0: seq<Tx>)
      requires PriceRanked(all.remotes, baseFee, u0, f0, urgent, floating, drop)
      requires Valid() && all.Valid() && Covering(drop) && |urgent| > 4 * |floating|
      modifies this`stales, this`urgent, this`floating
      ensures Valid() && Covering(drop) && Thinned(old(urgent), old(floating), drop, urgent, floating, drop)
      ensures PriceRanked(all.remotes, baseFee, u0, f0, urgent, floating, drop)
      ensures Live() == old(Live()) && 2 * |urgent| + |floating| < old(2 * |urgent| + |floating|)
    {
      var tx := PopUrgent();
      PoppedUrgent(all.remotes, old(urgent), floating, tx, urgent);
      if tx.hash !in all.remotes {
        stales := stales - 1;
      } else {
        PushFloating(tx);
        PoppedFloating(all.remotes, urgent, floating, tx, old(floating));
      }
      RankedUrgent(all.remotes, baseFee, u0, f0, old(urgent), old(floating), drop, tx, urgent, floating);
      all.Consistent();
      CoversAfter(all.remotes, old(urgent), old(floating), drop, urgent, floating, drop);
    }

    /** The cheapest floating entry is given up, unless it is stale. */
    method TakeFloating(drop: seq<Tx>, ghost u0: seq<Tx>, ghost f0: seq<Tx>) returns (r: seq<Tx>, victim: Option<Tx>)
      requires PriceRanked(all.remotes, baseFee, u0, f0, urgent, floating, drop)
      requires Valid() && all.Valid() && Covering(drop) && |urgent| <= 4 * |floating| && |floating| > 0
      modifies this`stales, this`floating
      ensures Valid() && Covering(r) && Thinned(urgent, old(floating), drop, urgent, floating, r)
      ensures PriceRanked(all.remotes, baseFee, u0, f0, urgent, floating, r)
      ensures SlotsOf(r) + Live() == SlotsOf(drop) + old(Live()) && |floating| < old(|floating|)
      ensures victim.None? ==> r == drop
      ensures victim.Some? ==> r == drop + [victim.value] && victim.value.hash in all.remotes
      ensures |urgent| <= 4 * |floating| + 4
      ensures victim.Some? ==> forall x :: x in floating ==> !Cheaper(None, x, victim.value)
    {
      var tx := PopFloating();
      r, victim := drop, None;
      PoppedFloating(all.remotes, urgent, old(floating), tx, floating);
      if tx.hash !in all.remotes {
        stales := stales - 1;
      } else {
        r, victim := drop + [tx], Some(tx);
        assert multiset(r) == multiset(drop) + multiset{tx};
        SlotsOfAppend(drop, tx);
      }
      RankedFloating(all.remotes, baseFee, u0, f0, urgent, old(floating), drop, tx, floating, r);
      all.Consistent();
      CoversAfter(all.remotes, urgent, old(floating), drop, urgent, floating, r);
    }

    /** The heaps `u0` and `f0` while entries are taken off them. */
    ghost predicate Gathering(drop: seq<Tx>, slots: int, left: int, u0: seq<Tx>, f0: seq<Tx>, live: nat)
      reads this, all
    {
      forall k {:trigger GatherKey(k)} :: GatherKey(k) ==>
        && Valid() && Covering(drop) && Thinned(u0, f0, [], urgent, floating, drop)
        && PriceRanked(all.remotes, baseFee, u0, f0, urgent, floating, drop)
        && left == slots - SlotsOf(drop) && SlotsOf(drop) + Live() == live
        && (forall x :: x in drop ==> x.hash in all.remotes)
        && (drop != [] ==> SlotsOf(drop[..|drop| - 1]) < slots)
        && (left <= 0 && drop != [] ==>
              |urgent| <= 4 * |floating| + 4 && forall x :: x in floating ==> !Cheaper(None, x, drop[|drop| - 1]))
    }

    method GatherOne(drop: seq<Tx>, left: int, ghost slots: int, ghost u0: seq<Tx>, ghost f0: seq<Tx>, ghost live: nat)
      returns (more: seq<Tx>, rest: int)
      requires Gathering(drop, slots, left, u0, f0, live) && all.Valid() && left > 0 && (|urgent| > 0 || |floating| > 0)
      modifies this`stales, this`urgent, this`floating
      ensures Gathering(more, slots, rest, u0, f0, live)
      ensures 2 * |urgent| + |floating| < old(2 * |urgent| + |floating|)
    {
      assert GatherKey(0);
      ghost var u, f := urgent, floating;
      var victim;
      more, victim := DiscardStep(drop, u0, f0);
      rest := left;
      ThinnedTwice(u0, f0, [], u, f, drop, urgent, floating, more);
      if victim.Some? {
        OneMoreDropped(drop, victim.value, more);
        rest := left - NumSlots(victim.value);
      }
    }

    /** Takes entries off the heaps until they make up the requested slots or the
        heaps run dry; returns what is still missing. */
    method Gather(slots: int) returns (drop: seq<Tx>, left: int)
      requires Valid() && all.Valid() && Covering([])
      modifies this`stales, this`urgent, this`floating
      ensures Valid() && Covering(drop) && left == slots - SlotsOf(drop)
      ensures Thinned(old(urgent), old(floating), [], urgent, floating, drop)
      ensures forall i :: 0 <= i < |drop| ==> drop[i].hash in all.remotes
      ensures PriceRanked(all.remotes, baseFee, old(urgent), old(floating), urgent, floating, drop)
      ensures left > 0 ==> urgent == [] && floating == []
      ensures (left > 0 <==> old(Live()) < slots) && (left > 0 ==> SlotsOf(drop) == old(Live()))
      ensures drop != [] ==> SlotsOf(drop[..|drop| - 1]) < slots
      ensures left <= 0 && drop != [] ==>
        |urgent| <= 4 * |floating| + 4 && forall x :: x in floating ==> !Cheaper(None, x, drop[|drop| - 1])
    {
      drop := [];
      left := slots;
      RankedStarts(all.remotes, baseFee, urgent, floating);
      ThinnedSame(urgent, floating, []);
      while left > 0
        invariant Gathering(drop, slots, left, old(urgent), old(floating), old(Live()))
        decreases 2 * |urgent| + |floating|
      {
        if |urgent| * FLOATING_RATIO <= |floating| * URGENT_RATIO && |floating| == 0 {
          break;
        }
        drop, left := GatherOne(drop, left, slots, old(urgent), old(floating), old(Live()));
      }
      assert GatherKey(0);
      NothingLive(all.remotes);
    }

    /** Evicts the cheapest remote transactions that make up the requested slots.
        Without `force` it is all or nothing. */
    method Discard(slots: int, force: bool) returns (drop: seq<Tx>, success: bool)
      requires Valid() && all.Valid() && Covering([])
      modifies this`stales, this`urgent, this`floating
      ensures Valid() && Covering(drop)
      ensures forall i :: 0 <= i < |drop| ==>
        drop[i].hash in all.remotes && (drop[i] in old(urgent) || drop[i] in old(floating))
      ensures success <==> force || old(Live()) >= slots
      ensures !success ==> drop == []
      ensures Thinned(old(urgent), old(floating), [], urgent, floating, drop)
      ensures success ==> PriceRanked(all.remotes, baseFee, old(urgent), old(floating), urgent, floating, drop)
      ensures success ==> SlotsOf(drop) >= slots || (force && SlotsOf(drop) == old(Live()))
      ensures drop != [] ==> SlotsOf(drop[..|drop| - 1]) < slots
      ensures drop != [] && SlotsOf(drop) >= slots ==>
        |urgent| <= 4 * |floating| + 4 && forall x :: x in floating ==> !Cheaper(None, x, drop[|drop| - 1])
    {
      var left;
      drop, left := Gather(slots);
      success := true;
      forall i | 0 <= i < |drop| ensures drop[i] in old(urgent) || drop[i] in old(floating) {
        TakenFrom(old(urgent), old(floating), urgent, floating, drop, i);
      }
      if left > 0 && !force {
        ghost var u, f := urgent, floating;
        Restore(drop);
        ThinnedTwice(old(urgent), old(floating), [], u, f, drop, urgent, floating, []);
        drop, success := [], false;
      }
    }

    /** Puts rejected evictions back onto the urgent heap. */
    method Restore(drop: seq<Tx>)
      requires Valid() && all.Valid() && Covering(drop)
      modifies this`urgent
      ensures Valid() && Covering([]) && Thinned(old(urgent), floating, drop, urgent, floating, [])
    {
      all.Consistent();
      var i := 0;
      assert drop[0..] == drop;
      ThinnedSame(urgent, floating, drop);
      while i < |drop|
        invariant 0 <= i <= |drop| && Valid() && Covering(drop[i..])
        invariant Thinned(old(urgent), floating, drop, urgent, floating, drop[i..])
      {
        ghost var before, next := urgent, i + 1;
        PushUrgent(drop[i]);
        CoversAfter(all.remotes, before, floating, drop[i..], urgent, floating, drop[next..]);
        PutOneBack(before, floating, drop, i, next, urgent);
        ThinnedTwice(old(urgent), floating, drop, before, floating, drop[i..], urgent, floating, drop[next..]);
        i := i + 1;
      }
      assert drop[|drop|..] == [];
    }

    /** Whether a new transaction is cheaper than everything that could be evicted for it,
        once stale entries are off the tops of the heaps. */
    method Underpriced(tx: Tx) returns (r: bool)
      requires Valid() && all.Valid() && Covering([])
      modifies this`stales, this`urgent, this`floating
      ensures Valid() && Covering([]) && Thinned(old(urgent), old(floating), [], urgent, floating, [])
      ensures Live() == old(Live()) && Cleaned(all.remotes, old(urgent), old(floating), urgent, floating)
      ensures r == PricedOut(all.remotes, old(urgent), old(floating), baseFee, tx)
    {
      CleanUrgent();
      if urgent != [] && Compare(baseFee, urgent[0], tx) < 0 {
        ComparesPays(baseFee, urgent[0], tx);
        return false;
      }
      ghost var u := urgent;
      CleanFloating();
      ThinnedTwice(old(urgent), old(floating), [], u, old(floating), [], u, floating, []);
      if floating != [] && Compare(None, floating[0], tx) < 0 {
        ComparesPays(None, floating[0], tx);
        return false;
      }
      r := urgent != [] || floating != [];
      AnyLive(all.remotes, urgent, floating);
      NothingCheaper(tx);
    }

    lemma NothingCheaper(tx: Tx)
      requires Valid() && (urgent != [] ==> Compare(baseFee, urgent[0], tx) >= 0)
      requires floating != [] ==> Compare(None, floating[0], tx) >= 0
      ensures forall x :: x in urgent ==> !PaysLess(baseFee, x, tx)
      ensures forall x :: x in floating ==> !OffersLess(x, tx)
    {
      assert HeapKey(0);
      forall x | x in urgent ensures !PaysLess(baseFee, x, tx) { NotCheaperThanRoot(baseFee, urgent, x, tx); }
      forall x | x in floating ensures !PaysLess(None, x, tx) { NotCheaperThanRoot(None, floating, x, tx); }
    }

    static lemma NotCheaperThanRoot(fee: Option<nat>, h: seq<Tx>, x: Tx, tx: Tx)
      requires Heap.IsHeap(Order(fee), h) && x in h && Compare(fee, h[0], tx) >= 0
      ensures !PaysLess(fee, x, tx)
    {
      ComparesPays(fee, x, tx);
      OrderIsWeak(fee);
      Heap.RootIsLeastOfAll(Order(fee), h);
      assert !Order(fee)(x, h[0]);
    }

    method CleanUrgent()
      requires Valid() && all.Valid() && Covering([])
      modifies this`stales, this`urgent
      ensures Valid() && Covering([]) && (urgent != [] ==> urgent[0].hash in all.remotes)
      ensures Thinned(old(urgent), floating, [], urgent, floating, []) && Live() == old(Live())
      ensures forall x: Tx :: x.hash in all.remotes ==> (x in urgent <==> x in old(urgent))
      ensures forall x :: x in urgent ==> x in old(urgent)
    {
      all.Consistent();
      while urgent != [] && urgent[0].hash !in all.remotes
        invariant Valid() && Covering([]) && Thinned(old(urgent), floating, [], urgent, floating, [])
        invariant Live() == old(Live())
        invariant forall x: Tx :: x.hash in all.remotes ==> (x in urgent <==> x in old(urgent))
        invariant forall x :: x in urgent ==> x in old(urgent)
        decreases |urgent|
      {
        ghost var before := urgent;
        var tx := PopUrgent();
        stales := stales - 1;
        PoppedUrgent(all.remotes, before, floating, tx, urgent);
        assert Thinned(before, floating, [], urgent, floating, []);
        ThinnedTwice(old(urgent), floating, [], before, floating, [], urgent, floating, []);
        CoversAfter(all.remotes, before, floating, [], urgent, floating, []);
      }
    }

    method CleanFloating()
      requires Valid() && all.Valid() && Covering([])
      modifies this`stales, this`floating
      ensures Valid() && Covering([]) && (floating != [] ==> floating[0].hash in all.remotes)
      ensures Thinned(urgent, old(floating), [], urgent, floating, []) && Live() == old(Live())
      ensures forall x: Tx :: x.hash in all.remotes ==> (x in floating <==> x in old(floating))
      ensures forall x :: x in floating ==> x in old(floating)
    {
      all.Consistent();
      while floating != [] && floating[0].hash !in all.remotes
        invariant Valid() && Covering([]) && Thinned(urgent, old(floating), [], urgent, floating, [])
        invariant Live() == old(Live())
        invariant forall x: Tx :: x.hash in all.remotes ==> (x in floating <==> x in old(floating))
        invariant forall x :: x in floating ==> x in old(floating)
        decreases |floating|
      {
        ghost var before := floating;
        var tx := PopFloating();
        stales := stales - 1;
        PoppedFloating(all.remotes, urgent, before, tx, floating);
        assert Thinned(urgent, before, [], urgent, floating, []);
        ThinnedTwice(urgent, old(floating), [], urgent, before, [], urgent, floating, []);
        CoversAfter(all.remotes, urgent, before, [], urgent, floating, []);
      }
    }

    /** The remote transactions in some order. */
    method ListRemotes() returns (list: seq<Tx>)
      requires all.Valid()
      ensures multiset(list) == multiset(all.remotes.Values) && |list| == |all.remotes|
    {
      list := [];
      all.Consistent();
      var rest := all.remotes.Keys;
      assert all.remotes - rest == map[];
      while rest != {}
        invariant rest <= all.remotes.Keys
        invariant multiset(list) == multiset((all.remotes - rest).Values)
        decreases rest
      {
        var h :| h in rest;
        ValuesGrow(all.remotes, rest, h);
        list, rest := list + [all.remotes[h]], rest - {h};
      }
      assert all.remotes - {} == all.remotes;
      ValuesSize(all.remotes);
      assert |multiset(list)| == |multiset(all.remotes.Values)|;
    }

    /** Every remote transaction has exactly one entry, and the floating heap holds the
        cheapest fifth. */
    ghost predicate Rebuilt()
      reads this, all
    {
      && multiset(urgent) + multiset(floating) == multiset(all.remotes.Values)
      && |floating| == |all.remotes| / 5
      && forall f, u :: f in floating && u in urgent ==> !Cheaper(baseFee, u, f)
    }

    /** Rebuilt heaps hold nothing twice. */
    lemma RebuiltIsUnique()
      requires Rebuilt() && all.Valid()
      ensures Unique(all.remotes, urgent, floating)
    {
      all.Consistent();
      var values := all.remotes.Values;
      forall x | (x in urgent || x in floating) && x.hash in all.remotes
        ensures multiset(urgent)[x] + multiset(floating)[x] == 1
      {
        assert x in multiset(urgent) || x in multiset(floating);
        assert (multiset(urgent) + multiset(floating))[x] == multiset(values)[x];
        assert x in values;
      }
    }

    /** Rebuilds the heaps from the current remote transactions. */
    method Reheap()
      requires all.Valid()
      modifies this`stales, this`urgent, this`floating
      ensures Valid() && Covering([]) && stales == 0 && Rebuilt()
      ensures Stocked(all.remotes, old(urgent), old(floating), multiset{}, urgent, floating)
    {
      all.Consistent();
      stales := 0;
      var list := ListRemotes();
      OrderIsWeak(baseFee);
      urgent := Heap.Init(Order(baseFee), list);
      var floatingCount := |urgent| * FLOATING_RATIO / (URGENT_RATIO + FLOATING_RATIO);
      var worst := TakeCheapest(floatingCount);
      OrderIsWeak(None);
      floating := Heap.Init(Order(None), worst);
      forall f, u | f in floating && u in urgent ensures !Cheaper(baseFee, u, f) {
        assert f in multiset(floating);
        assert f in worst;
      }
      ValuesCovered(all.remotes, urgent, floating);
      RebuiltIsStocked(all.remotes, old(urgent), old(floating), urgent, floating);
    }

    /** Pops the given number of entries off the urgent heap. */
    method TakeCheapest(count: nat) returns (worst: seq<Tx>)
      requires Heap.IsHeap(Order(baseFee), urgent) && count <= |urgent|
      modifies this`urgent
      ensures Heap.IsHeap(Order(baseFee), urgent) && |worst| == count
      ensures multiset(urgent) + multiset(worst) == multiset(old(urgent))
      ensures forall f, u :: f in worst && u in urgent ==> !Cheaper(baseFee, u, f)
    {
      OrderIsWeak(baseFee);
      worst := [];
      while |worst| < count
        invariant |worst| <= count && |urgent| == |old(urgent)| - |worst|
        invariant Heap.IsHeap(Order(baseFee), urgent)
        invariant multiset(urgent) + multiset(worst) == multiset(old(urgent))
        invariant forall f, u :: f in worst && u in urgent ==> !Cheaper(baseFee, u, f)
      {
        ghost var before := urgent;
        var tx;
        tx, urgent := Heap.Pop(Order(baseFee), urgent);
        ElementsAfterPop(before, urgent, tx);
        forall u | u in urgent ensures !Cheaper(baseFee, u, tx) {
          assert !Order(baseFee)(u, tx);
          LessIsCheaper(baseFee, u, tx);
        }
        worst := worst + [tx];
      }
    }

    /** Counts dropped transactions and rebuilds once a quarter of the entries is stale. */
    method Removed(count: nat)
      requires Valid() && all.Valid() && Covering([])
      modifies this`stales, this`urgent, this`floating
      ensures Valid() && Covering([]) && stales <= (|urgent| + |floating|) / 4
      ensures if old(stales) + count <= (old(|urgent|) + old(|floating|)) / 4
        then urgent == old(urgent) && floating == old(floating) && stales == old(stales) + count
        else Rebuilt() && stales == 0
      ensures Stocked(all.remotes, old(urgent), old(floating), multiset{}, urgent, floating)
    {
      StockedSame(all.remotes, urgent, floating);
      stales := stales + count;
      if stales <= (|urgent| + |floating|) / 4 {
        return;
      }
      Reheap();
    }

    /** A transaction that leaves the pool and comes back before the heaps are rebuilt has
        two entries. */
    method LeaveAndReturn(x: Tx)
      requires Valid() && all.Valid() && Covering([]) && Holds(all.remotes, x)
      modifies this, all
      ensures Valid() && all.Valid() && Covering([]) && all.remotes == old(all.remotes)
      ensures old(stales) + 1 <= (old(|urgent|) + old(|floating|)) / 4 ==>
        multiset(urgent)[x] + multiset(floating)[x] >= 2 && !Unique(all.remotes, urgent, floating)
    {
      all.Consistent();
      assert x in urgent || x in floating by { assert HeapKey(0); }
      all.Remove(x.hash);
      Removed(1);
      all.Add(x, false);
      Put(x, false);
      PutBack(old(all.remotes), x);
      if old(stales) + 1 <= (old(|urgent|) + old(|floating|)) / 4 {
        SecondEntry(all.remotes, old(urgent), floating, x, urgent);
      }
    }

    method SetBaseFee(fee: nat)
      requires all.Valid()
      modifies this`stales, this`urgent, this`floating, this`baseFee
      ensures Valid() && Covering([]) && baseFee == Some(fee) && stales == 0 && Rebuilt()
      ensures Stocked(all.remotes, old(urgent), old(floating), multiset{}, urgent, floating)
    {
      baseFee := Some(fee);
      Reheap();
    }
  }
}
