/** The transactions of one account, either strictly consecutive (pending) or
    with gaps (queue). The caches of the highest cost and gas only ever save work. */
module TxLists {
  import opened Transactions
  import opened NonceMaps
  import opened TxSortedMaps

  /** Whether `tx` outbids `prior` on both price fields by at least `bump` percent. */
  predicate Outbids(tx: Tx, prior: Tx, bump: nat) {
    && prior.gasFeeCap < tx.gasFeeCap && prior.gasTipCap < tx.gasTipCap
    && (100 + bump) * prior.gasFeeCap / 100 <= tx.gasFeeCap
    && (100 + bump) * prior.gasTipCap / 100 <= tx.gasTipCap
  }

  /** That is: both are higher, and by the bump up to a fraction that the division drops. */
  lemma OutbidsIff(tx: Tx, prior: Tx, bump: nat)
    ensures Outbids(tx, prior, bump) <==>
      && tx.gasFeeCap > prior.gasFeeCap && 100 * (tx.gasFeeCap + 1) > (100 + bump) * prior.gasFeeCap
      && tx.gasTipCap > prior.gasTipCap && 100 * (tx.gasTipCap + 1) > (100 + bump) * prior.gasTipCap
  {
    AtLeastTheQuotient((100 + bump) * prior.gasFeeCap, tx.gasFeeCap);
    AtLeastTheQuotient((100 + bump) * prior.gasTipCap, tx.gasTipCap);
  }

  lemma AtLeastTheQuotient(n: nat, q: nat)
    ensures n / 100 <= q <==> n < 100 * (q + 1)
  {
  }

  /** Whether a list accepts `tx`: its nonce is free or it outbids the holder. */
  predicate Accepts(m: NonceMap, tx: Tx, bump: nat) {
    tx.nonce in m ==> Outbids(tx, m[tx.nonce], bump)
  }

  /** What a list keeps after a filter: a strict list is cut at the lowest nonce
      removed, the other kind only loses what was removed. */
  function Kept(m: NonceMap, removed: NonceMap, strict: bool): NonceMap {
    if removed == map[] then m
    else if strict then Below(m, MinKey(removed))
    else m - removed.Keys
  }

  /** What a strict list gives up besides: the rest from the cut on. */
  function Stranded(m: NonceMap, removed: NonceMap, strict: bool): NonceMap {
    if strict && removed != map[] then AtLeast(m, MinKey(removed)) - removed.Keys else map[]
  }

  /** Removed, stranded and kept transactions split the list three ways. */
  lemma FilterPartitions(m: NonceMap, removed: NonceMap, strict: bool)
    requires removed.Keys <= m.Keys && forall n :: n in removed ==> removed[n] == m[n]
    ensures var stranded, kept := Stranded(m, removed, strict), Kept(m, removed, strict);
      && removed.Keys !! stranded.Keys !! kept.Keys
      && m == removed + stranded + kept
  {
    if removed != map[] {
      var cut := MinKey(removed);
      assert forall n :: n in removed ==> n >= cut;
    }
  }

  /** A strict list stays consecutive under a filter. */
  lemma FilterKeepsInterval(m: NonceMap, removed: NonceMap, low: nat, high: nat)
    requires Interval(m, low, high) && removed.Keys <= m.Keys
    ensures Interval(Kept(m, removed, true), low, if removed == map[] then high else MinKey(removed))
  {
  }

  /** Going forward past old nonces keeps a list consecutive. */
  lemma ForwardKeepsInterval(m: NonceMap, low: nat, high: nat, k: nat)
    requires Interval(m, low, high)
    ensures Interval(AtLeast(m, k), if k <= low then low else if k <= high then k else high, high)
  {
  }

  ghost predicate CapsHold(m: NonceMap, costcap: int, gascap: nat) {
    forall n :: n in m ==> Cost(m[n]) <= costcap && m[n].gas <= gascap
  }

  /** The short circuit: while the caps are within the limits the full scan would
      find nothing to remove. */
  lemma ShortCircuitIsSound(m: NonceMap, costcap: int, gascap: nat, costLimit: nat, gasLimit: nat)
    requires CapsHold(m, costcap, gascap) && costcap <= costLimit && gascap <= gasLimit
    ensures UnpayableIn(m, costLimit, gasLimit) == map[]
  {
  }

  /** After the full scan the limits themselves are valid caps. */
  lemma ScanRestoresCaps(m: NonceMap, costLimit: nat, gasLimit: nat, strict: bool)
    ensures CapsHold(Kept(m, UnpayableIn(m, costLimit, gasLimit), strict), costLimit, gasLimit)
  {
    var removed := UnpayableIn(m, costLimit, gasLimit);
    assert forall n :: n in m && n !in removed ==> !Unpayable(m[n], costLimit, gasLimit);
  }

  lemma SelectAbove(m: NonceMap, n: nat, drop: Tx -> bool)
    requires WellKeyed(m) && n in m && forall tx :: drop(tx) <==> tx.nonce > n
    ensures Selected(m - {n}, drop) == AtLeast(m, n + 1)
    ensures m - {n} - AtLeast(m, n + 1).Keys == Below(m, n)
  {
  }

  class TxList {
    const strict: bool
    const txs: TxSortedMap
    var costcap: int
    var gascap: nat

    /** The transactions as a plain nonce map. */
    ghost function Items(): NonceMap
      reads this, txs
    {
      txs.items
    }

    ghost predicate Valid()
      reads this, txs
    {
      txs.Valid() && CapsHold(txs.items, costcap, gascap)
    }

    constructor (strict: bool)
      ensures Valid() && Items() == map[] && this.strict == strict && fresh(txs)
    {
      this.strict := strict;
      this.txs := new TxSortedMap();
      this.costcap, this.gascap := 0, 0;
    }

    method Add(tx: Tx, priceBump: nat) returns (inserted: bool, replaced: Option<Tx>)
      requires Valid()
      modifies this, txs
      ensures Valid() && inserted == Accepts(old(Items()), tx, priceBump)
      ensures Items() == if inserted then old(Items())[tx.nonce := tx] else old(Items())
      ensures replaced == if inserted && tx.nonce in old(Items()) then Some(old(Items())[tx.nonce]) else None
    {
      replaced := None;
      if tx.nonce in txs.items {
        var prior := txs.items[tx.nonce];
        if prior.gasFeeCap >= tx.gasFeeCap || prior.gasTipCap >= tx.gasTipCap {
          return false, None;
        }
        var thresholdFeeCap := (100 + priceBump) * prior.gasFeeCap / 100;
        var thresholdTip := (100 + priceBump) * prior.gasTipCap / 100;
        if tx.gasFeeCap < thresholdFeeCap || tx.gasTipCap < thresholdTip {
          return false, None;
        }
        replaced := Some(prior);
      }
      txs.Put(tx);
      if costcap < Cost(tx) {
        costcap := Cost(tx);
      }
      if gascap < tx.gas {
        gascap := tx.gas;
      }
      inserted := true;
    }

    method Forward(threshold: nat) returns (removed: seq<Tx>)
      requires Valid()
      modifies txs
      ensures Valid() && Items() == AtLeast(old(Items()), threshold)
      ensures Sorted(removed, Below(old(Items()), threshold))
    {
      removed := txs.Forward(threshold);
    }

    method Filter(costLimit: nat, gasLimit: nat) returns (removed: NonceMap, invalids: NonceMap)
      requires Valid()
      modifies this, txs
      ensures Valid() && removed == UnpayableIn(old(Items()), costLimit, gasLimit)
      ensures invalids == Stranded(old(Items()), removed, strict)
      ensures Items() == Kept(old(Items()), removed, strict)
    {
      removed, invalids := map[], map[];
      if costcap <= costLimit && gascap <= gasLimit {
        ShortCircuitIsSound(txs.items, costcap, gascap, costLimit, gasLimit);
        return;
      }
      costcap, gascap := costLimit, gasLimit;
      ScanRestoresCaps(txs.items, costLimit, gasLimit, strict);
      removed := txs.Filter((tx: Tx) => Unpayable(tx, costLimit, gasLimit));
      assert removed == UnpayableIn(old(Items()), costLimit, gasLimit);
      if removed == map[] {
        return;
      }
      if strict {
        invalids := CutAt(removed, old(Items()));
      }
      txs.Reheap();
    }

    /** Drops everything above the lowest removed nonce. */
    method CutAt(removed: NonceMap, ghost m: NonceMap) returns (invalids: NonceMap)
      requires WellKeyed(txs.items) && removed != map[] && removed.Keys <= m.Keys
      requires txs.items == m - removed.Keys
      modifies txs`items, txs`cache
      ensures invalids == Stranded(m, removed, true) && txs.items == Kept(m, removed, true)
      ensures WellKeyed(txs.items)
    {
      var lowest := LowestNonce(removed);
      invalids := txs.FilterItems((tx: Tx) => tx.nonce > lowest);
    }

    /** The lowest nonce among the removed transactions. */
    static method LowestNonce(removed: NonceMap) returns (lowest: nat)
      requires removed != map[]
      ensures lowest == MinKey(removed)
    {
      var n :| n in removed;
      lowest := n;
      var rest := removed.Keys - {n};
      while rest != {}
        invariant rest <= removed.Keys && lowest in removed
        invariant forall k :: k in removed && k !in rest ==> lowest <= k
        decreases rest
      {
        var k :| k in rest;
        if lowest > k {
          lowest := k;
        }
        rest := rest - {k};
      }
    }

    method Cap(threshold: nat) returns (drops: seq<Tx>)
      requires Valid()
      modifies txs
      ensures Valid() && Items() == Lowest(old(Items()), threshold)
      ensures |drops| == |old(Items())| - |Items()| && Dropped(drops, old(Items()), Items())
    {
      LowestIsInitial(txs.items, threshold);
      drops := txs.Cap(threshold);
    }

    method Remove(tx: Tx) returns (found: bool, invalids: NonceMap)
      requires Valid()
      modifies txs
      ensures Valid() && found == (tx.nonce in old(Items()))
      ensures invalids == if found && strict then AtLeast(old(Items()), tx.nonce + 1) else map[]
      ensures Items() == if found && strict then Below(old(Items()), tx.nonce) else old(Items()) - {tx.nonce}
    {
      invalids := map[];
      found := txs.Remove(tx.nonce);
      if found && strict { invalids := FilterAbove(tx.nonce, old(Items())); }
    }

    /** Drops what comes after a nonce that was just removed. */
    method FilterAbove(nonce: nat, ghost before: NonceMap) returns (invalids: NonceMap)
      requires Valid() && WellKeyed(before) && nonce in before && Items() == before - {nonce}
      modifies txs
      ensures Valid() && invalids == AtLeast(before, nonce + 1) && Items() == Below(before, nonce)
    {
      var after := (other: Tx) => other.nonce > nonce;
      SelectAbove(before, nonce, after);
      invalids := txs.Filter(after);
    }

    method Ready(start: nat) returns (ready: seq<Tx>)
      requires Valid()
      modifies txs
      ensures Valid() && Sorted(ready, ReadyRun(old(Items()), start))
      ensures Items() == old(Items()) - ReadyRun(old(Items()), start).Keys
    {
      ready := txs.Ready(start);
    }
  }
}
