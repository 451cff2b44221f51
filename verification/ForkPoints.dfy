/** The walks that look for the common ancestor of two blocks. */
module ForkPoints {
  import opened Transactions
  import opened Chains

  /** The blocks from `h` down to, and without, height `n`. */
  ghost function Branch(h: Header, n: nat): (b: seq<Header>)
    ensures |b| == if Number(h) <= n then 0 else Number(h) - n
  {
    if Number(h) <= n then [] else [h] + Branch(h.parent, n)
  }

  predicate ForkKey(k: nat) { true }

  /** Two chains do not meet above height `n`. */
  ghost predicate Apart(a: Header, b: Header, n: nat) {
    forall k {:trigger ForkKey(k)} :: ForkKey(k) ==>
      forall m :: n < m <= Number(a) && m <= Number(b) ==> AncestorAt(a, m) != AncestorAt(b, m)
  }

  lemma ApartStep(a: Header, b: Header, n: nat, next: nat)
    requires n <= Number(a) && n <= Number(b) && next + 1 == n && Apart(a, b, n) && AncestorAt(a, n) != AncestorAt(b, n)
    ensures Apart(a, b, next)
  {
    assert forall m :: n < m <= Number(a) && m <= Number(b) ==> AncestorAt(a, m) != AncestorAt(b, m) by {
      assert ForkKey(0);
    }
    forall m | next < m <= Number(a) && m <= Number(b) ensures AncestorAt(a, m) != AncestorAt(b, m) {
      if m > n { } else { assert m == n; }
    }
  }

  /** Two chains agree at height `n` and not above it. */
  ghost predicate ForkAt(a: Header, b: Header, n: nat) {
    n <= Number(a) && n <= Number(b) && AncestorAt(a, n) == AncestorAt(b, n) && Apart(a, b, n)
  }

  /** A fork is the highest common ancestor: below it everything is common. */
  lemma CommonBelow(a: Header, b: Header, n: nat, m: nat)
    requires n <= Number(a) && n <= Number(b) && AncestorAt(a, n) == AncestorAt(b, n) && m <= n
    ensures AncestorAt(a, m) == AncestorAt(b, m)
  {
    AncestorOfAncestor(a, n, m);
    AncestorOfAncestor(b, n, m);
  }

  /** Two chains have at most one fork. */
  lemma ForkIsUnique(a: Header, b: Header, n: nat, m: nat)
    requires ForkAt(a, b, n) && ForkAt(a, b, m)
    ensures n == m
  {
    assert ForkKey(0);
  }

  /** A branch grows at its lower end. */
  lemma {:induction false} BranchStep(h: Header, n: nat)
    requires 0 < n <= Number(h)
    ensures Branch(h, n - 1) == Branch(h, n) + [AncestorAt(h, n)]
  {
    if Number(h) == n {
      assert Branch(h.parent, n - 1) == [];
    } else {
      BranchStep(h.parent, n);
    }
  }

  lemma {:induction false} BranchAt(h: Header, n: nat, i: nat)
    requires i < |Branch(h, n)|
    ensures Branch(h, n)[i] == AncestorAt(h, Number(h) - i)
  {
    if i > 0 { BranchAt(h.parent, n, i - 1); }
  }

  lemma AncestorStep(h: Header, n: nat)
    requires 0 < n <= Number(h)
    ensures AncestorAt(h, n).Child? && AncestorAt(h, n).parent == AncestorAt(h, n - 1)
  {
    AncestorOfAncestor(h, n, n - 1);
  }

  /** The chain database of a walk: a parent may be missing. */
  function GetParent(store: set<Header>, h: Header): BlockHash {
    if h.Child? && h.parent in store then Some(h.parent) else None
  }

  /** The parents of all blocks above height `n` are stored. */
  ghost predicate StoredDownTo(store: set<Header>, h: Header, n: nat) {
    forall m :: n <= m < Number(h) ==> AncestorAt(h, m) in store
  }

  /** Walks down to height `n`. */
  method Reduce(store: set<Header>, h: Header, n: nat) returns (chain: seq<Header>, reached: BlockHash)
    requires n <= Number(h)
    ensures reached.Some? ==> reached.value == AncestorAt(h, n) && chain == Branch(h, n)
    ensures reached.None? ==> !StoredDownTo(store, h, n)
  {
    var cur := h;
    chain := [];
    while Number(cur) != n
      invariant n <= Number(cur) <= Number(h) && cur == AncestorAt(h, Number(cur)) && chain == Branch(h, Number(cur))
      decreases Number(cur)
    {
      chain := chain + [cur];
      BranchStep(h, Number(cur));
      AncestorStep(h, Number(cur));
      var parent := GetParent(store, cur);
      if parent.None? { return chain, None; }
      cur := parent.value;
    }
    reached := Some(cur);
  }

  /** A walk that finds a parent missing at height `k`, where the chains differ, would
      have needed it. */
  lemma MissingBlock(store: set<Header>, oldHead: Header, newHead: Header, k: nat)
    requires k <= Number(oldHead) && k <= Number(newHead) && AncestorAt(oldHead, k) != AncestorAt(newHead, k)
    requires GetParent(store, AncestorAt(oldHead, k)).None? || GetParent(store, AncestorAt(newHead, k)).None?
    ensures forall n :: ForkAt(oldHead, newHead, n) ==>
      !StoredDownTo(store, oldHead, n) || !StoredDownTo(store, newHead, n)
  {
    forall n | ForkAt(oldHead, newHead, n)
      ensures !StoredDownTo(store, oldHead, n) || !StoredDownTo(store, newHead, n)
    {
      if k <= n { CommonBelow(oldHead, newHead, n, k); }
      else {
        AncestorStep(oldHead, k);
        AncestorStep(newHead, k);
        assert AncestorAt(oldHead, k - 1) !in store || AncestorAt(newHead, k - 1) !in store;
      }
    }
  }

  /** The walk of a block reorganisation: the longer chain is reduced to the height of
      the shorter one, then both until they meet. It finds the fork and collects the two
      branches above it, and fails only if a block is missing. */
  method FindFork(store: set<Header>, oldHead: Header, newHead: Header)
    returns (oldChain: seq<Header>, newChain: seq<Header>, common: BlockHash)
    ensures common.Some? ==>
      Number(common.value) <= Number(oldHead) && common.value == AncestorAt(oldHead, Number(common.value))
    ensures common.Some? ==> ForkAt(oldHead, newHead, Number(common.value))
    ensures common.Some? ==>
      oldChain == Branch(oldHead, Number(common.value)) && newChain == Branch(newHead, Number(common.value))
    ensures common.None? ==>
      forall n :: ForkAt(oldHead, newHead, n) ==> !StoredDownTo(store, oldHead, n) || !StoredDownTo(store, newHead, n)
  {
    var o, n := oldHead, newHead;
    oldChain, newChain := [], [];
    if Number(o) > Number(n) {
      oldChain, common := Reduce(store, o, Number(n));
      if common.None? { return; }
      o := common.value;
    } else {
      newChain, common := Reduce(store, n, Number(o));
      if common.None? { return; }
      n := common.value;
    }
    while o != n
      invariant Number(o) == Number(n) <= Number(oldHead) && Number(n) <= Number(newHead)
      invariant o == AncestorAt(oldHead, Number(o)) && n == AncestorAt(newHead, Number(n))
      invariant oldChain == Branch(oldHead, Number(o)) && newChain == Branch(newHead, Number(n))
      invariant Apart(oldHead, newHead, Number(o))
      decreases Number(o)
    {
      oldChain, newChain := oldChain + [o], newChain + [n];
      var po, pn := GetParent(store, o), GetParent(store, n);
      if po.None? || pn.None? {
        MissingBlock(store, oldHead, newHead, Number(o));
        return oldChain, newChain, None;
      }
      BranchStep(oldHead, Number(o));
      BranchStep(newHead, Number(n));
      AncestorStep(oldHead, Number(o));
      AncestorStep(newHead, Number(n));
      ApartStep(oldHead, newHead, Number(o), Number(po.value));
      o, n := po.value, pn.value;
    }
    common := Some(o);
  }
}
