/** Which transactions a reset of the transaction pool puts back. */
module Reinjection {
  import opened Transactions
  import opened Chains
  import opened ForkPoints

  /** The transactions of a list of blocks, in order. */
  function TxsOf(blocks: seq<Header>): seq<Hash> {
    if blocks == [] then [] else TxsOf(blocks[..|blocks| - 1]) + blocks[|blocks| - 1].txs
  }

  lemma TxsOfSnoc(blocks: seq<Header>, b: Header)
    ensures TxsOf(blocks + [b]) == TxsOf(blocks) + b.txs
  {
    assert (blocks + [b])[..|blocks|] == blocks;
  }

  /** A transaction is in the list if and only if it is in one of the blocks. */
  lemma {:induction false} TxsOfMeans(blocks: seq<Header>, t: Hash)
    ensures t in TxsOf(blocks) <==> exists b :: b in blocks && t in b.txs
  {
    if blocks != [] {
      var front, last := blocks[..|blocks| - 1], blocks[|blocks| - 1];
      assert blocks == front + [last];
      TxsOfMeans(front, t);
    }
  }

  /** The elements of `a` that are not in `b`, in order. */
  method TxDifference(a: seq<Hash>, b: seq<Hash>) returns (keep: seq<Hash>)
    ensures forall t :: t in keep <==> t in a && t !in b
    ensures keep == Difference(a, b)
  {
    var remove := set t | t in b;
    keep := [];
    for i := 0 to |a|
      invariant keep == Difference(a[..i], b)
      invariant forall t :: t in keep <==> t in a[..i] && t !in b
    {
      assert a[..i + 1][..i] == a[..i];
      assert a[..i + 1] == a[..i] + [a[i]];
      if a[i] !in remove { keep := keep + [a[i]]; }
    }
    assert a[..|a|] == a;
  }

  ghost function Difference(a: seq<Hash>, b: seq<Hash>): seq<Hash> {
    if a == [] then []
    else
      var front := Difference(a[..|a| - 1], b);
      if a[|a| - 1] in b then front else front + [a[|a| - 1]]
  }

  /** What a reset does: it gives up, or goes on and puts transactions back, or panics
      because the new block is missing. */
  datatype Decision = GiveUp | PutBack(txs: seq<Hash>) | Panic

  const MAX_DEPTH := 64

  function Abs(a: int): nat { if a < 0 then -a else a }

  /** The transactions above the fork on the old branch that are not above it on the
      new one. */
  ghost predicate Discards(oldHead: Header, newHead: Header, fork: nat, t: Hash) {
    && (exists b :: b in Branch(oldHead, fork) && t in b.txs)
    && !(exists b :: b in Branch(newHead, fork) && t in b.txs)
  }

  /** Collects the transactions of the blocks above height `n`. */
  method CollectDown(store: set<Header>, h: Header, n: nat) returns (txs: seq<Hash>, reached: BlockHash)
    requires n <= Number(h)
    ensures reached.Some? ==> reached.value == AncestorAt(h, n) && txs == TxsOf(Branch(h, n))
    ensures reached.None? ==> !StoredDownTo(store, h, n)
  {
    var cur := h;
    txs := [];
    while Number(cur) > n
      invariant n <= Number(cur) <= Number(h) && cur == AncestorAt(h, Number(cur))
      invariant txs == TxsOf(Branch(h, Number(cur)))
      decreases Number(cur)
    {
      txs := txs + cur.txs;
      BranchStep(h, Number(cur));
      TxsOfSnoc(Branch(h, Number(cur)), cur);
      AncestorStep(h, Number(cur));
      reached := GetParent(store, cur);
      if reached.None? { return; }
      cur := reached.value;
    }
    reached := Some(cur);
  }

  /** The walk of a reset: both chains to the same height, then both until they meet. */
  method Collect(store: set<Header>, oldHead: Header, newHead: Header)
    returns (discarded: seq<Hash>, included: seq<Hash>, fork: Option<nat>)
    ensures fork.Some? ==> ForkAt(oldHead, newHead, fork.value)
    ensures fork.Some? ==>
      discarded == TxsOf(Branch(oldHead, fork.value)) && included == TxsOf(Branch(newHead, fork.value))
    ensures fork.None? ==>
      forall n :: ForkAt(oldHead, newHead, n) ==> !StoredDownTo(store, oldHead, n) || !StoredDownTo(store, newHead, n)
  {
    var rem, add := oldHead, newHead;
    var lower: nat := if Number(oldHead) < Number(newHead) then Number(oldHead) else Number(newHead);
    included, fork := [], None;
    var reached;
    discarded, reached := CollectDown(store, oldHead, lower);
    if reached.None? { return; }
    rem := reached.value;
    included, reached := CollectDown(store, newHead, lower);
    if reached.None? { return; }
    add := reached.value;
    while rem != add
      invariant Walked(oldHead, rem, discarded) && Walked(newHead, add, included)
      invariant Number(rem) == Number(add) && Apart(oldHead, newHead, Number(rem))
      decreases Number(rem)
    {
      var r, a := GetParent(store, rem), GetParent(store, add);
      if r.None? || a.None? {
        MissingBlock(store, oldHead, newHead, Number(rem));
        return;
      }
      WalkOn(oldHead, rem, discarded, r.value);
      WalkOn(newHead, add, included, a.value);
      ApartStep(oldHead, newHead, Number(rem), Number(r.value));
      discarded, included := discarded + rem.txs, included + add.txs;
      rem, add := r.value, a.value;
    }
    fork := Some(Number(rem));
  }

  /** A walk from `h` has come down to `cur` and collected the transactions above. */
  ghost predicate Walked(h: Header, cur: Header, txs: seq<Hash>) {
    Number(cur) <= Number(h) && cur == AncestorAt(h, Number(cur)) && txs == TxsOf(Branch(h, Number(cur)))
  }

  lemma WalkOn(h: Header, cur: Header, txs: seq<Hash>, parent: Header)
    requires Walked(h, cur, txs) && ParentHash(cur) == Some(parent)
    ensures Walked(h, parent, txs + cur.txs) && Number(parent) + 1 == Number(cur)
  {
    StepDown(h, Number(cur));
  }

  lemma StepDown(h: Header, n: nat)
    requires 0 < n <= Number(h)
    ensures AncestorAt(h, n).Child? && AncestorAt(h, n).parent == AncestorAt(h, n - 1)
    ensures TxsOf(Branch(h, n - 1)) == TxsOf(Branch(h, n)) + AncestorAt(h, n).txs
  {
    BranchStep(h, n);
    TxsOfSnoc(Branch(h, n), AncestorAt(h, n));
    AncestorStep(h, n);
  }

  /** The transactions that only the old branch has above the fork, from its head down. */
  ghost predicate IsLeftBehind(oldHead: Header, newHead: Header, fork: nat, txs: seq<Hash>) {
    && txs == Difference(TxsOf(Branch(oldHead, fork)), TxsOf(Branch(newHead, fork)))
    && forall t :: t in txs <==> Discards(oldHead, newHead, fork, t)
  }

  lemma DifferenceIsLeftBehind(oldHead: Header, newHead: Header, fork: nat, txs: seq<Hash>)
    requires txs == Difference(TxsOf(Branch(oldHead, fork)), TxsOf(Branch(newHead, fork)))
    requires forall t :: t in txs <==> t in TxsOf(Branch(oldHead, fork)) && t !in TxsOf(Branch(newHead, fork))
    ensures IsLeftBehind(oldHead, newHead, fork, txs)
  {
    forall t ensures t in txs <==> Discards(oldHead, newHead, fork, t) {
      TxsOfMeans(Branch(oldHead, fork), t);
      TxsOfMeans(Branch(newHead, fork), t);
    }
  }

  /** Two stored heads: what only the old branch has is put back, or there is no fork all
      the way down to which the blocks are stored. */
  ghost predicate Weighed(store: set<Header>, oldHead: Header, newHead: Header, d: Decision) {
    match d
    case Panic => false
    case GiveUp =>
      forall fork :: ForkAt(oldHead, newHead, fork) ==>
        !StoredDownTo(store, oldHead, fork) || !StoredDownTo(store, newHead, fork)
    case PutBack(txs) =>
      exists fork :: ForkAt(oldHead, newHead, fork) && IsLeftBehind(oldHead, newHead, fork, txs)
  }

  ghost predicate Decided(store: set<Header>, oldHead: BlockHash, newHead: Header, d: Decision) {
    if oldHead.None? || oldHead == ParentHash(newHead) then d == PutBack([])
    else if Abs(Number(oldHead.value) - Number(newHead)) > MAX_DEPTH then d == PutBack([])
    else if oldHead.value !in store then d == if Number(newHead) >= Number(oldHead.value) then GiveUp else PutBack([])
    else if newHead !in store then d == Panic
    else Weighed(store, oldHead.value, newHead, d)
  }

  /** The decision of a reset from `oldHead` (None if there is none) to `newHead`. Heads
      that follow each other put nothing back, nor does a switch of more than 64 blocks
      or one from a head that is gone and was higher. Otherwise exactly what only the old
      branch has above the fork is put back, unless a block is missing: the reset panics
      on a missing new head and gives up on any other. */
  method Decide(store: set<Header>, oldHead: BlockHash, newHead: Header) returns (d: Decision)
    ensures Decided(store, oldHead, newHead, d)
  {
    if oldHead.None? || oldHead == ParentHash(newHead) { return PutBack([]); }
    var prev := oldHead.value;
    if Abs(Number(prev) - Number(newHead)) > MAX_DEPTH { return PutBack([]); }
    if prev !in store {
      return if Number(newHead) >= Number(prev) then GiveUp else PutBack([]);
    }
    if newHead !in store { return Panic; }
    var discarded, included, fork := Collect(store, prev, newHead);
    if fork.None? { return GiveUp; }
    var txs := TxDifference(discarded, included);
    DifferenceIsLeftBehind(prev, newHead, fork.value, txs);
    d := PutBack(txs);
  }

  /** Heads more than 64 blocks apart put nothing back. Closer ones put back exactly what is
      left behind above their fork, if all blocks down to it are stored. */
  lemma PutsBackExactly(store: set<Header>, oldHead: Header, newHead: Header, d: Decision, fork: nat)
    requires Decided(store, Some(oldHead), newHead, d) && ParentHash(newHead) != Some(oldHead)
    ensures Number(oldHead) > Number(newHead) + 64 || Number(newHead) > Number(oldHead) + 64 ==> d == PutBack([])
    ensures Number(oldHead) <= Number(newHead) + 64 && Number(newHead) <= Number(oldHead) + 64 ==>
      (oldHead in store && newHead in store && ForkAt(oldHead, newHead, fork)
       && StoredDownTo(store, oldHead, fork) && StoredDownTo(store, newHead, fork) ==>
         d.PutBack? && IsLeftBehind(oldHead, newHead, fork, d.txs))
  {
    if d.PutBack? && ForkAt(oldHead, newHead, fork) && Weighed(store, oldHead, newHead, d) {
      var other :| ForkAt(oldHead, newHead, other) && IsLeftBehind(oldHead, newHead, other, d.txs);
      ForkIsUnique(oldHead, newHead, fork, other);
    }
  }
}
