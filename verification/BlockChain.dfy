/** The canonical chain of full blocks: the markers by number, the transaction lookup
    index, and the reorganisation from one head to another. */
module BlockChains {
  import opened Transactions
  import opened Chains
  import opened ForkChoices
  import opened HeaderChains
  import opened ForkPoints
  import opened Reinjection

  type Lookup = map<Hash, nat>

  function LookupAt(lookup: Lookup, t: Hash): Option<nat> { if t in lookup then Some(lookup[t]) else None }

  /** The number of the highest block of a chain, above height `n`, that holds `t`. */
  ghost function TxAbove(h: Header, n: int, t: Hash): Option<nat>
    requires n >= -1
  {
    if Number(h) <= n then None
    else if t in h.txs then Some(Number(h))
    else if h.Genesis? then None else TxAbove(h.parent, n, t)
  }

  /** The lookup index holds the transactions of the chain of `h` and no others. */
  ghost predicate Indexed(lookup: Lookup, h: Header) {
    forall k {:trigger ChainKey(k)} :: ChainKey(k) ==> forall t :: LookupAt(lookup, t) == TxAbove(h, -1, t)
  }

  /** No transaction is twice on a chain. */
  ghost predicate NoRepeats(h: Header) {
    h.Child? ==> NoRepeats(h.parent) && forall t :: t in h.txs ==> TxAbove(h.parent, -1, t).None?
  }

  /** What a chain holds is above height `n` or in the ancestor there. */
  lemma {:induction false} TxSplit(h: Header, n: nat, t: Hash)
    requires n <= Number(h)
    ensures TxAbove(h, -1, t) == if TxAbove(h, n, t).Some? then TxAbove(h, n, t) else TxAbove(AncestorAt(h, n), -1, t)
  {
    if n < Number(h) { TxSplit(h.parent, n, t); }
  }

  lemma {:induction false} NoRepeatsAcross(h: Header, n: nat, t: Hash)
    requires n <= Number(h) && NoRepeats(h) && TxAbove(h, n, t).Some?
    ensures TxAbove(AncestorAt(h, n), -1, t).None?
  {
    if t in h.txs {
      TxSplit(h.parent, n, t);
    } else {
      NoRepeatsAcross(h.parent, n, t);
    }
  }

  /** The transactions of a branch. */
  lemma {:induction false} BranchTxs(h: Header, n: nat, t: Hash)
    ensures TxAbove(h, n, t).Some? <==> exists b :: b in Branch(h, n) && t in b.txs
  {
    if Number(h) > n {
      BranchTxs(h.parent, n, t);
      assert Branch(h, n) == [h] + Branch(h.parent, n);
      if t in h.txs { assert h in Branch(h, n); }
    }
  }

  /** Writing the transactions of a block on top of those above height `n`. */
  function Enter(lookup: Lookup, txs: seq<Hash>, number: nat): Lookup {
    map t | t in lookup.Keys + (set t | t in txs) :: if t in txs then number else lookup[t]
  }

  method WriteTxLookupEntries(lookup: Lookup, txs: seq<Hash>, number: nat) returns (r: Lookup)
    ensures r == Enter(lookup, txs, number)
  {
    r := lookup;
    for i := 0 to |txs|
      invariant r == Enter(lookup, txs[..i], number)
    {
      assert txs[..i + 1] == txs[..i] + [txs[i]];
      r := r[txs[i] := number];
    }
    assert txs[..|txs|] == txs;
  }

  /** The markers after the branch of `top` above height `n` was written over them. */
  ghost predicate Overlaid(before: Canon, canon: Canon, top: Header, n: nat) {
    forall k {:trigger ChainKey(k)} :: ChainKey(k) ==>
      forall m: nat :: At(canon, m) == if n < m <= Number(top) then Some(AncestorAt(top, m)) else At(before, m)
  }

  lemma OverlayStep(before: Canon, canon: Canon, top: Header, n: nat, b: Header)
    requires Overlaid(before, canon, top, n) && b.Child? && b.parent == top && n <= Number(top)
    ensures Overlaid(before, canon[Number(b) := b], b, n)
  {
    var after := canon[Number(b) := b];
    forall m: nat ensures At(after, m) == if n < m <= Number(b) then Some(AncestorAt(b, m)) else At(before, m) {
      OverlayAt(before, canon, top, n, b, m);
    }
  }

  lemma OverlayAt(before: Canon, canon: Canon, top: Header, n: nat, b: Header, m: nat)
    requires Overlaid(before, canon, top, n) && b.Child? && b.parent == top && n <= Number(top)
    ensures At(canon[Number(b) := b], m) == if n < m <= Number(b) then Some(AncestorAt(b, m)) else At(before, m)
  {
    assert At(canon, m) == (if n < m <= Number(top) then Some(AncestorAt(top, m)) else At(before, m)) by {
      assert ChainKey(0);
    }
  }

  /** The lookup index of the chain of `base` after the branch of `top` was entered. */
  ghost predicate Entered(lookup: Lookup, base: Header, top: Header, n: nat) {
    forall k {:trigger ChainKey(k)} :: ChainKey(k) ==>
      forall t :: LookupAt(lookup, t) == if TxAbove(top, n, t).Some? then TxAbove(top, n, t) else TxAbove(base, -1, t)
  }

  lemma EnterStep(lookup: Lookup, base: Header, top: Header, n: nat, b: Header)
    requires Entered(lookup, base, top, n) && b.Child? && b.parent == top && n <= Number(top)
    ensures Entered(Enter(lookup, b.txs, Number(b)), base, b, n)
  {
    assert ChainKey(0);
    var after := Enter(lookup, b.txs, Number(b));
    forall t ensures LookupAt(after, t) == if TxAbove(b, n, t).Some? then TxAbove(b, n, t) else TxAbove(base, -1, t) {
      assert LookupAt(lookup, t) == if TxAbove(top, n, t).Some? then TxAbove(top, n, t) else TxAbove(base, -1, t);
    }
  }

  /** Dropping what only the old branch holds leaves the index of the chain of `top`. */
  lemma PrunedIsIndexed(lookup: Lookup, base: Header, top: Header, n: nat, gone: set<Hash>)
    requires Entered(lookup, base, top, n) && n <= Number(base) && n <= Number(top)
    requires AncestorAt(base, n) == AncestorAt(top, n) && NoRepeats(base)
    requires forall t :: t in gone <==> TxAbove(base, n, t).Some? && TxAbove(top, n, t).None?
    ensures Indexed(lookup - gone, top)
  {
    assert ChainKey(0);
    forall t ensures LookupAt(lookup - gone, t) == TxAbove(top, -1, t) {
      TxSplit(top, n, t);
      TxSplit(base, n, t);
      if TxAbove(base, n, t).Some? { NoRepeatsAcross(base, n, t); }
      assert LookupAt(lookup, t) == if TxAbove(top, n, t).Some? then TxAbove(top, n, t) else TxAbove(base, -1, t);
    }
  }

  /** Entering a block whose parent, or which itself, is indexed. */
  lemma IndexedStep(lookup: Lookup, top: Header, b: Header)
    requires Indexed(lookup, top) && (b == top || (b.Child? && b.parent == top))
    ensures Indexed(Enter(lookup, b.txs, Number(b)), b)
  {
    assert ChainKey(0);
    var after := Enter(lookup, b.txs, Number(b));
    forall t ensures LookupAt(after, t) == TxAbove(b, -1, t) {
      assert LookupAt(lookup, t) == TxAbove(top, -1, t);
    }
  }

  /** Everything above `top` cut off. */
  ghost predicate CutAbove(canon: Canon, cut: Canon, height: nat) {
    forall k {:trigger ChainKey(k)} :: ChainKey(k) ==>
      forall m: nat :: At(cut, m) == if m <= height then At(canon, m) else None
  }

  /** The markers of `tip`, up to height `high`: those up to `tip` are its ancestry,
      those above it are left over from an earlier head. */
  ghost predicate Marked(canon: Canon, tip: Header, high: nat) {
    forall k {:trigger ChainKey(k)} :: ChainKey(k) ==>
      && Number(tip) <= high && (forall m: nat :: m in canon <==> m <= high)
      && (forall m: nat :: m <= Number(tip) ==> At(canon, m) == Some(AncestorAt(tip, m)))
  }

  /** Nothing is left over if and only if the markers end at the head. */
  lemma MarkedExactly(canon: Canon, tip: Header, high: nat)
    requires Marked(canon, tip, high)
    ensures Ancestry(canon, tip) <==> high == Number(tip)
  {
    assert ChainKey(0);
    if high == Number(tip) {
      forall m: nat ensures MarkOk(canon, tip, m) { }
      AncestryFromMarks(canon, tip);
    } else if Ancestry(canon, tip) {
      AncestryAt(canon, tip, high);
    }
  }

  function Max(a: nat, b: nat): nat { if a < b then b else a }

  /** Writing a branch over the markers. */
  lemma OverlayMarked(before: Canon, canon: Canon, base: Header, top: Header, n: nat, high: nat)
    requires Marked(before, base, high) && Overlaid(before, canon, top, n)
    requires n <= Number(base) && n <= Number(top) && AncestorAt(base, n) == AncestorAt(top, n)
    ensures Marked(canon, top, Max(high, Number(top)))
  {
    assert ChainKey(0);
    forall m: nat ensures m in canon <==> m <= Max(high, Number(top)) {
      assert At(canon, m) == if n < m <= Number(top) then Some(AncestorAt(top, m)) else At(before, m);
    }
    forall m: nat | m <= Number(top) ensures At(canon, m) == Some(AncestorAt(top, m)) {
      if m <= n { CommonBelow(base, top, n, m); }
    }
  }

  /** Cutting off what is left over. */
  lemma CutMarked(canon: Canon, tip: Header, high: nat, cut: Canon)
    requires Marked(canon, tip, high) && CutAbove(canon, cut, Number(tip))
    ensures Marked(cut, tip, Number(tip))
  {
    assert ChainKey(0);
    forall m: nat ensures m in cut <==> m <= Number(tip) {
      assert At(cut, m) == if m <= Number(tip) then At(canon, m) else None;
    }
  }

  /** The block is a child of the head or of one of its ancestors, or the genesis. */
  predicate Attached(head: Header, b: Header) {
    b.Genesis? || (Number(b.parent) <= Number(head) && AncestorAt(head, Number(b.parent)) == b.parent)
  }

  /** Marking a block on the chain of the head. */
  lemma MarkBlock(canon: Canon, head: Header, high: nat, b: Header)
    requires Marked(canon, head, high) && Attached(head, b)
    ensures Marked(canon[Number(b) := b], b, Max(high, Number(b)))
  {
    var after, top := canon[Number(b) := b], Max(high, Number(b));
    MarkedHeights(canon, head, high, b, after, top);
    forall m: nat | m <= Number(b) ensures At(after, m) == Some(AncestorAt(b, m)) {
      if m < Number(b) { MarkedBelow(canon, head, high, b, m); }
    }
  }

  lemma MarkedHeights(canon: Canon, head: Header, high: nat, b: Header, after: Canon, top: nat)
    requires Marked(canon, head, high) && Attached(head, b) && after == canon[Number(b) := b]
    requires top == Max(high, Number(b))
    ensures forall m: nat :: m in after <==> m <= top
  {
    assert (forall m: nat :: m in canon <==> m <= high) && Number(head) <= high by { assert ChainKey(0); }
    var n := Number(b);
    assert n <= high + 1;
    forall m: nat ensures m in after <==> m <= top { assert m in after <==> m in canon || m == n; }
  }

  lemma MarkedBelow(canon: Canon, head: Header, high: nat, b: Header, m: nat)
    requires Marked(canon, head, high) && Attached(head, b) && m < Number(b)
    ensures At(canon, m) == Some(AncestorAt(b, m))
  {
    assert ChainKey(0);
    AncestorOfAncestor(head, Number(b.parent), m);
  }

  /** Up to where there are markers after the head moved to `b`. */
  function NextHigh(head: Header, high: nat, b: Header): nat {
    if ParentHash(b) == Some(head) then Max(high, Number(b))
    else if Attached(head, b) then Max(Number(head), Number(b))
    else Number(b)
  }

  /** How much of the new chain is not canonical decides what is deleted. */
  lemma ShortBranch(head: Header, b: Header, n: nat)
    requires ForkAt(head, b, n)
    ensures Number(b) <= n + 1 <==> Attached(head, b)
  {
    assert ForkKey(0);
    if b.Child? {
      var p := Number(b.parent);
      assert AncestorAt(b, p) == b.parent;
      if Number(b) <= n + 1 { CommonBelow(head, b, n, p); }
    }
  }

  lemma TopOfBranch(b: Header, top: Header, n: nat)
    requires n <= Number(top) <= Number(b) <= Number(top) + 1 && top == AncestorAt(b, Number(top))
    ensures AncestorAt(top, n) == AncestorAt(b, n) && (b == top || (b.Child? && b.parent == top))
  {
    AncestorOfAncestor(b, Number(top), n);
    if Number(top) < Number(b) { AncestorStep(b, Number(b)); }
  }

  /** All blocks of a closed store come from one genesis, so a walk always meets. */
  lemma {:induction false} ForkExists(store: set<Header>, genesis: Header, a: Header, b: Header, m: nat)
    returns (n: nat)
    requires Closed(store, genesis) && a in store && b in store
    requires m <= Number(a) && m <= Number(b) && Apart(a, b, m)
    ensures ForkAt(a, b, n) && StoredDownTo(store, a, n) && StoredDownTo(store, b, n)
    decreases m
  {
    if AncestorAt(a, m) == AncestorAt(b, m) {
      n := m;
    } else {
      AncestorStored(store, genesis, a, 0);
      AncestorStored(store, genesis, b, 0);
      ApartStep(a, b, m, m - 1);
      n := ForkExists(store, genesis, a, b, m - 1);
    }
    forall k | n <= k < Number(a) ensures AncestorAt(a, k) in store { AncestorStored(store, genesis, a, k); }
    forall k | n <= k < Number(b) ensures AncestorAt(b, k) in store { AncestorStored(store, genesis, b, k); }
  }

  /** The stored blocks, the markers up to height `high`, the lookup index and the head. */
  datatype Snapshot = Snapshot(blocks: set<Header>, canon: Canon, high: nat, lookup: Lookup, current: Header)

  /** The stored blocks are closed under parents. */
  ghost predicate Rooted(blocks: set<Header>, genesis: Header, current: Header) {
    Closed(blocks, genesis) && current in blocks && forall b :: b in blocks ==> NoRepeats(b)
  }

  /** The markers up to the head are its ancestry, and the index holds the transactions
      of its chain and no others. */
  ghost predicate Consistent(s: Snapshot, genesis: Header) {
    Rooted(s.blocks, genesis, s.current) && Marked(s.canon, s.current, s.high) && Indexed(s.lookup, s.current)
  }

  /** A processed block, with what its fork choice depends on, or a stored block that is
      to become the head. */
  datatype Op = Store(block: Header, choice: Choice) | Adopt(block: Header)

  /** The head moves to `b`. */
  ghost predicate MovesTo(s: Snapshot, b: Header, t: Snapshot) {
    t.current == b && t.high == NextHigh(s.current, s.high, b) && t.blocks == s.blocks
  }

  /** The markers are exactly the ancestry of a new head if and only if they did not
      reach above it, in case it is a child of the old head, or it is no lower than the
      old head, in case it is a single block on that chain. Any other switch clears what
      was left over. */
  lemma LeftOverIff(s: Snapshot, b: Header, t: Snapshot)
    requires MovesTo(s, b, t) && Marked(s.canon, s.current, s.high) && Marked(t.canon, b, t.high)
    ensures Ancestry(s.canon, s.current) <==> s.high == Number(s.current)
    ensures Ancestry(t.canon, b) <==>
      if ParentHash(b) == Some(s.current) then s.high <= Number(b)
      else Attached(s.current, b) ==> Number(s.current) <= Number(b)
  {
    MarkedExactly(s.canon, s.current, s.high);
    MarkedExactly(t.canon, b, t.high);
  }

  ghost predicate Wins(s: Snapshot, b: Header, choice: Choice) {
    ReorgNeeded(Some(TotalDifficulty(s.current)), Some(TotalDifficulty(b)), Number(s.current), Number(b), choice)
    == Some(true)
  }

  /** The effect of an operation. */
  ghost predicate StepRel(s: Snapshot, op: Op, t: Snapshot) {
    match op
    case Store(b, choice) =>
      if b.Genesis? || b.parent !in s.blocks then t == s
      else
        var stored := s.(blocks := s.blocks + {b});
        if Wins(s, b, choice) then MovesTo(stored, b, t) else t == stored
    case Adopt(b) => if b in s.blocks then MovesTo(s, b, t) else t == s
  }

  class BlockChain {
    const genesis: Header
    var blocks: set<Header>
    var canon: Canon
    var lookup: Lookup
    var current: Header
    ghost var high: nat              // up to where there are markers

    ghost function Value(): Snapshot
      reads this
    {
      Snapshot(blocks, canon, high, lookup, current)
    }

    ghost predicate Valid()
      reads this
    {
      Consistent(Value(), genesis)
    }

    constructor (genesis: Header)
      requires genesis.Genesis?
      ensures Valid() && this.genesis == genesis
      ensures blocks == {genesis} && canon == map[0 := genesis] && high == 0 && current == genesis
    {
      this.genesis, current, blocks, canon, high := genesis, genesis, {genesis}, map[0 := genesis], 0;
      lookup := map t | t in genesis.txs :: 0;
    }

    method WriteHeadBlock(block: Header)
      modifies `canon, `lookup, `current
      ensures canon == old(canon)[Number(block) := block] && current == block
      ensures lookup == Enter(old(lookup), block.txs, Number(block))
    {
      canon := canon[Number(block) := block];
      lookup := WriteTxLookupEntries(lookup, block.txs, Number(block));
      current := block;
    }

    /** Writes the blocks of the new chain but its head, from the lowest up. */
    method WriteBranch(newBlock: Header, newChain: seq<Header>, ghost n: nat)
      returns (added: seq<Hash>, ghost top: Header)
      requires Indexed(lookup, current)
      requires ForkAt(current, newBlock, n) && newChain == Branch(newBlock, n)
      modifies `canon, `lookup, `current
      ensures n <= Number(top) <= Number(newBlock) && top == AncestorAt(newBlock, Number(top))
      ensures Number(top) == if newChain == [] then Number(newBlock) else Number(newBlock) - 1
      ensures Overlaid(old(canon), canon, top, n) && Entered(lookup, old(current), top, n)
      ensures current == if |newChain| <= 1 then old(current) else top
      ensures |newChain| <= 1 ==> canon == old(canon)
      ensures forall t :: t in added <==> TxAbove(top, n, t).Some?
    {
      ghost var base := current;
      added := [];
      var i: nat := |newChain|;
      top := AncestorAt(newBlock, n);
      assert Entered(lookup, base, top, n) by { assert ChainKey(0); }
      assert Overlaid(canon, canon, top, n);
      while i > 1
        invariant i <= |newChain| && (i == 0 ==> |newChain| == 0)
        invariant Number(top) == Number(newBlock) - i && top == AncestorAt(newBlock, Number(top))
        invariant Overlaid(old(canon), canon, top, n) && Entered(lookup, base, top, n)
        invariant current == if i == |newChain| then base else top
        invariant i == |newChain| ==> canon == old(canon)
        invariant forall t :: t in added <==> TxAbove(top, n, t).Some?
      {
        i := i - 1;
        var block := newChain[i];
        BranchAt(newBlock, n, i);
        AncestorStep(newBlock, Number(newBlock) - i);
        OverlayStep(old(canon), canon, top, n, block);
        EnterStep(lookup, base, top, n, block);
        WriteHeadBlock(block);
        added := added + block.txs;
        top := block;
      }
    }

    /** Deletes the markers above the current block. */
    method DeleteMarkers()
      requires Marked(canon, current, high)
      modifies `canon, `high
      ensures Marked(canon, current, high) && high == Number(current)
    {
      var gone: set<nat> := {};
      var i := Number(current) + 1;
      assert forall m: nat :: m in canon <==> m <= high by { assert ChainKey(0); }
      while i in canon
        invariant Number(current) < i && forall m :: m in gone <==> Number(current) < m < i
        decreases high + 1 - i
      {
        gone := gone + {i};
        i := i + 1;
      }
      CutMarked(canon, current, high, canon - gone);
      canon, high := canon - gone, Number(current);
    }

    /** The two branches above the fork; no block is missing. */
    method Branches(newBlock: Header) returns (oldChain: seq<Header>, newChain: seq<Header>, ok: bool, ghost n: nat)
      requires Closed(blocks, genesis) && current in blocks && newBlock in blocks
      ensures ok && ForkAt(current, newBlock, n) && oldChain == Branch(current, n) && newChain == Branch(newBlock, n)
    {
      var common;
      oldChain, newChain, common := FindFork(blocks, current, newBlock);
      ghost var lower: nat := if Number(current) < Number(newBlock) then Number(current) else Number(newBlock);
      assert Apart(current, newBlock, lower);
      n := ForkExists(blocks, genesis, current, newBlock, lower);
      ok := common.Some?;
      if ok { ForkIsUnique(current, newBlock, n, Number(common.value)); }
    }

    /** Drops the index entries of what only the old branch holds. */
    method PruneIndex(oldChain: seq<Header>, added: seq<Hash>, ghost base: Header, ghost top: Header, ghost n: nat)
      requires Entered(lookup, base, top, n) && n <= Number(base) && n <= Number(top)
      requires AncestorAt(base, n) == AncestorAt(top, n) && NoRepeats(base) && oldChain == Branch(base, n)
      requires forall t :: t in added <==> TxAbove(top, n, t).Some?
      modifies `lookup
      ensures Indexed(lookup, top)
    {
      var gone := TxDifference(TxsOf(oldChain), added);
      forall t ensures t in gone <==> TxAbove(base, n, t).Some? && TxAbove(top, n, t).None? {
        TxsOfMeans(oldChain, t);
        BranchTxs(base, n, t);
      }
      PrunedIsIndexed(lookup, base, top, n, set t | t in gone);
      lookup := lookup - (set t | t in gone);
    }

    /** Switches from the current block to another one, all but marking the new head
        itself, which is left to the caller. It never fails on a missing block, and no
        marker is left over above the current block. */
    method Reorg(newBlock: Header) returns (ok: bool, ghost top: Header)
      requires Valid() && newBlock in blocks
      modifies `canon, `lookup, `current, `high
      ensures ok && Rooted(blocks, genesis, current) && Marked(canon, current, high) && high == Number(current)
      ensures Indexed(lookup, top) && (newBlock == top || (newBlock.Child? && newBlock.parent == top))
      ensures if Attached(old(current), newBlock) then current == old(current)
              else newBlock.Child? && current == top == newBlock.parent
    {
      ghost var base, before := current, canon;
      var oldChain, newChain; ghost var n;
      oldChain, newChain, ok, n := Branches(newBlock);
      if !ok { return; }
      ShortBranch(current, newBlock, n);
      var added;
      added, top := WriteBranch(newBlock, newChain, n);
      TopOfBranch(newBlock, top, n);
      assert top in blocks by { AncestorStored(blocks, genesis, newBlock, Number(top)); }
      PruneIndex(oldChain, added, base, top, n);
      if |newChain| > 1 {
        OverlayMarked(before, canon, base, top, n, high);
        high := Max(high, Number(top));
      }
      DeleteMarkers();
    }

    /** Makes a stored block the head. */
    method WriteKnownBlock(block: Header) returns (ok: bool)
      requires Valid() && block in blocks
      modifies `canon, `lookup, `current, `high
      ensures ok && Valid() && MovesTo(old(Value()), block, Value())
    {
      ghost var top := current;
      if ParentHash(block) != Some(current) {
        ok, top := Reorg(block);
        if !ok { return; }
      }
      ok := true;
      IndexedStep(lookup, top, block);
      MarkBlock(canon, current, high, block);
      high := Max(high, Number(block));
      WriteHeadBlock(block);
    }

    /** Stores a processed block and makes it the head if the fork choice says so. */
    method WriteBlockAndSetHead(block: Header, choice: Choice) returns (status: Option<WriteStatus>)
      requires Valid() && NoRepeats(block)
      modifies `blocks, `canon, `lookup, `current, `high
      ensures Valid() && StepRel(old(Value()), Store(block, choice), Value())
      ensures status.None? <==> block.Genesis? || block.parent !in old(blocks)
      ensures status.Some? ==> status == Some(if Wins(old(Value()), block, choice) then CanonStatTy else SideStatTy)
      ensures status == Some(CanonStatTy) && choice.ttd.None? ==>
        TotalDifficulty(block) >= old(TotalDifficulty(current))
      ensures status == Some(SideStatTy) && choice.ttd.None? ==> TotalDifficulty(block) <= TotalDifficulty(current)
    {
      if block.Genesis? || block.parent !in blocks { return None; }
      StoreChain(blocks, genesis, [block], blocks + {block});
      blocks := blocks + {block};
      var localTd, externTd := Some(TotalDifficulty(current)), Some(TotalDifficulty(block));
      var reorg := ReorgNeeded(localTd, externTd, Number(current), Number(block), choice);
      if !reorg.value { return Some(SideStatTy); }
      var ok := WriteKnownBlock(block);
      status := Some(if ok then CanonStatTy else NonStatTy);
    }

    method Step(op: Op)
      requires Valid() && NoRepeats(op.block)
      modifies `blocks, `canon, `lookup, `current, `high
      ensures Valid() && StepRel(old(Value()), op, Value())
    {
      match op {
        case Store(block, choice) => var _ := WriteBlockAndSetHead(block, choice);
        case Adopt(block) => if block in blocks { var _ := WriteKnownBlock(block); }
      }
    }
  }

  /** Over every run, whatever becomes the head: in every state the markers up to the
      current block are its ancestry, the index holds exactly its transactions, and the
      markers end at the height that the moves of the head give. */
  method Run(genesis: Header, ops: seq<Op>) returns (bc: BlockChain, ghost states: seq<Snapshot>)
    requires genesis.Genesis? && forall i :: 0 <= i < |ops| ==> NoRepeats(ops[i].block)
    ensures fresh(bc) && bc.genesis == genesis && |states| == |ops| + 1 && bc.Value() == states[|ops|]
    ensures states[0].blocks == {genesis} && states[0].current == genesis && states[0].high == 0
    ensures forall k :: 0 <= k < |ops| ==> StepRel(states[k], ops[k], states[k + 1])
    ensures forall k :: 0 <= k < |states| ==> Consistent(states[k], genesis)
  {
    bc := new BlockChain(genesis);
    states := [bc.Value()];
    for i := 0 to |ops|
      invariant fresh(bc) && bc.genesis == genesis && |states| == i + 1 && bc.Value() == states[i]
      invariant states[0].blocks == {genesis} && states[0].current == genesis && states[0].high == 0
      invariant forall k :: 0 <= k < i ==> StepRel(states[k], ops[k], states[k + 1])
      invariant forall k :: 0 <= k < |states| ==> Consistent(states[k], genesis)
    {
      bc.Step(ops[i]);
      states := states + [bc.Value()];
    }
  }

  /** Left-over markers do occur in a run: the fork choice prefers a heavy block next to
      the first of two light ones, and the marker of the second stays above the head. */
  lemma LowerSiblingLeavesMarker(g: Header, s: seq<Snapshot>, a1: Header, a2: Header, b1: Header, choice: Choice)
    requires g == Genesis(1, [], 0) && a1 == Child(g, 1, [], 0) && a2 == Child(a1, 1, [], 0) && b1 == Child(g, 5, [], 1)
    requires choice.ttd.None? && |s| == 4 && s[0].blocks == {g} && s[0].current == g && s[0].high == 0
    requires StepRel(s[0], Store(a1, choice), s[1]) && StepRel(s[1], Store(a2, choice), s[2])
    requires StepRel(s[2], Store(b1, choice), s[3]) && Consistent(s[3], g)
    ensures Wins(s[2], b1, choice) && s[2].high == Number(s[2].current)
    ensures s[3].current == b1 && s[3].high > Number(b1) && !Ancestry(s[3].canon, b1)
  {
    assert TotalDifficulty(g) == 1 && TotalDifficulty(a1) == 2 && TotalDifficulty(a2) == 3 && TotalDifficulty(b1) == 6;
    assert s[1].current == a1 && s[1].high == 1;
    assert s[2].current == a2 && s[2].high == 2;
    assert Attached(a2, b1);
    MarkedExactly(s[3].canon, b1, s[3].high);
  }
}
