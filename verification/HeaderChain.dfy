/** Fork choice by total difficulty. */
module ForkChoices {
  import opened Transactions
  import opened Chains

  /** The sum of the difficulties from the genesis on. */
  function TotalDifficulty(h: Header): nat {
    if h.Genesis? then h.difficulty else TotalDifficulty(h.parent) + h.difficulty
  }

  /** An ancestor is never heavier. */
  lemma {:induction false} AncestorIsLighter(h: Header, n: nat)
    requires n <= Number(h)
    ensures TotalDifficulty(AncestorAt(h, n)) <= TotalDifficulty(h)
  {
    if n < Number(h) { AncestorIsLighter(h.parent, n); }
  }

  /** What the decision depends on besides the difficulties: the terminal difficulty,
      whether the two headers are to be preserved, and a coin. */
  datatype Choice = Choice(ttd: Option<nat>, currentPreserve: bool, externPreserve: bool, coin: bool)

  /** Whether the external header replaces the current one; None if a difficulty is
      missing. Below the terminal difficulty the heavier header wins; of two that are equally
      heavy the lower one, then the one to be preserved, else the coin decides. */
  function ReorgNeeded(localTd: Option<nat>, externTd: Option<nat>, headNumber: nat, number: nat,
                       c: Choice): (r: Option<bool>)
    ensures r.None? <==> localTd.None? || externTd.None?
    ensures r.Some? && c.ttd.Some? && c.ttd.value <= externTd.value ==> r.value
    ensures r.Some? && (c.ttd.None? || externTd.value < c.ttd.value) ==>
      (r.value ==> externTd.value >= localTd.value) && (!r.value ==> externTd.value <= localTd.value)
    ensures r.Some? && (c.ttd.None? || externTd.value < c.ttd.value) && externTd == localTd ==>
      (number < headNumber ==> r.value) && (number > headNumber ==> !r.value)
      && (number == headNumber && c.currentPreserve ==> !r.value)
      && (number == headNumber && !c.currentPreserve && c.externPreserve ==> r.value)
      && (number == headNumber && !c.currentPreserve && !c.externPreserve ==> r.value == c.coin)
  {
    if localTd.None? || externTd.None? then None
    else if c.ttd.Some? && c.ttd.value <= externTd.value then Some(true)
    else if externTd.value > localTd.value then Some(true)
    else if externTd.value == localTd.value then
      if number < headNumber then Some(true)
      else if number == headNumber then Some(!c.currentPreserve && (c.externPreserve || c.coin))
      else Some(false)
    else Some(false)
  }
}

/** The header chain: a store of headers with their total difficulties, and a map from
    numbers to canonical headers. Writes to the map are collected in a batch that reads
    do not see until it is flushed. */
module HeaderChains {
  import opened Transactions
  import opened Chains
  import opened ForkChoices

  type Canon = map<nat, Header>

  /** Queued writes; None deletes. */
  type Batch = map<nat, BlockHash>

  function Flush(canon: Canon, batch: Batch): Canon {
    map n | n in canon.Keys + batch.Keys && (n in batch ==> batch[n].Some?) ::
      if n in batch then batch[n].value else canon[n]
  }

  function At(canon: Canon, n: nat): BlockHash { if n in canon then Some(canon[n]) else None }

  predicate ChainKey(k: nat) { true }

  /** The canonical map is the ancestry of `tip` and nothing else. */
  ghost predicate Ancestry(canon: Canon, tip: Header) {
    forall k {:trigger ChainKey(k)} :: ChainKey(k) ==>
      && (forall n :: n in canon <==> 0 <= n <= Number(tip))
      && (forall n :: n in canon ==> canon[n] == AncestorAt(tip, n))
  }

  lemma AncestryAt(canon: Canon, tip: Header, n: nat)
    requires Ancestry(canon, tip)
    ensures At(canon, n) == if n <= Number(tip) then Some(AncestorAt(tip, n)) else None
  {
    assert ChainKey(0);
  }

  /** Every stored header but the genesis has its parent stored, and all come from the
      genesis. */
  ghost predicate Closed(store: set<Header>, genesis: Header) {
    forall k {:trigger ChainKey(k)} :: ChainKey(k) ==>
      && genesis in store && genesis.Genesis?
      && (forall h :: h in store && h.Genesis? ==> h == genesis)
      && (forall h :: h in store && h.Child? ==> h.parent in store)
  }

  ghost predicate TdOk(store: set<Header>, td: map<Header, nat>) {
    forall k {:trigger ChainKey(k)} :: ChainKey(k) ==>
      td.Keys == store && forall h :: h in td ==> td[h] == TotalDifficulty(h)
  }

  /** All ancestors of a stored header are stored, the first being the genesis. */
  lemma {:induction false} AncestorStored(store: set<Header>, genesis: Header, h: Header, n: nat)
    requires Closed(store, genesis) && h in store && n <= Number(h)
    ensures AncestorAt(h, n) in store && AncestorAt(h, 0) == genesis
  {
    assert ChainKey(0);
    if n < Number(h) { AncestorStored(store, genesis, h.parent, n); }
    else if h.Child? { AncestorStored(store, genesis, h.parent, 0); }
  }

  /** A list of headers, each the parent of the next. */
  predicate Chained(hs: seq<Header>) {
    forall i :: 0 < i < |hs| ==> ParentHash(hs[i]) == Some(hs[i - 1])
  }

  function AsSet(hs: seq<Header>): set<Header> { set h | h in hs }

  lemma {:induction false} ChainedAncestor(hs: seq<Header>, i: nat)
    requires Chained(hs) && i < |hs|
    ensures Number(hs[i]) == Number(hs[0]) + i
    ensures forall j :: 0 <= j <= i ==> AncestorAt(hs[i], Number(hs[0]) + j) == hs[j]
  {
    if i > 0 {
      ChainedAncestor(hs, i - 1);
      assert ParentHash(hs[i]) == Some(hs[i - 1]);
    }
  }

  /** What a batch must hold to make `last` the head: everything above it deleted, its
      own ancestors written down to a canonical one, nothing below. */
  ghost predicate Switches(canon: Canon, batch: Batch, last: Header, cross: nat) {
    forall k {:trigger ChainKey(k)} :: ChainKey(k) ==>
      && cross <= Number(last) && At(canon, cross) == Some(AncestorAt(last, cross))
      && (forall n :: n in canon && n > Number(last) ==> n in batch)
      && (forall n :: n in batch ==> batch[n] == if n <= Number(last) then Some(AncestorAt(last, n)) else None)
      && (forall n :: cross < n <= Number(last) ==> n in batch)
  }

  /** The marker at one height is the one of the ancestry of `tip`. */
  ghost predicate MarkOk(canon: Canon, tip: Header, n: nat) {
    At(canon, n) == if n <= Number(tip) then Some(AncestorAt(tip, n)) else None
  }

  lemma AncestryFromMarks(canon: Canon, tip: Header)
    requires forall n: nat :: MarkOk(canon, tip, n)
    ensures Ancestry(canon, tip)
  {
    forall n: nat ensures n in canon <==> n <= Number(tip) { assert MarkOk(canon, tip, n); }
    forall n | n in canon ensures canon[n] == AncestorAt(tip, n) { assert MarkOk(canon, tip, n); }
  }

  /** The marker a flushed batch gives to a height. */
  lemma FlushedAt(canon: Canon, current: Header, batch: Batch, last: Header, cross: nat, n: nat)
    requires Ancestry(canon, current) && Switches(canon, batch, last, cross)
    ensures MarkOk(Flush(canon, batch), last, n)
  {
    assert ChainKey(0);
    AncestryAt(canon, current, cross);
    if n <= cross {
      AncestorOfAncestor(current, cross, n);
      AncestorOfAncestor(last, cross, n);
    }
  }

  /** Although every read sees the map from before the batch, flushing it leaves exactly
      the ancestry of the new head. */
  lemma FlushIsAncestry(canon: Canon, current: Header, batch: Batch, last: Header, cross: nat)
    requires Ancestry(canon, current) && Switches(canon, batch, last, cross)
    ensures Ancestry(Flush(canon, batch), last)
  {
    forall n: nat ensures MarkOk(Flush(canon, batch), last, n) { FlushedAt(canon, current, batch, last, cross, n); }
    AncestryFromMarks(Flush(canon, batch), last);
  }

  /** Queues the deletion of the markers from `from` on. */
  method DeleteAbove(canon: Canon, ghost current: Header, from: nat) returns (batch: Batch)
    requires Ancestry(canon, current)
    ensures forall n :: n in batch <==> n in canon && n >= from
    ensures forall n :: n in batch ==> batch[n].None?
  {
    assert ChainKey(0);
    batch := map[];
    var i := from;
    while i in canon
      invariant from <= i
      invariant forall n :: n in batch <==> n in canon && from <= n < i
      invariant forall n :: n in batch ==> batch[n].None?
      decreases Number(current) + 1 - i
    {
      batch := batch[i := None];
      i := i + 1;
    }
  }

  /** Queues the ancestry of `first` down to the link with the canonical chain. */
  method WalkBack(canon: Canon, store: set<Header>, ghost current: Header, ghost genesis: Header, first: Header,
                  queued: Batch)
    returns (batch: Batch, ok: bool, ghost cross: nat)
    requires Ancestry(canon, current) && Closed(store, genesis) && first in store && current in store
    ensures ok && cross <= Number(first) && At(canon, cross) == Some(AncestorAt(first, cross))
    ensures forall n :: n in batch <==> n in queued || cross < n <= Number(first)
    ensures forall n :: n in batch ==>
      batch[n] == if cross < n <= Number(first) then Some(AncestorAt(first, n)) else queued[n]
  {
    batch, ok := queued, true;
    var header: Header, n: nat := first, Number(first);
    AncestorStored(store, genesis, first, 0);
    AncestorStored(store, genesis, current, 0);
    AncestryAt(canon, current, 0);
    while At(canon, n) != Some(header)
      invariant n <= Number(first) && header == AncestorAt(first, n) && header in store
      invariant forall m :: m in batch <==> m in queued || n < m <= Number(first)
      invariant forall m :: m in batch ==>
        batch[m] == if n < m <= Number(first) then Some(AncestorAt(first, m)) else queued[m]
      decreases n
    {
      batch := batch[n := Some(header)];
      if n == 0 { break; }
      var parent := ParentHash(header);
      assert header.Child? && header.parent in store by { assert ChainKey(0); }
      assert header.parent == AncestorAt(first, n - 1) by { AncestorOfAncestor(first, n, n - 1); }
      if parent.None? || parent.value !in store { ok := false; break; }
      n, header := n - 1, parent.value;
    }
    cross := n;
  }

  /** What a height gets when the headers are queued after other writes. */
  ghost function QueuedAt(headers: seq<Header>, queued: Batch, n: nat): BlockHash
    requires |headers| > 0
  {
    if Number(headers[0]) <= n < Number(headers[0]) + |headers| then Some(headers[n - Number(headers[0])])
    else if n in queued then queued[n] else None
  }

  /** Queues the headers themselves. */
  method QueueAll(headers: seq<Header>, queued: Batch) returns (batch: Batch)
    requires |headers| > 0 && Chained(headers)
    ensures forall n :: n in batch <==> n in queued || Number(headers[0]) <= n < Number(headers[0]) + |headers|
    ensures forall n :: n in batch ==> batch[n] == QueuedAt(headers, queued, n)
  {
    batch := queued;
    var base := Number(headers[0]);
    for i := 0 to |headers|
      invariant forall n :: n in batch <==> n in queued || base <= n < base + i
      invariant forall n :: n in batch ==>
        batch[n] == if base <= n < base + i then Some(headers[n - base]) else queued[n]
    {
      var hash := if i < |headers| - 1 then ParentHash(headers[i + 1]) else Some(headers[i]);
      ChainedAt(headers, i, base, hash);
      batch := batch[Number(headers[i]) := hash];
    }
  }

  lemma ChainedAt(headers: seq<Header>, i: nat, base: nat, hash: BlockHash)
    requires Chained(headers) && i < |headers| && base == Number(headers[0])
    requires hash == if i < |headers| - 1 then ParentHash(headers[i + 1]) else Some(headers[i])
    ensures Number(headers[i]) == base + i && hash == Some(headers[i])
  {
    ChainedAncestor(headers, i);
  }

  /** The batch that Reorg builds. */
  lemma PlanSwitches(canon: Canon, current: Header, headers: seq<Header>, queued: Batch, batch: Batch, cross: nat)
    requires |headers| > 0 && Chained(headers) && Ancestry(canon, current)
    requires var first, last := headers[0], headers[|headers| - 1];
      && cross <= Number(first) && At(canon, cross) == Some(AncestorAt(first, cross))
      && (forall n :: n in canon && n > Number(last) ==> n in queued)
      && (forall n :: cross < n < Number(first) ==> n in queued)
      && (forall n :: n in queued ==> n <= Number(first) || n > Number(last))
      && (forall n :: n in queued ==> queued[n] == if n <= Number(first) then Some(AncestorAt(first, n)) else None)
      && (forall n :: n in batch <==> n in queued || Number(first) <= n < Number(first) + |headers|)
      && (forall n :: n in batch ==> batch[n] == QueuedAt(headers, queued, n))
    ensures Switches(canon, batch, headers[|headers| - 1], cross)
  {
    var first, last := headers[0], headers[|headers| - 1];
    ChainedAncestor(headers, |headers| - 1);
    forall n: nat | n <= Number(first) ensures AncestorAt(last, n) == AncestorAt(first, n) {
      assert AncestorAt(last, Number(first) + 0) == first;
      AncestorOfAncestor(last, Number(first), n);
    }
    forall n | n in batch ensures batch[n] == if n <= Number(last) then Some(AncestorAt(last, n)) else None {
      if Number(first) <= n <= Number(last) {
        assert AncestorAt(last, Number(first) + (n - Number(first))) == headers[n - Number(first)];
      }
    }
  }

  /** Storing a chain of headers on top of a stored one. */
  lemma StoreChain(store: set<Header>, genesis: Header, headers: seq<Header>, more: set<Header>)
    requires Closed(store, genesis) && Chained(headers) && |headers| > 0
    requires headers[0].Child? && headers[0].parent in store && more == store + AsSet(headers)
    ensures Closed(more, genesis)
  {
    assert ChainKey(0);
    forall h | h in more ensures (h.Genesis? ==> h == genesis) && (h.Child? ==> h.parent in more) {
      if h !in store {
        var i :| 0 <= i < |headers| && headers[i] == h;
        if i > 0 { assert ParentHash(headers[i]) == Some(headers[i - 1]); }
      }
    }
  }

  lemma TdExtends(store: set<Header>, td: map<Header, nat>, more: set<Header>, moreTd: map<Header, nat>)
    requires TdOk(store, td) && moreTd.Keys == more && store !! more
    requires forall h :: h in more ==> moreTd[h] == TotalDifficulty(h)
    ensures TdOk(store + more, td + moreTd) && |store + more| == |store| + |more|
  {
    assert ChainKey(0);
  }

  /** A height without headers has none above it. */
  lemma NoneAbove(store: set<Header>, genesis: Header, top: nat)
    requires Closed(store, genesis) && forall h :: h in store ==> Number(h) != top
    ensures forall h :: h in store ==> Number(h) < top
  {
    forall h | h in store ensures Number(h) < top {
      if Number(h) >= top { AncestorStored(store, genesis, h, top); }
    }
  }

  function Low(store: set<Header>, head: nat): set<Header> { set h | h in store && Number(h) <= head }

  function LowTd(td: map<Header, nat>, head: nat): map<Header, nat> { map h | h in td && Number(h) <= head :: td[h] }

  function LowMarks(canon: Canon, head: nat): Canon { map n | n in canon && n <= head :: canon[n] }

  /** Dropping everything above a height. */
  lemma DropHigh(store: set<Header>, genesis: Header, td: map<Header, nat>, head: nat)
    requires Closed(store, genesis) && TdOk(store, td)
    ensures Closed(Low(store, head), genesis)
    ensures TdOk(Low(store, head), LowTd(td, head))
  {
    assert ChainKey(0);
  }

  lemma DropMarks(canon: Canon, current: Header, head: nat)
    requires Ancestry(canon, current) && head <= Number(current)
    ensures Ancestry(LowMarks(canon, head), AncestorAt(current, head))
  {
    var cut := LowMarks(canon, head);
    forall n: nat ensures MarkOk(cut, AncestorAt(current, head), n) {
      AncestryAt(canon, current, n);
      if n <= head { AncestorOfAncestor(current, head, n); }
    }
    AncestryFromMarks(cut, AncestorAt(current, head));
  }

  lemma LastIsHeaviest(headers: seq<Header>)
    requires |headers| > 0 && Chained(headers)
    ensures forall h :: h in headers ==> TotalDifficulty(h) <= TotalDifficulty(headers[|headers| - 1])
  {
    var last := headers[|headers| - 1];
    ChainedAncestor(headers, |headers| - 1);
    forall i | 0 <= i < |headers| ensures TotalDifficulty(headers[i]) <= TotalDifficulty(last) {
      assert AncestorAt(last, Number(headers[0]) + i) == headers[i];
      AncestorIsLighter(last, Number(headers[0]) + i);
    }
  }

  lemma Smaller(a: set<Header>, b: set<Header>, h: Header)
    requires b <= a && h in a && h !in b
    ensures |b| < |a|
  {
    assert b <= a - {h};
    Fewer(b, a - {h});
  }

  lemma {:induction false} Fewer(b: set<Header>, a: set<Header>)
    requires b <= a
    ensures |b| <= |a|
  {
    if h :| h in b {
      Fewer(b - {h}, a - {h});
    }
  }

  /** The ancestor of `h` at height `m` is canonical. */
  ghost predicate Joins(canon: Canon, h: Header, m: nat)
    requires m <= Number(h)
  {
    At(canon, m) == Some(AncestorAt(h, m))
  }

  /** From a canonical ancestor on, the canonical map gives the ancestors. */
  lemma JumpDown(canon: Canon, current: Header, h: Header, n: nat, m: nat)
    requires Ancestry(canon, current) && m <= n <= Number(h) && Joins(canon, h, n)
    ensures Joins(canon, h, m)
  {
    AncestryAt(canon, current, n);
    AncestryAt(canon, current, m);
    AncestorOfAncestor(current, n, m);
    AncestorOfAncestor(h, n, m);
  }

  lemma StoredParent(store: set<Header>, genesis: Header, h: Header, n: nat, cur: Header)
    requires Closed(store, genesis) && 0 < n <= Number(h) && cur == AncestorAt(h, n) && cur in store
    ensures cur.Child? && cur.parent in store && cur.parent == AncestorAt(h, n - 1)
  {
    assert ChainKey(0);
    AncestorOfAncestor(h, n, n - 1);
  }

  /** The outcome of inserting headers. */
  datatype WriteStatus = NonStatTy | CanonStatTy | SideStatTy

  datatype HeaderState = HeaderState(store: set<Header>, td: map<Header, nat>, canon: Canon, current: Header)

  /** The canonical map is exactly the ancestry of the current header, the store is
      closed under parents, and stored difficulties are right. */
  ghost predicate HeadersOk(s: HeaderState, genesis: Header) {
    Closed(s.store, genesis) && TdOk(s.store, s.td) && Ancestry(s.canon, s.current) && s.current in s.store
  }

  ghost predicate HeaviestIn(s: HeaderState) {
    forall h :: h in s.store ==> TotalDifficulty(h) <= TotalDifficulty(s.current)
  }

  /** What a rewind asks of its caller on the way down: for each new head, whether it
      has to go down further. */
  type Forced = Header -> Option<nat>

  /** Height `end` is the lowest that was asked for on the way down from `tip`. */
  ghost predicate RewindsTo(tip: Header, head: nat, forced: Forced, end: nat) {
    && end <= head && end <= Number(tip)
    && (forall m :: end <= m < Number(tip) && forced(AncestorAt(tip, m)).Some? ==>
          end <= forced(AncestorAt(tip, m)).value)
    && (end == head || exists m :: end <= m < Number(tip) && forced(AncestorAt(tip, m)) == Some(end))
  }

  /** An operation on the header chain. */
  datatype Op = Insert(headers: seq<Header>, choice: Choice) | Rewind(head: nat, forced: Forced)

  /** The fork choice takes the last header, and that is not canonical already. */
  ghost predicate Preferred(s: HeaderState, last: Header, choice: Choice) {
    && ReorgNeeded(Some(TotalDifficulty(s.current)), Some(TotalDifficulty(last)), Number(s.current), Number(last),
                   choice) == Some(true)
    && At(s.canon, Number(last)) != Some(last)
  }

  /** The effect of an operation; with the consistency of the new state it says what the
      canonical map and the difficulties are. */
  ghost predicate HeaderStep(s: HeaderState, op: Op, t: HeaderState) {
    match op
    case Insert(headers, choice) =>
      if |headers| == 0 || headers[0].Genesis? || headers[0].parent !in s.store then t == s
      else
        var last := headers[|headers| - 1];
        && t.store == s.store + AsSet(headers)
        && t.current == if Preferred(s, last, choice) then last else s.current
    case Rewind(head, forced) =>
      if Number(s.current) <= head then t == s
      else
        var end := Number(t.current);
        && RewindsTo(s.current, head, forced, end)
        && t.current == AncestorAt(s.current, end) && t.store == Low(s.store, end)
  }

  /** Storing those of a chain of headers that are not known. */
  lemma NewHeaders(store: set<Header>, td: map<Header, nat>, genesis: Header, headers: seq<Header>,
                   unseen: set<Header>, unseenTd: map<Header, nat>)
    requires Closed(store, genesis) && TdOk(store, td)
    requires Chained(headers) && |headers| > 0 && headers[0].Child? && headers[0].parent in store
    requires unseen == AsSet(headers) - store && unseenTd.Keys == unseen
    requires forall h :: h in unseen ==> unseenTd[h] == TotalDifficulty(h)
    ensures Closed(store + unseen, genesis) && TdOk(store + unseen, td + unseenTd)
    ensures store + unseen == store + AsSet(headers) && |store + unseen| == |store| + |unseen|
  {
    StoreChain(store, genesis, headers, store + AsSet(headers));
    TdExtends(store, td, unseen, unseenTd);
    assert store + unseen == store + AsSet(headers);
  }

  /** Without a terminal difficulty the head never gets lighter, and stays a heaviest
      header. */
  lemma InsertionIsHeaviest(s: HeaderState, headers: seq<Header>, choice: Choice, t: HeaderState, genesis: Header)
    requires HeadersOk(s, genesis) && Chained(headers) && |headers| > 0 && choice.ttd.None?
    requires HeaderStep(s, Insert(headers, choice), t)
    ensures TotalDifficulty(t.current) >= TotalDifficulty(s.current)
    ensures HeaviestIn(s) ==> HeaviestIn(t)
  {
    var last := headers[|headers| - 1];
    LastIsHeaviest(headers);
    AncestryAt(s.canon, s.current, Number(last));
    if At(s.canon, Number(last)) == Some(last) { AncestorIsLighter(s.current, Number(last)); }
  }

  class HeaderChain {
    const genesis: Header
    var store: set<Header>
    var td: map<Header, nat>
    var canon: Canon
    var current: Header

    ghost function Value(): HeaderState
      reads this
    {
      HeaderState(store, td, canon, current)
    }

    ghost predicate Valid()
      reads this
    {
      HeadersOk(Value(), genesis)
    }

    constructor (genesis: Header)
      requires genesis.Genesis?
      ensures Valid() && current == genesis == this.genesis && store == {genesis}
    {
      this.genesis, current := genesis, genesis;
      store, td, canon := {genesis}, map[genesis := genesis.difficulty], map[0 := genesis];
    }

    function GetTd(hash: BlockHash): Option<nat>
      reads this
    {
      if hash.Some? && hash.value in td then Some(td[hash.value]) else None
    }

    /** Stores a contiguous list of headers whose parent is known, and tells how many of
        them are new. */
    method WriteHeaders(headers: seq<Header>) returns (inserted: Option<nat>)
      requires Valid() && Chained(headers)
      modifies `store, `td
      ensures inserted.None? <==> |headers| > 0 && (headers[0].Genesis? || headers[0].parent !in old(store))
      ensures inserted.None? ==> store == old(store) && td == old(td)
      ensures inserted.Some? ==> store == old(store) + AsSet(headers)
      ensures inserted.Some? ==> inserted.value == |store| - |old(store)|
      ensures Valid()
    {
      if |headers| == 0 { return Some(0); }
      var ptd := GetTd(ParentHash(headers[0]));
      KnownTd(ParentHash(headers[0]));
      if ptd.None? { return None; }
      var unseen, unseenTd := LoopOverHeaders(headers, ptd.value);
      NewHeaders(store, td, genesis, headers, unseen, unseenTd);
      store, td := store + unseen, td + unseenTd;
      inserted := Some(|unseen|);
    }

    /** The headers that are not known yet, with their total difficulties. Once one is
        unknown the following ones are not looked up. */
    method LoopOverHeaders(headers: seq<Header>, ptd: nat) returns (unseen: set<Header>, unseenTd: map<Header, nat>)
      requires Closed(store, genesis) && Chained(headers) && |headers| > 0
      requires headers[0].Child? && ptd == TotalDifficulty(headers[0].parent)
      ensures unseen == AsSet(headers) - store && unseenTd.Keys == unseen
      ensures forall h :: h in unseen ==> unseenTd[h] == TotalDifficulty(h)
    {
      var newTd, parentKnown := ptd, true;
      unseen, unseenTd := {}, map[];
      for i := 0 to |headers|
        invariant i > 0 ==> newTd == TotalDifficulty(headers[i - 1])
        invariant i == 0 ==> newTd == ptd && parentKnown
        invariant i > 0 ==> parentKnown == (headers[i - 1] in store)
        invariant unseen == (set h | h in headers[..i]) - store && unseenTd.Keys == unseen
        invariant forall h :: h in unseen ==> unseenTd[h] == TotalDifficulty(h)
      {
        var header := headers[i];
        assert i > 0 ==> ParentHash(header) == Some(headers[i - 1]);
        newTd := newTd + header.difficulty;
        var alreadyKnown := parentKnown && header in store;
        assert alreadyKnown == (header in store) by { assert ChainKey(0); }
        assert headers[..i + 1] == headers[..i] + [header];
        if !alreadyKnown {
          unseen, unseenTd := unseen + {header}, unseenTd[header := newTd];
        }
        parentKnown := alreadyKnown;
      }
      assert headers[..|headers|] == headers;
    }

    /** Makes a chain of stored headers canonical. The walk back never misses a parent. */
    method Reorg(headers: seq<Header>) returns (ok: bool)
      requires Valid() && Chained(headers) && forall h :: h in headers ==> h in store
      modifies `canon, `current
      ensures Valid() && ok
      ensures current == if headers == [] then old(current) else headers[|headers| - 1]
    {
      if |headers| == 0 { return true; }
      var first, last := headers[0], headers[|headers| - 1];
      ChainedAncestor(headers, |headers| - 1);
      var queued: Batch := map[];
      ghost var cross: nat;
      ok := true;
      if ParentHash(first) != Some(current) {
        queued := DeleteAbove(canon, current, Number(last) + 1);
        queued, ok, cross := WalkBack(canon, store, current, genesis, first, queued);
        if !ok { return; }
      } else {
        cross := Number(current);
        AncestryAt(canon, current, cross);
        assert forall n :: n in canon ==> n <= Number(last) by { assert ChainKey(0); }
      }
      var batch := QueueAll(headers, queued);
      PlanSwitches(canon, current, headers, queued, batch, cross);
      FlushIsAncestry(canon, current, batch, last, cross);
      canon, current := Flush(canon, batch), last;
    }

    /** The difficulties of exactly the stored headers are known. */
    lemma KnownTd(hash: BlockHash)
      requires TdOk(store, td)
      ensures GetTd(hash) == if hash.Some? && hash.value in store then Some(TotalDifficulty(hash.value)) else None
    {
      assert ChainKey(0);
    }

    /** Inserts headers and lets the fork choice decide about the head. */
    method WriteHeadersAndSetHead(headers: seq<Header>, choice: Choice) returns (status: Option<WriteStatus>)
      requires Valid() && |headers| > 0 && Chained(headers)
      modifies `store, `td, `canon, `current
      ensures Valid()
      ensures status.None? <==> headers[0].Genesis? || headers[0].parent !in old(store)
      ensures HeaderStep(old(Value()), Insert(headers, choice), Value())
      ensures status.Some? ==>
        (status == Some(CanonStatTy) <==> Preferred(old(Value()), headers[|headers| - 1], choice))
      ensures status == Some(SideStatTy) ==>
        TotalDifficulty(headers[|headers| - 1]) <= TotalDifficulty(current) && store != old(store)
    {
      var inserted := WriteHeaders(headers);
      if inserted.None? { return None; }
      var last := headers[|headers| - 1];
      KnownTd(Some(last));
      KnownTd(Some(current));
      var reorg := ReorgNeeded(GetTd(Some(current)), GetTd(Some(last)), Number(current), Number(last), choice);
      if reorg.None? { return None; }
      if !reorg.value {
        status := Some(if inserted.value != 0 then SideStatTy else NonStatTy);
        return;
      }
      AncestryAt(canon, current, Number(last));
      if At(canon, Number(last)) == Some(last) && Number(last) <= Number(current) { return Some(NonStatTy); }
      var ok := Reorg(headers);
      status := if ok then Some(CanonStatTy) else None;
    }

    /** All the headers at a height, on every fork. */
    function AllHashes(n: nat): set<Header>
      reads this
    {
      set h | h in store && Number(h) == n
    }

    /** The first height above `num` without headers: there are none above it either. */
    method TopOfStore(num: nat) returns (top: nat)
      requires Valid() && num <= Number(current)
      ensures top > num && forall h :: h in store ==> Number(h) < top || Number(h) <= num
    {
      top := num + 1;
      while AllHashes(top) != {}
        invariant top > num
        decreases |set h | h in store && Number(h) >= top|
      {
        var h :| h in AllHashes(top);
        Smaller((set h | h in store && Number(h) >= top), (set h | h in store && Number(h) >= top + 1), h);
        top := top + 1;
      }
      assert forall h :: h in store ==> h !in AllHashes(top);
      NoneAbove(store, genesis, top);
    }

    /** Everything above the current header, which side forks may have. */
    method SweepAbove(num: nat) returns (deleted: set<Header>, unmarked: set<nat>)
      requires Valid() && num == Number(current)
      ensures deleted == set h | h in store && Number(h) > num
      ensures forall m :: m in unmarked ==> m > num
    {
      deleted, unmarked := {}, {};
      var top := TopOfStore(num);
      var n := top;
      while n > num + 1
        invariant num + 1 <= n <= top
        invariant deleted == set h | h in store && Number(h) >= n
        invariant forall m :: m in unmarked ==> m >= n
      {
        n := n - 1;
        deleted, unmarked := deleted + AllHashes(n), unmarked + {n};
      }
    }

    lemma ParentOf(tip: Header, hdr: Header)
      requires Closed(store, genesis) && tip in store && 0 < Number(hdr) <= Number(tip)
      requires hdr == AncestorAt(tip, Number(hdr))
      ensures hdr.Child? && hdr.parent in store && hdr.parent == AncestorAt(tip, Number(hdr.parent))
    {
      AncestorOfAncestor(tip, Number(hdr), Number(hdr) - 1);
      AncestorStored(store, genesis, tip, Number(hdr) - 1);
    }

    /** Moves the current header down and queues what it leaves behind. */
    method StepBack(head: nat, forced: Forced, above: set<Header>) returns (deleted: set<Header>, unmarked: set<nat>)
      requires Valid() && head <= Number(current) && above == set h | h in store && Number(h) > Number(current)
      modifies `current
      ensures RewindsTo(old(current), head, forced, Number(current))
      ensures current == AncestorAt(old(current), Number(current))
      ensures deleted == set h | h in store && Number(h) > Number(current)
      ensures forall m :: m in unmarked <==> Number(current) < m <= old(Number(current))
    {
      ghost var tip, num := current, Number(current);
      deleted, unmarked := above, {};
      var low := head;
      while Number(current) > low
        invariant low <= head && low <= Number(current) <= num && current == AncestorAt(tip, Number(current))
        invariant forall m :: Number(current) <= m < num && forced(AncestorAt(tip, m)).Some? ==>
          low <= forced(AncestorAt(tip, m)).value
        invariant low == head || exists m :: Number(current) <= m < num && forced(AncestorAt(tip, m)) == Some(low)
        invariant store == old(store) && Closed(store, genesis)
        invariant deleted == set h | h in store && Number(h) > Number(current)
        invariant forall m :: m in unmarked <==> Number(current) < m <= num
        decreases Number(current)
      {
        var hdr := current;
        ParentOf(tip, hdr);
        current := if hdr.Child? && hdr.parent in store then hdr.parent else genesis;
        var wanted := forced(current);
        if wanted.Some? && wanted.value < low { low := wanted.value; }
        deleted, unmarked := deleted + AllHashes(Number(hdr)), unmarked + {Number(hdr)};
      }
    }

    /** Rewinds the chain, at least to the given height: every header above the new head
        is deleted on all forks. */
    method SetHead(head: nat, forced: Forced)
      requires Valid()
      modifies `store, `td, `canon, `current
      ensures Valid() && HeaderStep(old(Value()), Rewind(head, forced), Value())
    {
      if Number(current) <= head { return; }
      ghost var tip := current;
      var deleted, high := SweepAbove(Number(current));
      var unmarked;
      deleted, unmarked := StepBack(head, forced, deleted);
      Flushed(deleted, unmarked + high, tip, Number(current));
      store, td, canon := store - deleted, td - deleted, canon - (unmarked + high);
    }

    /** The deletions of a rewind, once they are flushed. */
    lemma Flushed(deleted: set<Header>, unmarked: set<nat>, tip: Header, head: nat)
      requires Closed(store, genesis) && TdOk(store, td) && Ancestry(canon, tip) && tip in store && head <= Number(tip)
      requires deleted == set h | h in store && Number(h) > head
      requires (forall m :: m in unmarked ==> m > head) && forall m :: head < m <= Number(tip) ==> m in unmarked
      ensures store - deleted == Low(store, head) && AncestorAt(tip, head) in store - deleted
      ensures Closed(store - deleted, genesis) && TdOk(store - deleted, td - deleted)
      ensures Ancestry(canon - unmarked, AncestorAt(tip, head))
    {
      DropHigh(store, genesis, td, head);
      DropMarks(canon, tip, head);
      AncestorStored(store, genesis, tip, head);
      assert store - deleted == Low(store, head);
      assert td - deleted == LowTd(td, head) by { assert ChainKey(0); }
      assert canon - unmarked == LowMarks(canon, head) by { assert ChainKey(0); }
    }

    /** The header `ancestor` blocks below the given one, or the zero hash. A canonical
        block is used to jump down the canonical chain; at most `maxNonCanonical` other
        blocks are looked at. The canonical map may change between any two reads. */
    method GetAncestor(h: Header, ancestor: nat, maxNonCanonical: nat, seen: nat -> Reads)
      returns (hash: BlockHash, number: nat, left: nat)
      requires Valid()
      ensures ancestor > Number(h) ==> hash == None && number == 0 && left == maxNonCanonical
      ensures ancestor == 1 <= Number(h) ==> left == maxNonCanonical
      ensures ancestor == 1 <= Number(h) && h in store ==>
        number == Number(h) - 1 && hash == Some(AncestorAt(h, number))
      ensures ancestor == 1 <= Number(h) && h !in store ==> hash == None && number == 0
      ensures ancestor != 1 && ancestor <= Number(h) ==>
        WalkEnds(store, seen, h, Number(h) - ancestor, maxNonCanonical, hash, number, left)
    {
      if ancestor > Number(h) { return None, 0, maxNonCanonical; }
      if ancestor == 1 {
        if h in store {
          StoredParent(store, genesis, h, Number(h), h);
          return ParentHash(h), Number(h) - 1, maxNonCanonical;
        }
        return None, 0, maxNonCanonical;
      }
      hash, number, left := WalkDown(h, Number(h) - ancestor, maxNonCanonical, seen);
    }

    /** Walks from `h` to height `target`, or to a canonical block and then jumps. */
    method WalkDown(h: Header, target: nat, maxNonCanonical: nat, seen: nat -> Reads)
      returns (hash: BlockHash, number: nat, left: nat)
      requires Closed(store, genesis) && target <= Number(h)
      ensures WalkEnds(store, seen, h, target, maxNonCanonical, hash, number, left)
    {
      left := maxNonCanonical;
      var cur: Header, n: nat := h, Number(h);
      while n != target
        invariant target <= n <= Number(h) && cur == AncestorAt(h, n)
        invariant left == maxNonCanonical - (Number(h) - n)
        invariant forall m :: n < m <= Number(h) ==> !SeenTwice(seen(m), h, m)
        invariant if h in store then cur in store else n == Number(h)
      {
        if At(seen(n).first, n) == Some(cur) {
          var ancestorHash := At(seen(n).second, target);
          if At(seen(n).third, n) == Some(cur) {
            JumpEnds(store, seen, h, target, maxNonCanonical, n, left);
            return ancestorHash, target, left;
          }
        }
        if left == 0 { return None, 0, left; }
        left := left - 1;
        if cur !in store { return None, 0, left; }
        StoredParent(store, genesis, h, n, cur);
        cur, n := cur.parent, n - 1;
      }
      hash, number := Some(cur), n;
    }
  }

  /** The canonical map at the three times that a check at some height reads it. */
  datatype Reads = Reads(first: Canon, second: Canon, third: Canon)

  /** The first and the last read find the ancestor of `h` at height `n` canonical. */
  ghost predicate SeenTwice(r: Reads, h: Header, n: nat)
    requires n <= Number(h)
  {
    Joins(r.first, h, n) && Joins(r.third, h, n)
  }

  /** The walk comes as far down as height `n`. */
  predicate InReach(store: set<Header>, h: Header, maxNonCanonical: nat, n: nat) {
    n == Number(h) || (h in store && Number(h) - n <= maxNonCanonical)
  }

  /** The walk from `h` meets the canonical chain at height `n`: that is the highest one at
      which both reads find the ancestor canonical. */
  ghost predicate JumpsAt(store: set<Header>, seen: nat -> Reads, h: Header, target: nat, maxNonCanonical: nat,
                          n: nat) {
    && target < n <= Number(h) && InReach(store, h, maxNonCanonical, n) && SeenTwice(seen(n), h, n)
    && forall m :: n < m <= Number(h) ==> !SeenTwice(seen(m), h, m)
  }

  /** What the walk comes to: where it meets the canonical chain, whatever the read in
      between finds at the target; without that the true ancestor, if it is in reach. */
  ghost predicate WalkEnds(store: set<Header>, seen: nat -> Reads, h: Header, target: nat, maxNonCanonical: nat,
                           hash: BlockHash, number: nat, left: nat)
    requires target <= Number(h)
  {
    && (forall n :: JumpsAt(store, seen, h, target, maxNonCanonical, n) ==>
          hash == At(seen(n).second, target) && number == target && left == maxNonCanonical - (Number(h) - n))
    && ((forall n :: !JumpsAt(store, seen, h, target, maxNonCanonical, n)) ==>
          if InReach(store, h, maxNonCanonical, target)
          then hash == Some(AncestorAt(h, target)) && number == target && left == maxNonCanonical - (Number(h) - target)
          else hash == None && number == 0
               && left == if h in store || maxNonCanonical == 0 then 0 else maxNonCanonical - 1)
  }

  lemma JumpEnds(store: set<Header>, seen: nat -> Reads, h: Header, target: nat, maxNonCanonical: nat, n: nat,
                 left: nat)
    requires JumpsAt(store, seen, h, target, maxNonCanonical, n) && left == maxNonCanonical - (Number(h) - n)
    ensures WalkEnds(store, seen, h, target, maxNonCanonical, At(seen(n).second, target), target, left)
  {
    forall m: nat | JumpsAt(store, seen, h, target, maxNonCanonical, m) ensures m == n {
      assert !(n < m) && !(m < n);
    }
  }

  /** The result is the true ancestor if and only if the read in between finds it canonical,
      or no jump is made and the target is in reach. */
  lemma AncestorIff(store: set<Header>, seen: nat -> Reads, h: Header, target: nat, maxNonCanonical: nat,
                    hash: BlockHash, number: nat, left: nat)
    requires target <= Number(h) && WalkEnds(store, seen, h, target, maxNonCanonical, hash, number, left)
    ensures hash == Some(AncestorAt(h, target)) <==>
      || (exists n :: JumpsAt(store, seen, h, target, maxNonCanonical, n) && Joins(seen(n).second, h, target))
      || (InReach(store, h, maxNonCanonical, target)
          && forall n :: !JumpsAt(store, seen, h, target, maxNonCanonical, n))
  {
    if n :| JumpsAt(store, seen, h, target, maxNonCanonical, n) {
      assert hash == At(seen(n).second, target);
    }
  }

  /** So it is if the map in between is the ancestry of some head and holds the block that
      the other two reads found. */
  lemma SteadyJump(store: set<Header>, seen: nat -> Reads, h: Header, target: nat, maxNonCanonical: nat,
                   hash: BlockHash, number: nat, left: nat, n: nat, tip: Header)
    requires target <= Number(h) && WalkEnds(store, seen, h, target, maxNonCanonical, hash, number, left)
    requires JumpsAt(store, seen, h, target, maxNonCanonical, n)
    requires Ancestry(seen(n).second, tip) && Joins(seen(n).second, h, n)
    ensures hash == Some(AncestorAt(h, target))
  {
    JumpDown(seen(n).second, tip, h, n, target);
  }

  /** The second check cannot see a map that switched away and back: with the block at
      height 3 canonical before and after, the walk ends on another branch. */
  lemma SwitchBackMisleads(store: set<Header>, a3: Header, a1: Header, b1: Header, seen: nat -> Reads,
                           maxNonCanonical: nat, hash: BlockHash, number: nat, left: nat)
    requires a1 == Child(Genesis(1, [], 0), 1, [], 0) && a3 == Child(Child(a1, 1, [], 0), 1, [], 0)
    requires b1 == Child(Genesis(1, [], 0), 1, [], 1)
    requires Ancestry(seen(3).first, a3) && Ancestry(seen(3).second, b1) && Ancestry(seen(3).third, a3)
    requires WalkEnds(store, seen, a3, 1, maxNonCanonical, hash, number, left)
    ensures hash == Some(b1) && AncestorAt(a3, 1) == a1 != b1
  {
    assert Number(a3) == 3 && AncestorAt(a3, 3) == a3 && AncestorAt(a3, 1) == a1 && AncestorAt(b1, 1) == b1;
    AncestryAt(seen(3).first, a3, 3);
    AncestryAt(seen(3).second, b1, 1);
    AncestryAt(seen(3).third, a3, 3);
    assert JumpsAt(store, seen, a3, 1, maxNonCanonical, 3);
  }

  /** Nothing but insertions without a terminal difficulty so far. */
  ghost predicate OnlyInserts(ops: seq<Op>, k: nat)
    requires k <= |ops|
  {
    forall i :: 0 <= i < k ==> ops[i].Insert? && ops[i].choice.ttd.None?
  }

  /** Over every run of insertions and rewinds, in every state: the canonical map is the
      ancestry of the current header and nothing else, the store is closed under parents,
      and the stored difficulties are right. As long as nothing was rewound and no
      terminal difficulty was set, the current header is a heaviest one. */
  method Run(genesis: Header, ops: seq<Op>) returns (hc: HeaderChain, ghost states: seq<HeaderState>)
    requires genesis.Genesis?
    requires forall i :: 0 <= i < |ops| && ops[i].Insert? ==> |ops[i].headers| > 0 && Chained(ops[i].headers)
    ensures fresh(hc) && hc.genesis == genesis && |states| == |ops| + 1 && hc.Value() == states[|ops|]
    ensures states[0].store == {genesis} && states[0].current == genesis
    ensures forall k :: 0 <= k < |ops| ==> HeaderStep(states[k], ops[k], states[k + 1])
    ensures forall k :: 0 <= k < |states| ==>
      HeadersOk(states[k], genesis) && (OnlyInserts(ops, k) ==> HeaviestIn(states[k]))
  {
    hc := new HeaderChain(genesis);
    states := [hc.Value()];
    for i := 0 to |ops|
      invariant fresh(hc) && hc.genesis == genesis && |states| == i + 1 && hc.Value() == states[i]
      invariant states[0].store == {genesis} && states[0].current == genesis
      invariant forall k :: 0 <= k < i ==> HeaderStep(states[k], ops[k], states[k + 1])
      invariant forall k :: 0 <= k < |states| ==>
        HeadersOk(states[k], genesis) && (OnlyInserts(ops, k) ==> HeaviestIn(states[k]))
    {
      assert OnlyInserts(ops, i + 1) ==> OnlyInserts(ops, i);
      match ops[i] {
        case Insert(headers, choice) =>
          var _ := hc.WriteHeadersAndSetHead(headers, choice);
          if choice.ttd.None? { InsertionIsHeaviest(states[i], headers, choice, hc.Value(), genesis); }
        case Rewind(head, forced) => hc.SetHead(head, forced);
      }
      states := states + [hc.Value()];
    }
  }
}
