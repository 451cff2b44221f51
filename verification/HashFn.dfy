/** The memoising block hash function that contract execution is given. */
module HashFns {
  import opened Transactions
  import opened Chains

  /** Block numbers are 64-bit and wrap around. */
  const WORD: nat := 0x1_0000_0000_0000_0000

  /** A 64-bit subtraction that went at most once below zero. */
  function Wrap(x: int): nat
    requires 0 <= x + WORD
  {
    if x < 0 then x + WORD else x
  }

  /** GetHeader of the chain: by hash and number. */
  function GetHeader(store: set<Header>, hash: BlockHash, number: nat): BlockHash {
    if hash.Some? && hash.value in store && Number(hash.value) == number then hash else None
  }

  /** The entry the cache may hold at a position: the hash of the block so many below
      the parent, and the zero hash below the genesis. */
  ghost function Entry(ref: Header, i: nat): BlockHash {
    if i < Number(ref) then Some(AncestorAt(ref, Number(ref) - 1 - i)) else None
  }

  ghost predicate CacheOk(ref: Header, cache: seq<BlockHash>) {
    |cache| <= Number(ref) + 1 && forall i :: 0 <= i < |cache| ==> cache[i] == Entry(ref, i)
  }

  /** The answer for block `n` is its true hash, unless a header on the way to it is
      missing; there is none for the block itself and what follows it. */
  ghost predicate Answers(ref: Header, store: set<Header>, n: nat, hash: BlockHash) {
    if n >= Number(ref) then hash.None?
    else
      || hash == Some(AncestorAt(ref, n))
      || (hash.None? && exists m :: n < m < Number(ref) && AncestorAt(ref, m) !in store)
  }

  lemma EntryStep(ref: Header, i: nat)
    requires Entry(ref, i).Some?
    ensures ParentHash(Entry(ref, i).value) == Entry(ref, i + 1)
  {
    var n := Number(ref) - 1 - i;
    if n > 0 { AncestorOfAncestor(ref, n, n - 1); }
    else { assert AncestorAt(ref, 0).Genesis?; }
  }

  lemma FirstEntry(ref: Header)
    ensures ParentHash(ref) == Entry(ref, 0)
  {
    if ref.Child? { AncestorOfAncestor(ref, Number(ref), Number(ref) - 1); }
  }

  class HashFn {
    const ref: Header
    var cache: seq<BlockHash>

    ghost predicate Valid()
      reads this
    {
      Number(ref) < WORD && CacheOk(ref, cache)
    }

    constructor (ref: Header)
      requires Number(ref) < WORD
      ensures Valid() && this.ref == ref
    {
      this.ref, cache := ref, [];
    }

    /** One call, against whatever headers the chain has at that time. */
    method Call(store: set<Header>, n: nat) returns (hash: BlockHash)
      requires Valid() && n < WORD
      modifies `cache
      ensures Valid() && Answers(ref, store, n, hash)
      ensures old(cache) <= cache
    {
      if |cache| == 0 {
        FirstEntry(ref);
        cache := cache + [ParentHash(ref)];
      }
      var idx := Wrap(Number(ref) - n - 1);
      if idx < |cache| { return cache[idx]; }
      hash := Walk(store, n);
    }

    /** Extends the cache from its last entry down to block `n`. */
    method Walk(store: set<Header>, n: nat) returns (hash: BlockHash)
      requires Valid() && n < WORD && 0 < |cache| <= Wrap(Number(ref) - n - 1)
      modifies `cache
      ensures Valid() && Answers(ref, store, n, hash)
      ensures old(cache) <= cache
    {
      ghost var idx := Wrap(Number(ref) - n - 1);
      var lastHash, lastNumber := cache[|cache| - 1], Wrap(Number(ref) - |cache|);
      while true
        invariant 0 < |cache| <= idx && old(cache) <= cache
        invariant CacheOk(ref, cache) && lastHash == cache[|cache| - 1]
        invariant lastHash.Some? ==> lastNumber == Number(lastHash.value)
        decreases Number(ref) + 1 - |cache|
      {
        var header := GetHeader(store, lastHash, lastNumber);
        if header.None? {
          assert n < Number(ref) ==> lastHash == Some(AncestorAt(ref, Number(ref) - |cache|));
          return None;
        }
        EntryStep(ref, |cache| - 1);
        lastHash, lastNumber := ParentHash(header.value), Wrap(Number(header.value) - 1);
        cache := cache + [lastHash];
        if n == lastNumber { return lastHash; }
      }
    }
  }

  /** Any number of calls in any order, each against any set of headers: the memo never
      makes a difference to what an answer may be. */
  method Calls(ref: Header, queries: seq<nat>, stores: seq<set<Header>>) returns (answers: seq<BlockHash>)
    requires Number(ref) < WORD && |stores| == |queries| && forall i :: 0 <= i < |queries| ==> queries[i] < WORD
    ensures |answers| == |queries|
    ensures forall i :: 0 <= i < |queries| ==> Answers(ref, stores[i], queries[i], answers[i])
  {
    var f := new HashFn(ref);
    answers := [];
    for i := 0 to |queries|
      invariant f.Valid() && f.ref == ref && fresh(f) && |answers| == i
      invariant forall j :: 0 <= j < i ==> Answers(ref, stores[j], queries[j], answers[j])
    {
      var hash := f.Call(stores[i], queries[i]);
      answers := answers + [hash];
    }
  }
}
