/** Blocks as a tree. A header contains its parent, so that it is determined by its
    hash and the hash can be identified with the header itself; the zero hash, which is
    the parent of a genesis header and what a failed lookup gives, is None. */
module Chains {
  import opened Transactions

  datatype Header =
    | Genesis(difficulty: nat, txs: seq<Hash>, salt: nat)
    | Child(parent: Header, difficulty: nat, txs: seq<Hash>, salt: nat)

  type BlockHash = Option<Header>

  function ParentHash(h: Header): BlockHash {
    if h.Genesis? then None else Some(h.parent)
  }

  function Number(h: Header): nat {
    if h.Genesis? then 0 else Number(h.parent) + 1
  }

  /** The ancestor of `h` with number `n`. */
  function AncestorAt(h: Header, n: nat): (a: Header)
    requires n <= Number(h)
    ensures Number(a) == n
  {
    if n == Number(h) then h else AncestorAt(h.parent, n)
  }

  lemma {:induction false} AncestorOfAncestor(h: Header, m: nat, n: nat)
    requires n <= m <= Number(h)
    ensures AncestorAt(AncestorAt(h, m), n) == AncestorAt(h, n)
  {
    if m < Number(h) { AncestorOfAncestor(h.parent, m, n); }
  }

  /** Going `k` times from a hash to the parent hash leads from `b` to `a`. */
  ghost predicate Descends(b: BlockHash, a: BlockHash, k: nat)
    decreases k
  {
    if k == 0 then b == a else b.Some? && Descends(ParentHash(b.value), a, k - 1)
  }

  /** What `k` steps down from a header are. */
  lemma {:induction false} DescendsIsAncestor(b: Header, a: Header, k: nat)
    requires Descends(Some(b), Some(a), k)
    ensures Number(b) == Number(a) + k && AncestorAt(b, Number(a)) == a
  {
    if k > 0 {
      assert b.Child?;
      DescendsIsAncestor(b.parent, a, k - 1);
    }
  }

  /** The canonical hashes by number are those of the ancestors of `tip`; there may be
      stale ones above it. */
  ghost predicate Canonical(canon: map<nat, Header>, tip: Header) {
    forall n: nat :: n <= Number(tip) ==> n in canon && canon[n] == AncestorAt(tip, n)
  }
}
