/** Cutting an overfull queue: the accounts heard of last lose their queued
    transactions first. */
module QueueLimit {
  import opened Transactions
  import opened NonceMaps
  import opened TxLookups
  import opened PoolLists
  import opened WaterLevel

  /** The last time an account was heard of, counted from 1; an account never heard of
      comes before all others. */
  function Beat(beats: map<Address, nat>, a: Address): nat {
    if a in beats then beats[a] + 1 else 0
  }

  predicate IsLatest(beats: map<Address, nat>, who: set<Address>, a: Address) {
    a in who && forall b :: b in who ==> Beat(beats, b) <= Beat(beats, a)
  }

  lemma {:induction false} LatestExists(beats: map<Address, nat>, who: set<Address>)
    requires who != {}
    ensures exists a :: IsLatest(beats, who, a)
  {
    var a :| a in who;
    if who == {a} {
      assert IsLatest(beats, who, a);
    } else {
      LatestExists(beats, who - {a});
      var b :| IsLatest(beats, who - {a}, b);
      assert who == (who - {a}) + {a};
      assert IsLatest(beats, who, if Beat(beats, b) < Beat(beats, a) then a else b);
    }
  }

  lemma TotalWith(m: Lists, a: Address, l: NonceMap)
    requires a in m
    ensures Total(With(m, a, l)) == Total(m) - |m[a]| + |l|
  {
    if l == map[] {
      TotalWithout(m, a);
    } else {
      TotalUpdate(m, a, l);
    }
  }

  /** How a queue may have been cut: only remote accounts lose, by nonce from the
      top, and an account only after all that were heard of later lost everything. */
  ghost predicate Shed(was: Lists, cur: Lists, locals: set<Address>, beats: map<Address, nat>) {
    && cur.Keys <= was.Keys
    && (forall a :: a in locals ==> At(cur, a) == At(was, a))
    && (forall a :: a in was ==> Initial(At(cur, a), was[a]))
    && (forall a, b :: (a in was && b in was && a !in locals && b !in locals
                        && At(cur, b) != was[b] && Beat(beats, a) > Beat(beats, b)) ==> At(cur, a) == map[])
  }

  /** The cut in progress: `waiting` are untouched, and of the others only `last`
      may have anything left. */
  ghost predicate Shedding(was: Lists, cur: Lists, locals: set<Address>, beats: map<Address, nat>,
                           waiting: set<Address>, last: Option<Address>) {
    forall k {:trigger QueueKey(k)} :: QueueKey(k) ==>
      && cur.Keys <= was.Keys && waiting <= was.Keys && waiting !! locals
      && (forall a :: a in locals || a in waiting ==> At(cur, a) == At(was, a))
      && (forall a :: a in was ==> Initial(At(cur, a), was[a]))
      && (forall a :: a in was && a !in locals && a !in waiting && last != Some(a) ==> At(cur, a) == map[])
      && (last.Some? ==> last.value in was && last.value !in locals && last.value !in waiting)
      && (forall a :: last.Some? && a in was && a !in locals && a !in waiting ==>
            Beat(beats, last.value) <= Beat(beats, a))
      && (forall a, b :: a in was && a !in locals && a !in waiting && b in waiting ==> Beat(beats, b) <= Beat(beats, a))
  }

  /** Guards the definition above, like Key. */
  predicate QueueKey(k: int) { true }

  lemma SheddingEnds(was: Lists, cur: Lists, locals: set<Address>, beats: map<Address, nat>, waiting: set<Address>,
                     last: Option<Address>)
    requires Shedding(was, cur, locals, beats, waiting, last)
    ensures Shed(was, cur, locals, beats)
    ensures waiting <= was.Keys && forall a :: a in waiting ==> a in cur ==> cur[a] == was[a]
    ensures waiting == {} && (last.Some? ==> At(cur, last.value) == map[]) ==>
      forall a :: a in was && a !in locals ==> At(cur, a) == map[]
  {
    assert QueueKey(0);
  }

  lemma SheddingStarts(was: Lists, locals: set<Address>, beats: map<Address, nat>, waiting: set<Address>)
    requires waiting == set a | a in was && a !in locals
    ensures Shedding(was, was, locals, beats, waiting, None)
  {
  }

  /** The next account is cut down to `l`. */
  lemma SheddingStep(was: Lists, cur: Lists, locals: set<Address>, beats: map<Address, nat>, waiting: set<Address>,
                     x: Address, l: NonceMap, last: Option<Address>)
    requires Shedding(was, cur, locals, beats, waiting, last) && (last.Some? ==> At(cur, last.value) == map[])
    requires IsLatest(beats, waiting, x) && x in was && Initial(l, was[x])
    ensures Shedding(was, With(cur, x, l), locals, beats, waiting - {x}, Some(x))
  {
    SheddingMeans(was, cur, locals, beats, waiting, last);
    var cur', rest := With(cur, x, l), waiting - {x};
    assert forall a :: At(cur', a) == if a == x then l else At(cur, a);
    forall a | a in was && a !in locals && a !in rest ensures Beat(beats, x) <= Beat(beats, a) { }
  }

  lemma SheddingMeans(was: Lists, cur: Lists, locals: set<Address>, beats: map<Address, nat>, waiting: set<Address>,
                      last: Option<Address>)
    requires Shedding(was, cur, locals, beats, waiting, last)
    ensures cur.Keys <= was.Keys && waiting <= was.Keys && waiting !! locals
    ensures forall a :: a in locals || a in waiting ==> At(cur, a) == At(was, a)
    ensures forall a :: a in was ==> Initial(At(cur, a), was[a])
    ensures forall a :: a in was && a !in locals && a !in waiting && last != Some(a) ==> At(cur, a) == map[]
    ensures forall a, b :: a in was && a !in locals && a !in waiting && b in waiting ==>
      Beat(beats, b) <= Beat(beats, a)
  {
    assert QueueKey(0);
  }

  lemma SheddingWaits(was: Lists, cur: Lists, locals: set<Address>, beats: map<Address, nat>, waiting: set<Address>,
                      last: Option<Address>, x: Address)
    requires Shedding(was, cur, locals, beats, waiting, last) && x in waiting && NoEmptyList(was)
    ensures x in was && x in cur && cur[x] == was[x]
  {
    assert QueueKey(0);
    assert At(cur, x) == At(was, x);
  }

  /** Dropping queued transactions does not touch the pending runs. */
  lemma ShedKeepsNonces(v: View, chain: Address -> nat, locals: set<Address>, beats: map<Address, nat>, v': View)
    requires NoncesOk(v, chain) && Shed(v.queue, v'.queue, locals, beats)
    requires v'.pending == v.pending && v'.nonces == v.nonces
    ensures NoncesOk(v', chain)
  {
    forall a ensures NoncesOf(v', chain, a) {
      assert NoncesOf(v, chain, a);
      assert a in v.queue ==> Initial(At(v'.queue, a), v.queue[a]);
    }
  }
}
