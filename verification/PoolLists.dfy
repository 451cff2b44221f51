/** The pool's per-account lists as values, and the invariants that tie them to
    the lookup and to the virtual nonces. */
module PoolLists {
  import opened Transactions
  import opened NonceMaps
  import opened TxLookups

  type Lists = map<Address, NonceMap>

  /** The list of an account, empty if it has none. */
  function At(m: Lists, a: Address): NonceMap {
    if a in m then m[a] else map[]
  }

  /** Replaces the list of an account; an empty list is deleted. */
  function With(m: Lists, a: Address, l: NonceMap): Lists {
    if l == map[] then m - {a} else m[a := l]
  }

  ghost predicate NoEmptyList(m: Lists) {
    forall a :: a in m ==> m[a] != map[]
  }

  ghost predicate Owned(l: NonceMap, a: Address) {
    forall n :: n in l ==> l[n].nonce == n && l[n].sender == Some(a)
  }

  /** One account's share of the partition: the lookup holds exactly the
      transactions of its two lists, and these share no nonce. */
  ghost predicate AccountInv(all: Content, p: NonceMap, q: NonceMap, a: Address) {
    && Owned(p, a) && Owned(q, a) && p.Keys !! q.Keys
    && forall tx: Tx :: tx.sender == Some(a) ==> (Holds(all, tx) <==> In(p, tx) || In(q, tx))
  }

  /** The lookup is the disjoint union of all pending and queued transactions. */
  ghost predicate PoolInv(all: Content, pending: Lists, queue: Lists) {
    forall k {:trigger Key(k)} :: Key(k) ==>
      && KeyedByHash(all)
      && (forall h :: h in all ==> all[h].sender.Some?)
      && NoEmptyList(pending) && NoEmptyList(queue)
      && forall a :: AccountInv(all, At(pending, a), At(queue, a), a)
  }

  /** What the partition says about one account. */
  lemma Account(all: Content, pending: Lists, queue: Lists, a: Address)
    requires PoolInv(all, pending, queue)
    ensures AccountInv(all, At(pending, a), At(queue, a), a)
    ensures KeyedByHash(all) && NoEmptyList(pending) && NoEmptyList(queue)
    ensures forall h :: h in all ==> all[h].sender.Some?
  {
    assert Key(0);
  }

  /** A step that only touches one account keeps the partition, if it keeps that
      account's share and takes nobody else's transactions from the lookup. */
  lemma AccountStep(all: Content, pending: Lists, queue: Lists, a: Address,
                    all': Content, p': NonceMap, q': NonceMap)
    requires PoolInv(all, pending, queue) && KeyedByHash(all')
    requires forall h :: h in all' ==> all'[h].sender.Some?
    requires forall tx: Tx :: tx.sender != Some(a) ==> (Holds(all', tx) <==> Holds(all, tx))
    requires AccountInv(all', p', q', a)
    ensures PoolInv(all', With(pending, a, p'), With(queue, a, q'))
  {
    forall b ensures AccountInv(all', At(With(pending, a, p'), b), At(With(queue, a, q'), b), b) {
      if b != a {
        Account(all, pending, queue, b);
      }
    }
  }

  /** Dropping some of one account's transactions from the lookup. */
  lemma DropStep(all: Content, pending: Lists, queue: Lists, a: Address,
                 gone: set<Hash>, p': NonceMap, q': NonceMap)
    requires PoolInv(all, pending, queue)
    requires forall h :: h in gone && h in all ==> all[h].sender == Some(a)
    requires Owned(p', a) && Owned(q', a) && p'.Keys !! q'.Keys
    requires forall tx: Tx :: tx.sender == Some(a) ==>
      ((In(p', tx) || In(q', tx)) <==> (In(At(pending, a), tx) || In(At(queue, a), tx)) && tx.hash !in gone)
    ensures PoolInv(all - gone, With(pending, a, p'), With(queue, a, q'))
  {
    Account(all, pending, queue, a);
    forall tx: Tx ensures Holds(all - gone, tx) <==> Holds(all, tx) && tx.hash !in gone {}
    AccountStep(all, pending, queue, a, all - gone, p', q');
  }

  /** Within one account a hash names one transaction. */
  lemma SameHash(all: Content, p: NonceMap, q: NonceMap, a: Address, x: Tx, y: Tx)
    requires AccountInv(all, p, q, a) && x.hash == y.hash
    requires x.sender == Some(a) && y.sender == Some(a)
    requires (In(p, x) || In(q, x)) && (In(p, y) || In(q, y))
    ensures x == y
  {
    assert Holds(all, x) && Holds(all, y);
  }

  /** Splitting an account's lists into what stays and `gone`, with anything that
      stays free to change lists. */
  lemma SplitStep(all: Content, pending: Lists, queue: Lists, a: Address,
                  gone: NonceMap, p': NonceMap, q': NonceMap)
    requires PoolInv(all, pending, queue)
    requires gone.Keys !! p'.Keys !! q'.Keys
    requires gone + p' + q' == At(pending, a) + At(queue, a)
    ensures PoolInv(all - Hashes(gone), With(pending, a, p'), With(queue, a, q'))
  {
    var p, q := At(pending, a), At(queue, a);
    Account(all, pending, queue, a);
    SplitOwned(p, q, a, gone, p', q');
    forall h | h in Hashes(gone) && h in all ensures all[h].sender == Some(a) {
      var n :| n in gone && gone[n].hash == h;
      InSplit(p, q, gone, p', q', gone[n]);
      assert Holds(all, gone[n]);
    }
    forall tx: Tx | tx.sender == Some(a)
      ensures (In(p', tx) || In(q', tx)) <==> (In(p, tx) || In(q, tx)) && tx.hash !in Hashes(gone)
    {
      StaysIff(all, p, q, a, gone, p', q', tx);
    }
    DropStep(all, pending, queue, a, Hashes(gone), p', q');
  }

  lemma SplitOwned(p: NonceMap, q: NonceMap, a: Address, gone: NonceMap, p': NonceMap, q': NonceMap)
    requires Owned(p, a) && Owned(q, a) && p.Keys !! q.Keys
    requires gone.Keys !! p'.Keys !! q'.Keys && gone + p' + q' == p + q
    ensures Owned(gone, a) && Owned(p', a) && Owned(q', a)
  {
    var whole := p + q;
    forall n | n in whole ensures whole[n].nonce == n && whole[n].sender == Some(a) {}
    forall n | n in gone ensures gone[n] == whole[n] {}
    forall n | n in p' ensures p'[n] == whole[n] {}
    forall n | n in q' ensures q'[n] == whole[n] {}
  }

  lemma InUnion(p: NonceMap, q: NonceMap, tx: Tx)
    requires p.Keys !! q.Keys
    ensures In(p + q, tx) <==> In(p, tx) || In(q, tx)
  {
    var n := tx.nonce;
    assert n in p + q <==> n in p || n in q;
  }

  lemma InSplit(p: NonceMap, q: NonceMap, gone: NonceMap, p': NonceMap, q': NonceMap, tx: Tx)
    requires p.Keys !! q.Keys && gone.Keys !! p'.Keys !! q'.Keys && gone + p' + q' == p + q
    ensures In(p, tx) || In(q, tx) <==> In(gone, tx) || In(p', tx) || In(q', tx)
    ensures In(gone, tx) ==> !In(p', tx) && !In(q', tx)
  {
    InUnion(p, q, tx);
    InUnion(gone, p', tx);
    InUnion(gone + p', q', tx);
  }

  lemma StaysIff(all: Content, p: NonceMap, q: NonceMap, a: Address, gone: NonceMap, p': NonceMap, q': NonceMap, tx: Tx)
    requires AccountInv(all, p, q, a) && tx.sender == Some(a)
    requires gone.Keys !! p'.Keys !! q'.Keys && gone + p' + q' == p + q
    ensures (In(p', tx) || In(q', tx)) <==> (In(p, tx) || In(q, tx)) && tx.hash !in Hashes(gone)
  {
    SplitOwned(p, q, a, gone, p', q');
    InSplit(p, q, gone, p', q', tx);
    if (In(p, tx) || In(q, tx)) && tx.hash in Hashes(gone) {
      var n :| n in gone && gone[n].hash == tx.hash;
      InSplit(p, q, gone, p', q', gone[n]);
      SameHash(all, p, q, a, tx, gone[n]);
    }
    if In(gone, tx) { assert tx.hash in Hashes(gone); }
  }

  lemma WithSame(m: Lists, a: Address)
    requires NoEmptyList(m)
    ensures With(m, a, At(m, a)) == m
  {
  }

  /** A new transaction under a nonce that is free in both lists. */
  lemma AddStep(all: Content, pending: Lists, queue: Lists, a: Address, tx: Tx)
    requires PoolInv(all, pending, queue) && tx.sender == Some(a) && tx.hash !in all
    requires tx.nonce !in At(pending, a) && tx.nonce !in At(queue, a)
    ensures PoolInv(all[tx.hash := tx], With(pending, a, At(pending, a)[tx.nonce := tx]), queue)
    ensures PoolInv(all[tx.hash := tx], pending, With(queue, a, At(queue, a)[tx.nonce := tx]))
  {
    var p, q := At(pending, a), At(queue, a);
    var all' := all[tx.hash := tx];
    Account(all, pending, queue, a);
    forall t: Tx ensures Holds(all', t) <==> Holds(all, t) || t == tx {}
    forall t: Tx ensures In(p[tx.nonce := tx], t) <==> In(p, t) || t == tx {}
    forall t: Tx ensures In(q[tx.nonce := tx], t) <==> In(q, t) || t == tx {}
    WithSame(pending, a);
    WithSame(queue, a);
    AccountStep(all, pending, queue, a, all', p[tx.nonce := tx], q);
    AccountStep(all, pending, queue, a, all', p, q[tx.nonce := tx]);
  }

  // ----- virtual nonces

  /** An account's pending nonces run from its chain nonce up to its pool nonce,
      and its queued nonces come no earlier than the pool nonce. */
  ghost predicate NoncesInv(p: NonceMap, q: NonceMap, chain: nat, pool: nat) {
    Interval(p, chain, pool) && forall n :: n in q ==> n >= pool
  }

  /** When accounts were last heard of. */
  type Beats = map<Address, nat>

  /** What the pool holds: the lists, the nonces it tracks and the heartbeats. */
  datatype View = View(pending: Lists, queue: Lists, nonces: map<Address, nat>, beats: Beats)

  /** A heartbeat for an account that has none. */
  function Noted(beats: Beats, a: Address, now: nat): Beats { if a in beats then beats else beats[a := now] }

  /** The accounts that no longer have a queue lose their heartbeat. */
  function Hushed(beats: Beats, was: Lists, cur: Lists): Beats { beats - (was.Keys - cur.Keys) }

  lemma HushedTwice(beats: Beats, was: Lists, mid: Lists, cur: Lists)
    requires cur.Keys <= mid.Keys <= was.Keys
    ensures Hushed(Hushed(beats, was, mid), mid, cur) == Hushed(beats, was, cur) && Hushed(beats, was, was) == beats
  {
  }

  ghost predicate NoncesOf(v: View, chain: Address -> nat, a: Address) {
    NoncesInv(At(v.pending, a), At(v.queue, a), chain(a), PoolNonce(v.nonces, chain, a))
  }

  ghost predicate NoncesOk(v: View, chain: Address -> nat) {
    forall a :: NoncesOf(v, chain, a)
  }

  /** A step that only touches one account keeps the nonces, if it keeps that account's. */
  lemma NoncesStep(v: View, chain: Address -> nat, a: Address, p: NonceMap, q: NonceMap, n: nat, v': View)
    requires NoncesOk(v, chain) && NoncesInv(p, q, chain(a), n)
    requires v'.pending == With(v.pending, a, p) && v'.queue == With(v.queue, a, q) && v'.nonces == v.nonces[a := n]
    ensures NoncesOk(v', chain)
  {
    forall b ensures NoncesOf(v', chain, b) {
      assert NoncesOf(v, chain, b);
    }
  }

  /** Cutting a pending list at `n` and queueing what came after it. */
  lemma CutNonces(p: NonceMap, q: NonceMap, chain: nat, pool: nat, n: nat, low: NonceMap, tail: NonceMap)
    requires NoncesInv(p, q, chain, pool) && n in p && low == Below(p, n)
    requires forall k :: k in tail ==> k >= n
    ensures NoncesInv(low, q + tail, chain, n) && n < pool
  {
  }

  lemma TailOwned(all: Content, p: NonceMap, q: NonceMap, a: Address, tail: NonceMap)
    requires AccountInv(all, p, q, a) && tail.Keys <= p.Keys && forall n :: n in tail ==> tail[n] == p[n]
    ensures Owned(tail, a) && tail.Keys !! q.Keys
  {
  }

  /** A pending nonce splits its account's transactions into what stays pending,
      what is queued again, and itself. */
  lemma CutSplits(p: NonceMap, q: NonceMap, n: nat, gone: NonceMap, low: NonceMap, high: NonceMap)
    requires p.Keys !! q.Keys && n in p
    requires gone == map[n := p[n]] && low == Below(p, n) && high == q + AtLeast(p, n + 1)
    ensures gone.Keys !! low.Keys !! high.Keys && gone + low + high == p + q
  {
    assert (gone + low + high).Keys == (p + q).Keys;
    forall k | k in p + q ensures (gone + low + high)[k] == (p + q)[k] {}
  }

  lemma TakeSplits(p: NonceMap, q: NonceMap, n: nat, gone: NonceMap, rest: NonceMap)
    requires p.Keys !! q.Keys && n in q && gone == map[n := q[n]] && rest == q - {n}
    ensures gone.Keys !! p.Keys !! rest.Keys && gone + p + rest == p + q
  {
  }

  lemma HashesOfOne(n: nat, tx: Tx)
    ensures Hashes(map[n := tx]) == {tx.hash}
  {
    assert map[n := tx][n].hash in Hashes(map[n := tx]);
  }

  lemma WithTwice(m: Lists, a: Address, l: NonceMap, l': NonceMap)
    ensures At(With(m, a, l), a) == l && With(With(m, a, l), a, l') == With(m, a, l')
  {
  }

  /** Adding one more of `txs` to a list that already got the others but `rest`. */
  lemma OneMore(q: NonceMap, txs: NonceMap, rest: NonceMap, n: nat)
    requires rest.Keys <= txs.Keys && n in rest
    ensures (q + (txs - rest.Keys))[n := txs[n]] == q + (txs - (rest - {n}).Keys)
  {
    var l, r := (q + (txs - rest.Keys))[n := txs[n]], q + (txs - (rest - {n}).Keys);
    assert l.Keys == r.Keys;
    forall k | k in l ensures l[k] == r[k] {}
  }

  lemma NothingLeft(q: NonceMap, txs: NonceMap)
    ensures q + (txs - txs.Keys) == q && q + (txs - {}) == q + txs
  {
    assert txs - {} == txs;
  }

  // ----- removing one transaction

  /** A known transaction sits in exactly one list, under its nonce. */
  lemma Located(all: Content, pending: Lists, queue: Lists, tx: Tx)
    requires PoolInv(all, pending, queue) && Holds(all, tx)
    ensures tx.sender.Some?
    ensures var a := tx.sender.value;
      if tx.nonce in At(pending, a)
      then In(At(pending, a), tx) && tx.nonce !in At(queue, a)
      else In(At(queue, a), tx)
  {
    Account(all, pending, queue, 0);
    Account(all, pending, queue, tx.sender.value);
  }

  /** Deleting a pending transaction by nonce removes the one asked for and no other. */
  lemma CutKeepsInv(all: Content, pending: Lists, queue: Lists, tx: Tx, a: Address, low: NonceMap, high: NonceMap)
    requires PoolInv(all, pending, queue) && Holds(all, tx) && tx.sender == Some(a) && tx.nonce in At(pending, a)
    requires low == Below(At(pending, a), tx.nonce)
    requires high == At(queue, a) + AtLeast(At(pending, a), tx.nonce + 1)
    ensures PoolInv(all - {tx.hash}, With(pending, a, low), With(queue, a, high))
  {
    var gone := map[tx.nonce := tx];
    assert gone.Keys !! low.Keys !! high.Keys && gone + low + high == At(pending, a) + At(queue, a) by {
      Located(all, pending, queue, tx);
      Account(all, pending, queue, a);
      CutSplits(At(pending, a), At(queue, a), tx.nonce, gone, low, high);
    }
    HashesOfOne(tx.nonce, tx);
    SplitStep(all, pending, queue, a, gone, low, high);
  }

  /** The same with what is queued again named. */
  lemma CutIsReady(all: Content, pending: Lists, queue: Lists, tx: Tx, a: Address, low: NonceMap, tail: NonceMap)
    requires PoolInv(all, pending, queue) && Holds(all, tx) && tx.sender == Some(a) && tx.nonce in At(pending, a)
    requires low == Below(At(pending, a), tx.nonce) && tail == AtLeast(At(pending, a), tx.nonce + 1)
    ensures PoolInv(all - {tx.hash}, With(pending, a, low), With(queue, a, At(queue, a) + tail))
    ensures Owned(tail, a) && tail.Keys !! At(queue, a).Keys && NoEmptyList(queue)
  {
    CutKeepsInv(all, pending, queue, tx, a, low, At(queue, a) + tail);
    Account(all, pending, queue, a);
    TailOwned(all, At(pending, a), At(queue, a), a, tail);
  }

  /** And so does deleting a queued one. */
  lemma TakeKeepsInv(all: Content, pending: Lists, queue: Lists, tx: Tx, a: Address, rest: NonceMap)
    requires PoolInv(all, pending, queue) && Holds(all, tx) && tx.sender == Some(a) && tx.nonce !in At(pending, a)
    requires rest == At(queue, a) - {tx.nonce}
    ensures PoolInv(all - {tx.hash}, pending, With(queue, a, rest))
  {
    var gone := map[tx.nonce := tx];
    Located(all, pending, queue, tx);
    Account(all, pending, queue, a);
    TakeSplits(At(pending, a), At(queue, a), tx.nonce, gone, rest);
    HashesOfOne(tx.nonce, tx);
    SplitStep(all, pending, queue, a, gone, At(pending, a), rest);
    WithSame(pending, a);
  }

  /** Cuts an account's pending list at a nonce and queues again what came after it. */
  ghost function CutView(v: View, chain: Address -> nat, now: nat, a: Address, n: nat): View {
    var p, q := At(v.pending, a), At(v.queue, a);
    var tail := AtLeast(p, n + 1);
    View(With(v.pending, a, Below(p, n)), With(v.queue, a, q + tail),
         v.nonces[a := Min(PoolNonce(v.nonces, chain, a), n)],
         if tail == map[] then v.beats else Noted(v.beats, a, now))
  }

  /** Takes one nonce out of an account's queue. */
  ghost function TakeView(v: View, a: Address, n: nat): View {
    var queue := With(v.queue, a, At(v.queue, a) - {n});
    v.(queue := queue, beats := Hushed(v.beats, v.queue, queue))
  }

  /** The lists and nonces after a known transaction was removed by its nonce. */
  ghost function Removal(v: View, chain: Address -> nat, now: nat, tx: Tx): View {
    if tx.sender.None? then v else
    var a := tx.sender.value;
    if tx.nonce in At(v.pending, a) then CutView(v, chain, now, a, tx.nonce) else TakeView(v, a, tx.nonce)
  }

  lemma CutViewIs(v: View, chain: Address -> nat, now: nat, a: Address, n: nat, low: NonceMap, tail: NonceMap, v': View)
    requires low == Below(At(v.pending, a), n) && tail == AtLeast(At(v.pending, a), n + 1)
    requires v'.pending == With(v.pending, a, low) && v'.queue == With(v.queue, a, At(v.queue, a) + tail)
    requires v'.nonces == v.nonces[a := Min(PoolNonce(v.nonces, chain, a), n)]
    requires v'.beats == if tail == map[] then v.beats else Noted(v.beats, a, now)
    ensures v' == CutView(v, chain, now, a, n)
  {
  }

  lemma CutKeepsNonces(v: View, chain: Address -> nat, now: nat, a: Address, n: nat)
    requires NoncesOk(v, chain) && n in At(v.pending, a)
    ensures NoncesOk(CutView(v, chain, now, a, n), chain)
  {
    var p, q, b := At(v.pending, a), At(v.queue, a), PoolNonce(v.nonces, chain, a);
    var low, tail := Below(p, n), AtLeast(p, n + 1);
    assert NoncesOf(v, chain, a);
    CutNonces(p, q, chain(a), b, n, low, tail);
    NoncesStep(v, chain, a, low, q + tail, n, CutView(v, chain, now, a, n));
  }

  lemma TakeKeepsNonces(v: View, chain: Address -> nat, a: Address, n: nat)
    requires NoncesOk(v, chain)
    ensures NoncesOk(TakeView(v, a, n), chain)
  {
    forall c ensures NoncesOf(TakeView(v, a, n), chain, c) { assert NoncesOf(v, chain, c); }
  }

  lemma RemovalKeepsNonces(v: View, chain: Address -> nat, now: nat, tx: Tx)
    requires NoncesOk(v, chain)
    ensures NoncesOk(Removal(v, chain, now, tx), chain)
  {
    if tx.sender.None? { return; }
    var a := tx.sender.value;
    if tx.nonce in At(v.pending, a) {
      CutKeepsNonces(v, chain, now, a, tx.nonce);
    } else {
      TakeKeepsNonces(v, chain, a, tx.nonce);
    }
  }

  // ----- inserting one transaction

  /** Replacing a pending transaction by a new one with the same nonce. */
  lemma ReplacePendingInv(all: Content, pending: Lists, queue: Lists, a: Address, tx: Tx, prior: Tx)
    requires PoolInv(all, pending, queue) && tx.sender == Some(a) && tx.hash !in all
    requires tx.nonce in At(pending, a) && At(pending, a)[tx.nonce] == prior
    ensures PoolInv((all - {prior.hash})[tx.hash := tx], With(pending, a, At(pending, a)[tx.nonce := tx]), queue)
  {
    Account(all, pending, queue, a);
    var p, q, n := At(pending, a), At(queue, a), tx.nonce;
    var rest, gone := p - {n}, map[n := prior];
    TakePending(p, q, n, gone, rest);
    HashesOfOne(n, prior);
    SplitStep(all, pending, queue, a, gone, rest, q);
    WithSame(queue, a);
    var pending' := With(pending, a, rest);
    WithTwice(pending, a, rest, rest[n := tx]);
    AddStep(all - {prior.hash}, pending', queue, a, tx);
    assert rest[n := tx] == p[n := tx];
  }

  lemma TakePending(p: NonceMap, q: NonceMap, n: nat, gone: NonceMap, rest: NonceMap)
    requires p.Keys !! q.Keys && n in p && gone == map[n := p[n]] && rest == p - {n}
    ensures gone.Keys !! rest.Keys !! q.Keys && gone + rest + q == p + q
  {
    assert (gone + rest + q).Keys == (p + q).Keys;
    forall k | k in p + q ensures (gone + rest + q)[k] == (p + q)[k] {}
  }

  lemma ReplaceQueuedInv(all: Content, pending: Lists, queue: Lists, a: Address, tx: Tx, prior: Tx)
    requires PoolInv(all, pending, queue) && tx.sender == Some(a) && tx.hash !in all
    requires tx.nonce in At(queue, a) && At(queue, a)[tx.nonce] == prior
    ensures PoolInv((all - {prior.hash})[tx.hash := tx], pending, With(queue, a, At(queue, a)[tx.nonce := tx]))
  {
    Account(all, pending, queue, a);
    var p, q, n := At(pending, a), At(queue, a), tx.nonce;
    var rest, gone := q - {n}, map[n := prior];
    TakeSplits(p, q, n, gone, rest);
    HashesOfOne(n, prior);
    SplitStep(all, pending, queue, a, gone, p, rest);
    WithSame(pending, a);
    var queue' := With(queue, a, rest);
    WithTwice(queue, a, rest, rest[n := tx]);
    AddStep(all - {prior.hash}, pending, queue', a, tx);
    assert rest[n := tx] == q[n := tx];
  }

  lemma ReplaceKeepsNonces(v: View, chain: Address -> nat, a: Address, tx: Tx, v': View)
    requires NoncesOk(v, chain) && tx.nonce in At(v.pending, a)
    requires v'.pending == With(v.pending, a, At(v.pending, a)[tx.nonce := tx]) && v'.queue == v.queue
    requires v'.nonces == v.nonces
    ensures NoncesOk(v', chain)
  {
    forall b ensures NoncesOf(v', chain, b) { assert NoncesOf(v, chain, b); }
  }

  /** A transaction that is neither too old nor pending belongs in the queue. */
  lemma QueueKeepsNonces(v: View, chain: Address -> nat, a: Address, tx: Tx, v': View)
    requires NoncesOk(v, chain) && tx.nonce !in At(v.pending, a) && chain(a) <= tx.nonce
    requires v'.queue == With(v.queue, a, At(v.queue, a)[tx.nonce := tx]) && v'.pending == v.pending
    requires v'.nonces == v.nonces
    ensures NoncesOk(v', chain)
  {
    forall b ensures NoncesOf(v', chain, b) { assert NoncesOf(v, chain, b); }
  }

  /** The transaction an account holds under a nonce, pending or queued. */
  function Slot(pending: Lists, queue: Lists, a: Address, n: nat): Option<Tx> {
    if n in At(pending, a) then Some(At(pending, a)[n])
    else if n in At(queue, a) then Some(At(queue, a)[n])
    else None
  }

  /** Nothing was added, and only remote transactions are gone. */
  ghost predicate OnlyEvicts(before: Content, remotes: Content, after: Content) {
    && (forall h :: h in after ==> h in before && after[h] == before[h])
    && (forall h :: h in before && h !in after ==> h in remotes)
  }

  /** `tx` was added, at most in place of the transaction with its sender and
      nonce; otherwise only remote transactions are gone. */
  ghost predicate Adds(before: Content, remotes: Content, tx: Tx, after: Content) {
    && Holds(after, tx)
    && (forall h :: h in after && h != tx.hash ==> h in before && after[h] == before[h])
    && (forall h :: h in before && h !in after ==>
          h in remotes || (before[h].sender == tx.sender && before[h].nonce == tx.nonce))
  }

  /** The content without what a list holds under a nonce. */
  ghost function Without(all: Content, list: NonceMap, n: nat): Content {
    if n in list then all - {list[n].hash} else all
  }

  /** The content after `tx` was entered, if it was to be. */
  ghost function Entered(all: Content, tx: Tx, addAll: bool): Content {
    if addAll then all[tx.hash := tx] else all
  }

  /** The content after `tx` took its slot. */
  ghost function Placed(all: Content, prior: Option<Tx>, tx: Tx): Content {
    if prior.Some? then (all - {prior.value.hash})[tx.hash := tx] else all[tx.hash := tx]
  }

  lemma PlacedAdds(all: Content, remotes: Content, mid: Content, pending: Lists, queue: Lists, a: Address, tx: Tx)
    requires OnlyEvicts(all, remotes, mid) && PoolInv(mid, pending, queue) && tx.sender == Some(a)
    ensures Adds(all, remotes, tx, Placed(mid, Slot(pending, queue, a, tx.nonce), tx))
  {
    Account(mid, pending, queue, a);
    var prior := Slot(pending, queue, a, tx.nonce);
    if prior.Some? {
      assert In(At(pending, a), prior.value) || In(At(queue, a), prior.value);
      assert Holds(mid, prior.value);
    }
  }

  /** Dropping queued transactions keeps the nonces. */
  lemma FewerQueuedKeepsNonces(v: View, chain: Address -> nat, v': View)
    requires NoncesOk(v, chain) && v'.pending == v.pending && v'.nonces == v.nonces
    requires forall a :: At(v'.queue, a).Keys <= At(v.queue, a).Keys
    ensures NoncesOk(v', chain)
  {
    forall a ensures NoncesOf(v', chain, a) { assert NoncesOf(v, chain, a); }
  }
}
