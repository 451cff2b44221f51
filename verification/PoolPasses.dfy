/** Promotion and demotion as passes over all accounts: exactly what they make of every
    account's lists, and exactly when the pending lists come out without a gap. */
module PoolPasses {
  import opened Transactions
  import opened NonceMaps
  import opened TxLists
  import opened TxLookups
  import opened PoolLists
  import opened PoolSteps

  /** What a pass goes by: the chain state, the gas limit, the local accounts, the limit
      for the queue of an account and the time. */
  datatype Terms = Terms(
    nonce: Address -> nat, balance: Address -> nat, maxGas: nat, locals: set<Address>, limit: nat, now: nat)

  function BeatAt(beats: Beats, a: Address): Option<nat> { if a in beats then Some(beats[a]) else None }

  /** Guards the definitions below, like Key. */
  predicate PassKey(k: nat) { true }

  // ----- promotion

  function PoolNonceOf(t: Terms, v: View, a: Address): nat { PoolNonce(v.nonces, t.nonce, a) }

  /** What is promoted, what is pending then, and what remains queued. */
  function RunOf(t: Terms, v: View, a: Address): NonceMap {
    Promotable(At(v.queue, a), t.nonce(a), t.balance(a), t.maxGas, PoolNonceOf(t, v, a))
  }

  function PendingOf(t: Terms, v: View, a: Address): NonceMap { At(v.pending, a) + RunOf(t, v, a) }

  function QueueOf(t: Terms, v: View, a: Address): NonceMap {
    Remaining(At(v.queue, a), t.nonce(a), t.balance(a), t.maxGas, PoolNonceOf(t, v, a), a in t.locals, t.limit)
  }

  ghost predicate SameLists(v: View, w: View, a: Address) {
    At(v.pending, a) == At(w.pending, a) && At(v.queue, a) == At(w.queue, a)
  }

  /** A promotion is a sign of life, but without a queue an account has no heartbeat. */
  function PromotedBeats(beats: Beats, a: Address, run: NonceMap, kept: NonceMap, now: nat): Beats {
    if kept == map[] then beats - {a} else if run == map[] then beats else beats[a := now]
  }

  lemma PromotedBeatsAre(beats: Beats, a: Address, run: NonceMap, kept: NonceMap, now: nat)
    ensures var noted := if run == map[] then beats else beats[a := now];
      PromotedBeats(beats, a, run, kept, now) == if kept == map[] then noted - {a} else noted
  {
  }

  function PromotedBeat(beat: Option<nat>, queued: NonceMap, run: NonceMap, kept: NonceMap, now: nat): Option<nat> {
    if queued == map[] then beat else if kept == map[] then None else if run == map[] then beat else Some(now)
  }

  /** The account went through promotion. */
  ghost predicate PromotedAt(t: Terms, v: View, w: View, a: Address) {
    exists usable, run, kept ::
      && Promotes(At(v.queue, a), t.nonce(a), t.balance(a), t.maxGas, PoolNonceOf(t, v, a), a in t.locals, t.limit,
                  usable, run, kept)
      && At(w.pending, a) == At(v.pending, a) + run && At(w.queue, a) == kept
      && PoolNonceOf(t, w, a) == NextNonce(run, PoolNonceOf(t, v, a))
      && BeatAt(w.beats, a) == PromotedBeat(BeatAt(v.beats, a), At(v.queue, a), run, kept, t.now)
  }

  lemma PromotedMeans(t: Terms, v: View, w: View, a: Address)
    requires PromotedAt(t, v, w, a)
    ensures At(w.pending, a) == PendingOf(t, v, a) && At(w.queue, a) == QueueOf(t, v, a)
    ensures PoolNonceOf(t, w, a) !in At(w.queue, a) && forall n :: n in At(w.queue, a) ==> n >= t.nonce(a)
  {
    var q, pool := At(v.queue, a), PoolNonceOf(t, v, a);
    var usable, run, kept :|
      && Promotes(q, t.nonce(a), t.balance(a), t.maxGas, pool, a in t.locals, t.limit, usable, run, kept)
      && At(w.pending, a) == At(v.pending, a) + run && At(w.queue, a) == kept
      && PoolNonceOf(t, w, a) == NextNonce(run, pool);
    RemainingIsBeyond(q, t.nonce(a), t.balance(a), t.maxGas, pool, a in t.locals, t.limit, usable, run, kept);
    PromotesIs(q, t.nonce(a), t.balance(a), t.maxGas, pool, a in t.locals, t.limit, usable, run, kept);
  }

  ghost predicate SameAt(t: Terms, v: View, w: View, a: Address) {
    SameLists(v, w, a) && PoolNonceOf(t, v, a) == PoolNonceOf(t, w, a) && BeatAt(v.beats, a) == BeatAt(w.beats, a)
  }
  /** Exactly the accounts in `done` were promoted. */
  ghost predicate PromotionPass(t: Terms, v: View, w: View, done: set<Address>) {
    forall k {:trigger PassKey(k)} :: PassKey(k) ==>
      forall a :: if a in done then PromotedAt(t, v, w, a) else SameAt(t, v, w, a)
  }

  lemma PassAt(t: Terms, v: View, w: View, done: set<Address>, a: Address)
    requires PromotionPass(t, v, w, done)
    ensures if a in done then PromotedAt(t, v, w, a) else SameAt(t, v, w, a)
  {
    assert PassKey(0);
  }

  lemma PassStarts(t: Terms, v: View)
    ensures PromotionPass(t, v, v, {})
  {
  }

  lemma PassStep(t: Terms, v: View, w: View, done: set<Address>, a: Address, usable: NonceMap, run: NonceMap,
                 kept: NonceMap, w': View)
    requires PromotionPass(t, v, w, done) && a !in done
    requires Promotes(At(w.queue, a), t.nonce(a), t.balance(a), t.maxGas, PoolNonceOf(t, w, a), a in t.locals, t.limit,
                      usable, run, kept)
    requires At(w.queue, a) != map[]
    requires w' == View(With(w.pending, a, At(w.pending, a) + run), With(w.queue, a, kept),
                        w.nonces[a := NextNonce(run, PoolNonceOf(t, w, a))],
                        PromotedBeats(w.beats, a, run, kept, t.now))
    ensures PromotionPass(t, v, w', done + {a})
  {
    PassAt(t, v, w, done, a);
    JustPromoted(t, v, w, a, usable, run, kept, w');
    forall b ensures if b in done + {a} then PromotedAt(t, v, w', b) else SameAt(t, v, w', b) {
      if b != a {
        PassAt(t, v, w, done, b);
        OtherLists(w.pending, a, At(w.pending, a) + run, b);
        OtherLists(w.queue, a, kept, b);
        OtherAccount(t, v, w, w', done, b);
      }
    }
  }

  lemma OtherLists(m: Lists, a: Address, l: NonceMap, b: Address)
    ensures At(With(m, a, l), a) == l && (b != a ==> At(With(m, a, l), b) == At(m, b))
  {
  }

  lemma JustPromoted(t: Terms, v: View, w: View, a: Address, usable: NonceMap, run: NonceMap, kept: NonceMap, w': View)
    requires SameAt(t, v, w, a)
    requires Promotes(At(w.queue, a), t.nonce(a), t.balance(a), t.maxGas, PoolNonceOf(t, w, a), a in t.locals, t.limit,
                      usable, run, kept)
    requires At(w.queue, a) != map[]
    requires w' == View(With(w.pending, a, At(w.pending, a) + run), With(w.queue, a, kept),
                        w.nonces[a := NextNonce(run, PoolNonceOf(t, w, a))],
                        PromotedBeats(w.beats, a, run, kept, t.now))
    ensures PromotedAt(t, v, w', a)
  {
    OtherLists(w.pending, a, At(w.pending, a) + run, a);
    OtherLists(w.queue, a, kept, a);
  }

  lemma OtherAccount(t: Terms, v: View, w: View, w': View, done: set<Address>, b: Address)
    requires if b in done then PromotedAt(t, v, w, b) else SameAt(t, v, w, b)
    requires SameAt(t, w, w', b)
    ensures if b in done then PromotedAt(t, v, w', b) else SameAt(t, v, w', b)
  {
  }

  /** An account without a queue is promoted by leaving it alone. */
  lemma NoQueuePromotes(t: Terms, v: View, w: View, a: Address)
    requires SameAt(t, v, w, a) && At(v.queue, a) == map[]
    ensures PromotedAt(t, v, w, a)
  {
    CappedIsInitial(map[], a in t.locals, t.limit);
    assert Promotes(map[], t.nonce(a), t.balance(a), t.maxGas, PoolNonceOf(t, v, a), a in t.locals, t.limit,
                    map[], map[], map[]);
    assert At(v.pending, a) + map[] == At(v.pending, a);
  }

  lemma PassSkips(t: Terms, v: View, w: View, done: set<Address>, a: Address)
    requires PromotionPass(t, v, w, done) && a !in done && a !in w.queue
    ensures PromotionPass(t, v, w, done + {a})
  {
    assert PassKey(0);
    assert SameAt(t, v, w, a);
    NoQueuePromotes(t, v, w, a);
    forall b ensures if b in done + {a} then PromotedAt(t, v, w, b) else SameAt(t, v, w, b) {}
  }

  /** Promotion keeps the intervals of pending nonces. */
  lemma PassKeepsNonces(t: Terms, v: View, w: View, done: set<Address>)
    requires PromotionPass(t, v, w, done) && NoncesOk(v, t.nonce)
    ensures NoncesOk(w, t.nonce)
  {
    forall a ensures NoncesOf(w, t.nonce, a) {
      assert NoncesOf(v, t.nonce, a);
      PassAt(t, v, w, done, a);
      if a in done { PromotedNonces(t, v, w, a); }
    }
  }

  lemma PromotedNonces(t: Terms, v: View, w: View, a: Address)
    requires NoncesOf(v, t.nonce, a) && PromotedAt(t, v, w, a)
    ensures NoncesOf(w, t.nonce, a)
  {
    var q, pool := At(v.queue, a), PoolNonceOf(t, v, a);
    var usable, run, kept :|
      && Promotes(q, t.nonce(a), t.balance(a), t.maxGas, pool, a in t.locals, t.limit, usable, run, kept)
      && At(w.pending, a) == At(v.pending, a) + run && At(w.queue, a) == kept
      && PoolNonceOf(t, w, a) == NextNonce(run, pool);
    PromotedParts(q, t.nonce(a), t.balance(a), t.maxGas, pool, a in t.locals, t.limit, usable, run, kept);
    PromotionNonces(At(v.pending, a), q, t.nonce(a), pool, usable, run, kept);
  }

  /** After a promotion the nonce that could be promoted next is not in the queue. */
  lemma PromotionExhausts(t: Terms, v: View, w: View, done: set<Address>, a: Address)
    requires PromotionPass(t, v, w, done) && a in done
    ensures PoolNonceOf(t, w, a) !in At(w.queue, a)
  {
    PassAt(t, v, w, done, a);
    PromotedMeans(t, v, w, a);
  }

  // ----- demotion

  function DemotedBeat(beat: Option<nat>, back: NonceMap, now: nat): Option<nat> {
    if back != map[] && beat.None? then Some(now) else beat
  }

  /** The account went through demotion. */
  ghost predicate DemotedAt(t: Terms, v: View, w: View, a: Address) {
    exists current, unpayable, stay, back ::
      && Demotes(At(v.pending, a), t.nonce(a), t.balance(a), t.maxGas, current, unpayable, stay, back)
      && At(w.pending, a) == stay && At(w.queue, a) == At(v.queue, a) + back
      && BeatAt(w.beats, a) == DemotedBeat(BeatAt(v.beats, a), back, t.now)
  }

  /** The account waits for its turn. */
  ghost predicate Waits(v: View, w: View, a: Address) {
    SameLists(v, w, a) && BeatAt(v.beats, a) == BeatAt(w.beats, a)
  }

  lemma DemotedMeans(t: Terms, v: View, w: View, a: Address)
    requires DemotedAt(t, v, w, a)
    ensures At(w.pending, a) == StayOf(At(v.pending, a), t.nonce(a), t.balance(a), t.maxGas)
    ensures At(w.queue, a) == At(v.queue, a) + BackOf(At(v.pending, a), t.nonce(a), t.balance(a), t.maxGas)
  {
    var p := At(v.pending, a);
    var current, unpayable, stay, back :| Demotes(p, t.nonce(a), t.balance(a), t.maxGas, current, unpayable, stay, back)
      && At(w.pending, a) == stay && At(w.queue, a) == At(v.queue, a) + back;
    DemotesIs(p, t.nonce(a), t.balance(a), t.maxGas, current, unpayable, stay, back);
  }

  /** All accounts but those still to do were demoted. */
  ghost predicate DemotionPass(t: Terms, v: View, w: View, todo: set<Address>) {
    forall k {:trigger PassKey(k)} :: PassKey(k) ==>
      forall a :: if a in todo then Waits(v, w, a) else DemotedAt(t, v, w, a)
  }

  lemma DemotionAt(t: Terms, v: View, w: View, todo: set<Address>, a: Address)
    requires DemotionPass(t, v, w, todo)
    ensures if a in todo then Waits(v, w, a) else DemotedAt(t, v, w, a)
  {
    assert PassKey(0);
  }

  lemma DemotionIgnoresNonces(t: Terms, v: View, w: View, todo: set<Address>, w': View)
    requires DemotionPass(t, v, w, todo) && w'.pending == w.pending && w'.queue == w.queue && w'.beats == w.beats
    ensures DemotionPass(t, v, w', todo)
  {
    forall a ensures if a in todo then Waits(v, w', a) else DemotedAt(t, v, w', a) { DemotionAt(t, v, w, todo, a); }
  }

  lemma NothingToDemote(t: Terms, v: View, w: View, a: Address)
    requires Waits(v, w, a) && At(v.pending, a) == map[]
    ensures DemotedAt(t, v, w, a)
  {
    assert AtLeast(map[], t.nonce(a)) == map[] && UnpayableIn(map[], t.balance(a), t.maxGas) == map[];
    assert Demotes(map[], t.nonce(a), t.balance(a), t.maxGas, map[], map[], map[], map[]);
    assert At(v.queue, a) + map[] == At(v.queue, a);
  }

  lemma DemotionStarts(t: Terms, v: View)
    ensures DemotionPass(t, v, v, v.pending.Keys)
  {
    forall a ensures if a in v.pending.Keys then Waits(v, v, a) else DemotedAt(t, v, v, a) {
      if a !in v.pending { NothingToDemote(t, v, v, a); }
    }
  }

  lemma DemotionStep(t: Terms, v: View, w: View, todo: set<Address>, a: Address,
                     current: NonceMap, unpayable: NonceMap, stay: NonceMap, back: NonceMap, w': View)
    requires DemotionPass(t, v, w, todo) && a in todo
    requires Demotes(At(w.pending, a), t.nonce(a), t.balance(a), t.maxGas, current, unpayable, stay, back)
    requires w'.pending == With(w.pending, a, stay) && w'.queue == With(w.queue, a, At(w.queue, a) + back)
    requires w'.beats == if back == map[] then w.beats else Noted(w.beats, a, t.now)
    ensures DemotionPass(t, v, w', todo - {a})
  {
    assert PassKey(0);
    assert Waits(v, w, a);
    JustDemoted(t, v, w, a, current, unpayable, stay, back, w');
    forall b ensures if b in todo - {a} then Waits(v, w', b) else DemotedAt(t, v, w', b) {
      if b != a {
        OtherLists(w.pending, a, stay, b);
        OtherLists(w.queue, a, At(w.queue, a) + back, b);
        OtherDemoted(t, v, w, w', todo, b);
      }
    }
  }

  lemma JustDemoted(t: Terms, v: View, w: View, a: Address, current: NonceMap, unpayable: NonceMap, stay: NonceMap,
                    back: NonceMap, w': View)
    requires Waits(v, w, a)
    requires Demotes(At(w.pending, a), t.nonce(a), t.balance(a), t.maxGas, current, unpayable, stay, back)
    requires w'.pending == With(w.pending, a, stay) && w'.queue == With(w.queue, a, At(w.queue, a) + back)
    requires w'.beats == if back == map[] then w.beats else Noted(w.beats, a, t.now)
    ensures DemotedAt(t, v, w', a)
  {
    OtherLists(w.pending, a, stay, a);
    OtherLists(w.queue, a, At(w.queue, a) + back, a);
  }

  lemma OtherDemoted(t: Terms, v: View, w: View, w': View, todo: set<Address>, b: Address)
    requires Waits(w, w', b) && if b in todo then Waits(v, w, b) else DemotedAt(t, v, w, b)
    ensures if b in todo then Waits(v, w', b) else DemotedAt(t, v, w', b)
  {
  }

  /** A pending list that starts at the chain nonce and holds only what can be paid. */
  ghost predicate Executable(t: Terms, a: Address, l: NonceMap) {
    t.nonce(a) in l && forall n :: n in l ==> n >= t.nonce(a) && !Unpayable(l[n], t.balance(a), t.maxGas)
  }

  /** All pending lists are executable. */
  ghost predicate Cleared(t: Terms, pending: Lists) {
    forall k {:trigger PassKey(k)} :: PassKey(k) ==> forall a :: a in pending ==> Executable(t, a, pending[a])
  }

  lemma DemotionClears(t: Terms, v: View, w: View)
    requires DemotionPass(t, v, w, {}) && NoEmptyList(w.pending)
    ensures Cleared(t, w.pending)
  {
    forall a | a in w.pending ensures Executable(t, a, w.pending[a]) {
      DemotionAt(t, v, w, {}, a);
      DemotedMeans(t, v, w, a);
      StayIsExecutable(t, a, At(v.pending, a));
    }
  }

  lemma StayIsExecutable(t: Terms, a: Address, p: NonceMap)
    ensures var stay := StayOf(p, t.nonce(a), t.balance(a), t.maxGas); stay == map[] || Executable(t, a, stay)
  {
    var current := AtLeast(p, t.nonce(a));
    var unpayable, stay := UnpayableIn(current, t.balance(a), t.maxGas), StayOf(p, t.nonce(a), t.balance(a), t.maxGas);
    forall n | n in stay ensures n >= t.nonce(a) && !Unpayable(stay[n], t.balance(a), t.maxGas) {
      assert n in current && stay[n] == current[n];
      assert unpayable != map[] ==> n < MinKey(unpayable);
      assert Unpayable(current[n], t.balance(a), t.maxGas) ==> n in unpayable;
    }
  }

  /** A front part of an executable list is executable. */
  lemma FrontIsExecutable(t: Terms, a: Address, l: NonceMap, front: NonceMap)
    requires Executable(t, a, l) && Initial(front, l) && front != map[]
    ensures Executable(t, a, front)
  {
    var n :| n in front;
    assert t.nonce(a) !in front ==> n < t.nonce(a);
  }

  // ----- both passes after the head moved

  /** Whether an account comes out of promotion and demotion without a gap. */
  ghost predicate WillSettle(t: Terms, v: View, a: Address) {
    Settles(PendingOf(t, v, a), QueueOf(t, v, a), t.nonce(a), t.balance(a), t.maxGas)
  }

  /** The refreshed pool nonces. */
  function Refreshed(pending: Lists): map<Address, nat> { map a | a in pending :: NextNonce(pending[a], 0) }

  lemma RefreshedIs(pending: Lists, nonces: map<Address, nat>)
    requires NoEmptyList(pending) && forall a :: a in nonces <==> a in pending
    requires forall a :: a in pending ==> nonces[a] > 0 && nonces[a] - 1 in pending[a]
    requires forall a, n :: a in pending && n in pending[a] ==> n < nonces[a]
    ensures nonces == Refreshed(pending)
  {
    forall a | a in pending ensures nonces[a] == NextNonce(pending[a], 0) { assert MaxKey(pending[a]) in pending[a]; }
  }

  /** One account, from the lists before promotion to those after demotion. */
  lemma AccountSettlesIff(t: Terms, v: View, u: View, w: View, a: Address)
    requires PromotionPass(t, v, u, v.queue.Keys) && DemotionPass(t, u, w, {})
    requires At(u.pending, a).Keys !! At(u.queue, a).Keys && NoEmptyList(w.pending) && w.nonces == Refreshed(w.pending)
    ensures NoncesOf(w, t.nonce, a) <==> WillSettle(t, v, a)
  {
    var p, q, stay, queued := At(u.pending, a), At(u.queue, a), At(w.pending, a), At(w.queue, a);
    AllPromoted(t, v, u, a);
    DemotionAt(t, u, w, {}, a);
    DemotedMeans(t, u, w, a);
    SettledIff(p, q, t.nonce(a), t.balance(a), t.maxGas, stay, queued, PoolNonceOf(t, w, a));
  }

  lemma AllPromoted(t: Terms, v: View, u: View, a: Address)
    requires PromotionPass(t, v, u, v.queue.Keys)
    ensures At(u.pending, a) == PendingOf(t, v, a) && At(u.queue, a) == QueueOf(t, v, a)
    ensures forall n :: n in At(u.queue, a) ==> n >= t.nonce(a)
  {
    PassAt(t, v, u, v.queue.Keys, a);
    if a !in v.queue { NoQueuePromotes(t, v, u, a); }
    PromotedMeans(t, v, u, a);
  }

  /** After a head move the pending lists are the intervals up to the pool nonces if and
      only if every account settles, whatever was put back before. */
  lemma ResetSettlesIff(t: Terms, all: Content, v: View, u: View, w: View)
    requires PromotionPass(t, v, u, v.queue.Keys) && DemotionPass(t, u, w, {})
    requires PoolInv(all, u.pending, u.queue) && NoEmptyList(w.pending) && w.nonces == Refreshed(w.pending)
    ensures NoncesOk(w, t.nonce) <==> forall a :: WillSettle(t, v, a)
  {
    forall a ensures NoncesOf(w, t.nonce, a) <==> WillSettle(t, v, a) {
      Account(all, u.pending, u.queue, a);
      AccountSettlesIff(t, v, u, w, a);
    }
  }

  /** An account that reinjection did not touch settles, wherever the chain nonce went. */
  lemma UntouchedSettles(t: Terms, v: View, before: View, was: Address -> nat, a: Address)
    requires NoncesOf(before, was, a) && SameLists(v, before, a) && a !in v.nonces
    ensures WillSettle(t, v, a)
  {
    var p, q := At(v.pending, a), At(v.queue, a);
    var usable := Usable(q, t.nonce(a), t.balance(a), t.maxGas);
    PromotableIs(q, t.nonce(a), t.balance(a), t.maxGas, t.nonce(a), a in t.locals, t.limit);
    FreshAfterPromotion(p, q, was(a), PoolNonce(before.nonces, was, a), t.nonce(a),
                        t.balance(a), t.maxGas, a in t.locals, t.limit, usable, RunOf(t, v, a), QueueOf(t, v, a));
    FreshSettles(PendingOf(t, v, a), QueueOf(t, v, a), t.nonce(a), t.balance(a), t.maxGas);
  }

  /** So does one whose chain nonce did not move. */
  lemma UnmovedSettles(t: Terms, v: View, a: Address)
    requires NoncesOf(v, t.nonce, a)
    ensures WillSettle(t, v, a)
  {
    var q, pool := At(v.queue, a), PoolNonceOf(t, v, a);
    var usable, run, kept := Usable(q, t.nonce(a), t.balance(a), t.maxGas), RunOf(t, v, a), QueueOf(t, v, a);
    PromotableIs(q, t.nonce(a), t.balance(a), t.maxGas, pool, a in t.locals, t.limit);
    PromotedParts(q, t.nonce(a), t.balance(a), t.maxGas, pool, a in t.locals, t.limit, usable, run, kept);
    PromotionNonces(At(v.pending, a), q, t.nonce(a), pool, usable, run, kept);
    AlignedSettles(PendingOf(t, v, a), kept, t.nonce(a), NextNonce(run, pool), t.balance(a), t.maxGas);
  }

  lemma AlignedSettles(p: NonceMap, q: NonceMap, chain: nat, pool: nat, balance: nat, maxGas: nat)
    requires NoncesInv(p, q, chain, pool)
    ensures Settles(p, q, chain, balance, maxGas)
  {
    FreshSettles(p, q, chain, balance, maxGas);
  }

  /** How a gap comes about: nonce 5 was pending right at the chain nonce; the head moves
      back to nonce 3, of the abandoned transactions 3 is queued again and 4 is refused.
      Before the head moved all was in order; now promotion puts 3 in front of 5. */
  lemma GapIsReached(t: Terms, before: View, was: Address -> nat, v: View, a: Address, t3: Tx, t5: Tx)
    requires was(a) == 5 && At(before.pending, a) == map[5 := t5] && At(before.queue, a) == map[]
    requires before.nonces == map[a := 6]
    requires At(v.pending, a) == map[5 := t5] && At(v.queue, a) == map[3 := t3] && v.nonces == map[] && t.nonce(a) == 3
    requires !Unpayable(t3, t.balance(a), t.maxGas) && !Unpayable(t5, t.balance(a), t.maxGas)
    ensures NoncesOf(before, was, a) && PendingOf(t, v, a) == map[3 := t3, 5 := t5] && !WillSettle(t, v, a)
  {
    OneAligned(before, was, a, t5);
    OneReady(t3, t.balance(a), t.maxGas);
    assert PoolNonceOf(t, v, a) == 3;
    assert RunOf(t, v, a) == Promotable(map[3 := t3], 3, t.balance(a), t.maxGas, 3);
    assert map[5 := t5] + map[3 := t3] == map[3 := t3, 5 := t5];
    GapSurvivesDemotion(t3, t5, t.balance(a), t.maxGas);
    NeverSettles(map[3 := t3, 5 := t5], QueueOf(t, v, a), 3, t.balance(a), t.maxGas);
  }

  lemma NeverSettles(p: NonceMap, q: NonceMap, chain: nat, balance: nat, maxGas: nat)
    requires chain in KeptOf(p, chain, balance, maxGas) && !Contiguous(KeptOf(p, chain, balance, maxGas))
    ensures !Settles(p, q, chain, balance, maxGas)
  {
  }

  lemma OneAligned(v: View, chain: Address -> nat, a: Address, t5: Tx)
    requires chain(a) == 5 && At(v.pending, a) == map[5 := t5] && At(v.queue, a) == map[] && v.nonces == map[a := 6]
    ensures NoncesOf(v, chain, a)
  {
    assert PoolNonce(v.nonces, chain, a) == 6;
  }

  lemma OneReady(t3: Tx, balance: nat, maxGas: nat)
    requires !Unpayable(t3, balance, maxGas)
    ensures Usable(map[3 := t3], 3, balance, maxGas) == map[3 := t3]
    ensures Promotable(map[3 := t3], 3, balance, maxGas, 3) == map[3 := t3]
  {
    var q := map[3 := t3];
    assert AtLeast(q, 3) == q && UnpayableIn(q, balance, maxGas) == map[] && Usable(q, 3, balance, maxGas) == q;
    assert 3 in q && 4 !in q && MinKey(q) == 3;
    assert RunEnd(q, 3) == RunEnd(q, 4) == 4;
    assert Below(q, 4) == q;
  }
}
