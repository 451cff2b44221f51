/** What holds in every state of every run of the pool, besides the partition: what remote
    transactions tip, that no nonce is used up, and that queued accounts have a heartbeat. */
module PoolRuns {
  import opened Transactions
  import opened NonceMaps
  import opened TxLists
  import opened TxLookups
  import opened HeapEntries
  import opened PoolLists
  import opened PoolSteps
  import opened PoolPasses
  import opened WaterLevel
  import opened QueueLimit
  import opened PoolAdditions
  import opened PoolStates
  import opened PoolCapacity
  import opened Reinjection

  // ----- what promotion and demotion keep and drop

  /** Promotion leaves in the queue of an account only what can still be executed, no more
      than the limit if the account is remote. It drops only what is old, cannot be paid, or
      is beyond the limit. */
  lemma PromotionKeeps(t: Terms, v: View, w: View, done: set<Address>, a: Address)
    requires PromotionPass(t, v, w, done) && a in done
    ensures forall n :: n in At(w.queue, a) ==>
      && n in At(v.queue, a) && At(w.queue, a)[n] == At(v.queue, a)[n]
      && n >= t.nonce(a) && !Unpayable(At(w.queue, a)[n], t.balance(a), t.maxGas)
    ensures a !in t.locals ==> |At(w.queue, a)| <= t.limit
    ensures forall n :: n in At(v.queue, a) && n !in At(w.queue, a) && n !in At(w.pending, a) ==>
      || n < t.nonce(a) || Unpayable(At(v.queue, a)[n], t.balance(a), t.maxGas)
      || (a !in t.locals && |At(w.queue, a)| == t.limit && forall m :: m in At(w.queue, a) ==> m < n)
  {
    assert PromotedAt(t, v, w, a) by { assert PassKey(0); }
    var usable, run, kept := PromotionOf(t, v, w, a);
    var q, chain, balance, local := At(v.queue, a), t.nonce(a), t.balance(a), a in t.locals;
    CappedSize(usable - run.Keys, local, t.limit);
    forall n: nat
      ensures n in kept ==> n in q && kept[n] == q[n] && n >= chain && !Unpayable(kept[n], balance, t.maxGas)
      ensures n in q && n !in kept && n !in run ==>
        || n < chain || Unpayable(q[n], balance, t.maxGas)
        || (!local && |kept| == t.limit && forall m :: m in kept ==> m < n)
    {
      PromotedParts(q, chain, balance, t.maxGas, local, t.limit, usable, run, kept, n);
    }
  }

  /** An account that promotion promotes and leaves with a queue is heard of now. */
  lemma PromotionRefreshes(t: Terms, v: View, w: View, done: set<Address>, a: Address)
    requires PromotionPass(t, v, w, done) && a in done
    requires At(w.pending, a) != At(v.pending, a) && At(w.queue, a) != map[]
    ensures BeatAt(w.beats, a) == Some(t.now)
  {
    PromotionKeeps(t, v, w, done, a);
    assert PromotedAt(t, v, w, a) by { assert PassKey(0); }
    var usable, run, kept := PromotionOf(t, v, w, a);
    assert run == map[] ==> At(v.pending, a) + run == At(v.pending, a);
    var n :| n in kept;
    assert n in At(v.queue, a);
  }

  lemma PromotedParts(q: NonceMap, chain: nat, balance: nat, maxGas: nat, local: bool, limit: nat, usable: NonceMap,
                      run: NonceMap, kept: NonceMap, n: nat)
    requires usable == AtLeast(q, chain) - UnpayableIn(AtLeast(q, chain), balance, maxGas).Keys
    requires kept == Capped(usable - run.Keys, local, limit)
    ensures n in kept ==> n in q && kept[n] == q[n] && n >= chain && !Unpayable(kept[n], balance, maxGas)
    ensures n in q && n !in kept && n !in run ==>
      || n < chain || Unpayable(q[n], balance, maxGas)
      || (!local && |kept| == limit && forall m :: m in kept ==> m < n)
  {
    CappedSize(usable - run.Keys, local, limit);
    UsableAt(q, chain, balance, maxGas, usable, n);
  }

  lemma CappedSize(q: NonceMap, local: bool, limit: nat)
    ensures var kept := Capped(q, local, limit);
      && Initial(kept, q) && (!local ==> |kept| <= limit)
      && (forall n :: n in q && n !in kept ==> !local && |kept| == limit && forall m :: m in kept ==> m < n)
  {
    if !local { LowestIsInitial(q, limit); }
  }

  lemma UsableAt(q: NonceMap, chain: nat, balance: nat, maxGas: nat, usable: NonceMap, n: nat)
    requires usable == AtLeast(q, chain) - UnpayableIn(AtLeast(q, chain), balance, maxGas).Keys
    ensures n in usable <==> n in q && n >= chain && !Unpayable(q[n], balance, maxGas)
    ensures n in usable ==> usable[n] == q[n]
  {
  }

  lemma PromotionOf(t: Terms, v: View, w: View, a: Address) returns (usable: NonceMap, run: NonceMap, kept: NonceMap)
    requires PromotedAt(t, v, w, a)
    ensures usable == AtLeast(At(v.queue, a), t.nonce(a))
                      - UnpayableIn(AtLeast(At(v.queue, a), t.nonce(a)), t.balance(a), t.maxGas).Keys
    ensures kept == Capped(usable - run.Keys, a in t.locals, t.limit)
    ensures At(w.pending, a) == At(v.pending, a) + run && At(w.queue, a) == kept
    ensures BeatAt(w.beats, a) == PromotedBeat(BeatAt(v.beats, a), At(v.queue, a), run, kept, t.now)
  {
    usable, run, kept :|
      && Promotes(At(v.queue, a), t.nonce(a), t.balance(a), t.maxGas, PoolNonceOf(t, v, a), a in t.locals, t.limit,
                  usable, run, kept)
      && At(w.pending, a) == At(v.pending, a) + run && At(w.queue, a) == kept
      && PoolNonceOf(t, w, a) == NextNonce(run, PoolNonceOf(t, v, a))
      && BeatAt(w.beats, a) == PromotedBeat(BeatAt(v.beats, a), At(v.queue, a), run, kept, t.now);
    assert Key(0);
  }

  /** Demotion drops from the pending list only what is old or cannot be paid; all else stays
      or goes back to the queue. */
  lemma DemotionKeeps(t: Terms, v: View, w: View, a: Address)
    requires DemotionPass(t, v, w, {})
    ensures forall n :: n in At(v.pending, a) && n !in At(w.pending, a) && n !in At(w.queue, a) ==>
      n < t.nonce(a) || Unpayable(At(v.pending, a)[n], t.balance(a), t.maxGas)
    ensures forall n :: n in At(w.queue, a) && n !in At(v.queue, a) ==>
      n in At(v.pending, a) && n >= t.nonce(a) && At(w.queue, a)[n] == At(v.pending, a)[n]
    ensures At(w.queue, a) != map[] && At(v.queue, a) == map[] ==> a in w.beats
    ensures a in v.beats ==> a in w.beats
  {
    assert DemotedAt(t, v, w, a) by { assert PassKey(0); }
    var current, unpayable, stay, back :|
      && Demotes(At(v.pending, a), t.nonce(a), t.balance(a), t.maxGas, current, unpayable, stay, back)
      && At(w.pending, a) == stay && At(w.queue, a) == At(v.queue, a) + back
      && BeatAt(w.beats, a) == DemotedBeat(BeatAt(v.beats, a), back, t.now);
    forall n: nat ensures n in At(v.pending, a) && n !in stay && n !in back ==>
               n < t.nonce(a) || Unpayable(At(v.pending, a)[n], t.balance(a), t.maxGas)
      ensures n in back ==> n in At(v.pending, a) && n >= t.nonce(a) && back[n] == At(v.pending, a)[n]
    {
      DemotedParts(At(v.pending, a), t.nonce(a), t.balance(a), t.maxGas, current, unpayable, stay, back, n);
    }
  }

  lemma DemotedParts(p: NonceMap, chain: nat, balance: nat, maxGas: nat, current: NonceMap, unpayable: NonceMap,
                     stay: NonceMap, back: NonceMap, n: nat)
    requires Demotes(p, chain, balance, maxGas, current, unpayable, stay, back)
    ensures n in p && n !in stay && n !in back ==> n < chain || Unpayable(p[n], balance, maxGas)
    ensures n in back ==> n in p && n >= chain && back[n] == p[n]
  {
    assert Key(0);
    FilterPartitions(current, unpayable, true);
    var kept, stranded := Kept(current, unpayable, true), Stranded(current, unpayable, true);
    assert current == unpayable + stranded + kept;
  }

  // ----- tips

  /** Every remote transaction tips at least the minimum. */
  ghost predicate Tipped(s: Snapshot) {
    forall h :: h in s.remotes ==> s.remotes[h].gasTipCap >= s.gasPrice
  }

  lemma AdditionTipped(c: Config, s: Snapshot, tx: Tx, local: bool, replaced: bool, err: Option<PoolError>,
                       s': Snapshot)
    requires Tipped(s) && AddRel(c, s, tx, local, replaced, err, s')
    ensures Tipped(s') && s'.gasPrice == s.gasPrice
  {
    assert AddsTo(c, s, tx, local, replaced, err, s') by { assert StateKey(0); }
    var isLocal := IsLocal(s, tx, local);
    if tx.hash !in s.all && Admissible(s, tx, isLocal) {
      assert !Violates(s, tx, isLocal, Underpriced);
      AdmissionTipped(c, s, tx, local, replaced, err, s');
    }
  }

  lemma AdmissionTipped(c: Config, s: Snapshot, tx: Tx, local: bool, replaced: bool, err: Option<PoolError>,
                        s': Snapshot)
    requires Tipped(s) && tx.sender.Some? && Admitted(c, s, tx, local, replaced, err, s')
    requires IsLocal(s, tx, local) || tx.gasTipCap >= s.gasPrice
    ensures Tipped(s') && s'.gasPrice == s.gasPrice
  {
    var isLocal := IsLocal(s, tx, local);
    if RoomError(c, s, tx, isLocal).None? {
      var dropped, mid :| Roomed(c, s, tx, isLocal, dropped, mid)
        && Taken(c, mid, tx, tx.sender.value, local, replaced, err, s');
      RoomTipped(c, s, tx, isLocal, dropped, mid);
      TakenTipped(c, mid, tx, tx.sender.value, local, replaced, err, s');
    }
  }

  lemma RoomTipped(c: Config, s: Snapshot, tx: Tx, isLocal: bool, dropped: seq<Tx>, mid: Snapshot)
    requires Tipped(s) && Roomed(c, s, tx, isLocal, dropped, mid)
    ensures Tipped(mid) && mid.gasPrice == s.gasPrice && mid.locals == s.locals
  {
  }

  lemma TakenTipped(c: Config, s: Snapshot, tx: Tx, a: Address, local: bool, replaced: bool, err: Option<PoolError>,
                    s': Snapshot)
    requires tx.sender == Some(a) && Taken(c, s, tx, a, local, replaced, err, s') && Tipped(s)
    requires IsLocal(s, tx, local) || tx.gasTipCap >= s.gasPrice
    ensures Tipped(s') && s'.gasPrice == s.gasPrice
  {
    if Wins(c, s, tx) {
      var prior := Slot(s.view.pending, s.view.queue, a, tx.nonce);
      var locals := LocalsAfter(s.locals, s.view, a, tx, local);
      forall h | h in s'.remotes ensures s'.remotes[h].gasTipCap >= s'.gasPrice {
        RemotesAfterMeans(s.remotes, prior, tx, IsLocal(s, tx, local), locals, s.locals, h);
      }
    }
  }

  lemma {:induction false} ChainTipped(c: Config, txs: seq<Tx>, steps: seq<Snapshot>, n: nat)
    requires AddChain(c, txs, steps) && n <= |txs| && Tipped(steps[0])
    ensures Tipped(steps[n]) && steps[n].gasPrice == steps[0].gasPrice
  {
    if n > 0 {
      var last := n - 1;
      ChainTipped(c, txs, steps, last);
      assert Added(c, steps[last], txs[last], false, steps[last + 1]);
      var replaced, err :| AddRel(c, steps[last], txs[last], false, replaced, err, steps[n]);
      AdditionTipped(c, steps[last], txs[last], false, replaced, err, steps[n]);
    }
  }

  lemma DropsTipped(s: Snapshot, s': Snapshot)
    requires Tipped(s) && Separated(s) && Separated(s') && OnlyDrops(s, s') && s'.gasPrice == s.gasPrice
    ensures Tipped(s')
  {
    forall h | h in s'.remotes ensures s'.remotes[h].gasTipCap >= s'.gasPrice {
      assert h in s'.all && h in s.remotes && s.remotes[h] == s'.remotes[h];
    }
  }

  lemma ReorganisationTipped(c: Config, s: Snapshot, reset: Option<Reset>, dirty: set<Address>, g: Stages, s': Snapshot)
    requires Tipped(s) && Reorganised(c, s, reset, dirty, g, s') && Separated(s) && Separated(s')
    ensures Tipped(s')
  {
    assert Rehomed(s, reset, s') && |g.steps| > 0 && OnlyDrops(g.steps[|g.steps| - 1], s')
      && Advanced(c, s, reset, dirty, g.steps, g.promoted, g.settled, TermsOf(c, s')) by { assert StateKey(0); }
    if reset.Some? {
      FollowedSteps(c, s, reset.value, g.steps, g.promoted, g.settled, TermsOf(c, s'));
      if reset.value.followed {
        ChainTipped(c, reset.value.reinject, g.steps, |reset.value.reinject|);
        ChainKeeps(c, reset.value.reinject, g.steps, |reset.value.reinject|);
      }
    }
    DropsTipped(g.steps[|g.steps| - 1], s');
  }

  lemma StepTipped(c: Config, s: Snapshot, op: PoolOp, s': Snapshot)
    requires Tipped(s) && StepRel(c, s, op, s') && Separated(s) && Separated(s')
    ensures Tipped(s')
  {
    assert Does(c, s, op, s') by { assert StateKey(0); }
    match op
    case AddTx(tx, local) =>
      var replaced, err :| AddRel(c, s, tx, local, replaced, err, s');
      AdditionTipped(c, s, tx, local, replaced, err, s');
    case Promote(dirty) =>
      var g :| Reorganised(c, s, None, dirty, g, s');
      ReorganisationTipped(c, s, None, dirty, g, s');
    case MoveHead(m) =>
      var d, g :| Moved(c, s, m, d, g, s');
      if !d.Panic? { ReorganisationTipped(c, s, Some(ResetFor(d, m)), {}, g, s'); }
    case RaisePrice(price) =>
    case Expire(_) => DropsTipped(s, s');
  }

  // ----- used up nonces

  /** No transaction has a nonce that its account has used already. */
  ghost predicate Current(s: Snapshot) {
    forall h :: h in s.all && s.all[h].sender.Some? ==> s.all[h].nonce >= s.state.nonce(s.all[h].sender.value)
  }

  lemma AdditionCurrent(c: Config, s: Snapshot, tx: Tx, local: bool, replaced: bool, err: Option<PoolError>,
                        s': Snapshot)
    requires Current(s) && Sound(s) && AddRel(c, s, tx, local, replaced, err, s')
    ensures Current(s')
  {
    AdditionAdds(c, s, tx, local, replaced, err, s');
    assert AddsTo(c, s, tx, local, replaced, err, s') by { assert StateKey(0); }
    if err.None? { assert !Violates(s, tx, IsLocal(s, tx, local), NonceTooLow); }
    AdditionSeparates(c, s, tx, local, replaced, err, s') by { SoundLookup(s); }
  }

  /** After a reset: pending lists start at the chain nonce, and queues were promoted. */
  lemma ResetIsCurrent(c: Config, s: Snapshot, reset: Reset, g: Stages, s': Snapshot)
    requires Reorganised(c, s, Some(reset), {}, g, s') && Sound(s')
    ensures Current(s')
  {
    var t := TermsOf(c, s');
    assert Cleared(t, s'.view.pending) && CutDown(c, g.settled, g.level, s'.state.nonce, s'.locals, s'.view)
      && Followed(c, s, reset, g.steps, g.promoted, g.settled, t)
      && PoolInv(s'.all, s'.view.pending, s'.view.queue) by { assert StateKey(0); }
    var start := PassedBy(c, s, reset, g, t);
    assert Shed(g.settled.queue, s'.view.queue, s'.locals, g.settled.beats) by { assert StateKey(0); }
    forall h | h in s'.all && s'.all[h].sender.Some? ensures s'.all[h].nonce >= t.nonce(s'.all[h].sender.value) {
      Account(s'.all, s'.view.pending, s'.view.queue, 0);
      Located(s'.all, s'.view.pending, s'.view.queue, s'.all[h]);
      ListedIsCurrent(t, start, g.promoted, g.settled, s'.view, s'.locals, s'.all[h]);
    }
  }

  lemma PassedBy(c: Config, s: Snapshot, reset: Reset, g: Stages, t: Terms) returns (start: View)
    requires Followed(c, s, reset, g.steps, g.promoted, g.settled, t)
    ensures |g.steps| > 0 && start == g.steps[|g.steps| - 1].view
    ensures PromotionPass(t, start, g.promoted, start.queue.Keys) && DemotionPass(t, g.promoted, g.settled, {})
  {
    assert |g.steps| > 0 && Passed(t, g.steps[|g.steps| - 1].view, g.promoted, g.settled) by { assert StateKey(0); }
    start := g.steps[|g.steps| - 1].view;
    assert StateKey(0);
  }

  lemma ListedIsCurrent(t: Terms, start: View, promoted: View, settled: View, v: View, locals: set<Address>, tx: Tx)
    requires PromotionPass(t, start, promoted, start.queue.Keys) && DemotionPass(t, promoted, settled, {})
    requires Cleared(t, v.pending) && Shed(settled.queue, v.queue, locals, settled.beats) && tx.sender.Some?
    requires tx.nonce in At(v.pending, tx.sender.value) || tx.nonce in At(v.queue, tx.sender.value)
    ensures tx.nonce >= t.nonce(tx.sender.value)
  {
    var a, n := tx.sender.value, tx.nonce;
    if n in At(v.pending, a) {
      assert PassKey(0);
      assert Executable(t, a, v.pending[a]);
    } else {
      assert Initial(At(v.queue, a), settled.queue[a]);
      assert n in At(settled.queue, a);
      DemotionKeeps(t, promoted, settled, a);
      if n in At(promoted.queue, a) { QueueIsCurrent(t, start, promoted, a, n); }
    }
  }

  lemma QueueIsCurrent(t: Terms, start: View, promoted: View, a: Address, n: nat)
    requires PromotionPass(t, start, promoted, start.queue.Keys) && n in At(promoted.queue, a)
    ensures n >= t.nonce(a)
  {
    if a in start.queue {
      PromotionKeeps(t, start, promoted, start.queue.Keys, a);
    } else {
      assert SameAt(t, start, promoted, a) by { assert PassKey(0); }
    }
  }

  lemma StepCurrent(c: Config, s: Snapshot, op: PoolOp, s': Snapshot)
    requires Current(s) && StepRel(c, s, op, s') && Sound(s) && Sound(s')
    ensures Current(s')
  {
    assert Does(c, s, op, s') by { assert StateKey(0); }
    match op
    case AddTx(tx, local) =>
      var replaced, err :| AddRel(c, s, tx, local, replaced, err, s');
      AdditionCurrent(c, s, tx, local, replaced, err, s');
    case Promote(dirty) =>
      var g :| Reorganised(c, s, None, dirty, g, s');
      assert Rehomed(s, None, s') && g.steps == [s] && OnlyDrops(s, s') by { assert StateKey(0); }
    case MoveHead(m) =>
      var d, g :| Moved(c, s, m, d, g, s');
      if !d.Panic? { ResetIsCurrent(c, s, ResetFor(d, m), g, s'); }
    case RaisePrice(price) =>
    case Expire(_) =>
  }

  // ----- heartbeats

  /** Every account with queued transactions was heard of. */
  ghost predicate Heard(v: View) {
    forall a :: At(v.queue, a) != map[] ==> a in v.beats
  }

  lemma RemovalHeard(v: View, chain: Address -> nat, now: nat, tx: Tx)
    requires Heard(v)
    ensures Heard(Removal(v, chain, now, tx))
  {
    if tx.sender.Some? {
      var a := tx.sender.value;
      var q, tail := At(v.queue, a), AtLeast(At(v.pending, a), tx.nonce + 1);
      assert tail == map[] ==> q + tail == q;
      forall b ensures b == a || (At(With(v.queue, a, q + tail), b) == At(v.queue, b)
                                  && At(With(v.queue, a, q - {tx.nonce}), b) == At(v.queue, b))
      {
        OtherLists(v.queue, a, q + tail, b);
        OtherLists(v.queue, a, q - {tx.nonce}, b);
      }
    }
  }

  lemma {:induction false} RemovalsHeard(v: View, chain: Address -> nat, now: nat, all: Content, txs: seq<Tx>)
    requires Heard(v)
    ensures Heard(Removals(v, chain, now, all, txs))
  {
    if txs != [] {
      var front, last := txs[..|txs| - 1], txs[|txs| - 1];
      RemovalsHeard(v, chain, now, all, front);
      if last.hash in all { RemovalHeard(Removals(v, chain, now, all, front), chain, now, all[last.hash]); }
    }
  }

  lemma SeatedHeard(v: View, a: Address, tx: Tx, now: nat)
    requires Heard(v)
    ensures Heard(Seated(v, a, tx, now))
  {
    forall b { OtherLists(v.queue, a, At(v.queue, a)[tx.nonce := tx], b); }
  }

  lemma AdditionHeard(c: Config, s: Snapshot, tx: Tx, local: bool, replaced: bool, err: Option<PoolError>, s': Snapshot)
    requires Heard(s.view) && AddRel(c, s, tx, local, replaced, err, s')
    ensures Heard(s'.view)
  {
    assert AddsTo(c, s, tx, local, replaced, err, s') by { assert StateKey(0); }
    if s'.view != s.view { AdmissionHeard(c, s, tx, local, replaced, err, s'); }
  }

  lemma AdmissionHeard(c: Config, s: Snapshot, tx: Tx, local: bool, replaced: bool, err: Option<PoolError>,
                       s': Snapshot)
    requires Heard(s.view) && tx.sender.Some? && Admitted(c, s, tx, local, replaced, err, s')
    ensures Heard(s'.view)
  {
    var isLocal := IsLocal(s, tx, local);
    if RoomError(c, s, tx, isLocal).None? {
      var dropped, mid :| Roomed(c, s, tx, isLocal, dropped, mid)
        && Taken(c, mid, tx, tx.sender.value, local, replaced, err, s');
      RemovalsHeard(s.view, s.state.nonce, s.now, s.all, dropped);
      SeatedHeard(mid.view, tx.sender.value, tx, mid.now);
    }
  }

  lemma {:induction false} ChainHeard(c: Config, txs: seq<Tx>, steps: seq<Snapshot>, n: nat)
    requires AddChain(c, txs, steps) && n <= |txs| && Heard(steps[0].view)
    ensures Heard(steps[n].view)
  {
    if n > 0 {
      var last := n - 1;
      ChainHeard(c, txs, steps, last);
      assert Added(c, steps[last], txs[last], false, steps[last + 1]);
      var replaced, err :| AddRel(c, steps[last], txs[last], false, replaced, err, steps[n]);
      AdditionHeard(c, steps[last], txs[last], false, replaced, err, steps[n]);
    }
  }

  lemma PromotionHeard(t: Terms, v: View, w: View, done: set<Address>)
    requires Heard(v) && PromotionPass(t, v, w, done)
    ensures Heard(w)
  {
    forall a | At(w.queue, a) != map[] ensures a in w.beats {
      if a in done {
        PromotionKeeps(t, v, w, done, a);
        assert PromotedAt(t, v, w, a) by { assert PassKey(0); }
        var usable, run, kept := PromotionOf(t, v, w, a);
        var n :| n in kept;
        assert At(v.queue, a) != map[];
      } else {
        assert SameAt(t, v, w, a) by { assert PassKey(0); }
      }
    }
  }

  lemma DemotionHeard(t: Terms, v: View, w: View)
    requires Heard(v) && DemotionPass(t, v, w, {})
    ensures Heard(w)
  {
    forall a | At(w.queue, a) != map[] ensures a in w.beats { DemotionKeeps(t, v, w, a); }
  }

  lemma ShedHeard(v: View, locals: set<Address>, v': View)
    requires Heard(v) && Shed(v.queue, v'.queue, locals, v.beats) && v'.beats == Hushed(v.beats, v.queue, v'.queue)
    ensures Heard(v')
  {
    forall a | At(v'.queue, a) != map[] ensures a in v'.beats {
      assert a in v.queue && Initial(At(v'.queue, a), v.queue[a]);
    }
  }

  lemma ReorganisationHeard(c: Config, s: Snapshot, reset: Option<Reset>, dirty: set<Address>, g: Stages, s': Snapshot)
    requires Heard(s.view) && Reorganised(c, s, reset, dirty, g, s')
    ensures Heard(s'.view)
  {
    var t := TermsOf(c, s');
    assert Advanced(c, s, reset, dirty, g.steps, g.promoted, g.settled, t)
      && CutDown(c, g.settled, g.level, s'.state.nonce, s'.locals, s'.view) by { assert StateKey(0); }
    assert Heard(g.settled) by { AdvanceHeard(c, s, reset, dirty, g, t); }
    assert Shed(g.settled.queue, s'.view.queue, s'.locals, g.settled.beats)
      && s'.view.beats == Hushed(g.settled.beats, g.settled.queue, s'.view.queue) by { assert StateKey(0); }
    ShedHeard(g.settled, s'.locals, s'.view);
  }

  lemma AdvanceHeard(c: Config, s: Snapshot, reset: Option<Reset>, dirty: set<Address>, g: Stages, t: Terms)
    requires Heard(s.view) && Advanced(c, s, reset, dirty, g.steps, g.promoted, g.settled, t)
    ensures Heard(g.settled)
  {
    if reset.None? {
      PromotionHeard(t, s.view, g.promoted, dirty);
    } else {
      FollowedSteps(c, s, reset.value, g.steps, g.promoted, g.settled, t);
      var start := PassedBy(c, s, reset.value, g, t);
      if reset.value.followed { ChainHeard(c, reset.value.reinject, g.steps, |reset.value.reinject|); }
      PromotionHeard(t, start, g.promoted, start.queue.Keys);
      DemotionHeard(t, g.promoted, g.settled);
    }
  }

  lemma StepHeard(c: Config, s: Snapshot, op: PoolOp, s': Snapshot)
    requires Heard(s.view) && StepRel(c, s, op, s')
    ensures Heard(s'.view)
  {
    assert Does(c, s, op, s') by { assert StateKey(0); }
    match op
    case AddTx(tx, local) =>
      var replaced, err :| AddRel(c, s, tx, local, replaced, err, s');
      AdditionHeard(c, s, tx, local, replaced, err, s');
    case Promote(dirty) =>
      var g :| Reorganised(c, s, None, dirty, g, s');
      ReorganisationHeard(c, s, None, dirty, g, s');
    case MoveHead(m) =>
      var d, g :| Moved(c, s, m, d, g, s');
      if !d.Panic? { ReorganisationHeard(c, s, Some(ResetFor(d, m)), {}, g, s'); }
    case RaisePrice(price) =>
      var dropped :| Repriced(s, price, dropped, s');
      RemovalsHeard(s.view, s.state.nonce, s.now, s.all, dropped);
    case Expire(time) =>
      forall a | At(s'.view.queue, a) != map[] ensures a in s'.view.beats {
        assert At(s'.view.queue, a) == At(s.view.queue, a);
      }
  }

  /** Whoever has lost the last queued transaction has lost the heartbeat: no account without
      a queue has one that had none, or had a queue. */
  ghost predicate Silent(v: View, w: View) {
    forall a :: At(w.queue, a) == map[] && a in w.beats ==> At(v.queue, a) == map[] && a in v.beats
  }

  lemma SilentTwice(v: View, w: View, x: View)
    requires Silent(v, w) && Silent(w, x)
    ensures Silent(v, x)
  {
  }

  lemma RemovalSilences(v: View, chain: Address -> nat, now: nat, tx: Tx)
    requires NoEmptyList(v.queue)
    ensures Silent(v, Removal(v, chain, now, tx)) && NoEmptyList(Removal(v, chain, now, tx).queue)
  {
    if tx.sender.Some? {
      var a := tx.sender.value;
      var q, tail := At(v.queue, a), AtLeast(At(v.pending, a), tx.nonce + 1);
      if tx.nonce in At(v.pending, a) {
        assert tail == map[] ==> q + tail == q;
        if q + tail == map[] { EmptySum(q, tail); }
        forall b { OtherLists(v.queue, a, q + tail, b); }
      } else {
        HushedSilences(v, TakeView(v, a, tx.nonce));
      }
    }
  }

  lemma {:induction false} RemovalsSilence(v: View, chain: Address -> nat, now: nat, all: Content, txs: seq<Tx>)
    requires NoEmptyList(v.queue)
    ensures Silent(v, Removals(v, chain, now, all, txs)) && NoEmptyList(Removals(v, chain, now, all, txs).queue)
  {
    if txs != [] {
      var front, last := txs[..|txs| - 1], txs[|txs| - 1];
      var w := Removals(v, chain, now, all, front);
      RemovalsSilence(v, chain, now, all, front);
      if last.hash in all && last.hash !in HashSet(front) {
        RemovalSilences(w, chain, now, all[last.hash]);
        SilentTwice(v, w, Removal(w, chain, now, all[last.hash]));
      }
    }
  }

  lemma PromotionSilences(t: Terms, v: View, w: View, done: set<Address>)
    requires PromotionPass(t, v, w, done)
    ensures Silent(v, w)
  {
    forall a | At(w.queue, a) == map[] && a in w.beats ensures At(v.queue, a) == map[] && a in v.beats {
      if a in done {
        assert PromotedAt(t, v, w, a) by { assert PassKey(0); }
        var usable, run, kept := PromotionOf(t, v, w, a);
      } else {
        assert SameAt(t, v, w, a) by { assert PassKey(0); }
      }
    }
  }

  lemma DemotionSilences(t: Terms, v: View, w: View)
    requires DemotionPass(t, v, w, {})
    ensures Silent(v, w)
  {
    forall a | At(w.queue, a) == map[] && a in w.beats ensures At(v.queue, a) == map[] && a in v.beats {
      assert DemotedAt(t, v, w, a) by { assert PassKey(0); }
      var current, unpayable, stay, back :|
        && Demotes(At(v.pending, a), t.nonce(a), t.balance(a), t.maxGas, current, unpayable, stay, back)
        && At(w.pending, a) == stay && At(w.queue, a) == At(v.queue, a) + back
        && BeatAt(w.beats, a) == DemotedBeat(BeatAt(v.beats, a), back, t.now);
      EmptySum(At(v.queue, a), back);
    }
  }

  lemma EmptySum(q: NonceMap, more: NonceMap)
    requires q + more == map[]
    ensures q == map[] && more == map[]
  {
    assert q.Keys + more.Keys == (q + more).Keys;
  }

  lemma HushedSilences(v: View, w: View)
    requires NoEmptyList(v.queue) && NoEmptyList(w.queue) && w.beats == Hushed(v.beats, v.queue, w.queue)
    ensures Silent(v, w)
  {
  }

  /** So it is after every operation but an addition, which hears of an account when one of
      its pending transactions is replaced. */
  lemma StepSilences(c: Config, s: Snapshot, op: PoolOp, s': Snapshot)
    requires StepRel(c, s, op, s') && Sound(s) && Sound(s') && !op.AddTx? && !Reinjects(op)
    ensures Silent(s.view, s'.view)
  {
    assert Does(c, s, op, s') by { assert StateKey(0); }
    NoEmptyQueue(s);
    NoEmptyQueue(s');
    match op
    case Promote(dirty) =>
      var g :| Reorganised(c, s, None, dirty, g, s');
      ReorganisationSilences(c, s, None, dirty, g, s');
    case MoveHead(m) =>
      var d, g :| Moved(c, s, m, d, g, s');
      if !d.Panic? {
        ResetReturns(m, d);
        ReorganisationSilences(c, s, Some(ResetFor(d, m)), {}, g, s');
      }
    case RaisePrice(price) =>
      var dropped :| Repriced(s, price, dropped, s');
      RemovalsSilence(s.view, s.state.nonce, s.now, s.all, dropped);
    case Expire(_) => HushedSilences(s.view, s'.view);
  }

  lemma NoEmptyQueue(s: Snapshot)
    requires Sound(s)
    ensures NoEmptyList(s.view.queue)
  {
    assert PoolInv(s.all, s.view.pending, s.view.queue) by { assert StateKey(0); }
    Account(s.all, s.view.pending, s.view.queue, 0);
  }

  lemma ReorganisationSilences(c: Config, s: Snapshot, reset: Option<Reset>, dirty: set<Address>, g: Stages,
                               s': Snapshot)
    requires Reorganised(c, s, reset, dirty, g, s') && NoEmptyList(s'.view.queue)
    requires reset.Some? && reset.value.followed ==> reset.value.reinject == []
    ensures Silent(s.view, s'.view)
  {
    var t := TermsOf(c, s');
    assert Advanced(c, s, reset, dirty, g.steps, g.promoted, g.settled, t)
      && CutDown(c, g.settled, g.level, s'.state.nonce, s'.locals, s'.view) by { assert StateKey(0); }
    assert Shed(g.settled.queue, s'.view.queue, s'.locals, g.settled.beats)
      && s'.view.beats == Hushed(g.settled.beats, g.settled.queue, s'.view.queue) by { assert StateKey(0); }
    AdvanceSilences(c, s, reset, dirty, g, t);
    ShedSilences(g.settled, s'.locals, s'.view);
    SilentTwice(s.view, g.settled, s'.view);
  }

  lemma ShedSilences(v: View, locals: set<Address>, w: View)
    requires Shed(v.queue, w.queue, locals, v.beats) && w.beats == Hushed(v.beats, v.queue, w.queue)
    requires NoEmptyList(w.queue)
    ensures Silent(v, w)
  {
    forall a | At(w.queue, a) == map[] && a in w.beats ensures At(v.queue, a) == map[] && a in v.beats {
      assert a !in w.queue;
    }
  }

  lemma AdvanceSilences(c: Config, s: Snapshot, reset: Option<Reset>, dirty: set<Address>, g: Stages, t: Terms)
    requires Advanced(c, s, reset, dirty, g.steps, g.promoted, g.settled, t)
    requires reset.Some? && reset.value.followed ==> reset.value.reinject == []
    ensures Silent(s.view, g.settled)
  {
    if reset.None? {
      PromotionSilences(t, s.view, g.promoted, dirty);
    } else {
      FollowedSteps(c, s, reset.value, g.steps, g.promoted, g.settled, t);
      var start := PassedBy(c, s, reset.value, g, t);
      PromotionSilences(t, start, g.promoted, start.queue.Keys);
      DemotionSilences(t, g.promoted, g.settled);
      SilentTwice(start, g.promoted, g.settled);
      SilentTwice(s.view, start, g.settled);
    }
  }

  // ----- over runs

  /** In every state of a run from the creation of the pool: remote transactions tip at least
      the minimum, no nonce is used up, and queued accounts were heard of. */
  lemma {:induction false} RunKeeps(c: Config, ops: seq<PoolOp>, states: seq<Snapshot>, k: nat)
    requires IsRun(c, ops, states) && k <= |ops| && states[0].all == map[] && states[0].view.queue == map[]
    ensures Tipped(states[k]) && Current(states[k]) && Heard(states[k].view)
  {
    if k == 0 {
      SoundLookup(states[0]);
    } else {
      var last := k - 1;
      RunKeeps(c, ops, states, last);
      SoundLookup(states[last]);
      SoundLookup(states[last + 1]);
      StepTipped(c, states[last], ops[last], states[last + 1]);
      StepCurrent(c, states[last], ops[last], states[last + 1]);
      StepHeard(c, states[last], ops[last], states[last + 1]);
    }
  }
}
