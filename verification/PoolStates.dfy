/** What each operation does to the pool, and what holds over a run of them. */
module PoolStates {
  import opened Transactions
  import opened NonceMaps
  import opened TxLists
  import opened TxLookups
  import opened HeapEntries
  import opened PoolLists
  import opened PoolSteps
  import opened PoolPasses
  import opened WaterLevel
  import opened QueueLimit
  import opened PoolAdditions
  import opened Reinjection
  import Chains

  /** What a new head brings: its state, gas limit and fork rules, the transactions
      of abandoned blocks, and the base fee of the block after it. If the way to the new
      head or its state cannot be found it is not followed. */
  datatype Reset = Reset(
    followed: bool, state: ChainState, maxGas: nat, forks: Forks, reinject: seq<Tx>, baseFee: Option<nat>)

  /** A move of the head: the stored blocks, both heads, whether the state of the new one
      can be opened, what it holds, and the base fee of the block after it. */
  datatype Move = Move(
    store: set<Chains.Header>, oldHead: Chains.BlockHash, newHead: Chains.Header, opens: bool,
    state: ChainState, gasLimit: nat, rules: Forks, baseFee: Option<nat>)

  /** Everything that can happen to the pool, each step under its lock. */
  datatype PoolOp =
    | AddTx(tx: Tx, local: bool)
    | Promote(dirty: set<Address>)
    | MoveHead(move: Move)
    | RaisePrice(price: nat)
    | Expire(time: nat)

  /** What a decision means for the pool. */
  function ResetFor(d: Decision, m: Move): Reset
    requires !d.Panic?
  {
    Reset(d.PutBack? && m.opens, m.state, m.gasLimit, m.rules, if d.PutBack? then d.txs else [], m.baseFee)
  }

  /** The move takes these abandoned transactions back. */
  ghost predicate Returns(m: Move, txs: seq<Tx>) {
    m.opens && Decided(m.store, m.oldHead, m.newHead, PutBack(txs))
  }

  ghost predicate Reinjects(op: PoolOp) {
    op.MoveHead? && exists txs :: Returns(op.move, txs) && txs != []
  }

  lemma ResetReturns(m: Move, d: Decision)
    requires Decided(m.store, m.oldHead, m.newHead, d) && !d.Panic?
    ensures var reset := ResetFor(d, m);
      (reset.followed ==> Returns(m, reset.reinject)) && reset.baseFee == m.baseFee
  {
  }

  function TermsOf(c: Config, s: Snapshot): Terms {
    Terms(s.state.nonce, s.state.balance, s.maxGas, s.locals, c.accountQueue, s.now)
  }

  /** Everything in the lookup was there before, on the same side. */
  ghost predicate SameSides(s: Snapshot, s': Snapshot) {
    forall h :: h in s'.all ==> h in s.all && s'.all[h] == s.all[h] && (h in s'.remotes <==> h in s.remotes)
  }

  /** Transactions only went, and no entry of the price heaps came out of nowhere. */
  ghost predicate OnlyDrops(s: Snapshot, s': Snapshot) {
    SameSides(s, s') && Stocked(s.remotes, s.urgent, s.floating, multiset{}, s'.urgent, s'.floating)
  }

  function FileOf(s: Snapshot): File { File(s.all, s.remotes, s.urgent, s.floating) }

  lemma FiledDrops(s: Snapshot, s': Snapshot, file: File)
    requires file == FileOf(s) && InFile(s'.all, s'.remotes, s'.urgent, s'.floating, file)
    ensures OnlyDrops(s, s')
  {
    assert HeapKey(0);
  }

  lemma DropsTwice(s: Snapshot, t: Snapshot, s': Snapshot)
    requires OnlyDrops(s, t) && OnlyDrops(t, s') && t.remotes.Keys <= t.all.Keys
    ensures OnlyDrops(s, s')
  {
    StockedTwice(s.remotes, s.urgent, s.floating, multiset{}, t.remotes, t.urgent, t.floating, multiset{},
                 s'.urgent, s'.floating);
  }

  lemma DropsKeepUnique(s: Snapshot, s': Snapshot)
    requires OnlyDrops(s, s') && UniqueIn(s) && s'.remotes.Keys <= s'.all.Keys
    ensures UniqueIn(s')
  {
    UniqueLasts(s.remotes, s.urgent, s.floating, multiset{}, s'.remotes, s'.urgent, s'.floating);
  }

  /** The stages of a reorganisation: reinjection, promotion, demotion, and the two cuts. */
  datatype Stages = Stages(steps: seq<Snapshot>, promoted: View, settled: View, level: nat)

  /** The pool once it has switched to a new head. */
  function Switched(s: Snapshot, reset: Reset): Snapshot {
    s.(state := reset.state, maxGas := reset.maxGas, view := s.view.(nonces := map[]))
  }

  /** The states of a reinjection, if there is one. */
  ghost predicate Reinjected(c: Config, s: Snapshot, reset: Reset, steps: seq<Snapshot>) {
    if reset.followed then AddChain(c, reset.reinject, steps) && steps[0] == Switched(s, reset) else steps == [s]
  }

  /** What a reset does to the lists. The pending lists come out as intervals if and only
      if every account settles. */
  ghost predicate Followed(c: Config, s: Snapshot, reset: Reset, steps: seq<Snapshot>, promoted: View, settled: View,
                           t: Terms) {
    forall k {:trigger StateKey(k)} :: StateKey(k) ==>
      && |steps| > 0
      && Reinjected(c, s, reset, steps)
      && Passed(t, steps[|steps| - 1].view, promoted, settled)
  }

  /** Promotion and demotion of all accounts. */
  ghost predicate Passed(t: Terms, start: View, promoted: View, settled: View) {
    forall k {:trigger StateKey(k)} :: StateKey(k) ==>
      && PromotionPass(t, start, promoted, start.queue.Keys) && DemotionPass(t, promoted, settled, {})
      && settled.nonces == Refreshed(settled.pending) && Cleared(t, settled.pending)
      && (NoncesOk(settled, t.nonce) <==> forall a :: WillSettle(t, start, a))
  }

  lemma WasPassed(t: Terms, content: Content, start: View, promoted: View, demoted: View, settled: View)
    requires PoolInv(content, promoted.pending, promoted.queue) && NoEmptyList(settled.pending)
    requires PromotionPass(t, start, promoted, start.queue.Keys) && DemotionPass(t, promoted, demoted, {})
    requires settled == demoted.(nonces := Refreshed(demoted.pending)) && Cleared(t, settled.pending)
    ensures Passed(t, start, promoted, settled)
  {
    DemotionIgnoresNonces(t, promoted, demoted, {}, settled);
    ResetSettlesIff(t, content, start, promoted, settled);
  }

  lemma PassedSettles(t: Terms, start: View, promoted: View, settled: View)
    requires Passed(t, start, promoted, settled) && forall a :: WillSettle(t, start, a)
    ensures NoncesOk(settled, t.nonce)
  {
    assert StateKey(0);
  }

  /** The two cuts and what they leave: pending transactions within the limit or within
      the guaranteed slots of each remote account, queued ones within the limit or local.
      The pool nonce of an account goes down to the lowest pending nonce that it lost. */
  ghost predicate CutDown(c: Config, v: View, level: nat, chain: Address -> nat, locals: set<Address>, v': View) {
    forall k {:trigger StateKey(k)} :: StateKey(k) ==>
      && AtLevel(v.pending, v'.pending, locals, level, c.globalSlots) && level >= c.accountSlots
      && (|| Total(v'.pending) <= c.globalSlots
          || forall a :: a in v'.pending && a !in locals ==> |v'.pending[a]| <= c.accountSlots)
      && Shed(v.queue, v'.queue, locals, v.beats) && v'.beats == Hushed(v.beats, v.queue, v'.queue)
      && (Total(v.queue) <= c.globalQueue ==> v'.queue == v.queue)
      && (Total(v.queue) > c.globalQueue ==>
            || Total(v'.queue) == c.globalQueue
            || (Total(v'.queue) > c.globalQueue && forall a :: a in v'.queue ==> a in locals))
      && NoncesCut(v, v', chain) && (NoncesOk(v, chain) ==> NoncesOk(v', chain))
  }

  lemma WasCutDown(c: Config, v: View, w: View, level: nat, chain: Address -> nat, locals: set<Address>, v': View)
    requires AtLevel(v.pending, w.pending, locals, level, c.globalSlots) && level >= c.accountSlots
    requires (Total(w.pending) <= c.globalSlots || level == c.accountSlots) && NoncesCut(v, w, chain)
    requires w.queue == v.queue && w.beats == v.beats && v'.pending == w.pending && v'.nonces == w.nonces
    requires Shed(w.queue, v'.queue, locals, w.beats) && v'.beats == Hushed(w.beats, w.queue, v'.queue)
    requires Total(w.queue) <= c.globalQueue ==> v'.queue == w.queue
    requires Total(w.queue) > c.globalQueue ==>
      || Total(v'.queue) == c.globalQueue
      || (Total(v'.queue) > c.globalQueue && forall a :: a in v'.queue ==> a in locals)
    requires NoncesOk(w, chain) ==> NoncesOk(v', chain)
    ensures CutDown(c, v, level, chain, locals, v')
  {
    LimitsHold(v.pending, w.pending, locals, level, c.globalSlots, c.accountSlots);
    if NoncesOk(v, chain) { LevelKeepsNonces(v, w, chain, locals, level, c.globalSlots); }
    CutSame(v, w, v', chain);
  }

  /** The part of a reorganisation before the cuts. */
  ghost predicate Advanced(c: Config, s: Snapshot, reset: Option<Reset>, dirty: set<Address>, steps: seq<Snapshot>,
                           promoted: View, settled: View, t: Terms) {
    if reset.Some? then Followed(c, s, reset.value, steps, promoted, settled, t)
    else PromotionPass(t, s.view, promoted, dirty) && settled == promoted && steps == [s]
  }

  /** A whole reorganisation, stage by stage. After a reset every pending list starts at
      the chain nonce and can be paid, and if that brings a base fee the price heaps hold
      no live transaction twice. */
  ghost predicate Reorganised(c: Config, s: Snapshot, reset: Option<Reset>, dirty: set<Address>, g: Stages,
                              s': Snapshot) {
    forall k {:trigger StateKey(k)} :: StateKey(k) ==>
      && Rehomed(s, reset, s') && s'.changes == 0
      && Advanced(c, s, reset, dirty, g.steps, g.promoted, g.settled, TermsOf(c, s'))
      && (reset.Some? ==> Cleared(TermsOf(c, s'), s'.view.pending))
      && |g.steps| > 0 && OnlyDrops(g.steps[|g.steps| - 1], s')
      && (reset.Some? && reset.value.baseFee.Some? ==> UniqueIn(s'))
      && CutDown(c, g.settled, g.level, s'.state.nonce, s'.locals, s'.view)
  }

  lemma WasReorganised(c: Config, s: Snapshot, reset: Option<Reset>, dirty: set<Address>, g: Stages, mid: Snapshot,
                       t: Terms, s': Snapshot)
    requires Rehomed(s, reset, mid) && SameHead(mid, s') && s'.locals == mid.locals
    requires s'.changes == 0 && t == TermsOf(c, mid)
    requires Advanced(c, s, reset, dirty, g.steps, g.promoted, g.settled, t)
    requires reset.Some? ==> Cleared(t, s'.view.pending)
    requires |g.steps| > 0 && OnlyDrops(g.steps[|g.steps| - 1], s')
    requires reset.Some? && reset.value.baseFee.Some? ==> UniqueIn(s')
    requires CutDown(c, g.settled, g.level, s'.state.nonce, s'.locals, s'.view)
    ensures Reorganised(c, s, reset, dirty, g, s')
  {
  }

  /** What a reorganisation makes of the head. */
  ghost predicate Rehomed(s: Snapshot, reset: Option<Reset>, s': Snapshot) {
    && s'.gasPrice == s.gasPrice && s'.now == s.now && s'.locals == s.locals
    && (if reset.Some? && reset.value.followed
        then s'.state == reset.value.state && s'.maxGas == reset.value.maxGas && s'.forks == reset.value.forks
        else s'.state == s.state && s'.maxGas == s.maxGas && s'.forks == s.forks)
    && s'.baseFee == if reset.Some? && reset.value.baseFee.Some? then reset.value.baseFee else s.baseFee
  }

  /** A remote account with queued transactions that was not heard of for too long. */
  predicate Expired(c: Config, s: Snapshot, a: Address) {
    a in s.view.queue && a !in s.locals && (a !in s.view.beats || s.now - s.view.beats[a] > c.lifetime)
  }

  /** What each operation does. */
  ghost predicate StepRel(c: Config, s: Snapshot, op: PoolOp, s': Snapshot) {
    forall k {:trigger StateKey(k)} :: StateKey(k) ==> Does(c, s, op, s')
  }

  ghost predicate Does(c: Config, s: Snapshot, op: PoolOp, s': Snapshot) {
    match op
    case AddTx(tx, local) => Added(c, s, tx, local, s')
    case Promote(dirty) => exists g :: Reorganised(c, s, None, dirty, g, s')
    case MoveHead(m) => exists d, g :: Moved(c, s, m, d, g, s')
    case RaisePrice(price) => exists dropped :: Repriced(s, price, dropped, s')
    case Expire(time) =>
      && SameHead(s.(now := time), s') && s'.locals == s.locals && s'.changes == s.changes && OnlyDrops(s, s')
      && s'.view.pending == s.view.pending && s'.view.nonces == s.view.nonces
      && (forall a :: At(s'.view.queue, a) == if Expired(c, s.(now := time), a) then map[] else At(s.view.queue, a))
      && s'.view.beats == Hushed(s.view.beats, s.view.queue, s'.view.queue)
  }

  /** A move of the head: what is put back is what the walk over both branches decides. A
      missing new block makes it panic before anything is changed. */
  ghost predicate Moved(c: Config, s: Snapshot, m: Move, d: Decision, g: Stages, s': Snapshot) {
    && Decided(m.store, m.oldHead, m.newHead, d)
    && if d.Panic? then s' == s else Reorganised(c, s, Some(ResetFor(d, m)), {}, g, s')
  }

  lemma WasExpired(c: Config, s: Snapshot, time: nat, t: Snapshot, s': Snapshot)
    requires t == s.(now := time) && SameHead(t, s') && s'.locals == s.locals && s'.changes == s.changes
    requires OnlyDrops(s, s')
    requires s'.view.pending == s.view.pending && s'.view.nonces == s.view.nonces
    requires forall a :: At(s'.view.queue, a) == if Expired(c, t, a) then map[] else At(s.view.queue, a)
    requires s'.view.beats == Hushed(s.view.beats, s.view.queue, s'.view.queue)
    ensures Does(c, s, Expire(time), s')
  {
  }

  /** A higher minimum tip drops, in some order, the remote transactions that tip less. */
  ghost predicate Repriced(s: Snapshot, price: nat, dropped: seq<Tx>, s': Snapshot) {
    && SameHead(s.(gasPrice := price), s') && s'.locals == s.locals && s'.changes == s.changes
    && HashSet(dropped) == (if price > s.gasPrice then BelowTip(s.remotes, price).Keys else {})
    && s'.all == s.all - HashSet(dropped) && s'.remotes == s.remotes - HashSet(dropped)
    && s'.view == Removals(s.view, s.state.nonce, s.now, s.all, dropped)
    && Stocked(s.remotes, s.urgent, s.floating, multiset{}, s'.urgent, s'.floating)
  }

  lemma NothingRepriced(s: Snapshot, price: nat, s': Snapshot)
    requires s' == s.(gasPrice := price) && price <= s.gasPrice
    ensures Repriced(s, price, [], s')
  {
    assert HashSet([]) == {};
    assert s.all - {} == s.all && s.remotes - {} == s.remotes;
    StockedSame(s.remotes, s.urgent, s.floating);
  }

  // ----- batches

  /** The first transactions of a batch: their answers, what each did, and the accounts
      that gained one. */
  ghost predicate Batch(c: Config, txs: seq<Tx>, local: bool, errs: seq<Option<PoolError>>, swapped: seq<bool>,
                        dirty: set<Address>, steps: seq<Snapshot>) {
    forall k {:trigger StateKey(k)} :: StateKey(k) ==>
      && |errs| == |swapped| <= |txs| && |steps| == |errs| + 1
      && (forall i :: 0 <= i < |errs| ==> AddRel(c, steps[i], txs[i], local, swapped[i], errs[i], steps[i + 1]))
      && (forall a :: a in dirty <==> Gained(txs, errs, swapped, a))
  }

  lemma BatchStep(c: Config, txs: seq<Tx>, local: bool, errs: seq<Option<PoolError>>, swapped: seq<bool>,
                  before: set<Address>,
                  steps: seq<Snapshot>, err: Option<PoolError>, replaced: bool, dirty: set<Address>, s': Snapshot)
    requires Batch(c, txs, local, errs, swapped, before, steps) && |errs| < |txs| && |steps| > 0
    requires AddRel(c, steps[|steps| - 1], txs[|errs|], local, replaced, err, s')
    requires dirty == Dirtied(before, txs[|errs|], err, replaced)
    ensures Batch(c, txs, local, errs + [err], swapped + [replaced], dirty, steps + [s'])
  {
    assert StateKey(0);
    DirtyStep(txs, errs, swapped, err, replaced, before, dirty);
    BatchRels(c, txs, local, errs, swapped, steps, err, replaced, s');
  }

  lemma BatchRels(c: Config, txs: seq<Tx>, local: bool, errs: seq<Option<PoolError>>, swapped: seq<bool>,
                  steps: seq<Snapshot>, err: Option<PoolError>, replaced: bool, s': Snapshot)
    requires |errs| == |swapped| < |txs| && |steps| == |errs| + 1
    requires forall i :: 0 <= i < |errs| ==> AddRel(c, steps[i], txs[i], local, swapped[i], errs[i], steps[i + 1])
    requires AddRel(c, steps[|errs|], txs[|errs|], local, replaced, err, s')
    ensures forall i :: 0 <= i < |errs| + 1 ==>
      AddRel(c, (steps + [s'])[i], txs[i], local, (swapped + [replaced])[i], (errs + [err])[i], (steps + [s'])[i + 1])
  {
    forall i | 0 <= i < |errs| + 1
      ensures AddRel(c, (steps + [s'])[i], txs[i], local, (swapped + [replaced])[i], (errs + [err])[i],
                     (steps + [s'])[i + 1])
    {
      if i < |errs| { assert AddRel(c, steps[i], txs[i], local, swapped[i], errs[i], steps[i + 1]); }
    }
  }

  lemma BatchMeans(c: Config, txs: seq<Tx>, local: bool, errs: seq<Option<PoolError>>, swapped: seq<bool>,
                   dirty: set<Address>, steps: seq<Snapshot>)
    requires Batch(c, txs, local, errs, swapped, dirty, steps) && |errs| == |txs|
    ensures |errs| == |swapped| && |steps| == |errs| + 1
    ensures forall i :: 0 <= i < |txs| ==> AddRel(c, steps[i], txs[i], local, swapped[i], errs[i], steps[i + 1])
    ensures forall a :: a in dirty <==> Gained(txs, errs, swapped, a)
  {
    assert StateKey(0);
  }

  /** One of the transactions was taken for the account without replacing another. */
  ghost predicate Gained(txs: seq<Tx>, errs: seq<Option<PoolError>>, swapped: seq<bool>, a: Address)
    requires |errs| == |swapped| <= |txs|
  {
    exists i :: 0 <= i < |errs| && errs[i].None? && !swapped[i] && txs[i].sender == Some(a)
  }

  function Dirtied(dirty: set<Address>, tx: Tx, err: Option<PoolError>, replaced: bool): set<Address> {
    if err.None? && !replaced && tx.sender.Some? then dirty + {tx.sender.value} else dirty
  }

  lemma DirtyStep(txs: seq<Tx>, errs: seq<Option<PoolError>>, swapped: seq<bool>, err: Option<PoolError>,
                  replaced: bool, before: set<Address>, dirty: set<Address>)
    requires |errs| == |swapped| < |txs| && dirty == Dirtied(before, txs[|errs|], err, replaced)
    requires forall a :: a in before <==> Gained(txs, errs, swapped, a)
    ensures forall a :: a in dirty <==> Gained(txs, errs + [err], swapped + [replaced], a)
  {
    var errs', swapped', n := errs + [err], swapped + [replaced], |errs|;
    forall a | a in dirty ensures Gained(txs, errs', swapped', a) {
      if a in before {
        var j :| 0 <= j < n && errs[j].None? && !swapped[j] && txs[j].sender == Some(a);
        assert errs'[j].None? && !swapped'[j];
      } else {
        assert errs'[n].None? && !swapped'[n];
      }
    }
    forall a | Gained(txs, errs', swapped', a) ensures a in dirty {
      var j :| 0 <= j < n + 1 && errs'[j].None? && !swapped'[j] && txs[j].sender == Some(a);
      if j < n {
        assert errs[j].None? && !swapped[j];
        assert Gained(txs, errs, swapped, a);
      }
    }
  }

  lemma BatchIsChain(c: Config, txs: seq<Tx>, steps: seq<Snapshot>, errs: seq<Option<PoolError>>, swapped: seq<bool>)
    requires |errs| == |txs| == |swapped| && |steps| == |txs| + 1
    requires forall i :: 0 <= i < |txs| ==> AddRel(c, steps[i], txs[i], false, swapped[i], errs[i], steps[i + 1])
    ensures AddChain(c, txs, steps)
  {
    forall i | 0 <= i < |txs| ensures Added(c, steps[i], txs[i], false, steps[i + 1]) {
      assert AddRel(c, steps[i], txs[i], false, swapped[i], errs[i], steps[i + 1]);
    }
  }

  /** A batch of remote transactions leaves head and local accounts alone. */
  lemma {:induction false} ChainKeeps(c: Config, txs: seq<Tx>, steps: seq<Snapshot>, n: nat)
    requires AddChain(c, txs, steps) && n <= |txs|
    ensures SameHead(steps[0], steps[n]) && steps[n].locals == steps[0].locals
    ensures Separated(steps[0]) ==> Separated(steps[n])
  {
    if n > 0 {
      ChainKeeps(c, txs, steps, n - 1);
      assert Added(c, steps[n - 1], txs[n - 1], false, steps[n - 1 + 1]);
      RemoteKeeps(c, steps[n - 1], txs[n - 1], steps[n]);
    }
  }

  lemma RemoteKeeps(c: Config, s: Snapshot, tx: Tx, s': Snapshot)
    requires Added(c, s, tx, false, s')
    ensures SameHead(s, s') && s'.locals == s.locals && (Separated(s) ==> Separated(s'))
  {
    var replaced, err :| AddRel(c, s, tx, false, replaced, err, s');
    if Separated(s) { AdditionSeparates(c, s, tx, false, replaced, err, s'); }
    assert AddsTo(c, s, tx, false, replaced, err, s') by { assert StateKey(0); }
  }

  // ----- local and remote transactions

  /** The remote part of a lookup. */
  ghost predicate LookupOk(s: Snapshot) {
    forall h :: h in s.remotes ==> s.remotes[h].hash == h && Holds(s.all, s.remotes[h])
  }

  lemma SidesSeparate(s: Snapshot, s': Snapshot)
    requires Separated(s) && SameSides(s, s') && LookupOk(s') && s'.locals == s.locals
    ensures Separated(s')
  {
    forall h | h in s'.remotes ensures !FromAccount(s'.remotes[h], s'.locals) {
      assert h in s'.all && h in s.remotes;
      assert s.remotes[h].hash == h && s'.remotes[h].hash == h;
    }
  }

  /** Every operation keeps the accounts that are local out of the remote transactions. */
  lemma StepSeparates(c: Config, s: Snapshot, op: PoolOp, s': Snapshot)
    requires Separated(s) && StepRel(c, s, op, s') && LookupOk(s')
    ensures Separated(s')
  {
    assert Does(c, s, op, s') by { assert StateKey(0); }
    match op
    case AddTx(tx, local) =>
      var replaced, err :| AddRel(c, s, tx, local, replaced, err, s');
      AdditionSeparates(c, s, tx, local, replaced, err, s');
    case Promote(dirty) =>
      var g :| Reorganised(c, s, None, dirty, g, s');
      ReorganisationSeparates(c, s, None, dirty, g, s');
    case MoveHead(m) =>
      var d, g :| Moved(c, s, m, d, g, s');
      if !d.Panic? { ReorganisationSeparates(c, s, Some(ResetFor(d, m)), {}, g, s'); }
    case RaisePrice(price) =>
    case Expire(_) => SidesSeparate(s, s');
  }

  lemma ReorganisationSeparates(c: Config, s: Snapshot, reset: Option<Reset>, dirty: set<Address>, g: Stages,
                                s': Snapshot)
    requires Separated(s) && Reorganised(c, s, reset, dirty, g, s') && LookupOk(s')
    ensures Separated(s')
  {
    assert Rehomed(s, reset, s') && |g.steps| > 0 && OnlyDrops(g.steps[|g.steps| - 1], s')
      && Advanced(c, s, reset, dirty, g.steps, g.promoted, g.settled, TermsOf(c, s')) by { assert StateKey(0); }
    if reset.Some? {
      FollowedSteps(c, s, reset.value, g.steps, g.promoted, g.settled, TermsOf(c, s'));
      StepsSeparate(c, s, reset.value, g.steps, s');
    } else {
      SidesSeparate(s, s');
    }
  }

  lemma FollowedSteps(c: Config, s: Snapshot, reset: Reset, steps: seq<Snapshot>, promoted: View, settled: View,
                      t: Terms)
    requires Followed(c, s, reset, steps, promoted, settled, t)
    ensures Reinjected(c, s, reset, steps)
  {
    assert StateKey(0);
  }

  lemma StepsSeparate(c: Config, s: Snapshot, reset: Reset, steps: seq<Snapshot>, s': Snapshot)
    requires Separated(s) && s'.locals == s.locals && LookupOk(s')
    requires Reinjected(c, s, reset, steps) && SameSides(steps[|steps| - 1], s')
    ensures Separated(s')
  {
    if reset.followed { ChainKeeps(c, reset.reinject, steps, |reset.reinject|); }
    SidesSeparate(steps[|steps| - 1], s');
  }

  /** No transaction of a local account is ever evicted, priced out or expired: but for a
      reorganisation only one with the same nonce makes it go. */
  lemma StepSparesLocals(c: Config, s: Snapshot, op: PoolOp, s': Snapshot, h: Hash)
    requires Sound(s) && Sound(s') && StepRel(c, s, op, s') && !op.Promote? && !op.MoveHead?
    requires h in s.all && FromAccount(s.all[h], s.locals)
    ensures h in s'.all || (op.AddTx? && s.all[h].sender == op.tx.sender && s.all[h].nonce == op.tx.nonce)
  {
    assert Does(c, s, op, s') && Separated(s) by { assert StateKey(0); }
    match op
    case AddTx(tx, local) =>
      var replaced, err :| AddRel(c, s, tx, local, replaced, err, s');
      AdditionSparesLocals(c, s, tx, local, replaced, err, s', h);
    case RaisePrice(price) =>
      var dropped :| Repriced(s, price, dropped, s');
      PricingSparesLocals(s, price, dropped, s', h);
    case Expire(time) => ExpirySparesLocals(c, s, time, s', h);
  }

  lemma PricingSparesLocals(s: Snapshot, price: nat, dropped: seq<Tx>, s': Snapshot, h: Hash)
    requires Sound(s) && Repriced(s, price, dropped, s') && h in s.all && FromAccount(s.all[h], s.locals)
    ensures h in s'.all
  {
    assert Separated(s) && PoolInv(s.all, s.view.pending, s.view.queue) by { assert StateKey(0); }
    Account(s.all, s.view.pending, s.view.queue, 0);
    assert h !in s.remotes;
  }

  lemma ExpirySparesLocals(c: Config, s: Snapshot, time: nat, s': Snapshot, h: Hash)
    requires Sound(s) && Sound(s') && Does(c, s, Expire(time), s') && h in s.all && FromAccount(s.all[h], s.locals)
    ensures h in s'.all
  {
    assert PoolInv(s.all, s.view.pending, s.view.queue) && PoolInv(s'.all, s'.view.pending, s'.view.queue) by {
      assert StateKey(0);
    }
    var tx := s.all[h];
    var a := tx.sender.value;
    Account(s.all, s.view.pending, s.view.queue, a);
    Account(s'.all, s'.view.pending, s'.view.queue, a);
    assert At(s'.view.queue, a) == At(s.view.queue, a) && At(s'.view.pending, a) == At(s.view.pending, a);
    assert Holds(s.all, tx);
  }

  /** A reorganisation that takes nothing back keeps the intervals. */
  lemma ReorganisedKeepsAligned(c: Config, s: Snapshot, reset: Option<Reset>, dirty: set<Address>, g: Stages,
                                s': Snapshot)
    requires Reorganised(c, s, reset, dirty, g, s') && AlignedIn(s)
    requires reset.Some? && reset.value.followed ==> reset.value.reinject == []
    ensures AlignedIn(s')
  {
    var t := TermsOf(c, s');
    assert Rehomed(s, reset, s') && Advanced(c, s, reset, dirty, g.steps, g.promoted, g.settled, t) by {
      assert StateKey(0);
    }
    if reset.None? {
      PassKeepsNonces(t, s.view, g.promoted, dirty);
    } else {
      FollowedAligns(c, s, reset.value, g.steps, g.promoted, g.settled, t);
    }
    assert StateKey(0);
  }

  lemma MovedKeepsAligned(c: Config, s: Snapshot, m: Move, d: Decision, g: Stages, s': Snapshot)
    requires Moved(c, s, m, d, g, s') && AlignedIn(s) && !Reinjects(MoveHead(m))
    ensures AlignedIn(s')
  {
    if !d.Panic? {
      ResetReturns(m, d);
      ReorganisedKeepsAligned(c, s, Some(ResetFor(d, m)), {}, g, s');
    }
  }

  lemma FollowedAligns(c: Config, s: Snapshot, reset: Reset, steps: seq<Snapshot>, promoted: View, settled: View,
                       t: Terms)
    requires Followed(c, s, reset, steps, promoted, settled, t) && AlignedIn(s)
    requires if reset.followed then reset.reinject == [] else t.nonce == s.state.nonce
    ensures NoncesOk(settled, t.nonce)
  {
    var start := FollowedFrom(c, s, reset, steps, promoted, settled, t);
    AllSettle(t, start, s.view, s.state.nonce, reset.followed);
    PassedSettles(t, start, promoted, settled);
  }

  /** Where promotion starts from if nothing is put back. */
  lemma FollowedFrom(c: Config, s: Snapshot, reset: Reset, steps: seq<Snapshot>, promoted: View, settled: View,
                     t: Terms) returns (start: View)
    requires Followed(c, s, reset, steps, promoted, settled, t) && (reset.followed ==> reset.reinject == [])
    ensures start == if reset.followed then s.view.(nonces := map[]) else s.view
    ensures Passed(t, start, promoted, settled)
  {
    assert |steps| > 0 && Passed(t, steps[|steps| - 1].view, promoted, settled)
      && (if reset.followed then |steps| == 1 && steps[0] == Switched(s, reset) else steps == [s]) by {
      assert StateKey(0);
    }
    start := steps[|steps| - 1].view;
  }

  /** How a gap comes about in a reorganisation: nonce 5 was pending right at the chain
      nonce; the new head is back at nonce 3, the abandoned transaction with that nonce is
      queued again, and the one with nonce 4 is refused because it tips too little. */
  lemma GapRun(c: Config, s: Snapshot, reset: Reset, steps: seq<Snapshot>, a: Address, t3: Tx, t4: Tx, t5: Tx, t: Terms)
    requires s.state.nonce(a) == 5 && At(s.view.pending, a) == map[5 := t5] && At(s.view.queue, a) == map[]
    requires s.view.nonces == map[a := 6] && a !in s.locals
    requires reset.followed && reset.reinject == [t3, t4] && reset.state.nonce(a) == 3
    requires AddChain(c, reset.reinject, steps) && steps[0] == Switched(s, reset)
    requires t3.sender == Some(a) && t3.nonce == 3 && t3.hash !in s.all && t4.sender == Some(a) && t4.hash !in s.all
    requires t3 != t4
    requires Admissible(steps[0], t3, false) && Fits(c, steps[0], t3) && t4.gasTipCap < s.gasPrice
    requires t == TermsOf(c, steps[2]) && !Unpayable(t3, t.balance(a), t.maxGas)
    requires !Unpayable(t5, t.balance(a), t.maxGas)
    ensures NoncesOf(s.view, s.state.nonce, a) && PendingOf(t, steps[2].view, a) == map[3 := t3, 5 := t5]
    ensures !WillSettle(t, steps[2].view, a)
  {
    assert Added(c, steps[0], t3, false, steps[1]) && Added(c, steps[1], t4, false, steps[2]) by {
      assert reset.reinject[0] == t3 && reset.reinject[1] == t4;
    }
    OneQueued(c, steps[0], t3, a, steps[1]);
    OneRefused(c, steps[1], t4, steps[2]);
    GapIsReached(t, s.view, s.state.nonce, steps[2].view, a, t3, t5);
  }

  lemma OneQueued(c: Config, s: Snapshot, tx: Tx, a: Address, s': Snapshot)
    requires Added(c, s, tx, false, s') && tx.sender == Some(a) && a !in s.locals && tx.hash !in s.all
    requires Admissible(s, tx, false) && Fits(c, s, tx) && tx.nonce !in At(s.view.pending, a)
    requires At(s.view.queue, a) == map[]
    ensures SameHead(s, s') && s'.locals == s.locals && s'.all == s.all[tx.hash := tx]
    ensures s'.view.pending == s.view.pending && s'.view.nonces == s.view.nonces
    ensures At(s'.view.queue, a) == map[tx.nonce := tx]
  {
    var replaced, err :| AddRel(c, s, tx, false, replaced, err, s');
    assert AddsTo(c, s, tx, false, replaced, err, s') by { assert StateKey(0); }
    OtherLists(s.view.queue, a, map[tx.nonce := tx], a);
  }

  lemma OneRefused(c: Config, s: Snapshot, tx: Tx, s': Snapshot)
    requires Added(c, s, tx, false, s') && tx.hash !in s.all && !FromAccount(tx, s.locals) && tx.gasTipCap < s.gasPrice
    ensures s' == s
  {
    var replaced, err :| AddRel(c, s, tx, false, replaced, err, s');
    assert AddsTo(c, s, tx, false, replaced, err, s') by { assert StateKey(0); }
    assert Violates(s, tx, false, Underpriced);
  }

  /** The states of the first operations: each step does what its operation says, every
      state is sound, and the nonce intervals last unless abandoned transactions come back. */
  ghost predicate History(c: Config, ops: seq<PoolOp>, states: seq<Snapshot>) {
    forall k {:trigger StateKey(k)} :: StateKey(k) ==>
      && 0 < |states| <= |ops| + 1
      && (forall k :: 0 <= k < |states| - 1 ==> StepRel(c, states[k], ops[k], states[k + 1]))
      && (forall k :: 0 <= k < |states| ==> Sound(states[k]))
      && (forall k :: 0 <= k < |states| - 1 ==> KeepsAligned(states[k], ops[k], states[k + 1]))
  }

  ghost predicate KeepsAligned(s: Snapshot, op: PoolOp, s': Snapshot) {
    AlignedIn(s) && !Reinjects(op) ==> AlignedIn(s')
  }

  lemma HistoryStarts(c: Config, ops: seq<PoolOp>, s: Snapshot)
    requires Sound(s)
    ensures History(c, ops, [s])
  {
  }

  lemma HistoryStep(c: Config, ops: seq<PoolOp>, states: seq<Snapshot>, s: Snapshot, more: seq<Snapshot>)
    requires History(c, ops, states) && 0 < |states| <= |ops| && Sound(s) && more == states + [s]
    requires StepRel(c, states[|states| - 1], ops[|states| - 1], s)
    requires KeepsAligned(states[|states| - 1], ops[|states| - 1], s)
    ensures History(c, ops, more)
  {
    forall k | 0 <= k < |more|
      ensures Sound(more[k])
      ensures k < |more| - 1 ==>
        StepRel(c, more[k], ops[k], more[k + 1]) && KeepsAligned(more[k], ops[k], more[k + 1])
    {
      MoreAt(c, ops, states, s, more, k);
    }
  }

  lemma MoreAt(c: Config, ops: seq<PoolOp>, states: seq<Snapshot>, s: Snapshot, more: seq<Snapshot>, k: nat)
    requires History(c, ops, states) && 0 < |states| <= |ops| && Sound(s) && more == states + [s] && k < |more|
    requires StepRel(c, states[|states| - 1], ops[|states| - 1], s)
    requires KeepsAligned(states[|states| - 1], ops[|states| - 1], s)
    ensures Sound(more[k])
    ensures k < |more| - 1 ==>
      StepRel(c, more[k], ops[k], more[k + 1]) && KeepsAligned(more[k], ops[k], more[k + 1])
  {
    SnocAt(states, s, k);
    if k < |states| {
      HistoryAt(c, ops, states, k);
      SnocAt(states, s, k + 1);
    }
  }

  lemma SnocAt<T>(s: seq<T>, x: T, k: nat)
    requires k <= |s|
    ensures (s + [x])[k] == if k < |s| then s[k] else x
  {
  }

  lemma HistorySeparates(c: Config, ops: seq<PoolOp>, states: seq<Snapshot>, op: PoolOp, s: Snapshot)
    requires History(c, ops, states) && |states| > 0 && StepRel(c, states[|states| - 1], op, s) && LookupOk(s)
    ensures Separated(s)
  {
    HistoryAt(c, ops, states, |states| - 1);
    assert Separated(states[|states| - 1]) by { assert StateKey(0); }
    StepSeparates(c, states[|states| - 1], op, s);
  }

  lemma HistoryAt(c: Config, ops: seq<PoolOp>, states: seq<Snapshot>, k: nat)
    requires History(c, ops, states) && k < |states|
    ensures Sound(states[k]) && |states| <= |ops| + 1
    ensures k + 1 < |states| ==>
      StepRel(c, states[k], ops[k], states[k + 1]) && KeepsAligned(states[k], ops[k], states[k + 1])
  {
    assert StateKey(0);
  }

  lemma HistoryMeans(c: Config, ops: seq<PoolOp>, states: seq<Snapshot>)
    requires History(c, ops, states) && |states| == |ops| + 1
    ensures forall k :: 0 <= k < |ops| ==> StepRel(c, states[k], ops[k], states[k + 1])
    ensures forall k :: 0 <= k <= |ops| ==> Sound(states[k])
    ensures forall k :: 0 <= k < |ops| ==> KeepsAligned(states[k], ops[k], states[k + 1])
  {
    assert StateKey(0);
  }

  /** From an aligned state on, until abandoned transactions come back. */
  lemma {:induction false} StaysAligned(ops: seq<PoolOp>, states: seq<Snapshot>, from: nat, k: nat)
    requires |states| == |ops| + 1 && from <= k <= |ops| && AlignedIn(states[from])
    requires forall j :: 0 <= j < |ops| ==> KeepsAligned(states[j], ops[j], states[j + 1])
    requires forall j :: from <= j < k ==> !Reinjects(ops[j])
    ensures AlignedIn(states[k])
    decreases k
  {
    if from < k {
      StaysAligned(ops, states, from, k - 1);
      assert KeepsAligned(states[k - 1], ops[k - 1], states[k - 1 + 1]);
    }
  }

  /** With nothing put back, every account settles. */
  lemma AllSettle(t: Terms, start: View, before: View, was: Address -> nat, moved: bool)
    requires NoncesOk(before, was) && (!moved ==> t.nonce == was)
    requires start == if moved then before.(nonces := map[]) else before
    ensures forall a :: WillSettle(t, start, a)
  {
    forall a ensures WillSettle(t, start, a) {
      assert NoncesOf(before, was, a);
      if moved { UntouchedSettles(t, start, before, was, a); } else { UnmovedSettles(t, start, a); }
    }
  }
}
