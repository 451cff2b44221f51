/** When the pool stays within its capacity: as long as no transaction comes back while the
    price heaps still have an entry of it, and no local one is taken. */
module PoolCapacity {
  import opened Transactions
  import opened TxLookups
  import opened HeapEntries
  import opened PoolLists
  import opened PoolAdditions
  import opened PoolStates
  import opened Reinjection

  // ----- second entries

  /** The transaction is remote or has a left over entry. */
  ghost predicate Familiar(s: Snapshot, x: Tx) {
    x in s.urgent || x in s.floating || x.hash in s.remotes
  }

  /** Nothing in the list is familiar, or there twice. */
  ghost predicate AllNew(s: Snapshot, txs: seq<Tx>) {
    (forall x :: x in txs ==> !Familiar(s, x)) && forall i, j :: 0 <= i < j < |txs| ==> txs[i] != txs[j]
  }

  /** The operation brings back nothing that still has an entry in the price heaps. */
  ghost predicate Novel(s: Snapshot, op: PoolOp) {
    match op
    case AddTx(tx, local) => tx.hash in s.all || IsLocal(s, tx, local) || !Familiar(s, tx)
    case MoveHead(m) => forall txs :: Returns(m, txs) ==> AllNew(s, txs)
    case _ => true
  }

  /** The operation rebuilds the price heaps for a new base fee. */
  ghost predicate Reprices(op: PoolOp) {
    op.MoveHead? && op.move.baseFee.Some? && !Decided(op.move.store, op.move.oldHead, op.move.newHead, Panic)
  }

  lemma ThinningKeepsUnique(s: Snapshot, s': Snapshot, dropped: seq<Tx>)
    requires UniqueIn(s) && Thinned(s.urgent, s.floating, [], s'.urgent, s'.floating, dropped)
    requires s'.remotes.Keys <= s.remotes.Keys
    ensures UniqueIn(s') && forall x :: Familiar(s', x) ==> Familiar(s, x)
  {
    ThinnedIsStocked(s.remotes, s.urgent, s.floating, s'.urgent, s'.floating, dropped);
    UniqueLasts(s.remotes, s.urgent, s.floating, multiset{}, s'.remotes, s'.urgent, s'.floating);
    forall x | x in s'.urgent || x in s'.floating ensures Familiar(s, x) {
      EntryFrom(s.remotes, s.urgent, s.floating, multiset{}, s'.urgent, s'.floating, x);
    }
  }

  lemma TakingKeepsUnique(c: Config, s: Snapshot, tx: Tx, a: Address, local: bool, replaced: bool,
                          err: Option<PoolError>, s': Snapshot)
    requires tx.sender == Some(a) && Taken(c, s, tx, a, local, replaced, err, s')
    requires UniqueIn(s) && (IsLocal(s, tx, local) || !Familiar(s, tx))
    ensures UniqueIn(s') && forall x :: Familiar(s', x) ==> Familiar(s, x) || x == tx
  {
    if Wins(c, s, tx) {
      var added := Addition(tx, !IsLocal(s, tx, local));
      UniqueLasts(s.remotes, s.urgent, s.floating, added, s'.remotes, s'.urgent, s'.floating);
      forall x | x in s'.urgent || x in s'.floating ensures Familiar(s, x) || x == tx {
        EntryFrom(s.remotes, s.urgent, s.floating, added, s'.urgent, s'.floating, x);
      }
    }
  }

  /** An addition makes no second entry of a transaction that has none. */
  lemma AdditionKeepsUnique(c: Config, s: Snapshot, tx: Tx, local: bool, replaced: bool, err: Option<PoolError>,
                            s': Snapshot)
    requires AddRel(c, s, tx, local, replaced, err, s') && UniqueIn(s) && Novel(s, AddTx(tx, local))
    ensures UniqueIn(s') && forall x :: Familiar(s', x) ==> Familiar(s, x) || x == tx
  {
    assert AddsTo(c, s, tx, local, replaced, err, s') by { assert StateKey(0); }
    if s' != s { AdmissionKeepsUnique(c, s, tx, local, replaced, err, s'); }
  }

  lemma AdmissionKeepsUnique(c: Config, s: Snapshot, tx: Tx, local: bool, replaced: bool, err: Option<PoolError>,
                             s': Snapshot)
    requires tx.sender.Some? && Admitted(c, s, tx, local, replaced, err, s') && UniqueIn(s)
    requires IsLocal(s, tx, local) || !Familiar(s, tx)
    ensures UniqueIn(s') && forall x :: Familiar(s', x) ==> Familiar(s, x) || x == tx
  {
    var isLocal := IsLocal(s, tx, local);
    if RoomError(c, s, tx, isLocal).Some? {
      ThinningKeepsUnique(s, s', []);
    } else {
      var dropped, mid :| Roomed(c, s, tx, isLocal, dropped, mid)
        && Taken(c, mid, tx, tx.sender.value, local, replaced, err, s');
      RoomKeepsUnique(c, s, tx, isLocal, dropped, mid);
      TakingKeepsUnique(c, mid, tx, tx.sender.value, local, replaced, err, s');
    }
  }

  lemma RoomKeepsUnique(c: Config, s: Snapshot, tx: Tx, isLocal: bool, dropped: seq<Tx>, mid: Snapshot)
    requires UniqueIn(s) && Roomed(c, s, tx, isLocal, dropped, mid)
    ensures UniqueIn(mid) && mid.locals == s.locals && forall x :: Familiar(mid, x) ==> Familiar(s, x)
  {
    if !Fits(c, s, tx) { ThinningKeepsUnique(s, mid, dropped); }
  }

  /** A batch of new transactions makes no second entry. */
  lemma {:induction false} ChainKeepsUnique(c: Config, txs: seq<Tx>, steps: seq<Snapshot>, n: nat)
    requires AddChain(c, txs, steps) && n <= |txs| && UniqueIn(steps[0]) && AllNew(steps[0], txs)
    ensures UniqueIn(steps[n]) && forall x :: Familiar(steps[n], x) ==> Familiar(steps[0], x) || x in txs[..n]
    ensures n < |txs| ==> !Familiar(steps[n], txs[n])
  {
    if n > 0 {
      var last := n - 1;
      ChainKeepsUnique(c, txs, steps, last);
      assert Added(c, steps[last], txs[last], false, steps[last + 1]);
      var replaced, err :| AddRel(c, steps[last], txs[last], false, replaced, err, steps[n]);
      AdditionKeepsUnique(c, steps[last], txs[last], false, replaced, err, steps[n]);
      assert txs[..n] == txs[..last] + [txs[last]];
    }
  }

  lemma ReorganisationKeepsUnique(c: Config, s: Snapshot, reset: Option<Reset>, dirty: set<Address>, g: Stages,
                                  s': Snapshot)
    requires Reorganised(c, s, reset, dirty, g, s') && UniqueIn(s) && LookupOk(s')
    requires reset.Some? && reset.value.followed ==> AllNew(s, reset.value.reinject)
    ensures UniqueIn(s')
  {
    assert |g.steps| > 0 && OnlyDrops(g.steps[|g.steps| - 1], s')
      && Advanced(c, s, reset, dirty, g.steps, g.promoted, g.settled, TermsOf(c, s')) by { assert StateKey(0); }
    if reset.Some? {
      FollowedSteps(c, s, reset.value, g.steps, g.promoted, g.settled, TermsOf(c, s'));
      if reset.value.followed { ChainKeepsUnique(c, reset.value.reinject, g.steps, |reset.value.reinject|); }
    }
    DropsKeepUnique(g.steps[|g.steps| - 1], s');
  }

  lemma RepricedIsUnique(c: Config, s: Snapshot, reset: Reset, dirty: set<Address>, g: Stages, s': Snapshot)
    requires Reorganised(c, s, Some(reset), dirty, g, s') && reset.baseFee.Some?
    ensures UniqueIn(s')
  {
    assert StateKey(0);
  }

  /** No operation makes a second entry of a live transaction, unless it brings back one
      that still has an entry; a reset with a base fee leaves no second entries at all. */
  lemma StepKeepsUnique(c: Config, s: Snapshot, op: PoolOp, s': Snapshot)
    requires StepRel(c, s, op, s') && LookupOk(s') && ((UniqueIn(s) && Novel(s, op)) || Reprices(op))
    ensures UniqueIn(s')
  {
    assert Does(c, s, op, s') by { assert StateKey(0); }
    match op
    case AddTx(tx, local) =>
      var replaced, err :| AddRel(c, s, tx, local, replaced, err, s');
      AdditionKeepsUnique(c, s, tx, local, replaced, err, s');
    case Promote(dirty) =>
      var g :| Reorganised(c, s, None, dirty, g, s');
      ReorganisationKeepsUnique(c, s, None, dirty, g, s');
    case MoveHead(m) =>
      var d, g :| Moved(c, s, m, d, g, s');
      if !d.Panic? {
        ResetReturns(m, d);
        if m.baseFee.Some? { RepricedIsUnique(c, s, ResetFor(d, m), {}, g, s'); }
        else { ReorganisationKeepsUnique(c, s, Some(ResetFor(d, m)), {}, g, s'); }
      }
    case RaisePrice(price) =>
      var dropped :| Repriced(s, price, dropped, s');
      UniqueLasts(s.remotes, s.urgent, s.floating, multiset{}, s'.remotes, s'.urgent, s'.floating);
    case Expire(_) => DropsKeepUnique(s, s');
  }

  /** What a run of the pool gives. */
  ghost predicate IsRun(c: Config, ops: seq<PoolOp>, states: seq<Snapshot>) {
    && |states| == |ops| + 1
    && (forall k :: 0 <= k < |ops| ==> StepRel(c, states[k], ops[k], states[k + 1]))
    && (forall k :: 0 <= k <= |ops| ==> Sound(states[k]))
  }

  lemma SoundLookup(s: Snapshot)
    requires Sound(s)
    ensures LookupOk(s) && Separated(s) && s.slots == SlotSum(s.all)
  {
    assert StateKey(0);
  }

  /** From a state without second entries on, until a transaction comes back too early. */
  lemma {:induction false} StaysUnique(c: Config, ops: seq<PoolOp>, states: seq<Snapshot>, from: nat, k: nat)
    requires IsRun(c, ops, states) && from <= k <= |ops| && UniqueIn(states[from])
    requires forall j :: from <= j < k ==> Novel(states[j], ops[j]) || Reprices(ops[j])
    ensures UniqueIn(states[k])
    decreases k
  {
    if from < k {
      var last := k - 1;
      StaysUnique(c, ops, states, from, last);
      SoundLookup(states[last + 1]);
      StepKeepsUnique(c, states[last], ops[last], states[last + 1]);
    }
  }

  // ----- capacity

  function Capacity(c: Config): nat { c.globalSlots + c.globalQueue }

  /** It did not get fuller, or is within its capacity. */
  ghost predicate Bounded(c: Config, s: Snapshot, s': Snapshot) {
    s'.slots <= s.slots || s'.slots <= Capacity(c)
  }

  /** The operation adds local transactions. */
  ghost predicate AddsLocal(s: Snapshot, op: PoolOp) {
    match op
    case AddTx(tx, local) => IsLocal(s, tx, local)
    case MoveHead(m) => exists txs, x :: Returns(m, txs) && x in txs && FromAccount(x, s.locals)
    case _ => false
  }

  lemma PlacedSlots(all: Content, prior: Option<Tx>, tx: Tx)
    requires tx.hash !in all
    ensures SlotSum(Placed(all, prior, tx)) <= SlotSum(all) + NumSlots(tx)
  {
    var rest := if prior.Some? then all - {prior.value.hash} else all;
    SlotSumPart(all, rest);
    SlotSumWith(rest, tx);
  }

  lemma RoomSlots(c: Config, s: Snapshot, tx: Tx, isLocal: bool, dropped: seq<Tx>, mid: Snapshot)
    requires Separated(s) && s.slots == SlotSum(s.all) && Roomed(c, s, tx, isLocal, dropped, mid)
    ensures mid.slots == SlotSum(mid.all) && mid.all.Keys <= s.all.Keys
  {
    if !Fits(c, s, tx) { FreesExactly(s.all, dropped); }
  }

  /** A remote transaction that is taken fits in, if no live one has a second entry; so does
      a local one if the entries stand for the missing slots. */
  lemma AdditionFits(c: Config, s: Snapshot, tx: Tx, local: bool, replaced: bool, err: Option<PoolError>, s': Snapshot)
    requires AddRel(c, s, tx, local, replaced, err, s') && Separated(s) && s.slots == SlotSum(s.all)
    requires UniqueIn(s) && (!IsLocal(s, tx, local) || LiveSlots(s.remotes, s.urgent, s.floating) >= Missing(c, s, tx))
    ensures Bounded(c, s, s') && s'.slots == SlotSum(s'.all) && (err.None? ==> s'.slots <= Capacity(c))
  {
    assert AddsTo(c, s, tx, local, replaced, err, s') by { assert StateKey(0); }
    if tx.hash !in s.all && Admissible(s, tx, IsLocal(s, tx, local)) {
      AdmissionFits(c, s, tx, local, replaced, err, s');
    }
  }

  lemma AdmissionFits(c: Config, s: Snapshot, tx: Tx, local: bool, replaced: bool, err: Option<PoolError>, s': Snapshot)
    requires tx.hash !in s.all && tx.sender.Some? && Admitted(c, s, tx, local, replaced, err, s')
    requires Separated(s) && s.slots == SlotSum(s.all) && UniqueIn(s)
    requires !IsLocal(s, tx, local) || LiveSlots(s.remotes, s.urgent, s.floating) >= Missing(c, s, tx)
    ensures Bounded(c, s, s') && s'.slots == SlotSum(s'.all) && (err.None? ==> s'.slots <= Capacity(c))
  {
    var isLocal := IsLocal(s, tx, local);
    if RoomError(c, s, tx, isLocal).None? {
      var dropped, mid :| Roomed(c, s, tx, isLocal, dropped, mid)
        && Taken(c, mid, tx, tx.sender.value, local, replaced, err, s');
      RoomSlots(c, s, tx, isLocal, dropped, mid);
      RoomSuffices(c, s, tx, isLocal, dropped, mid);
      PlacedSlots(mid.all, Slot(mid.view.pending, mid.view.queue, tx.sender.value, tx.nonce), tx);
    }
  }

  /** So does a batch of new remote transactions. */
  lemma {:induction false} ChainFits(c: Config, txs: seq<Tx>, steps: seq<Snapshot>, n: nat)
    requires AddChain(c, txs, steps) && n <= |txs| && UniqueIn(steps[0]) && AllNew(steps[0], txs)
    requires Separated(steps[0]) && steps[0].slots == SlotSum(steps[0].all)
    requires forall x :: x in txs ==> !FromAccount(x, steps[0].locals)
    ensures Bounded(c, steps[0], steps[n]) && steps[n].slots == SlotSum(steps[n].all)
  {
    if n > 0 {
      var last := n - 1;
      ChainFits(c, txs, steps, last);
      ChainKeepsUnique(c, txs, steps, last);
      ChainKeeps(c, txs, steps, last);
      assert Added(c, steps[last], txs[last], false, steps[last + 1]);
      var replaced, err :| AddRel(c, steps[last], txs[last], false, replaced, err, steps[n]);
      AdditionFits(c, steps[last], txs[last], false, replaced, err, steps[n]);
    }
  }

  lemma ReorganisationFits(c: Config, s: Snapshot, reset: Option<Reset>, dirty: set<Address>, g: Stages, s': Snapshot)
    requires Reorganised(c, s, reset, dirty, g, s') && UniqueIn(s) && Sound(s) && Sound(s')
    requires reset.Some? && reset.value.followed ==>
      AllNew(s, reset.value.reinject) && forall x :: x in reset.value.reinject ==> !FromAccount(x, s.locals)
    ensures Bounded(c, s, s')
  {
    assert |g.steps| > 0 && OnlyDrops(g.steps[|g.steps| - 1], s')
      && Advanced(c, s, reset, dirty, g.steps, g.promoted, g.settled, TermsOf(c, s')) by { assert StateKey(0); }
    SoundLookup(s);
    SoundLookup(s');
    if reset.Some? {
      FollowedSteps(c, s, reset.value, g.steps, g.promoted, g.settled, TermsOf(c, s'));
      if reset.value.followed { ChainFits(c, reset.value.reinject, g.steps, |reset.value.reinject|); }
    }
    SlotSumPart(g.steps[|g.steps| - 1].all, s'.all);
  }

  /** An operation that adds nothing local and brings nothing back too early leaves the pool
      within its capacity, or no fuller than it was. */
  lemma StepFits(c: Config, s: Snapshot, op: PoolOp, s': Snapshot)
    requires StepRel(c, s, op, s') && Sound(s) && Sound(s') && UniqueIn(s) && Novel(s, op) && !AddsLocal(s, op)
    ensures Bounded(c, s, s')
  {
    assert Does(c, s, op, s') by { assert StateKey(0); }
    SoundLookup(s);
    SoundLookup(s');
    match op
    case AddTx(tx, local) =>
      var replaced, err :| AddRel(c, s, tx, local, replaced, err, s');
      AdditionFits(c, s, tx, local, replaced, err, s');
    case Promote(dirty) =>
      var g :| Reorganised(c, s, None, dirty, g, s');
      ReorganisationFits(c, s, None, dirty, g, s');
    case MoveHead(m) =>
      var d, g :| Moved(c, s, m, d, g, s');
      if !d.Panic? {
        ResetReturns(m, d);
        ReorganisationFits(c, s, Some(ResetFor(d, m)), {}, g, s');
      }
    case RaisePrice(price) => SlotSumPart(s.all, s'.all);
    case Expire(_) => SlotSumPart(s.all, s'.all);
  }

  /** A pool that starts within its capacity stays there, as long as no local transaction is
      added and none comes back while the price heaps still have an entry of it. */
  lemma {:induction false} StaysWithin(c: Config, ops: seq<PoolOp>, states: seq<Snapshot>, k: nat)
    requires IsRun(c, ops, states) && k <= |ops| && UniqueIn(states[0]) && states[0].slots <= Capacity(c)
    requires forall j :: 0 <= j < k ==> Novel(states[j], ops[j]) && !AddsLocal(states[j], ops[j])
    ensures UniqueIn(states[k]) && states[k].slots <= Capacity(c)
  {
    if k > 0 {
      var last := k - 1;
      StaysWithin(c, ops, states, last);
      StaysUnique(c, ops, states, 0, k);
      StepFits(c, states[last], ops[last], states[last + 1]);
    }
  }
}
