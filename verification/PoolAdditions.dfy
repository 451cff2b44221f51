/** The pool as a value, and what adding a transaction does to it. */
module PoolAdditions {
  import opened Transactions
  import opened NonceMaps
  import opened TxLists
  import opened TxLookups
  import opened HeapEntries
  import opened PricedLists
  import opened PoolLists
  import IntrinsicGas

  datatype Config = Config(
    priceBump: nat, accountSlots: nat, globalSlots: nat, accountQueue: nat, globalQueue: nat, lifetime: int)

  /** The errors, those of the validation in the order of its checks. */
  datatype PoolError =
    | TxTypeNotSupported | OversizedData | NegativeValue | GasLimit | FeeCapVeryHigh | TipVeryHigh | TipAboveFeeCap
    | InvalidSender | Underpriced | NonceTooLow | InsufficientFunds | GasUintOverflow | IntrinsicGasTooLow
    | AlreadyKnown | TxPoolOverflow | ReplaceUnderpriced

  const TWO_256 := 0x1_0000_0000_0000_0000_0000_0000_0000_0000_0000_0000_0000_0000_0000_0000_0000_0000

  /** Which kinds of transactions the next block may hold. */
  datatype Forks = Forks(istanbul: bool, eip2718: bool, eip1559: bool)

  /** Nonces and balances in the state of the current head block. */
  datatype ChainState = ChainState(nonce: Address -> nat, balance: Address -> nat)

  /** Everything in the pool that the operations are about. */
  datatype Snapshot = Snapshot(
    view: View, all: Content, remotes: Content, slots: int, urgent: seq<Tx>, floating: seq<Tx>, baseFee: Option<nat>,
    state: ChainState, maxGas: nat, forks: Forks, gasPrice: nat, locals: set<Address>, changes: nat, now: nat)

  /** Guards the definitions of this module, like Key. */
  predicate StateKey(k: nat) { true }

  /** The lookup is the disjoint union of the lists, its slot count is right, the price
      heaps cover its remote transactions, and none of these is from a local account. */
  ghost predicate Sound(s: Snapshot) {
    forall k {:trigger StateKey(k)} :: StateKey(k) ==>
      && PoolInv(s.all, s.view.pending, s.view.queue) && s.slots == SlotSum(s.all)
      && Covers(s.remotes, s.urgent, s.floating, []) && Separated(s)
  }

  ghost predicate Separated(s: Snapshot) {
    forall h :: h in s.remotes ==>
      s.remotes[h].hash == h && Holds(s.all, s.remotes[h]) && !FromAccount(s.remotes[h], s.locals)
  }

  /** Every pending list is the interval from the chain nonce to the pool nonce. */
  ghost predicate AlignedIn(s: Snapshot) { NoncesOk(s.view, s.state.nonce) }

  /** No live transaction has a second entry in the price heaps. */
  ghost predicate UniqueIn(s: Snapshot) { Unique(s.remotes, s.urgent, s.floating) }

  // ----- validation

  /** What a transaction must satisfy to be considered at all. */
  ghost predicate Admissible(s: Snapshot, tx: Tx, local: bool) {
    forall e :: !Violates(s, tx, local, e)
  }

  /** What each error of the validation stands for. */
  ghost predicate Violates(s: Snapshot, tx: Tx, local: bool, e: PoolError) {
    match e
    case TxTypeNotSupported => (!s.forks.eip2718 && tx.kind != Legacy) || (!s.forks.eip1559 && tx.kind == DynamicFee)
    case OversizedData => tx.size > TX_MAX_SIZE
    case NegativeValue => tx.value < 0
    case GasLimit => tx.gas > s.maxGas
    case FeeCapVeryHigh => tx.gasFeeCap >= TWO_256
    case TipVeryHigh => tx.gasTipCap >= TWO_256
    case TipAboveFeeCap => tx.gasTipCap > tx.gasFeeCap
    case InvalidSender => tx.sender.None?
    case Underpriced => !local && tx.gasTipCap < s.gasPrice
    case NonceTooLow => tx.sender.Some? && tx.nonce < s.state.nonce(tx.sender.value)
    case InsufficientFunds => tx.sender.Some? && Cost(tx) > s.state.balance(tx.sender.value)
    case GasUintOverflow => Needed(s, tx).None?
    case IntrinsicGasTooLow => Needed(s, tx).Some? && tx.gas < Needed(s, tx).value
    case _ => false
  }

  ghost function Needed(s: Snapshot, tx: Tx): Option<nat> {
    IntrinsicGas.Intrinsic(tx.data, tx.keys, tx.creation, true, s.forks.istanbul)
  }

  /** The position of a check in the validation. */
  function Rank(e: PoolError): nat {
    match e
    case TxTypeNotSupported => 0
    case OversizedData => 1
    case NegativeValue => 2
    case GasLimit => 3
    case FeeCapVeryHigh => 4
    case TipVeryHigh => 5
    case TipAboveFeeCap => 6
    case InvalidSender => 7
    case Underpriced => 8
    case NonceTooLow => 9
    case InsufficientFunds => 10
    case GasUintOverflow => 11
    case IntrinsicGasTooLow => 12
    case _ => 13
  }

  /** The first checks find nothing wrong. */
  ghost predicate Passes(s: Snapshot, tx: Tx, local: bool, rank: nat) {
    forall e :: Rank(e) < rank ==> !Violates(s, tx, local, e)
  }

  /** The error is that of the first check that fails. */
  ghost predicate FirstViolation(s: Snapshot, tx: Tx, local: bool, e: PoolError) {
    Violates(s, tx, local, e) && Passes(s, tx, local, Rank(e))
  }

  lemma PassesNext(s: Snapshot, tx: Tx, local: bool, e: PoolError)
    requires Passes(s, tx, local, Rank(e)) && !Violates(s, tx, local, e) && Rank(e) < Rank(AlreadyKnown)
    ensures Passes(s, tx, local, Rank(e) + 1)
  {
    forall d | Rank(d) < Rank(e) + 1 ensures !Violates(s, tx, local, d) {
      if Rank(d) == Rank(e) { assert d == e; }
    }
  }

  lemma PassesAll(s: Snapshot, tx: Tx, local: bool)
    requires Passes(s, tx, local, Rank(AlreadyKnown))
    ensures Admissible(s, tx, local)
  {
  }

  predicate IsLocal(s: Snapshot, tx: Tx, local: bool) { local || FromAccount(tx, s.locals) }

  // ----- making room

  /** The slots by which the transaction exceeds the pool. */
  function Missing(c: Config, s: Snapshot, tx: Tx): int { s.slots + NumSlots(tx) - (c.globalSlots + c.globalQueue) }

  predicate Fits(c: Config, s: Snapshot, tx: Tx) { Missing(c, s, tx) <= 0 }

  /** Why a full pool refuses a transaction: a remote one that is cheaper than everything
      that could go for it, too many evictions since the last reorganisation, or a remote
      one for which all remote transactions together would not make room. */
  ghost function RoomError(c: Config, s: Snapshot, tx: Tx, isLocal: bool): Option<PoolError> {
    if Fits(c, s, tx) then None
    else if !isLocal && PricedOut(s.remotes, s.urgent, s.floating, s.baseFee, tx) then Some(Underpriced)
    else if s.changes > c.globalSlots / 4 then Some(TxPoolOverflow)
    else if !isLocal && LiveSlots(s.remotes, s.urgent, s.floating) < Missing(c, s, tx) then Some(TxPoolOverflow)
    else None
  }

  /** The lists after the known ones of these transactions were removed one by one. */
  ghost function Removals(v: View, chain: Address -> nat, now: nat, all: Content, txs: seq<Tx>): View {
    if txs == [] then v
    else
      var front, last := txs[..|txs| - 1], txs[|txs| - 1];
      var w := Removals(v, chain, now, all, front);
      if last.hash in all && last.hash !in HashSet(front) then Removal(w, chain, now, all[last.hash]) else w
  }

  lemma RemovalsStep(v: View, chain: Address -> nat, now: nat, all: Content, txs: seq<Tx>, i: nat, next: nat)
    requires i < |txs| && next == i + 1
    ensures var w := Removals(v, chain, now, all, txs[..i]);
      Removals(v, chain, now, all, txs[..next])
      == if txs[i].hash in all && txs[i].hash !in HashSet(txs[..i]) then Removal(w, chain, now, all[txs[i].hash]) else w
  {
    assert txs[..next][..i] == txs[..i] && txs[..next][i] == txs[i];
  }

  /** What is the same in all steps of an addition. */
  ghost predicate SameHead(s: Snapshot, s': Snapshot) {
    && s'.state == s.state && s'.maxGas == s.maxGas && s'.forks == s.forks
    && s'.gasPrice == s.gasPrice && s'.now == s.now && s'.baseFee == s.baseFee
  }

  /** Room was made by giving up live transactions from the cheap end, no more than needed:
      for a remote transaction they count for what is missing, for a local one for that
      or for all there is. */
  ghost predicate Roomed(c: Config, s: Snapshot, tx: Tx, isLocal: bool, dropped: seq<Tx>, mid: Snapshot) {
    if Fits(c, s, tx) then dropped == [] && mid == s
    else
      && SameHead(s, mid) && mid.locals == s.locals && mid.changes == s.changes + |dropped|
      && mid.all == s.all - HashSet(dropped) && mid.remotes == s.remotes - HashSet(dropped)
      && mid.slots == s.slots - SlotsOf(dropped) + Repeated(dropped)
      && mid.view == Removals(s.view, s.state.nonce, s.now, s.all, dropped)
      && PoolInv(mid.all, mid.view.pending, mid.view.queue)
      && Thinned(s.urgent, s.floating, [], mid.urgent, mid.floating, dropped)
      && Covers(mid.remotes, mid.urgent, mid.floating, []) && (forall x :: x in dropped ==> x.hash in s.remotes)
      && PriceRanked(s.remotes, s.baseFee, s.urgent, s.floating, mid.urgent, mid.floating, dropped)
      && CheapEnd(dropped, Missing(c, s, tx), mid.urgent, mid.floating)
      && (SlotsOf(dropped) >= Missing(c, s, tx)
          || (isLocal && SlotsOf(dropped) == LiveSlots(s.remotes, s.urgent, s.floating)))
  }

  /** The last one was still needed; nothing left in the floating heap is cheaper, and that
      was filled up to its share before. */
  ghost predicate CheapEnd(dropped: seq<Tx>, missing: int, urgent: seq<Tx>, floating: seq<Tx>) {
    dropped != [] ==>
      && SlotsOf(dropped[..|dropped| - 1]) < missing
      && (SlotsOf(dropped) >= missing ==>
            |urgent| <= 4 * |floating| + 4 && forall x :: x in floating ==> !Cheaper(None, x, dropped[|dropped| - 1]))
  }

  /** Of the transactions that were floating the cheapest ones went. */
  lemma CheapestWent(c: Config, s: Snapshot, tx: Tx, isLocal: bool, dropped: seq<Tx>, mid: Snapshot, d: Tx, x: Tx)
    requires Roomed(c, s, tx, isLocal, dropped, mid) && d in dropped
    requires x in s.floating && x.hash in s.remotes && x !in dropped
    ensures !Cheaper(None, x, d) && d.gasFeeCap <= x.gasFeeCap
    ensures d.gasFeeCap == x.gasFeeCap ==> d.gasTipCap <= x.gasTipCap
    ensures d.gasFeeCap == x.gasFeeCap && d.gasTipCap == x.gasTipCap ==> d.nonce >= x.nonce
  {
    assert HeapKey(0);
  }

  /** Of the urgent ones only the cheapest went, and nothing else is among those that went. */
  lemma UrgentWent(c: Config, s: Snapshot, tx: Tx, isLocal: bool, dropped: seq<Tx>, mid: Snapshot, d: Tx, x: Tx)
    requires Roomed(c, s, tx, isLocal, dropped, mid) && d in dropped && d !in s.floating
    requires x in s.urgent && x.hash in mid.remotes && x !in mid.floating
    requires forall h :: h in s.remotes ==> s.remotes[h].hash == h
    ensures d in s.urgent && !Cheaper(s.baseFee, x, d)
    ensures s.baseFee.Some? ==>
      forall t, least :: PaysTip(x, s.baseFee.value, t) && PaysTip(d, s.baseFee.value, least) ==> least <= t
    ensures s.baseFee.None? ==> d.gasFeeCap <= x.gasFeeCap
  {
    assert HeapKey(0);
    assert mid.remotes[x.hash] == x;
  }

  /** If no live transaction has a second entry the room suffices for a remote one, and for
      a local one if the entries stand for the missing slots. */
  lemma RoomSuffices(c: Config, s: Snapshot, tx: Tx, isLocal: bool, dropped: seq<Tx>, mid: Snapshot)
    requires Roomed(c, s, tx, isLocal, dropped, mid) && UniqueIn(s)
    requires !isLocal || LiveSlots(s.remotes, s.urgent, s.floating) >= Missing(c, s, tx)
    ensures Fits(c, mid, tx)
  {
    if !Fits(c, s, tx) {
      NothingRepeated(s.remotes, s.urgent, s.floating, mid.urgent, mid.floating, dropped, |dropped|);
      assert dropped[..|dropped|] == dropped;
    }
  }

  /** A full pool refuses a transaction as underpriced exactly if it is remote and, of all
      live entries, no floating one offers less and no urgent one pays less; so it is not
      refused for that if a floating one has a lower fee cap. */
  lemma RefusedAsCheap(c: Config, s: Snapshot, tx: Tx, isLocal: bool)
    ensures RoomError(c, s, tx, isLocal) == Some(Underpriced) <==>
      && !Fits(c, s, tx) && !isLocal && s.remotes != map[]
      && (forall x :: x in s.floating && x.hash in s.remotes ==>
            x.gasFeeCap > tx.gasFeeCap || (x.gasFeeCap == tx.gasFeeCap && x.gasTipCap >= tx.gasTipCap))
      && (forall x :: x in s.urgent && x.hash in s.remotes ==> !PaysLess(s.baseFee, x, tx))
  {
  }

  /** What it means to pay less, for every pair of tips at the base fee. */
  lemma PaysLessIff(fee: nat, a: Tx, b: Tx, ta: int, tb: int)
    requires PaysTip(a, fee, ta) && PaysTip(b, fee, tb)
    ensures PaysLess(Some(fee), a, b) <==>
      || ta < tb
      || (ta == tb && a.gasFeeCap < b.gasFeeCap)
      || (ta == tb && a.gasFeeCap == b.gasFeeCap && a.gasTipCap < b.gasTipCap)
  {
  }

  /** A full pool refuses a remote transaction for want of room only if all the remote
      ones together take fewer slots than are missing. */
  lemma RefusedForRoom(c: Config, s: Snapshot, tx: Tx)
    requires Sound(s) && !Fits(c, s, tx) && s.changes <= c.globalSlots / 4
    requires RoomError(c, s, tx, false) == Some(TxPoolOverflow)
    ensures SlotSum(s.remotes) < Missing(c, s, tx)
  {
    assert Covers(s.remotes, s.urgent, s.floating, []) && Separated(s) by { assert StateKey(0); }
    LiveSlotsCover(s.remotes, s.urgent, s.floating);
  }

  // ----- taking the slot

  /** Its slot is free, or the new transaction outbids the holder. */
  predicate Wins(c: Config, s: Snapshot, tx: Tx)
    requires tx.sender.Some?
  {
    var prior := Slot(s.view.pending, s.view.queue, tx.sender.value, tx.nonce);
    prior.None? || Outbids(tx, prior.value, c.priceBump)
  }

  /** The lists with the transaction in its slot: in place of the pending one, or queued. */
  function Seated(v: View, a: Address, tx: Tx, now: nat): View {
    if tx.nonce in At(v.pending, a)
    then v.(pending := With(v.pending, a, At(v.pending, a)[tx.nonce := tx]), beats := v.beats[a := now])
    else v.(queue := With(v.queue, a, At(v.queue, a)[tx.nonce := tx]), beats := Noted(v.beats, a, now))
  }

  /** A local transaction makes its account local, unless it replaced a pending one. */
  function LocalsAfter(locals: set<Address>, v: View, a: Address, tx: Tx, local: bool): set<Address> {
    if local && tx.nonce !in At(v.pending, a) then locals + {a} else locals
  }

  /** The remote transactions once the new one is in: it has taken the place of the one it
      replaces, and an account that became local has taken its transactions along. */
  function RemotesAfter(remotes: Content, prior: Option<Tx>, tx: Tx, isLocal: bool, locals: set<Address>,
                        was: set<Address>): Content {
    var rest := if prior.Some? then remotes - {prior.value.hash} else remotes;
    var more := if isLocal then rest else rest[tx.hash := tx];
    if locals == was then more else more - FromAccounts(more, locals).Keys
  }

  /** The transaction is taken exactly if it wins its slot. */
  ghost predicate Taken(c: Config, s: Snapshot, tx: Tx, a: Address, local: bool, replaced: bool,
                        err: Option<PoolError>, s': Snapshot)
    requires tx.sender == Some(a)
  {
    var prior := Slot(s.view.pending, s.view.queue, a, tx.nonce);
    var locals := LocalsAfter(s.locals, s.view, a, tx, local);
    && SameHead(s, s') && s'.changes == s.changes
    && if Wins(c, s, tx) then
         && err.None? && replaced == prior.Some? && s'.all == Placed(s.all, prior, tx)
         && s'.view == Seated(s.view, a, tx, s.now) && s'.locals == locals
         && s'.remotes == RemotesAfter(s.remotes, prior, tx, IsLocal(s, tx, local), locals, s.locals)
         && Stocked(s.remotes, s.urgent, s.floating, Addition(tx, !IsLocal(s, tx, local)), s'.urgent, s'.floating)
         && s'.slots == SlotSum(s'.all)
       else
         && err == Some(ReplaceUnderpriced) && !replaced && s'.all == s.all && s'.view == s.view
         && s'.remotes == s.remotes && s'.locals == s.locals && s'.urgent == s.urgent && s'.floating == s.floating
         && s'.slots == s.slots
  }

  /** Adding a transaction: a known or inadmissible one changes nothing, and a full pool
      refuses some; otherwise room is made and the transaction takes its slot if it can. */
  ghost predicate AddRel(c: Config, s: Snapshot, tx: Tx, local: bool, replaced: bool, err: Option<PoolError>,
                         s': Snapshot) {
    forall k {:trigger StateKey(k)} :: StateKey(k) ==> AddsTo(c, s, tx, local, replaced, err, s')
  }

  /** A new admissible transaction. */
  ghost predicate Admitted(c: Config, s: Snapshot, tx: Tx, local: bool, replaced: bool, err: Option<PoolError>,
                           s': Snapshot)
    requires tx.sender.Some?
  {
    var isLocal := IsLocal(s, tx, local);
    if RoomError(c, s, tx, isLocal).Some? then
      && err == RoomError(c, s, tx, isLocal) && !replaced && s' == s.(urgent := s'.urgent, floating := s'.floating)
      && Thinned(s.urgent, s.floating, [], s'.urgent, s'.floating, [])
    else
      exists dropped, mid ::
        Roomed(c, s, tx, isLocal, dropped, mid) && Taken(c, mid, tx, tx.sender.value, local, replaced, err, s')
  }

  ghost predicate AddsTo(c: Config, s: Snapshot, tx: Tx, local: bool, replaced: bool, err: Option<PoolError>,
                         s': Snapshot) {
    var isLocal := IsLocal(s, tx, local);
    if tx.hash in s.all then err == Some(AlreadyKnown) && !replaced && s' == s
    else if !Admissible(s, tx, isLocal)
    then err.Some? && FirstViolation(s, tx, isLocal, err.value) && !replaced && s' == s
    else tx.sender.Some? && Admitted(c, s, tx, local, replaced, err, s')
  }

  lemma KnownIsRefused(c: Config, s: Snapshot, tx: Tx, local: bool)
    requires tx.hash in s.all
    ensures AddRel(c, s, tx, local, false, Some(AlreadyKnown), s)
  {
  }

  lemma InvalidIsRefused(c: Config, s: Snapshot, tx: Tx, local: bool, err: PoolError)
    requires tx.hash !in s.all && FirstViolation(s, tx, IsLocal(s, tx, local), err)
    ensures AddRel(c, s, tx, local, false, Some(err), s)
  {
  }

  lemma WasAdmitted(c: Config, s: Snapshot, tx: Tx, local: bool, replaced: bool, err: Option<PoolError>, s': Snapshot)
    requires tx.hash !in s.all && Admissible(s, tx, IsLocal(s, tx, local)) && tx.sender.Some?
    requires Admitted(c, s, tx, local, replaced, err, s')
    ensures AddRel(c, s, tx, local, replaced, err, s')
  {
  }

  lemma RoomThenPlace(c: Config, s: Snapshot, tx: Tx, local: bool, dropped: seq<Tx>, mid: Snapshot, replaced: bool,
                      err: Option<PoolError>, s': Snapshot)
    requires tx.sender.Some? && RoomError(c, s, tx, IsLocal(s, tx, local)).None?
    requires Roomed(c, s, tx, IsLocal(s, tx, local), dropped, mid)
    requires Taken(c, mid, tx, tx.sender.value, local, replaced, err, s')
    ensures Admitted(c, s, tx, local, replaced, err, s')
  {
  }

  lemma MadeRoom(c: Config, s: Snapshot, tx: Tx, isLocal: bool, dropped: seq<Tx>, mid: Snapshot)
    requires !Fits(c, s, tx) && SameHead(s, mid) && mid.locals == s.locals && mid.changes == s.changes + |dropped|
    requires mid.all == s.all - HashSet(dropped) && mid.remotes == s.remotes - HashSet(dropped)
    requires mid.slots == s.slots - SlotsOf(dropped) + Repeated(dropped)
    requires mid.view == Removals(s.view, s.state.nonce, s.now, s.all, dropped)
    requires PoolInv(mid.all, mid.view.pending, mid.view.queue) && forall x :: x in dropped ==> x.hash in s.remotes
    requires Thinned(s.urgent, s.floating, [], mid.urgent, mid.floating, dropped)
    requires Covers(mid.remotes, mid.urgent, mid.floating, [])
    requires PriceRanked(s.remotes, s.baseFee, s.urgent, s.floating, mid.urgent, mid.floating, dropped)
    requires CheapEnd(dropped, Missing(c, s, tx), mid.urgent, mid.floating)
    requires SlotsOf(dropped) >= Missing(c, s, tx)
      || (isLocal && SlotsOf(dropped) == LiveSlots(s.remotes, s.urgent, s.floating))
    ensures Roomed(c, s, tx, isLocal, dropped, mid)
  {
  }

  /** What replacing or queueing does. */
  lemma WasTaken(c: Config, s: Snapshot, tx: Tx, a: Address, local: bool, ok: bool, s': Snapshot)
    requires tx.sender == Some(a) && SameHead(s, s') && s'.changes == s.changes
    requires tx.nonce !in At(s.view.pending, a) || s'.locals == s.locals
    requires ok <==> Wins(c, s, tx)
    requires ok ==> s'.all == Placed(s.all, Slot(s.view.pending, s.view.queue, a, tx.nonce), tx)
    requires ok ==> s'.view == Seated(s.view, a, tx, s.now) && s'.locals == LocalsAfter(s.locals, s.view, a, tx, local)
    requires ok ==>
      var prior := Slot(s.view.pending, s.view.queue, a, tx.nonce);
      s'.remotes == RemotesAfter(s.remotes, prior, tx, IsLocal(s, tx, local), s'.locals, s.locals)
    requires ok ==>
      Stocked(s.remotes, s.urgent, s.floating, Addition(tx, !IsLocal(s, tx, local)), s'.urgent, s'.floating)
    requires !ok ==> s'.all == s.all && s'.view == s.view && s'.remotes == s.remotes && s'.locals == s.locals
    requires !ok ==> s'.urgent == s.urgent && s'.floating == s.floating && s'.slots == s.slots
    requires s'.slots == SlotSum(s'.all)
    ensures Taken(c, s, tx, a, local, ok && Slot(s.view.pending, s.view.queue, a, tx.nonce).Some?,
                  if ok then None else Some(ReplaceUnderpriced), s')
  {
  }

  lemma TakenKeepsAligned(c: Config, s: Snapshot, tx: Tx, a: Address, local: bool, replaced: bool,
                          err: Option<PoolError>, s': Snapshot)
    requires tx.sender == Some(a) && Taken(c, s, tx, a, local, replaced, err, s') && AlignedIn(s)
    requires s.state.nonce(a) <= tx.nonce
    ensures AlignedIn(s')
  {
    if err.None? {
      if tx.nonce in At(s.view.pending, a) {
        ReplaceKeepsNonces(s.view, s.state.nonce, a, tx, s'.view);
      } else {
        QueueKeepsNonces(s.view, s.state.nonce, a, tx, s'.view);
      }
    }
  }

  /** A batch, one transaction after the other. */
  ghost predicate AddChain(c: Config, txs: seq<Tx>, steps: seq<Snapshot>) {
    |steps| == |txs| + 1 && forall i :: 0 <= i < |txs| ==> Added(c, steps[i], txs[i], false, steps[i + 1])
  }

  ghost predicate Added(c: Config, s: Snapshot, tx: Tx, local: bool, s': Snapshot) {
    exists replaced, err :: AddRel(c, s, tx, local, replaced, err, s')
  }

  // ----- what additions keep

  lemma RoomEvicts(c: Config, s: Snapshot, tx: Tx, isLocal: bool, dropped: seq<Tx>, mid: Snapshot)
    requires PoolInv(s.all, s.view.pending, s.view.queue) && Roomed(c, s, tx, isLocal, dropped, mid)
    ensures OnlyEvicts(s.all, s.remotes, mid.all) && PoolInv(mid.all, mid.view.pending, mid.view.queue)
  {
  }

  /** An addition adds the transaction, at most in place of the one with its sender and
      nonce, and otherwise costs only remote ones; a refused one is not added. */
  lemma AdditionAdds(c: Config, s: Snapshot, tx: Tx, local: bool, replaced: bool, err: Option<PoolError>, s': Snapshot)
    requires Sound(s) && AddRel(c, s, tx, local, replaced, err, s')
    ensures if err.None? then Adds(s.all, s.remotes, tx, s'.all) else OnlyEvicts(s.all, s.remotes, s'.all)
  {
    assert PoolInv(s.all, s.view.pending, s.view.queue) by { assert StateKey(0); }
    if err.None? || s'.all != s.all {
      var dropped, mid := WasRoomed(c, s, tx, local, replaced, err, s');
      RoomEvicts(c, s, tx, IsLocal(s, tx, local), dropped, mid);
      PlacedAdds(s.all, s.remotes, mid.all, mid.view.pending, mid.view.queue, tx.sender.value, tx);
    }
  }

  /** A transaction that is taken is remote exactly if neither its caller nor its account
      makes it local. Only a local addition makes an account local, and only that of its
      sender; it does so unless it replaced another transaction. */
  lemma TakenSide(c: Config, s: Snapshot, tx: Tx, local: bool, replaced: bool, err: Option<PoolError>, s': Snapshot)
    requires Sound(s) && AddRel(c, s, tx, local, replaced, err, s') && err.None?
    ensures Holds(s'.all, tx) && tx.sender.Some? && (tx.hash in s'.remotes <==> !IsLocal(s, tx, local))
    ensures s.locals <= s'.locals && forall a :: a in s'.locals && a !in s.locals ==> local && tx.sender == Some(a)
    ensures local && !replaced ==> tx.sender.value in s'.locals
  {
    assert Separated(s) by { assert StateKey(0); }
    var dropped, mid := WasRoomed(c, s, tx, local, replaced, err, s');
    RoomedSeparates(c, s, tx, IsLocal(s, tx, local), dropped, mid);
    SideOf(c, mid, tx, tx.sender.value, local, replaced, err, s') by {
      assert mid.all.Keys <= s.all.Keys && mid.locals == s.locals;
    }
  }

  lemma SideOf(c: Config, s: Snapshot, tx: Tx, a: Address, local: bool, replaced: bool, err: Option<PoolError>,
               s': Snapshot)
    requires Separated(s) && tx.hash !in s.all && tx.sender == Some(a) && err.None?
    requires Taken(c, s, tx, a, local, replaced, err, s')
    ensures Holds(s'.all, tx) && (tx.hash in s'.remotes <==> !IsLocal(s, tx, local))
    ensures s.locals <= s'.locals && forall b :: b in s'.locals && b !in s.locals ==> local && a == b
    ensures local && !replaced ==> a in s'.locals
  {
  }

  /** What validation admits, promotion and demotion do not drop under the same head. */
  lemma AdmissibleIsPayable(s: Snapshot, tx: Tx, local: bool)
    requires Admissible(s, tx, local)
    ensures tx.sender.Some? && tx.nonce >= s.state.nonce(tx.sender.value)
    ensures !Unpayable(tx, s.state.balance(tx.sender.value), s.maxGas) && NumSlots(tx) <= 4
  {
    assert !Violates(s, tx, local, OversizedData);
    assert !Violates(s, tx, local, InvalidSender) && !Violates(s, tx, local, NonceTooLow);
    assert !Violates(s, tx, local, InsufficientFunds) && !Violates(s, tx, local, GasLimit);
  }

  /** What is taken, or costs others their place, went through both stages of an addition. */
  lemma WasRoomed(c: Config, s: Snapshot, tx: Tx, local: bool, replaced: bool, err: Option<PoolError>, s': Snapshot)
    returns (dropped: seq<Tx>, mid: Snapshot)
    requires AddRel(c, s, tx, local, replaced, err, s') && (err.None? || s'.all != s.all)
    ensures tx.hash !in s.all && tx.sender.Some? && Roomed(c, s, tx, IsLocal(s, tx, local), dropped, mid)
    ensures Taken(c, mid, tx, tx.sender.value, local, replaced, err, s')
  {
    assert AddsTo(c, s, tx, local, replaced, err, s') by { assert StateKey(0); }
    dropped, mid :| Roomed(c, s, tx, IsLocal(s, tx, local), dropped, mid)
      && Taken(c, mid, tx, tx.sender.value, local, replaced, err, s');
  }

  /** What stays of the remote transactions was remote or is the new one. */
  lemma RemotesAfterMeans(remotes: Content, prior: Option<Tx>, tx: Tx, isLocal: bool, locals: set<Address>,
                          was: set<Address>, h: Hash)
    requires was <= locals && h in RemotesAfter(remotes, prior, tx, isLocal, locals, was)
    ensures var r := RemotesAfter(remotes, prior, tx, isLocal, locals, was);
      || (h == tx.hash && r[h] == tx && !isLocal)
      || (h in remotes && r[h] == remotes[h] && (prior.Some? ==> h != prior.value.hash))
    ensures locals != was ==> !FromAccount(RemotesAfter(remotes, prior, tx, isLocal, locals, was)[h], locals)
  {
  }

  /** An addition keeps local accounts out of the remote transactions. */
  lemma TakenSeparates(c: Config, s: Snapshot, tx: Tx, local: bool, replaced: bool, err: Option<PoolError>,
                       s': Snapshot)
    requires Separated(s) && tx.sender.Some? && Taken(c, s, tx, tx.sender.value, local, replaced, err, s')
    ensures Separated(s')
  {
    var a := tx.sender.value;
    if Wins(c, s, tx) {
      var prior := Slot(s.view.pending, s.view.queue, a, tx.nonce);
      var locals := LocalsAfter(s.locals, s.view, a, tx, local);
      forall h | h in s'.remotes
        ensures s'.remotes[h].hash == h && Holds(s'.all, s'.remotes[h]) && !FromAccount(s'.remotes[h], s'.locals)
      {
        RemotesAfterMeans(s.remotes, prior, tx, IsLocal(s, tx, local), locals, s.locals, h);
      }
    }
  }

  lemma RoomedSeparates(c: Config, s: Snapshot, tx: Tx, isLocal: bool, dropped: seq<Tx>, mid: Snapshot)
    requires Separated(s) && Roomed(c, s, tx, isLocal, dropped, mid)
    ensures Separated(mid)
  {
  }

  lemma AdditionSeparates(c: Config, s: Snapshot, tx: Tx, local: bool, replaced: bool, err: Option<PoolError>,
                          s': Snapshot)
    requires Separated(s) && AddRel(c, s, tx, local, replaced, err, s')
    ensures Separated(s') && SameHead(s, s')
  {
    assert AddsTo(c, s, tx, local, replaced, err, s') by { assert StateKey(0); }
    var isLocal := IsLocal(s, tx, local);
    if tx.hash !in s.all && Admissible(s, tx, isLocal) && RoomError(c, s, tx, isLocal).None? {
      var dropped, mid :| Roomed(c, s, tx, isLocal, dropped, mid)
        && Taken(c, mid, tx, tx.sender.value, local, replaced, err, s');
      RoomedSeparates(c, s, tx, isLocal, dropped, mid);
      TakenSeparates(c, mid, tx, local, replaced, err, s');
    }
  }

  /** No transaction of a local account goes but for one with its nonce. */
  lemma AdditionSparesLocals(c: Config, s: Snapshot, tx: Tx, local: bool, replaced: bool, err: Option<PoolError>,
                             s': Snapshot, h: Hash)
    requires Sound(s) && AddRel(c, s, tx, local, replaced, err, s') && h in s.all && FromAccount(s.all[h], s.locals)
    ensures h in s'.all || (err.None? && replaced && s.all[h].sender == tx.sender && s.all[h].nonce == tx.nonce)
  {
    assert AddsTo(c, s, tx, local, replaced, err, s') by { assert StateKey(0); }
    var isLocal := IsLocal(s, tx, local);
    if tx.hash !in s.all && Admissible(s, tx, isLocal) && RoomError(c, s, tx, isLocal).None? {
      var dropped, mid :| Roomed(c, s, tx, isLocal, dropped, mid)
        && Taken(c, mid, tx, tx.sender.value, local, replaced, err, s');
      RoomSparesLocals(c, s, tx, isLocal, dropped, mid, h);
      TakenSpares(c, mid, tx, tx.sender.value, local, replaced, err, s', h);
    }
  }

  lemma RoomSparesLocals(c: Config, s: Snapshot, tx: Tx, isLocal: bool, dropped: seq<Tx>, mid: Snapshot, h: Hash)
    requires Sound(s) && Roomed(c, s, tx, isLocal, dropped, mid) && h in s.all && FromAccount(s.all[h], s.locals)
    ensures h in mid.all && mid.all[h] == s.all[h] && PoolInv(mid.all, mid.view.pending, mid.view.queue)
  {
    assert Separated(s) && PoolInv(s.all, s.view.pending, s.view.queue) by { assert StateKey(0); }
    Account(s.all, s.view.pending, s.view.queue, 0);
  }

  lemma TakenSpares(c: Config, s: Snapshot, tx: Tx, a: Address, local: bool, replaced: bool, err: Option<PoolError>,
                    s': Snapshot, h: Hash)
    requires PoolInv(s.all, s.view.pending, s.view.queue) && tx.sender == Some(a) && h in s.all
    requires Taken(c, s, tx, a, local, replaced, err, s')
    ensures h in s'.all || (err.None? && replaced && s.all[h].sender == tx.sender && s.all[h].nonce == tx.nonce)
  {
    Account(s.all, s.view.pending, s.view.queue, a);
    var prior := Slot(s.view.pending, s.view.queue, a, tx.nonce);
    if prior.Some? { assert prior.value.sender == Some(a) && prior.value.nonce == tx.nonce; }
  }
}
