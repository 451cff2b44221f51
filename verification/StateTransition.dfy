/** Balances and their sum. */
module Ledgers {
  import opened Transactions

  type Ledger = map<Address, int>

  function Balance(m: Ledger, a: Address): int { if a in m then m[a] else 0 }

  function Add(m: Ledger, a: Address, v: int): Ledger { m[a := Balance(m, a) + v] }

  ghost function Total(m: Ledger): int {
    if m == map[] then 0 else var a :| a in m; m[a] + Total(m - {a})
  }

  lemma {:induction false} TotalRemove(m: Ledger, a: Address)
    requires a in m
    ensures Total(m) == m[a] + Total(m - {a})
    decreases |m|
  {
    var b :| b in m && Total(m) == m[b] + Total(m - {b});
    if a != b {
      TotalRemove(m - {b}, a);
      assert (m - {b}) - {a} == (m - {a}) - {b};
      TotalRemove(m - {a}, b);
    }
  }

  /** Adding to a balance adds to the sum. */
  lemma TotalAdd(m: Ledger, a: Address, v: int)
    ensures Total(Add(m, a, v)) == Total(m) + v
  {
    var after := Add(m, a, v);
    TotalRemove(after, a);
    if a in m {
      TotalRemove(m, a);
      assert after - {a} == m - {a};
    } else {
      assert after - {a} == m;
    }
  }
}

/** Applying a message to the state: buying gas, running the EVM, refunding, paying the
    miner. The EVM is a parameter. */
module StateTransitions {
  import opened Transactions
  import opened IntrinsicGas
  import opened Ledgers

  const MAX_FEE := 0x1_0000000000000000_0000000000000000_0000000000000000_0000000000000000
  const REFUND_QUOTIENT := 2
  const REFUND_QUOTIENT_EIP3529 := 5

  /** `data` and `keys` are the call data and the numbers of storage keys of the access
      list entries. */
  datatype Message = Message(
    from: Address, to: Option<Address>, nonce: nat, gas: nat, gasPrice: nat, feeCap: nat, tipCap: nat,
    value: nat, fake: bool, data: seq<nat>, keys: seq<nat>)

  /** The block: its base fee is there from London on. */
  datatype Env = Env(coinbase: Address, baseFee: Option<nat>, homestead: bool, istanbul: bool, noBaseFee: bool)

  datatype World = World(balances: Ledger, nonces: map<Address, nat>, code: set<Address>, refund: nat)

  /** What the EVM is called with and what it leaves behind. */
  datatype Call = Call(from: Address, to: Option<Address>, data: seq<nat>, gas: nat, value: nat)
  datatype Outcome = Outcome(world: World, gasLeft: nat, failed: bool, callStack: nat)

  type Evm = (World, Call) -> Outcome

  /** The EVM neither makes nor burns ether, and returns no more gas than it got. */
  ghost predicate Conserves(evm: Evm) {
    forall w: World, c: Call :: Total(evm(w, c).world.balances) == Total(w.balances) && evm(w, c).gasLeft <= c.gas
  }

  datatype Error =
    | NonceTooHigh | NonceTooLow | NonceMax | SenderNoEOA
    | FeeCapVeryHigh | TipVeryHigh | TipAboveFeeCap | FeeCapTooLow
    | InsufficientFunds | GasLimitReached
    | GasUintOverflow | TooLittleGas | InsufficientFundsForTransfer | CallStackLeft

  datatype Result = Err(error: Error) | Done(usedGas: nat, failed: bool)

  /** The price of a transaction's message: the tip on top of the base fee, up to the
      cap; before London the cap is the price. */
  function EffectivePrice(tipCap: nat, feeCap: nat, baseFee: Option<nat>): nat {
    if baseFee.None? then feeCap else Min(tipCap + baseFee.value, feeCap)
  }

  function Min(a: int, b: int): int { if a < b then a else b }

  predicate Priced(msg: Message, env: Env) { msg.gasPrice == EffectivePrice(msg.tipCap, msg.feeCap, env.baseFee) }

  function Nonce(w: World, a: Address): nat { if a in w.nonces then w.nonces[a] else 0 }

  /** The nonce checks of preCheck, in their order. */
  function NonceError(w: World, msg: Message): Option<Error> {
    if msg.fake then None
    else if Nonce(w, msg.from) < msg.nonce then Some(NonceTooHigh)
    else if Nonce(w, msg.from) > msg.nonce then Some(NonceTooLow)
    else if Nonce(w, msg.from) >= MAX_UINT64 then Some(NonceMax)
    else None
  }

  /** The checks that preCheck and preCheckSu share, including those of buyGas. */
  function BuyError(w: World, pool: nat, msg: Message, env: Env): Option<Error> {
    if !msg.fake && msg.from in w.code then Some(SenderNoEOA)
    else if env.baseFee.Some? && (!env.noBaseFee || msg.feeCap > 0 || msg.tipCap > 0)
         && FeeError(msg, env.baseFee.value).Some?
    then FeeError(msg, env.baseFee.value)
    else if Balance(w.balances, msg.from) < msg.gas * msg.feeCap + msg.value then Some(InsufficientFunds)
    else if pool < msg.gas then Some(GasLimitReached)
    else None
  }

  function FeeError(msg: Message, baseFee: nat): Option<Error> {
    if msg.feeCap >= MAX_FEE then Some(FeeCapVeryHigh)
    else if msg.tipCap >= MAX_FEE then Some(TipVeryHigh)
    else if msg.feeCap < msg.tipCap then Some(TipAboveFeeCap)
    else if msg.feeCap < baseFee then Some(FeeCapTooLow)
    else None
  }

  function Quotient(env: Env): nat { if env.baseFee.Some? then REFUND_QUOTIENT_EIP3529 else REFUND_QUOTIENT }

  function EffectiveTip(msg: Message, env: Env): int {
    if env.baseFee.None? then msg.gasPrice else Min(msg.tipCap, msg.feeCap - env.baseFee.value)
  }

  /** Whatever the caps are, the miner gets the price less the base fee. */
  lemma TipIsPriceLessBaseFee(msg: Message, env: Env)
    requires Priced(msg, env)
    ensures EffectiveTip(msg, env) == msg.gasPrice - if env.baseFee.Some? then env.baseFee.value else 0
  {
  }

  function Bought(w: World,
                  msg: Message): World { w.(balances := Add(w.balances, msg.from, -(msg.gas * msg.gasPrice))) }

  /** The state the EVM starts from: a call, unlike a creation, has its nonce raised
      beforehand, in 64 bits. */
  function Started(w: World, msg: Message): World {
    var bought := Bought(w, msg);
    if msg.to.None? then bought
    else bought.(nonces := bought.nonces[msg.from := (Nonce(bought, msg.from) + 1) % (MAX_UINT64 + 1)])
  }

  function CallOf(msg: Message, intrinsic: nat): Call
    requires intrinsic <= msg.gas
  {
    Call(msg.from, msg.to, msg.data, msg.gas - intrinsic, msg.value)
  }

  /** The refund counter, capped to a share of the used gas. */
  function CappedRefund(used: nat, quotient: nat, counter: nat): (r: nat)
    requires quotient > 0
    ensures r <= used && r <= counter && r <= used / quotient && (r == counter || r == used / quotient)
  {
    QuotientIsSmaller(used, quotient);
    if used / quotient > counter then counter else used / quotient
  }

  lemma QuotientIsSmaller(used: nat, quotient: nat)
    requires quotient > 0
    ensures 0 <= used / quotient <= used
  {
    var d := used / quotient;
    assert used == d * quotient + used % quotient;
    assert d >= 0;
    assert d * quotient == d + d * (quotient - 1);
    Scale(d, 0, quotient - 1);
  }

  /** The gas that goes back to the sender: what is left and the capped refund. */
  function Returned(msg: Message, env: Env, out: Outcome): (r: nat)
    requires out.gasLeft <= msg.gas
    ensures out.gasLeft <= r <= msg.gas
  {
    out.gasLeft + CappedRefund(msg.gas - out.gasLeft, Quotient(env), out.world.refund)
  }

  /** The balances after the refund to the sender and the reward of the miner. */
  function Paid(m: Ledger, msg: Message, env: Env, returned: int): Ledger {
    Add(Add(m, msg.from, returned * msg.gasPrice), env.coinbase, (msg.gas - returned) * EffectiveTip(msg, env))
  }

  /** What refunding and rewarding make of the outcome of the EVM. */
  function Settled(out: Outcome, rest: nat, msg: Message, env: Env): (Result, World, nat)
    requires out.gasLeft <= msg.gas
  {
    var returned := Returned(msg, env, out);
    (if out.callStack > 0 then Err(CallStackLeft) else Done(msg.gas - returned, out.failed),
     out.world.(balances := Paid(out.world.balances, msg, env, returned)), rest + returned)
  }

  /** What happens once the gas is bought, with what is left in the pool. */
  ghost function Applied(w: World, rest: nat, msg: Message, env: Env, evm: Evm): (Result, World, nat)
    requires Conserves(evm)
  {
    var intrinsic := Intrinsic(msg.data, msg.keys, msg.to.None?, env.homestead, env.istanbul);
    if intrinsic.None? then (Err(GasUintOverflow), Bought(w, msg), rest)
    else if msg.gas < intrinsic.value then (Err(TooLittleGas), Bought(w, msg), rest)
    else if msg.value > 0 && Balance(Bought(w, msg).balances, msg.from) < msg.value
    then (Err(InsufficientFundsForTransfer), Bought(w, msg), rest)
    else
      Settled(evm(Started(w, msg), CallOf(msg, intrinsic.value)), rest, msg, env)
  }

  /** What applying a message does to the state and the gas pool of the block. */
  ghost function Transition(w: World, pool: nat, msg: Message, env: Env, evm: Evm, nonces: bool): (Result, World, nat)
    requires Conserves(evm)
  {
    if nonces && NonceError(w, msg).Some? then (Err(NonceError(w, msg).value), w, pool)
    else if BuyError(w, pool, msg, env).Some? then (Err(BuyError(w, pool, msg, env).value), w, pool)
    else Applied(w, pool - msg.gas, msg, env, evm)
  }

  lemma FeesCancel(gas: int, returned: int, price: int, fee: int)
    ensures -(gas * price) + returned * price + (gas - returned) * (price - fee) == -((gas - returned) * fee)
  {
  }

  lemma PaidTotal(m: Ledger, msg: Message, env: Env, returned: int)
    ensures Total(Paid(m, msg, env, returned))
      == Total(m) + returned * msg.gasPrice + (msg.gas - returned) * EffectiveTip(msg, env)
  {
    var back, reward := returned * msg.gasPrice, (msg.gas - returned) * EffectiveTip(msg, env);
    TotalAdd(m, msg.from, back);
    TotalAdd(Add(m, msg.from, back), env.coinbase, reward);
  }

  /** A message that was applied lowers the sum of all balances by exactly the used gas
      times the base fee, and by nothing before London. */
  lemma EtherIsConserved(w: World, pool: nat, msg: Message, env: Env, evm: Evm, nonces: bool)
    requires Conserves(evm) && Priced(msg, env)
    ensures var (r, w', _) := Transition(w, pool, msg, env, evm, nonces);
      r.Done? ==>
        Total(w'.balances) == Total(w.balances) - r.usedGas * if env.baseFee.Some? then env.baseFee.value else 0
  {
    var (r, w', _) := Transition(w, pool, msg, env, evm, nonces);
    if r.Done? {
      var intrinsic := Intrinsic(msg.data, msg.keys, msg.to.None?, env.homestead, env.istanbul).value;
      var out := evm(Started(w, msg), CallOf(msg, intrinsic));
      var returned := Returned(msg, env, out);
      TotalAdd(w.balances, msg.from, -(msg.gas * msg.gasPrice));
      PaidTotal(out.world.balances, msg, env, returned);
      TipIsPriceLessBaseFee(msg, env);
      FeesCancel(msg.gas, returned, msg.gasPrice, if env.baseFee.Some? then env.baseFee.value else 0);
    }
  }

  /** The errors that come after the gas was bought. */
  predicate Late(e: Error) {
    e.GasUintOverflow? || e.TooLittleGas? || e.InsufficientFundsForTransfer? || e.CallStackLeft?
  }

  /** It lowers the gas pool by exactly the gas it used, which is at most the gas it
      bought; a message refused before that leaves everything as it was. */
  lemma PoolIsCharged(w: World, pool: nat, msg: Message, env: Env, evm: Evm, nonces: bool)
    requires Conserves(evm)
    ensures var (r, w', pool') := Transition(w, pool, msg, env, evm, nonces);
      && (r.Done? ==> pool' == pool - r.usedGas && r.usedGas <= msg.gas)
      && pool' <= pool
      && (r.Err? && !Late(r.error) ==> w' == w && pool' == pool)
  {
  }

  /** Without the nonce check the outcome is the same for every message whose nonce is
      right; for any other one the check refuses it and changes nothing. */
  lemma NonceCheckIsTheDifference(w: World, pool: nat, msg: Message, env: Env, evm: Evm)
    requires Conserves(evm)
    ensures NonceError(w, msg).None? ==>
      Transition(w, pool, msg, env, evm, true) == Transition(w, pool, msg, env, evm, false)
    ensures NonceError(w, msg).Some? ==>
      Transition(w, pool, msg, env, evm, true) == (Err(NonceError(w, msg).value), w, pool)
    ensures NonceError(w, msg).None? <==> msg.fake || (Nonce(w, msg.from) == msg.nonce && msg.nonce < MAX_UINT64)
  {
  }

  // ----- nonces

  /** The EVM lowers no nonce. */
  ghost predicate KeepsNonces(evm: Evm) {
    forall w: World, c: Call, a: Address :: Nonce(evm(w, c).world, a) >= Nonce(w, a)
  }

  /** A creation that its sender can pay for raises the nonce of the sender. */
  ghost predicate CountsCreations(evm: Evm) {
    forall w: World, c: Call ::
      c.to.None? && c.value <= Balance(w.balances, c.from) && Nonce(w, c.from) < MAX_UINT64 ==>
        Nonce(evm(w, c).world, c.from) > Nonce(w, c.from)
  }

  /** A message that was applied has used up its nonce: that of its sender is higher now,
      and no nonce is lower. */
  lemma NoncesRise(w: World, pool: nat, msg: Message, env: Env, evm: Evm, nonces: bool)
    requires Conserves(evm) && KeepsNonces(evm) && Nonce(w, msg.from) < MAX_UINT64
    ensures var (r, w', _) := Transition(w, pool, msg, env, evm, nonces);
      && (forall a :: Nonce(w', a) >= Nonce(w, a))
      && (r.Done? && (msg.to.Some? || (CountsCreations(evm) && Priced(msg, env))) ==>
            Nonce(w', msg.from) > Nonce(w, msg.from))
  {
    var (r, w', _) := Transition(w, pool, msg, env, evm, nonces);
    var intrinsic := Intrinsic(msg.data, msg.keys, msg.to.None?, env.homestead, env.istanbul);
    if !(nonces && NonceError(w, msg).Some?) && BuyError(w, pool, msg, env).None?
       && intrinsic.Some? && intrinsic.value <= msg.gas
    {
      var start, call := Started(w, msg), CallOf(msg, intrinsic.value);
      assert Nonce(start, msg.from) == Nonce(w, msg.from) + if msg.to.Some? then 1 else 0;
      assert forall a :: Nonce(evm(start, call).world, a) >= Nonce(start, a) >= Nonce(w, a);
      if Priced(msg, env) { ValueIsCovered(w, pool, msg, env); }
    }
  }

  /** No replay: once a message was applied it is refused in every later state, and changes
      nothing there. */
  lemma NoReplay(w: World, pool: nat, msg: Message, env: Env, evm: Evm, later: World, pool': nat, env': Env)
    requires Conserves(evm) && KeepsNonces(evm) && !msg.fake && Transition(w, pool, msg, env, evm, true).0.Done?
    requires msg.to.Some? || (CountsCreations(evm) && Priced(msg, env))
    requires Nonce(later, msg.from) >= Nonce(Transition(w, pool, msg, env, evm, true).1, msg.from)
    ensures Transition(later, pool', msg, env', evm, true) == (Err(NonceTooLow), later, pool')
  {
    NoncesRise(w, pool, msg, env, evm, true);
  }

  // ----- who pays

  /** What the EVM is started with: the state after the gas was bought, for a call with the
      nonce of the sender raised, and the gas less the intrinsic gas. */
  ghost predicate StartsFrom(w: World, msg: Message, start: World, call: Call, intrinsic: nat) {
    && (forall a :: Nonce(start, a) == if a == msg.from && msg.to.Some?
                                       then (Nonce(w, a) + 1) % 0x1_0000_0000_0000_0000 else Nonce(w, a))
    && (forall a :: Balance(start.balances, a)
                    == Balance(w.balances, a) - if a == msg.from then msg.gas * msg.gasPrice else 0)
    && start.code == w.code && start.refund == w.refund
    && call.from == msg.from && call.to == msg.to && call.data == msg.data && call.value == msg.value
    && call.gas + intrinsic == msg.gas
  }

  /** Besides what the EVM moves, the sender pays the used gas at its price, the miner gets
      the price less the base fee, and nobody else gets or pays anything. The used gas is
      what was spent less the refund, which is at most a fifth of it, before London half. */
  lemma WhoPays(w: World, pool: nat, msg: Message, env: Env, evm: Evm, nonces: bool)
    returns (start: World, call: Call, intrinsic: nat)
    requires Conserves(evm) && Priced(msg, env) && Transition(w, pool, msg, env, evm, nonces).0.Done?
    ensures StartsFrom(w, msg, start, call, intrinsic)
    ensures Intrinsic(msg.data, msg.keys, msg.to.None?, env.homestead, env.istanbul) == Some(intrinsic)
    ensures var (r, w', _) := Transition(w, pool, msg, env, evm, nonces);
      var out, fee := evm(start, call), if env.baseFee.Some? then env.baseFee.value else 0;
      && (forall a :: Balance(w'.balances, a) - Balance(w.balances, a)
                      == Balance(out.world.balances, a) - Balance(start.balances, a)
                         - (if a == msg.from then r.usedGas * msg.gasPrice else 0)
                         + (if a == env.coinbase then r.usedGas * (msg.gasPrice - fee) else 0))
      && w'.nonces == out.world.nonces && w'.code == out.world.code && r.failed == out.failed
      && var spent := msg.gas - out.gasLeft;
         r.usedGas == spent - Min(out.world.refund, spent / if env.baseFee.Some? then 5 else 2)
  {
    var (r, w', _) := Transition(w, pool, msg, env, evm, nonces);
    intrinsic := Intrinsic(msg.data, msg.keys, msg.to.None?, env.homestead, env.istanbul).value;
    start, call := Started(w, msg), CallOf(msg, intrinsic);
    var out := evm(start, call);
    var returned := Returned(msg, env, out);
    StartIs(w, msg, intrinsic);
    UsedIs(msg, env, out);
    TipIsPriceLessBaseFee(msg, env);
    assert w'.balances == Paid(out.world.balances, msg, env, returned) && r.usedGas == msg.gas - returned;
    forall a { PaidTo(w.balances, out.world.balances, msg, env, returned, a); }
  }

  lemma StartIs(w: World, msg: Message, intrinsic: nat)
    requires intrinsic <= msg.gas
    ensures StartsFrom(w, msg, Started(w, msg), CallOf(msg, intrinsic), intrinsic)
  {
  }

  lemma UsedIs(msg: Message, env: Env, out: Outcome)
    requires out.gasLeft <= msg.gas
    ensures var spent := msg.gas - out.gasLeft;
      msg.gas - Returned(msg, env, out)
      == spent - Min(out.world.refund, spent / if env.baseFee.Some? then 5 else 2)
  {
  }

  /** What an account gets in the end, with what its gas cost before. */
  lemma PaidTo(before: Ledger, m: Ledger, msg: Message, env: Env, returned: int, a: Address)
    ensures var cost := if a == msg.from then msg.gas * msg.gasPrice else 0;
      var used := msg.gas - returned;
      Balance(Paid(m, msg, env, returned), a) - Balance(before, a)
      == Balance(m, a) - (Balance(before, a) - cost)
         - (if a == msg.from then used * msg.gasPrice else 0)
         + (if a == env.coinbase then used * EffectiveTip(msg, env) else 0)
  {
    CostOfUsed(msg.gas, returned, msg.gasPrice);
  }

  lemma CostOfUsed(gas: int, returned: int, price: int)
    ensures -(gas * price) + returned * price == -((gas - returned) * price)
  {
  }

  /** Exactly when a message gets as far as being charged. */
  lemma ChargedIff(w: World, pool: nat, msg: Message, env: Env)
    ensures BuyError(w, pool, msg, env).None? <==>
      && (msg.fake || msg.from !in w.code)
      && (env.baseFee.Some? && (!env.noBaseFee || msg.feeCap > 0 || msg.tipCap > 0) ==>
            msg.tipCap <= msg.feeCap && env.baseFee.value <= msg.feeCap < MAX_FEE)
      && msg.gas * msg.feeCap + msg.value <= Balance(w.balances, msg.from) && msg.gas <= pool
  {
  }

  ghost predicate Solvent(m: Ledger) { forall a :: a in m ==> m[a] >= 0 }

  ghost predicate KeepsSolvent(evm: Evm) {
    forall w: World, c: Call ::
      Solvent(w.balances) && c.value <= Balance(w.balances, c.from) ==> Solvent(evm(w, c).world.balances)
  }

  lemma SolventAdd(m: Ledger, a: Address, v: int)
    requires Solvent(m) && Balance(m, a) + v >= 0
    ensures Solvent(Add(m, a, v))
  {
  }

  /** After buying gas at the price, which is at most the cap, the value is still there:
      the later check for it never fails. */
  lemma ValueIsCovered(w: World, pool: nat, msg: Message, env: Env)
    requires Priced(msg, env) && BuyError(w, pool, msg, env).None?
    ensures Balance(Bought(w, msg).balances, msg.from) >= msg.value
  {
    assert msg.gas * msg.gasPrice <= msg.gas * msg.feeCap by { Scale(msg.gas, msg.gasPrice, msg.feeCap); }
  }

  lemma Scale(k: nat, a: int, b: int)
    requires a <= b
    ensures k * a <= k * b
  {
  }

  /** The tip is not negative once the fees were checked. */
  lemma TipIsNotNegative(w: World, pool: nat, msg: Message, env: Env)
    requires BuyError(w, pool, msg, env).None?
    requires env.noBaseFee && env.baseFee.Some? ==> msg.feeCap > 0 || msg.tipCap > 0
    ensures EffectiveTip(msg, env) >= 0
  {
  }

  lemma PaidIsSolvent(m: Ledger, msg: Message, env: Env, returned: int)
    requires Solvent(m) && 0 <= returned <= msg.gas && EffectiveTip(msg, env) >= 0
    ensures Solvent(Paid(m, msg, env, returned))
  {
    Scale(returned, 0, msg.gasPrice);
    SolventAdd(m, msg.from, returned * msg.gasPrice);
    Scale(msg.gas - returned, 0, EffectiveTip(msg, env));
    SolventAdd(Add(m, msg.from, returned * msg.gasPrice), env.coinbase, (msg.gas - returned) * EffectiveTip(msg, env));
  }

  /** No balance becomes negative, unless the base fee is switched off for a message
      that offers nothing. */
  lemma StaysSolvent(w: World, pool: nat, msg: Message, env: Env, evm: Evm, nonces: bool)
    requires Conserves(evm) && KeepsSolvent(evm) && Priced(msg, env) && Solvent(w.balances)
    requires env.noBaseFee && env.baseFee.Some? ==> msg.feeCap > 0 || msg.tipCap > 0
    ensures Solvent(Transition(w, pool, msg, env, evm, nonces).1.balances)
    ensures Transition(w, pool, msg, env, evm, nonces).0 != Err(InsufficientFundsForTransfer)
  {
    if !(nonces && NonceError(w, msg).Some?) && BuyError(w, pool, msg, env).None? {
      ValueIsCovered(w, pool, msg, env);
      SolventAdd(w.balances, msg.from, -(msg.gas * msg.gasPrice));
      var intrinsic := Intrinsic(msg.data, msg.keys, msg.to.None?, env.homestead, env.istanbul);
      if intrinsic.Some? && intrinsic.value <= msg.gas {
        var out := evm(Started(w, msg), CallOf(msg, intrinsic.value));
        TipIsNotNegative(w, pool, msg, env);
        PaidIsSolvent(out.world.balances, msg, env, Returned(msg, env, out));
      }
    }
  }

  /** The gas available to the transactions of a block. */
  class GasPool {
    var gas: nat

    constructor (gas: nat)
      ensures this.gas == gas
    {
      this.gas := gas;
    }

    /** Panics in the source if the sum does not fit 64 bits, so callers must know that
        it does. */
    method AddGas(amount: nat)
      requires gas + amount <= MAX_UINT64
      modifies this
      ensures gas == old(gas) + amount
    {
      gas := gas + amount;
    }

    method SubGas(amount: nat) returns (ok: bool)
      modifies this
      ensures ok == (amount <= old(gas))
      ensures gas == if ok then old(gas) - amount else old(gas)
    {
      ok := gas >= amount;
      if ok { gas := gas - amount; }
    }
  }

  class StateDB {
    var balances: Ledger
    var nonces: map<Address, nat>
    var code: set<Address>
    var refund: nat

    constructor (w: World)
      ensures Value() == w
    {
      balances, nonces, code, refund := w.balances, w.nonces, w.code, w.refund;
    }

    ghost function Value(): World
      reads this
    {
      World(balances, nonces, code, refund)
    }

    method AddBalance(a: Address, v: int)
      modifies `balances
      ensures balances == Add(old(balances), a, v)
    {
      balances := Add(balances, a, v);
    }

    method SetNonce(a: Address, nonce: nat)
      modifies `nonces
      ensures nonces == old(nonces)[a := nonce]
    {
      nonces := nonces[a := nonce];
    }

    /** A call or a creation in the EVM. */
    method Run(evm: Evm, call: Call) returns (gasLeft: nat, failed: bool, callStack: nat)
      modifies this
      ensures evm(old(Value()), call) == Outcome(Value(), gasLeft, failed, callStack)
    {
      var out := evm(World(balances, nonces, code, refund), call);
      balances, nonces, code, refund := out.world.balances, out.world.nonces, out.world.code, out.world.refund;
      gasLeft, failed, callStack := out.gasLeft, out.failed, out.callStack;
    }

    /** Ends a transaction: the refund counter starts anew. */
    method Finalise()
      modifies `refund
      ensures refund == 0
    {
      refund := 0;
    }
  }

  class StateTransition {
    const gp: GasPool
    const state: StateDB
    const msg: Message
    const env: Env
    var gas: nat
    var initialGas: nat

    constructor (gp: GasPool, state: StateDB, msg: Message, env: Env)
      ensures this.gp == gp && this.state == state && this.msg == msg && this.env == env && gas == 0
    {
      this.gp, this.state, this.msg, this.env, gas, initialGas := gp, state, msg, env, 0, 0;
    }

    method BuyGas() returns (err: Option<Error>)
      requires gas == 0
      modifies this, gp, state
      ensures err == if Balance(old(state.balances),
                                msg.from) < msg.gas * msg.feeCap + msg.value then Some(InsufficientFunds)
                     else if old(gp.gas) < msg.gas then Some(GasLimitReached) else None
      ensures err.Some? ==> state.Value() == old(state.Value()) && gp.gas == old(gp.gas)
      ensures err.None? ==> state.Value() == Bought(old(state.Value()), msg) && gp.gas == old(gp.gas) - msg.gas
      ensures err.None? ==> gas == initialGas == msg.gas
    {
      var mgval := msg.gas * msg.gasPrice;
      var balanceCheck := msg.gas * msg.feeCap + msg.value;
      if Balance(state.balances, msg.from) < balanceCheck { return Some(InsufficientFunds); }
      var ok := gp.SubGas(msg.gas);
      if !ok { return Some(GasLimitReached); }
      gas, initialGas := gas + msg.gas, msg.gas;
      state.AddBalance(msg.from, -mgval);
      err := None;
    }

    /** The checks without the nonce. */
    method PreCheckSu() returns (err: Option<Error>)
      requires gas == 0
      modifies this, gp, state
      ensures err == BuyError(old(state.Value()), old(gp.gas), msg, env)
      ensures err.Some? ==> state.Value() == old(state.Value()) && gp.gas == old(gp.gas)
      ensures err.None? ==> state.Value() == Bought(old(state.Value()), msg) && gp.gas == old(gp.gas) - msg.gas
      ensures err.None? ==> gas == initialGas == msg.gas
    {
      if !msg.fake {
        if msg.from in state.code { return Some(SenderNoEOA); }
      }
      if env.baseFee.Some? {
        if !env.noBaseFee || msg.feeCap > 0 || msg.tipCap > 0 {
          if msg.feeCap >= MAX_FEE { return Some(FeeCapVeryHigh); }
          if msg.tipCap >= MAX_FEE { return Some(TipVeryHigh); }
          if msg.feeCap < msg.tipCap { return Some(TipAboveFeeCap); }
          if msg.feeCap < env.baseFee.value { return Some(FeeCapTooLow); }
        }
      }
      err := BuyGas();
    }

    method PreCheck() returns (err: Option<Error>)
      requires gas == 0
      modifies this, gp, state
      ensures err == if NonceError(old(state.Value()), msg).Some? then NonceError(old(state.Value()), msg)
                     else BuyError(old(state.Value()), old(gp.gas), msg, env)
      ensures err.Some? ==> state.Value() == old(state.Value()) && gp.gas == old(gp.gas)
      ensures err.None? ==> state.Value() == Bought(old(state.Value()), msg) && gp.gas == old(gp.gas) - msg.gas
      ensures err.None? ==> gas == initialGas == msg.gas
    {
      if !msg.fake {
        var stNonce := if msg.from in state.nonces then state.nonces[msg.from] else 0;
        if stNonce < msg.nonce { return Some(NonceTooHigh); }
        else if stNonce > msg.nonce { return Some(NonceTooLow); }
        else if stNonce >= MAX_UINT64 { return Some(NonceMax); }
      }
      err := PreCheckSu();
    }

    function GasUsed(): int
      reads this
    {
      initialGas - gas
    }

    /** Gives back the gas that is left and the capped refund, to the sender and to the
        pool. The pool cannot overflow. */
    method RefundGas(refundQuotient: nat)
      requires refundQuotient > 0 && gas <= initialGas && gp.gas + initialGas <= MAX_UINT64
      modifies `gas, gp, state`balances
      ensures gas == old(gas) + CappedRefund(initialGas - old(gas), refundQuotient, state.refund)
      ensures gas <= initialGas && gp.gas == old(gp.gas) + gas
      ensures state.balances == Add(old(state.balances), msg.from, gas * msg.gasPrice)
    {
      var refund := GasUsed() / refundQuotient;
      if refund > state.refund { refund := state.refund; }
      assert refund == CappedRefund(initialGas - gas, refundQuotient, state.refund);
      gas := gas + refund;
      var remaining := gas * msg.gasPrice;
      state.AddBalance(msg.from, remaining);
      gp.AddGas(gas);
    }

    /** Everything after the checks and the purchase of gas. */
    method Apply(evm: Evm, ghost w: World) returns (r: Result)
      requires Conserves(evm) && gp.gas + msg.gas <= MAX_UINT64
      requires state.Value() == Bought(w, msg) && gas == initialGas == msg.gas
      modifies this, gp, state
      ensures (r, state.Value(), gp.gas) == Applied(w, old(gp.gas), msg, env, evm)
    {
      var intrinsic := Compute(msg.data, msg.keys, msg.to.None?, env.homestead, env.istanbul);
      if intrinsic.None? { return Err(GasUintOverflow); }
      if gas < intrinsic.value { return Err(TooLittleGas); }
      gas := gas - intrinsic.value;
      if msg.value > 0 && Balance(state.balances, msg.from) < msg.value { return Err(InsufficientFundsForTransfer); }
      r := Execute(evm, w, intrinsic.value);
    }

    /** Runs the EVM, for a call after raising the nonce. */
    method Execute(evm: Evm, ghost w: World, ghost intrinsic: nat) returns (r: Result)
      requires Conserves(evm) && gp.gas + msg.gas <= MAX_UINT64 && intrinsic <= msg.gas
      requires state.Value() == Bought(w, msg) && initialGas == msg.gas && gas == msg.gas - intrinsic
      modifies this, gp, state
      ensures (r, state.Value(), gp.gas) == Settled(evm(Started(w, msg), CallOf(msg, intrinsic)), old(gp.gas), msg, env)
    {
      if msg.to.Some? {
        var nonce := if msg.from in state.nonces then state.nonces[msg.from] else 0;
        state.SetNonce(msg.from, (nonce + 1) % (MAX_UINT64 + 1));
      }
      assert state.Value() == Started(w, msg);
      var failed, callStack;
      gas, failed, callStack := state.Run(evm, Call(msg.from, msg.to, msg.data, gas, msg.value));
      r := Settle(failed, callStack);
    }

    /** Refunds the sender and pays the miner. */
    method Settle(failed: bool, callStack: nat) returns (r: Result)
      requires gas <= initialGas == msg.gas && gp.gas + initialGas <= MAX_UINT64
      modifies this, gp, state
      ensures (r, state.Value(), gp.gas) == Settled(Outcome(old(state.Value()), old(gas), failed, callStack),
               old(gp.gas), msg, env)
    {
      ghost var out := Outcome(state.Value(), gas, failed, callStack);
      if env.baseFee.None? {
        RefundGas(REFUND_QUOTIENT);
      } else {
        RefundGas(REFUND_QUOTIENT_EIP3529);
      }
      assert gas == Returned(msg, env, out);
      var effectiveTip := EffectiveTip(msg, env);
      state.AddBalance(env.coinbase, GasUsed() * effectiveTip);
      if callStack > 0 { return Err(CallStackLeft); }
      r := Done(GasUsed(), failed);
    }

    method TransitionDb(evm: Evm) returns (r: Result)
      requires Conserves(evm) && gp.gas <= MAX_UINT64 && gas == 0
      modifies this, gp, state
      ensures (r, state.Value(), gp.gas) == Transition(old(state.Value()), old(gp.gas), msg, env, evm, true)
    {
      var err := PreCheck();
      if err.Some? { return Err(err.value); }
      r := Apply(evm, old(state.Value()));
    }

    /** The variant without nonce check. */
    method TransitionDbTest(evm: Evm) returns (r: Result)
      requires Conserves(evm) && gp.gas <= MAX_UINT64 && gas == 0
      modifies this, gp, state
      ensures (r, state.Value(), gp.gas) == Transition(old(state.Value()), old(gp.gas), msg, env, evm, false)
    {
      var err := PreCheckSu();
      if err.Some? { return Err(err.value); }
      r := Apply(evm, old(state.Value()));
    }
  }
}

/** The transactions of a block, one after the other. */
module StateProcessors {
  import opened Transactions
  import opened IntrinsicGas
  import opened Ledgers
  import opened StateTransitions

  datatype Receipt = Receipt(cumulativeGasUsed: nat, gasUsed: nat, failed: bool)

  ghost function GasOf(receipts: seq<Receipt>): nat {
    if receipts == [] then 0 else GasOf(receipts[..|receipts| - 1]) + receipts[|receipts| - 1].gasUsed
  }

  /** Every receipt holds the gas used up to and including its transaction. */
  ghost predicate Cumulative(receipts: seq<Receipt>) {
    forall i :: 0 <= i < |receipts| ==> receipts[i].cumulativeGasUsed == GasOf(receipts[..i + 1])
  }

  ghost function BaseFee(env: Env): nat { if env.baseFee.Some? then env.baseFee.value else 0 }

  /** The state and the gas pool between two transactions of a block. */
  datatype Point = Point(world: World, pool: nat)

  datatype Attempt = Accepted(receipt: Receipt) | Refused(error: Error)

  /** What applying one transaction gives and leaves, after so much gas was used. */
  ghost function Stepped(p: Point, msg: Message, env: Env, evm: Evm, used: nat): (Attempt, Point)
    requires Conserves(evm)
  {
    var (r, w, pool) := Transition(p.world, p.pool, msg, env, evm, true);
    if r.Done? then (Accepted(Receipt(used + r.usedGas, r.usedGas, r.failed)), Point(w.(refund := 0), pool))
    else (Refused(r.error), Point(w, pool))
  }

  predicate StepKey(k: nat) { true }

  /** One transaction leads from a point to the next. */
  ghost predicate Applies(p: Point, msg: Message, env: Env, evm: Evm, used: nat, a: Attempt, q: Point)
    requires Conserves(evm)
  {
    forall k {:trigger StepKey(k)} :: StepKey(k) ==> (a, q) == Stepped(p, msg, env, evm, used)
  }

  /** On success the pool loses what the receipt holds, and the ether that disappears is
      that times the base fee. */
  lemma StepConserves(p: Point, msg: Message, env: Env, evm: Evm, used: nat, a: Attempt, q: Point)
    requires Conserves(evm) && Priced(msg, env) && Applies(p, msg, env, evm, used, a, q)
    ensures q.pool <= p.pool
    ensures a.Accepted? ==>
      && a.receipt.gasUsed <= msg.gas && a.receipt.cumulativeGasUsed == used + a.receipt.gasUsed
      && q.pool == p.pool - a.receipt.gasUsed && q.world.refund == 0
      && Total(q.world.balances) == Total(p.world.balances) - a.receipt.gasUsed * BaseFee(env)
  {
    assert StepKey(0);
    EtherIsConserved(p.world, p.pool, msg, env, evm, true);
    PoolIsCharged(p.world, p.pool, msg, env, evm, true);
  }

  method ApplyTransaction(gp: GasPool, state: StateDB, msg: Message, env: Env, evm: Evm, usedGas: nat)
    returns (a: Attempt)
    requires Conserves(evm) && gp.gas <= MAX_UINT64
    modifies gp, state
    ensures Applies(old(Point(state.Value(), gp.gas)), msg, env, evm, usedGas, a, Point(state.Value(), gp.gas))
  {
    var st := new StateTransition(gp, state, msg, env);
    var r := st.TransitionDb(evm);
    if r.Err? { return Refused(r.error); }
    state.Finalise();
    a := Accepted(Receipt(usedGas + r.usedGas, r.usedGas, r.failed));
  }

  /** The first transactions of a block, from point to point, with their receipts. */
  ghost predicate Trace(points: seq<Point>, msgs: seq<Message>, env: Env, evm: Evm, receipts: seq<Receipt>)
    requires Conserves(evm)
  {
    && |points| == |receipts| + 1 <= |msgs| + 1
    && forall i :: 0 <= i < |receipts| ==>
         Applies(points[i], msgs[i], env, evm, GasOf(receipts[..i]), Accepted(receipts[i]), points[i + 1])
  }

  lemma TraceStep(points: seq<Point>, msgs: seq<Message>, env: Env, evm: Evm, receipts: seq<Receipt>, r: Receipt,
                  q: Point)
    requires Conserves(evm) && Trace(points, msgs, env, evm, receipts) && |receipts| < |msgs|
    requires Applies(points[|receipts|], msgs[|receipts|], env, evm, GasOf(receipts), Accepted(r), q)
    ensures Trace(points + [q], msgs, env, evm, receipts + [r])
  {
    var points', receipts', n := points + [q], receipts + [r], |receipts|;
    forall i | 0 <= i < n + 1
      ensures Applies(points'[i], msgs[i], env, evm, GasOf(receipts'[..i]), Accepted(receipts'[i]), points'[i + 1])
    {
      if i < n {
        assert receipts'[..i] == receipts[..i];
        assert points'[i] == points[i] && points'[i + 1] == points[i + 1] && receipts'[i] == receipts[i];
        assert Applies(points[i], msgs[i], env, evm, GasOf(receipts[..i]), Accepted(receipts[i]), points[i + 1]);
      } else {
        assert receipts'[..n] == receipts;
      }
    }
  }

  /** One step of a trace. */
  lemma TraceAt(points: seq<Point>, msgs: seq<Message>, env: Env, evm: Evm, receipts: seq<Receipt>, k: nat, used: nat)
    requires Conserves(evm) && (forall m :: m in msgs ==> Priced(m, env)) && Trace(points, msgs, env, evm, receipts)
    requires k < |receipts| && used == GasOf(receipts[..k])
    ensures GasOf(receipts[..k + 1]) == used + receipts[k].gasUsed == receipts[k].cumulativeGasUsed
    ensures receipts[k].gasUsed <= msgs[k].gas && points[k + 1].pool == points[k].pool - receipts[k].gasUsed
    ensures Total(points[k + 1].world.balances)
      == Total(points[k].world.balances) - receipts[k].gasUsed * BaseFee(env)
  {
    assert msgs[k] in msgs;
    assert Applies(points[k], msgs[k], env, evm, used, Accepted(receipts[k]), points[k + 1]);
    StepConserves(points[k], msgs[k], env, evm, used, Accepted(receipts[k]), points[k + 1]);
    assert receipts[..k + 1] == receipts[..k] + [receipts[k]];
    GasOfSnoc(receipts[..k], receipts[k]);
  }

  /** Over the transactions of a block the gas pool and the gas used add up to what the
      pool held, and the ether that disappears is the gas used times the base fee. */
  lemma {:induction false} TraceConserves(points: seq<Point>, msgs: seq<Message>, env: Env, evm: Evm,
                                          receipts: seq<Receipt>, n: nat)
    requires Conserves(evm) && (forall m :: m in msgs ==> Priced(m, env)) && Trace(points, msgs, env, evm, receipts)
    requires n <= |receipts|
    ensures points[n].pool + GasOf(receipts[..n]) == points[0].pool
    ensures Total(points[n].world.balances) == Total(points[0].world.balances) - GasOf(receipts[..n]) * BaseFee(env)
  {
    if n > 0 {
      var k, used, gas := n - 1, GasOf(receipts[..n - 1]), GasOf(receipts[..n]);
      TraceConserves(points, msgs, env, evm, receipts, k);
      TraceAt(points, msgs, env, evm, receipts, k, used);
      Accrue(Total(points[0].world.balances), Total(points[k].world.balances), Total(points[n].world.balances),
             used, receipts[k].gasUsed, gas, BaseFee(env));
    }
  }

  lemma TraceReceipts(points: seq<Point>, msgs: seq<Message>, env: Env, evm: Evm, receipts: seq<Receipt>)
    requires Conserves(evm) && (forall m :: m in msgs ==> Priced(m, env)) && Trace(points, msgs, env, evm, receipts)
    ensures Cumulative(receipts) && forall i :: 0 <= i < |receipts| ==> receipts[i].gasUsed <= msgs[i].gas
  {
    forall i | 0 <= i < |receipts|
      ensures receipts[i].gasUsed <= msgs[i].gas && receipts[i].cumulativeGasUsed == GasOf(receipts[..i + 1])
    {
      TraceAt(points, msgs, env, evm, receipts, i, GasOf(receipts[..i]));
    }
  }

  /** The nonces of a block never go down. */
  lemma {:induction false} TraceNonces(points: seq<Point>, msgs: seq<Message>, env: Env, evm: Evm,
                                       receipts: seq<Receipt>, i: nat, j: nat, a: Address)
    requires Conserves(evm) && KeepsNonces(evm) && Trace(points, msgs, env, evm, receipts) && i <= j <= |receipts|
    requires forall m :: m in msgs ==> !m.fake
    ensures Nonce(points[i].world, a) <= Nonce(points[j].world, a)
    decreases j
  {
    if i < j {
      var k := j - 1;
      TraceNonces(points, msgs, env, evm, receipts, i, k, a);
      NonceStep(points, msgs, env, evm, receipts, k);
      assert points[k + 1] == points[j];
    }
  }

  lemma NonceStep(points: seq<Point>, msgs: seq<Message>, env: Env, evm: Evm, receipts: seq<Receipt>, k: nat)
    requires Conserves(evm) && KeepsNonces(evm) && Trace(points, msgs, env, evm, receipts) && k < |receipts|
    requires !msgs[k].fake
    ensures Nonce(points[k].world, msgs[k].from) == msgs[k].nonce
    ensures forall a :: Nonce(points[k].world, a) <= Nonce(points[k + 1].world, a)
    ensures msgs[k].to.Some? || (CountsCreations(evm) && Priced(msgs[k], env)) ==>
      Nonce(points[k + 1].world, msgs[k].from) > msgs[k].nonce
  {
    assert Applies(points[k], msgs[k], env, evm, GasOf(receipts[..k]), Accepted(receipts[k]), points[k + 1]);
    assert StepKey(0);
    NoncesRise(points[k].world, points[k].pool, msgs[k], env, evm, true);
  }

  /** The messages of a sender that a block accepts have rising nonces; so none is accepted
      twice. */
  lemma NoncesIncrease(points: seq<Point>, msgs: seq<Message>, env: Env, evm: Evm, receipts: seq<Receipt>, i: nat,
                       j: nat)
    requires Conserves(evm) && KeepsNonces(evm) && Trace(points, msgs, env, evm, receipts) && i < j < |receipts|
    requires (forall m :: m in msgs ==> !m.fake) && msgs[i].from == msgs[j].from
    requires msgs[i].to.Some? || (CountsCreations(evm) && Priced(msgs[i], env))
    ensures msgs[i].nonce < msgs[j].nonce && msgs[i] != msgs[j]
  {
    assert msgs[i] in msgs && msgs[j] in msgs;
    NonceStep(points, msgs, env, evm, receipts, i);
    NonceStep(points, msgs, env, evm, receipts, j);
    TraceNonces(points, msgs, env, evm, receipts, i + 1, j, msgs[i].from);
  }

  lemma Accrue(start: int, mid: int, end: int, used: int, more: int, gas: int, fee: int)
    requires mid == start - used * fee && end == mid - more * fee && gas == used + more
    ensures end == start - gas * fee
  {
  }

  /** There is one trace: two that start at the same point agree as far as both go. */
  lemma {:induction false} TraceIsUnique(points: seq<Point>, receipts: seq<Receipt>, points': seq<Point>,
                                         receipts': seq<Receipt>, msgs: seq<Message>, env: Env, evm: Evm, n: nat)
    requires Conserves(evm) && Trace(points, msgs, env, evm, receipts) && Trace(points', msgs, env, evm, receipts')
    requires points[0] == points'[0] && n <= |receipts| && n <= |receipts'|
    ensures points[n] == points'[n] && receipts[..n] == receipts'[..n]
  {
    if n > 0 {
      var k := n - 1;
      TraceIsUnique(points, receipts, points', receipts', msgs, env, evm, k);
      assert Applies(points[k], msgs[k], env, evm, GasOf(receipts[..k]), Accepted(receipts[k]), points[k + 1]);
      assert Applies(points'[k], msgs[k], env, evm, GasOf(receipts'[..k]), Accepted(receipts'[k]), points'[k + 1]);
      OneOutcome(points[k], msgs[k], env, evm, GasOf(receipts[..k]), Accepted(receipts[k]), points[n],
                 Accepted(receipts'[k]), points'[n]);
      assert receipts[..n] == receipts[..k] + [receipts[k]] && receipts'[..n] == receipts'[..k] + [receipts'[k]];
    }
  }

  lemma OneOutcome(p: Point, msg: Message, env: Env, evm: Evm, used: nat, a: Attempt, q: Point, a': Attempt, q': Point)
    requires Conserves(evm) && Applies(p, msg, env, evm, used, a, q) && Applies(p, msg, env, evm, used, a', q')
    ensures a == a' && q == q'
  {
    assert StepKey(0);
  }

  /** A whole block, one transaction after the other, from point to point: either all are
      accepted, or it fails at the first that is refused. */
  method Process(gasLimit: nat, state: StateDB, msgs: seq<Message>, env: Env, evm: Evm)
    returns (gp: GasPool, receipts: seq<Receipt>, usedGas: nat, failure: Option<(nat, Error)>,
             ghost points: seq<Point>, ghost accepted: seq<Receipt>)
    requires Conserves(evm) && gasLimit <= MAX_UINT64 && forall m :: m in msgs ==> Priced(m, env)
    modifies state
    ensures Trace(points, msgs, env, evm, accepted) && points[0] == old(Point(state.Value(), gasLimit))
    ensures failure.None? ==>
      receipts == accepted && |receipts| == |msgs| && points[|msgs|] == Point(state.Value(), gp.gas)
    ensures failure.Some? ==> receipts == [] && usedGas == 0 && failure.value.0 == |accepted| < |msgs|
    ensures failure.Some? ==>
      Applies(points[|accepted|], msgs[|accepted|], env, evm, GasOf(accepted), Refused(failure.value.1),
              Point(state.Value(), gp.gas))
    ensures failure.None? ==> usedGas == GasOf(receipts) && gp.gas + usedGas == gasLimit && Cumulative(receipts)
    ensures failure.None? ==> forall i :: 0 <= i < |msgs| ==> receipts[i].gasUsed <= msgs[i].gas
    ensures failure.None? ==> Total(state.balances) == old(Total(state.balances)) - usedGas * BaseFee(env)
  {
    gp := new GasPool(0);
    gp.AddGas(gasLimit);
    receipts, usedGas, failure := [], 0, None;
    points := [Point(state.Value(), gasLimit)];
    for i := 0 to |msgs|
      invariant fresh(gp) && gp.gas <= gasLimit && |receipts| == i && usedGas == GasOf(receipts)
      invariant Trace(points, msgs, env, evm, receipts) && points[0] == old(Point(state.Value(), gasLimit))
      invariant points[i] == Point(state.Value(), gp.gas)
    {
      var a := ApplyTransaction(gp, state, msgs[i], env, evm, usedGas);
      ghost var q := Point(state.Value(), gp.gas);
      if a.Refused? { return gp, [], 0, Some((i, a.error)), points, receipts; }
      assert msgs[i] in msgs;
      StepConserves(points[i], msgs[i], env, evm, usedGas, a, q);
      TraceStep(points, msgs, env, evm, receipts, a.receipt, q);
      GasOfSnoc(receipts, a.receipt);
      receipts, usedGas, points := receipts + [a.receipt], usedGas + a.receipt.gasUsed, points + [q];
    }
    accepted := receipts;
    TraceConserves(points, msgs, env, evm, receipts, |receipts|);
    TraceReceipts(points, msgs, env, evm, receipts);
    assert receipts[..|receipts|] == receipts;
  }

  lemma GasOfSnoc(receipts: seq<Receipt>, r: Receipt)
    ensures GasOf(receipts + [r]) == GasOf(receipts) + r.gasUsed
  {
    assert (receipts + [r])[..|receipts|] == receipts;
  }
}
