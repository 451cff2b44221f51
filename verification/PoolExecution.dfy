/** What the pool admits, a block can hold. */
module PoolExecution {
  import opened Transactions
  import opened Ledgers
  import opened IntrinsicGas
  import opened PoolAdditions
  import S = StateTransitions

  /** The message of a transaction in a block with the base fee. */
  function MessageOf(tx: Tx, to: Option<Address>, baseFee: Option<nat>): S.Message
    requires tx.sender.Some? && tx.value >= 0
  {
    S.Message(tx.sender.value, to, tx.nonce, tx.gas, S.EffectivePrice(tx.gasTipCap, tx.gasFeeCap, baseFee),
              tx.gasFeeCap, tx.gasTipCap, tx.value, false, tx.data, tx.keys)
  }

  /** The block is on top of the head that the pool follows: the state of the sender is the
      one the pool goes by, there is room for the gas, and the rules are the same. */
  ghost predicate BlockOn(s: Snapshot, tx: Tx, a: Address, w: S.World, gasPool: nat, env: S.Env) {
    && S.Nonce(w, a) == s.state.nonce(a) == tx.nonce && tx.nonce < MAX_UINT64
    && Balance(w.balances, a) == s.state.balance(a) && a !in w.code
    && gasPool >= tx.gas && env.homestead && env.istanbul == s.forks.istanbul
    && (env.baseFee.Some? ==> env.baseFee.value <= tx.gasFeeCap)
  }

  /** A transaction that the pool admits passes every check of its execution on top of the
      same head, once it is its turn and its fee cap covers the base fee: nonce, sender, fees,
      balance, gas of the block and intrinsic gas. */
  lemma AdmissibleExecutes(s: Snapshot, tx: Tx, local: bool, a: Address, to: Option<Address>, w: S.World, gasPool: nat,
                           env: S.Env)
    requires Admissible(s, tx, local) && tx.sender == Some(a) && (to.None? <==> tx.creation)
    requires BlockOn(s, tx, a, w, gasPool, env)
    ensures tx.value >= 0
    ensures var msg := MessageOf(tx, to, env.baseFee);
      var intrinsic := Intrinsic(msg.data, msg.keys, msg.to.None?, env.homestead, env.istanbul);
      && S.NonceError(w, msg).None? && S.BuyError(w, gasPool, msg, env).None?
      && intrinsic.Some? && intrinsic.value <= msg.gas
      && Balance(S.Bought(w, msg).balances, a) >= msg.value
  {
    AdmissibleMeans(s, tx, local, a);
    var msg := MessageOf(tx, to, env.baseFee);
    IsCharged(tx, a, msg, w, gasPool, env, s.state.balance(a));
    S.ValueIsCovered(w, gasPool, msg, env);
  }

  /** What the checks of the pool have in common with those of the execution. */
  lemma AdmissibleMeans(s: Snapshot, tx: Tx, local: bool, a: Address)
    requires Admissible(s, tx, local) && tx.sender == Some(a)
    ensures 0 <= tx.value && tx.gasTipCap <= tx.gasFeeCap < TWO_256 && Cost(tx) <= s.state.balance(a)
    ensures var need := Intrinsic(tx.data, tx.keys, tx.creation, true, s.forks.istanbul);
      need.Some? && need.value <= tx.gas
  {
    assert !Violates(s, tx, local, NegativeValue) && !Violates(s, tx, local, FeeCapVeryHigh);
    assert !Violates(s, tx, local, TipAboveFeeCap) && !Violates(s, tx, local, InsufficientFunds);
    assert !Violates(s, tx, local, GasUintOverflow) && !Violates(s, tx, local, IntrinsicGasTooLow);
  }

  lemma IsCharged(tx: Tx, a: Address, msg: S.Message, w: S.World, gasPool: nat, env: S.Env, balance: nat)
    requires 0 <= tx.value && tx.gasTipCap <= tx.gasFeeCap < TWO_256 && Cost(tx) <= balance
    requires Balance(w.balances, a) == balance && a !in w.code && gasPool >= tx.gas
    requires env.baseFee.Some? ==> env.baseFee.value <= tx.gasFeeCap
    requires msg.from == a && msg.gas == tx.gas && msg.feeCap == tx.gasFeeCap && msg.tipCap == tx.gasTipCap
    requires msg.value == tx.value
    ensures S.BuyError(w, gasPool, msg, env).None?
  {
    S.ChargedIff(w, gasPool, msg, env);
    assert msg.gas * msg.feeCap == tx.gasFeeCap * tx.gas;
  }

  /** So it is executed and not refused, whatever the EVM makes of it. */
  lemma AdmissibleIsApplied(s: Snapshot, tx: Tx, local: bool, a: Address, to: Option<Address>, w: S.World,
                            gasPool: nat, env: S.Env, evm: S.Evm)
    requires Admissible(s, tx, local) && tx.sender == Some(a) && (to.None? <==> tx.creation) && S.Conserves(evm)
    requires BlockOn(s, tx, a, w, gasPool, env)
    ensures tx.value >= 0
    ensures var r := S.Transition(w, gasPool, MessageOf(tx, to, env.baseFee), env, evm, true).0;
      r.Done? || r == S.Err(S.CallStackLeft)
  {
    AdmissibleExecutes(s, tx, local, a, to, w, gasPool, env);
  }
}
