/** The transaction pool. */
module TxPools {
  import opened Transactions
  import opened NonceMaps
  import opened TxLists
  import opened TxLookups
  import opened HeapEntries
  import opened PricedLists
  import opened PoolLists
  import opened PoolSteps
  import opened PoolPasses
  import opened WaterLevel
  import opened QueueLimit
  import opened PoolAdditions
  import opened PoolStates
  import IntrinsicGas
  import opened Reinjection

  class TxPool {
    const config: Config
    var gasPrice: nat
    var state: ChainState
    var maxGas: nat
    var forks: Forks
    var locals: set<Address>
    var pending: Lists
    var queue: Lists
    var beats: map<Address, nat>
    var now: nat
    var changes: nat
    const all: TxLookup
    const priced: TxPricedList
    var noncer: TxNoncer
    ghost var fee: Option<nat>       // the base fee that the price heaps go by
    ghost var file: File             // the lookup and the heaps when last recorded

    /** The lookup equals the disjoint union of the lists, and its slot count is right. */
    ghost predicate Partition()
      reads this, all, priced
    {
      all.Valid() && PoolInv(all.All(), pending, queue) && Filed()
    }

    /** Nothing was added to the lookup or the heaps or changed sides unnoticed. */
    ghost predicate Filed()
      reads this, all, priced
    {
      InFile(all.All(), all.remotes, priced.urgent, priced.floating, file)
    }

    /** Records the lookup and the heaps. */
    ghost method Record()
      modifies this`file
      ensures file == FileOf(Snap()) && Filed()
    {
      file := File(all.All(), all.remotes, priced.urgent, priced.floating);
      NewFile(all.All(), all.remotes, priced.urgent, priced.floating);
    }

    ghost predicate Priced()
      reads this, priced
    {
      priced.all == all && priced.Valid() && priced.baseFee == fee
    }

    /** Every remote transaction is tracked by the price heaps. */
    ghost predicate Tracked()
      reads this, all, priced
    {
      Priced() && priced.Covering([])
    }

    ghost predicate Valid()
      reads this, all, priced
    {
      Partition() && Tracked()
    }

    ghost function Contents(): View
      reads this, noncer
    {
      View(pending, queue, noncer.nonces, beats)
    }

    ghost function Snap(): Snapshot
      reads this, all, priced, noncer
    {
      Snapshot(Contents(), all.All(), all.remotes, all.slots, priced.urgent, priced.floating, fee,
               state, maxGas, forks, gasPrice, locals, changes, now)
    }

    /** Every pending list is the interval from the chain nonce to the pool nonce. */
    ghost predicate Aligned()
      reads this, noncer
    {
      noncer.fallback == state.nonce && NoncesOk(Contents(), state.nonce)
    }

    constructor (config: Config, state: ChainState, maxGas: nat, forks: Forks, gasPrice: nat, locals: set<Address>)
      ensures Valid() && Aligned() && all.All() == map[] && pending == map[] && queue == map[] && beats == map[]
      ensures this.config == config && this.state == state && this.maxGas == maxGas && this.forks == forks
      ensures this.gasPrice == gasPrice && this.locals == locals
      ensures fresh(all) && fresh(priced) && fresh(noncer) && noncer.fallback == state.nonce
      ensures priced.urgent == [] && priced.floating == []
    {
      var lookup := new TxLookup();
      var heaps := new TxPricedList(lookup);
      var nonces := new TxNoncer(state.nonce);
      this.config, this.state, this.maxGas, this.forks := config, state, maxGas, forks;
      this.gasPrice, this.locals := gasPrice, locals;
      this.pending, this.queue, this.beats, this.now, this.changes := map[], map[], map[], 0, 0;
      this.all, this.priced, this.noncer, fee, file := lookup, heaps, nonces, None, File(map[], map[], [], []);
    }

    /** Drops a transaction from the lookup. */
    method Unfile(hash: Hash)
      requires all.Valid() && Filed()
      modifies all
      ensures all.Valid() && Filed() && all.All() == old(all.All()) - {hash} && all.remotes == old(all.remotes) - {hash}
    {
      all.Remove(hash);
      FileMinus(old(all.All()), old(all.remotes), priced.urgent, priced.floating, file, {hash}, all.All(), all.remotes);
    }

    /** Drops a transaction from the lookup and tells the price heaps. */
    method Forget(hash: Hash)
      requires all.Valid() && Tracked()
      modifies all, priced
      ensures all.Valid() && Tracked() && all.All() == old(all.All()) - {hash}
      ensures all.remotes == old(all.remotes) - {hash}
      ensures Stocked(old(all.remotes), old(priced.urgent), old(priced.floating), multiset{}, priced.urgent,
                      priced.floating)
      ensures old(Filed()) ==> Filed()
    {
      ghost var content, remotes, u, f := all.All(), all.remotes, priced.urgent, priced.floating;
      all.Remove(hash);
      CoversFewer(remotes, u, f, all.remotes);
      priced.Removed(1);
      StockedFrom(remotes, all.remotes, u, f, priced.urgent, priced.floating);
      if InFile(content, remotes, u, f, file) {
        FileMinus(content, remotes, u, f, file, {hash}, all.All(), all.remotes);
        FileStocked(all.All(), all.remotes, u, f, file, priced.urgent, priced.floating);
      }
    }

    /** Enters a transaction in the lookup and the price heaps. */
    method Track(tx: Tx, local: bool)
      requires all.Valid() && Tracked() && tx.hash !in all.All()
      modifies all, priced
      ensures all.Valid() && Tracked() && all.All() == old(all.All())[tx.hash := tx]
      ensures all.remotes == if local then old(all.remotes) else old(all.remotes)[tx.hash := tx]
      ensures Stocked(old(all.remotes), old(priced.urgent), old(priced.floating), Addition(tx, !local), priced.urgent,
                      priced.floating)
    {
      StockedSame(all.remotes, priced.urgent, priced.floating);
      all.Add(tx, local);
      priced.Put(tx, local);
      if !local { PutIsStocked(old(all.remotes), old(priced.urgent), priced.floating, tx, priced.urgent); }
    }

    /** Queues a transaction whose slot is free or that outbids its holder, and enters it
        in the lookup unless that holds it already. */
    method EnqueueTx(tx: Tx, from: Address, local: bool, addAll: bool) returns (replaced: bool, ok: bool)
      requires tx.sender == Some(from) && (addAll ==> tx.hash !in all.All())
      requires all.Valid() && (addAll || tx.nonce in At(queue, from) ==> Tracked())
      modifies this`queue, this`beats, all, priced
      ensures all.Valid() && (addAll || tx.nonce in old(At(queue, from)) ==> Tracked())
      ensures ok == Accepts(old(At(queue, from)), tx, config.priceBump)
      ensures replaced == (ok && tx.nonce in old(At(queue, from)))
      ensures ok ==> queue == With(old(queue), from, old(At(queue, from))[tx.nonce := tx])
      ensures !ok ==> queue == old(queue) && unchanged(all) && unchanged(priced)
      ensures ok ==> all.All() == Entered(Without(old(all.All()), old(At(queue, from)), tx.nonce), tx, addAll)
      ensures ok ==>
        all.remotes == Entered(Without(old(all.remotes), old(At(queue, from)), tx.nonce), tx, addAll && !local)
      ensures beats == if ok then Noted(old(beats), from, now) else old(beats)
      ensures !addAll && !replaced ==> unchanged(all) && unchanged(priced)
      ensures Stocked(old(all.remotes), old(priced.urgent), old(priced.floating), Addition(tx, ok && addAll && !local),
                      priced.urgent, priced.floating)
    {
      var q := At(queue, from);
      ok, replaced := Accepts(q, tx, config.priceBump), false;
      StockedSame(all.remotes, priced.urgent, priced.floating);
      if !ok {
        return;
      }
      queue := With(queue, from, q[tx.nonce := tx]);
      if tx.nonce in q {
        replaced := true;
        Forget(q[tx.nonce].hash);
      }
      if addAll {
        ghost var remotes, u, f := all.remotes, priced.urgent, priced.floating;
        Track(tx, local);
        StockedTwice(old(all.remotes), old(priced.urgent), old(priced.floating), multiset{}, remotes, u, f,
                     Addition(tx, !local), priced.urgent, priced.floating);
      }
      if from !in beats {
        beats := beats[from := now];
      }
    }

    /** Moves transactions that lost their place in the pending list to the queue. The
        partition makes sure that their nonces are free there. */
    method Postpone(from: Address, txs: NonceMap)
      requires Owned(txs, from) && txs.Keys !! At(queue, from).Keys && NoEmptyList(queue) && all.Valid()
      modifies this`queue, this`beats, all, priced
      ensures queue == With(old(queue), from, old(At(queue, from)) + txs)
      ensures beats == if txs == map[] then old(beats) else Noted(old(beats), from, now)
      ensures unchanged(all) && unchanged(priced)
    {
      var rest := txs;
      ghost var was, q := queue, At(queue, from);
      ghost var grown, begun := q, false;
      NothingLeft(q, txs);
      WithSame(queue, from);
      while rest != map[]
        invariant rest.Keys <= txs.Keys && grown == q + (txs - rest.Keys)
        invariant queue == With(was, from, grown) && unchanged(all) && unchanged(priced)
        invariant if begun then txs != map[] else rest == txs
        invariant beats == if begun then Noted(old(beats), from, now) else old(beats)
        decreases |rest|
      {
        var n :| n in rest;
        SizeOfRemoval(rest, n);
        OneMore(q, txs, rest, n);
        WithTwice(was, from, grown, grown[n := txs[n]]);
        var _, _ := EnqueueTx(txs[n], from, false, false);
        rest, grown, begun := rest - {n}, grown[n := txs[n]], true;
      }
    }

    /** Removes the transaction with the given hash, and queues again any pending
        transactions that it leaves behind a gap. */
    method RemoveTx(hash: Hash, outofbound: bool)
      requires Partition() && Priced() && (outofbound ==> priced.Covering([]))
      requires noncer.fallback == state.nonce
      modifies this`pending, this`queue, this`beats, all, priced, noncer
      ensures Partition() && Priced()
      ensures if outofbound then priced.Covering([]) else unchanged(priced)
      ensures all.All() == old(all.All()) - {hash} && all.remotes == old(all.remotes) - {hash}
      ensures Contents() == if hash in old(all.All())
        then Removal(old(Contents()), state.nonce, now, old(all.All())[hash]) else old(Contents())
    {
      var found := all.Get(hash);
      if found.None? {
        assert all.All() - {hash} == all.All();
        assert all.remotes - {hash} == all.remotes;
        return;
      }
      ghost var content := all.All();
      Account(content, pending, queue, 0);
      if outofbound {
        Forget(hash);
      } else {
        Unfile(hash);
      }
      Unlist(found.value, content);
    }

    /** Removes a transaction that is out of the lookup from its list. */
    method Unlist(tx: Tx, ghost content: Content)
      requires PoolInv(content, pending, queue) && Holds(content, tx) && noncer.fallback == state.nonce && all.Valid()
      modifies this`pending, this`queue, this`beats, noncer, all, priced
      ensures PoolInv(content - {tx.hash}, pending, queue) && unchanged(all) && unchanged(priced)
      ensures Contents() == Removal(old(Contents()), state.nonce, now, tx)
    {
      Located(content, pending, queue, tx);
      var a := tx.sender.value;
      if tx.nonce in At(pending, a) {
        RemovePending(tx, a, content);
      } else {
        RemoveQueued(tx, a, content);
      }
    }

    method RemovePending(tx: Tx, a: Address, ghost content: Content)
      requires PoolInv(content, pending, queue) && Holds(content, tx) && tx.sender == Some(a)
      requires tx.nonce in At(pending, a) && noncer.fallback == state.nonce && all.Valid()
      modifies this`pending, this`queue, this`beats, noncer, all, priced
      ensures PoolInv(content - {tx.hash}, pending, queue) && unchanged(all) && unchanged(priced)
      ensures Contents() == CutView(old(Contents()), state.nonce, now, a, tx.nonce)
    {
      var p := At(pending, a);
      var low, tail := Below(p, tx.nonce), AtLeast(p, tx.nonce + 1);
      CutIsReady(content, pending, queue, tx, a, low, tail);
      pending := With(pending, a, low);
      Postpone(a, tail);
      noncer.SetIfLower(a, tx.nonce);
      CutViewIs(old(Contents()), state.nonce, now, a, tx.nonce, low, tail, Contents());
    }

    method RemoveQueued(tx: Tx, a: Address, ghost content: Content)
      requires PoolInv(content, pending, queue) && Holds(content, tx) && tx.sender == Some(a)
      requires tx.nonce !in At(pending, a)
      modifies this`queue, this`beats
      ensures PoolInv(content - {tx.hash}, pending, queue)
      ensures Contents() == TakeView(old(Contents()), a, tx.nonce)
    {
      var rest := At(queue, a) - {tx.nonce};
      TakeKeepsInv(content, pending, queue, tx, a, rest);
      Located(content, pending, queue, tx);
      Requeue(a, rest);
    }

    /** Adds a transaction to its account's pending list if its nonce is free there or it
        outbids the holder; otherwise it is dropped. */
    method PromoteTx(a: Address, tx: Tx) returns (promoted: bool)
      requires tx.sender == Some(a) && all.Valid() && (tx.nonce in At(pending, a) ==> Tracked())
      modifies this`pending, this`beats, noncer, all, priced
      ensures all.Valid() && (tx.nonce in old(At(pending, a)) ==> Tracked())
      ensures promoted == Accepts(old(At(pending, a)), tx, config.priceBump)
      ensures !promoted ==> pending == old(pending) && unchanged(noncer) && all.All() == old(all.All()) - {tx.hash}
      ensures promoted ==> pending == With(old(pending), a, old(At(pending, a))[tx.nonce := tx])
      ensures promoted ==> noncer.nonces == old(noncer.nonces)[a := tx.nonce + 1]
      ensures promoted && tx.nonce in old(At(pending, a)) ==>
        all.All() == old(all.All()) - {old(At(pending, a))[tx.nonce].hash}
      ensures beats == if promoted then old(beats)[a := now] else old(beats)
      ensures tx.nonce !in old(At(pending, a)) ==> promoted && unchanged(all) && unchanged(priced)
    {
      var p := At(pending, a);
      promoted := Accepts(p, tx, config.priceBump);
      if !promoted {
        Forget(tx.hash);
        return;
      }
      if tx.nonce in p {
        Forget(p[tx.nonce].hash);
      }
      pending := With(pending, a, p[tx.nonce := tx]);
      noncer.Set(a, tx.nonce + 1);
      beats := beats[a := now];
    }

    /** Promotes a run of transactions in nonce order. */
    method PromoteRun(a: Address, run: NonceMap, ghost pool: nat)
      requires Owned(run, a) && run.Keys !! At(pending, a).Keys && NoEmptyList(pending) && all.Valid()
      requires a in noncer.nonces && noncer.nonces[a] == pool
      modifies this`pending, this`beats, noncer, all, priced
      ensures pending == With(old(pending), a, old(At(pending, a)) + run)
      ensures noncer.nonces == old(noncer.nonces)[a := NextNonce(run, pool)]
      ensures beats == if run == map[] then old(beats) else old(beats)[a := now]
      ensures unchanged(all) && unchanged(priced)
    {
      var rest := run;
      ghost var was, p := pending, At(pending, a);
      ghost var nonces: map<Address, nat> := noncer.nonces;
      ghost var grown: NonceMap, next: nat, begun := p, pool, false;
      RunStarts(p, run, pool);
      WithSame(pending, a);
      SetTwice(nonces, a, pool, pool);
      while rest != map[]
        invariant PartlyRun(p, run, rest, pool, grown, next)
        invariant pending == With(was, a, grown) && noncer.nonces == nonces[a := next]
        invariant unchanged(all) && unchanged(priced) && (if begun then run != map[] else rest == run)
        invariant beats == if begun then old(beats)[a := now] else old(beats)
        decreases |rest|
      {
        var n: nat := MinKey(rest);
        RunStep(p, run, rest, n, pool, grown, next, a);
        var tx := run[n];
        ghost var above: nat, longer: NonceMap := tx.nonce + 1, grown[n := tx];
        WithTwice(was, a, grown, longer);
        SetTwice(nonces, a, next, above);
        SetTwice(old(beats), a, now, now);
        var _ := PromoteTx(a, tx);
        rest, grown, next, begun := rest - {n}, longer, above, true;
      }
      RunEnds(p, run, pool, grown, next);
    }

    /** Drops three lists of transactions from the lookup and reports their number
        to the price heaps. */
    method DropListed(x: NonceMap, y: NonceMap, z: NonceMap)
      requires all.Valid() && Tracked() && Filed()
      modifies all, priced
      ensures all.Valid() && Tracked() && Filed()
      ensures all.All() == old(all.All()) - (Hashes(x) + Hashes(y) + Hashes(z))
    {
      ghost var content, first, rest := all.All(), Hashes(x) + Hashes(y), Hashes(z);
      ForgetListed(x, y);
      assert rest + Hashes(map[]) == rest;
      ForgetListed(z, map[]);
      MinusUnion(content, first, rest);
      Report(|x| + |y| + |z|);
    }

    /** Tells the price heaps that transactions are gone. */
    method Report(count: nat)
      requires all.Valid() && Tracked() && Filed()
      modifies priced
      ensures Tracked() && Filed()
    {
      ghost var u, f := priced.urgent, priced.floating;
      priced.Removed(count);
      FileStocked(all.All(), all.remotes, u, f, file, priced.urgent, priced.floating);
    }

    /** The queue of one account: drops what is old or unpayable, promotes the run
        from the pool nonce on, and caps the rest. */
    method PromoteAccount(a: Address)
      returns (run: NonceMap, ghost pool: nat, ghost usable: NonceMap, ghost kept: NonceMap)
      requires Valid() && noncer.fallback == state.nonce && a in queue
      modifies this`pending, this`queue, this`beats, all, priced, noncer
      ensures Valid() && pool == PoolNonce(old(noncer.nonces), state.nonce, a)
      ensures Promotes(old(At(queue, a)), old(state.nonce(a)), old(state.balance(a)), old(maxGas), pool,
                       old(a in locals),
                       config.accountQueue, usable, run, kept)
      ensures pending == With(old(pending), a, old(At(pending, a)) + run)
      ensures queue == With(old(queue), a, kept)
      ensures noncer.nonces == old(noncer.nonces)[a := NextNonce(run, pool)]
      ensures beats == PromotedBeats(old(beats), a, run, kept, now)
    {
      var q, chain, balance, limit, local := At(queue, a), state.nonce(a), state.balance(a), maxGas, a in locals;
      var start := noncer.Get(a);
      var plan;
      plan, usable := PlanPromotion(q, chain, balance, limit, start, local, config.accountQueue);
      run, pool, kept := plan.run, start, plan.kept;
      SetTwice(noncer.nonces, a, start, NextNonce(run, start));
      SetTwice(old(noncer.nonces), a, start, NextNonce(run, start));
      ApplyPlan(a, plan, start);
    }

    method ApplyPlan(a: Address, plan: Plan, ghost pool: nat)
      requires Valid() && Splits(plan, At(queue, a))
      requires Hashes(Gone(plan)) == Hashes(plan.forwards) + Hashes(plan.drops) + Hashes(plan.caps)
      requires a in noncer.nonces && noncer.nonces[a] == pool
      modifies this`pending, this`queue, this`beats, all, priced, noncer
      ensures Valid()
      ensures pending == With(old(pending), a, old(At(pending, a)) + plan.run)
      ensures queue == With(old(queue), a, plan.kept)
      ensures noncer.nonces == old(noncer.nonces)[a := NextNonce(plan.run, pool)]
      ensures beats == PromotedBeats(old(beats), a, plan.run, plan.kept, now)
    {
      MovePromoted(a, plan, pool);
      DropListed(plan.forwards, plan.drops, plan.caps);
    }

    /** Moves a run from an account's queue to its pending list. */
    method MovePromoted(a: Address, plan: Plan, ghost pool: nat)
      requires PoolInv(all.All(), pending, queue) && Splits(plan, At(queue, a)) && all.Valid()
      requires a in noncer.nonces && noncer.nonces[a] == pool
      modifies this`pending, this`queue, this`beats, noncer, all, priced
      ensures PoolInv(all.All() - Hashes(Gone(plan)), pending, queue) && unchanged(all) && unchanged(priced)
      ensures pending == With(old(pending), a, old(At(pending, a)) + plan.run)
      ensures queue == With(old(queue), a, plan.kept)
      ensures noncer.nonces == old(noncer.nonces)[a := NextNonce(plan.run, pool)]
      ensures beats == PromotedBeats(old(beats), a, plan.run, plan.kept, now)
    {
      PromotionKeepsInv(all.All(), pending, queue, a, plan);
      Account(all.All(), pending, queue, a);
      PromoteRun(a, plan.run, pool);
      Requeue(a, plan.kept);
      PromotedBeatsAre(old(beats), a, plan.run, plan.kept, now);
    }

    /** Leaves an account with a part of its queue; without one it has no heartbeat. */
    method Requeue(a: Address, rest: NonceMap)
      modifies this`queue, this`beats
      ensures queue == With(old(queue), a, rest) && beats == if rest == map[] then old(beats) - {a} else old(beats)
    {
      queue := With(queue, a, rest);
      if a !in queue {
        beats := beats - {a};
      }
    }

    /** What promotion and demotion go by. */
    ghost function Rules(): Terms
      reads this
    {
      Terms(state.nonce, state.balance, maxGas, locals, config.accountQueue, now)
    }

    /** Promotes what has become executable: exactly the given accounts go through
        promotion, and all others stay as they are. */
    method PromoteExecutables(accounts: set<Address>)
      requires Valid() && noncer.fallback == state.nonce
      modifies this`pending, this`queue, this`beats, all, priced, noncer
      ensures Valid() && PromotionPass(Rules(), old(Contents()), Contents(), accounts)
    {
      var todo := accounts;
      ghost var done: set<Address>, v, t := {}, Contents(), Rules();
      PassStarts(t, v);
      while todo != {}
        invariant Valid() && noncer.fallback == state.nonce
        invariant done !! todo && done + todo == accounts && PromotionPass(t, v, Contents(), done)
        decreases todo
      {
        var a :| a in todo;
        if a in queue {
          PromoteOne(a, v, done);
        } else {
          PassSkips(t, v, Contents(), done, a);
        }
        todo, done := todo - {a}, done + {a};
      }
      assert done == accounts;
    }

    method PromoteOne(a: Address, ghost v: View, ghost done: set<Address>)
      requires Valid() && noncer.fallback == state.nonce && a in queue && a !in done
      requires PromotionPass(Rules(), v, Contents(), done)
      modifies this`pending, this`queue, this`beats, all, priced, noncer
      ensures Valid() && PromotionPass(Rules(), v, Contents(), done + {a})
    {
      ghost var w := Contents();
      Account(all.All(), pending, queue, a);
      var run;
      ghost var pool, usable, kept;
      run, pool, usable, kept := PromoteAccount(a);
      PassStep(Rules(), v, w, done, a, usable, run, kept, Contents());
    }

    /** Drops two lists from the lookup; the price heaps are rebuilt later anyway. */
    method ForgetListed(x: NonceMap, y: NonceMap)
      requires all.Valid() && Tracked() && Filed()
      modifies all
      ensures all.Valid() && Tracked() && Filed() && all.All() == old(all.All()) - (Hashes(x) + Hashes(y))
    {
      ghost var content, remotes := all.All(), all.remotes;
      all.RemoveAll(x);
      all.RemoveAll(y);
      MinusUnion(content, Hashes(x), Hashes(y));
      MinusUnion(remotes, Hashes(x), Hashes(y));
      FileMinus(content, remotes, priced.urgent, priced.floating, file, Hashes(x) + Hashes(y), all.All(), all.remotes);
    }

    /** Moves what a pending list can no longer hold back to the queue. */
    method MoveDemoted(a: Address, stay: NonceMap, back: NonceMap, ghost gone: NonceMap)
      requires PoolInv(all.All(), pending, queue) && SplitsInto(gone, stay, back, At(pending, a)) && all.Valid()
      modifies this`pending, this`queue, this`beats, all, priced
      ensures PoolInv(all.All() - Hashes(gone), pending, queue) && unchanged(all) && unchanged(priced)
      ensures pending == With(old(pending), a, stay) && queue == With(old(queue), a, old(At(queue, a)) + back)
      ensures beats == if back == map[] then old(beats) else Noted(old(beats), a, now)
    {
      DemotionKeepsInv(all.All(), pending, queue, a, gone, stay, back);
      Account(all.All(), pending, queue, a);
      pending := With(pending, a, stay);
      Postpone(a, back);
    }

    method ApplyDemotion(a: Address, olds: NonceMap, unpayable: NonceMap, stay: NonceMap, back: NonceMap)
      requires Valid() && SplitsInto(olds + unpayable, stay, back, At(pending, a))
      requires Hashes(olds + unpayable) == Hashes(olds) + Hashes(unpayable)
      modifies this`pending, this`queue, this`beats, all, priced
      ensures Valid()
      ensures pending == With(old(pending), a, stay) && queue == With(old(queue), a, old(At(queue, a)) + back)
      ensures beats == if back == map[] then old(beats) else Noted(old(beats), a, now)
    {
      MoveDemoted(a, stay, back, olds + unpayable);
      ForgetListed(olds, unpayable);
    }

    method DemoteAccount(a: Address, ghost v: View, ghost todo: set<Address>)
      requires Valid() && a in todo && DemotionPass(Rules(), v, Contents(), todo)
      modifies this`pending, this`queue, this`beats, all, priced
      ensures Valid() && DemotionPass(Rules(), v, Contents(), todo - {a})
    {
      ghost var w := Contents();
      var olds, unpayable, stay, back;
      ghost var current;
      olds, unpayable, stay, back, current := PlanDemotion(At(pending, a), state.nonce(a), state.balance(a), maxGas);
      ApplyDemotion(a, olds, unpayable, stay, back);
      DemotionStep(Rules(), v, w, todo, a, current, unpayable, stay, back, Contents());
    }

    /** Removes invalid and processed transactions from the pending lists; what becomes
        unexecutable goes back to the queue. */
    method DemoteUnexecutables()
      requires Valid()
      modifies this`pending, this`queue, this`beats, all, priced
      ensures Valid() && DemotionPass(Rules(), old(Contents()), Contents(), {})
      ensures Cleared(Rules(), pending)
    {
      var todo := pending.Keys;
      ghost var v := Contents();
      DemotionStarts(Rules(), v);
      while todo != {}
        invariant Valid() && DemotionPass(Rules(), v, Contents(), todo)
        decreases todo
      {
        var a :| a in todo;
        DemoteAccount(a, v, todo);
        todo := todo - {a};
      }
      Account(all.All(), pending, queue, 0);
      DemotionClears(Rules(), v, Contents());
    }

    /** Sets every account's pool nonce to the one after its last pending transaction. */
    method RefreshNonces()
      requires noncer.fallback == state.nonce && NoEmptyList(pending)
      modifies noncer
      ensures forall a :: a in noncer.nonces <==> a in pending
      ensures forall a :: a in pending ==> noncer.nonces[a] > 0 && noncer.nonces[a] - 1 in pending[a]
      ensures forall a, n :: a in pending && n in pending[a] ==> n < noncer.nonces[a]
    {
      var nonces: map<Address, nat> := map[];
      var rest := pending;
      while rest != map[]
        invariant rest.Keys <= pending.Keys && nonces.Keys == pending.Keys - rest.Keys
        invariant forall a :: a in nonces ==> nonces[a] > 0 && nonces[a] - 1 in pending[a]
        invariant forall a, n :: a in nonces && n in pending[a] ==> n < nonces[a]
        decreases rest.Keys
      {
        var a :| a in rest;
        var highest := MaxKey(pending[a]);
        nonces, rest := nonces[a := highest + 1], rest - {a};
      }
      noncer.SetAll(nonces);
    }

    method Refresh()
      requires noncer.fallback == state.nonce && NoEmptyList(pending)
      modifies noncer
      ensures noncer.nonces == Refreshed(pending)
    {
      RefreshNonces();
      RefreshedIs(pending, noncer.nonces);
    }

    /** The rules about the transaction alone. */
    method ValidateShape(tx: Tx, ghost local: bool, ghost s: Snapshot) returns (err: Option<PoolError>)
      requires s == Snap()
      ensures err.Some? ==> FirstViolation(s, tx, local, err.value)
      ensures err.None? ==> Passes(s, tx, local, Rank(Underpriced)) && tx.sender.Some?
    {
      if !forks.eip2718 && tx.kind != Legacy { return Some(TxTypeNotSupported); }
      if !forks.eip1559 && tx.kind == DynamicFee { return Some(TxTypeNotSupported); }
      if tx.size > TX_MAX_SIZE { return Some(OversizedData); }
      if tx.value < 0 { return Some(NegativeValue); }
      if maxGas < tx.gas { return Some(GasLimit); }
      if tx.gasFeeCap >= TWO_256 { return Some(FeeCapVeryHigh); }
      if tx.gasTipCap >= TWO_256 { return Some(TipVeryHigh); }
      if tx.gasFeeCap < tx.gasTipCap { return Some(TipAboveFeeCap); }
      if tx.sender.None? { return Some(InvalidSender); }
      err := None;
    }

    /** The first rule that a transaction violates, if any. */
    method ValidateTx(tx: Tx, local: bool) returns (err: Option<PoolError>)
      ensures err.None? ==> Admissible(Snap(), tx, local)
      ensures err.Some? ==> FirstViolation(Snap(), tx, local, err.value)
    {
      ghost var s := Snap();
      err := ValidateShape(tx, local, s);
      if err.Some? { return; }
      err := ValidateAccount(tx, tx.sender.value, local, s);
      if err.None? { PassesAll(s, tx, local); }
    }

    /** The rules about its account and its gas. */
    method ValidateAccount(tx: Tx, from: Address, local: bool, ghost s: Snapshot) returns (err: Option<PoolError>)
      requires tx.sender == Some(from) && s == Snap() && Passes(s, tx, local, Rank(Underpriced))
      ensures err.Some? ==> FirstViolation(s, tx, local, err.value)
      ensures err.None? ==> Passes(s, tx, local, Rank(AlreadyKnown))
    {
      if !local && tx.gasTipCap < gasPrice { return Some(Underpriced); }
      PassesNext(s, tx, local, Underpriced);
      if state.nonce(from) > tx.nonce { return Some(NonceTooLow); }
      PassesNext(s, tx, local, NonceTooLow);
      if state.balance(from) < Cost(tx) { return Some(InsufficientFunds); }
      PassesNext(s, tx, local, InsufficientFunds);
      var need := IntrinsicGas.Compute(tx.data, tx.keys, tx.creation, true, forks.istanbul);
      if need.None? { return Some(GasUintOverflow); }
      PassesNext(s, tx, local, GasUintOverflow);
      if tx.gas < need.value { return Some(IntrinsicGasTooLow); }
      PassesNext(s, tx, local, IntrinsicGasTooLow);
      err := None;
    }

    /** Removes the transactions that the price heaps gave up. */
    method Evict(drop: seq<Tx>)
      requires Partition() && Priced() && priced.Covering(drop)
      requires noncer.fallback == state.nonce
      modifies this`pending, this`queue, this`beats, all, priced, noncer
      ensures Valid() && all.All() == old(all.All()) - HashSet(drop) && unchanged(priced)
      ensures all.remotes == old(all.remotes) - HashSet(drop)
      ensures Contents() == Removals(old(Contents()), state.nonce, now, old(all.All()), drop)
      ensures old(Aligned()) ==> Aligned()
    {
      all.Consistent();
      ghost var content, remotes, v := all.All(), all.remotes, Contents();
      assert content - HashSet(drop[..0]) == content && remotes - HashSet(drop[..0]) == remotes;
      var i := 0;
      while i < |drop|
        invariant 0 <= i <= |drop| && Partition() && unchanged(priced) && noncer.fallback == state.nonce
        invariant all.All() == content - HashSet(drop[..i]) && all.remotes == remotes - HashSet(drop[..i])
        invariant Contents() == Removals(v, state.nonce, now, content, drop[..i])
        invariant old(Aligned()) ==> NoncesOk(Contents(), state.nonce)
      {
        var next := i + 1;
        RemovalsStep(v, state.nonce, now, content, drop, i, next);
        RemoveOne(drop[i].hash, false);
        HashSetStep(drop, i);
        MinusUnion(content, HashSet(drop[..i]), {drop[i].hash});
        MinusUnion(remotes, HashSet(drop[..i]), {drop[i].hash});
        i := next;
      }
      assert drop[..i] == drop;
      CoversEvicted(remotes, priced.urgent, priced.floating, drop, all.remotes);
    }

    /** RemoveTx, and what it keeps. */
    method RemoveOne(hash: Hash, outofbound: bool)
      requires Partition() && Priced() && (outofbound ==> priced.Covering([]))
      requires noncer.fallback == state.nonce
      modifies this`pending, this`queue, this`beats, all, priced, noncer
      ensures Partition() && Priced()
      ensures if outofbound then priced.Covering([]) else unchanged(priced)
      ensures all.All() == old(all.All()) - {hash} && all.remotes == old(all.remotes) - {hash}
      ensures Contents() == if hash in old(all.All())
        then Removal(old(Contents()), state.nonce, now, old(all.All())[hash]) else old(Contents())
      ensures old(NoncesOk(Contents(), state.nonce)) ==> NoncesOk(Contents(), state.nonce)
    {
      ghost var v, content := Contents(), all.All();
      RemoveTx(hash, outofbound);
      if NoncesOk(v, state.nonce) && hash in content {
        RemovalKeepsNonces(v, state.nonce, now, content[hash]);
      }
    }

    /** Makes room for a transaction if the pool is full, at the expense of the
        cheapest remote ones. */
    method MakeRoom(tx: Tx, isLocal: bool, ghost s: Snapshot) returns (err: Option<PoolError>, ghost dropped: seq<Tx>)
      requires Valid() && noncer.fallback == state.nonce && s == Snap()
      modifies this`pending, this`queue, this`beats, this`changes, all, priced, noncer
      ensures Valid() && (AlignedIn(s) ==> Aligned()) && err == RoomError(config, s, tx, isLocal)
      ensures err.Some? ==> Snap() == s.(urgent := priced.urgent, floating := priced.floating)
      ensures err.Some? ==> Thinned(s.urgent, s.floating, [], priced.urgent, priced.floating, [])
      ensures err.None? ==> Roomed(config, s, tx, isLocal, dropped, Snap())
    {
      err, dropped := None, [];
      var capacity := config.globalSlots + config.globalQueue;
      if all.slots + NumSlots(tx) <= capacity {
        return;
      }
      err := Refusal(tx, isLocal);
      if err.Some? { return err, []; }
      ghost var u, f := priced.urgent, priced.floating;
      var success;
      success, dropped := EvictCheapest(all.slots + NumSlots(tx) - capacity, isLocal);
      ThinnedTwice(s.urgent, s.floating, [], u, f, [], priced.urgent, priced.floating, dropped);
      if !success { return Some(TxPoolOverflow), []; }
      RankedAfterCleaning(s.remotes, fee, s.urgent, s.floating, u, f, priced.urgent, priced.floating, dropped);
      MadeRoom(config, s, tx, isLocal, dropped, Snap());
    }

    /** Why a full pool does not even try to make room. */
    method Refusal(tx: Tx, isLocal: bool) returns (err: Option<PoolError>)
      requires Valid()
      modifies priced
      ensures Valid() && priced.Live() == old(priced.Live())
      ensures Cleaned(all.remotes, old(priced.urgent), old(priced.floating), priced.urgent, priced.floating)
      ensures err == if !isLocal && old(PricedOut(all.remotes, priced.urgent, priced.floating, fee, tx))
                     then Some(Underpriced)
                     else if changes > config.globalSlots / 4 then Some(TxPoolOverflow) else None
      ensures Thinned(old(priced.urgent), old(priced.floating), [], priced.urgent, priced.floating, [])
    {
      ThinnedSame(priced.urgent, priced.floating, []);
      if !isLocal {
        var under := priced.Underpriced(tx);
        ThinnedIsStocked(all.remotes, old(priced.urgent), old(priced.floating), priced.urgent, priced.floating, []);
        FileStocked(all.All(), all.remotes, old(priced.urgent), old(priced.floating), file, priced.urgent,
                    priced.floating);
        if under { return Some(Underpriced); }
      }
      err := if changes > config.globalSlots / 4 then Some(TxPoolOverflow) else None;
    }

    /** Gives up remote transactions that count for the missing slots; if they do not
        suffice, all of them for a local transaction and none for a remote one. */
    method EvictCheapest(missing: int, isLocal: bool) returns (success: bool, ghost dropped: seq<Tx>)
      requires Valid() && noncer.fallback == state.nonce
      modifies this`pending, this`queue, this`beats, this`changes, all, priced, noncer
      ensures Valid() && (old(Aligned()) ==> Aligned())
      ensures success <==> isLocal || old(priced.Live()) >= missing
      ensures !success ==> dropped == [] && Contents() == old(Contents()) && unchanged(all) && changes == old(changes)
      ensures success ==>
        all.All() == old(all.All()) - HashSet(dropped) && all.remotes == old(all.remotes) - HashSet(dropped)
      ensures success ==>
        all.slots == old(all.slots) - SlotsOf(dropped) + Repeated(dropped) && changes == old(changes) + |dropped|
      ensures success ==> Contents() == Removals(old(Contents()), state.nonce, now, old(all.All()), dropped)
      ensures Thinned(old(priced.urgent), old(priced.floating), [], priced.urgent, priced.floating, dropped)
      ensures forall x :: x in dropped ==> x.hash in old(all.remotes)
      ensures success ==> PriceRanked(old(all.remotes), fee, old(priced.urgent), old(priced.floating), priced.urgent,
                                      priced.floating, dropped)
      ensures success ==> CheapEnd(dropped, missing, priced.urgent, priced.floating)
      ensures success ==> SlotsOf(dropped) >= missing || (isLocal && SlotsOf(dropped) == old(priced.Live()))
    {
      ghost var u, f := priced.urgent, priced.floating;
      ghost var content, remotes := all.All(), all.remotes;
      all.Consistent();
      dropped := [];
      var drop;
      drop, success := priced.Discard(missing, isLocal);
      ThinnedIsStocked(remotes, u, f, priced.urgent, priced.floating, drop);
      FileStocked(content, remotes, u, f, file, priced.urgent, priced.floating);
      if !success { return; }
      changes := changes + |drop|;
      Evict(drop);
      dropped := drop;
      all.Consistent();
      FreesExactly(content, drop);
    }

    /** Replaces a pending transaction that the new one outbids. */
    method ReplacePending(tx: Tx, from: Address, isLocal: bool) returns (ok: bool)
      requires Valid() && tx.sender == Some(from) && tx.hash !in all.All() && tx.nonce in At(pending, from)
      modifies this`pending, this`beats, this`file, all, priced
      ensures Valid() && ok == Outbids(tx, old(At(pending, from))[tx.nonce], config.priceBump)
      ensures ok ==> all.All() == (old(all.All()) - {old(At(pending, from))[tx.nonce].hash})[tx.hash := tx]
      ensures ok ==> all.remotes == Entered(old(all.remotes) - {old(At(pending, from))[tx.nonce].hash}, tx, !isLocal)
      ensures ok ==> pending == With(old(pending), from, old(At(pending, from))[tx.nonce := tx])
      ensures beats == if ok then old(beats)[from := now] else old(beats)
      ensures !ok ==> pending == old(pending) && unchanged(all) && unchanged(priced)
      ensures ok ==> Stocked(old(all.remotes), old(priced.urgent), old(priced.floating), Addition(tx, !isLocal),
                             priced.urgent, priced.floating)
    {
      var p := At(pending, from);
      var prior := p[tx.nonce];
      ok := Accepts(p, tx, config.priceBump);
      if !ok { return; }
      ReplacePendingInv(all.All(), pending, queue, from, tx, prior);
      pending := With(pending, from, p[tx.nonce := tx]);
      SwapEntry(prior.hash, tx, isLocal);
      beats := beats[from := now];
      Record();
    }

    /** Enters a transaction in place of another one. */
    method SwapEntry(hash: Hash, tx: Tx, isLocal: bool)
      requires all.Valid() && Tracked() && tx.hash !in all.All()
      modifies all, priced
      ensures all.Valid() && Tracked() && all.All() == (old(all.All()) - {hash})[tx.hash := tx]
      ensures all.remotes == Entered(old(all.remotes) - {hash}, tx, !isLocal)
      ensures Stocked(old(all.remotes), old(priced.urgent), old(priced.floating), Addition(tx, !isLocal), priced.urgent,
                      priced.floating)
    {
      Forget(hash);
      ghost var remotes, u, f := all.remotes, priced.urgent, priced.floating;
      Track(tx, isLocal);
      StockedTwice(old(all.remotes), old(priced.urgent), old(priced.floating), multiset{}, remotes, u, f,
                   Addition(tx, !isLocal), priced.urgent, priced.floating);
    }

    /** Marks an account as local and its transactions with it. */
    method MarkLocal(from: Address)
      requires Valid()
      modifies this`locals, this`file, all, priced
      ensures Valid() && all.All() == old(all.All()) && locals == old(locals) + {from}
      ensures all.remotes == old(all.remotes) - FromAccounts(old(all.remotes), locals).Keys
      ensures Stocked(old(all.remotes), old(priced.urgent), old(priced.floating), multiset{}, priced.urgent,
                      priced.floating)
    {
      locals := locals + {from};
      var migrated := all.RemoteToLocals(locals);
      CoversFewer(old(all.remotes), priced.urgent, priced.floating, all.remotes);
      priced.Removed(migrated);
      StockedFrom(old(all.remotes), all.remotes, old(priced.urgent), old(priced.floating), priced.urgent,
                  priced.floating);
      Record();
    }

    /** Queues a new transaction whose nonce is not pending. */
    method EnqueueNew(tx: Tx, from: Address, isLocal: bool) returns (replaced: bool, ok: bool)
      requires Valid() && tx.sender == Some(from) && tx.hash !in all.All() && tx.nonce !in At(pending, from)
      modifies this`queue, this`beats, this`file, all, priced
      ensures Valid() && ok == Accepts(old(At(queue, from)), tx, config.priceBump)
      ensures replaced == (ok && tx.nonce in old(At(queue, from)))
      ensures ok ==> all.All() == Placed(old(all.All()), old(Slot(pending, queue, from, tx.nonce)), tx)
      ensures ok ==> queue == With(old(queue), from, old(At(queue, from))[tx.nonce := tx])
      ensures !ok ==> queue == old(queue) && unchanged(all) && unchanged(priced)
      ensures ok ==> Stocked(old(all.remotes), old(priced.urgent), old(priced.floating), Addition(tx, !isLocal),
                             priced.urgent, priced.floating)
      ensures ok ==>
        all.remotes == Entered(Without(old(all.remotes), old(At(queue, from)), tx.nonce), tx, !isLocal)
      ensures beats == if ok then Noted(old(beats), from, now) else old(beats)
    {
      var q := At(queue, from);
      if tx.nonce in q {
        ReplaceQueuedInv(all.All(), pending, queue, from, tx, q[tx.nonce]);
      } else {
        AddStep(all.All(), pending, queue, from, tx);
      }
      replaced, ok := EnqueueTx(tx, from, isLocal, true);
      if ok { Record(); }
    }

    /** The same for one that may be from the node itself, which makes its account local. */
    method QueueNew(tx: Tx, from: Address, isLocal: bool, local: bool) returns (replaced: bool, ok: bool)
      requires Valid() && tx.sender == Some(from) && tx.hash !in all.All() && tx.nonce !in At(pending, from)
      modifies this`queue, this`beats, this`locals, this`file, all, priced
      ensures Valid() && ok == Accepts(old(At(queue, from)), tx, config.priceBump)
      ensures replaced == (ok && tx.nonce in old(At(queue, from)))
      ensures ok ==> all.All() == Placed(old(all.All()), old(Slot(pending, queue, from, tx.nonce)), tx)
      ensures ok ==> queue == With(old(queue), from, old(At(queue, from))[tx.nonce := tx])
      ensures !ok ==> queue == old(queue) && unchanged(all) && unchanged(priced)
      ensures ok ==> Stocked(old(all.remotes), old(priced.urgent), old(priced.floating), Addition(tx, !isLocal),
                             priced.urgent, priced.floating)
      ensures locals == if ok && local then old(locals) + {from} else old(locals)
      ensures ok ==>
        all.remotes == RemotesAfter(old(all.remotes), old(Slot(pending, queue, from, tx.nonce)), tx, isLocal, locals,
                                    old(locals))
      ensures beats == if ok then Noted(old(beats), from, now) else old(beats)
    {
      replaced, ok := EnqueueNew(tx, from, isLocal);
      if !ok { return; }
      if local && from !in locals {
        ghost var remotes, u, f := all.remotes, priced.urgent, priced.floating;
        MarkLocal(from);
        StockedTwice(old(all.remotes), old(priced.urgent), old(priced.floating), Addition(tx, !isLocal), remotes, u, f,
                     multiset{}, priced.urgent, priced.floating);
      }
    }

    /** Puts an admissible transaction into its slot, if it is free or outbid. */
    method Place(tx: Tx, from: Address, local: bool, ghost s: Snapshot) returns (replaced: bool, err: Option<PoolError>)
      requires Valid() && noncer.fallback == state.nonce && tx.sender == Some(from) && tx.hash !in all.All()
      requires state.nonce(from) <= tx.nonce && s == Snap()
      modifies this`pending, this`queue, this`beats, this`locals, this`file, all, priced
      ensures Valid() && (AlignedIn(s) ==> Aligned())
      ensures Taken(config, s, tx, from, local, replaced, err, Snap())
    {
      var isLocal := local || FromAccount(tx, locals);
      if tx.nonce in At(pending, from) {
        replaced, err := PlacePending(tx, from, isLocal, local, s);
      } else {
        replaced, err := PlaceQueued(tx, from, isLocal, local, s);
      }
      if AlignedIn(s) { TakenKeepsAligned(config, s, tx, from, local, replaced, err, Snap()); }
    }

    method PlacePending(tx: Tx, from: Address, isLocal: bool, ghost local: bool, ghost s: Snapshot)
      returns (replaced: bool, err: Option<PoolError>)
      requires Valid() && s == Snap() && tx.sender == Some(from) && tx.hash !in all.All()
      requires tx.nonce in At(pending, from) && isLocal == IsLocal(s, tx, local)
      modifies this`pending, this`beats, this`file, all, priced
      ensures Valid() && Taken(config, s, tx, from, local, replaced, err, Snap())
    {
      replaced := ReplacePending(tx, from, isLocal);
      err := if replaced then None else Some(ReplaceUnderpriced);
      all.Consistent();
      WasTaken(config, s, tx, from, local, replaced, Snap());
    }

    method PlaceQueued(tx: Tx, from: Address, isLocal: bool, local: bool, ghost s: Snapshot)
      returns (replaced: bool, err: Option<PoolError>)
      requires Valid() && s == Snap() && tx.sender == Some(from) && tx.hash !in all.All()
      requires tx.nonce !in At(pending, from) && isLocal == IsLocal(s, tx, local)
      modifies this`queue, this`beats, this`locals, this`file, all, priced
      ensures Valid() && Taken(config, s, tx, from, local, replaced, err, Snap())
    {
      var ok;
      replaced, ok := QueueNew(tx, from, isLocal, local);
      err := if ok then None else Some(ReplaceUnderpriced);
      all.Consistent();
      WasTaken(config, s, tx, from, local, ok, Snap());
    }

    /** Validates a transaction and takes it into the pool, evicting cheaper remote
        ones if the pool is full. */
    method Add(tx: Tx, local: bool) returns (replaced: bool, err: Option<PoolError>)
      requires Valid() && noncer.fallback == state.nonce
      modifies this`pending, this`queue, this`beats, this`changes, this`locals, this`file, all, priced, noncer
      ensures Valid() && (old(Aligned()) ==> Aligned())
      ensures AddRel(config, old(Snap()), tx, local, replaced, err, Snap())
    {
      ghost var s := Snap();
      var known := all.Get(tx.hash);
      if known.Some? {
        KnownIsRefused(config, s, tx, local);
        return false, Some(AlreadyKnown);
      }
      var isLocal := local || FromAccount(tx, locals);
      err := ValidateTx(tx, isLocal);
      if err.Some? {
        InvalidIsRefused(config, s, tx, local, err.value);
        return false, err;
      }
      assert !Violates(s, tx, isLocal, InvalidSender) && !Violates(s, tx, isLocal, NonceTooLow);
      replaced, err := Admit(tx, isLocal, local);
      WasAdmitted(config, s, tx, local, replaced, err, Snap());
    }

    /** Makes room for an admissible transaction and puts it into its slot. */
    method Admit(tx: Tx, isLocal: bool, local: bool) returns (replaced: bool, err: Option<PoolError>)
      requires Valid() && noncer.fallback == state.nonce && tx.hash !in all.All()
      requires isLocal == IsLocal(Snap(), tx, local)
      requires tx.sender.Some? && state.nonce(tx.sender.value) <= tx.nonce
      modifies this`pending, this`queue, this`beats, this`changes, this`locals, this`file, all, priced, noncer
      ensures Valid() && (old(Aligned()) ==> Aligned())
      ensures Admitted(config, old(Snap()), tx, local, replaced, err, Snap())
    {
      ghost var s := Snap();
      ghost var dropped;
      err, dropped := MakeRoom(tx, isLocal, s);
      if err.Some? { return false, err; }
      ghost var mid := Snap();
      replaced, err := Place(tx, tx.sender.value, local, mid);
      RoomThenPlace(config, s, tx, local, dropped, mid, replaced, err, Snap());
    }

    /** Adds a batch, one transaction after the other; returns an answer for each and the
        accounts that gained one. */
    method AddTxsLocked(txs: seq<Tx>, local: bool)
      returns (errs: seq<Option<PoolError>>, dirty: set<Address>, ghost swapped: seq<bool>, ghost steps: seq<Snapshot>)
      requires Valid() && noncer.fallback == state.nonce
      modifies this`pending, this`queue, this`beats, this`changes, this`locals, this`file, all, priced, noncer
      ensures Valid() && (old(Aligned()) ==> Aligned())
      ensures |errs| == |txs| == |swapped| && |steps| == |txs| + 1 && steps[0] == old(Snap()) && steps[|txs|] == Snap()
      ensures Batch(config, txs, local, errs, swapped, dirty, steps)
      ensures forall i :: 0 <= i < |txs| ==> AddRel(config, steps[i], txs[i], local, swapped[i], errs[i], steps[i + 1])
      ensures forall a :: a in dirty <==> Gained(txs, errs, swapped, a)
    {
      errs, dirty, swapped, steps := [], {}, [], [Snap()];
      var i := 0;
      while i < |txs|
        invariant 0 <= i <= |txs| && Valid() && noncer.fallback == state.nonce
        invariant |errs| == i == |swapped| && |steps| == i + 1 && steps[0] == old(Snap()) && steps[i] == Snap()
        invariant old(Aligned()) ==> Aligned()
        invariant Batch(config, txs, local, errs, swapped, dirty, steps)
      {
        ghost var before, s := dirty, Snap();
        var replaced, err := Add(txs[i], local);
        if err.None? && !replaced && txs[i].sender.Some? {
          dirty := dirty + {txs[i].sender.value};
        }
        BatchStep(config, txs, local, errs, swapped, before, steps, err, replaced, dirty, Snap());
        errs, swapped, steps := errs + [err], swapped + [replaced], steps + [Snap()];
        i := i + 1;
      }
      BatchMeans(config, txs, local, errs, swapped, dirty, steps);
    }

    /** Cuts the last transaction off an account's pending list. */
    method CapOne(a: Address, ghost base: View)
      requires Valid() && noncer.fallback == state.nonce && a in pending && |pending[a]| >= 2
      requires NoncesCut(base, Contents(), state.nonce)
      modifies this`pending, all, priced, noncer
      ensures Valid() && old(pending)[a] != map[]
      ensures pending == old(pending)[a := old(pending)[a] - {MaxKey(old(pending)[a])}]
      ensures Total(pending) == Total(old(pending)) - 1 && NoncesCut(base, Contents(), state.nonce)
      ensures noncer.nonces == old(noncer.nonces)[
        a := Min(PoolNonce(old(noncer.nonces), state.nonce, a), MaxKey(old(pending)[a]))]
    {
      ghost var v := Contents();
      var p := pending[a];
      var n := MaxKey(p);
      var rest := p - {n};
      SizeOfRemoval(p, n);
      TotalUpdate(pending, a, rest);
      DropLast(a, n, rest);
      noncer.SetIfLower(a, n);
      CapCuts(v, state.nonce, a, n, rest, Contents());
      CutTwice(base, v, Contents(), state.nonce);
    }

    method DropLast(a: Address, n: nat, rest: NonceMap)
      requires Valid() && a in pending && |pending[a]| >= 2 && n in pending[a] && rest == pending[a] - {n}
      modifies this`pending, all, priced
      ensures Valid() && pending == old(pending)[a := rest]
    {
      var tx := pending[a][n];
      SizeOfRemoval(pending[a], n);
      CapKeepsInv(all.All(), pending, queue, a, n, rest);
      pending := pending[a := rest];
      Forget(tx.hash);
    }

    /** One round: cuts the last transaction off each of the lists. */
    method LowerAll(who: seq<Address>, total: nat, ghost base: View) returns (left: nat)
      requires NoncesCut(base, Contents(), state.nonce)
      requires Valid() && noncer.fallback == state.nonce && total == Total(pending) && NoRepeats(who)
      requires forall i :: 0 <= i < |who| ==> who[i] in pending && |pending[who[i]]| >= 2
      modifies this`pending, all, priced, noncer
      ensures Valid() && forall a :: a in Members(who) && a in old(pending) ==> old(pending)[a] != map[]
      ensures pending == Lowered(old(pending), Members(who)) && left == Total(pending)
      ensures left == total - |who| && NoncesCut(base, Contents(), state.nonce)
    {
      ghost var was := pending;
      left := total;
      var i := 0;
      LoweringStarts(was, who);
      while i < |who|
        invariant 0 <= i <= |who| && Valid() && noncer.fallback == state.nonce
        invariant PartlyLowered(was, who, i, pending)
        invariant left == Total(pending) && left == total - i && NoncesCut(base, Contents(), state.nonce)
      {
        var next: nat := i + 1;
        LoweringStep(was, who, i, next, pending);
        CapOne(who[i], base);
        left, i := left - 1, next;
      }
      LoweringEnds(was, who, pending);
    }

    /** The total length of the lists. */
    static method Count(m: Lists) returns (n: nat)
      ensures n == Total(m)
    {
      n := 0;
      var rest := m;
      while rest != map[]
        invariant n + Total(rest) == Total(m)
        decreases rest.Keys
      {
        var a :| a in rest;
        TotalWithout(rest, a);
        n := n + |rest[a]|;
        rest := rest - {a};
      }
    }

    /** The pool while pending lists are being cut: `who` stand at the level, `rest`
        below it, and `total` counts what is left. */
    ghost predicate Cutting(orig: Lists, who: seq<Address>, rest: set<Address>, level: nat, total: nat)
      reads this, all, priced, noncer
    {
      forall k {:trigger LevelKey(k)} :: LevelKey(k) ==>
        && Valid() && noncer.fallback == state.nonce && total == Total(pending)
        && Ranked(orig, locals, config.accountSlots, level, who, rest)
        && AtLevel(orig, pending, locals, level, config.globalSlots)
    }

    lemma CuttingMeans(orig: Lists, who: seq<Address>, rest: set<Address>, level: nat, total: nat)
      requires Cutting(orig, who, rest, level, total)
      ensures Valid() && noncer.fallback == state.nonce && total == Total(pending)
      ensures Ranked(orig, locals, config.accountSlots, level, who, rest)
      ensures AtLevel(orig, pending, locals, level, config.globalSlots)
    {
      assert LevelKey(0);
    }

    lemma CuttingLength(orig: Lists, who: seq<Address>, rest: set<Address>, level: nat, total: nat, last: Address)
      requires Cutting(orig, who, rest, level, total) && |who| > 0 && last == who[|who| - 1]
      ensures last in pending && |pending[last]| == level
    {
      CuttingMeans(orig, who, rest, level, total);
      RankedLength(orig, pending, locals, config.accountSlots, level, config.globalSlots, who, rest, |who| - 1);
    }

    /** A round of cuts at the current level. */
    method LowerRound(who: seq<Address>, total: nat, ghost orig: Lists, ghost rest: set<Address>, ghost level: nat,
                      ghost base: View)
      returns (left: nat, ghost next: nat)
      requires NoncesCut(base, Contents(), state.nonce)
      requires Cutting(orig, who, rest, level, total) && total > config.globalSlots
      requires level > config.accountSlots >= 1 && forall a :: a in rest ==> a in orig && |orig[a]| < level
      modifies this`pending, all, priced, noncer
      ensures next == level - 1 && Cutting(orig, who, rest, next, left) && NoncesCut(base, Contents(), state.nonce)
    {
      CuttingMeans(orig, who, rest, level, total);
      ReachingIsRanked(orig, locals, config.accountSlots, level, who, rest);
      forall i | 0 <= i < |who| ensures who[i] in pending && |pending[who[i]]| >= 2 {
        RankedLength(orig, pending, locals, config.accountSlots, level, config.globalSlots, who, rest, i);
      }
      ghost var cur := pending;
      next := level - 1;
      left := LowerAll(who, total, base);
      RoundStep(orig, cur, locals, config.accountSlots, level, config.globalSlots, who, rest, pending, next);
    }

    /** Lowers the accounts in `who` together, down to the length of the next longest
        list or until the total is within the limit. */
    method Equalize(who: seq<Address>, total: nat, threshold: nat, ghost orig: Lists, ghost rest: set<Address>,
                    ghost level: nat, ghost base: View)
      returns (left: nat, ghost reached: nat)
      requires NoncesCut(base, Contents(), state.nonce)
      requires Cutting(orig, who, rest, level, total) && |who| > 0
      requires 1 <= config.accountSlots <= threshold <= level
      requires forall a :: a in rest ==> a in orig && |orig[a]| <= threshold
      modifies this`pending, all, priced, noncer
      ensures Cutting(orig, who, rest, reached, left)
      ensures threshold <= reached && (left <= config.globalSlots || reached == threshold)
      ensures NoncesCut(base, Contents(), state.nonce)
    {
      left, reached := total, level;
      var last := who[|who| - 1];
      CuttingLength(orig, who, rest, reached, left, last);
      var length := |pending[last]|;
      while left > config.globalSlots && length > threshold
        invariant Cutting(orig, who, rest, reached, left) && threshold <= length == reached
        invariant NoncesCut(base, Contents(), state.nonce)
        decreases length
      {
        left, reached := LowerRound(who, left, orig, rest, reached, base);
        CuttingLength(orig, who, rest, reached, left, last);
        length := |pending[last]|;
      }
    }

    /** Takes the account with the longest list out of the queue of spammers. */
    static method PopLongest(lists: Lists, spammers: set<Address>) returns (a: Address)
      requires spammers != {} && spammers <= lists.Keys
      ensures IsLongest(lists, spammers, a)
    {
      LongestExists(lists, spammers);
      a :| IsLongest(lists, spammers, a);
    }

    lemma CuttingRest(orig: Lists, who: seq<Address>, rest: set<Address>, level: nat, total: nat)
      requires Cutting(orig, who, rest, level, total)
      ensures rest <= orig.Keys && config.accountSlots <= level
      ensures forall a :: a in rest ==>
        a in pending && pending[a] == orig[a] && config.accountSlots < |orig[a]| <= level
    {
      CuttingMeans(orig, who, rest, level, total);
      RestUntouched(orig, pending, locals, config.accountSlots, level, config.globalSlots, who, rest);
    }

    lemma CuttingNext(orig: Lists, who: seq<Address>, rest: set<Address>, level: nat, total: nat, x: Address,
                      who': seq<Address>, rest': set<Address>)
      requires Cutting(orig, who, rest, level, total) && IsLongest(orig, rest, x) && |orig[x]| == level
      requires who' == who + [x] && rest' == rest - {x}
      ensures Cutting(orig, who', rest', level, total)
    {
      CuttingMeans(orig, who, rest, level, total);
      RankNext(orig, locals, config.accountSlots, level, who, rest, x);
    }

    lemma CuttingFirst(orig: Lists, rest: set<Address>, level: nat, total: nat, x: Address, top: nat)
      requires Cutting(orig, [], rest, level, total) && pending == orig && IsLongest(orig, rest, x) && top == |orig[x]|
      ensures Cutting(orig, [], rest, top, total)
    {
      CuttingMeans(orig, [], rest, level, total);
      RankFirst(orig, locals, config.accountSlots, level, config.globalSlots, rest, x, top);
    }

    /** Takes in the next offender and lowers the earlier ones to its length. */
    method TakeOffender(lists: Lists, offenders: seq<Address>, x: Address, total: nat, ghost rest: set<Address>,
                        ghost level: nat, ghost base: View)
      returns (left: nat, ghost reached: nat)
      requires NoncesCut(base, Contents(), state.nonce)
      requires Cutting(lists, offenders, rest, level, total) && IsLongest(lists, rest, x)
      requires config.accountSlots >= 1 && (offenders == [] ==> pending == lists)
      modifies this`pending, all, priced, noncer
      ensures Cutting(lists, offenders, rest, reached, left)
      ensures left <= config.globalSlots || reached == |lists[x]|
      ensures NoncesCut(base, Contents(), state.nonce)
    {
      CuttingRest(lists, offenders, rest, level, total);
      var threshold := |pending[x]|;
      if |offenders| > 0 {
        left, reached := Equalize(offenders, total, threshold, lists, rest, level, base);
      } else {
        CuttingFirst(lists, rest, level, total, x, threshold);
        left, reached := total, threshold;
      }
    }

    lemma CuttingStarts(total: nat) returns (level: nat)
      requires Valid() && noncer.fallback == state.nonce && total == Total(pending)
      ensures Cutting(pending, [], Spammers(pending, locals, config.accountSlots), level, total)
      ensures level >= config.accountSlots
    {
      level := config.accountSlots + total;
      forall a | a in Spammers(pending, locals, config.accountSlots) ensures a in pending && |pending[a]| <= level {
        TotalBounds(pending, a);
      }
      RankNobody(pending, locals, config.accountSlots, level);
      Untouched(pending, locals, config.accountSlots, level, config.globalSlots);
    }

    /** With nobody to cut, the level is the guaranteed number of slots. */
    lemma CuttingNobody(orig: Lists, level: nat, total: nat)
      requires Cutting(orig, [], {}, level, total) && pending == orig
      ensures AtLevel(orig, pending, locals, config.accountSlots, config.globalSlots)
    {
      CuttingMeans(orig, [], {}, level, total);
      assert Spammers(orig, locals, config.accountSlots) == {} by { assert LevelKey(0); assert Members([]) == {}; }
      Untouched(orig, locals, config.accountSlots, config.accountSlots, config.globalSlots);
    }

    /** Cuts the longest pending lists of remote accounts evenly until the total is
        within the limit or all are down to the guaranteed number of slots. */
    method TruncatePending() returns (ghost level: nat)
      requires Valid() && noncer.fallback == state.nonce && config.accountSlots >= 1
      modifies this`pending, all, priced, noncer
      ensures Valid() && level >= config.accountSlots
      ensures AtLevel(old(pending), pending, locals, level, config.globalSlots)
      ensures Total(pending) <= config.globalSlots || level == config.accountSlots
      ensures NoncesCut(old(Contents()), Contents(), state.nonce)
    {
      ghost var base := Contents();
      NothingCut(base, state.nonce);
      var lists := pending;
      var total := Count(pending);
      level := CuttingStarts(total);
      var offenders: seq<Address> := [];
      var spammers := set a | a in pending && a !in locals && |pending[a]| > config.accountSlots;
      if total <= config.globalSlots {
        CuttingMeans(lists, offenders, spammers, level, total);
        return;
      }
      total, level := CutOffenders(lists, spammers, total, level, base);
    }

    method CutOffenders(lists: Lists, spammers: set<Address>, total: nat, ghost start: nat, ghost base: View)
      returns (left: nat, ghost level: nat)
      requires NoncesCut(base, Contents(), state.nonce)
      requires Cutting(lists, [], spammers, start, total) && pending == lists
      requires config.accountSlots >= 1
      modifies this`pending, all, priced, noncer
      ensures Valid() && level >= config.accountSlots && left == Total(pending)
      ensures AtLevel(lists, pending, locals, level, config.globalSlots)
      ensures left <= config.globalSlots || level == config.accountSlots
      ensures NoncesCut(base, Contents(), state.nonce)
    {
      var offenders: seq<Address>, waiting := [], spammers;
      ghost var who: seq<Address>, rest := [], spammers;
      left, level := total, start;
      while left > config.globalSlots && waiting != {}
        invariant Cutting(lists, who, rest, level, left)
        invariant left > config.globalSlots ==> who == offenders && rest == waiting
        invariant offenders == [] ==> pending == lists
        invariant NoncesCut(base, Contents(), state.nonce)
        decreases waiting
      {
        CuttingRest(lists, who, rest, level, left);
        var x := PopLongest(lists, waiting);
        left, level := TakeOffender(lists, offenders, x, left, rest, level, base);
        ghost var who', rest' := offenders + [x], waiting - {x};
        if left > config.globalSlots {
          CuttingNext(lists, who, rest, level, left, x, who', rest');
          who, rest := who', rest';
        }
        offenders, waiting := offenders + [x], waiting - {x};
      }
      CuttingRest(lists, who, rest, level, left);
      if left > config.globalSlots && |offenders| > 0 {
        left, level := Equalize(offenders, left, config.accountSlots, lists, rest, level, base);
        CuttingMeans(lists, who, rest, level, left);
      } else {
        CuttingMeans(lists, who, rest, level, left);
        if left > config.globalSlots {
          CuttingNobody(lists, level, left);
          level := config.accountSlots;
        }
      }
    }

    /** Removes one queued transaction by its hash. */
    method DropQueued(a: Address, n: nat, rest: NonceMap)
      requires Valid() && noncer.fallback == state.nonce && n in At(queue, a) && rest == At(queue, a) - {n}
      modifies this`pending, this`queue, this`beats, all, priced, noncer
      ensures Valid() && pending == old(pending) && noncer.nonces == old(noncer.nonces)
      ensures queue == With(old(queue), a, rest) && beats == Hushed(old(beats), old(queue), queue)
    {
      var tx := At(queue, a)[n];
      Account(all.All(), pending, queue, a);
      assert In(At(queue, a), tx);
      assert Holds(all.All(), tx);
      RemoveTx(tx.hash, true);
    }

    /** A step of a loop that takes one account's queue apart. */
    method DropNext(a: Address, n: nat, rest: NonceMap, ghost was: Lists, ghost heard: Beats) returns (less: NonceMap)
      requires queue.Keys <= was.Keys && beats == Hushed(heard, was, queue)
      requires Valid() && noncer.fallback == state.nonce && n in rest && queue == With(was, a, rest)
      modifies this`pending, this`queue, this`beats, all, priced, noncer
      ensures Valid() && pending == old(pending) && noncer.nonces == old(noncer.nonces)
      ensures less == rest - {n} && queue == With(was, a, less) && |less| < |rest|
      ensures queue.Keys <= was.Keys && beats == Hushed(heard, was, queue)
    {
      less := rest - {n};
      SizeOfRemoval(rest, n);
      WithTwice(was, a, rest, less);
      DropQueued(a, n, less);
      HushedTwice(heard, was, old(queue), queue);
    }

    /** Removes all queued transactions of an account, lowest nonce first. */
    method ClearQueue(a: Address)
      requires Valid() && noncer.fallback == state.nonce && a in queue
      modifies this`pending, this`queue, this`beats, all, priced, noncer
      ensures Valid() && pending == old(pending) && noncer.nonces == old(noncer.nonces)
      ensures queue == With(old(queue), a, map[]) && beats == Hushed(old(beats), old(queue), queue)
    {
      var rest := queue[a];
      ghost var was := queue;
      Account(all.All(), pending, queue, a);
      WithSame(queue, a);
      while rest != map[]
        invariant Valid() && pending == old(pending) && noncer.nonces == old(noncer.nonces)
        invariant queue == With(was, a, rest)
        invariant queue.Keys <= was.Keys && beats == Hushed(old(beats), was, queue)
        decreases |rest|
      {
        rest := DropNext(a, MinKey(rest), rest, was, old(beats));
      }
    }

    /** Removes the queued transaction with the highest nonce. */
    method TrimOne(a: Address, rest: NonceMap, ghost q: NonceMap, ghost size: nat, ghost next: nat, ghost was: Lists,
                   ghost heard: Beats) returns (less: NonceMap)
      requires Valid() && noncer.fallback == state.nonce && queue == With(was, a, rest)
      requires size == next + 1 <= |q| && rest == Lowest(q, size)
      requires queue.Keys <= was.Keys && beats == Hushed(heard, was, queue)
      modifies this`pending, this`queue, this`beats, all, priced, noncer
      ensures Valid() && pending == old(pending) && noncer.nonces == old(noncer.nonces)
      ensures less == Lowest(q, next) && queue == With(was, a, less)
      ensures queue.Keys <= was.Keys && beats == Hushed(heard, was, queue)
    {
      LevelDown(q, next, size);
      less := DropNext(a, MaxKey(rest), rest, was, heard);
    }

    /** Removes the given number of queued transactions from the highest nonce down. */
    method TrimQueue(a: Address, drop: nat, ghost keep: nat)
      requires Valid() && noncer.fallback == state.nonce && a in queue && keep == |queue[a]| - drop && keep > 0
      modifies this`pending, this`queue, this`beats, all, priced, noncer
      ensures Valid() && pending == old(pending) && noncer.nonces == old(noncer.nonces)
      ensures queue == With(old(queue), a, Lowest(old(queue)[a], keep))
      ensures beats == Hushed(old(beats), old(queue), queue)
    {
      ghost var was, q := queue, queue[a];
      var rest, left := queue[a], drop;
      ghost var size: nat := |q|;
      Account(all.All(), pending, queue, a);
      WithSame(queue, a);
      while left > 0
        invariant Valid() && pending == old(pending) && noncer.nonces == old(noncer.nonces)
        invariant left >= 0 && size == keep + left && size <= |q| && rest == Lowest(q, size)
        invariant queue == With(was, a, rest)
        invariant queue.Keys <= was.Keys && beats == Hushed(old(beats), was, queue)
        decreases left
      {
        ghost var next: nat := size - 1;
        rest := TrimOne(a, rest, q, size, next, was, old(beats));
        left, size := left - 1, next;
      }
    }

    /** Cuts one account's queue by as much as is needed, at most to nothing. */
    method ShedAccount(x: Address, drop: nat) returns (left: nat, ghost l: NonceMap)
      requires Valid() && noncer.fallback == state.nonce && x in queue
      modifies this`pending, this`queue, this`beats, all, priced, noncer
      ensures Valid() && pending == old(pending) && noncer.nonces == old(noncer.nonces)
      ensures queue == With(old(queue), x, l) && Initial(l, old(queue)[x])
      ensures queue.Keys <= old(queue).Keys && beats == Hushed(old(beats), old(queue), queue)
      ensures left > 0 ==> l == map[]
      ensures Total(queue) - left == old(Total(queue)) - drop
    {
      ghost var was, q := queue, queue[x];
      var size := |queue[x]|;
      if size <= drop {
        l := map[];
        TotalWith(was, x, l);
        ClearQueue(x);
        left := drop - size;
      } else {
        ghost var keep: nat := size - drop;
        l := Lowest(q, keep);
        LowestIsInitial(q, keep);
        TotalWith(was, x, l);
        TrimQueue(x, drop, keep);
        left := 0;
      }
    }

    static method PopLatest(heard: map<Address, nat>, waiting: set<Address>) returns (x: Address)
      requires waiting != {}
      ensures IsLatest(heard, waiting, x)
    {
      LatestExists(heard, waiting);
      x :| IsLatest(heard, waiting, x);
    }

    /** Drops queued transactions of remote accounts, latest heartbeat first, until
        the queue is within its limit or only local transactions are left. */
    method TruncateQueue()
      requires Valid() && noncer.fallback == state.nonce
      modifies this`pending, this`queue, this`beats, all, priced, noncer
      ensures Valid() && pending == old(pending) && noncer.nonces == old(noncer.nonces)
      ensures Shed(old(queue), queue, locals, old(beats)) && beats == Hushed(old(beats), old(queue), queue)
      ensures old(Total(queue)) <= config.globalQueue ==> queue == old(queue)
      ensures old(Total(queue)) > config.globalQueue ==>
        Total(queue) == config.globalQueue
        || (Total(queue) > config.globalQueue && forall a :: a in queue ==> a in locals)
      ensures old(NoncesOk(Contents(), state.nonce)) ==> NoncesOk(Contents(), state.nonce)
    {
      var queued := Count(queue);
      var heard := beats;
      ghost var was := queue;
      var waiting := set a | a in queue && a !in locals;
      SheddingStarts(was, locals, heard, waiting);
      if queued <= config.globalQueue {
        SheddingEnds(was, queue, locals, heard, waiting, None);
        return;
      }
      ShedAll(waiting, heard, queued - config.globalQueue, was);
      if old(NoncesOk(Contents(), state.nonce)) {
        ShedKeepsNonces(old(Contents()), state.nonce, locals, heard, Contents());
      }
    }

    /** Cuts the queue of the account heard of last. */
    method ShedNext(waiting: set<Address>, heard: map<Address, nat>, drop: nat, ghost was: Lists,
                    ghost last: Option<Address>)
      returns (left: nat, rest: set<Address>, ghost next: Option<Address>)
      requires Valid() && noncer.fallback == state.nonce && waiting != {} && NoEmptyList(was)
      requires Shedding(was, queue, locals, heard, waiting, last) && (last.Some? ==> At(queue, last.value) == map[])
      modifies this`pending, this`queue, this`beats, all, priced, noncer
      ensures Valid() && pending == old(pending) && noncer.nonces == old(noncer.nonces)
      ensures Shedding(was, queue, locals, heard, rest, next)
      ensures (left > 0 && next.Some? ==> At(queue, next.value) == map[])
      ensures rest < waiting && Total(queue) - left == old(Total(queue)) - drop
      ensures queue.Keys <= old(queue).Keys && beats == Hushed(old(beats), old(queue), queue)
    {
      var x := PopLatest(heard, waiting);
      SheddingWaits(was, queue, locals, heard, waiting, last, x);
      ghost var cur, l := queue, map[];
      left, l := ShedAccount(x, drop);
      SheddingStep(was, cur, locals, heard, waiting, x, l, last);
      rest, next := waiting - {x}, Some(x);
    }

    method ShedAll(remote: set<Address>, heard: map<Address, nat>, excess: nat, ghost was: Lists)
      requires Valid() && noncer.fallback == state.nonce && queue == was
      requires Shedding(was, queue, locals, heard, remote, None) && Total(queue) == config.globalQueue + excess
      modifies this`pending, this`queue, this`beats, all, priced, noncer
      ensures Valid() && pending == old(pending) && noncer.nonces == old(noncer.nonces)
      ensures Shed(was, queue, locals, heard) && beats == Hushed(old(beats), was, queue)
      ensures Total(queue) == config.globalQueue
        || (Total(queue) > config.globalQueue && forall a :: a in queue ==> a in locals)
    {
      var drop, waiting := excess, remote;
      Account(all.All(), pending, queue, 0);
      ghost var last: Option<Address> := None;
      while drop > 0 && waiting != {}
        invariant Valid() && pending == old(pending) && noncer.nonces == old(noncer.nonces)
        invariant Shedding(was, queue, locals, heard, waiting, last) && Total(queue) == config.globalQueue + drop
        invariant drop > 0 && last.Some? ==> At(queue, last.value) == map[]
        invariant queue.Keys <= was.Keys && beats == Hushed(old(beats), was, queue)
        decreases waiting
      {
        ghost var cur := queue;
        drop, waiting, last := ShedNext(waiting, heard, drop, was, last);
        HushedTwice(old(beats), was, cur, queue);
      }
      SheddingEnds(was, queue, locals, heard, waiting, last);
      Account(all.All(), pending, queue, 0);
    }

    /** Switches the pool over to a new head and takes back abandoned transactions; if the
        new head is not followed nothing changes. */
    method ResetHead(reset: Reset) returns (ghost steps: seq<Snapshot>)
      requires Valid() && noncer.fallback == state.nonce
      modifies this`state, this`noncer, this`maxGas, this`forks
      modifies this`pending, this`queue, this`beats, this`changes, this`locals, this`file, all, priced
      ensures Valid() && noncer.fallback == state.nonce && |steps| > 0
      ensures reset.followed ==> fresh(noncer) && AddChain(config, reset.reinject, steps)
      ensures reset.followed ==> steps[0] == Switched(old(Snap()), reset)
      ensures reset.followed ==>
        Snap() == steps[|steps| - 1].(forks := reset.forks) && SameHead(steps[0], steps[|steps| - 1])
      ensures reset.followed ==> locals == old(locals)
      ensures !reset.followed ==> noncer == old(noncer) && steps == [old(Snap())] && Snap() == old(Snap())
    {
      if !reset.followed {
        steps := [Snap()];
        return;
      }
      SwitchHead(reset);
      ghost var swapped;
      var errs, dirty;
      errs, dirty, swapped, steps := AddTxsLocked(reset.reinject, false);
      BatchIsChain(config, reset.reinject, steps, errs, swapped);
      ChainKeeps(config, reset.reinject, steps, |reset.reinject|);
      forks := reset.forks;
    }

    method SwitchHead(reset: Reset)
      modifies this`state, this`noncer, this`maxGas
      ensures fresh(noncer) && noncer.fallback == state.nonce && Snap() == Switched(old(Snap()), reset)
    {
      state, maxGas := reset.state, reset.maxGas;
      noncer := new TxNoncer(state.nonce);
    }

    /** One run of the background reorganisation under the pool lock: follows the head if
        it moved, promotes, demotes, and enforces the limits. */
    method RunReorg(reset: Option<Reset>, dirty: set<Address>) returns (ghost g: Stages)
      requires Valid() && noncer.fallback == state.nonce && config.accountSlots >= 1
      modifies this`state, this`noncer, this`maxGas, this`forks, this`fee, this`file
      modifies this`pending, this`queue, this`beats, this`changes, this`locals, all, priced, noncer
      ensures Valid() && noncer.fallback == state.nonce && (noncer == old(noncer) || fresh(noncer))
      ensures Reorganised(config, old(Snap()), reset, dirty, g, Snap())
    {
      ghost var s := Snap();
      ghost var steps, promoted := Advance(reset, dirty);
      g := Finish(s, reset, dirty, steps, promoted, Snap(), Rules());
    }

    /** Enforces the limits and starts counting evictions anew. */
    method Finish(ghost s: Snapshot, reset: Option<Reset>, dirty: set<Address>, ghost steps: seq<Snapshot>,
                  ghost promoted: View, ghost mid: Snapshot, ghost t: Terms) returns (ghost g: Stages)
      requires Valid() && noncer.fallback == state.nonce && config.accountSlots >= 1 && mid == Snap() && t == Rules()
      requires Advanced(config, s, reset, dirty, steps, promoted, mid.view, t)
      requires Rehomed(s, reset, mid) && (reset.Some? ==> Cleared(t, mid.view.pending))
      requires |steps| > 0 && file == FileOf(steps[|steps| - 1])
      requires reset.Some? && reset.value.baseFee.Some? ==> UniqueIn(mid)
      modifies this`pending, this`queue, this`beats, this`changes, this`file, all, priced, noncer
      ensures Valid() && Reorganised(config, s, reset, dirty, g, Snap())
    {
      ghost var level := CutBack(steps[|steps| - 1], mid);
      g := Stages(steps, promoted, mid.view, level);
      WasReorganised(config, s, reset, dirty, g, mid, t, Snap());
    }

    /** Enforces the limits, with an account of what was dropped since the given state. */
    method CutBack(ghost s: Snapshot, ghost mid: Snapshot) returns (ghost level: nat)
      requires Valid() && noncer.fallback == state.nonce && config.accountSlots >= 1
      requires file == FileOf(s) && mid == Snap()
      modifies this`pending, this`queue, this`beats, this`changes, this`file, all, priced, noncer
      ensures Valid() && (Cleared(old(Rules()), mid.view.pending) ==> Cleared(old(Rules()), pending))
      ensures CutDown(config, mid.view, level, state.nonce, locals, Contents())
      ensures OnlyDrops(s, Snap()) && (UniqueIn(mid) ==> UniqueIn(Snap()))
      ensures SameHead(mid, Snap()) && changes == 0
    {
      FiledDrops(s, mid, file);
      Record();
      level := EnforceLimits();
      changes := 0;
      FiledDrops(mid, Snap(), file);
      DropsTwice(s, mid, Snap());
      if UniqueIn(mid) { DropsKeepUnique(mid, Snap()); }
    }

    /** Follows the head if it moved, else promotes the accounts with new transactions. */
    method Advance(reset: Option<Reset>, dirty: set<Address>) returns (ghost steps: seq<Snapshot>, ghost promoted: View)
      requires Valid() && noncer.fallback == state.nonce
      modifies this`state, this`noncer, this`maxGas, this`forks, this`fee, this`file
      modifies this`pending, this`queue, this`beats, this`changes, this`locals, all, priced, noncer
      ensures Valid() && noncer.fallback == state.nonce && (noncer == old(noncer) || fresh(noncer))
      ensures Advanced(config, old(Snap()), reset, dirty, steps, promoted, Contents(), Rules())
      ensures Rehomed(old(Snap()), reset, Snap()) && (reset.Some? ==> Cleared(Rules(), pending))
      ensures |steps| > 0 && file == FileOf(steps[|steps| - 1])
      ensures reset.Some? && reset.value.baseFee.Some? ==> UniqueIn(Snap())
    {
      if reset.Some? {
        steps, promoted := FollowHead(reset.value);
      } else {
        steps := [Snap()];
        Record();
        PromoteExecutables(dirty);
        promoted := Contents();
      }
    }

    /** The two truncations. */
    method EnforceLimits() returns (ghost level: nat)
      requires Valid() && noncer.fallback == state.nonce && config.accountSlots >= 1
      modifies this`pending, this`queue, this`beats, all, priced, noncer
      ensures Valid() && (old(Cleared(Rules(), pending)) ==> Cleared(Rules(), pending))
      ensures CutDown(config, old(Contents()), level, state.nonce, locals, Contents())
    {
      ghost var v := Contents();
      level := TruncatePending();
      if Cleared(Rules(), v.pending) {
        CutKeepsCleared(v.pending, pending, locals, level, config.globalSlots, Rules());
      }
      CutQueue(v, Contents(), level);
    }

    method CutQueue(ghost v: View, ghost w: View, ghost level: nat)
      requires Valid() && noncer.fallback == state.nonce && w == Contents() && w.queue == v.queue && w.beats == v.beats
      requires AtLevel(v.pending, w.pending, locals, level, config.globalSlots) && level >= config.accountSlots
      requires (Total(w.pending) <= config.globalSlots || level == config.accountSlots) && NoncesCut(v, w, state.nonce)
      modifies this`pending, this`queue, this`beats, all, priced, noncer
      ensures Valid() && pending == old(pending) && CutDown(config, v, level, state.nonce, locals, Contents())
    {
      TruncateQueue();
      WasCutDown(config, v, w, level, state.nonce, locals, Contents());
    }

    /** Follows a new head. Whether the pending lists come out as intervals depends on the
        state after reinjection alone. */
    method FollowHead(reset: Reset) returns (ghost steps: seq<Snapshot>, ghost promoted: View)
      requires Valid() && noncer.fallback == state.nonce
      modifies this`state, this`noncer, this`maxGas, this`forks, this`fee, this`file
      modifies this`pending, this`queue, this`beats, this`changes, this`locals, all, priced, noncer
      ensures Valid() && noncer.fallback == state.nonce && (noncer == old(noncer) || fresh(noncer))
      ensures Followed(config, old(Snap()), reset, steps, promoted, Contents(), Rules())
      ensures Rehomed(old(Snap()), Some(reset), Snap()) && Cleared(Rules(), pending)
      ensures |steps| > 0 && file == FileOf(steps[|steps| - 1])
      ensures reset.baseFee.Some? ==> UniqueIn(Snap())
    {
      steps := ResetHead(reset);
      Record();
      promoted := Settle(reset.baseFee);
    }

    /** Promotes and demotes all accounts and sets their nonces. */
    method Settle(baseFee: Option<nat>) returns (ghost promoted: View)
      requires Valid() && noncer.fallback == state.nonce
      modifies this`pending, this`queue, this`beats, this`fee, all, priced, noncer
      ensures Valid() && noncer.fallback == state.nonce && Passed(Rules(), old(Contents()), promoted, Contents())
      ensures Cleared(Rules(), pending) && fee == if baseFee.Some? then baseFee else old(fee)
      ensures baseFee.Some? ==> Unique(all.remotes, priced.urgent, priced.floating)
    {
      ghost var start := Contents();
      PromoteExecutables(queue.Keys);
      ghost var content := all.All();
      promoted := Contents();
      DemoteUnexecutables();
      Reprice(baseFee);
      ghost var demoted := Contents();
      Account(all.All(), pending, queue, 0);
      Refresh();
      WasPassed(Rules(), content, start, promoted, demoted, Contents());
    }

    /** Sorts the price heaps by the base fee of the next block, if it has one. */
    method Reprice(baseFee: Option<nat>)
      requires Valid()
      modifies this`fee, priced
      ensures Valid() && fee == if baseFee.Some? then baseFee else old(fee)
      ensures baseFee.Some? ==> Unique(all.remotes, priced.urgent, priced.floating)
    {
      if baseFee.Some? {
        priced.SetBaseFee(baseFee.value);
        FileStocked(all.All(), all.remotes, old(priced.urgent), old(priced.floating), file, priced.urgent,
                    priced.floating);
        priced.RebuiltIsUnique();
        fee := baseFee;
      }
    }

    /** Raises or lowers the minimum tip; raising it drops exactly the remote
        transactions that tip less. */
    method SetGasPrice(price: nat) returns (ghost dropped: seq<Tx>)
      requires Valid() && noncer.fallback == state.nonce
      modifies this`gasPrice, this`pending, this`queue, this`beats, all, priced, noncer
      ensures Valid() && (old(Aligned()) ==> Aligned()) && Repriced(old(Snap()), price, dropped, Snap())
    {
      ghost var s := Snap();
      var prior := gasPrice;
      gasPrice, dropped := price, [];
      if price > prior {
        dropped := PriceOut(price);
      } else {
        NothingRepriced(s, price, Snap());
      }
    }

    /** Drops the remote transactions that tip less. */
    method PriceOut(price: nat) returns (ghost dropped: seq<Tx>)
      requires Valid() && noncer.fallback == state.nonce
      modifies this`pending, this`queue, this`beats, all, priced, noncer
      ensures Valid() && (old(Aligned()) ==> Aligned())
      ensures HashSet(dropped) == BelowTip(old(all.remotes), price).Keys
      ensures all.All() == old(all.All()) - HashSet(dropped) && all.remotes == old(all.remotes) - HashSet(dropped)
      ensures Contents() == Removals(old(Contents()), state.nonce, now, old(all.All()), dropped)
      ensures Stocked(old(all.remotes), old(priced.urgent), old(priced.floating), multiset{}, priced.urgent,
                      priced.floating)
    {
      var drop := all.RemotesBelowTip(price);
      assert drop.Keys == BelowTip(all.remotes, price).Keys;
      all.Consistent();
      var order := InSomeOrder(drop);
      CoversMore(all.remotes, priced.urgent, priced.floating, order);
      Evict(order);
      priced.Removed(|drop|);
      StockedFrom(old(all.remotes), all.remotes, old(priced.urgent), old(priced.floating), priced.urgent,
                  priced.floating);
      FileStocked(all.All(), all.remotes, old(priced.urgent), old(priced.floating), file, priced.urgent,
                  priced.floating);
      dropped := order;
    }

    /** The transactions of a table as a list. */
    static method InSomeOrder(m: Content) returns (list: seq<Tx>)
      requires KeyedByHash(m)
      ensures HashSet(list) == m.Keys && |list| == |m|
    {
      list := [];
      var rest := m;
      while rest != map[]
        invariant rest.Keys <= m.Keys && (forall h :: h in rest ==> rest[h] == m[h]) && |list| + |rest| == |m|
        invariant HashSet(list) == m.Keys - rest.Keys
        decreases rest.Keys
      {
        var h :| h in rest;
        SizeOfContent(rest, h);
        HashSetSnoc(list, m[h]);
        list, rest := list + [rest[h]], rest - {h};
      }
    }

    /** Removes the queued transactions of expired accounts. */
    method EvictExpired()
      requires Valid() && noncer.fallback == state.nonce
      modifies this`pending, this`queue, this`beats, all, priced, noncer
      ensures Valid() && pending == old(pending) && noncer.nonces == old(noncer.nonces)
      ensures forall a :: At(queue, a) == (if Expired(config, old(Snap()), a) then map[] else old(At(queue, a)))
      ensures beats == Hushed(old(beats), old(queue), queue)
      ensures old(Aligned()) ==> Aligned()
    {
      var todo := set a | a in queue && a !in locals && (a !in beats || now - beats[a] > config.lifetime);
      ghost var was, expired := queue, todo;
      while todo != {}
        invariant Valid() && pending == old(pending) && noncer.nonces == old(noncer.nonces)
        invariant todo <= expired <= was.Keys && todo <= queue.Keys
        invariant forall a :: At(queue, a) == (if a in expired && a !in todo then map[] else At(was, a))
        invariant queue.Keys <= was.Keys && beats == Hushed(old(beats), was, queue)
        decreases todo
      {
        var a :| a in todo;
        ghost var cur := queue;
        ClearQueue(a);
        HushedTwice(old(beats), was, cur, queue);
        todo := todo - {a};
      }
      if old(Aligned()) {
        FewerQueuedKeepsNonces(old(Contents()), state.nonce, Contents());
      }
    }

    method Step(op: PoolOp)
      requires Valid() && noncer.fallback == state.nonce && config.accountSlots >= 1
      modifies this, all, priced, noncer
      ensures Valid() && noncer.fallback == state.nonce && (noncer == old(noncer) || fresh(noncer))
      ensures StepRel(config, old(Snap()), op, Snap())
      ensures !Reinjects(op) && old(Aligned()) ==> Aligned()
    {
      match op
      case AddTx(tx, local) =>
        var replaced, err := Add(tx, local);
        assert AddRel(config, old(Snap()), tx, local, replaced, err, Snap());
        assert Added(config, old(Snap()), tx, local, Snap());
      case Promote(dirty) => PromoteDirty(dirty);
      case MoveHead(m) => FollowMove(m);
      case RaisePrice(price) =>
        ghost var dropped := SetGasPrice(price);
        assert Repriced(old(Snap()), price, dropped, Snap());
      case Expire(time) =>
        ExpireAt(time);
    }

    method PromoteDirty(dirty: set<Address>)
      requires Valid() && noncer.fallback == state.nonce && config.accountSlots >= 1
      modifies this, all, priced, noncer
      ensures Valid() && noncer.fallback == state.nonce && (noncer == old(noncer) || fresh(noncer))
      ensures Does(config, old(Snap()), Promote(dirty), Snap()) && (old(Aligned()) ==> Aligned())
    {
      ghost var s := Snap();
      ghost var g := RunReorg(None, dirty);
      assert Reorganised(config, s, None, dirty, g, Snap());
      if AlignedIn(s) { ReorganisedKeepsAligned(config, s, None, dirty, g, Snap()); }
    }

    method FollowMove(m: Move)
      requires Valid() && noncer.fallback == state.nonce && config.accountSlots >= 1
      modifies this, all, priced, noncer
      ensures Valid() && noncer.fallback == state.nonce && (noncer == old(noncer) || fresh(noncer))
      ensures Does(config, old(Snap()), MoveHead(m), Snap())
      ensures !Reinjects(MoveHead(m)) && old(Aligned()) ==> Aligned()
    {
      ghost var s := Snap();
      var d;
      ghost var g;
      d, g := MoveTo(m);
      assert Moved(config, s, m, d, g, Snap());
      if !Reinjects(MoveHead(m)) && AlignedIn(s) { MovedKeepsAligned(config, s, m, d, g, Snap()); }
    }

    /** The eviction ticker at a given time. */
    method ExpireAt(time: nat)
      requires Valid() && noncer.fallback == state.nonce
      modifies this`pending, this`queue, this`beats, this`now, this`file, all, priced, noncer
      ensures Valid() && Does(config, old(Snap()), Expire(time), Snap()) && (old(Aligned()) ==> Aligned())
    {
      ghost var s := Snap();
      now := time;
      Record();
      EvictExpired();
      FiledDrops(s, Snap(), file);
      WasExpired(config, s, time, s.(now := time), Snap());
    }

    /** The reorganisation for a move of the head, from the blocks that are stored: what is
        put back is what the walk over both branches decides. A missing new block makes it
        panic before anything is changed. */
    method MoveTo(m: Move) returns (d: Decision, ghost g: Stages)
      requires Valid() && noncer.fallback == state.nonce && config.accountSlots >= 1
      modifies this, all, priced, noncer
      ensures Valid() && noncer.fallback == state.nonce && (noncer == old(noncer) || fresh(noncer))
      ensures Moved(config, old(Snap()), m, d, g, Snap())
    {
      g := Stages([], Contents(), Contents(), 0);
      d := Decide(m.store, m.oldHead, m.newHead);
      if d.Panic? { return; }
      g := RunReorg(Some(ResetFor(d, m)), {});
    }

    /** Every run of the pool, state by state: each step does what its operation says, the
        invariants hold in every state, and only a step that takes abandoned transactions
        back can end the nonce intervals. */
    method Run(ops: seq<PoolOp>) returns (ghost states: seq<Snapshot>)
      requires Valid() && noncer.fallback == state.nonce && config.accountSlots >= 1 && Separated(Snap())
      modifies this, all, priced, noncer
      ensures Valid() && |states| == |ops| + 1 && states[0] == old(Snap()) && states[|ops|] == Snap()
      ensures forall k :: 0 <= k < |ops| ==> StepRel(config, states[k], ops[k], states[k + 1])
      ensures forall k :: 0 <= k <= |ops| ==> Sound(states[k])
      ensures forall k :: 0 <= k < |ops| ==> KeepsAligned(states[k], ops[k], states[k + 1])
    {
      states := [Snap()];
      all.Consistent();
      HistoryStarts(config, ops, Snap());
      var i := 0;
      while i < |ops|
        invariant 0 <= i <= |ops| && Valid() && noncer.fallback == state.nonce
        invariant (noncer == old(noncer) || fresh(noncer))
        invariant |states| == i + 1 && states[0] == old(Snap()) && states[i] == Snap()
        invariant History(config, ops, states)
      {
        Step(ops[i]);
        all.Consistent();
        HistorySeparates(config, ops, states, ops[i], Snap());
        ghost var more := states + [Snap()];
        HistoryStep(config, ops, states, Snap(), more);
        states := more;
        i := i + 1;
      }
      HistoryMeans(config, ops, states);
    }
  }

  /** A run from the creation of the pool. */
  method Start(config: Config, state: ChainState, maxGas: nat, forks: Forks, gasPrice: nat, locals: set<Address>,
               ops: seq<PoolOp>) returns (pool: TxPool, ghost states: seq<Snapshot>)
    requires config.accountSlots >= 1
    ensures fresh(pool) && pool.Valid() && |states| == |ops| + 1 && pool.config == config
    ensures states[0].view.pending == states[0].view.queue == map[] && states[0].all == map[]
    ensures states[0].state == state && states[0].slots == 0 && UniqueIn(states[0])
    ensures forall k :: 0 <= k < |ops| ==> StepRel(config, states[k], ops[k], states[k + 1])
    ensures forall k :: 0 <= k <= |ops| ==> Sound(states[k])
    ensures AlignedIn(states[0]) && forall k :: 0 <= k < |ops| ==> KeepsAligned(states[k], ops[k], states[k + 1])
  {
    pool := new TxPool(config, state, maxGas, forks, gasPrice, locals);
    pool.all.Consistent();
    assert UniqueIn(pool.Snap());
    states := pool.Run(ops);
  }
}
