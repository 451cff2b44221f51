/** What promotion and demotion do to the lists of one account. */
module PoolSteps {
  import opened Transactions
  import opened NonceMaps
  import opened TxLists
  import opened TxLookups
  import opened PoolLists

  // ----- promotion

  /** The pool nonce after a run of transactions was promoted. */
  function NextNonce(run: NonceMap, pool: nat): nat {
    if run == map[] then pool else MaxKey(run) + 1
  }

  /** Everything in `run` but not in `rest` lies below `rest`. */
  ghost predicate Upper(rest: NonceMap, run: NonceMap) {
    rest.Keys <= run.Keys && forall n, k :: n in run && n !in rest && k in rest ==> n < k
  }

  /** Promoting the lowest transaction left makes the nonce after it the next. */
  lemma NextNonceStep(run: NonceMap, rest: NonceMap, n: nat, pool: nat)
    requires Upper(rest, run) && rest != map[] && n == MinKey(rest)
    ensures Upper(rest - {n}, run) && NextNonce(run - (rest - {n}).Keys, pool) == n + 1
  {
    var done := run - (rest - {n}).Keys;
    assert n in done;
    forall k | k in done ensures k <= n { assert k == n || k !in rest; }
  }

  lemma NextNonceEnds(run: NonceMap, pool: nat)
    ensures NextNonce(run - run.Keys, pool) == pool && NextNonce(run - {}, pool) == NextNonce(run, pool)
  {
    assert run - {} == run;
    assert run - run.Keys == map[];
  }

  /** All of a run but `rest` was added to `p`, and `next` is the nonce after it. */
  ghost predicate PartlyRun(p: NonceMap, run: NonceMap, rest: NonceMap, pool: nat, grown: NonceMap, next: nat) {
    forall k {:trigger Key(k)} :: Key(k) ==>
      Upper(rest, run) && grown == p + (run - rest.Keys) && next == NextNonce(run - rest.Keys, pool)
  }

  lemma RunStarts(p: NonceMap, run: NonceMap, pool: nat)
    ensures PartlyRun(p, run, run, pool, p, pool)
  {
    NothingLeft(p, run);
    NextNonceEnds(run, pool);
  }

  /** One more of the run is promoted. */
  lemma RunStep(p: NonceMap, run: NonceMap, rest: NonceMap, n: nat, pool: nat, grown: NonceMap, next: nat, a: Address)
    requires PartlyRun(p, run, rest, pool, grown, next) && rest != map[] && n == MinKey(rest)
    requires Owned(run, a) && run.Keys !! p.Keys
    ensures n in run && run[n].nonce == n && run[n].sender == Some(a) && n !in grown && |rest - {n}| < |rest|
    ensures PartlyRun(p, run, rest - {n}, pool, grown[n := run[n]], run[n].nonce + 1)
  {
    assert Key(0);
    OneMore(p, run, rest, n);
    NextNonceStep(run, rest, n, pool);
    SizeOfRemoval(rest, n);
  }

  lemma RunEnds(p: NonceMap, run: NonceMap, pool: nat, grown: NonceMap, next: nat)
    requires PartlyRun(p, run, map[], pool, grown, next)
    ensures grown == p + run && next == NextNonce(run, pool)
  {
    assert Key(0);
    NothingLeft(p, run);
    NextNonceEnds(run, pool);
  }

  /** What stays of a queue after the run was taken out, and at most `limit` kept. */
  function Capped(q: NonceMap, local: bool, limit: nat): NonceMap {
    if local then q else Lowest(q, limit)
  }

  /** The steps of a promotion: old nonces and unpayable transactions are dropped,
      the run from the pool nonce on is taken out, the rest is capped. */
  ghost predicate Promotes(q: NonceMap, chain: nat, balance: nat, maxGas: nat, pool: nat, local: bool, limit: nat,
                           usable: NonceMap, run: NonceMap, kept: NonceMap) {
    forall k {:trigger Key(k)} :: Key(k) ==>
      && usable == AtLeast(q, chain) - UnpayableIn(AtLeast(q, chain), balance, maxGas).Keys
      && run == ReadyRun(usable, pool)
      && kept == Capped(usable - run.Keys, local, limit)
  }

  /** The same as functions of the queue. */
  function Usable(q: NonceMap, chain: nat, balance: nat, maxGas: nat): NonceMap {
    AtLeast(q, chain) - UnpayableIn(AtLeast(q, chain), balance, maxGas).Keys
  }

  function Promotable(q: NonceMap, chain: nat, balance: nat, maxGas: nat, pool: nat): NonceMap {
    ReadyRun(Usable(q, chain, balance, maxGas), pool)
  }

  function Remaining(q: NonceMap, chain: nat, balance: nat, maxGas: nat, pool: nat, local: bool, limit: nat): NonceMap {
    Capped(Usable(q, chain, balance, maxGas) - Promotable(q, chain, balance, maxGas, pool).Keys, local, limit)
  }

  lemma PromotesIs(q: NonceMap, chain: nat, balance: nat, maxGas: nat, pool: nat, local: bool, limit: nat,
                   usable: NonceMap, run: NonceMap, kept: NonceMap)
    requires Promotes(q, chain, balance, maxGas, pool, local, limit, usable, run, kept)
    ensures run == Promotable(q, chain, balance, maxGas, pool)
    ensures kept == Remaining(q, chain, balance, maxGas, pool, local, limit)
  {
    assert Key(0);
  }

  lemma PromotableIs(q: NonceMap, chain: nat, balance: nat, maxGas: nat, pool: nat, local: bool, limit: nat)
    ensures Promotes(q, chain, balance, maxGas, pool, local, limit, Usable(q, chain, balance, maxGas),
                     Promotable(q, chain, balance, maxGas, pool),
                     Remaining(q, chain, balance, maxGas, pool, local, limit))
  {
  }

  lemma CappedIsInitial(q: NonceMap, local: bool, limit: nat)
    ensures Initial(Capped(q, local, limit), q)
  {
    LowestIsInitial(q, limit);
  }

  /** What remains was queued and is not too old, and the nonce that could be promoted
      next is not among it. */
  lemma RemainingIsBeyond(q: NonceMap, chain: nat, balance: nat, maxGas: nat, pool: nat, local: bool, limit: nat,
                          usable: NonceMap, run: NonceMap, kept: NonceMap)
    requires Promotes(q, chain, balance, maxGas, pool, local, limit, usable, run, kept)
    ensures (forall n :: n in kept ==> n >= chain && n in q) && NextNonce(run, pool) !in kept
  {
    assert Key(0);
    CappedIsInitial(usable - run.Keys, local, limit);
    ReadyIsMaximal(usable, pool);
    assert kept.Keys <= usable.Keys;
  }

  /** Taking two disjoint parts out of a list leaves the third. */
  lemma TakeTwo(m: NonceMap, run: NonceMap, kept: NonceMap, rest: NonceMap)
    requires Submap(run, m) && Submap(kept, m) && run.Keys !! kept.Keys
    requires rest == m - run.Keys - kept.Keys
    ensures rest.Keys !! run.Keys !! kept.Keys && rest + run + kept == m
  {
    assert (rest + run + kept).Keys == m.Keys;
    forall n | n in m ensures (rest + run + kept)[n] == m[n] {}
  }

  lemma UsableSplits(q: NonceMap, chain: nat, balance: nat, maxGas: nat, drops: NonceMap, usable: NonceMap)
    requires drops == UnpayableIn(AtLeast(q, chain), balance, maxGas)
    requires usable == AtLeast(q, chain) - drops.Keys
    ensures Below(q, chain).Keys !! drops.Keys !! usable.Keys && Below(q, chain) + drops + usable == q
  {
    assert (Below(q, chain) + drops + usable).Keys == q.Keys;
    forall n | n in q ensures (Below(q, chain) + drops + usable)[n] == q[n] {}
  }

  lemma SplitAgain(q: NonceMap, a: NonceMap, b: NonceMap, m: NonceMap, rest: NonceMap, run: NonceMap, kept: NonceMap,
                   gone: NonceMap)
    requires a.Keys !! b.Keys !! m.Keys && a + b + m == q
    requires rest.Keys !! run.Keys !! kept.Keys && rest + run + kept == m && gone == a + b + rest
    ensures gone.Keys !! run.Keys !! kept.Keys && gone + run + kept == q
    ensures a.Keys !! b.Keys !! rest.Keys
  {
    assert m.Keys == rest.Keys + run.Keys + kept.Keys;
    assert (gone + run + kept).Keys == q.Keys;
    forall n | n in q ensures (gone + run + kept)[n] == q[n] {}
  }

  ghost predicate Submap(r: NonceMap, m: NonceMap) {
    r.Keys <= m.Keys && forall n :: n in r ==> r[n] == m[n]
  }

  lemma PromotedParts(q: NonceMap, chain: nat, balance: nat, maxGas: nat, pool: nat, local: bool, limit: nat,
                      usable: NonceMap, run: NonceMap, kept: NonceMap)
    requires Promotes(q, chain, balance, maxGas, pool, local, limit, usable, run, kept)
    ensures Submap(usable, q) && Submap(run, usable) && Submap(kept, usable) && run.Keys !! kept.Keys
    ensures run == ReadyRun(usable, pool)
  {
    assert Key(0);
    CappedIsInitial(usable - run.Keys, local, limit);
  }

  /** A queue splits into what is dropped, in three steps, promoted and kept. */
  lemma PromotionSplits(q: NonceMap, chain: nat, balance: nat, maxGas: nat, pool: nat, local: bool, limit: nat,
                        usable: NonceMap, run: NonceMap, kept: NonceMap, drops: NonceMap, caps: NonceMap,
                        gone: NonceMap)
    requires Promotes(q, chain, balance, maxGas, pool, local, limit, usable, run, kept)
    requires drops == UnpayableIn(AtLeast(q, chain), balance, maxGas) && caps == usable - run.Keys - kept.Keys
    requires gone == Below(q, chain) + drops + caps
    ensures gone.Keys !! run.Keys !! kept.Keys && gone + run + kept == q
    ensures Hashes(gone) == Hashes(Below(q, chain)) + Hashes(drops) + Hashes(caps)
  {
    assert Key(0);
    PromotedParts(q, chain, balance, maxGas, pool, local, limit, usable, run, kept);
    UsableSplits(q, chain, balance, maxGas, drops, usable);
    TakeTwo(usable, run, kept, caps);
    SplitAgain(q, Below(q, chain), drops, usable, caps, run, kept, gone);
    HashesOfUnion(Below(q, chain), drops);
    HashesOfUnion(Below(q, chain) + drops, caps);
  }

  /** With its pending list, the account's transactions split into dropped,
      pending and queued ones. */
  lemma PromotionWhole(p: NonceMap, q: NonceMap, run: NonceMap, kept: NonceMap, gone: NonceMap)
    requires p.Keys !! q.Keys && gone.Keys !! run.Keys !! kept.Keys && gone + run + kept == q
    ensures gone.Keys !! (p + run).Keys !! kept.Keys && gone + (p + run) + kept == p + q
  {
    assert q.Keys == gone.Keys + run.Keys + kept.Keys;
    assert (gone + (p + run) + kept).Keys == (p + q).Keys;
    forall n | n in p + q ensures (gone + (p + run) + kept)[n] == (p + q)[n] {}
  }

  /** What a promotion of one queue drops, takes out and keeps. */
  datatype Plan = Plan(forwards: NonceMap, drops: NonceMap, caps: NonceMap, run: NonceMap, kept: NonceMap)

  ghost function Gone(plan: Plan): NonceMap {
    plan.forwards + plan.drops + plan.caps
  }

  ghost predicate Splits(plan: Plan, q: NonceMap) {
    forall k {:trigger Key(k)} :: Key(k) ==>
      && Gone(plan).Keys !! plan.run.Keys !! plan.kept.Keys
      && Gone(plan) + plan.run + plan.kept == q
  }

  /** Works out the promotion of one queue. */
  method PlanPromotion(q: NonceMap, chain: nat, balance: nat, maxGas: nat, pool: nat, local: bool, limit: nat)
    returns (plan: Plan, ghost usable: NonceMap)
    ensures Promotes(q, chain, balance, maxGas, pool, local, limit, usable, plan.run, plan.kept)
    ensures Splits(plan, q)
    ensures Hashes(Gone(plan)) == Hashes(plan.forwards) + Hashes(plan.drops) + Hashes(plan.caps)
  {
    var current := AtLeast(q, chain);
    var drops := UnpayableIn(current, balance, maxGas);
    var left := current - drops.Keys;
    var run := ReadyRun(left, pool);
    var kept := Capped(left - run.Keys, local, limit);
    var caps := left - run.Keys - kept.Keys;
    plan, usable := Plan(Below(q, chain), drops, caps, run, kept), left;
    PromotionSplits(q, chain, balance, maxGas, pool, local, limit, left, run, kept, drops, caps, Gone(plan));
  }

  /** Promotion keeps the partition, however the nonces lie. */
  lemma PromotionKeepsInv(all: Content, pending: Lists, queue: Lists, a: Address, plan: Plan)
    requires PoolInv(all, pending, queue) && Splits(plan, At(queue, a))
    ensures PoolInv(all - Hashes(Gone(plan)), With(pending, a, At(pending, a) + plan.run), With(queue, a, plan.kept))
    ensures Owned(plan.run, a) && plan.run.Keys !! At(pending, a).Keys
  {
    var p, q, gone := At(pending, a), At(queue, a), Gone(plan);
    Unsplit(plan, q);
    Account(all, pending, queue, a);
    PromotionWhole(p, q, plan.run, plan.kept, gone);
    SplitStep(all, pending, queue, a, gone, p + plan.run, plan.kept);
    RunOwned(p, q, a, plan.run, plan.kept, gone);
  }

  lemma Unsplit(plan: Plan, q: NonceMap)
    requires Splits(plan, q)
    ensures Gone(plan).Keys !! plan.run.Keys !! plan.kept.Keys && Gone(plan) + plan.run + plan.kept == q
  {
    assert Key(0);
  }

  lemma RunOwned(p: NonceMap, q: NonceMap, a: Address, run: NonceMap, kept: NonceMap, gone: NonceMap)
    requires Owned(q, a) && p.Keys !! q.Keys
    requires gone.Keys !! run.Keys !! kept.Keys && gone + run + kept == q
    ensures Owned(run, a) && run.Keys !! p.Keys
  {
    forall n | n in run ensures n in q && run[n] == q[n] {
      assert n in gone + run + kept;
    }
  }

  /** Promotion starts exactly at the pool nonce and extends the pending run. */
  lemma PromotionNonces(p: NonceMap, q: NonceMap, chain: nat, pool: nat, usable: NonceMap, run: NonceMap,
                        kept: NonceMap)
    requires NoncesInv(p, q, chain, pool)
    requires Submap(usable, q) && run == ReadyRun(usable, pool) && Submap(kept, usable) && run.Keys !! kept.Keys
    ensures NoncesInv(p + run, kept, chain, NextNonce(run, pool))
    ensures Interval(run, pool, NextNonce(run, pool))
  {
    ReadyFromStart(usable, pool);
    var e := RunEnd(usable, pool);
    assert Interval(run, pool, e);
    IntervalSize(run, pool, e);
    if run != map[] {
      assert e - 1 in run;
    }
    assert NextNonce(run, pool) == e;
    forall n | n in kept ensures n >= e { assert n in usable && n !in run; }
  }

  // ----- promotion right after the head moved

  /** An account between promotion and demotion: from the new chain nonce on its
      pending list has no gap, and its queue lies beyond it. */
  ghost predicate Fresh(p: NonceMap, q: NonceMap, chain: nat) {
    && Contiguous(AtLeast(p, chain))
    && (forall n :: n in q ==> n >= chain)
    && (forall n, m :: n in q && m in p && m >= chain ==> m < n)
  }

  lemma FreshAfterPromotion(p: NonceMap, q: NonceMap, was: nat, pool: nat, chain: nat,
                            balance: nat, maxGas: nat, local: bool, limit: nat,
                            usable: NonceMap, run: NonceMap, kept: NonceMap)
    requires NoncesInv(p, q, was, pool)
    requires Promotes(q, chain, balance, maxGas, chain, local, limit, usable, run, kept)
    ensures Fresh(p + run, kept, chain)
  {
    PromotedParts(q, chain, balance, maxGas, chain, local, limit, usable, run, kept);
    assert forall n :: n in usable ==> n >= chain by { assert Key(0); }
    ReadyFromStart(usable, chain);
    FreshParts(p, q, was, pool, chain, usable, run, kept, RunEnd(usable, chain));
  }

  lemma FreshParts(p: NonceMap, q: NonceMap, was: nat, pool: nat, chain: nat,
                   usable: NonceMap, run: NonceMap, kept: NonceMap, e: nat)
    requires NoncesInv(p, q, was, pool) && Submap(usable, q) && Submap(kept, usable) && run.Keys !! kept.Keys
    requires run.Keys <= usable.Keys && Interval(run, chain, e)
    requires forall n :: n in usable ==> n >= chain
    requires forall n :: n in usable && n !in run ==> n > e
    ensures Fresh(p + run, kept, chain)
  {
    if e > chain {
      assert chain in run && chain in q;
      assert forall n :: n in p + run && n >= chain ==> n in run;
    } else {
      assert forall n :: n in p + run ==> n in p;
    }
  }

  // ----- demotion

  /** The steps of a demotion: old and unpayable transactions are dropped, what
      they strand is queued, and so is everything if the chain nonce is missing. */
  ghost predicate Demotes(p: NonceMap, chain: nat, balance: nat, maxGas: nat,
                          current: NonceMap, unpayable: NonceMap, stay: NonceMap, back: NonceMap) {
    forall k {:trigger Key(k)} :: Key(k) ==>
      && current == AtLeast(p, chain)
      && unpayable == UnpayableIn(current, balance, maxGas)
      && var kept, stranded := Kept(current, unpayable, true), Stranded(current, unpayable, true);
         if kept != map[] && chain !in kept
         then stay == map[] && back == stranded + kept
         else stay == kept && back == stranded
  }

  /** A pending list splits into what is dropped, stays pending and goes back. */
  lemma DemotionSplits(p: NonceMap, chain: nat, balance: nat, maxGas: nat,
                       current: NonceMap, unpayable: NonceMap, stay: NonceMap, back: NonceMap, gone: NonceMap)
    requires Demotes(p, chain, balance, maxGas, current, unpayable, stay, back)
    requires gone == Below(p, chain) + unpayable
    ensures gone.Keys !! stay.Keys !! back.Keys && gone + stay + back == p
  {
    assert Key(0);
    var kept, stranded := Kept(current, unpayable, true), Stranded(current, unpayable, true);
    FilterPartitions(current, unpayable, true);
    ThreeWay(p, chain, current, unpayable, stranded, kept);
    if kept != map[] && chain !in kept {
      RegroupAll(Below(p, chain), unpayable, stranded, kept, p, gone, back);
    } else {
      Regroup(Below(p, chain), unpayable, stranded, kept, p, gone);
    }
  }

  lemma ThreeWay(p: NonceMap, chain: nat, current: NonceMap, unpayable: NonceMap, stranded: NonceMap, kept: NonceMap)
    requires current == AtLeast(p, chain) && unpayable.Keys !! stranded.Keys !! kept.Keys
    requires current == unpayable + stranded + kept
    ensures Below(p, chain).Keys !! unpayable.Keys !! stranded.Keys !! kept.Keys
    ensures Below(p, chain) + unpayable + stranded + kept == p
  {
    assert current.Keys == unpayable.Keys + stranded.Keys + kept.Keys;
    assert (Below(p, chain) + unpayable + stranded + kept).Keys == p.Keys;
    forall n | n in p ensures (Below(p, chain) + unpayable + stranded + kept)[n] == p[n] {
      if n >= chain { assert current[n] == p[n]; }
    }
  }

  /** Disjoint parts may be put together in another order. */
  lemma Regroup(a: NonceMap, b: NonceMap, c: NonceMap, d: NonceMap, p: NonceMap, gone: NonceMap)
    requires a.Keys !! b.Keys !! c.Keys !! d.Keys && gone == a + b && p == a + b + c + d
    ensures gone.Keys !! d.Keys !! c.Keys && gone + d + c == p
  {
    assert (gone + d + c).Keys == p.Keys;
    forall n | n in p ensures (gone + d + c)[n] == p[n] {}
  }

  lemma RegroupAll(a: NonceMap, b: NonceMap, c: NonceMap, d: NonceMap, p: NonceMap, gone: NonceMap, back: NonceMap)
    requires a.Keys !! b.Keys !! c.Keys !! d.Keys && gone == a + b && back == c + d && p == a + b + c + d
    ensures gone.Keys !! back.Keys && gone + map[] + back == p
  {
    assert (gone + map[] + back).Keys == p.Keys;
    forall n | n in p ensures (gone + map[] + back)[n] == p[n] {}
  }

  lemma HashesOfUnion(a: NonceMap, b: NonceMap)
    requires a.Keys !! b.Keys
    ensures Hashes(a + b) == Hashes(a) + Hashes(b)
  {
    forall h | h in Hashes(a) + Hashes(b) ensures h in Hashes(a + b) {
      if h in Hashes(a) {
        var n :| n in a && a[n].hash == h;
        assert (a + b)[n].hash == h;
      } else {
        var n :| n in b && b[n].hash == h;
        assert (a + b)[n].hash == h;
      }
    }
    forall h | h in Hashes(a + b) ensures h in Hashes(a) + Hashes(b) {
      var n :| n in a + b && (a + b)[n].hash == h;
      if n in b { assert b[n].hash == h; } else { assert a[n].hash == h; }
    }
  }

  /** Demotion of an account's pending list keeps the partition. */
  lemma DemotionKeepsInv(all: Content, pending: Lists, queue: Lists, a: Address, gone: NonceMap, stay: NonceMap,
                         back: NonceMap)
    requires PoolInv(all, pending, queue)
    requires SplitsInto(gone, stay, back, At(pending, a))
    ensures PoolInv(all - Hashes(gone), With(pending, a, stay), With(queue, a, At(queue, a) + back))
    ensures Owned(back, a) && back.Keys !! At(queue, a).Keys
  {
    Unsplit3(gone, stay, back, At(pending, a));
    Account(all, pending, queue, a);
    var p, q := At(pending, a), At(queue, a);
    DemotionWhole(p, q, gone, stay, back);
    SplitStep(all, pending, queue, a, gone, stay, q + back);
    RunOwned(q, p, a, back, map[], gone + stay);
  }

  lemma Unsplit3(gone: NonceMap, stay: NonceMap, back: NonceMap, p: NonceMap)
    requires SplitsInto(gone, stay, back, p)
    ensures gone.Keys !! stay.Keys !! back.Keys && gone + stay + back == p
  {
    assert Key(0);
  }

  lemma DemotionWhole(p: NonceMap, q: NonceMap, gone: NonceMap, stay: NonceMap, back: NonceMap)
    requires p.Keys !! q.Keys && gone.Keys !! stay.Keys !! back.Keys && gone + stay + back == p
    ensures gone.Keys !! stay.Keys !! (q + back).Keys && gone + stay + (q + back) == p + q
    ensures (gone + stay).Keys !! back.Keys && gone + stay + back + map[] == p
  {
    assert p.Keys == gone.Keys + stay.Keys + back.Keys;
    assert (gone + stay + (q + back)).Keys == (p + q).Keys;
    forall n | n in p + q ensures (gone + stay + (q + back))[n] == (p + q)[n] {}
  }

  /** What demotion leaves pending and what it queues again. */
  function KeptOf(p: NonceMap, chain: nat, balance: nat, maxGas: nat): NonceMap {
    Kept(AtLeast(p, chain), UnpayableIn(AtLeast(p, chain), balance, maxGas), true)
  }

  function StayOf(p: NonceMap, chain: nat, balance: nat, maxGas: nat): NonceMap {
    if chain in KeptOf(p, chain, balance, maxGas) then KeptOf(p, chain, balance, maxGas) else map[]
  }

  function BackOf(p: NonceMap, chain: nat, balance: nat, maxGas: nat): NonceMap {
    var stranded := Stranded(AtLeast(p, chain), UnpayableIn(AtLeast(p, chain), balance, maxGas), true);
    if chain in KeptOf(p, chain, balance, maxGas) then stranded else stranded + KeptOf(p, chain, balance, maxGas)
  }

  lemma DemotesIs(p: NonceMap, chain: nat, balance: nat, maxGas: nat,
                  current: NonceMap, unpayable: NonceMap, stay: NonceMap, back: NonceMap)
    requires Demotes(p, chain, balance, maxGas, current, unpayable, stay, back)
    ensures stay == StayOf(p, chain, balance, maxGas) && back == BackOf(p, chain, balance, maxGas)
  {
    assert Key(0);
    var stranded := Stranded(current, unpayable, true);
    assert stranded + map[] == stranded;
  }

  /** Whether demotion leaves a list without a gap: if the chain nonce is kept at all,
      what is kept has no gap, and nothing queued lies among it. A gap beyond the first
      unpayable transaction does no harm. */
  ghost predicate Settles(p: NonceMap, q: NonceMap, chain: nat, balance: nat, maxGas: nat) {
    var kept := KeptOf(p, chain, balance, maxGas);
    chain in kept ==> Contiguous(kept) && forall n, m :: n in q && m in kept ==> m < n
  }

  /** That is exactly when demotion and the refreshed pool nonce give an interval with
      the queue beyond it. */
  lemma DemotionSettlesIff(p: NonceMap, q: NonceMap, chain: nat, balance: nat, maxGas: nat)
    requires p.Keys !! q.Keys && forall n :: n in q ==> n >= chain
    ensures var stay, back := StayOf(p, chain, balance, maxGas), BackOf(p, chain, balance, maxGas);
      NoncesInv(stay, q + back, chain, NextNonce(stay, chain)) <==> Settles(p, q, chain, balance, maxGas)
  {
    var kept := KeptOf(p, chain, balance, maxGas);
    var stay, back := StayOf(p, chain, balance, maxGas), BackOf(p, chain, balance, maxGas);
    FilterPartitions(AtLeast(p, chain), UnpayableIn(AtLeast(p, chain), balance, maxGas), true);
    BackIsBeyond(p, chain, balance, maxGas);
    if chain in kept {
      var top := MaxKey(kept);
      assert top in kept;
      if Settles(p, q, chain, balance, maxGas) {
        assert forall n :: chain <= n <= top ==> n in kept;
      }
      if NoncesInv(stay, q + back, chain, NextNonce(stay, chain)) {
        forall n, m | n in q && m in kept ensures m < n { assert n in q + back; }
      }
    }
  }

  /** The same with the results named. */
  lemma SettledIff(p: NonceMap, q: NonceMap, chain: nat, balance: nat, maxGas: nat, stay: NonceMap, queued: NonceMap,
                   pool: nat)
    requires p.Keys !! q.Keys && forall n :: n in q ==> n >= chain
    requires stay == StayOf(p, chain, balance, maxGas) && queued == q + BackOf(p, chain, balance, maxGas)
    requires pool == NextNonce(stay, chain)
    ensures NoncesInv(stay, queued, chain, pool) <==> Settles(p, q, chain, balance, maxGas)
  {
    DemotionSettlesIff(p, q, chain, balance, maxGas);
  }

  /** What goes back comes after all that stays, and not before the chain nonce. */
  lemma BackIsBeyond(p: NonceMap, chain: nat, balance: nat, maxGas: nat)
    ensures forall n :: n in KeptOf(p, chain, balance, maxGas) ==> n >= chain && n in p
    ensures forall n :: n in BackOf(p, chain, balance, maxGas) ==> n >= chain && n in p
    ensures forall n, m :: n in BackOf(p, chain, balance, maxGas) && m in StayOf(p, chain, balance, maxGas) ==> m < n
  {
  }

  /** A list that has no gap from the chain nonce on, with the queue beyond it, settles. */
  lemma FreshSettles(p: NonceMap, q: NonceMap, chain: nat, balance: nat, maxGas: nat)
    requires Fresh(p, q, chain)
    ensures Settles(p, q, chain, balance, maxGas)
  {
    var current, kept := AtLeast(p, chain), KeptOf(p, chain, balance, maxGas);
    assert forall n, m :: n in current && m in kept && n <= m ==> n in kept;
  }

  /** Without that it need not: nonce 5 is pending behind nonce 3, and demotion looks at
      the front only. */
  lemma GapSurvivesDemotion(t3: Tx, t5: Tx, balance: nat, maxGas: nat)
    requires !Unpayable(t3, balance, maxGas) && !Unpayable(t5, balance, maxGas)
    ensures var p := map[3 := t3, 5 := t5];
      && StayOf(p, 3, balance, maxGas) == p == KeptOf(p, 3, balance, maxGas) && NextNonce(p, 3) == 6
      && !Contiguous(p) && !Settles(p, map[], 3, balance, maxGas)
  {
    var p := map[3 := t3, 5 := t5];
    assert AtLeast(p, 3) == p && UnpayableIn(p, balance, maxGas) == map[];
    assert 4 !in p && 5 in p && 3 in p && MaxKey(p) in p;
  }

  ghost predicate SplitsInto(gone: NonceMap, stay: NonceMap, back: NonceMap, p: NonceMap) {
    forall k {:trigger Key(k)} :: Key(k) ==>
      gone.Keys !! stay.Keys !! back.Keys && gone + stay + back == p
  }

  /** Works out the demotion of one pending list. */
  method PlanDemotion(p: NonceMap, chain: nat, balance: nat, maxGas: nat)
    returns (olds: NonceMap, unpayable: NonceMap, stay: NonceMap, back: NonceMap, ghost current: NonceMap)
    ensures Demotes(p, chain, balance, maxGas, current, unpayable, stay, back)
    ensures SplitsInto(olds + unpayable, stay, back, p)
    ensures Hashes(olds + unpayable) == Hashes(olds) + Hashes(unpayable)
  {
    olds := Below(p, chain);
    var rest := AtLeast(p, chain);
    unpayable := UnpayableIn(rest, balance, maxGas);
    var kept, stranded := Kept(rest, unpayable, true), Stranded(rest, unpayable, true);
    if kept != map[] && chain !in kept {
      stay, back := map[], stranded + kept;
    } else {
      stay, back := kept, stranded;
    }
    current := rest;
    DemotionSplits(p, chain, balance, maxGas, current, unpayable, stay, back, olds + unpayable);
    HashesOfUnion(olds, unpayable);
  }
}
