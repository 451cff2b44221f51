/** Transactions as immutable records, and the nonce-indexed maps that hold the
    transactions of one account. */
module Transactions {

  type Address = nat
  type Hash = Tx

  datatype Option<+T> = None | Some(value: T)

  /** Stands guard over a definition: facts quantified over a key are only looked
      at once some key is at hand, which keeps large proofs small. */
  predicate Key(k: int) { true }

  datatype TxType = Legacy | AccessListTx | DynamicFee

  /** A signed transaction. `sender` is the address its signature recovers to,
      `None` if recovery fails. `keys` holds the number of storage keys of each
      access list entry, `rest` whatever else is in it. A transaction is determined by
      its hash, so it stands for that. */
  datatype Tx = Tx(
    kind: TxType, sender: Option<Address>, nonce: nat, gasTipCap: nat, gasFeeCap: nat,
    gas: nat, value: int, size: nat, creation: bool, data: seq<nat>, keys: seq<nat>, rest: nat)
  {
    const hash: Hash := this
  }

  const TX_SLOT_SIZE := 32 * 1024
  const TX_MAX_SIZE := 4 * TX_SLOT_SIZE

  /** Pool slots a transaction takes up. */
  function NumSlots(tx: Tx): nat {
    (tx.size + TX_SLOT_SIZE - 1) / TX_SLOT_SIZE
  }

  /** They are as many as its size fills, the last one maybe in part. */
  lemma SlotsHoldSize(tx: Tx)
    ensures tx.size <= NumSlots(tx) * 32768 && (tx.size > 0 ==> (NumSlots(tx) - 1) * 32768 < tx.size)
    ensures tx.size == 0 ==> NumSlots(tx) == 0
  {
  }

  /** The most a transaction can take from its sender. */
  function Cost(tx: Tx): int {
    tx.gasFeeCap * tx.gas + tx.value
  }
}

module NonceMaps {
  import opened Transactions

  type NonceMap = map<nat, Tx>

  ghost predicate WellKeyed(m: NonceMap) {
    forall n :: n in m ==> m[n].nonce == n
  }

  /** `m` holds exactly this transaction under its nonce. */
  predicate In(m: NonceMap, tx: Tx) {
    tx.nonce in m && m[tx.nonce] == tx
  }

  function Below(m: NonceMap, k: nat): NonceMap {
    map n | n in m && n < k :: m[n]
  }

  function AtLeast(m: NonceMap, k: nat): NonceMap {
    map n | n in m && n >= k :: m[n]
  }

  /** A transaction that the account cannot pay for or the block cannot hold. */
  predicate Unpayable(tx: Tx, costLimit: nat, gasLimit: nat) {
    tx.gas > gasLimit || Cost(tx) > costLimit
  }

  function UnpayableIn(m: NonceMap, costLimit: nat, gasLimit: nat): NonceMap {
    map n | n in m && Unpayable(m[n], costLimit, gasLimit) :: m[n]
  }

  // ----- extreme keys

  predicate IsMax(x: nat, s: set<nat>) {
    x in s && forall y :: y in s ==> y <= x
  }

  predicate IsMin(x: nat, s: set<nat>) {
    x in s && forall y :: y in s ==> x <= y
  }

  lemma {:induction false} ExtremesExist(s: set<nat>)
    requires s != {}
    ensures (exists x :: IsMax(x, s)) && (exists x :: IsMin(x, s))
  {
    var x :| x in s;
    var rest := s - {x};
    if rest == {} {
      assert s == {x};
      assert IsMax(x, s) && IsMin(x, s);
    } else {
      ExtremesExist(rest);
      var top :| IsMax(top, rest);
      var low :| IsMin(low, rest);
      assert s == rest + {x};
      assert IsMax(if x < top then top else x, s);
      assert IsMin(if x < low then x else low, s);
    }
  }

  function MaxKey(m: NonceMap): (x: nat)
    requires m != map[]
    ensures x in m && forall y :: y in m ==> y <= x
  {
    ExtremesExist(m.Keys);
    var x :| IsMax(x, m.Keys);
    x
  }

  function MinKey(m: NonceMap): (x: nat)
    requires m != map[]
    ensures x in m && forall y :: y in m ==> x <= y
  {
    ExtremesExist(m.Keys);
    var x :| IsMin(x, m.Keys);
    x
  }

  lemma SizeOfRemoval(m: NonceMap, n: nat)
    requires n in m
    ensures |m - {n}| == |m| - 1
  {
    assert (m - {n}).Keys == m.Keys - {n};
  }

  lemma SubmapSize(r: NonceMap, m: NonceMap)
    requires r.Keys <= m.Keys
    ensures |r| <= |m| && |m - r.Keys| == |m| - |r|
  {
    var rest := m.Keys - r.Keys;
    assert (m - r.Keys).Keys == rest;
    assert m.Keys == r.Keys + rest;
    assert |m.Keys| == |r.Keys| + |rest|;
  }

  // ----- the lowest nonces of a list

  /** The `k` transactions with the lowest nonces, or all of them. */
  function Lowest(m: NonceMap, k: nat): (r: NonceMap)
    decreases |m|
  {
    if |m| <= k then m else
      SizeOfRemoval(m, MaxKey(m));
      Lowest(m - {MaxKey(m)}, k)
  }

  /** `r` is an initial segment of `m` in nonce order. */
  ghost predicate Initial(r: NonceMap, m: NonceMap) {
    && r.Keys <= m.Keys
    && (forall n :: n in r ==> r[n] == m[n])
    && (forall a, b :: a in r && b in m && b !in r ==> a < b)
  }

  lemma {:induction false} LowestIsInitial(m: NonceMap, k: nat)
    ensures Initial(Lowest(m, k), m)
    ensures |Lowest(m, k)| == if |m| <= k then |m| else k
    decreases |m|
  {
    if |m| > k {
      SizeOfRemoval(m, MaxKey(m));
      LowestIsInitial(m - {MaxKey(m)}, k);
    }
  }

  lemma {:induction false} InitialOfSameSize(r: NonceMap, s: NonceMap, m: NonceMap)
    requires Initial(r, m) && Initial(s, m) && |r| == |s|
    ensures r == s
  {
    if n :| n in r && n !in s {
      assert s.Keys < r.Keys by {
        forall x | x in s ensures x in r { assert x < n; }
      }
      Proper(s.Keys, r.Keys);
    } else {
      assert r.Keys <= s.Keys;
      if n :| n in s && n !in r {
        Proper(r.Keys, s.Keys);
      }
      assert r == s;
    }
  }

  lemma Proper(a: set<nat>, b: set<nat>)
    requires a < b
    ensures |a| < |b|
  {
    assert b == a + (b - a);
    assert |b| == |a| + |b - a|;
    var x :| x in b && x !in a;
    assert x in b - a;
  }

  /** Lowest is the only initial segment of its size. */
  lemma LowestIsUnique(r: NonceMap, m: NonceMap, k: nat)
    requires Initial(r, m) && |r| == (if |m| <= k then |m| else k)
    ensures r == Lowest(m, k)
  {
    LowestIsInitial(m, k);
    InitialOfSameSize(r, Lowest(m, k), m);
  }

  /** Cutting twice is cutting to the lower limit. */
  lemma LowestOfLowest(m: NonceMap, j: nat, k: nat)
    requires k <= j
    ensures Lowest(Lowest(m, j), k) == Lowest(m, k)
  {
    LowestIsInitial(m, j);
    LowestIsInitial(Lowest(m, j), k);
    var r := Lowest(Lowest(m, j), k);
    assert Initial(r, m) by {
      forall a, b | a in r && b in m && b !in r ensures a < b {
        assert a in Lowest(m, j);
      }
    }
    LowestIsUnique(r, m, k);
  }

  /** Cutting a list one short drops its highest nonce. */
  lemma LowestDropsMax(m: NonceMap)
    requires m != map[]
    ensures Lowest(m, |m| - 1) == m - {MaxKey(m)}
  {
    SizeOfRemoval(m, MaxKey(m));
  }

  lemma BelowIsInitial(m: NonceMap, k: nat)
    ensures Initial(Below(m, k), m)
  {
  }

  lemma BelowIsLowest(m: NonceMap, k: nat, low: NonceMap)
    requires low == Below(m, k)
    ensures Lowest(m, |low|) == low && |low| <= |m|
  {
    SubmapSize(low, m);
    BelowIsInitial(m, k);
    LowestIsUnique(low, m, |low|);
  }

  // ----- contiguous lists

  /** The nonces of `m` are exactly those from `low` up to, not including, `high`. */
  ghost predicate Interval(m: NonceMap, low: nat, high: nat) {
    low <= high && forall n :: n in m <==> low <= n < high
  }

  ghost predicate Contiguous(m: NonceMap) {
    forall a, b, c :: a in m && c in m && a < b < c ==> b in m
  }

  lemma {:induction false} IntervalSize(m: NonceMap, low: nat, high: nat)
    requires Interval(m, low, high)
    ensures |m| == high - low
    decreases high - low
  {
    if low == high {
      assert m == map[] by { if n :| n in m {} }
    } else {
      SizeOfRemoval(m, high - 1);
      IntervalSize(m - {high - 1}, low, high - 1);
    }
  }

  /** Cutting a contiguous list keeps it contiguous, and tells where it now ends. */
  lemma LowestOfInterval(m: NonceMap, low: nat, high: nat, k: nat)
    requires Interval(m, low, high)
    ensures Interval(Lowest(m, k), low, if high - low <= k then high else low + k)
  {
    IntervalSize(m, low, high);
    if high - low > k {
      var r := Below(m, low + k);
      assert Interval(r, low, low + k);
      IntervalSize(r, low, low + k);
      LowestIsUnique(r, m, k);
    }
  }

  // ----- the run of consecutive nonces at the front

  /** The first nonce at or above `n` that `m` lacks. */
  function RunEnd(m: NonceMap, n: nat): (e: nat)
    ensures n <= e && e !in m && forall i :: n <= i < e ==> i in m
    decreases if m == map[] || n > MaxKey(m) then 0 else MaxKey(m) + 1 - n
  {
    if n in m then RunEnd(m, n + 1) else n
  }

  /** The transactions that Ready hands out: nothing if the lowest nonce is above
      `start`, otherwise the consecutive run that begins at the lowest nonce. */
  function ReadyRun(m: NonceMap, start: nat): NonceMap {
    if m == map[] || MinKey(m) > start then map[] else Below(m, RunEnd(m, MinKey(m)))
  }

  /** On a list with nothing below `start`, Ready takes the run from `start` on
      and leaves nothing that could follow it directly. */
  lemma ReadyFromStart(m: NonceMap, start: nat)
    requires forall n :: n in m ==> n >= start
    ensures Interval(ReadyRun(m, start), start, RunEnd(m, start))
    ensures forall n :: n in m && n !in ReadyRun(m, start) ==> n > RunEnd(m, start)
  {
    if m != map[] && MinKey(m) == start {
      assert forall n :: n in m && n < RunEnd(m, start) ==> n >= start;
    } else {
      assert ReadyRun(m, start) == map[];
    }
  }

  /** What Ready hands out cannot be continued by anything in the list. */
  lemma ReadyIsMaximal(m: NonceMap, start: nat)
    ensures ReadyRun(m, start) == map[] ==> start !in m
    ensures ReadyRun(m, start) != map[] ==> MaxKey(ReadyRun(m, start)) + 1 !in m
  {
    var run := ReadyRun(m, start);
    assert m != map[] ==> MinKey(m) in Below(m, RunEnd(m, MinKey(m)));
    if run != map[] {
      var end := RunEnd(m, MinKey(m));
      assert MaxKey(run) in run && MaxKey(run) < end && MinKey(m) <= MaxKey(run);
      assert end - 1 in run;
    }
  }

  // ----- sorted contents

  /** `s` lists the transactions of `m` in increasing nonce order. */
  ghost predicate Sorted(s: seq<Tx>, m: NonceMap) {
    && |s| == |m|
    && (forall i :: 0 <= i < |s| ==> In(m, s[i]))
    && (forall i, j :: 0 <= i < j < |s| ==> s[i].nonce < s[j].nonce)
  }
}
