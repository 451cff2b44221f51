/** The entries of the price heaps: what they cover, what can be taken off them and how
    many slots that stands for. A transaction that is in the lookup is called live. */
module HeapEntries {
  import opened Transactions
  import opened TxLookups

  /** The slots of a list of transactions together. */
  ghost function SlotsOf(txs: seq<Tx>): nat {
    if txs == [] then 0 else SlotsOf(txs[..|txs| - 1]) + NumSlots(txs[|txs| - 1])
  }

  lemma SlotsOfAppend(txs: seq<Tx>, tx: Tx)
    ensures SlotsOf(txs + [tx]) == SlotsOf(txs) + NumSlots(tx)
  {
    assert (txs + [tx])[..|txs|] == txs;
  }

  /** Guards the invariants of the heaps, like Key. */
  predicate HeapKey(k: int) { true }

  /** Every remote transaction has an entry in one of the heaps, or in `also`. */
  ghost predicate Covers(remotes: Content, urgent: seq<Tx>, floating: seq<Tx>, also: seq<Tx>) {
    forall k {:trigger HeapKey(k)} :: HeapKey(k) ==>
      forall h :: h in remotes ==> remotes[h] in urgent || remotes[h] in floating || remotes[h] in also
  }

  /** Entries only moved between the heaps and the list, except stale ones. */
  lemma CoversAfter(remotes: Content, u: seq<Tx>, f: seq<Tx>, d: seq<Tx>, u': seq<Tx>, f': seq<Tx>, d': seq<Tx>)
    requires Covers(remotes, u, f, d)
    requires forall tx :: tx in u || tx in f || tx in d ==> tx in u' || tx in f' || tx in d' || !Holds(remotes, tx)
    requires KeyedByHash(remotes)
    ensures Covers(remotes, u', f', d')
  {
    assert HeapKey(0);
    forall h | h in remotes ensures remotes[h] in u' || remotes[h] in f' || remotes[h] in d' {
      assert Holds(remotes, remotes[h]);
    }
  }

  /** The hashes of a list of transactions. */
  ghost function HashSet(txs: seq<Tx>): set<Hash> {
    set i | 0 <= i < |txs| :: txs[i].hash
  }

  /** Entries move between the heaps and a list `d`, or are dropped; none is added. */
  ghost predicate Thinned(u: seq<Tx>, f: seq<Tx>, d: seq<Tx>, u': seq<Tx>, f': seq<Tx>, d': seq<Tx>) {
    forall k {:trigger HeapKey(k)} :: HeapKey(k) ==>
      multiset(u') + multiset(f') + multiset(d') <= multiset(u) + multiset(f) + multiset(d)
  }

  lemma ThinnedTwice(u: seq<Tx>, f: seq<Tx>, d: seq<Tx>, u1: seq<Tx>, f1: seq<Tx>, d1: seq<Tx>,
                     u2: seq<Tx>, f2: seq<Tx>, d2: seq<Tx>)
    requires Thinned(u, f, d, u1, f1, d1) && Thinned(u1, f1, d1, u2, f2, d2)
    ensures Thinned(u, f, d, u2, f2, d2)
  {
    assert HeapKey(0);
  }

  lemma ThinnedSame(u: seq<Tx>, f: seq<Tx>, d: seq<Tx>)
    ensures Thinned(u, f, d, u, f, d)
  {
  }

  lemma PutOneBack(u: seq<Tx>, f: seq<Tx>, d: seq<Tx>, i: nat, next: nat, u': seq<Tx>)
    requires next == i + 1 <= |d| && multiset(u') == multiset(u) + multiset{d[i]}
    ensures Thinned(u, f, d[i..], u', f, d[next..])
  {
    assert d[i..] == [d[i]] + d[next..];
  }

  lemma ThinnedAt(u: seq<Tx>, f: seq<Tx>, d: seq<Tx>, u': seq<Tx>, f': seq<Tx>, d': seq<Tx>, x: Tx)
    requires Thinned(u, f, d, u', f', d')
    ensures multiset(u')[x] + multiset(f')[x] + multiset(d')[x] <= multiset(u)[x] + multiset(f)[x] + multiset(d)[x]
  {
    assert HeapKey(0);
    var before, after := multiset(u) + multiset(f) + multiset(d), multiset(u') + multiset(f') + multiset(d');
    assert after[x] <= before[x];
  }

  lemma TakenFrom(u: seq<Tx>, f: seq<Tx>, u': seq<Tx>, f': seq<Tx>, drop: seq<Tx>, i: nat)
    requires Thinned(u, f, [], u', f', drop) && i < |drop|
    ensures drop[i] in u || drop[i] in f
    ensures multiset(drop)[drop[i]] <= multiset(u)[drop[i]] + multiset(f)[drop[i]]
  {
    var x := drop[i];
    ThinnedAt(u, f, [], u', f', drop, x);
    assert x in multiset(drop);
    assert x in multiset(u) || x in multiset(f);
  }

  // ----- live transactions with more than one entry

  /** No live transaction has a second entry. */
  ghost predicate Unique(remotes: Content, u: seq<Tx>, f: seq<Tx>) {
    forall k {:trigger HeapKey(k)} :: HeapKey(k) ==>
      forall x :: (x in u || x in f) && x.hash in remotes ==> multiset(u)[x] + multiset(f)[x] == 1
  }

  lemma {:induction false} TwiceIn(s: seq<Tx>, i: nat, j: nat)
    requires i < j < |s| && s[i] == s[j]
    ensures multiset(s)[s[i]] >= 2
  {
    assert s == s[..j] + s[j..];
    assert s[..j][i] == s[i] && s[j..][0] == s[j];
    assert s[i] in multiset(s[..j]) && s[i] in multiset(s[j..]);
  }

  /** No two of the transactions taken off unique heaps are the same. */
  lemma TakenOnce(remotes: Content, u: seq<Tx>, f: seq<Tx>, u': seq<Tx>, f': seq<Tx>, drop: seq<Tx>, i: nat, j: nat)
    requires Unique(remotes, u, f) && Thinned(u, f, [], u', f', drop) && i < j < |drop|
    requires drop[i].hash in remotes
    ensures drop[i].hash != drop[j].hash
  {
    TakenFrom(u, f, u', f', drop, i);
    assert HeapKey(0);
    if drop[i] == drop[j] {
      TwiceIn(drop, i, j);
    }
  }

  /** The slots of the transactions that occur again in a list. */
  ghost function Repeated(txs: seq<Tx>): nat {
    if txs == [] then 0
    else
      var front, last := txs[..|txs| - 1], txs[|txs| - 1];
      Repeated(front) + if last.hash in HashSet(front) then NumSlots(last) else 0
  }

  /** Evicting transactions frees the slots that are counted for them, less those that
      are counted again. */
  lemma {:induction false} FreesExactly(all: Content, drop: seq<Tx>)
    requires forall i :: 0 <= i < |drop| ==> Holds(all, drop[i])
    ensures SlotSum(all - HashSet(drop)) == SlotSum(all) - SlotsOf(drop) + Repeated(drop)
  {
    if drop == [] {
      assert all - HashSet(drop) == all;
    } else {
      var n := |drop| - 1;
      var front, last := drop[..n], drop[n];
      FreesExactly(all, front);
      HashSetStep(drop, n);
      assert drop[..n + 1] == drop;
      var rest := all - HashSet(front);
      assert all - HashSet(drop) == rest - {last.hash};
      if last.hash in rest {
        SlotSumWithout(rest, last.hash);
      } else {
        assert rest - {last.hash} == rest;
      }
    }
  }

  /** Nothing is counted again if no live transaction has a second entry. */
  lemma {:induction false} NothingRepeated(remotes: Content, u: seq<Tx>, f: seq<Tx>, u': seq<Tx>, f': seq<Tx>,
                                           drop: seq<Tx>, n: nat)
    requires Unique(remotes, u, f) && Thinned(u, f, [], u', f', drop) && n <= |drop|
    requires forall i :: 0 <= i < |drop| ==> drop[i].hash in remotes
    ensures Repeated(drop[..n]) == 0
  {
    if n > 0 {
      var last := n - 1;
      NothingRepeated(remotes, u, f, u', f', drop, last);
      assert drop[..n][..last] == drop[..last] && drop[..n][last] == drop[last];
      forall i | 0 <= i < last ensures drop[..last][i].hash != drop[last].hash {
        TakenOnce(remotes, u, f, u', f', drop, i, last);
      }
    }
  }

  /** Live transactions taken off the heaps. */
  ghost predicate Takes(remotes: Content, u: seq<Tx>, f: seq<Tx>, drop: seq<Tx>) {
    Thinned(u, f, [], [], [], drop) && forall i :: 0 <= i < |drop| ==> drop[i].hash in remotes
  }

  /** Whatever live transactions are taken off the heaps, evicting them frees the slots
      that are counted for them. */
  ghost predicate FreesAll(remotes: Content, u: seq<Tx>, f: seq<Tx>) {
    forall drop :: Takes(remotes, u, f, drop) ==> SlotSum(remotes - HashSet(drop)) == SlotSum(remotes) - SlotsOf(drop)
  }

  /** That is so if and only if no live transaction has a second entry. */
  lemma FreesAllIffUnique(remotes: Content, u: seq<Tx>, f: seq<Tx>)
    requires KeyedByHash(remotes) && forall h :: h in remotes ==> NumSlots(remotes[h]) > 0
    ensures FreesAll(remotes, u, f) <==> Unique(remotes, u, f)
  {
    if Unique(remotes, u, f) {
      forall drop | Takes(remotes, u, f, drop)
        ensures SlotSum(remotes - HashSet(drop)) == SlotSum(remotes) - SlotsOf(drop)
      {
        FreesExactly(remotes, drop);
        NothingRepeated(remotes, u, f, [], [], drop, |drop|);
        assert drop[..|drop|] == drop;
      }
    } else {
      var x :| (x in u || x in f) && x.hash in remotes && multiset(u)[x] + multiset(f)[x] != 1;
      TakesTwice(remotes, u, f, x);
      DoubleEntryIsRepeated(x);
      FreesExactly(remotes, [x, x]);
    }
  }

  lemma TakesTwice(remotes: Content, u: seq<Tx>, f: seq<Tx>, x: Tx)
    requires (x in u || x in f) && x.hash in remotes && multiset(u)[x] + multiset(f)[x] != 1
    ensures Takes(remotes, u, f, [x, x])
  {
    assert x in multiset(u) || x in multiset(f);
    var both := multiset(u) + multiset(f);
    assert both[x] >= 2;
    assert multiset([x, x]) == multiset{x, x};
    assert multiset{x, x} <= both;
  }

  /** A transaction with two entries is counted twice. */
  lemma DoubleEntryIsRepeated(x: Tx)
    ensures SlotsOf([x, x]) == 2 * NumSlots(x) && Repeated([x, x]) == NumSlots(x)
  {
    assert [x, x][..1] == [x] && [x][..0] == [];
    assert [x][0].hash in HashSet([x]);
    assert SlotsOf([x]) == NumSlots(x) && Repeated([x]) == 0;
  }

  // ----- where entries come from

  /** How many entries of a transaction there may be: as many as there were, or one for a
      live transaction, which a rebuild gives it. */
  ghost function Stock(remotes: Content, u: seq<Tx>, f: seq<Tx>, x: Tx): nat {
    var had := multiset(u)[x] + multiset(f)[x];
    if had == 0 && x.hash in remotes then 1 else had
  }

  /** No entry came out of nowhere: the heaps were thinned or rebuilt, and got new entries
      for what was added. */
  ghost predicate Stocked(remotes: Content, u: seq<Tx>, f: seq<Tx>, added: multiset<Tx>, u': seq<Tx>, f': seq<Tx>) {
    forall k {:trigger HeapKey(k)} :: HeapKey(k) ==>
      forall x :: multiset(u')[x] + multiset(f')[x] <= Stock(remotes, u, f, x) + added[x]
  }

  lemma StockedSame(remotes: Content, u: seq<Tx>, f: seq<Tx>)
    ensures Stocked(remotes, u, f, multiset{}, u, f)
  {
  }

  lemma StockedTwice(remotes: Content, u: seq<Tx>, f: seq<Tx>, a: multiset<Tx>, remotes1: Content, u1: seq<Tx>,
                     f1: seq<Tx>,
                     b: multiset<Tx>, u2: seq<Tx>, f2: seq<Tx>)
    requires Stocked(remotes, u, f, a, u1, f1) && Stocked(remotes1, u1, f1, b, u2, f2)
    requires forall x: Tx :: x.hash in remotes1 ==> x.hash in remotes || x in a
    ensures Stocked(remotes, u, f, a + b, u2, f2)
  {
    assert HeapKey(0);
    forall x ensures multiset(u2)[x] + multiset(f2)[x] <= Stock(remotes, u, f, x) + (a + b)[x] {
      assert multiset(u2)[x] + multiset(f2)[x] <= Stock(remotes1, u1, f1, x) + b[x];
    }
  }

  lemma ThinnedIsStocked(remotes: Content, u: seq<Tx>, f: seq<Tx>, u': seq<Tx>, f': seq<Tx>, d: seq<Tx>)
    requires Thinned(u, f, [], u', f', d)
    ensures Stocked(remotes, u, f, multiset{}, u', f')
  {
    forall x ensures multiset(u')[x] + multiset(f')[x] <= Stock(remotes, u, f, x) { ThinnedAt(u, f, [], u', f', d, x); }
  }

  lemma RebuiltIsStocked(remotes: Content, u: seq<Tx>, f: seq<Tx>, u': seq<Tx>, f': seq<Tx>)
    requires KeyedByHash(remotes) && multiset(u') + multiset(f') == multiset(remotes.Values)
    ensures Stocked(remotes, u, f, multiset{}, u', f')
  {
    forall x ensures multiset(u')[x] + multiset(f')[x] <= Stock(remotes, u, f, x) {
      assert (multiset(u') + multiset(f'))[x] == multiset(remotes.Values)[x];
    }
  }

  lemma PutIsStocked(remotes: Content, u: seq<Tx>, f: seq<Tx>, x: Tx, u': seq<Tx>)
    requires multiset(u') == multiset(u) + multiset{x}
    ensures Stocked(remotes, u, f, multiset{x}, u', f)
  {
  }

  /** If no live transaction has a second entry, none has one later, unless an added one
      had an entry already. */
  lemma UniqueLasts(remotes: Content, u: seq<Tx>, f: seq<Tx>, added: multiset<Tx>, remotes': Content, u': seq<Tx>,
                    f': seq<Tx>)
    requires Unique(remotes, u, f) && Stocked(remotes, u, f, added, u', f')
    requires forall x :: x in added ==> added[x] == 1 && x !in u && x !in f && x.hash !in remotes
    requires forall x: Tx :: x.hash in remotes' ==> x.hash in remotes || x in added
    ensures Unique(remotes', u', f')
  {
    forall x | (x in u' || x in f') && x.hash in remotes' ensures multiset(u')[x] + multiset(f')[x] == 1 {
      assert x in multiset(u') || x in multiset(f');
      assert x in u <==> x in multiset(u);
      assert x in f <==> x in multiset(f);
      assert HeapKey(0);
      assert multiset(u')[x] + multiset(f')[x] <= Stock(remotes, u, f, x) + added[x];
    }
  }

  /** Where an entry can come from. */
  lemma EntryFrom(remotes: Content, u: seq<Tx>, f: seq<Tx>, added: multiset<Tx>, u': seq<Tx>, f': seq<Tx>, x: Tx)
    requires Stocked(remotes, u, f, added, u', f') && (x in u' || x in f')
    ensures x in u || x in f || x.hash in remotes || x in added
  {
    assert HeapKey(0);
    assert x in multiset(u') || x in multiset(f');
    assert multiset(u')[x] + multiset(f')[x] <= Stock(remotes, u, f, x) + added[x];
    assert x in u <==> x in multiset(u);
    assert x in f <==> x in multiset(f);
  }

  /** Fewer remote transactions allow for no more entries. */
  lemma StockedFrom(remotes: Content, remotes1: Content, u: seq<Tx>, f: seq<Tx>, u': seq<Tx>, f': seq<Tx>)
    requires Stocked(remotes1, u, f, multiset{}, u', f') && remotes1.Keys <= remotes.Keys
    ensures Stocked(remotes, u, f, multiset{}, u', f')
  {
    assert HeapKey(0);
    forall x ensures multiset(u')[x] + multiset(f')[x] <= Stock(remotes, u, f, x) + multiset{}[x] {
      assert multiset(u')[x] + multiset(f')[x] <= Stock(remotes1, u, f, x) + multiset{}[x];
    }
  }

  /** The entries for one more transaction, none if it is local. */
  function Addition(tx: Tx, remote: bool): multiset<Tx> { if remote then multiset{tx} else multiset{} }

  /** A record of which transactions were known at some time, of the remote ones, and of
      the heaps. */
  datatype File = File(known: Content, remotes: Content, urgent: seq<Tx>, floating: seq<Tx>)

  /** Nothing was added since, nothing changed sides, and no entry came out of nowhere. */
  ghost predicate InFile(all: Content, remotes: Content, u: seq<Tx>, f: seq<Tx>, file: File) {
    forall k {:trigger HeapKey(k)} :: HeapKey(k) ==>
      && (forall h :: h in all ==> h in file.known && all[h] == file.known[h] && (h in remotes <==> h in file.remotes))
      && Stocked(file.remotes, file.urgent, file.floating, multiset{}, u, f)
  }

  lemma NewFile(all: Content, remotes: Content, u: seq<Tx>, f: seq<Tx>)
    ensures InFile(all, remotes, u, f, File(all, remotes, u, f))
  {
  }

  lemma FileMinus(all: Content, remotes: Content, u: seq<Tx>, f: seq<Tx>, file: File, gone: set<Hash>, all': Content,
                  remotes': Content)
    requires InFile(all, remotes, u, f, file) && all' == all - gone && remotes' == remotes - gone
    ensures InFile(all', remotes', u, f, file)
  {
    assert HeapKey(0);
  }

  lemma FileStocked(all: Content, remotes: Content, u: seq<Tx>, f: seq<Tx>, file: File, u': seq<Tx>, f': seq<Tx>)
    requires InFile(all, remotes, u, f, file) && remotes.Keys <= all.Keys && Stocked(remotes, u, f, multiset{}, u', f')
    ensures InFile(all, remotes, u', f', file)
  {
    assert HeapKey(0);
    StockedTwice(file.remotes, file.urgent, file.floating, multiset{}, remotes, u, f, multiset{}, u', f');
  }

  // ----- the slots that all entries stand for

  /** Stale entries count for nothing. */
  function Weight(x: Tx, remotes: Content): nat { if x.hash in remotes then NumSlots(x) else 0 }

  ghost function Weigh(m: multiset<Tx>, remotes: Content): nat
    decreases |m|
  {
    if m == multiset{} then 0 else
      var x :| x in m;
      Weight(x, remotes) + Weigh(m - multiset{x}, remotes)
  }

  lemma {:induction false} WeighWithout(m: multiset<Tx>, x: Tx, remotes: Content)
    requires x in m
    ensures Weigh(m, remotes) == Weight(x, remotes) + Weigh(m - multiset{x}, remotes)
    decreases |m|
  {
    var y, rest := WeighFirst(m, remotes);
    if y != x {
      var other := m - multiset{x};
      assert rest - multiset{x} == other - multiset{y};
      WeighWithout(rest, x, remotes);
      WeighWithout(other, y, remotes);
    }
  }

  lemma WeighFirst(m: multiset<Tx>, remotes: Content) returns (x: Tx, rest: multiset<Tx>)
    requires m != multiset{}
    ensures x in m && rest == m - multiset{x} && |rest| < |m|
    ensures Weigh(m, remotes) == Weight(x, remotes) + Weigh(rest, remotes)
  {
    x :| x in m && Weigh(m, remotes) == Weight(x, remotes) + Weigh(m - multiset{x}, remotes);
    rest := m - multiset{x};
  }

  lemma WeighWith(m: multiset<Tx>, x: Tx, more: multiset<Tx>, remotes: Content)
    requires more == m + multiset{x}
    ensures Weigh(more, remotes) == Weight(x, remotes) + Weigh(m, remotes)
  {
    WeighWithout(more, x, remotes);
    assert more - multiset{x} == m;
  }

  /** The slots of the live transactions, counted once for each entry. */
  ghost function LiveSlots(remotes: Content, u: seq<Tx>, f: seq<Tx>): nat {
    Weigh(multiset(u) + multiset(f), remotes)
  }

  lemma NothingLive(remotes: Content)
    ensures LiveSlots(remotes, [], []) == 0
  {
  }

  lemma PoppedUrgent(remotes: Content, u: seq<Tx>, f: seq<Tx>, x: Tx, u': seq<Tx>)
    requires multiset(u) == multiset(u') + multiset{x}
    ensures LiveSlots(remotes, u, f) == Weight(x, remotes) + LiveSlots(remotes, u', f)
  {
    WeighWith(multiset(u') + multiset(f), x, multiset(u) + multiset(f), remotes);
  }

  lemma PoppedFloating(remotes: Content, u: seq<Tx>, f: seq<Tx>, x: Tx, f': seq<Tx>)
    requires multiset(f) == multiset(f') + multiset{x}
    ensures LiveSlots(remotes, u, f) == Weight(x, remotes) + LiveSlots(remotes, u, f')
  {
    WeighWith(multiset(u) + multiset(f'), x, multiset(u) + multiset(f), remotes);
  }

  lemma {:induction false} WeighNothing(m: multiset<Tx>, remotes: Content)
    requires forall x :: x in m ==> x.hash !in remotes
    ensures Weigh(m, remotes) == 0
    decreases |m|
  {
    if m != multiset{} {
      var x, rest := WeighFirst(m, remotes);
      WeighNothing(rest, remotes);
    }
  }

  /** Covering entries stand for at least the slots of what they cover, and for exactly
      these if there is one for each. */
  lemma {:induction false} CoveringWeighs(part: Content, m: multiset<Tx>, remotes: Content)
    requires forall h :: h in part ==> h in remotes && part[h].hash == h && part[h] in m
    ensures SlotSum(part) <= Weigh(m, remotes)
    ensures (forall x :: x in m && x.hash in remotes ==> x.hash in part && m[x] == 1) ==>
      SlotSum(part) == Weigh(m, remotes)
    decreases |part|
  {
    if part == map[] {
      if forall x :: x in m && x.hash in remotes ==> x.hash in part && m[x] == 1 { WeighNothing(m, remotes); }
    } else {
      var h :| h in part;
      var x, rest := part[h], m - multiset{part[h]};
      SlotSumWithout(part, h);
      WeighWithout(m, x, remotes);
      assert (part - {h}).Keys == part.Keys - {h};
      CoveringWeighs(part - {h}, rest, remotes);
      if forall y :: y in m && y.hash in remotes ==> y.hash in part && m[y] == 1 {
        forall y | y in rest && y.hash in remotes ensures y.hash in part - {h} && rest[y] == 1 { assert y in m; }
      }
    }
  }

  lemma LiveSlotsCover(remotes: Content, u: seq<Tx>, f: seq<Tx>)
    requires Covers(remotes, u, f, []) && KeyedByHash(remotes)
    ensures SlotSum(remotes) <= LiveSlots(remotes, u, f)
    ensures Unique(remotes, u, f) ==> SlotSum(remotes) == LiveSlots(remotes, u, f)
  {
    var m := multiset(u) + multiset(f);
    assert HeapKey(0);
    forall h | h in remotes ensures remotes[h] in m { assert remotes[h] in multiset(u) || remotes[h] in multiset(f); }
    if Unique(remotes, u, f) {
      forall x | x in m && x.hash in remotes ensures m[x] == 1 { assert x in multiset(u) || x in multiset(f); }
    }
    CoveringWeighs(remotes, m, remotes);
  }

  // ----- hashes

  lemma HashSetStep(txs: seq<Tx>, i: nat)
    requires i < |txs|
    ensures HashSet(txs[..i + 1]) == HashSet(txs[..i]) + {txs[i].hash}
  {
    assert txs[..i + 1][i].hash == txs[i].hash;
    forall h | h in HashSet(txs[..i]) ensures h in HashSet(txs[..i + 1]) {
      var j :| 0 <= j < i && txs[..i][j].hash == h;
      assert txs[..i + 1][j].hash == h;
    }
    forall h | h in HashSet(txs[..i + 1]) ensures h in HashSet(txs[..i]) + {txs[i].hash} {
      var j :| 0 <= j < i + 1 && txs[..i + 1][j].hash == h;
      assert j < i ==> txs[..i][j].hash == h;
    }
  }

  lemma HashSetSnoc(txs: seq<Tx>, tx: Tx)
    ensures HashSet(txs + [tx]) == HashSet(txs) + {tx.hash}
  {
    var more, n := txs + [tx], |txs|;
    HashSetStep(more, n);
    assert more[..n + 1] == more && more[..n] == txs;
  }

  /** Once the evicted transactions are out of the lookup the heaps cover it again. */
  lemma CoversEvicted(remotes: Content, u: seq<Tx>, f: seq<Tx>, drop: seq<Tx>, remotes': Content)
    requires Covers(remotes, u, f, drop) && KeyedByHash(remotes) && remotes' == remotes - HashSet(drop)
    ensures Covers(remotes', u, f, [])
  {
    assert HeapKey(0);
    assert forall i :: 0 <= i < |drop| ==> drop[i].hash in HashSet(drop);
  }

  lemma CoversMore(remotes: Content, u: seq<Tx>, f: seq<Tx>, also: seq<Tx>)
    requires Covers(remotes, u, f, [])
    ensures Covers(remotes, u, f, also)
  {
    assert HeapKey(0);
  }

  lemma CoversFewer(remotes: Content, u: seq<Tx>, f: seq<Tx>, remotes': Content)
    requires Covers(remotes, u, f, []) && remotes'.Keys <= remotes.Keys
    requires forall h :: h in remotes' ==> remotes'[h] == remotes[h]
    ensures Covers(remotes', u, f, [])
  {
    assert HeapKey(0);
  }
}
