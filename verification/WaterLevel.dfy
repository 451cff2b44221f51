/** Fair truncation of the pending lists, stated as filling water to a level: every
    list of a remote account is cut to the same height. */
module WaterLevel {
  import opened Transactions
  import opened NonceMaps
  import opened TxLookups
  import opened PoolLists
  import opened PoolPasses

  // ----- total length

  /** The number of transactions in all lists together. */
  ghost function Total(m: Lists): nat {
    if m == map[] then 0 else
      var a :| a in m;
      |m[a]| + Total(m - {a})
  }

  lemma {:induction false} TotalWithout(m: Lists, a: Address)
    requires a in m
    ensures Total(m) == |m[a]| + Total(m - {a})
    decreases m.Keys
  {
    var b :| b in m && Total(m) == |m[b]| + Total(m - {b});
    if b != a {
      MinusBoth(m, a, b);
      TotalWithout(m - {b}, a);
      TotalWithout(m - {a}, b);
    }
  }

  lemma MinusBoth(m: Lists, a: Address, b: Address)
    requires a in m && b in m && a != b
    ensures (m - {b}) - {a} == (m - {a}) - {b}
    ensures a in m - {b} && (m - {b})[a] == m[a] && b in m - {a} && (m - {a})[b] == m[b]
  {
  }

  /** Replacing one list changes the total by the difference in length. */
  lemma TotalUpdate(m: Lists, a: Address, l: NonceMap)
    requires a in m
    ensures Total(m[a := l]) == Total(m) - |m[a]| + |l|
  {
    TotalWithout(m, a);
    TotalWithout(m[a := l], a);
    assert m[a := l] - {a} == m - {a};
  }

  lemma {:induction false} TotalBounds(m: Lists, a: Address)
    requires a in m
    ensures |m[a]| <= Total(m)
  {
    TotalWithout(m, a);
  }

  // ----- levels

  /** Every list of a remote account cut to at most `level` transactions. */
  ghost function Truncated(m: Lists, locals: set<Address>, level: nat): Lists {
    map a | a in m :: if a in locals then m[a] else Lowest(m[a], level)
  }

  /** The remote accounts that reach up to a level. */
  ghost function Reaching(m: Lists, locals: set<Address>, level: nat): set<Address> {
    set a | a in m && a !in locals && |m[a]| >= level
  }

  /** One transaction off the top of each of the given lists. */
  ghost function Lowered(m: Lists, who: set<Address>): Lists
    requires forall a :: a in who && a in m ==> m[a] != map[]
  {
    map a | a in m :: if a in who then m[a] - {MaxKey(m[a])} else m[a]
  }

  lemma TruncatedLength(m: Lists, locals: set<Address>, level: nat, a: Address)
    requires a in m && a !in locals
    ensures |Truncated(m, locals, level)[a]| == if |m[a]| <= level then |m[a]| else level
  {
    LowestIsInitial(m[a], level);
  }

  /** Lowering everyone who reaches a level brings the lists to the next level. */
  lemma RoundLowersLevel(m: Lists, locals: set<Address>, next: nat, level: nat, t: Lists)
    requires level == next + 1 && t == Truncated(m, locals, level)
    ensures forall a :: a in Reaching(m, locals, level) ==> a in t && |t[a]| == level
    ensures Lowered(t, Reaching(m, locals, level)) == Truncated(m, locals, next)
  {
    var who, r := Reaching(m, locals, level), Truncated(m, locals, next);
    forall a | a in who ensures a in t && |t[a]| == level {
      TruncatedLength(m, locals, level, a);
    }
    forall a | a in t ensures a in r && r[a] == if a in who then t[a] - {MaxKey(t[a])} else t[a] {
      LowersOne(m, locals, next, level, t, who, r, a);
    }
    LoweredIs(t, who, r);
  }

  lemma LoweredIs(t: Lists, who: set<Address>, r: Lists)
    requires (forall a :: a in who && a in t ==> t[a] != map[]) && r.Keys == t.Keys
    requires forall a :: a in t ==> r[a] == if a in who then t[a] - {MaxKey(t[a])} else t[a]
    ensures Lowered(t, who) == r
  {
  }

  lemma LowersOne(m: Lists, locals: set<Address>, next: nat, level: nat, t: Lists, who: set<Address>, r: Lists,
                  a: Address)
    requires level == next + 1 && t == Truncated(m, locals, level) && r == Truncated(m, locals, next) && a in m
    requires who == Reaching(m, locals, level) && (a in who ==> |t[a]| == level)
    ensures a in t && a in r && r[a] == if a in who then t[a] - {MaxKey(t[a])} else t[a]
  {
    LevelDown(m[a], next, level);
  }

  lemma LevelDown(p: NonceMap, next: nat, level: nat)
    requires level == next + 1
    ensures |p| < level ==> Lowest(p, level) == p == Lowest(p, next)
    ensures |p| >= level ==>
      Lowest(p, level) != map[] && Lowest(p, next) == Lowest(p, level) - {MaxKey(Lowest(p, level))}
  {
    if |p| >= level {
      LowestIsInitial(p, level);
      LowestDropsMax(Lowest(p, level));
      LowestOfLowest(p, level, next);
    }
  }

  /** A level above all lists cuts nothing. */
  lemma HighLevel(m: Lists, locals: set<Address>, level: nat)
    requires forall a :: a in m && a !in locals ==> |m[a]| <= level
    ensures Truncated(m, locals, level) == m
  {
  }

  lemma LoweredStep(m: Lists, done: set<Address>, a: Address)
    requires a in m && a !in done && m[a] != map[] && forall b :: b in done && b in m ==> m[b] != map[]
    ensures Lowered(m, done)[a := m[a] - {MaxKey(m[a])}] == Lowered(m, done + {a})
    ensures Lowered(m, done)[a] == m[a]
  {
  }

  ghost function Members(s: seq<Address>): set<Address> {
    set i | 0 <= i < |s| :: s[i]
  }

  lemma MembersStep(s: seq<Address>, i: nat)
    requires i < |s|
    ensures Members(s[..i + 1]) == Members(s[..i]) + {s[i]}
  {
    assert s[..i + 1][i] == s[i];
    forall a | a in Members(s[..i]) ensures a in Members(s[..i + 1]) {
      var j :| 0 <= j < i && s[..i][j] == a;
      assert s[..i + 1][j] == a;
    }
    forall a | a in Members(s[..i + 1]) ensures a in Members(s[..i]) + {s[i]} {
      var j :| 0 <= j < i + 1 && s[..i + 1][j] == a;
      assert j < i ==> s[..i][j] == a;
    }
  }

  ghost predicate NoRepeats(s: seq<Address>) {
    forall i, j :: 0 <= i < j < |s| ==> s[i] != s[j]
  }

  lemma NotYet(s: seq<Address>, i: nat)
    requires NoRepeats(s) && i < |s|
    ensures s[i] !in Members(s[..i])
  {
    forall j | 0 <= j < i ensures s[..i][j] != s[i] {}
  }

  /** The first `i` of the accounts have lost their last transaction. */
  ghost predicate PartlyLowered(m: Lists, who: seq<Address>, i: nat, cur: Lists) {
    forall k {:trigger LevelKey(k)} :: LevelKey(k) ==>
      && i <= |who| && (forall a :: a in Members(who[..i]) && a in m ==> m[a] != map[])
      && cur == Lowered(m, Members(who[..i]))
  }

  lemma LoweringStarts(m: Lists, who: seq<Address>)
    ensures PartlyLowered(m, who, 0, m)
  {
  }

  lemma LoweringStep(m: Lists, who: seq<Address>, i: nat, next: nat, cur: Lists)
    requires PartlyLowered(m, who, i, cur) && NoRepeats(who) && i < |who| && next == i + 1
    requires who[i] in m && |m[who[i]]| >= 2
    ensures who[i] in cur && |cur[who[i]]| >= 2 && cur[who[i]] != map[]
    ensures PartlyLowered(m, who, next, cur[who[i] := cur[who[i]] - {MaxKey(cur[who[i]])}])
  {
    assert LevelKey(0);
    NotYet(who, i);
    MembersStep(who, i);
    LoweredStep(m, Members(who[..i]), who[i]);
  }

  lemma LoweringEnds(m: Lists, who: seq<Address>, cur: Lists)
    requires PartlyLowered(m, who, |who|, cur)
    ensures (forall a :: a in Members(who) && a in m ==> m[a] != map[]) && cur == Lowered(m, Members(who))
  {
    assert LevelKey(0);
    assert who[..|who|] == who;
  }

  /** `cur` is `m` cut to a level, and unless nothing was cut one level higher
      would have left too many. */
  ghost predicate AtLevel(m: Lists, cur: Lists, locals: set<Address>, level: nat, limit: nat) {
    forall k {:trigger LevelKey(k)} :: LevelKey(k) ==>
      && cur == Truncated(m, locals, level)
      && (cur == m || exists above :: above == level + 1 && Total(Truncated(m, locals, above)) > limit)
  }

  /** Guards the definitions about levels, like Key. */
  predicate LevelKey(k: int) { true }

  /** The remote accounts with more than the guaranteed number of transactions. */
  ghost function Spammers(m: Lists, locals: set<Address>, slots: nat): set<Address> {
    set a | a in m && a !in locals && |m[a]| > slots
  }

  /** `who` are the accounts already lowered to the level, `rest` those below it. */
  ghost predicate Ranked(m: Lists, locals: set<Address>, slots: nat, level: nat, who: seq<Address>,
                         rest: set<Address>) {
    forall k {:trigger LevelKey(k)} :: LevelKey(k) ==>
      && NoRepeats(who) && Members(who) !! rest && Members(who) + rest == Spammers(m, locals, slots)
      && slots <= level
      && (forall a :: a in Members(who) ==> a in m && |m[a]| >= level)
      && (forall a :: a in rest ==> a in m && |m[a]| <= level)
  }

  /** Above the others' height, exactly the accounts already lowered reach the level. */
  lemma ReachingIsRanked(m: Lists, locals: set<Address>, slots: nat, level: nat, who: seq<Address>, rest: set<Address>)
    requires Ranked(m, locals, slots, level, who, rest) && level > slots
    requires forall a :: a in rest ==> a in m && |m[a]| < level
    ensures Members(who) == Reaching(m, locals, level) && NoRepeats(who)
  {
    assert LevelKey(0);
    forall a | a in Reaching(m, locals, level) ensures a in Members(who) {
      assert a in Spammers(m, locals, slots);
    }
    forall a | a in Members(who) ensures a in Reaching(m, locals, level) {
      assert a in Spammers(m, locals, slots);
    }
  }

  lemma RankedLength(m: Lists, cur: Lists, locals: set<Address>, slots: nat, level: nat, limit: nat, who: seq<Address>,
                     rest: set<Address>, i: nat)
    requires Ranked(m, locals, slots, level, who, rest) && AtLevel(m, cur, locals, level, limit) && i < |who|
    ensures who[i] in cur && |cur[who[i]]| == level
  {
    assert LevelKey(0);
    assert who[i] in Members(who);
    assert who[i] in Spammers(m, locals, slots);
    TruncatedLength(m, locals, level, who[i]);
  }

  /** Before anything is cut, any level at least as high as all lists will do. */
  lemma Untouched(m: Lists, locals: set<Address>, slots: nat, level: nat, limit: nat)
    requires slots <= level && forall a :: a in Spammers(m, locals, slots) ==> a in m && |m[a]| <= level
    ensures AtLevel(m, m, locals, level, limit)
  {
    forall a | a in m && a !in locals ensures |m[a]| <= level {
      if |m[a]| > slots { assert a in Spammers(m, locals, slots); }
    }
    HighLevel(m, locals, level);
  }

  /** Taking the longest of the rest into the ranks. */
  lemma RankNext(m: Lists, locals: set<Address>, slots: nat, level: nat, who: seq<Address>, rest: set<Address>,
                 x: Address)
    requires Ranked(m, locals, slots, level, who, rest) && IsLongest(m, rest, x) && |m[x]| == level
    ensures Ranked(m, locals, slots, level, who + [x], rest - {x})
  {
    assert LevelKey(0);
    assert (who + [x])[..|who|] == who && (who + [x])[..|who| + 1] == who + [x];
    MembersStep(who + [x], |who|);
    forall i, j | 0 <= i < j < |who| + 1 ensures (who + [x])[i] != (who + [x])[j] {
      if j == |who| { assert who[i] in Members(who); }
    }
  }

  lemma RankLower(m: Lists, locals: set<Address>, slots: nat, level: nat, who: seq<Address>, rest: set<Address>,
                  to: nat)
    requires Ranked(m, locals, slots, level, who, rest) && slots <= to <= level
    requires forall a :: a in rest ==> a in m && |m[a]| <= to
    ensures Ranked(m, locals, slots, to, who, rest)
  {
  }

  /** The accounts below the level still have all their transactions. */
  lemma RestUntouched(m: Lists, cur: Lists, locals: set<Address>, slots: nat, level: nat, limit: nat,
                      who: seq<Address>, rest: set<Address>)
    requires Ranked(m, locals, slots, level, who, rest) && AtLevel(m, cur, locals, level, limit)
    ensures rest <= m.Keys && slots <= level
    ensures forall a :: a in rest ==> a in cur && cur[a] == m[a] && slots < |m[a]| <= level
  {
    assert LevelKey(0);
    forall a | a in rest ensures a in cur && cur[a] == m[a] && slots < |m[a]| <= level {
      assert a in Spammers(m, locals, slots);
    }
  }

  /** Starting out: nobody is ranked yet. */
  lemma RankNobody(m: Lists, locals: set<Address>, slots: nat, level: nat)
    requires slots <= level && forall a :: a in Spammers(m, locals, slots) ==> a in m && |m[a]| <= level
    ensures Ranked(m, locals, slots, level, [], Spammers(m, locals, slots))
  {
    assert Members([]) == {};
  }

  /** With nobody ranked yet the level may drop to the longest list. */
  lemma RankFirst(m: Lists, locals: set<Address>, slots: nat, level: nat, limit: nat, rest: set<Address>, x: Address,
                  top: nat)
    requires Ranked(m, locals, slots, level, [], rest) && IsLongest(m, rest, x) && top == |m[x]|
    ensures slots <= top && Ranked(m, locals, slots, top, [], rest) && AtLevel(m, m, locals, top, limit)
  {
    assert rest == Spammers(m, locals, slots) by { assert LevelKey(0); assert Members([]) == {}; }
    assert x in Spammers(m, locals, slots);
    RankNobody(m, locals, slots, top);
    Untouched(m, locals, slots, top, limit);
  }

  /** One round takes the lists from their level to the next. */
  lemma RoundStep(m: Lists, cur: Lists, locals: set<Address>, slots: nat, level: nat, limit: nat,
                  who: seq<Address>, rest: set<Address>, cur': Lists, next: nat)
    requires Ranked(m, locals, slots, level, who, rest) && AtLevel(m, cur, locals, level, limit)
    requires level > slots && forall a :: a in rest ==> a in m && |m[a]| < level
    requires Total(cur) > limit && forall a :: a in Members(who) && a in cur ==> cur[a] != map[]
    requires cur' == Lowered(cur, Members(who)) && next == level - 1
    ensures Ranked(m, locals, slots, next, who, rest) && AtLevel(m, cur', locals, next, limit)
  {
    ReachingIsRanked(m, locals, slots, level, who, rest);
    assert cur == Truncated(m, locals, level) by { assert LevelKey(0); }
    RoundLowersLevel(m, locals, next, level, cur);
    assert cur' == Truncated(m, locals, next);
    RankLower(m, locals, slots, level, who, rest, next);
  }

  // ----- choosing the longest list

  lemma {:induction false} LongestExists(m: Lists, who: set<Address>)
    requires who != {} && who <= m.Keys
    ensures exists a :: IsLongest(m, who, a)
  {
    var a :| a in who;
    if who == {a} {
      assert IsLongest(m, who, a);
    } else {
      LongestExists(m, who - {a});
      var b :| IsLongest(m, who - {a}, b);
      assert who == (who - {a}) + {a};
      assert IsLongest(m, who, if |m[b]| < |m[a]| then a else b);
    }
  }

  predicate IsLongest(m: Lists, who: set<Address>, a: Address) {
    a in who && who <= m.Keys && forall b :: b in who ==> |m[b]| <= |m[a]|
  }

  // ----- cutting one transaction off a pending list

  /** Cutting the last transaction off a pending list keeps the partition. */
  lemma CapKeepsInv(all: Content, pending: Lists, queue: Lists, a: Address, n: nat, rest: NonceMap)
    requires PoolInv(all, pending, queue) && n in At(pending, a) && rest == At(pending, a) - {n}
    ensures PoolInv(all - {At(pending, a)[n].hash}, With(pending, a, rest), queue)
  {
    Account(all, pending, queue, a);
    var p, q := At(pending, a), At(queue, a);
    var gone := map[n := p[n]];
    TakePending(p, q, n, gone, rest);
    HashesOfOne(n, p[n]);
    SplitStep(all, pending, queue, a, gone, rest, q);
    WithSame(queue, a);
  }

  /** The pool nonce of an account after some of its pending transactions were cut: the
      lowest nonce that was cut, unless it was lower before. */
  ghost predicate CutTo(n: nat, p: NonceMap, n': nat, p': NonceMap) {
    && p'.Keys <= p.Keys && n' <= n && (forall k :: k in p && k !in p' ==> n' <= k)
    && (n' == n || (n' in p && n' !in p'))
  }

  ghost predicate CutAt(v: View, v': View, chain: Address -> nat, a: Address) {
    CutTo(PoolNonce(v.nonces, chain, a), At(v.pending, a), PoolNonce(v'.nonces, chain, a), At(v'.pending, a))
  }

  ghost predicate NoncesCut(v: View, v': View, chain: Address -> nat) {
    forall k {:trigger LevelKey(k)} :: LevelKey(k) ==> forall a :: CutAt(v, v', chain, a)
  }

  lemma CutSame(v: View, w: View, v': View, chain: Address -> nat)
    requires NoncesCut(v, w, chain) && v'.pending == w.pending && v'.nonces == w.nonces
    ensures NoncesCut(v, v', chain)
  {
    forall a ensures CutAt(v, v', chain, a) { assert CutAt(v, w, chain, a) by { assert LevelKey(0); } }
  }

  lemma NothingCut(v: View, chain: Address -> nat)
    ensures NoncesCut(v, v, chain)
  {
  }

  lemma CutTwice(v: View, w: View, v': View, chain: Address -> nat)
    requires NoncesCut(v, w, chain) && NoncesCut(w, v', chain)
    ensures NoncesCut(v, v', chain)
  {
    forall a ensures CutAt(v, v', chain, a) {
      assert CutAt(v, w, chain, a) && CutAt(w, v', chain, a) by { assert LevelKey(0); }
    }
  }

  lemma CapCuts(v: View, chain: Address -> nat, a: Address, n: nat, rest: NonceMap, v': View)
    requires n in At(v.pending, a) && rest == At(v.pending, a) - {n} && v'.pending == With(v.pending, a, rest)
    requires v'.nonces == v.nonces[a := Min(PoolNonce(v.nonces, chain, a), n)]
    ensures NoncesCut(v, v', chain)
  {
    forall b ensures CutAt(v, v', chain, b) { OtherLists(v.pending, a, rest, b); }
  }

  /** Cutting from the top keeps the intervals. */
  lemma LevelKeepsNonces(v: View, v': View, chain: Address -> nat, locals: set<Address>, level: nat, limit: nat)
    requires NoncesOk(v, chain) && NoncesCut(v, v', chain) && v'.queue == v.queue
    requires AtLevel(v.pending, v'.pending, locals, level, limit)
    ensures NoncesOk(v', chain)
  {
    forall a ensures NoncesOf(v', chain, a) {
      assert NoncesOf(v, chain, a) && CutAt(v, v', chain, a) by { assert LevelKey(0); }
      if a in v.pending { LevelLengths(v.pending, v'.pending, locals, level, limit, a); }
      assert a !in v.pending ==> a !in v'.pending by { assert LevelKey(0); }
    }
  }

  // ----- what the level means

  lemma {:induction false} TotalMonotone(m: Lists, m': Lists)
    requires m.Keys == m'.Keys && forall a :: a in m ==> |m[a]| <= |m'[a]|
    ensures Total(m) <= Total(m')
    decreases |m|
  {
    if m != map[] {
      var a :| a in m;
      TotalWithout(m, a);
      TotalWithout(m', a);
      assert (m - {a}).Keys == m.Keys - {a} && (m' - {a}).Keys == m'.Keys - {a};
      TotalMonotone(m - {a}, m' - {a});
    } else {
      assert m' == map[];
    }
  }

  /** The level reached is the highest that brings the total within the limit: any
      higher one leaves too many, and every remote account has as many as the level
      allows it. */
  lemma LevelIsHighest(m: Lists, cur: Lists, locals: set<Address>, level: nat, limit: nat, higher: nat)
    requires AtLevel(m, cur, locals, level, limit) && cur != m && higher > level
    ensures Total(Truncated(m, locals, higher)) > limit
  {
    assert LevelKey(0);
    var above :| above == level + 1 && Total(Truncated(m, locals, above)) > limit;
    var low, high := Truncated(m, locals, above), Truncated(m, locals, higher);
    forall a | a in m ensures |low[a]| <= |high[a]| {
      if a !in locals {
        TruncatedLength(m, locals, above, a);
        TruncatedLength(m, locals, higher, a);
      }
    }
    TotalMonotone(low, high);
  }

  lemma LevelLengths(m: Lists, cur: Lists, locals: set<Address>, level: nat, limit: nat, a: Address)
    requires AtLevel(m, cur, locals, level, limit) && a in m
    ensures a in cur && (a in locals ==> cur[a] == m[a])
    ensures a !in locals ==> Initial(cur[a], m[a]) && |cur[a]| == if |m[a]| <= level then |m[a]| else level
  {
    assert LevelKey(0);
    LowestIsInitial(m[a], level);
  }

  /** After the cut the total is within the limit, or no remote account has more than
      the guaranteed slots. */
  lemma LimitsHold(m: Lists, cur: Lists, locals: set<Address>, level: nat, limit: nat, slots: nat)
    requires AtLevel(m, cur, locals, level, limit) && (Total(cur) <= limit || level == slots)
    ensures Total(cur) <= limit || forall a :: a in cur && a !in locals ==> |cur[a]| <= slots
  {
    if Total(cur) > limit {
      forall a | a in cur && a !in locals ensures |cur[a]| <= slots {
        assert a in m by { assert LevelKey(0); }
        LevelLengths(m, cur, locals, level, limit, a);
      }
    }
  }

  /** The cut takes no list its front. */
  lemma CutKeepsCleared(m: Lists, cur: Lists, locals: set<Address>, level: nat, limit: nat, t: Terms)
    requires AtLevel(m, cur, locals, level, limit) && level >= 1 && Cleared(t, m)
    ensures Cleared(t, cur)
  {
    forall a | a in cur ensures Executable(t, a, cur[a]) {
      assert a in m by { assert LevelKey(0); }
      assert Executable(t, a, m[a]) by { assert PassKey(0); }
      LevelLengths(m, cur, locals, level, limit, a);
      if a !in locals { FrontIsExecutable(t, a, m[a], cur[a]); }
    }
  }
}
