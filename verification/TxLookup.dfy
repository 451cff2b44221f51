/** The pool's lookup of every transaction by hash, with its slot count, and the
    virtual nonces of the accounts. */
module TxLookups {
  import opened Transactions
  import opened NonceMaps

  type Content = map<Hash, Tx>

  ghost predicate KeyedByHash(m: Content) {
    forall h :: h in m ==> m[h].hash == h
  }

  /** The lookup holds exactly this transaction. */
  predicate Holds(m: Content, tx: Tx) {
    tx.hash in m && m[tx.hash] == tx
  }

  /** The hashes of a list. */
  function Hashes(l: NonceMap): set<Hash> {
    set n | n in l :: l[n].hash
  }

  /** The slots of all transactions together. */
  ghost function SlotSum(m: Content): nat {
    if m == map[] then 0 else
      var h :| h in m;
      NumSlots(m[h]) + SlotSum(m - {h})
  }

  lemma {:induction false} SlotSumWithout(m: Content, h: Hash)
    requires h in m
    ensures SlotSum(m) == NumSlots(m[h]) + SlotSum(m - {h})
    decreases |m|
  {
    var g :| g in m && SlotSum(m) == NumSlots(m[g]) + SlotSum(m - {g});
    if g != h {
      assert (m - {g}).Keys == m.Keys - {g};
      assert (m - {h}).Keys == m.Keys - {h};
      SlotSumWithout(m - {g}, h);
      SlotSumWithout(m - {h}, g);
      assert m - {g} - {h} == m - {h} - {g};
    }
  }

  lemma MinusUnion(m: Content, a: set<Hash>, b: set<Hash>)
    ensures m - a - b == m - (a + b)
  {
  }

  lemma MinusNone(m: Content, txs: NonceMap)
    ensures m - {} == m && Hashes(txs - txs.Keys) == {} && txs - {} == txs
  {
  }

  lemma HashesGrow(txs: NonceMap, rest: NonceMap, n: nat)
    requires rest.Keys <= txs.Keys && n in rest
    ensures Hashes(txs - (rest - {n}).Keys) == Hashes(txs - rest.Keys) + {txs[n].hash}
  {
    var small, large := txs - rest.Keys, txs - (rest - {n}).Keys;
    assert large[n].hash == txs[n].hash;
    forall h | h in Hashes(small) ensures h in Hashes(large) {
      var k :| k in small && small[k].hash == h;
      assert large[k].hash == h;
    }
    forall h | h in Hashes(large) ensures h in Hashes(small) + {txs[n].hash} {
      var k :| k in large && large[k].hash == h;
      assert k != n ==> small[k].hash == h;
    }
  }

  lemma SlotSumWith(m: Content, tx: Tx)
    requires tx.hash !in m
    ensures SlotSum(m[tx.hash := tx]) == SlotSum(m) + NumSlots(tx)
  {
    assert m[tx.hash := tx] - {tx.hash} == m;
    SlotSumWithout(m[tx.hash := tx], tx.hash);
  }

  lemma {:induction false} SlotSumPart(m: Content, part: Content)
    requires forall h :: h in part ==> h in m && part[h] == m[h]
    ensures SlotSum(part) <= SlotSum(m)
    decreases |part|
  {
    if h :| h in part {
      SlotSumWithout(part, h);
      SlotSumWithout(m, h);
      assert (part - {h}).Keys == part.Keys - {h};
      SlotSumPart(m - {h}, part - {h});
    }
  }

  lemma MoveKeepsUnion(l: Content, r: Content, moving: Content, accounts: set<Address>)
    requires l.Keys !! r.Keys && KeyedByHash(l) && KeyedByHash(r) && moving == FromAccounts(r, accounts)
    ensures (l + moving) + (r - moving.Keys) == l + r && (l + moving).Keys !! (r - moving.Keys).Keys
    ensures KeyedByHash(l + moving) && KeyedByHash(r - moving.Keys)
  {
  }

  /** Guards the lookup's invariant, like Key. */
  predicate LookupKey(k: int) { true }

  class TxLookup {
    var slots: int
    var locals: Content
    var remotes: Content

    ghost function All(): Content
      reads this
    {
      locals + remotes
    }

    ghost predicate Valid()
      reads this
    {
      forall k {:trigger LookupKey(k)} :: LookupKey(k) ==>
        && locals.Keys !! remotes.Keys
        && KeyedByHash(locals) && KeyedByHash(remotes)
        && slots == SlotSum(All())
    }

    constructor ()
      ensures Valid() && All() == map[] && remotes == map[]
    {
      slots, locals, remotes := 0, map[], map[];
    }

    /** What the invariant says in full. */
    lemma Consistent()
      requires Valid()
      ensures locals.Keys !! remotes.Keys && KeyedByHash(locals) && KeyedByHash(remotes) && KeyedByHash(All())
      ensures slots == SlotSum(All())
    {
      assert LookupKey(0);
    }

    function Get(hash: Hash): (r: Option<Tx>)
      requires Valid()
      reads this
      ensures r == if hash in All() then Some(All()[hash]) else None
    {
      assert LookupKey(0);
      if hash in locals then Some(locals[hash])
      else if hash in remotes then Some(remotes[hash])
      else None
    }

    method Add(tx: Tx, local: bool)
      requires Valid() && tx.hash !in All()
      modifies this
      ensures Valid() && All() == old(All())[tx.hash := tx]
      ensures local ==> remotes == old(remotes)
      ensures !local ==> remotes == old(remotes)[tx.hash := tx]
    {
      assert LookupKey(0);
      SlotSumWith(All(), tx);
      slots := slots + NumSlots(tx);
      if local {
        locals := locals[tx.hash := tx];
      } else {
        remotes := remotes[tx.hash := tx];
      }
      assert All() == old(All())[tx.hash := tx];
    }

    method Remove(hash: Hash)
      requires Valid()
      modifies this
      ensures Valid() && All() == old(All()) - {hash} && remotes == old(remotes) - {hash}
      ensures locals == old(locals) - {hash}
    {
      assert LookupKey(0);
      if hash !in locals && hash !in remotes {
        assert All() - {hash} == All();
        return;
      }
      SlotSumWithout(All(), hash);
      var tx := if hash in locals then locals[hash] else remotes[hash];
      slots := slots - NumSlots(tx);
      locals := locals - {hash};
      remotes := remotes - {hash};
      assert All() == old(All()) - {hash};
    }

    /** Removes every transaction of a list. */
    method RemoveAll(txs: NonceMap)
      requires Valid()
      modifies this
      ensures Valid() && All() == old(All()) - Hashes(txs) && remotes == old(remotes) - Hashes(txs)
    {
      var rest := txs;
      ghost var gone: set<Hash> := {};
      MinusNone(All(), txs);
      MinusNone(remotes, txs);
      while rest != map[]
        invariant Valid() && rest.Keys <= txs.Keys && gone == Hashes(txs - rest.Keys)
        invariant All() == old(All()) - gone && remotes == old(remotes) - gone
        decreases |rest|
      {
        var n :| n in rest;
        SizeOfRemoval(rest, n);
        HashesGrow(txs, rest, n);
        MinusUnion(old(All()), gone, {txs[n].hash});
        MinusUnion(old(remotes), gone, {txs[n].hash});
        Remove(txs[n].hash);
        rest, gone := rest - {n}, gone + {txs[n].hash};
      }
    }

    /** Moves the remote transactions of local accounts over to the locals. */
    method RemoteToLocals(accounts: set<Address>) returns (migrated: nat)
      requires Valid()
      modifies this`locals, this`remotes
      ensures Valid() && All() == old(All())
      ensures remotes == old(remotes) - FromAccounts(old(remotes), accounts).Keys
      ensures migrated == |FromAccounts(old(remotes), accounts)|
    {
      Consistent();
      var moving := FromAccounts(remotes, accounts);
      MoveKeepsUnion(locals, remotes, moving, accounts);
      locals, remotes := locals + moving, remotes - moving.Keys;
      migrated := |moving|;
    }

    /** The remote transactions that tip less than the threshold, by a walk over all. */
    method RemotesBelowTip(threshold: nat) returns (found: Content)
      requires Valid()
      ensures forall h :: h in found <==> h in remotes && remotes[h].gasTipCap < threshold
      ensures forall h :: h in found ==> found[h] == remotes[h]
    {
      found := map[];
      var rest := remotes;
      while rest != map[]
        invariant rest.Keys <= remotes.Keys && forall h :: h in rest ==> rest[h] == remotes[h]
        invariant forall h :: h in found <==> h in remotes && h !in rest && remotes[h].gasTipCap < threshold
        invariant forall h :: h in found ==> found[h] == remotes[h]
        decreases rest.Keys
      {
        var h :| h in rest;
        if rest[h].gasTipCap < threshold {
          found := found[h := rest[h]];
        }
        rest := rest - {h};
      }
    }
  }

  lemma SizeOfContent(m: Content, h: Hash)
    requires h in m
    ensures |m - {h}| == |m| - 1
  {
    assert (m - {h}).Keys == m.Keys - {h};
  }

  predicate FromAccount(tx: Tx, accounts: set<Address>) {
    tx.sender.Some? && tx.sender.value in accounts
  }

  function FromAccounts(m: Content, accounts: set<Address>): Content {
    map h | h in m && FromAccount(m[h], accounts) :: m[h]
  }

  function BelowTip(m: Content, threshold: nat): Content {
    map h | h in m && m[h].gasTipCap < threshold :: m[h]
  }

  /** The nonce the pool tracks for an account, by default the chain's. */
  function PoolNonce(nonces: map<Address, nat>, chain: Address -> nat, a: Address): nat {
    if a in nonces then nonces[a] else chain(a)
  }

  lemma SetTwice(nonces: map<Address, nat>, a: Address, x: nat, y: nat)
    ensures nonces[a := x][a := y] == nonces[a := y]
    ensures a in nonces ==> nonces[a := nonces[a]] == nonces
  {
  }

  function Min(a: nat, b: nat): nat {
    if a <= b then a else b
  }

  /** Executable nonces of accounts, read through to the chain state. */
  class TxNoncer {
    const fallback: Address -> nat
    var nonces: map<Address, nat>

    constructor (state: Address -> nat)
      ensures fallback == state && nonces == map[]
    {
      fallback, nonces := state, map[];
    }

    /** Reading fills the table but changes no account's nonce. */
    method Get(addr: Address) returns (n: nat)
      modifies this
      ensures n == PoolNonce(old(nonces), fallback, addr) && nonces == old(nonces)[addr := n]
    {
      if addr !in nonces {
        nonces := nonces[addr := fallback(addr)];
      }
      n := nonces[addr];
    }

    method Set(addr: Address, nonce: nat)
      modifies this
      ensures nonces == old(nonces)[addr := nonce]
    {
      nonces := nonces[addr := nonce];
    }

    method SetIfLower(addr: Address, nonce: nat)
      modifies this
      ensures nonces == old(nonces)[addr := Min(PoolNonce(old(nonces), fallback, addr), nonce)]
    {
      if addr !in nonces {
        nonces := nonces[addr := fallback(addr)];
      }
      if nonces[addr] <= nonce {
        return;
      }
      nonces := nonces[addr := nonce];
    }

    method SetAll(all: map<Address, nat>)
      modifies this
      ensures nonces == all
    {
      nonces := all;
    }
  }
}
