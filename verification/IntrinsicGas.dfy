/** The gas a transaction costs before any code runs. */
module IntrinsicGas {
  import opened Transactions

  const MAX_UINT64 := 0xFFFF_FFFF_FFFF_FFFF
  const TX_GAS := 21000
  const TX_GAS_CONTRACT_CREATION := 53000
  const TX_DATA_ZERO_GAS := 4
  const TX_DATA_NON_ZERO_GAS_FRONTIER := 68
  const TX_DATA_NON_ZERO_GAS_EIP2028 := 16
  const TX_ACCESS_LIST_ADDRESS_GAS := 2400
  const TX_ACCESS_LIST_STORAGE_KEY_GAS := 1900

  ghost function NonZeroBytes(data: seq<nat>): nat {
    if data == [] then 0 else NonZeroBytes(data[..|data| - 1]) + if data[|data| - 1] != 0 then 1 else 0
  }

  ghost function Sum(s: seq<nat>): nat {
    if s == [] then 0 else Sum(s[..|s| - 1]) + s[|s| - 1]
  }

  lemma {:induction false} NonZeroBytesBound(data: seq<nat>)
    ensures NonZeroBytes(data) <= |data|
  {
    if data != [] { NonZeroBytesBound(data[..|data| - 1]); }
  }

  /** Base price and data price, as a number without bound. */
  ghost function DataCost(data: seq<nat>, creation: bool, homestead: bool, eip2028: bool): nat {
    NonZeroBytesBound(data);
    var base := if creation && homestead then TX_GAS_CONTRACT_CREATION else TX_GAS;
    var perByte := if eip2028 then TX_DATA_NON_ZERO_GAS_EIP2028 else TX_DATA_NON_ZERO_GAS_FRONTIER;
    base + NonZeroBytes(data) * perByte + (|data| - NonZeroBytes(data)) * TX_DATA_ZERO_GAS
  }

  ghost function ListCost(keys: seq<nat>): nat {
    |keys| * TX_ACCESS_LIST_ADDRESS_GAS + Sum(keys) * TX_ACCESS_LIST_STORAGE_KEY_GAS
  }

  /** The intrinsic gas: none if base and data price exceed 64 bits, otherwise
      the price with the access list's share added modulo 2^64. */
  ghost function Intrinsic(data: seq<nat>, keys: seq<nat>, creation: bool, homestead: bool,
                           eip2028: bool): Option<nat> {
    var cost := DataCost(data, creation, homestead, eip2028);
    if cost > MAX_UINT64 then None else Some((cost + ListCost(keys)) % (MAX_UINT64 + 1))
  }

  /** Without data and access list: 21000, or 53000 for a creation from Homestead on. */
  lemma EmptyCosts(creation: bool, homestead: bool, eip2028: bool)
    ensures Intrinsic([], [], creation, homestead, eip2028) == Some(if creation && homestead then 53000 else 21000)
  {
  }

  /** Every further byte costs 4 if it is zero, else 68 and from EIP-2028 on 16; a sum beyond
      64 bits has no price, whatever follows. */
  lemma ByteCosts(data: seq<nat>, byte: nat, creation: bool, homestead: bool, eip2028: bool)
    ensures var before := Intrinsic(data, [], creation, homestead, eip2028);
      var price := if byte == 0 then 4 else if eip2028 then 16 else 68;
      Intrinsic(data + [byte], [], creation, homestead, eip2028)
      == if before.None? || before.value + price > 0xFFFF_FFFF_FFFF_FFFF then None else Some(before.value + price)
  {
    ByteAdds(data, byte, creation, homestead, eip2028);
    PlainCosts(data, creation, homestead, eip2028);
    PlainCosts(data + [byte], creation, homestead, eip2028);
  }

  lemma PlainCosts(data: seq<nat>, creation: bool, homestead: bool, eip2028: bool)
    ensures var cost := DataCost(data, creation, homestead, eip2028);
      Intrinsic(data, [], creation, homestead, eip2028) == if cost > MAX_UINT64 then None else Some(cost)
  {
  }

  lemma ByteAdds(data: seq<nat>, byte: nat, creation: bool, homestead: bool, eip2028: bool)
    ensures DataCost(data + [byte], creation, homestead, eip2028)
      == DataCost(data, creation, homestead, eip2028) + if byte == 0 then 4 else if eip2028 then 16 else 68
  {
    assert (data + [byte])[..|data|] == data;
    NonZeroBytesBound(data);
    var n := NonZeroBytes(data);
    assert NonZeroBytes(data + [byte]) == n + if byte != 0 then 1 else 0;
  }

  /** Every further entry of the access list costs 2400, and 1900 for each of its keys; that
      is added modulo 2^64. */
  lemma EntryCosts(data: seq<nat>, keys: seq<nat>, count: nat, creation: bool, homestead: bool, eip2028: bool)
    ensures var before := Intrinsic(data, keys, creation, homestead, eip2028);
      Intrinsic(data, keys + [count], creation, homestead, eip2028)
      == if before.None? then None else Some((before.value + 2400 + 1900 * count) % 0x1_0000_0000_0000_0000)
  {
    assert (keys + [count])[..|keys|] == keys;
    assert ListCost(keys + [count]) == ListCost(keys) + 2400 + 1900 * count;
    var cost := DataCost(data, creation, homestead, eip2028) + ListCost(keys);
    AddsModulo(cost, 2400 + 1900 * count);
  }

  lemma AddsModulo(a: nat, b: nat)
    ensures (a % 0x1_0000_0000_0000_0000 + b) % 0x1_0000_0000_0000_0000 == (a + b) % 0x1_0000_0000_0000_0000
  {
  }

  /** The division test detects exactly the overflow it stands for. */
  lemma DivisionGuardsOverflow(gas: nat, unit: nat, count: nat)
    requires gas <= MAX_UINT64 && unit > 0
    ensures (MAX_UINT64 - gas) / unit < count <==> gas + count * unit > MAX_UINT64
  {
    QuotientIsLess(MAX_UINT64 - gas, unit, count);
  }

  lemma QuotientIsLess(room: nat, unit: nat, count: nat)
    requires unit > 0
    ensures room / unit < count <==> room < count * unit
  {
    var q := room / unit;
    assert room == q * unit + room % unit;
    if q < count {
      Monotone(q + 1, count, unit);
    } else {
      Monotone(count, q, unit);
    }
  }

  lemma Monotone(a: int, b: int, k: nat)
    requires a <= b
    ensures a * k <= b * k
  {
  }

  method Compute(data: seq<nat>, keys: seq<nat>, creation: bool, homestead: bool, eip2028: bool)
    returns (r: Option<nat>)
    ensures r == Intrinsic(data, keys, creation, homestead, eip2028)
  {
    var gas := if creation && homestead then TX_GAS_CONTRACT_CREATION else TX_GAS;
    if |data| > 0 {
      var nz := 0;
      for i := 0 to |data|
        invariant nz == NonZeroBytes(data[..i])
      {
        assert data[..i + 1][..i] == data[..i];
        if data[i] != 0 {
          nz := nz + 1;
        }
      }
      assert data[..|data|] == data;
      NonZeroBytesBound(data);
      var nonZeroGas := if eip2028 then TX_DATA_NON_ZERO_GAS_EIP2028 else TX_DATA_NON_ZERO_GAS_FRONTIER;
      DivisionGuardsOverflow(gas, nonZeroGas, nz);
      if (MAX_UINT64 - gas) / nonZeroGas < nz {
        return None;
      }
      gas := gas + nz * nonZeroGas;
      var z := |data| - nz;
      DivisionGuardsOverflow(gas, TX_DATA_ZERO_GAS, z);
      if (MAX_UINT64 - gas) / TX_DATA_ZERO_GAS < z {
        return None;
      }
      gas := gas + z * TX_DATA_ZERO_GAS;
    }
    var total := 0;
    for i := 0 to |keys|
      invariant total == Sum(keys[..i])
    {
      assert keys[..i + 1][..i] == keys[..i];
      total := total + keys[i];
    }
    assert keys[..|keys|] == keys;
    r := Some((gas + |keys| * TX_ACCESS_LIST_ADDRESS_GAS + total * TX_ACCESS_LIST_STORAGE_KEY_GAS) % (MAX_UINT64 + 1));
  }
}
