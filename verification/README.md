# Verified model of the chain node's core

This project models, in Dafny, the parts of the node in which several pieces of state
have to agree, and proves that they do. Every module stands for one component and takes
its form: objects that are updated in place are classes whose methods say what the new
state is, loops are loops, and concurrent protocols are state machines over their atomic
steps.

- **Transaction pool** (`Heap`, `Transactions`, `TxSortedMap`, `TxList`, `TxLookup`,
  `HeapEntries`, `PricedList`, `PoolLists`, `PoolSteps`, `PoolPasses`, `WaterLevel`,
  `QueueLimit`, `IntrinsicGas`, `PoolAdditions`, `PoolStates`, `PoolCapacity`,
  `PoolRuns`, `PoolExecution`, `TxPool`): the sorted lists with their heaps and caches
  refine plain maps from nonces; the price heaps cover every remote transaction, and
  none of these is ever from a local account; it is known exactly when a full pool
  refuses a transaction, and which ones it gives up otherwise, in the order of their
  prices; it stays within its capacity in every run that brings no transaction back
  while the heaps still have an entry of it; in every run remote transactions tip the
  minimum, no nonce is used up and queued accounts have a heartbeat; what the pool
  admits passes every check of its execution; every operation of the pool keeps the
  lookup equal to the disjoint union of the pending and queued lists, and each pending
  list equal to the interval from the chain nonce to the pool nonce, the latter after a
  reset with reinjection under an exact condition. `truncatePending` is shown to be
  water-filling with the highest possible level, `truncateQueue` to cut to exactly the
  limit. A run is a sequence of states in which each step is what its operation says.
- **Pool scheduler and reset** (`ReorgScheduler`, `Reinjection`): requests are coalesced
  without losing one, as many runs are launched and finished as the events say, and a
  reset puts back exactly what only the old branch had.
- **Event feed** (`Feed`): over every interleaving a Send delivers once for each
  subscription that the events before it leave a channel with, on arrays in which one slice
  is a prefix of another.
- **Section indexer** (`Chains`, `ChainIndexer`): stored section heads are linked under
  every interleaving of chain changes with the unlocked update; a reorganisation leaves
  exactly what is below it, and an undisturbed update stores one more section.
- **Chain selection** (`HeaderChain`, `ForkPoints`, `BlockChain`): the canonical map is
  exactly the ancestry of the head although batches are built from reads that do not see
  them; the head is heaviest; over every run of the block chain the markers up to the head
  and the transaction index are exact, and it is known when markers are left over above.
- **Lookups** (`HashFn`, and `GetAncestor` in `HeaderChain`): fast paths equal the walk
  along the parents.
- **Gas and ether** (`StateTransition`): conservation over a message and over a block, for
  every EVM that itself conserves ether; who pays what; no message is applied twice.
- **Derivation paths** (`DerivationPath`): printing and parsing round-trip, relative paths
  are below the default root.

Headers contain their parent, so a header stands for its hash and the zero hash is None;
transactions stand for their hashes too. `Key`, `LookupKey` and the like are always true;
they keep large definitions folded until a proof asks for them.

The code does less than it says in five places, and the model follows the code.
`reorg` promises to delete the markers above the new head, but reads the height of a head
that has not moved when the new branch has fewer than two blocks
(`DeFiWarder/core/blockchain.go:2035`); `LeftOverIff` states exactly when markers are left
over, and `BlockChains.Run` that those up to the head are right all the same.
`demoteUnexecutables` speaks of gapped lists but looks at the front only
(`DeFiWarder/core/tx_pool.go:1547`); `ResetSettlesIff` states exactly when no gap is left
and `GapRun` how one comes about. `Discard` counts the slots of what it evicts, but a
transaction that left the pool and came back may have two entries in the price heaps and
is then counted twice (`DeFiWarder/core/tx_list.go:588-590`); `FreesAllIffUnique` states
exactly when the count is right, `LeaveAndReturn` shows the second entry coming about,
`MakeRoom` states the room that is made in any case, and `StaysWithin` which runs are not
affected. `GetAncestor` looks twice at the canonical chain to be sure of its jump
(`DeFiWarder/core/headerchain.go:420`), which does not notice a switch away and back
(`SwitchBackMisleads`); `AncestorIff` states exactly when its result is right. The sections
below a checkpoint are said to count as stored (`DeFiWarder/core/chain_indexer.go:128`),
but a checkpoint that is set while a section below it is being read is lost when that is
stored; `CheckpointLostIff` states when, and `StaysAbove` that it is kept otherwise.

`dafny verify dfyconfig.toml` checks the whole project.

## Model

| member | source | states |
|---|---|---|
| `Heap.RootIsLeast` | DeFiWarder/core/tx_list.go:33-50 | the root of a heap comes no later than any element below it, by induction along the parents |
| `Heap.Up` | DeFiWarder/core/tx_list.go:75-81 | sifting up restores the heap and permutes it |
| `Heap.Down` | DeFiWarder/core/tx_list.go:86-100 | sifting down restores the heap from a position on and permutes it |
| `Heap.Push` | DeFiWarder/core/tx_list.go:75-81 | pushing keeps the heap and adds exactly one element |
| `Heap.Pop` | DeFiWarder/core/tx_list.go:86-100 | popping yields an element no other precedes, and the rest is a heap |
| `Heap.Init` | DeFiWarder/core/tx_list.go:116-123 | heapifying makes any sequence a heap of the same elements |
| `Heap.Remove` | DeFiWarder/core/tx_list.go:170-187 | removing at a position takes that one element and keeps the heap |
| `Heap.Sort` | DeFiWarder/core/tx_list.go:145-166 | sorting gives an ordered permutation (the contract of sort.Sort) |
| `TxSortedMaps.TxSortedMap.Put` | DeFiWarder/core/tx_list.go:75-81 | the map gains or replaces one nonce; the heap holds exactly the keys; the cache is gone |
| `TxSortedMaps.TxSortedMap.Forward` | DeFiWarder/core/tx_list.go:86-100 | returns the transactions below the threshold in nonce order and leaves exactly the others; a kept cache is still the sorted contents |
| `TxSortedMaps.TxSortedMap.Filter` | DeFiWarder/core/tx_list.go:107-141 | removes exactly what the predicate selects and rebuilds the heap |
| `TxSortedMaps.TxSortedMap.Cap` | DeFiWarder/core/tx_list.go:145-166 | keeps exactly the lowest nonces up to the threshold; the shortened cache is still the sorted contents |
| `TxSortedMaps.TxSortedMap.Remove` | DeFiWarder/core/tx_list.go:170-187 | removes one nonce from map and heap, or reports that it is absent |
| `TxSortedMaps.TxSortedMap.Ready` | DeFiWarder/core/tx_list.go:196-211 | takes the consecutive run at the front and nothing else, in order |
| `TxSortedMaps.TxSortedMap.Flatten` | DeFiWarder/core/tx_list.go:218-239 | returns the sorted contents whether they come from the cache or are computed |
| `TxSortedMaps.TxSortedMap.LastElement` | DeFiWarder/core/tx_list.go:243-246 | returns the transaction with the highest nonce |
| `TxSortedMaps.SortedTake` | DeFiWarder/core/tx_list.go:145-166 | a prefix of a sorted listing lists the lowest nonces: the cache slicing of Cap is right |
| `TxSortedMaps.SortedDrop` | DeFiWarder/core/tx_list.go:86-100 | a suffix lists the others: the cache slicing of Forward is right |
| `TxLists.TxList.Add` | DeFiWarder/core/tx_list.go:281-314 | accepts exactly a free nonce or one outbid by the price bump on both price fields, and keeps the caps above every cost and gas limit |
| `TxLists.OutbidsIff` | DeFiWarder/core/tx_list.go:282-306 | a replacement must raise both caps, by the bump up to the fraction that the division drops |
| `TxLists.TxList.Forward` | DeFiWarder/core/tx_list.go:319-321 | as for the map |
| `TxLists.TxList.Filter` | DeFiWarder/core/tx_list.go:332-361 | removed are exactly the unpayable ones; in a strict list what comes after the first of them is returned as stranded; the rest stays |
| `TxLists.TxList.Cap` | DeFiWarder/core/tx_list.go:365-367 | as for the map |
| `TxLists.TxList.Remove` | DeFiWarder/core/tx_list.go:372-383 | removes by nonce; a strict list also gives up everything after it |
| `TxLists.TxList.Ready` | DeFiWarder/core/tx_list.go:392-394 | as for the map |
| `TxLists.ShortCircuitIsSound` | DeFiWarder/core/tx_list.go:332-336 | while the caps are within the limits the full scan would remove nothing |
| `TxLists.ScanRestoresCaps` | DeFiWarder/core/tx_list.go:337-341 | after the scan the limits themselves bound everything kept |
| `TxLists.FilterPartitions` | DeFiWarder/core/tx_list.go:332-361 | removed, stranded and kept transactions partition the list |
| `TxLists.FilterKeepsInterval` | DeFiWarder/core/tx_list.go:332-361 | a strict consecutive list stays consecutive under Filter |
| `TxLists.ForwardKeepsInterval` | DeFiWarder/core/tx_list.go:319-321 | a consecutive list stays consecutive under Forward |
| `NonceMaps.LowestIsUnique` | DeFiWarder/core/tx_list.go:145-166 | there is only one initial segment of a size, so Cap has one possible result |
| `NonceMaps.LowestOfInterval` | DeFiWarder/core/tx_list.go:145-166 | capping a consecutive list keeps it consecutive and tells where it ends |
| `NonceMaps.ReadyIsMaximal` | DeFiWarder/core/tx_list.go:196-211 | nothing in the list could continue what Ready hands out |
| `NonceMaps.ReadyFromStart` | DeFiWarder/core/tx_list.go:196-211 | on a list with nothing below the start, Ready takes the run from the start on and nothing that is left could follow it |
| `TxLookups.TxNoncer.Get` | DeFiWarder/core/tx_noncer.go:45-55 | reading fills the table but changes the nonce of no account |
| `TxLookups.TxNoncer.Set` | DeFiWarder/core/tx_noncer.go:59-64 | sets one account |
| `TxLookups.TxNoncer.SetIfLower` | DeFiWarder/core/tx_noncer.go:68-79 | the nonce becomes the minimum of the old one, read through to the chain, and the new one |
| `TxLookups.TxNoncer.SetAll` | DeFiWarder/core/tx_noncer.go:82-87 | replaces the table |
| `TxLookups.TxLookup.Add` | DeFiWarder/core/tx_pool.go:1763-1775 | adds one transaction as local or remote; locals and remotes stay disjoint and the slot count stays their sum |
| `TxLookups.TxLookup.Remove` | DeFiWarder/core/tx_pool.go:1778-1795 | removes exactly the hash from whichever side holds it, and its slots from the count |
| `TxLookups.TxLookup.RemoteToLocals` | DeFiWarder/core/tx_pool.go:1799-1812 | moves exactly the transactions of local accounts, and nothing is lost or counted twice |
| `TxLookups.TxLookup.RemotesBelowTip` | DeFiWarder/core/tx_pool.go:1815-1824 | a hash is listed, with its transaction, exactly if it is remote and its tip is below the threshold |
| `TxLookups.TxLookup.Consistent` | DeFiWarder/core/tx_pool.go:1665-1678 | what the invariant of the lookup says: disjoint sides, keyed by hash, slots equal to the sum of numSlots |
| `TxLookups.SlotSumWith` | DeFiWarder/core/tx_pool.go:1763-1795 | the slot sum changes by exactly the slots of the transaction added |
| `Transactions.SlotsHoldSize` | DeFiWarder/core/tx_pool.go:1827-1829 | a transaction takes as many slots of 32 kB as its size fills |
| `PricedLists.OrderIsWeak` | DeFiWarder/core/tx_list.go:442-455 | the price comparison is a weak order for every base fee, so heaps built on it are meaningful |
| `PricedLists.ComparesPays` | DeFiWarder/core/tx_list.go:442-455 | the comparison in the fields of the transactions: at a base fee the lower of tip cap and what the fee cap leaves decides, then the fee cap, then the tip cap; without one the caps alone |
| `PricedLists.LessIsCheaper` | DeFiWarder/core/tx_list.go:431-440 | the heap order is that, and at equal price the higher nonce first |
| `PricedLists.TxPricedList.Put` | DeFiWarder/core/tx_list.go:508-514 | a remote transaction gets one entry, in the urgent heap, a local one none |
| `PricedLists.TxPricedList.Removed` | DeFiWarder/core/tx_list.go:519-527 | up to a quarter of stale entries the heaps stay as they are and only the count moves; beyond that they are rebuilt from the remotes; coverage is kept and no entry comes out of nowhere |
| `PricedLists.TxPricedList.Underpriced` | DeFiWarder/core/tx_list.go:531-559 | true exactly if there are remote transactions, no live urgent one pays less at the base fee and no live floating one offers less than the new one, in terms of their caps; only stale entries leave the heaps |
| `PricedLists.TxPricedList.DiscardStep` | DeFiWarder/core/tx_list.go:565-592 | each step lowers 2*urgent+floating, loses no live entry, moves the cheapest urgent entry by what it pays at the base fee, or evicts the cheapest floating one by its caps |
| `PricedLists.TxPricedList.Gather` | DeFiWarder/core/tx_list.go:565-592 | takes live entries until they count for the request; no floating one that stays is cheaper than one that goes, an urgent one goes only after it moved, no urgent one that stays is cheaper than one that moved, and no more move than the ratio asks for; falls short exactly if all live entries together do, and has then taken them all |
| `PricedLists.TxPricedList.Discard` | DeFiWarder/core/tx_list.go:565-601 | succeeds exactly if forced or if the live entries together count for the request, and then gives up those with the lowest caps as Gather says; otherwise nothing is given up, and the heaps still cover every remote transaction and hold nothing new |
| `PricedLists.RankedUrgent` | DeFiWarder/core/tx_list.go:567-578 | moving the cheapest urgent entry keeps that order |
| `PricedLists.RankedFloating` | DeFiWarder/core/tx_list.go:579-591 | evicting the cheapest floating entry keeps that order |
| `PricedLists.RankedAfterCleaning` | DeFiWarder/core/tx_list.go:531-601 | that order is about all live entries, also when stale ones were dropped before |
| `PricedLists.TxPricedList.Reheap` | DeFiWarder/core/tx_list.go:604-628 | the two heaps together hold every remote transaction once, and the floating one the cheapest fifth |
| `PricedLists.TxPricedList.SetBaseFee` | DeFiWarder/core/tx_list.go:632-635 | re-sorts under the new base fee: every remote transaction once, the cheapest fifth floating and ordered, no stale entry counted |
| `HeapEntries.FreesExactly` | DeFiWarder/core/tx_list.go:565-601 | evicting what the heaps gave up frees exactly the slots that were counted, less those of transactions counted again |
| `HeapEntries.NothingRepeated` | DeFiWarder/core/tx_list.go:565-601 | none is counted again if no live transaction has a second entry |
| `HeapEntries.DoubleEntryIsRepeated` | DeFiWarder/core/tx_list.go:588-590 | two entries of a transaction are counted twice |
| `HeapEntries.FreesAllIffUnique` | DeFiWarder/core/tx_list.go:565-601 | whatever live transactions are taken off the heaps, evicting them frees the slots counted for them, if and only if no live transaction has a second entry |
| `PricedLists.TxPricedList.LeaveAndReturn` | DeFiWarder/core/tx_list.go:508-527 | how a second entry comes about: a remote transaction leaves the pool and comes back before a quarter of the entries is stale |
| `HeapEntries.LiveSlotsCover` | DeFiWarder/core/tx_list.go:565-601 | the live entries stand for at least the slots of all remote transactions, and for exactly these if none has a second entry |
| `PricedLists.TxPricedList.RebuiltIsUnique` | DeFiWarder/core/tx_list.go:604-628 | rebuilt heaps hold nothing twice |
| `HeapEntries.CoversEvicted` | DeFiWarder/core/tx_list.go:565-601 | once the evicted transactions have left the lookup the heaps cover it again |
| `HeapEntries.UniqueLasts` | DeFiWarder/core/tx_list.go:508-628 | if heaps are only thinned, rebuilt, or given one entry for each added transaction that had none, no live transaction gets a second entry |
| `HeapEntries.StockedTwice` | DeFiWarder/core/tx_list.go:508-628 | thinning, rebuilding and adding compose: no entry comes out of nowhere |
| `PoolLists.Located` | DeFiWarder/core/tx_pool.go:991-1037 | a known hash sits in exactly one list, under its nonce |
| `PoolLists.CutKeepsInv` | DeFiWarder/core/tx_pool.go:991-1037 | deleting a pending transaction by nonce removes the hash asked for and no other, and requeueing what follows keeps the partition |
| `PoolLists.TakeKeepsInv` | DeFiWarder/core/tx_pool.go:1027-1036 | the same for a queued transaction |
| `PoolLists.SplitStep` | DeFiWarder/core/tx_pool.go:1312-1565 | whenever an account's transactions are split into kept and dropped ones the partition holds again, however the kept ones change lists |
| `PoolLists.AddStep` | DeFiWarder/core/tx_pool.go:655-753 | a new transaction under a free nonce keeps the partition |
| `PoolLists.AccountStep` | DeFiWarder/core/tx_pool.go:655-1037 | a step on one account leaves the share of every other account in the partition alone |
| `PoolLists.ReplacePendingInv` | DeFiWarder/core/tx_pool.go:710-734 | replacing a pending transaction keeps the partition |
| `PoolLists.ReplaceQueuedInv` | DeFiWarder/core/tx_pool.go:758-793 | replacing a queued one too |
| `PoolLists.RemovalKeepsNonces` | DeFiWarder/core/tx_pool.go:991-1037 | a removal leaves pending equal to the interval from the chain nonce to the pool nonce |
| `PoolLists.PlacedAdds` | DeFiWarder/core/tx_pool.go:655-753 | putting a transaction into its slot adds it and drops at most the one outbid |
| `PoolSteps.PlanPromotion` | DeFiWarder/core/tx_pool.go:1312-1362 | works out the promotion of one queue step by step |
| `PoolSteps.PromotionSplits` | DeFiWarder/core/tx_pool.go:1312-1362 | a queue splits into old, unpayable, promoted, kept and capped transactions |
| `PoolSteps.PromotionKeepsInv` | DeFiWarder/core/tx_pool.go:1312-1373 | promotion keeps the partition |
| `PoolSteps.PromotionNonces` | DeFiWarder/core/tx_pool.go:1312-1373 | the promoted run starts exactly at the pool nonce and extends the pending interval |
| `PoolSteps.PlanDemotion` | DeFiWarder/core/tx_pool.go:1514-1558 | works out the demotion of one pending list |
| `PoolSteps.DemotionKeepsInv` | DeFiWarder/core/tx_pool.go:1514-1565 | demotion neither loses nor replaces a transaction |
| `PoolSteps.DemotionSettlesIff` | DeFiWarder/core/tx_pool.go:1514-1565 | demotion and the refreshed pool nonce give an interval with the queue beyond it if and only if, once the chain nonce is kept at all, the kept transactions have no gap and nothing queued lies among them |
| `PoolSteps.GapSurvivesDemotion` | DeFiWarder/core/tx_pool.go:1546-1556 | a pending list with a gap behind the front is left as it is by demotion, and the refreshed pool nonce lies beyond the gap |
| `PoolPasses.PassKeepsNonces` | DeFiWarder/core/tx_pool.go:1312-1373 | promoting any set of accounts keeps the intervals of all |
| `PoolPasses.PromotionExhausts` | DeFiWarder/core/tx_pool.go:1336-1345 | after a promotion pass no queued transaction of its accounts sits at the pool nonce |
| `PoolPasses.DemotionClears` | DeFiWarder/core/tx_pool.go:1514-1558 | after a demotion pass every pending list starts at the chain nonce and can be paid |
| `PoolPasses.ResetSettlesIff` | DeFiWarder/core/tx_pool.go:1161-1191 | after promotion, demotion and refresh, whatever was put back before, the pending lists are the intervals up to the pool nonces if and only if every account settles, a condition on the lists before |
| `PoolPasses.UntouchedSettles` | DeFiWarder/core/tx_pool.go:1161-1191 | an account that reinjection did not touch settles wherever the chain nonce went |
| `PoolPasses.UnmovedSettles` | DeFiWarder/core/tx_pool.go:1161-1191 | so does one whose chain nonce did not move |
| `PoolPasses.GapIsReached` | DeFiWarder/core/tx_pool.go:1296-1299 | from the lists after the reinjection: promotion puts the returned transaction in front of the gap and the account does not settle |
| `PoolStates.GapRun` | DeFiWarder/core/tx_pool.go:1296-1299 | how the code gets there: a head that moves back over an aligned account, the abandoned transaction queued again and its successor refused for its tip |
| `PoolStates.ReorganisedKeepsAligned` | DeFiWarder/core/tx_pool.go:1142-1216 | a whole reorganisation that takes nothing back keeps the intervals |
| `PoolStates.ChainKeeps` | DeFiWarder/core/tx_pool.go:941-953 | a batch of remote transactions leaves the head and the local accounts alone |
| `PoolStates.StaysAligned` | DeFiWarder/core/tx_pool.go:1142-1216 | in a run the intervals last from any aligned state until abandoned transactions come back |
| `PoolStates.StepSeparates` | DeFiWarder/core/tx_pool.go:655-1565 | no operation leaves a transaction of a local account among the remote ones |
| `PoolStates.StepSparesLocals` | DeFiWarder/core/tx_pool.go:382-461 | no transaction of a local account is ever evicted, priced out or expired: besides a reorganisation only one with its nonce makes it go |
| `PoolAdditions.AdditionSeparates` | DeFiWarder/core/tx_pool.go:655-753 | an addition keeps the transactions of local accounts out of the remote ones |
| `PoolAdditions.AdditionSparesLocals` | DeFiWarder/core/tx_pool.go:673-753 | an addition costs a local account no transaction but one with the same nonce |
| `PoolAdditions.AdditionAdds` | DeFiWarder/core/tx_pool.go:655-753 | a transaction that is taken is added, at most in place of the one with its sender and nonce, and otherwise costs only remote ones; a refused one is not added |
| `PoolAdditions.CheapestWent` | DeFiWarder/core/tx_pool.go:699-708 | every transaction that made room has a fee cap no higher than that of any live floating one that stays, at equal fee caps a tip cap no higher, and then a nonce no lower |
| `PoolAdditions.UrgentWent` | DeFiWarder/core/tx_pool.go:699-708 | an urgent transaction made room only if none that stays urgent pays a lower tip at the base fee |
| `PoolAdditions.RoomSuffices` | DeFiWarder/core/tx_pool.go:673-709 | if no live transaction has a second entry, the room made is enough for a remote transaction, and for a local one if the live entries count for it |
| `PoolAdditions.RefusedForRoom` | DeFiWarder/core/tx_pool.go:689-699 | a remote transaction is refused for want of room only if all remote ones together take fewer slots than are missing |
| `PoolAdditions.RefusedAsCheap` | DeFiWarder/core/tx_pool.go:674-680 | a full pool refuses a transaction as underpriced exactly if it is remote and no live floating one has lower caps and no live urgent one pays less |
| `PoolAdditions.PaysLessIff` | DeFiWarder/core/tx_list.go:442-455 | what paying less means for the tips at the base fee and the caps |
| `PoolAdditions.TakenSide` | DeFiWarder/core/tx_pool.go:655-753 | a taken transaction is remote exactly if neither its caller nor its account makes it local; only a local addition makes an account local, its own, unless it replaced a transaction |
| `PoolAdditions.AdmissibleIsPayable` | DeFiWarder/core/tx_pool.go:586-646 | what validation admits, promotion and demotion do not drop under the same head; it takes at most four slots |
| `TxPools.TxPool.constructor` | DeFiWarder/core/tx_pool.go:279-332 | a new pool is empty, price heaps included, has fresh parts and the given configuration and state, and satisfies all invariants |
| `TxPools.TxPool.EnqueueTx` | DeFiWarder/core/tx_pool.go:758-793 | queues exactly if the slot is free or outbid; the lookup loses the one replaced and gains the new one, on the side asked for; the heaps gain at most its entry; the account gets a heartbeat if it had none |
| `TxPools.TxPool.PromoteTx` | DeFiWarder/core/tx_pool.go:811-841 | promotes exactly if the slot is free or outbid, sets the pool nonce behind it and the heartbeat to now; a refused transaction leaves the lookup, and so does the one replaced |
| `TxPools.TxPool.RemoveTx` | DeFiWarder/core/tx_pool.go:991-1037 | the lookup loses exactly the named hash although the lists are searched by nonce; what it strands is queued again, the pool nonce lowered, and an account without a queue loses its heartbeat |
| `TxPools.TxPool.ValidateTx` | DeFiWarder/core/tx_pool.go:586-646 | no error exactly for admissible transactions, and otherwise the error of the first check that fails |
| `TxPools.TxPool.MakeRoom` | DeFiWarder/core/tx_pool.go:673-709 | a full pool refuses in exactly three cases: a remote transaction worth less by its caps than everything that could go, more than a quarter of evictions since the last reorganisation, or live entries that count for too little; otherwise live remote transactions go, no more than needed and the lowest caps first as Gather says, and lists, lookup, heaps and counters change by that alone |
| `TxPools.TxPool.Place` | DeFiWarder/core/tx_pool.go:710-753 | taken exactly if the slot is free or outbid; lists, lookup, slots, heartbeat, the remote transactions and the local accounts change by that alone, and the heaps gain at most its entry |
| `TxPools.TxPool.Admit` | DeFiWarder/core/tx_pool.go:673-753 | an admissible transaction is refused for room as MakeRoom says, with the heaps at most thinned, or the cheapest make room and it takes its slot if it wins it |
| `TxPools.TxPool.Add` | DeFiWarder/core/tx_pool.go:655-753 | a known transaction and the first failing check change nothing; an admissible one goes through MakeRoom and Place, and becomes local or remote as the caller and its account say; intervals are kept |
| `TxPools.TxPool.AddTxsLocked` | DeFiWarder/core/tx_pool.go:941-953 | each answer is that of its addition, one after the other, and dirty holds exactly the accounts that gained a transaction without replacing one |
| `TxPools.TxPool.PromoteAccount` | DeFiWarder/core/tx_pool.go:1318-1362 | one account's promotion, with the exact new lists and pool nonce |
| `TxPools.TxPool.PromoteExecutables` | DeFiWarder/core/tx_pool.go:1312-1373 | each of the accounts is promoted as PlanPromotion says, heartbeats included, and no other changes; partition and coverage are kept |
| `TxPools.TxPool.DemoteUnexecutables` | DeFiWarder/core/tx_pool.go:1514-1565 | every account is demoted as PlanDemotion says, heartbeats included; partition and coverage are kept, and every list left starts at the chain nonce and can be paid |
| `TxPools.TxPool.RefreshNonces` | DeFiWarder/core/tx_pool.go:1185-1191 | exactly the accounts with pending transactions have a nonce, the one after their highest |
| `TxPools.TxPool.CapOne` | DeFiWarder/core/tx_pool.go:1411-1427 | cuts one transaction off a list that is never empty; the total follows, and the pool nonce becomes the smaller of itself and the nonce cut |
| `TxPools.TxPool.Equalize` | DeFiWarder/core/tx_pool.go:1403-1432 | lowers the offenders together down to the next length or until the total is within the limit; the running total is the true sum |
| `TxPools.TxPool.TruncatePending` | DeFiWarder/core/tx_pool.go:1378-1460 | the pending lists are the original ones cut to one level at or above AccountSlots, locals untouched; unless nothing was cut one level more would leave too many, and the total is within GlobalSlots or the level is AccountSlots; each pool nonce is the smaller of what it was and the lowest one cut, gaps or not |
| `WaterLevel.RoundLowersLevel` | DeFiWarder/core/tx_pool.go:1409-1429 | lowering everyone who reaches a level is cutting to the next level |
| `WaterLevel.LevelIsHighest` | DeFiWarder/core/tx_pool.go:1378-1460 | every higher level leaves more than the limit |
| `WaterLevel.LevelLengths` | DeFiWarder/core/tx_pool.go:1378-1460 | each remote account keeps its lowest nonces, as many as the smaller of its length and the level |
| `WaterLevel.LevelKeepsNonces` | DeFiWarder/core/tx_pool.go:1411-1427 | with these pool nonces the cut keeps the intervals |
| `TxPools.TxPool.TruncateQueue` | DeFiWarder/core/tx_pool.go:1463-1505 | an overfull queue is cut to exactly GlobalQueue, or to local transactions only; pending lists and pool nonces do not change; an account is cut only after all heard of later lost everything, and loses its heartbeat with its queue |
| `TxPools.TxPool.ShedAccount` | DeFiWarder/core/tx_pool.go:1484-1504 | one account is dropped whole if that is not too much, else trimmed from the highest nonce |
| `TxPools.TxPool.ResetHead` | DeFiWarder/core/tx_pool.go:1284-1307 | switches state, nonces, gas limit and fork rules and takes back abandoned transactions one by one; a reset that is given up, or whose state cannot be opened, changes nothing |
| `TxPools.TxPool.Settle` | DeFiWarder/core/tx_pool.go:1168-1191 | promotion of all, demotion of all and refresh, from any lists, with the exact condition for intervals; with a new base fee no live transaction has a second entry |
| `TxPools.TxPool.RunReorg` | DeFiWarder/core/tx_pool.go:1142-1216 | the stages one after the other: reset or not, promotion, demotion and refresh with the exact condition for intervals, and the two cuts with their limits and the pool nonces they leave; after a reset every list starts at the chain nonce and can be paid; transactions only go, none changes between local and remote, and no heap entry comes out of nowhere |
| `TxPools.TxPool.MoveTo` | DeFiWarder/core/tx_pool.go:1142-1307 | the same from the stored blocks: what is put back is what the walk over both branches decides, and a missing new block makes it panic before anything changed |
| `TxPools.TxPool.EnforceLimits` | DeFiWarder/core/tx_pool.go:1193-1195 | pending is cut to one level, to within GlobalSlots unless the level is AccountSlots, and the pool nonces with it; the queue to exactly GlobalQueue or to local transactions; intervals are kept |
| `WaterLevel.LimitsHold` | DeFiWarder/core/tx_pool.go:1378-1460 | what the level means for the limits |
| `WaterLevel.CutKeepsCleared` | DeFiWarder/core/tx_pool.go:1378-1460 | cutting takes no list its front |
| `TxPools.TxPool.SetGasPrice` | DeFiWarder/core/tx_pool.go:444-461 | raising the price removes exactly the remote transactions below it, one after the other, with all that follows for lists, nonces and heartbeats; the heaps gain no entry |
| `TxPools.TxPool.EvictExpired` | DeFiWarder/core/tx_pool.go:382-398 | empties exactly the queues of the expired remote accounts, those never heard of included, and takes their heartbeats; nothing pending changes |
| `TxPools.TxPool.Run` | DeFiWarder/core/tx_pool.go:655-1565 | every run, state by state: each step is what its operation says, moves of the head with what the walk over the stored blocks decides, in every state the lookup is the disjoint union of the lists, slots are right, the heaps cover the remote transactions and none of these is from a local account, and a step ends the intervals only if it takes abandoned transactions back |
| `TxPools.TxPool.Step` | DeFiWarder/core/tx_pool.go:655-1565 | the effect of one locked operation on the whole state, price heaps included |
| `TxPools.Start` | DeFiWarder/core/tx_pool.go:279-332 | the same for a run from the creation of a pool, where the intervals hold, the pool is empty and the heaps hold nothing twice |
| `PoolCapacity.AdditionKeepsUnique` | DeFiWarder/core/tx_pool.go:655-753 | an addition makes no second entry of a transaction that has none |
| `PoolCapacity.StepKeepsUnique` | DeFiWarder/core/tx_pool.go:655-1565 | no operation gives a live transaction a second entry unless it brings back one that still has an entry, and a reset with a base fee leaves no second entries at all |
| `PoolCapacity.StaysUnique` | DeFiWarder/core/tx_pool.go:655-1565 | so in every run, from the creation or from such a reset on, until a transaction comes back too early |
| `PoolCapacity.AdditionFits` | DeFiWarder/core/tx_pool.go:673-753 | where no live transaction has a second entry, a remote one that is taken leaves the pool within GlobalSlots + GlobalQueue, and so does a local one if the live entries count for what is missing |
| `PoolCapacity.ChainFits` | DeFiWarder/core/tx_pool.go:941-953 | the same for a batch of new remote transactions |
| `PoolCapacity.StepFits` | DeFiWarder/core/tx_pool.go:655-1565 | an operation that adds nothing local and brings nothing back too early leaves the pool within its capacity or no fuller than it was |
| `PoolCapacity.StaysWithin` | DeFiWarder/core/tx_pool.go:655-1565 | a run of such operations never exceeds the capacity |
| `PoolRuns.PromotionKeeps` | DeFiWarder/core/tx_pool.go:1318-1362 | promotion leaves in a queue only what can still be executed, a remote account no more than AccountQueue, and drops only what is old, unpayable or beyond that |
| `PoolRuns.PromotionRefreshes` | DeFiWarder/core/tx_pool.go:811-841 | an account that is promoted and keeps a queue is heard of now |
| `PoolRuns.DemotionKeeps` | DeFiWarder/core/tx_pool.go:1514-1565 | demotion drops only what is old or unpayable; all else stays or is queued again |
| `PoolRuns.StepTipped` | DeFiWarder/core/tx_pool.go:444-461 | no operation leaves a remote transaction that tips less than the minimum |
| `PoolRuns.StepCurrent` | DeFiWarder/core/tx_pool.go:655-1565 | no operation leaves a transaction whose nonce is used up |
| `PoolRuns.StepHeard` | DeFiWarder/core/tx_pool.go:655-1565 | every operation leaves queued accounts with a heartbeat |
| `PoolRuns.StepSilences` | DeFiWarder/core/tx_pool.go:991-1565 | outside additions an account that lost its queue has lost its heartbeat |
| `PoolRuns.RunKeeps` | DeFiWarder/core/tx_pool.go:655-1565 | the first three in every state of every run from the creation of the pool |
| `PoolExecution.AdmissibleExecutes` | DeFiWarder/core/tx_pool.go:586-646 | an admitted transaction passes every check of its execution on the same head, once its nonce is next and its fee cap covers the base fee |
| `PoolExecution.AdmissibleIsApplied` | DeFiWarder/core/state_transition.go:328-404 | so it is executed and not refused |
| `ReorgScheduler.ScheduleReorgLoop` | DeFiWarder/core/tx_pool.go:1072-1139 | for every sequence of events, turn by turn: as many runs were launched and finished as the events say; each request is answered with the channel of the run launched next, which serves it and promotes nothing else; runs do not overlap; resets tile the heads; a shutdown closes every channel that was given out |
| `ReorgScheduler.ReceiveHead` | DeFiWarder/core/tx_pool.go:1098-1106 | a head joins the pending reset without losing the old end |
| `ReorgScheduler.ReceivePromote` | DeFiWarder/core/tx_pool.go:1108-1116 | accounts join the pending set |
| `ReorgScheduler.LaunchKeeps` | DeFiWarder/core/tx_pool.go:1084-1095 | launching hands everything pending to the new run |
| `ReorgScheduler.TurnKeeps` | DeFiWarder/core/tx_pool.go:1082-1138 | one turn of the loop keeps all of this |
| `ReorgScheduler.TurnAnswers` | DeFiWarder/core/tx_pool.go:1098-1116 | what a turn answers to the event it handles |
| `ReorgScheduler.TurnKeepsUp` | DeFiWarder/core/tx_pool.go:1074-1138 | the loop refines the events: a request starts a run or waits for the active one, and a run that finishes makes way for the next if one is wanted |
| `ReorgScheduler.FinishServes` | DeFiWarder/core/tx_pool.go:1127-1128 | once the active run has finished every request so far belongs to a launched run, and there is one more run exactly if one was wanted |
| `ReorgScheduler.DoneAfterTwo` | DeFiWarder/core/tx_pool.go:1127-1128 | a request is done once two more runs have finished |
| `ReorgScheduler.ReceiveWanted` | DeFiWarder/core/tx_pool.go:1096-1117 | no run promotes an account that was not requested of it |
| `ReorgScheduler.ResetsChain` | DeFiWarder/core/tx_pool.go:1098-1106 | of two resets with none between them the later starts at the head the earlier led to |
| `Reinjection.TxDifference` | DeFiWarder/core/tx_pool.go:1280-1280 | the elements of one list not in the other, in order |
| `Reinjection.Collect` | DeFiWarder/core/tx_pool.go:1254-1275 | the walk stops at the highest common ancestor with the transactions of both branches above it, and gives up only on a missing block |
| `Reinjection.Decide` | DeFiWarder/core/tx_pool.go:1220-1280 | what is put back is exactly what the old branch has above the fork and the new one has not, from the old head down; the cases in which nothing is put back, the reset is given up, or the missing new block makes it panic |
| `Reinjection.PutsBackExactly` | DeFiWarder/core/tx_pool.go:1226-1280 | heads more than 64 blocks apart put nothing back; closer ones, with all blocks stored, exactly what is left behind above the fork |
| `CaseLists.IndexOf` | DeFiWarder/event/feed.go:213-220 | -1 exactly if absent, otherwise the first position |
| `CaseLists.Find` | DeFiWarder/event/feed.go:213-220 | the loop returns that position |
| `CaseLists.Delete` | DeFiWarder/event/feed.go:223-225 | shifting in place leaves the list without the element and the rest of the array alone |
| `CaseLists.Deactivate` | DeFiWarder/event/feed.go:228-232 | swapping in place exchanges two elements of the shared array |
| `Feeds.StepKeeps` | DeFiWarder/event/feed.go:72-190 | every step keeps: live subscriptions are in the inbox or the send cases once, and those a Send started with are waiting, served or removed; no case list operation panics |
| `Feeds.DeliverKeeps` | DeFiWarder/event/feed.go:156-181 | a delivery moves one subscription from waiting to served |
| `Feeds.RemovingIsFound` | DeFiWarder/event/feed.go:116-123 | a subscription being removed is among the send cases, so find does not return -1 |
| `Feeds.RemoveKeeps` | DeFiWarder/event/feed.go:171-177 | a removal during a Send shrinks the active prefix exactly if the case was still active |
| `Feeds.BeginSendKeeps` | DeFiWarder/event/feed.go:128-154 | a Send starts with exactly the live subscriptions |
| `Feeds.RunKeeps` | DeFiWarder/event/feed.go:72-190 | the invariant holds in every state of every run |
| `Feeds.EveryRun` | DeFiWarder/event/feed.go:72-190 | over every run: no panic, and every finished Send has an event it began with and one it ended with; it delivered once to each subscription live at the former and not removed while waiting, nsent being their number, and nothing else was delivered between the two |
| `Feeds.NothingAfterRemove` | DeFiWarder/event/feed.go:103-124 | once its last subscription is removed a channel receives nothing until it is subscribed again |
| `Feeds.CountsHold` | DeFiWarder/event/feed.go:72-124 | in every state of every run a channel has as many subscriptions as the events say: one for each time it was subscribed with the right type, less those unsubscribed or removed |
| `Feeds.DeliversToSubscribed` | DeFiWarder/event/feed.go:128-190 | every finished Send delivered to a channel once for each subscription that the events before it leave, but for those removed while it waited |
| `Feeds.AlwaysEnabled` | DeFiWarder/event/feed.go:128-190 | a Send can always go on, and a subscription can always be removed once no Send runs or one waits |
| `Feeds.WaitsForSomebody` | DeFiWarder/event/feed.go:166-170 | a Send waits in the select only for somebody |
| `Feeds.RemovalEndsOne` | DeFiWarder/event/feed.go:103-124 | a completed removal ends exactly one subscription |
| `Feeds.SendMakesProgress` | DeFiWarder/event/feed.go:155-182 | every step of a Send lowers a measure that no other goroutine raises |
| `Feeds.Feed.Subscribe` | DeFiWarder/event/feed.go:72-92 | equals the step of the state machine, which adds one subscription if the type is right |
| `Feeds.Feed.Unsubscribe` | DeFiWarder/event/feed.go:103-114 | on arrays: the step of the state machine |
| `Feeds.Feed.RemoveIdle` | DeFiWarder/event/feed.go:119-123 | on arrays: the step of the state machine |
| `Feeds.Feed.SelectRemove` | DeFiWarder/event/feed.go:171-177 | on arrays, with cases a prefix of sendCases: the step of the state machine |
| `Feeds.Feed.BeginSend` | DeFiWarder/event/feed.go:128-154 | on arrays: the step of the state machine |
| `Feeds.Feed.TrySend` | DeFiWarder/event/feed.go:156-165 | on arrays: the step of the state machine |
| `Feeds.Feed.EndTry` | DeFiWarder/event/feed.go:166-168 | equals the step that ends or waits; the result of a Send is the number of its deliveries |
| `Feeds.Feed.SelectSend` | DeFiWarder/event/feed.go:178-181 | on arrays: the step of the state machine |
| `Chains.AncestorOfAncestor` | DeFiWarder/core/headerchain.go:406-438 | an ancestor of an ancestor is the ancestor |
| `Chains.DescendsIsAncestor` | DeFiWarder/core/chain_indexer.go:388-417 | following parent hashes k times leads to the ancestor k blocks below |
| `ChainIndexers.RollBack` | DeFiWarder/core/chain_indexer.go:479-491 | rolling back keeps the links |
| `ChainIndexers.Extend` | DeFiWarder/core/chain_indexer.go:350-353 | storing a section on top of a stored head extends the links |
| `ChainIndexers.Trust` | DeFiWarder/core/chain_indexer.go:130-143 | a checkpoint above everything stored keeps them |
| `ChainIndexers.JobReads` | DeFiWarder/core/chain_indexer.go:397-412 | whatever the chain does between reads, what was read descends from the old head |
| `ChainIndexers.JobDone` | DeFiWarder/core/chain_indexer.go:388-417 | a committed section ends exactly one section above the head it started from |
| `ChainIndexers.AllCanonical` | DeFiWarder/core/chain_indexer.go:422-429 | if the last stored head is canonical so is every one below it down to the last checkpoint |
| `ChainIndexers.VerifiedIsCanonical` | DeFiWarder/core/chain_indexer.go:422-440 | the same over the whole state, without mention of which sections came from checkpoints |
| `ChainIndexers.ChainIndexer.SetValidSections` | DeFiWarder/core/chain_indexer.go:479-491 | exactly the heads below the number remain |
| `ChainIndexers.ChainIndexer.VerifyLastHead` | DeFiWarder/core/chain_indexer.go:422-429 | rolls back no further than to a canonical head or the checkpoint; every head dropped was not canonical |
| `ChainIndexers.ChainIndexer.NewReorg` | DeFiWarder/core/chain_indexer.go:243-275 | equals the function that the next two rows are about; the children are told exactly if what they were told before is lowered |
| `ChainIndexers.ReorgKeepsHeads` | DeFiWarder/core/chain_indexer.go:248-268 | a reorganisation leaves exactly the stored heads of sections that end at or below the common ancestor or are within the checkpoint |
| `ChainIndexers.ReorgLowers` | DeFiWarder/core/chain_indexer.go:248-275 | nothing above the ancestor is stored, known or announced any more, and what was below it stays so unless it lies below the checkpoint |
| `ChainIndexers.ChainIndexer.NewHead` | DeFiWarder/core/chain_indexer.go:276-299 | known sections become exactly the confirmed ones if these are more, past a checkpoint only if it is on the chain |
| `ChainIndexers.KnownMeans` | DeFiWarder/core/chain_indexer.go:276-300 | a number of sections is known after a new head exactly if it was before, or all its blocks and the checkpoint have their confirmations and the checkpoint is on the chain |
| `ChainIndexers.ChainIndexer.AddCheckpoint` | DeFiWarder/core/chain_indexer.go:130-143 | a checkpoint above everything stored and above the last one becomes the last stored section with its head; any other changes nothing |
| `ChainIndexers.StaysAbove` | DeFiWarder/core/chain_indexer.go:124-143 | the stored sections never fall below a checkpoint that is set while no section is being read, as long as the backend can be reset |
| `ChainIndexers.CheckpointLostIff` | DeFiWarder/core/chain_indexer.go:351-353 | storing a section drops the checkpoint exactly if that is above it |
| `ChainIndexers.ChainIndexer.Sections` | DeFiWarder/core/chain_indexer.go:434-440 | without a restart, if more than the checkpoint is reported, every section from the last one of the checkpoint on is canonical when asked |
| `ChainIndexers.ChainIndexer.BeginUpdate` | DeFiWarder/core/chain_indexer.go:317-338 | fixes the section and the head it builds on |
| `ChainIndexers.ChainIndexer.FailReset` | DeFiWarder/core/chain_indexer.go:391-395 | a backend that cannot reset empties the index |
| `ChainIndexers.ChainIndexer.ReadNext` | DeFiWarder/core/chain_indexer.go:397-412 | a header is taken only on top of the last one |
| `ChainIndexers.ChainIndexer.CommitSection` | DeFiWarder/core/chain_indexer.go:413-416 | a section is committed only when all its headers were read |
| `ChainIndexers.ChainIndexer.EndUpdate` | DeFiWarder/core/chain_indexer.go:350-370 | stored only if the head it builds on is still stored, whatever happened meanwhile |
| `ChainIndexers.UpdateStoresOne` | DeFiWarder/core/chain_indexer.go:318-362 | an update that nothing interferes with stores one more section, with the canonical hash of its last block |
| `ChainIndexers.ReadFailsIff` | DeFiWarder/core/chain_indexer.go:397-411 | a read fails exactly if the header is missing, not on top of the last one, or not taken by the backend |
| `ChainIndexers.FailureStoresNothing` | DeFiWarder/core/chain_indexer.go:363-368 | an update that failed stores nothing and waits for the next head |
| `ChainIndexers.Run` | DeFiWarder/core/chain_indexer.go:243-429 | every interleaving of chain changes, heads, checkpoints, queries, restarts and two-phase updates, state by state: each step is what its event says, and in every state each stored head lies one section above the one before it |
| `ForkChoices.ReorgNeeded` | DeFiWarder/core/forkchoice.go:77-108 | below the terminal difficulty the heavier header wins, of equally heavy ones the lower, then the one to be preserved, else the coin decides; at the terminal difficulty the external one; none if a difficulty is missing |
| `ForkChoices.AncestorIsLighter` | DeFiWarder/core/headerchain.go:209-235 | an ancestor is never heavier |
| `HeaderChains.FlushIsAncestry` | DeFiWarder/core/headerchain.go:139-203 | a batch built from reads that do not see it leaves exactly the ancestry of the new head |
| `HeaderChains.DeleteAbove` | DeFiWarder/core/headerchain.go:154-161 | queues the deletion of exactly the markers above the new head |
| `HeaderChains.WalkBack` | DeFiWarder/core/headerchain.go:162-181 | queues the ancestry down to the link with the canonical chain and never misses a parent |
| `HeaderChains.QueueAll` | DeFiWarder/core/headerchain.go:182-194 | queues the new headers |
| `HeaderChains.PlanSwitches` | DeFiWarder/core/headerchain.go:139-203 | together these are the batch that FlushIsAncestry needs |
| `HeaderChains.HeaderChain.WriteHeaders` | DeFiWarder/core/headerchain.go:209-261 | stores a contiguous list under a known parent, counts the new ones, and each stored total difficulty is the parent's plus its own |
| `HeaderChains.HeaderChain.LoopOverHeaders` | DeFiWarder/core/headerchain.go:223-250 | not looking up children of unknown headers finds exactly the unknown ones |
| `HeaderChains.HeaderChain.Reorg` | DeFiWarder/core/headerchain.go:139-203 | succeeds, and the canonical map is exactly the ancestry of the last header |
| `HeaderChains.HeaderChain.WriteHeadersAndSetHead` | DeFiWarder/core/headerchain.go:270-306 | unknown parents change nothing; otherwise all headers are stored and the head moves, with status Canon, exactly if the fork choice prefers the last one and it is not canonical yet |
| `HeaderChains.InsertionIsHeaviest` | DeFiWarder/core/headerchain.go:270-306 | without a terminal difficulty an insertion never makes the head lighter and keeps it a heaviest header |
| `HeaderChains.HeaderChain.SetHead` | DeFiWarder/core/headerchain.go:574-651 | the head becomes its ancestor at the lowest height that the caller or its callback asked for on the way down, and every header above is gone on all forks |
| `HeaderChains.HeaderChain.GetAncestor` | DeFiWarder/core/headerchain.go:406-438 | result, height and counter in every case, although the canonical chain may change between reads: from the highest ancestor in reach that both outer reads find canonical the result is what the read in between finds at the target; without one it is the true ancestor if that is in reach, else none |
| `HeaderChains.AncestorIff` | DeFiWarder/core/headerchain.go:417-437 | the result is the true ancestor if and only if the read in between finds that canonical, or no jump is made and it is in reach |
| `HeaderChains.SteadyJump` | DeFiWarder/core/headerchain.go:418-424 | so it is if the chain in between holds the block that the other two reads found |
| `HeaderChains.SwitchBackMisleads` | DeFiWarder/core/headerchain.go:418-424 | a walk whose canonical chain switches away and back within a check returns a block of the other branch |
| `HeaderChains.Run` | DeFiWarder/core/headerchain.go:139-651 | every run of insertions and rewinds, state by state: each step is what its operation says, in every state the canonical map is exactly the ancestry of the head, the store parent-closed and the difficulties right; while there are only insertions the head is heaviest |
| `ForkPoints.FindFork` | DeFiWarder/core/blockchain.go:1937-1990 | the three loops stop at the highest common ancestor with both branches above it, and fail only on a missing block |
| `ForkPoints.ForkIsUnique` | DeFiWarder/core/blockchain.go:1937-1990 | two chains have at most one fork |
| `ForkPoints.MissingBlock` | DeFiWarder/core/blockchain.go:1980-1989 | a walk that finds a parent missing would have needed it |
| `BlockChains.BlockChain.WriteHeadBlock` | DeFiWarder/core/blockchain.go:738-759 | marks the block, enters its transactions and moves the head |
| `BlockChains.BlockChain.WriteBranch` | DeFiWarder/core/blockchain.go:2014-2027 | the blocks of the branch but its head are marked and entered |
| `BlockChains.BlockChain.PruneIndex` | DeFiWarder/core/blockchain.go:2028-2033 | dropping what only the old branch holds leaves exactly the index of the new chain |
| `BlockChains.PrunedIsIndexed` | DeFiWarder/core/blockchain.go:2028-2033 | the same as a statement about the index, transactions of both branches included |
| `BlockChains.BlockChain.DeleteMarkers` | DeFiWarder/core/blockchain.go:2034-2045 | no marker is left above the current block |
| `BlockChains.BlockChain.Reorg` | DeFiWarder/core/blockchain.go:1925-2045 | never fails on a missing block; leaves no marker above the current block, which stays if the new one is a single block on its chain and is the parent of the new one otherwise; the index is that of the parent |
| `BlockChains.BlockChain.WriteKnownBlock` | DeFiWarder/core/blockchain.go:1163-1172 | from any left-over markers: the index is exactly that of the new chain, the markers up to the new head are its ancestry, and they end where NextHigh says |
| `BlockChains.LeftOverIff` | DeFiWarder/core/blockchain.go:2034-2042 | the markers are exactly the ancestry of the new head if and only if they did not reach above it, if it is a child of the old head, or it is no lower than the old head, if it is a single block elsewhere on that chain; any other switch clears what was left over |
| `BlockChains.MarkedExactly` | DeFiWarder/core/blockchain.go:2034-2042 | nothing is left over if and only if the markers end at the head |
| `BlockChains.MarkBlock` | DeFiWarder/core/blockchain.go:738-746 | marking a child of an ancestor of the head |
| `BlockChains.LowerSiblingLeavesMarker` | DeFiWarder/core/blockchain.go:2034-2042 | left-over markers occur in a run of three insertions, the last of which the fork choice prefers although it is lower |
| `BlockChains.ShortBranch` | DeFiWarder/core/blockchain.go:2014-2016 | the branch is shorter than two blocks exactly if the parent is on the chain of the old head |
| `BlockChains.BlockChain.WriteBlockAndSetHead` | DeFiWarder/core/blockchain.go:1270-1313 | the status and the new head are those of the fork choice; unknown parents change nothing and side blocks are only stored |
| `BlockChains.Run` | DeFiWarder/core/blockchain.go:1163-1313 | every run of insertions and of heads set from outside, state by state: each step is what its operation says, and in every state the markers up to the head are its ancestry, no transaction index entry is missing or left over, and the markers end at a known height |
| `HashFns.HashFn.Call` | DeFiWarder/core/evm.go:76-107 | the true hash for every lower number, unless a header on the way is missing; never a hash for others, wrap-around included |
| `HashFns.Calls` | DeFiWarder/core/evm.go:76-107 | the same for every order of calls, whatever the cache holds and the chain knows at each |
| `IntrinsicGas.DivisionGuardsOverflow` | DeFiWarder/core/state_transition.go:137-147 | the division test detects exactly the overflow it stands for |
| `IntrinsicGas.Compute` | DeFiWarder/core/state_transition.go:118-156 | the loop and its checks compute the specified gas or report the overflow |
| `IntrinsicGas.EmptyCosts` | DeFiWarder/core/state_transition.go:119-125 | 21000, or 53000 for a creation from Homestead on |
| `IntrinsicGas.ByteCosts` | DeFiWarder/core/state_transition.go:126-150 | each byte adds 4, or 68 and later 16 if it is not zero, until the sum exceeds 64 bits |
| `IntrinsicGas.EntryCosts` | DeFiWarder/core/state_transition.go:151-154 | each access list entry adds 2400 and 1900 for each key, modulo 2^64 |
| `Ledgers.TotalAdd` | DeFiWarder/core/state_transition.go:196-216 | adding to a balance adds to the sum of all |
| `StateTransitions.EtherIsConserved` | DeFiWarder/core/state_transition.go:328-404 | an applied message lowers the sum of balances by exactly used gas times base fee, nothing before London |
| `StateTransitions.PoolIsCharged` | DeFiWarder/core/state_transition.go:328-404 | the pool falls by exactly the used gas, at most the gas bought; messages refused earlier change nothing |
| `StateTransitions.WhoPays` | DeFiWarder/core/state_transition.go:328-404 | besides what the EVM moves the sender pays the used gas at its price, the miner gets the price less the base fee and nobody else anything; used is what was spent less a refund of at most a fifth, before London half; the EVM starts with the nonce of the sender raised for a call, and the gas less the intrinsic gas |
| `StateTransitions.ChargedIff` | DeFiWarder/core/state_transition.go:196-265 | exactly which messages are charged |
| `StateTransitions.NoncesRise` | DeFiWarder/core/state_transition.go:373-379 | an applied message has raised the nonce of its sender, for an EVM that lowers none and counts creations |
| `StateTransitions.NoReplay` | DeFiWarder/core/state_transition.go:267-285 | an applied message is refused in every later state, and changes nothing there |
| `StateTransitions.NonceCheckIsTheDifference` | DeFiWarder/core/state_transition.go:407-483 | both transitions agree on every message with the right nonce; for any other the check refuses it and changes nothing |
| `StateTransitions.StaysSolvent` | DeFiWarder/core/state_transition.go:196-216 | no balance becomes negative and the later funds check never fails |
| `StateTransitions.ValueIsCovered` | DeFiWarder/core/state_transition.go:360-363 | after buying gas the value is still covered |
| `StateTransitions.CappedRefund` | DeFiWarder/core/state_transition.go:485-491 | the refund is the smaller of the counter and the share, and at most the gas used |
| `StateTransitions.GasPool.AddGas` | DeFiWarder/core/gaspool.go:29-35 | adds; every caller here is shown not to overflow |
| `StateTransitions.GasPool.SubGas` | DeFiWarder/core/gaspool.go:39-45 | subtracts if there is enough |
| `StateTransitions.StateTransition.BuyGas` | DeFiWarder/core/state_transition.go:196-216 | checks balance and pool in order and charges both |
| `StateTransitions.StateTransition.PreCheckSu` | DeFiWarder/core/state_transition.go:219-265 | the shared checks in their order |
| `StateTransitions.StateTransition.PreCheck` | DeFiWarder/core/state_transition.go:267-313 | the nonce checks in front of them |
| `StateTransitions.StateTransition.RefundGas` | DeFiWarder/core/state_transition.go:485-500 | returns gas to sender and pool without overflow |
| `StateTransitions.StateTransition.TransitionDb` | DeFiWarder/core/state_transition.go:328-404 | computes the specified transition with nonce check, about which EtherIsConserved, PoolIsCharged, WhoPays and NoReplay are |
| `StateTransitions.StateTransition.TransitionDbTest` | DeFiWarder/core/state_transition.go:407-483 | computes the specified transition without nonce check, with the same payments and the same raised nonce |
| `StateProcessors.ApplyTransaction` | DeFiWarder/core/state_processor.go:115-158 | receipt, state and gas pool are those of the specified transition, with the refund counter reset on success |
| `StateProcessors.Process` | DeFiWarder/core/state_processor.go:60-113 | transaction by transaction the specified transition; the block fails exactly at the first that is refused, with its index and error; otherwise pool plus gas used is the gas limit, receipts hold the prefix sums, and the ether burnt is the gas used times the base fee |
| `StateProcessors.StepConserves` | DeFiWarder/core/state_processor.go:115-158 | an accepted transaction takes from the pool what its receipt holds, and burns that times the base fee |
| `StateProcessors.TraceConserves` | DeFiWarder/core/state_processor.go:60-113 | over the transactions of a block: the gas pool falls by the gas used, the ether by that times the base fee |
| `StateProcessors.TraceReceipts` | DeFiWarder/core/state_processor.go:60-113 | the receipts hold the prefix sums, and none more gas than was bought |
| `StateProcessors.NoncesIncrease` | DeFiWarder/core/state_processor.go:86-95 | the messages of a sender that a block accepts have rising nonces, so none is accepted twice |
| `StateProcessors.TraceIsUnique` | DeFiWarder/core/state_processor.go:60-113 | the transitions leave one possible outcome |
| `Numerals.ReadDecimal` | DeFiWarder/accounts/hd.go:101-104 | reading the decimal digits of a number gives the number, in a reader that also knows other bases, signs and separators |
| `Numerals.ReadPrefixed` | DeFiWarder/accounts/hd.go:101-104 | binary, octal and hexadecimal digits behind their prefix read back to the number |
| `Numerals.ReadSigned` | DeFiWarder/accounts/hd.go:101-104 | a sign in front |
| `DerivationPaths.ParseDerivationPath` | DeFiWarder/accounts/hd.go:68-118 | the loop computes the meaning of the string; results are non-empty and fit 32 bits |
| `DerivationPaths.String` | DeFiWarder/accounts/hd.go:122-136 | the loop prints the path |
| `DerivationPaths.SplitPrint` | DeFiWarder/accounts/hd.go:72-72 | splitting a printed path gives its components |
| `DerivationPaths.ParseRender` | DeFiWarder/accounts/hd.go:91-115 | a printed component parses to itself, hardened or not |
| `DerivationPaths.ComponentIs` | DeFiWarder/accounts/hd.go:92-116 | a decimal component is taken if it fits 32 bits, with a quote if it fits 31, and else out of range |
| `DerivationPaths.RelativePath` | DeFiWarder/accounts/hd.go:83-85 | a path without leading m is one below m/44'/60'/0'/0 |
| `DerivationPaths.SpacesAround` | DeFiWarder/accounts/hd.go:91-92 | white space around a component does not matter |
| `DerivationPaths.RoundTrip` | DeFiWarder/accounts/hd.go:68-136 | printing and parsing gives back every non-empty path; the empty one is refused |

## Left out

- Journals, metrics, logging, event notifications and tickers of the pool; the clock is the field `now`.
- The pool works on nonce maps where the code holds `txList` objects; `TxLists` proves that such an object behaves like the map, so aliasing between lists is not part of the pool model.
- TxPools.TxPool.RunReorg: the exact condition for intervals after a reset is about the lists after reinjection, which the relation of each addition determines.
- TxPools.TxPool.TruncatePending: requires AccountSlots to be at least 1, which `sanitize` establishes.
- PricedLists.TxPricedList.Removed: `stales` is not claimed to be the exact number of stale entries, and outside Reheap an entry may occur twice, because a transaction that is added again revives its old entry.
- TxPools.TxPool.MakeRoom: room is not promised if a live transaction has two entries in the heaps, where the code may evict too little, nor for local transactions, for which the code gives up what it can; which of several entries with the same price and nonce goes first is left open.
- Nonces and prices in the pool are unbounded; what the code does with the nonce 2^64-1 is not modelled.
- Signature recovery: a transaction carries its sender or none; that no two transactions share a hash is taken for granted.
- ReorgScheduler.ScheduleReorgLoop: the queue of transaction events that a run announces is left out.
- Feeds.EveryRun: liveness beyond progress of a Send is not stated, since a subscriber may never become ready.
- The child indexers of the section indexer are indexers themselves; what they are told is the result of NewReorg and EndUpdate.
- ChainIndexers.ChainIndexer.Reopen: a process that stops between writing the section count and deleting the heads above it is not modelled.
- Header and number caches, and `WriteHeaders` interrupted between filling them and writing its batch.
- HeaderChains.HeaderChain.SetHead: the callback is a function of the header it is asked about, each of which occurs once; what the callbacks write and the freezer are left out.
- Fast sync and other modes in which the header head is ahead of the block head; the limit on indexed transactions.
- BlockChains.BlockChain.WriteBlockAndSetHead: the stored total difficulty is taken to be the sum of difficulties, which the header chain proves of its own store; state, receipts and logs are left out.
- BlockChains.Run: no transaction occurs twice on a chain (`NoRepeats`), which the nonce check of block processing ensures; with a repeated one the index would lose an entry that the common part of the chains still needs.
- StateTransitions.EtherIsConserved: the EVM is a parameter that conserves ether and returns no more gas than it got; ether burnt by contracts that destroy themselves is outside it.
- StateTransitions.StateDB.Finalise: only the refund counter is reset; deletion of destroyed and empty accounts is left out.
- Messages without fee caps, as calls outside of transactions may be; the block rewards of the consensus engine.
- IntrinsicGas.Compute: the share of the access list is added modulo 2^64 without a check, as in the source.
- Numerals.ReadDecimal: the number syntax is that of the documentation of Go's math/big, which is not part of this repository.
- RPC, networking, consensus engines, tries, databases and the detection tool.
