# Proofs about the IX kernel dataplane

A Dafny model of six parts of the dataplane, with proofs over every input, every run or every
interleaving. `dafny verify dfyconfig.toml` checks all of it. Most parts come as a pair: values
and functions that the theorems are about, and a class whose methods update fields or memory in
place, as the C code does, each proved to compute exactly those functions.

- **Flow groups** (`FlowGroup*.dfy`, `MbufQueue.dfy`; the code as written is the subject of
  `FlowGroupQuirks`, `FlowGroupStale` and `FlowGroupWritten`). Migration of flow groups between CPUs as
  a state machine: one step is one C function run to completion on one CPU, and the hardware
  hands any packet to any CPU at any time, so that every lag of the redirection table is covered.
- **Packet buffers** (`Pbuf*.dfy`, `RefusedData.dfy`). A heap of shared, counted, linked buffers
  with 16-bit fields; what each operation and every sequence of operations keeps; runs that reach
  a shared chain (`PbufSharing.dfy`); the bytes that a chain shows; and the loop that offers refused data to the application again.
- **Memory pools** (`Mempool*.dfy`). Many pools over one datastore, the carving of pages into
  slots and chunks, and the free lists as words in memory.
- **NIC tables and lock** (`Vlan.dfy`, `Rar.dfy`, `Semaphore.dfy`). VLAN tables as a set of
  (VLAN, pool) pairs, address registers, and the semaphore shared with firmware, as single
  register accesses of any number of agents in any order.
- **Hashes and redirection table** (`Words.dfy`, `Toeplitz.dfy`, `AtrHash.dfy`, `AtrStream.dfy`,
  `Reta.dfy`).
- **Rings and timers** (`RingIndex.dfy`, `TxRing.dfy`, `RxRing.dfy`, `TcpTimers.dfy`).

`Arithmetic.dfy` holds the products and divisions that several parts need.

Observations such as the packets delivered, the slots handed out or the bits an agent holds are
part of the state values; no step reads them.

## How the code is read

- Where `BUG_ON` is given the condition that ought to hold, that condition is taken to hold
  (core/ethfg.c lines 136, 144, 238, 239, 260; core/mempool.c lines 48, 49, 60, 91, 175-177).
- core/ethfg.c and net/tcp.c are modelled twice, as intended and as written, with a parameter
  `Port`; so is core/mempool.c. The theorems about the intent hold of every run; for the code as
  written there is a theorem that says exactly when it agrees, or a run in which it does not.
- List cursors of `hlist_for_each_safe` (net/tcp.c lines 944 and 1186) are read as "visit each
  element", and the second unlink of a PCB (line 900 after line 1036) as one removal.
- Registers are sets of bits (`Vlan`), sequences of bits (`AtrHash`, `Toeplitz`), bytes (`Reta`)
  or their fields (`Rar`). Lengths and counts of 16 and 8 bits wrap explicitly.
- Mutable memory is a map that methods update; clocks, hardware answers, allocator answers and
  application callbacks are parameters.

## Where the code does not do what it is for

- The migration bitmap is tested where it should be cleared (core/ethfg.c:241). A migration then
  starts correctly exactly when every stale bit names a group that moves again (`StaleBitmap`). A
  drain takes the owner from every group that has a bit but is not on its way (`DrainUnowns`):
  from every state the code reaches with its invariants intact and a stale bit, the next migration
  does so (`StaleBitLoses`), and such a state is reached by a single migration (`StaleBitUnowns`).
- The `memcpy` at core/ethfg.c:279 copies the timer too. A call that outlives its migration can
  then take the copy for a running timer; one CPU drains twice for one migration and a group
  loses its owner (`DrainTwice`, `CodeDrainsTwice`).
- Together: an assignment by the code as written keeps it sound if and only if no group moves, or
  no stale bit names another group and no call waits on the target (`AssignSoundIff`); in every
  run whose assignments are like that, the results about order, ownership and drains hold
  (`SafeRunDelivers`).
- `mempool_alloc_2` leaves `num_free` as it was (core/mempool.c:42-79). All chunks keep
  `chunk_size` slots in every run if and only if a chunk has one slot or there are no more chunks
  than a chunk has slots (`ExactIff`).
- For elements of at most 8 bytes, `next_chunk` of a slot is the first word of the next slot
  (`HeadersOverlap`), and the carved chunks are lists only in three tiny cases (`OverlapIff`);
  elements that do not fit a 2MB page make core/mempool.c:189 divide by zero (`NoElemsPerPage`).
- `pbuf_cat`, `pbuf_chain`, `pbuf_dechain`, `pbuf_realloc` and `pbuf_split_64k` change `tot_len`
  of shared pbufs; they keep the invariant if and only if nothing outside links into the part
  they change, or nothing changes (`CatKeeps`, `ChainedKeeps`, `DechainKeeps`, `ReallocKeeps`,
  `SplitKeeps`). Allocations and `pbuf_chain` alone reach a state where `pbuf_cat` breaks it
  (`SharedTail`).
- `pbuf_free` counts in 8 bits, so `pbuf_dechain` returns a released pbuf exactly when a positive
  multiple of 256 pbufs went (`DechainAnswer`); `ref` is 16 bits wide (`RefKeeps`).
- Exclusion holds in every run if and only if neither of two things can happen: the timeout of the
  SMBI loop, and a release that goes on without the semaphore (`ExclusionIff`). Each breaks it on
  its own (`TimeoutBreaksExclusion`, `UnlockedReleaseBreaksExclusion`).
- Inserting an address into a full register file changes no register, but still counts
  `rar_highwater` up, past the end (`InsertKeeps`).
- The high bits of a RETA value above 255 are added to the next entry of its register
  (`UpdateEntry`), unless they are shifted out, cleared with that entry, or there already; the
  update is exact if and only if that is so for every masked entry (`UpdateExact`).
- When the allocation of receive mbufs fails, the first entries still name the freed ones
  (`Fill`), and resetting a transmit ring drops what is pending without completing it
  (`StepAccounts`).
- A receive ring gives descriptors back if and only if it has more than 32 (`ShortRingStarves`).
- `tcp_timer_ctr` is a `bool` (inc/kns/ethfg.h:49), so that it stays 1 from the first tick on. A PCB
  that was allocated before that tick is handled at the first tick that comes to it, and never
  again; one that was allocated later is never handled (`HandledIff`).

## Model

| member | source | states |
|---|---|---|
| FlowGroupTheorems.MigrationSafety | core/ethfg.c:131-447 | In every reachable state a group is unassigned, owned by one CPU or moving between two; a CPU's migration bitmap is exactly the groups that leave it; no CPU is in two migrations; each receive queue holds packets of owned groups only, each hand-over queue packets of groups moving there; every finished migration was drained exactly once |
| FlowGroupTheorems.DeliveryOrder | core/ethfg.c:367-531 | In every interleaving the deliveries of a group, followed by what is queued, are exactly the accepted packets, the previous CPU's before the target's within a migration, each in arrival order, and each delivery is made by the CPU that owns the group at that moment |
| FlowGroupTheorems.DeliveredAtMostOnce | core/ethfg.c:367-531 | No packet is delivered more often than it arrived; arrivals are exactly the delivered, the queued and the lost |
| FlowGroupTheorems.OnlyLoss | core/ethfg.c:470-531 | In every step of either machine, the packets lost are, in order, exactly those taken from the hardware in this step that find their CPU neither owner nor part of the migration, or the owner's queue full, each judged when its turn comes; steps that take none lose none |
| FlowGroupTheorems.AcceptsOnce | inc/kns/ethqueue.h:63-84 | Every other packet joins the accepted packets of its group, once |
| FlowGroupTheorems.RunInv | core/ethfg.c:218-531 | The invariant behind these theorems holds after every sequence of receive, process, assign, timer, early-transition and drain steps |
| FlowGroupMigration.AssignKeeps | core/ethfg.c:218-280 | Starting a migration keeps the invariant: packets move to the remote queue with order and number unchanged |
| FlowGroupMigration.EarlyKeeps | core/ethfg.c:336-351 | The early transition keeps the invariant, whether or not the timer is still running |
| FlowGroupMigration.DrainKeeps | core/ethfg.c:367-435 | The drain keeps the invariant: the migrated groups are owned by the target, and their queues are empty |
| FlowGroupMigration.DrainDelivers | core/ethfg.c:367-435 | The drain delivers, to each migrated group, its remote packets and then its local ones, and nothing to any other group |
| FlowGroupQuirks.StaleBitmap | core/ethfg.c:218-280 | Without clearing the bitmap, a migration starts correctly if and only if no group moves or all stale bits name groups that move |
| FlowGroupStale.DrainUnowns | core/ethfg.c:367-435 | After a drain a group has no owner if and only if its bit was set although it was on its way to nobody, or its bit was clear and it had none before |
| FlowGroupStale.StaleBitUnowns | core/ethfg.c:218-435 | For any two CPUs and any two groups, a run of the code as written, with three assignments and two drains, ends with a group without an owner that no event unassigned |
| FlowGroupStale.StaleBitLoses | core/ethfg.c:218-435 | From any reachable state in which the code's invariants hold and a bit is stale, an assignment that moves other groups only, its timer and its drain leave the group of that bit without an owner, or, if it was on its way between other CPUs, end that migration |
| FlowGroupWritten.AssignSoundIff | core/ethfg.c:218-280 | For the code as written, with both departures, an assignment keeps every invariant, up to what is stale, if and only if no group moves, or all stale bits name groups that move and no call waits on the target |
| FlowGroupWritten.SafeRunDelivers | core/ethfg.c:218-531 | In every run of the code as written with such assignments only, packets are delivered in order, by the owner, and each migration is drained once |
| FlowGroupQuirks.DrainTwice | core/ethfg.c:277-435 | Wherever a call waits on an idle target, moving any group to it can be followed by that call, its drain, the timer and a second drain; the group then has no owner |
| FlowGroupQuirks.CodeDrainsTwice | core/ethfg.c:277-351 | For any two CPUs and any group, a run of ten events of the code as written, which assigns the group to one CPU and moves it to the other and back, ends with one drain more than migrations and the group without an owner, though no event unassigned it |
| FlowGroupCalls.OneCallEach | core/ethfg.c:336-507 | In every run of the intended machine, the early calls that wait on a CPU and those that have run there are together at most its finished migrations, and one more if a packet is parked at the target of the present one; and while one is parked and the timer runs, a call waits |
| FlowGroupCalls.ParkedIsTold | core/ethfg.c:487-507 | Wherever a packet is parked, the sender of its group has a call waiting or its timer is over |
| FlowGroupMachine.Machine.EthRecv | inc/kns/ethqueue.h:63-84 | What becomes of one received packet is the machine's receive step |
| FlowGroupMachine.Machine.HandleTransition | core/ethfg.c:470-531 | The three branches for a group in transition, with the early call when the local queue was empty, are the receive step for packets that the owner does not take |
| FlowGroupMachine.Machine.ProcessPoll | core/ethqueue.c:71-82 | A poll is one receive step per packet, in order |
| FlowGroupMachine.Machine.ProcessRecvQueue | core/ethqueue.c:84-103 | Processing takes the oldest packet of a receive queue, or reports that there is none |
| FlowGroupMachine.Machine.AssignToTarget | core/ethfg.c:218-280 | The two nested loops over devices and group bits, with bitmap and timer set up only if a group moves, are one assign step |
| FlowGroupMachine.Machine.EarlyTransitionHandlerPrev | core/ethfg.c:336-351 | Cancelling the timer, polling and sending the drain is one early-transition step |
| FlowGroupMachine.Machine.TransitionHandlerTarget | core/ethfg.c:367-435 | Settling the groups, then passing up the remote queue, then the local queue, is one drain step |
| MbufQueues.Memory.MigratePktsToRemote | core/ethfg.c:437-456 | Unlinking through a pointer to the previous link leaves the packets of all other groups in order, appends those of the group in order, and neither loses nor doubles a node |
| MbufQueues.Memory.Enqueue | core/ethfg.c:458-468 | Appends one node to a linked queue and changes no other link |
| MbufQueues.Memory.Dequeue | core/ethqueue.c:84-103 | Takes the first node of a linked queue |
| PbufHeap.TotalIsSum | lwip/pbuf.c:686-708 | Where `tot_len == len + next.tot_len` holds everywhere, `tot_len` is the length of the whole chain modulo 2^16 |
| PbufOps.ReleasesPrefix | lwip/pbuf.c:555-635 | `pbuf_free` releases exactly the longest head prefix whose counts reach zero, takes one reference from the pbuf after it, and changes nothing else |
| PbufOps.ReleaseKeeps | lwip/pbuf.c:555-635 | Giving up a held reference leaves every count equal to the links and held references, and every total right: nothing still referenced is released |
| PbufRuns.AllocKeeps | lwip/pbuf.c:142-285 | A successful allocation is a held chain of the length asked for; a failed one changes nothing |
| PbufRuns.AllocFits | lwip/pbuf.c:160-236 | In a new chain the length of every pbuf fits the room behind its payload, the first pbuf's being less by the header; every pbuf with another behind it is full; only an empty allocation has an empty pbuf |
| PbufRuns.BuildReleased | lwip/pbuf.c:189-236 | Freeing a partly built chain gives back all it took |
| PbufChains.RefKeeps | lwip/pbuf.c:664-673 | Counts stay right if and only if the 16-bit count has room |
| PbufChains.CatKeeps | lwip/pbuf.c:686-708 | Counts are kept, and totals stay right if and only if the tail is empty or nothing else shares the head's pbufs |
| PbufChains.ChainedKeeps | lwip/pbuf.c:727-733 | `pbuf_chain` keeps the caller's reference and all counts; totals stay right if and only if the tail is empty or nothing else shares the head's pbufs |
| PbufSharing.SharedTail | lwip/pbuf.c:686-733 | For any four pbufs, a run of allocations and `pbuf_chain` in which two chains share a tail; `pbuf_cat` to one of them then breaks the total of the other |
| PbufChains.DechainKeeps | lwip/pbuf.c:744-772 | Counts are kept, and totals stay right if and only if what followed was empty or nothing links to the head |
| PbufMemory.DechainAnswer | lwip/pbuf.c:744-772 | The result tells truly whether the tail was released, except exactly when a positive multiple of 256 pbufs went |
| PbufChains.ReallocKeeps | lwip/pbuf.c:366-424 | Counts are kept, and totals stay right if and only if nothing is cut or nothing outside links into the kept part |
| PbufRuns.SplitLength | lwip/pbuf.c:909-943 | The front is shorter than 64K, and one pbuf more would reach 64K unless that pbuf is empty |
| PbufRuns.SplitKeeps | lwip/pbuf.c:909-943 | The rest is held in place of the link; the modular totals stay right if and only if the rest is empty or the front is not shared |
| PbufRuns.SplitFrontExact | lwip/pbuf.c:909-943 | Every `tot_len` in the front is the exact length from there to the cut, below 64K, whoever else links into the front |
| PbufRuns.SplitCatRoundTrip | lwip/pbuf.c:686-708 | `pbuf_cat` of the two parts restores every field of every pbuf, but for the FIN flag that the split copied to the rest |
| PbufRuns.RunKeeps | lwip/pbuf.c:142-772 | After every sequence of alloc, ref, free, cat, chain, dechain, realloc and split, counts equal links plus held references and all totals are right |
| PbufRuns.RunCounts | lwip/pbuf.c:142-943 | The same of the counts alone, in every sequence that shares chains in any way, whatever becomes of the totals, as long as callers give up only references that are theirs and trims end within their chains |
| PbufRuns.RunTotalsExact | lwip/pbuf.c:142-772 | In every run, a chain of less than 64K has its exact length in `tot_len` |
| PbufMemory.Memory.Free | lwip/pbuf.c:555-635 | The loop computes the recursive release and counts the released pbufs in 8 bits |
| PbufMemory.Memory.AllocPool | lwip/pbuf.c:160-236 | The loop that takes pool pbufs one by one, and frees them when the pool runs out, computes the specified chain or leaves the heap as it was |
| PbufMemory.Memory.CatInto | lwip/pbuf.c:686-708 | The walk computes the specified join |
| PbufMemory.Memory.DechainHead | lwip/pbuf.c:744-772 | The assignments and the call to `pbuf_free` compute the specified cut and its result |
| PbufMemory.Memory.Shrink | lwip/pbuf.c:366-424 | The walk that adjusts totals and cuts the chain computes the specified trim |
| PbufMemory.Memory.Split64k | lwip/pbuf.c:909-943 | The two loops compute the specified split and its rest |
| PbufData.ReallocView | lwip/pbuf.c:366-424 | A trimmed chain shows exactly the first `new_len` bytes |
| PbufData.CatView | lwip/pbuf.c:686-708 | A joined chain shows the bytes of the first and then of the second |
| PbufData.CopyPartial | lwip/pbuf.c:859-894 | The result is the requested part of the byte view, for every segmentation, length and offset |
| PbufData.Take | lwip/pbuf.c:957-986 | If the data fits, the view starts with it and goes on as before, and only payload bytes of the chain change; otherwise nothing changes |
| PbufData.TakeAndCopy | lwip/pbuf.c:859-986 | What `pbuf_take` wrote to a chain, `pbuf_copy_partial` reads back from it, however it is cut into pbufs; it fails exactly when the data is longer than the chain |
| PbufTransfer.Copy | lwip/pbuf.c:793-845 | Terminates; success means that the target's first bytes are the source's whole view, for any two segmentations; between single packets of non-empty pbufs it succeeds if the target is large enough and is otherwise refused with nothing written; every other refusal means a target that ends first, or a packet queue in one of the chains |
| PbufTransfer.PacketOf | lwip/pbuf.c:793-845 | Chains of non-empty pbufs with right totals and less than 64K meet what `Copy` needs to succeed |
| PbufTransfer.Coalesce | lwip/pbuf.c:1001-1018 | The result is one pbuf with all the bytes, the old chain given up; or the old chain if it is one pbuf or there is no memory |
| PbufTransfer.CoalesceKeeps | lwip/pbuf.c:1001-1018 | The new pbuf shows the same bytes and is held in place of the old chain, with counts and totals right |
| RefusedData.ProcessRefusedData | net/tcp.c:1209-1267 | For every sequence of answers: the bytes given followed by those kept are the original bytes; one part of less than 64K is given for each answer that takes it and for the one that aborts, and the loop ends at the first answer that does not take; a FIN of the first pbuf is reported when all is taken, and a close is reported only when all is taken and some pbuf had a FIN |
| Mempools.RunConserves | core/mempool.c:42-107 | In every run over several pools, each slot stays in exactly one of: handed out, a head list, a private chunk, a datastore chunk |
| Mempools.AllocTakes | core/mempool.c:42-79 | An allocation hands out the pool's next slot, from the head list or then the private chunk, and only when the pool has none the first of the datastore's first chunk, which becomes the pool's; it fails if and only if there is neither |
| Mempools.FreeThenAlloc | inc/kns/mempool.h:131-163 | The slot given back last is the first to be handed out again |
| Mempools.FreeGivesBack | core/mempool.c:87-107 | Where chunks are exact, a pool keeps up to two of them, and a free gives one back to the datastore if and only if the pool holds two |
| Mempools.RunExact | core/mempool.c:42-107 | With `num_free` counting the list, every private and datastore chunk has exactly `chunk_size` slots and `free_chunks` is the number of chunks, in every run |
| Mempools.ExactIff | core/mempool.c:42-107 | For the code as written that holds of all runs if and only if `chunk_size` is 1 or there are no more chunks than `chunk_size` |
| Mempools.OversizedChunk | core/mempool.c:87-107 | The run behind the "only if": a private chunk of `chunk_size + (chunk_size + 1) * (chunk_size - 1)` slots |
| MempoolLists.Memory.Alloc | inc/kns/mempool.h:131-142 | On memory words, allocation takes the slot that the state machine takes and relinks the lists accordingly |
| MempoolLists.FreeShown | core/mempool.c:87-107 | The words that the two frees write show exactly the lists of the state machine after the free |
| MempoolLists.Memory.Free | inc/kns/mempool.h:151-163 | On memory words, the two frees leave exactly the lists of the state machine after the free |
| MempoolMemory.Datastore.InitBuf | core/mempool.c:115-152 | For every element size, page count and chunk size, carving zeroed pages counts `floor(pages * elems_per_page / chunk_size)` chunks; memory shows them as linked chunks of `chunk_size` slots unless headers overlap |
| MempoolMemory.SlotsSpaced | core/mempool.c:115-152 | For every element size, page count and mode, slots are pairwise disjoint |
| MempoolMemory.NoStraddle | core/mempool.c:171-230 | In the no-straddle mode no slot crosses a 2MB page |
| MempoolMemory.StraddleInside | core/mempool.c:171-230 | In the other mode all slots lie inside the allocated pages |
| MempoolMemory.EnoughSlots | core/mempool.c:154-230 | The chunks carved from the pages asked for hold at least `nr_elems` slots |
| MempoolMemory.HeadersOverlap | core/mempool.c:171-230 | Headers of neighbouring slots overlap if and only if elements have at most 8 bytes |
| MempoolMemory.NoElemsPerPage | core/mempool.c:185-190 | The divisor `elems_per_page` is zero if and only if the element does not fit a 2MB page behind the offset |
| MempoolOverlap.OverlapIff | core/mempool.c:115-152 | Where headers overlap, the chunks come out as lists if and only if there are none, or one of two slots, or at most two of one slot |
| MempoolOverlap.DenseSlots | core/mempool.c:171-230 | Elements of at most 8 bytes fill their pages without a gap, in either mode |
| MempoolMemory.CarvedExact | core/mempool.c:115-152 | Each carved chunk has `chunk_size` slots and no slot is in two chunks |
| MempoolLists.FreshShown | core/mempool.c:243-266 | Fresh pools over a carved datastore are a state from which the theorems about runs start |
| Vlan.SetVftaRefines | ixgbe/ixgbe_common.c:3680-3844 | On good tables, a call in VT mode adds or removes exactly one (VLAN, pool) pair and keeps the tables good; it fails for lack of space exactly when every slot is taken by another VLAN, and a failure changes nothing |
| Vlan.FilterMeansUsed | ixgbe/ixgbe_common.c:3680-3844 | A VFTA bit is set if and only if some pool uses the VLAN |
| Vlan.TablesAreTheSet | ixgbe/ixgbe_common.c:3632-3868 | From cleared tables, after every sequence of calls the tables are the set of pairs that the calls describe |
| Vlan.FilterOnly | ixgbe/ixgbe_common.c:3680-3736 | Without VT mode exactly the one filter bit changes |
| Vlan.Device.FindSlot | ixgbe/ixgbe_common.c:3632-3669 | The one-pass search finds the VLAN's slot, else the first empty one |
| Vlan.Device.Set | ixgbe/ixgbe_common.c:3680-3736 | The reads and writes of VFTA around `ixgbe_set_vlvf_generic` compute the specified tables |
| Vlan.Device.SetVlvf | ixgbe/ixgbe_common.c:3749-3844 | The reads and writes of VLVF and VLVFB compute the specified slot, and the VFTA change is withheld while other pools use the VLAN |
| Vlan.Device.Clear | ixgbe/ixgbe_common.c:3852-3868 | Clearing yields good, empty tables |
| Vlan.VlanIsBit | ixgbe/ixgbe_common.c:3698-3709 | The 128 filter registers are one string of bits, in which each VLAN is the bit of its number |
| Vlan.PoolIsBit | ixgbe/ixgbe_common.c:3771-3814 | The two pool registers of a slot are 64 bits, in which each pool is the bit of its number |
| Rar.ClearRarClears | ixgbe/ixgbe_common.c:2262-2290 | Clearing an address register leaves MPSAR zero and the register invalid with a zero address |
| Rar.ClearVmdqClears | ixgbe/ixgbe_common.c:3506-3547 | Clearing pools leaves exactly the others and clears the register when the last one goes, except register 0 |
| Rar.Device.ClearPools | ixgbe/ixgbe_common.c:3506-3547 | With its partner below: the mutual recursion terminates, as the first call empties MPSAR, and touches one register only |
| Rar.Device.ClearAddress | ixgbe/ixgbe_common.c:2262-2290 | See above |
| Rar.InsertKeeps | ixgbe/ixgbe_common.c:3440-3498 | Insertion of a non-zero address keeps the valid addresses distinct and below `rar_highwater` in any case; `rar_highwater` stays within the registers if and only if the address is present or the registers are not full, and otherwise no register changes |
| Rar.InsertApart | ixgbe/ixgbe_common.c:3440-3498 | Different addresses never get the same register |
| Rar.InsertAgain | ixgbe/ixgbe_common.c:3440-3498 | Inserting an address again uses the same register and only adds the pool bit |
| Rar.RunKeeps | ixgbe/ixgbe_common.c:2212-3578 | In every sequence of insertions with room and of clearings, valid addresses stay distinct, and a register above 0 is valid if and only if it has pools |
| Rar.Device.InsertAddress | ixgbe/ixgbe_common.c:3440-3498 | The search and the register writes compute the specified insertion |
| Rar.InsertUses | ixgbe/ixgbe_common.c:3440-3498 | An address goes to the register that has it, or else to the first one that is not valid |
| Rar.GetMac | ixgbe/ixgbe_common.c:906-924 | Reading the address back, the lowest byte first, gives the bytes that were written |
| Semaphore.MutualExclusion | ixgbe/ixgbe_common.c:3033-3097 | With any number of agents and firmware, in every run that takes neither of the two ways in which the lock is lost, no two agents hold the same bit and none holds a bit that firmware holds |
| Semaphore.ExclusionIff | ixgbe/ixgbe_common.c:3033-3097 | For two or more agents and any choice of the two ways that may be taken, all runs keep exclusion among agents if and only if neither may |
| Semaphore.FirmwareBitClear | ixgbe/ixgbe_common.c:3033-3073 | While an agent holds a bit, the firmware's bit for it is not set in GSSR |
| Semaphore.TimeoutBreaksExclusion | ixgbe/ixgbe_common.c:1744-1764 | A run that loses the lock only by the timeout of the SMBI loop, after which two agents hold the same bit |
| Semaphore.UnlockedReleaseBreaksExclusion | ixgbe/ixgbe_common.c:3083-3097 | A run without that timeout, in which a release goes on after its SWESMBI loop failed, and after which two agents hold the same bit |
| Semaphore.WaiterAcquires | ixgbe/ixgbe_common.c:3033-3073 | For any number of looks, a run without losses in which one agent finds the bit taken that often, goes on trying, and has it once the other has released it: it starts once and gives up nowhere |
| Semaphore.AskerAcquires | ixgbe/ixgbe_common.c:1769-1801 | The same of an agent whose request firmware holds up any number of times |
| Semaphore.AcquireEnds | ixgbe/ixgbe_common.c:3033-3073 | In every run, with losses of any kind, an acquire that gives up in no loop ends only with its bits |
| Semaphore.ReleaseEnds | ixgbe/ixgbe_common.c:3083-3097 | A release ends only without its bits, whether or not it gives up in its loops |
| Semaphore.AcquireLooksInside | ixgbe/ixgbe_common.c:1720-1822 | In every run, with losses of any kind, an acquire looks at GSSR only after its request was granted, goes on to write only if its bits are clear there, and changes what is held in no other way |
| Toeplitz.FastIsSerial | core/toeplitz.c:69-111 | For messages of every length, the exclusive or of the table entries is the bit-serial hash under the replicated key |
| Toeplitz.RawIsSerial | inc/kns/toeplitz.h:45-66 | The twelve lookups of an address and port pair are that hash of its twelve bytes |
| Toeplitz.Symmetric | inc/kns/toeplitz.h:45-66 | Both directions of a flow get the same hash |
| Toeplitz.CacheCreate | core/toeplitz.c:69-111 | The nested loops fill the table with the byte results |
| Toeplitz.GetKey | core/toeplitz.c:131-139 | The key repeats its seeds |
| Toeplitz.KeySpells | core/toeplitz.c:69-139 | The key bits are the seed bytes in turn, each from its most significant bit |
| Toeplitz.MessageSpells | core/toeplitz.c:69-111 | The bits that the serial hash reads are the bytes of the message in turn, each from its most significant bit |
| Toeplitz.MessageReads | inc/kns/toeplitz.h:45-66 | The twelve bytes are the addresses and ports as a little-endian machine stores them |
| AtrHash.ComputeHash | ixgbe/ixgbe_fdir.c:262-299 | The loops, which add the terms from the top key bits down and fold the stream two dwords at a time, compute the sum of all terms in key order, for every input and key |
| AtrStream.HashByDefinition | ixgbe/ixgbe_fdir.c:217-260 | Each bit of that sum is the exclusive or of the products of stream bits and key bits: for addresses and ports S[n] with K[n + 16], and the two products of the dword where the stream wraps |
| AtrHash.ComputeSigHash | ixgbe/ixgbe_82599.c:1370-1453 | For every input and every pair of keys, the unrolled hash with its shared accumulator is the generic hash once per key, packed as two 15-bit fields |
| AtrHash.SigHash | ixgbe/ixgbe_fdir.c:307-330 | The signature is the low half of one generic hash, and the bucket the other modulo 2^15, 2^14 or 2^13, by filter size |
| AtrHash.SigFormsAgree | ixgbe/ixgbe_82599.c:1444-1453 | In the 256K form the two drivers' signature hashes agree on both fields |
| AtrHash.PerfectHashInPlace | ixgbe/ixgbe_82599.c:1508-1601 | The input is masked in place, and its last two bytes become the generic hash of the masked input cut to 13 bits; the rest is kept |
| AtrHash.PerfectHash | ixgbe/ixgbe_fdir.c:664-680 | The generic hash modulo 2^13, 2^12 or 2^11, by filter size |
| AtrHash.NtohlValue | ixgbe/ixgbe_fdir.c:262-299 | The byte that is first in memory becomes the most significant |
| AtrHash.ReverseMasks | ixgbe/ixgbe_fdir.c:555-564 | Four masked swaps reverse both 16-bit halves |
| AtrHash.ReversedSpells | ixgbe/ixgbe_fdir.c:555-564 | Each half, read from its other end, is the number that it was made of |
| AtrHash.ReversedTwice | ixgbe/ixgbe_82599.c:1612-1621 | Reversing twice gives the masks back |
| Reta.UpdateEntry | ixgbe/ixgbe.c:1597-1636 | What an update makes of each of the 128 entries, for every table and mask: the low byte of its value if it is masked, or what it was, plus what the value before it in the register spills |
| Reta.UpdateExact | ixgbe/ixgbe.c:1597-1636 | An update changes exactly the masked entries, to the low bytes of their values, if and only if the high bits of every masked value are shifted out, or cleared with the next entry, or already set there |
| Reta.RoundTrip | ixgbe/ixgbe.c:1597-1670 | A query with the same mask returns what was written if and only if all masked values are below 256 |
| Reta.Device.Update | ixgbe/ixgbe.c:1597-1636 | The loops over registers and bytes compute the specified update |
| Reta.Device.Fill | ixgbe/ixgbe_rxtx.c:715-722 | The initial fill sets entry i to the low byte of i modulo the queue count |
| Reta.LowByteIs | ixgbe/ixgbe_rxtx.c:715-722 | The bits stored for a queue are those of its number modulo 256 |
| Reta.MaskedIsBit | ixgbe/ixgbe.c:1608-1613 | Entry `e` is masked by bit `e` of the 128, `mask_hi` above `mask_lo` |
| RingIndex.SlotWraps | ixgbe/ixgbe_rxtx.c:337-420 | For every power-of-two length, the 16-bit wrap of an index does not change its slot |
| TxRing.ReclaimKeeps | ixgbe/ixgbe_rxtx.c:337-364 | Reclaim never passes `tail`, keeps room for one descriptor, and returns exactly the free count |
| TxRing.ReclaimPending | ixgbe/ixgbe_rxtx.c:337-364 | The mbufs completed are the oldest pending ones, up to the first unfinished one, each once, in ring order |
| TxRing.PostKeeps | ixgbe/ixgbe_rxtx.c:422-493 | Posting adds one mbuf behind all others and keeps the ring good |
| TxRing.RoomMeans | ixgbe/ixgbe_rxtx.c:371-420 | The wrapping room test is the test that the descriptors fit |
| TxRing.PostsIff | ixgbe/ixgbe_rxtx.c:371-493 | A call uses exactly its descriptors if and only if they fit at once or after a reclaim, which is tried only if they do not |
| TxRing.StepInv | ixgbe/ixgbe_rxtx.c:337-537 | After every event, `(tail - head) mod 2^16 <= len - 1`, and the posted mbufs are the completed ones followed by the pending ones |
| TxRing.StepAccounts | ixgbe/ixgbe_rxtx.c:337-537 | Over every event, the mbufs pending before and those posted are exactly those completed, dropped or pending after; a reset completes none and drops all that are pending, and nothing else drops any |
| TxRing.Queue.ReclaimDone | ixgbe/ixgbe_rxtx.c:337-364 | The loop computes the specified reclaim, its completed mbufs and its result |
| TxRing.Queue.XmitContext | ixgbe/ixgbe_rxtx.c:371-420 | A context descriptor is posted if there is room, at once or after a reclaim |
| TxRing.Queue.ResetQueue | ixgbe/ixgbe_rxtx.c:526-537 | Reset empties the ring |
| RxRing.PollKeeps | ixgbe/ixgbe_rxtx.c:122-207 | If the hardware completes only descriptors before `tail`, a poll takes the oldest mbufs in order and puts as many new ones behind, every slot holds exactly one mbuf, and fewer than 32 descriptors stay unreturned |
| RxRing.RunInOrder | ixgbe/ixgbe_rxtx.c:122-207 | In every run, mbufs are taken once each, in the order in which they were put on the ring |
| RxRing.RunFromFill | ixgbe/ixgbe_rxtx.c:83-207 | That is so of every run from a cleared queue that was filled, with the mbufs of the fill as the first |
| RxRing.TailMoves | ixgbe/ixgbe_rxtx.c:196-205 | A poll moves `tail` if and only if 32 or more descriptors are held back after it |
| RxRing.ShortRingStarves | ixgbe/ixgbe_rxtx.c:196-205 | From a good ring some poll can move `tail` if and only if the ring has more than 32 descriptors |
| RxRing.Queue.PollQueue | ixgbe/ixgbe_rxtx.c:122-207 | The loop stops at the first descriptor that is not done or has no new mbuf, and passes up or frees each received mbuf once, in order |
| RxRing.Queue.Clear | ixgbe/ixgbe_rxtx.c:83-96 | Every mbuf on the ring is freed, as often as it is there |
| RxRing.Queue.Fill | ixgbe/ixgbe_rxtx.c:98-120 | All slots are filled, or all that was allocated is freed again, and its entries stay |
| TcpTimers.SlowTimer | net/tcp.c:919-1061 | The restarting loop terminates for every behaviour of the callbacks; the state changes by nothing but the stamps and removals of the PCBs handled and by their callbacks; a PCB leaves the list when it is handled if and only if it has timed out; the PCBs handled are, once each, exactly those it came to whose stamp was old, and it comes only to PCBs that were on the list at the start or that a callback left there; no active PCB with an old stamp is left; if callbacks do not change the list, it comes to exactly the PCBs that were active, and leaves all but those that timed out, in order |
| TcpTimers.FastTimer | net/tcp.c:1174-1205 | The same of the fast timer, which removes none |
| TcpTimers.CallbackShrinks | net/tcp.c:1492 | As new PCBs are stamped, callbacks cannot change which PCBs are still to be handled |
| TcpTimers.DueNextTick | net/tcp.c:919-934 | With a counter that counts, a PCB that was handled in one tick, or allocated since, is due in the next |
| TcpTimers.DueIsHandled | net/tcp.c:919-934 | A PCB that was due and is still active after a tick was handled in it |
| TcpTimers.HandledIff | net/tcp.c:919-1205 | For the code as written, in every run of ticks and whatever runs between them, a PCB is handled if and only if it was allocated before the first tick and some tick comes to it, and then once |

## Left out

- Register plumbing, PHY, I2C, LEDs, link setup, resets, mailboxes and delays: no state that a model could constrain.
- EEPROM access by bit-banging and PBA handling: need a device model.
- DCB credits, packet-buffer sizing, averages, statistics and power metrics: would only add easy members.
- net/arp.c and net/ip.c: too far from their intent, or plumbing.
- `migrate_fdir` and the migration of timers in core/ethfg.c: unfinished in the source.
- core/page.c, core/ring.c, core/mem.c, core/uio.c and user/: stubs or wrappers.
- `pbuf_header`, `pbuf_get_at`, `pbuf_memcmp`, `pbuf_memfind`, custom pbufs and the mbuf pointer of a pbuf.
- PbufMemory.Memory.Shrink: `mem_trim` may move a RAM pbuf, which the model does not do; it frees no other pbuf.
- PbufRuns.AllocKeeps: a fresh payload reads as zeros; ROM, REF and RAM pbufs are the single-pbuf case.
- PbufTransfer.Copy: the two chains are disjoint, as an overlapping `MEMCPY` is undefined; success for chains with empty pbufs or packet queues is not claimed, though what success means is.
- RefusedData.ProcessRefusedData: the answers are given in advance, one for each pbuf, as at most that many are asked for; the callback may keep or free its part but not touch the rest; the `TCP_EVENT_CLOSED` result `ERR_ABRT` is left out.
- Mempools.RunExact: is about the intent; `ExactIff` says when the code meets it.
- MempoolMemory.Datastore.InitBuf: `elem_len` above 2MB, which divides by zero, is outside; allocation and free on overlapping headers are not modelled.
- Vlan.SetVftaRefines: pool numbers are below 64, as the hardware has 64; larger ones shift out of the word in C.
- Rar.InsertKeeps: the zero address is outside, as the registers use it for "empty".
- Semaphore.MutualExclusion: polling limits are left open, so that a loop may give up at any round; agents release only what they hold, and firmware keeps to the protocol.
- TxRing.PostKeeps: the function that posts packets is commented out in the source; posting is modelled from that text, as otherwise no mbuf would ever be on the ring.
- TxRing.StepInv: packets have fewer than 60000 parts, so that the 16-bit room test cannot wrap; mbufs never reach a tenth of that.
- RxRing.PollKeeps: assumes hardware that completes only descriptors it was given, and allocated mbufs that are nowhere on the ring.
- TcpTimers.SlowTimer: what happens to a PCB is reduced to "stamped, perhaps removed, callbacks called"; callbacks may allocate, activate and remove any PCBs; the list of TIME-WAIT PCBs, which no callback changes, is left out.
- FlowGroupTheorems.MigrationSafety: that steps are atomic is an assumption, as the previous CPU appends to the remote queue that the target drains (core/ethfg.c:442 and 486) without a lock; `struct queue` is used through its head and tail.
- Sanity checks, checksums, IPv6, debug printing and the contents of callbacks.
