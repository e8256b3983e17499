# Verification of the cache and memory simulators

Dafny models of four parts of the repository, and proofs about them.

* **The bus-based coherence simulator** (`cache_coherence_protocols_research_PARSEC_benchmarks/main`): an event heap,
  a bus with an arbiter, and cores that replay traces under MESI, MESI with clean-first eviction (SMART), MESIF, MOESI
  or Dragon. Requests are decided when an access is fetched and served when the bus is granted, so a queued upgrade
  may be stale. `Simulation` is the transition system (any of the events that tie in time and priority may fire next),
  `Protocols` and `CacheSets` are the protocols and sets on values; `Tokens`, `Safety`, `Counters`, `Timing`,
  `Progress`, `Ownership`, `Fairness` and `DragonLru` are the invariants, and `Runs` states the results over all runs:
  any number of cores, any traces, any geometry, any tie-break. `CacheSetObjects`, `ProtocolObject` and
  `SimulatorObject` are the classes that update lists, maps, counters and the heap in place; each method is proved
  equal to its value function, and the run loop is proved to produce a run. `Tables` writes the transition tables out by
  name of state and in numbers, and `RunTables` shows that every step of every run follows them; `Lines` (the life of a
  line between transactions), `TouchOrder` (the order of the lists) and `Acquisitions` (which stores make a block dirty)
  are laws over runs that rest on them. `Witness`, `UpgradeWaits` and `Starvation` construct runs in which laws fail,
  step by step (`Overtaking`); `Waiting` is the exact bound on waiting.
* **The set-associative cache of SimpleScalar** (`cache.c`). `SetAssoc` is the plain cache: sets are lists of lines.
  `LineOrder`, `CacheRuns`, `CacheCounters` and `CacheCalls` prove what every run of it keeps. `CacheBlocks` is one
  set as linked blocks (way list and hash chains), `CacheObject` the whole cache with its one-entry shortcut, refining
  the plain cache; `CacheSteps` relates the two. `CacheResidents` says which blocks an operation leaves resident, and
  `RandomFill` what the random index means.
* **The page table of SimpleScalar** (`memory.c`, `memory.h`). `PagedMemory` is the table with its bucket lists, its
  move-to-front and its pages; `FlatMemory` the 32-bit byte map it implements.
* **Printing and parsing of numbers** (`misc.c`). `Misc` holds the digit loops with their casts and overflow flag;
  `Decimal` says on integers what they compute, and that printing and parsing undo each other; `Radix` says what is
  read and printed from the literal digit strings, in every base.

The protocols share one transition table in `Protocols`, with a case per protocol where the five header files differ:
`mesi_protocol.h`, `mesi_smart.h`, `mesif_protocol.h`, `moesi_protocol.h` and `dragon_protocol.h`.

`dafny verify dfyconfig.toml` checks the project.

## Findings

What the code does not keep, each with an input or a run that shows it and the exact condition.

* **Null shortcut on block 0.** `cache.c` records "no last block" as tag-set 0, which is also the tag-set of block 0.
  `CacheObject.SetAssocCache.Access` faults if and only if block 0 is requested while no block is remembered;
  `CacheObject.FirstAccessToZero` is the shortest instance.
* **Exceeded capacity.** A snooped line stays resident in state Invalid, and a fill over it pushes its tag a second
  time. When the stale copy is later evicted, no line leaves the set. `CacheSets.AllocateCapacity` and
  `CacheSets.AllocateExactIff` give the conditions that the allocator could test; `Witness.CapacityExceeded` is a run
  that ends with three lines in a two-way set. Dragon never invalidates, and `Runs.DragonRecency` shows that its sets
  stay exact.
* **Uncounted clean.** In MESI, SMART and MESIF a read of a dirty block makes its owner clean without counting a
  writeback. `Runs.OwnershipExact` says that ownership is conserved exactly in the runs without such a read;
  `Witness.OwnerCleaned` is a run with one.
* **Wrapping span test.** `cache_access` compares two 32-bit sums. `CacheSteps.SpanCheckExact` says when the
  comparison is right; `CacheSteps.SpanCheckRejects` and `CacheSteps.SpanCheckAdmits` are inputs of either kind where
  it is wrong. The comment above the test has a form that is always right: `CacheSteps.CommentedTestExact`.
* **Range error for the least value.** `myatosq` compares the magnitude with the greatest value, so the numeral of the
  least value is reported as out of range although the value returned is exact: `Decimal.SignedRoundTrip`.
* **Wait under read priority.** `Waiting.WaitBoundExact` says that fewer than `cores` grants precede the one a request
  waits for exactly in the machines without read priority or with at most two cores. `UpgradeWaits.UpgradePassed` is
  the run that shows it of every other machine, and `Starvation.WriteStarves` a machine in which no number of grants
  bounds the wait of a write. Reads meet the bound in every machine: `Runs.FcfsBound`.

## Model

| member | source | states |
|---|---|---|
| `SimulatorObject.Simulator.Run` | cache_coherence_protocols_research_PARSEC_benchmarks/main/coherence_simulator.cpp:294-314 | The run loop over the mutable heap, queue, flags, traces and caches performs a run of the transition system and returns, after at most 5 events per trace entry plus one per core, with every trace fetched to its end, no core blocked, the bus free and the queue empty; loads, stores and compute cycles of each core are those of its whole trace, and its hits and misses add up to them. Every `Runs`, `RunTables`, `Lines`, `TouchOrder` and `Acquisitions` theorem therefore holds of it. |
| `Runs.SingleWriter` | cache_coherence_protocols_research_PARSEC_benchmarks/main/moesi_protocol.h:87-179 | In every state of every run of all five protocols, stale queued upgrades included, an exclusive or modified copy is the only valid copy of its block; at most one core holds a block as forwarder, as owner, or dirty in any state; no line leaves the states of its protocol. |
| `Runs.QueuedRequestsMatch` | cache_coherence_protocols_research_PARSEC_benchmarks/main/mesi_protocol.h:113-174 | Only the three bus requests are ever queued; a queued upgrade still finds its entry in the requester's cache, however long it waits; a queued read or write miss finds its line absent or Invalid. Dragon never queues a BUS_RDX, and the line of a Dragon read is absent. |
| `RunTables.GrantStates` | cache_coherence_protocols_research_PARSEC_benchmarks/main/mesif_protocol.h:115-205 | In every run, the states a grant leaves, by name, for each protocol: a read fills Exclusive if no other core held the block, and otherwise Shared (MESI, SMART, MOESI), Forward (MESIF) or shared-clean (Dragon); the readers before keep it Shared, in MOESI Owned if it was dirty, in Dragon shared-clean or shared-modified; a write miss or an upgrade leaves the requester Modified and every other core Invalid, but a Dragon update leaves shared-modified and shared-clean lines. |
| `RunTables.GrantKeeps` | cache_coherence_protocols_research_PARSEC_benchmarks/main/mesi_protocol.h:138-173 | In a grant every other line of every core keeps its state, except the one that makes room in the full set of the requester: the back of its list, or in SMART the rearmost entry that is not Modified, if there is one. |
| `RunTables.GrantCosts` | cache_coherence_protocols_research_PARSEC_benchmarks/main/moesi_protocol.h:106-179 | What a grant costs, in numbers: 1 + 2 cycles per word from a cache that holds the block in a supplying state (MESIF: Modified, Exclusive, Forward; MOESI: Modified, Exclusive, Owned; else any), 101 from memory, 100 more for a dirty victim, 0 for an upgrade and 2 for a Dragon update; what each global counter gains, what each core sends and receives; and that release and unblock are due at its end. |
| `RunTables.AccessStates` | cache_coherence_protocols_research_PARSEC_benchmarks/main/mesi_protocol.h:90-111 | In every run an access changes no line but the one it names, and that only by a store to an Exclusive or Modified line, which leaves it Modified. |
| `RunTables.AccessCosts` | cache_coherence_protocols_research_PARSEC_benchmarks/main/coherence_simulator.cpp:256-283 | Which accesses hit, and what the others ask of the bus, by name of state; one load or store, one hit or miss, and a private hit exactly if the line is left Exclusive or Modified; a hit fetches again one cycle later, a miss blocks the core, queues its request and arbitrates if the bus is free. |
| `RunTables.FiresInOrder` | cache_coherence_protocols_research_PARSEC_benchmarks/main/coherence_simulator.cpp:51-56 | Every event fired is due no later than any other; of those due at one time releases come before arbitrations, these before unblocks and these before fetches; the clock is set to its time. |
| `RunTables.ArbitrationGrants` | cache_coherence_protocols_research_PARSEC_benchmarks/main/coherence_simulator.cpp:190-207 | An arbitration of a free bus takes a waiting request off the queue. |
| `RunTables.OtherSteps` | cache_coherence_protocols_research_PARSEC_benchmarks/main/coherence_simulator.cpp:177-247 | The whole next state after a release, an unblock, an arbitration with nothing to do, and the end of a trace; a fetch is never fired for a blocked core. |
| `RunTables.ComputeSteps` | cache_coherence_protocols_research_PARSEC_benchmarks/main/coherence_simulator.cpp:249-255 | The whole next state after a compute entry. |
| `RunTables.RunStarts` | cache_coherence_protocols_research_PARSEC_benchmarks/main/coherence_simulator.cpp:294-300 | The state before the first event: one fetch per core due at zero, an idle bus, no line resident, all counters zero. |
| `RunTables.TraceCounted` | cache_coherence_protocols_research_PARSEC_benchmarks/main/coherence_simulator.cpp:240-258 | In every state what a core has fetched is a prefix of its trace, and its loads, stores and compute cycles are the sums over that prefix; an exhausted core has fetched the whole trace. |
| `Lines.LinePersists` | cache_coherence_protocols_research_PARSEC_benchmarks/main/moesi_protocol.h:87-179 | In every run, between transactions on its block a line of any core changes only by making room in a fill of its own core, which leaves it Invalid, and from Exclusive by a store of its own core, which leaves it Modified: its state at any later step is given by which of these happened. |
| `Lines.ForwarderIsLastReader` | cache_coherence_protocols_research_PARSEC_benchmarks/main/mesif_protocol.h:189-198 | MESIF: the core that last filled a block by a read while another core held it is in Forward until the next transaction on the block, unless its own fill evicted the line, which is then Invalid. |
| `Runs.RunNeverFaults` | cache_coherence_protocols_research_PARSEC_benchmarks/main/mesi_protocol.h:138-173 | No enabled event of a reachable state dereferences a missing line or evicts from an empty list. |
| `Runs.RunNeverStuck` | cache_coherence_protocols_research_PARSEC_benchmarks/main/coherence_simulator.cpp:286-314 | In every reachable state the simulation is finished or an event is enabled: the heap never runs dry with a core still waiting. |
| `Runs.RunTerminates` | cache_coherence_protocols_research_PARSEC_benchmarks/main/coherence_simulator.cpp:294-314 | No run, under any tie-break, fires more than 5 events per trace entry plus one per core. |
| `Runs.OneTokenPerCore` | cache_coherence_protocols_research_PARSEC_benchmarks/main/coherence_simulator.cpp:230-284 | Each core is in exactly one of four phases (fetch pending, request queued, unblock pending, trace exhausted), has no second event or request, and is blocked exactly in the middle two. |
| `Runs.BusWorkConserving` | cache_coherence_protocols_research_PARSEC_benchmarks/main/coherence_simulator.cpp:177-228 | The bus is held exactly while a single release is pending, with an unblock due at the same time; a free bus with waiters has an arbitration due now, so the next step does not move the clock and is neither an unblock nor a fetch; the clock never goes back. |
| `Runs.GrantsFirst` | cache_coherence_protocols_research_PARSEC_benchmarks/main/coherence_simulator.cpp:193-206 | A step of a run that grants never passes over a waiting request with a strictly earlier arrival, except a read over a non-read under read priority; equal arrivals go to the lower core, under read priority among reads and among non-reads. |
| `Runs.FcfsBound` | cache_coherence_protocols_research_PARSEC_benchmarks/main/coherence_simulator.cpp:190-206 | Once the clock has passed the arrival of a waiting request, every grant moves it exactly one place forward and fewer than `cores` grants precede its own. This holds of every request without read priority and of every BUS_RD with it. |
| `Waiting.WaitBoundExact` | cache_coherence_protocols_research_PARSEC_benchmarks/main/coherence_simulator.cpp:190-206 | For every machine: in all its runs every request whose arrival the clock has passed waits for fewer than `cores` grants to others, if and only if reads have no priority or there are at most two cores; and where that bound holds, so does the sharper one of at most `cores - 2` (none for one core). |
| `UpgradeWaits.UpgradePassed` | cache_coherence_protocols_research_PARSEC_benchmarks/main/coherence_simulator.cpp:193-206 | In every machine with read priority and at least three cores, whatever its geometry and protocol, a run built event by event from the start state in which an upgrade, its arrival passed by the clock, waits for as many grants to others as there are cores. |
| `Starvation.WriteStarves` | cache_coherence_protocols_research_PARSEC_benchmarks/main/coherence_simulator.cpp:193-206 | On one three-core machine with read priority, under every protocol but Dragon, there is no bound at all: for every n a run in which a write miss, its arrival passed by the clock, waits for n grants to others. |
| `Runs.OwnershipConserved` | cache_coherence_protocols_research_PARSEC_benchmarks/main/mesi_protocol.h:113-174 | Over every run of every protocol: times a block became dirty = counted writebacks + dirty owners cleaned by a read + blocks dirty now. |
| `Runs.OwnersNeverCleaned` | cache_coherence_protocols_research_PARSEC_benchmarks/main/moesi_protocol.h:106-179 | In MOESI and Dragon: times a block became dirty = counted writebacks + blocks dirty now, so no dirty line is silently dropped or overwritten. |
| `Runs.OwnershipExact` | cache_coherence_protocols_research_PARSEC_benchmarks/main/mesi_protocol.h:129-133 | The two-term law holds of a run, for any protocol, if and only if no grant of the run was a read of a block that another core held dirty. |
| `Acquisitions.EntriesAreStores` | cache_coherence_protocols_research_PARSEC_benchmarks/main/moesi_protocol.h:87-104 | The entry side of that law, over every run: the times a block became dirty are the stores completed on a block that no core held dirty, counted from the events and the trace: write hits on an Exclusive line, and granted write misses and upgrades (a Dragon write miss asks for a read and is not one). |
| `Acquisitions.StoresAccounted` | cache_coherence_protocols_research_PARSEC_benchmarks/main/mesi_protocol.h:90-174 | Those stores = counted writebacks + dirty owners cleaned by a read + blocks dirty now. |
| `Witness.OwnerCleaned` | cache_coherence_protocols_research_PARSEC_benchmarks/main/mesi_protocol.h:129-133 | A two-core MESI run, constructed event by event from the start state, in which the two-term law fails. |
| `Runs.SmartWritesBackLast` | cache_coherence_protocols_research_PARSEC_benchmarks/main/mesi_smart.h:43-78 | In every SMART run, a step that counts a writeback evicts from a full set all of whose resident lines are Modified. |
| `CacheSets.SmartEvictsDirtyOnlyIfAllDirty` | cache_coherence_protocols_research_PARSEC_benchmarks/main/mesi_smart.h:43-78 | The victim scan picks a Modified line if and only if the set is full and every entry of the list, duplicates and stale tags included, is Modified. |
| `Tables.VictimMakesRoom` | cache_coherence_protocols_research_PARSEC_benchmarks/main/mesi_smart.h:43-78 | The entry evicted is the only one that is the back of the list, or in SMART has nothing but Modified entries behind it and is not Modified itself unless all are. |
| `CacheSets.AllocateCapacity` | cache_coherence_protocols_research_PARSEC_benchmarks/main/mesi_protocol.h:38-49 | For every protocol, a set within its associativity stays within it if and only if it was not full, or the list entry chosen for eviction is resident, or the allocated tag is still resident. |
| `CacheSets.AllocateExactIff` | cache_coherence_protocols_research_PARSEC_benchmarks/main/mesi_protocol.h:38-49 | From a duplicate-free list of exactly the resident tags, allocation leaves such a list if and only if the allocated tag does not survive the eviction. |
| `Witness.CapacityExceeded` | cache_coherence_protocols_research_PARSEC_benchmarks/main/mesi_protocol.h:38-49 | A two-core MESI run, constructed event by event from the start state, at the end of which a two-way set holds three lines. |
| `TouchOrder.ListsInTouchOrder` | cache_coherence_protocols_research_PARSEC_benchmarks/main/moesi_protocol.h:30-49 | In every state of every run, under all five protocols, the first occurrences of the tags in the list of a set are in the order of their last touches by access, snoop or fill. |
| `TouchOrder.RoomLeastRecent` | cache_coherence_protocols_research_PARSEC_benchmarks/main/moesi_protocol.h:38-49 | The entry that would make room, unless its tag occurs again in front of it, was touched before every entry in front of it, which outside SMART are all the others. |
| `Runs.DragonRecency` | cache_coherence_protocols_research_PARSEC_benchmarks/main/dragon_protocol.h:29-48 | In every state of every Dragon run each set is within capacity and its list is the duplicate-free list of its resident tags ordered by last touch, where a touch is an access or a snoop. |
| `Runs.DragonVictim` | cache_coherence_protocols_research_PARSEC_benchmarks/main/dragon_protocol.h:37-48 | The line a full Dragon set would evict was touched strictly before every other resident line, and no resident line is Invalid. |
| `Runs.CountersConserved` | cache_coherence_protocols_research_PARSEC_benchmarks/main/coherence_simulator.cpp:256-283 | In every reachable state: misses = reads + exclusive reads + upgrades + waiting requests; per core hits + misses = loads + stores and private + shared = hits; invalidations received = total, and sent = total except in Dragon; traffic = block size x (reads + exclusive reads + writebacks), plus 4 per Dragon update. |
| `Runs.CyclesBoundTraffic` | cache_coherence_protocols_research_PARSEC_benchmarks/main/mesi_protocol.h:137-173 | When a run has finished, the clock is at least the bus cycles of all counted transactions, and at least the compute cycles plus hits of every core. |
| `Protocols.TransactionEffect` | cache_coherence_protocols_research_PARSEC_benchmarks/main/moesi_protocol.h:111-177 | What one transaction does to any line of any core: snooped on its line by the others, upgraded or filled at the requester, at most one victim from the same set dropped there, everything else unchanged. |
| `Protocols.SharedSignalCounts` | cache_coherence_protocols_research_PARSEC_benchmarks/main/mesi_protocol.h:113-135 | An invalidating transaction (in Dragon, an update) counts one invalidation per other holder of the line, so some exactly if the shared signal is raised; a read fills its line Exclusive exactly if no other core holds it. |
| `Defs.LineIsBlock` | cache_coherence_protocols_research_PARSEC_benchmarks/main/mesi_protocol.h:64-68 | Two addresses have one set index and tag exactly when they lie in one memory block. |
| `Defs.AddressSplit` | cache_coherence_protocols_research_PARSEC_benchmarks/main/mesi_protocol.h:64-68 | Tag, set index and offset are the digits of the address: it is recombined from them. |
| `ProtocolObject.CoherenceProtocol.HandleProcessorRequest` | cache_coherence_protocols_research_PARSEC_benchmarks/main/moesi_protocol.h:87-104 | The in-place handler computes the request function of its protocol on caches and statistics, and follows the table of states: a read hit keeps the state, a store to an Exclusive or Modified line leaves it Modified, a store to any other valid line asks for an upgrade, the rest are misses. |
| `ProtocolObject.CoherenceProtocol.HandleBusTransaction` | cache_coherence_protocols_research_PARSEC_benchmarks/main/moesi_protocol.h:106-179 | The in-place snoop loop followed by the requester's update computes the simultaneous transaction function: caches, statistics of all cores, global statistics and latency; and of a request that matches caches in states of the protocol it leaves the states, costs and counts of the tables, by name and number. |
| `CacheSetObjects.LruCacheSet.AllocateLine` | cache_coherence_protocols_research_PARSEC_benchmarks/main/mesi_smart.h:43-78 | The in-place list and map, scanned from the back for SMART and inserting what `operator[]` inserts, end up as the allocation function says: with room, the tag in front; in a full set, outside SMART, the back of the list gone and its state returned; in SMART the entry gone behind which all are Modified, which is not Modified unless it is the back and all are. |
| `CacheBlocks.WaySet.UpdateWayList` | superscalar_pipeline_optimisation_SPEC95_benchmark/simplesim-3.0/cache.c:191-257 | Splicing a block out and in at either end leaves a doubly linked list of the same blocks, that block moved and the others in their order; no assertion fails. |
| `CacheBlocks.WaySet.UnlinkHtabEnt` | superscalar_pipeline_optimisation_SPEC95_benchmark/simplesim-3.0/cache.c:142-173 | From hash chains that partition a set of blocks by the hash of their tags, the chains left partition the set without this block, whatever its place in its chain. |
| `CacheBlocks.WaySet.LinkHtabEnt` | superscalar_pipeline_optimisation_SPEC95_benchmark/simplesim-3.0/cache.c:175-186 | A block not yet on a chain is added to the partition by the hash of its present tag. |
| `CacheBlocks.HashBits` | superscalar_pipeline_optimisation_SPEC95_benchmark/simplesim-3.0/cache.c:90-94 | Each bit of a hash index is the parity of the bits at its place in the four bytes of the tag. |
| `CacheBlocks.WaySet.Lookup` | superscalar_pipeline_optimisation_SPEC95_benchmark/simplesim-3.0/cache.c:540-563 | Hash-chain search and way-list search both return the block a search of the plain list finds, or null if it finds none. |
| `CacheBlocks.WaySet.Replace` | superscalar_pipeline_optimisation_SPEC95_benchmark/simplesim-3.0/cache.c:570-668 | Replaces the tail of the way list, moved to its head, or under Random the block of the array that the index names, in place; the array is constant, holds each block of the set once, and no other block of it changes. |
| `CacheObject.SetAssocCache.Access` | superscalar_pipeline_optimisation_SPEC95_benchmark/simplesim-3.0/cache.c:499-720 | Every access, through the last-block shortcut, the hash chains or the way list, leaves the object in the state of the plain cache after the same operations, with its hit and the address of the replaced block, clean or dirty; it is fatal exactly on a bad alignment or span, and dereferences null exactly if block 0 is requested while no block is remembered. Under Random a miss rewrites exactly the block of the array that the index names, and reports what that block held. |
| `CacheObject.SetAssocCache.Probe` | superscalar_pipeline_optimisation_SPEC95_benchmark/simplesim-3.0/cache.c:725-762 | Non-zero exactly if the plain cache would hit; nothing changes. |
| `CacheObject.SetAssocCache.Flush` | superscalar_pipeline_optimisation_SPEC95_benchmark/simplesim-3.0/cache.c:765-800 | The in-place double loop leaves the object in the state of the plain cache after a flush, with its counters and write-backs in order, and no block remembered. |
| `CacheObject.SetAssocCache.FlushAddr` | superscalar_pipeline_optimisation_SPEC95_benchmark/simplesim-3.0/cache.c:804-862 | Leaves the object in the state of the plain cache after flushing that block, found by either search. |
| `CacheObject.Create` | superscalar_pipeline_optimisation_SPEC95_benchmark/simplesim-3.0/cache.c:260-402 | Rejects exactly the listed parameters; of the others it reports exactly those whose tag shift reaches the width of an address, by which C leaves shifting undefined; and otherwise builds linked sets that share nothing and are in the state of the empty plain cache. |
| `CacheObject.RejectedExact` | superscalar_pipeline_optimisation_SPEC95_benchmark/simplesim-3.0/cache.c:279-294 | The mask tests of creation accept exactly a number of sets, a block size of at least 8 and an associativity that are powers of two, and a size of user data that is not negative. |
| `RandomFill.HoldsByBlock` | superscalar_pipeline_optimisation_SPEC95_benchmark/simplesim-3.0/cache.c:578-582 | The block array of a set holds each of its blocks once, and a tag is found in the set exactly if a block of the array holds it. |
| `RandomFill.FillSet` | superscalar_pipeline_optimisation_SPEC95_benchmark/simplesim-3.0/cache.c:578-582 | Misses to one set of a new cache under Random, with different indices in any order, evict nothing, and every block fetched is resident at the end. |
| `CacheObject.FirstAccessToZero` | superscalar_pipeline_optimisation_SPEC95_benchmark/simplesim-3.0/cache.c:343-344 | On a new cache a one-byte access to address 0 dereferences the null shortcut. |
| `CacheObject.LargerObject` | superscalar_pipeline_optimisation_SPEC95_benchmark/simplesim-3.0/cache.c:499-720 | Of two linked LRU caches with the same sets and block size and the same history, one perhaps hashed and the other not, the more associative one has at least the hits, at most the misses, and every block of the other. |
| `CacheRuns.RunInside` | superscalar_pipeline_optimisation_SPEC95_benchmark/simplesim-3.0/cache.c:570-586 | LRU stack inclusion: after any accesses and flushes the blocks of the smaller cache are the front of each set of the larger. |
| `CacheRuns.HitsMonotone` | superscalar_pipeline_optimisation_SPEC95_benchmark/simplesim-3.0/cache.c:567-568 | Over any operations the larger LRU cache has at least the hits and at most the misses of the smaller, with the same total. |
| `CacheResidents.AccessResidents` | superscalar_pipeline_optimisation_SPEC95_benchmark/simplesim-3.0/cache.c:564-668 | After an access its block is resident; a hit removes no block, and a miss removes exactly the block of the line it replaces, if that line is valid. |
| `CacheResidents.FlushResidents` | superscalar_pipeline_optimisation_SPEC95_benchmark/simplesim-3.0/cache.c:804-862 | Flushing a block makes it miss, and no other block. |
| `CacheResidents.NothingResident` | superscalar_pipeline_optimisation_SPEC95_benchmark/simplesim-3.0/cache.c:765-800 | After a flush, and in a new cache, every address misses. |
| `CacheResidents.AccessCounts` | superscalar_pipeline_optimisation_SPEC95_benchmark/simplesim-3.0/cache.c:564-668 | What an access counts, and its calls in order: a hit one hit; a miss one miss, a replacement if the victim is valid, a writeback if it is also dirty, and first that write-back, then the fetch. |
| `CacheResidents.FlushCounts` | superscalar_pipeline_optimisation_SPEC95_benchmark/simplesim-3.0/cache.c:804-862 | What flushing a block counts: an invalidation, and a write-back if its line is dirty; nothing if it misses. |
| `CacheRuns.LruVictim` | superscalar_pipeline_optimisation_SPEC95_benchmark/simplesim-3.0/cache.c:570-577 | An LRU miss evicts a valid line only from a full set, and then the line accessed strictly before every other. |
| `CacheCalls.FifoVictim` | superscalar_pipeline_optimisation_SPEC95_benchmark/simplesim-3.0/cache.c:570-577 | A FIFO miss evicts a valid line only from a full set, and then the block fetched strictly before every other. |
| `CacheCounters.RunConserves` | superscalar_pipeline_optimisation_SPEC95_benchmark/simplesim-3.0/cache.c:567-639 | In every run under every policy: misses = replacements + invalidations + valid lines; lines made dirty = writebacks + valid dirty lines; calls to the next level are one read per miss and one write per writeback. |
| `CacheCalls.RunLogged` | superscalar_pipeline_optimisation_SPEC95_benchmark/simplesim-3.0/cache.c:596-629 | In every run a block is written back only if its last earlier call was its fetch, so never twice for one fetch, and every resident block was fetched and not written back since. |
| `CacheObject.ObjectConserves` | superscalar_pipeline_optimisation_SPEC95_benchmark/simplesim-3.0/cache.c:596-639 | The conservation laws and the write-after-fetch discipline, of the linked object in each of its states. |
| `SetAssoc.SplitAddress` | superscalar_pipeline_optimisation_SPEC95_benchmark/simplesim-3.0/cache.c:61-70 | CACHE_MK_BADDR undoes the split of an address: the written-back address is the block address that was fetched. |
| `CacheSteps.AlignmentExact` | superscalar_pipeline_optimisation_SPEC95_benchmark/simplesim-3.0/cache.c:520-522 | The mask tests accept exactly the positive sizes that are a power of two and divide the address, and a size of zero at address zero. |
| `CacheSteps.SpanCheckExact` | superscalar_pipeline_optimisation_SPEC95_benchmark/simplesim-3.0/cache.c:524-528 | The 32-bit span test answers correctly, for an aligned access, if and only if the access and its block agree on whether they end at the top of memory. |
| `CacheSteps.CommentedTestExact` | superscalar_pipeline_optimisation_SPEC95_benchmark/simplesim-3.0/cache.c:524-526 | The form of the test in the comment above it is right for every aligned access. |
| `CacheSteps.SpanCheckRejects` | superscalar_pipeline_optimisation_SPEC95_benchmark/simplesim-3.0/cache.c:525-528 | With 32-byte blocks, the four bytes at 0xFFFFFFF0 lie in one block and are rejected. |
| `CacheSteps.SpanCheckAdmits` | superscalar_pipeline_optimisation_SPEC95_benchmark/simplesim-3.0/cache.c:525-528 | With 32-byte blocks, the gigabyte at 0xC0000000 spans blocks and is admitted. |
| `FlatMemory.PteAddrInverts` | superscalar_pipeline_optimisation_SPEC95_benchmark/simplesim-3.0/memory.h:105-116 | MEM_PTE_ADDR inverts the split into bucket and tag, and a page has only that pair. |
| `FlatMemory.WriteThenRead` | superscalar_pipeline_optimisation_SPEC95_benchmark/simplesim-3.0/memory.c:340-361 | Reading a range just written gives the bytes written, for every range up to the whole address space, wrapping ones included. |
| `FlatMemory.ReadThenWrite` | superscalar_pipeline_optimisation_SPEC95_benchmark/simplesim-3.0/memory.c:340-361 | Writing back what was just read changes nothing, for every range. |
| `FlatMemory.StoredElsewhere` | superscalar_pipeline_optimisation_SPEC95_benchmark/simplesim-3.0/memory.c:340-361 | Storing a range, wrapping or not, changes no byte outside it. |
| `FlatMemory.StoredEvery` | superscalar_pipeline_optimisation_SPEC95_benchmark/simplesim-3.0/memory.c:340-361 | Every byte after a store, by its distance above the start of the range counted round the top of memory. |
| `FlatMemory.LoadedEvery` | superscalar_pipeline_optimisation_SPEC95_benchmark/simplesim-3.0/memory.c:340-361 | Every byte of a load, those past the top of memory taken from its bottom. |
| `FlatMemory.ClearedEvery` | superscalar_pipeline_optimisation_SPEC95_benchmark/simplesim-3.0/memory.c:392-412 | Every byte after a range has been cleared. |
| `PagedMemory.AccessCheckExact` | superscalar_pipeline_optimisation_SPEC95_benchmark/simplesim-3.0/memory.c:149-155 | The mask tests let an access through exactly if its size is a power of two, at most a page, that divides the address, or size and address are both zero; they report an access fault exactly for the sizes that are negative, too large, or positive and no power of two. |
| `PagedMemory.Memory.Translate` | superscalar_pipeline_optimisation_SPEC95_benchmark/simplesim-3.0/memory.c:77-107 | Returns the host page of the address, or null if it has none, with its entry now first in its bucket; no byte of the memory changes. |
| `PagedMemory.Memory.NewPage` | superscalar_pipeline_optimisation_SPEC95_benchmark/simplesim-3.0/memory.c:109-135 | Allocates a page and enters it in its bucket without changing any byte of the memory. |
| `PagedMemory.Memory.ReadByte` | superscalar_pipeline_optimisation_SPEC95_benchmark/simplesim-3.0/memory.h:149-154 | The byte of the flat memory, zero for a page not yet allocated, and the exact number of table accesses and first-level misses. |
| `PagedMemory.Memory.WriteByte` | superscalar_pipeline_optimisation_SPEC95_benchmark/simplesim-3.0/memory.h:160-164 | Updates exactly one byte of the flat memory, allocating the page if it has none, with the exact number of table accesses. |
| `PagedMemory.Memory.Access` | superscalar_pipeline_optimisation_SPEC95_benchmark/simplesim-3.0/memory.c:137-219 | Without a fault it copies exactly the range between memory and buffer; with one it changes neither. |
| `PagedMemory.Memory.Bcopy` | superscalar_pipeline_optimisation_SPEC95_benchmark/simplesim-3.0/memory.c:339-361 | Never faults, whatever the alignment; copies exactly the range, wrapping at the top of memory; a negative size copies nothing. |
| `PagedMemory.Memory.Bcopy4` | superscalar_pipeline_optimisation_SPEC95_benchmark/simplesim-3.0/memory.c:363-390 | At an aligned address a copy of the whole words; at any other it faults before copying anything, unless there is no whole word. |
| `PagedMemory.Memory.Bzero` | superscalar_pipeline_optimisation_SPEC95_benchmark/simplesim-3.0/memory.c:392-412 | Never faults, clears exactly the range, and changes no other byte. |
| `PagedMemory.RoundTrip` | superscalar_pipeline_optimisation_SPEC95_benchmark/simplesim-3.0/memory.c:339-361 | Copying a buffer into memory and back through the page table returns the same bytes, for every range, wrapping or not. |
| `Misc.CastDigitIs` | superscalar_pipeline_optimisation_SPEC95_benchmark/simplesim-3.0/misc.c:579-584 | The digit computed from two values cast to 32 bits, with wrap-around, is the low decimal digit of the uncast value. |
| `Misc.LowDigit` | superscalar_pipeline_optimisation_SPEC95_benchmark/simplesim-3.0/misc.c:400-413 | The low digit and the tenth of the value read as unsigned, through shift, mask and a division by five. |
| `Misc.FormatSigned` | superscalar_pipeline_optimisation_SPEC95_benchmark/simplesim-3.0/misc.c:547-589 | %d and %ld print the canonical numeral of every 64-bit value, the least one included, with sign, width and blank or zero padding. |
| `Misc.FormatUnsigned` | superscalar_pipeline_optimisation_SPEC95_benchmark/simplesim-3.0/misc.c:591-603 | %u and %lu print the canonical numeral of every unsigned 64-bit value, although it is held in a signed variable. |
| `Radix.SignedLaid` | superscalar_pipeline_optimisation_SPEC95_benchmark/simplesim-3.0/misc.c:547-589 | What %d prints, character by character: a minus sign exactly for a negative value, the decimal digits of the magnitude written from the literal digit string, and blanks or zeros to exactly the width if that is longer. |
| `Radix.UnsignedLaid` | superscalar_pipeline_optimisation_SPEC95_benchmark/simplesim-3.0/misc.c:591-603 | The same for %u. |
| `Misc.MyAtoSq` | superscalar_pipeline_optimisation_SPEC95_benchmark/simplesim-3.0/misc.c:787-892 | For every text and base the result is the value of the longest numeral after blanks, sign and prefix, clamped to 64 bits; the loop never overflows; base, end position and errno on every path. `Radix.Reads` says from the literal digit strings what that value is. |
| `Misc.MyAtoQ` | superscalar_pipeline_optimisation_SPEC95_benchmark/simplesim-3.0/misc.c:894-985 | The same for unsigned values, without a sign. |
| `Radix.DigitsOfBase` | superscalar_pipeline_optimisation_SPEC95_benchmark/simplesim-3.0/misc.c:845-853 | A character is a digit in a base exactly if it is one of the first digits, as many as the base, of two alphabets of 36 digits; `Radix.DigitPlace` shows that the literal strings of digits and small or capital letters are such alphabets. |
| `Radix.Reads` | superscalar_pipeline_optimisation_SPEC95_benchmark/simplesim-3.0/misc.c:787-892 | In every base from 2 to 36, a numeral of n in letters of either case, behind white space, a sign where signs are accepted and a prefix in base 16, and before anything that is not one more digit, gives n clamped to 64 bits, errno set exactly for a clamped magnitude; without digits nothing is converted. Base 0 stands for 16 before an unsigned prefix, else for 10. |
| `Radix.HexRead` | superscalar_pipeline_optimisation_SPEC95_benchmark/simplesim-3.0/misc.c:894-985 | Hexadecimal numerals of n with 0x or 0X, in either case: every unsigned 64-bit n through the unsigned parser and every n up to the greatest signed value through the signed one, under base 0 or 16, and with a sign under base 16. |
| `Radix.WrittenRead` | superscalar_pipeline_optimisation_SPEC95_benchmark/simplesim-3.0/misc.c:787-892 | Writing any value in any base from the literal digits, capital or not, and reading it back gives the value, clamped. |
| `Radix.PanicExact` | superscalar_pipeline_optimisation_SPEC95_benchmark/simplesim-3.0/misc.c:797-821 | Parsing panics exactly on the empty text, and on a text that is not blank in a base that is 1, negative or above 36; a blank text is not converted. |
| `Misc.CutoffExact` | superscalar_pipeline_optimisation_SPEC95_benchmark/simplesim-3.0/misc.c:855-863 | The division test raises the flag exactly when the next value would exceed the limit. |
| `Decimal.SignedRoundTrip` | superscalar_pipeline_optimisation_SPEC95_benchmark/simplesim-3.0/misc.c:787-892 | Parsing what was printed gives back every signed 64-bit value, every width and padding, base 10 or 0; errno is clear except for the least value. |
| `Decimal.UnsignedRoundTrip` | superscalar_pipeline_optimisation_SPEC95_benchmark/simplesim-3.0/misc.c:894-985 | The same for every unsigned 64-bit value, with errno always clear. |
| `Misc.SignedThere` | superscalar_pipeline_optimisation_SPEC95_benchmark/simplesim-3.0/misc.c:547-589 | End to end through the digit loops: formatting any signed 64-bit value and parsing the text returns it. |
| `Misc.UnsignedThere` | superscalar_pipeline_optimisation_SPEC95_benchmark/simplesim-3.0/misc.c:591-603 | The same for unsigned values. |
| `Decimal.PrintParsed` | superscalar_pipeline_optimisation_SPEC95_benchmark/simplesim-3.0/misc.c:787-892 | Printing what was parsed gives back a canonical numeral, with or without a minus sign, if and only if its value fits 64 bits. |

## Left out

* Reports, debug printing, opening and parsing trace files, and the command line; traces are given as sequences, one
  per core, of a label and a 32-bit value.
* Data values of cache lines: the coherence simulator tracks none.
* The WRITEBACK and NONE bus actions as queued requests: `Runs.QueuedRequestsMatch` shows that they are never queued.
* Machine overflow of the counters, of the clock and of latencies, which are natural numbers here.
* A coherence machine without cores or ways, a block size or number of sets that is not a power of two, and sets that
  cover the whole 32-bit address space: the address split is then undefined or leaves sets unused. Operations on a
  cache of `cache.c` for which `CacheObject.Create` reports an undefined shift.
* Starvation.WriteStarves: one machine, and not under Dragon, where the request that waits would be a bus update;
  `Waiting.WaitBoundExact` covers every machine and protocol.
* RandomFill.FillSet: one-byte reads that pass the span test, and none of block 0, on which a new cache faults.
* The latency returned by the operations of `cache.c`, and the fields `ready` and `bus_free` that it is computed from.
* The data of cache blocks (`balloc`, CACHE_BCOPY), user data, the statistics registration of `cache.c`, and a miss
  handler that calls back into the same cache; calls to the next level are recorded in order.
* The order, within one miss, of the write-back call and the retagging of the replaced block: the call is recorded
  with the old tag, and no handler observes the block in between.
* A negative size equal to the least 32-bit integer, whose decrement is undefined in C.
* `mem_strcpy`, `mem_dump`, `mem_valid`, the statistics of `memory.c`, running out of host memory, and host buffers
  that overlap the pages of the simulated memory.
* MEM_READ and MEM_WRITE of types wider than a byte, and their byte swaps.
* The other conversions of the printer (`%o`, `%x`, `%s`, floating point), precision, and the parsing of the format.
* Character classes other than those of the C locale.
* `bpred.c`, `eventq.c`, `resource.c`, `eval.c`, `stats.c`, `options.c` and the simulators built on them.
