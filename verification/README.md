# Host tier of the KV-cache server

The server keeps the authoritative copy of every value in host memory and hands it to a device kernel that runs
concurrently. This project models that host tier in Dafny and proves what it promises: which bytes a supply delivers,
what becomes of every unit of the host-value pool, that host and device never wait for each other for good, and that
no memory is freed while the device may still use it.

| file | models |
|---|---|
| `Words.dfy` | 32-bit counters, value units, chunk counts |
| `HostPool.dfy` | the first-fit pool with its ordered free list: the list as a value, its bitmap meaning, and the two operations in place |
| `PoolMetadata.dfy` | the per-slot, generation-stamped metadata words, and the race between their writer and a reader |
| `HostTier.dfy` | reservations, leases and stored values: each locked section as a function of the store, and as methods on the runtime's fields; the streaming copy loop |
| `BackingStore.dfy` | who owns each pool unit, the unit sums, and what the metadata must read |
| `MoveChannel.dfy` | the single-slot channel as a machine: device steps under the documented contract, host steps of both drivers (the manager's request interface and the runtime's own worker) |
| `MoveChannelControl.dfy` | who waits for whom, and where every counter stands |
| `MoveChannelData.dfy`, `MoveChannelDevice.dfy`, `MoveChannelHost.dfy` | the invariant on bytes, and its proof for the two sides |
| `MoveChannelResults.dfy`, `MoveChannelLive.dfy` | what every run guarantees, and progress |
| `HostChannel.dfy` | the poll and completion entry points on the fields they update |
| `ManagerPolicy.dfy` | the manager's slot-to-value policy, and the channel machine's host against it |
| `ValueBanks.dfy` | coalesced reads and writes over interleaved banks, and the double-read guard |
| `DeviceHeap.dfy` | what a write of one value leaves in the banks, and what a read finds there, as functions |
| `HostArena.dfy` | the arena's slices and the offsets within a slice |
| `PeerTable.dfy` | connections per first-hop direction and the device's peer table |
| `SharedWorkload.dfy` | the workload that several shards launch, terminate and finish together: each step as a function, and what runs without a shard destroyed too early keep |
| `AbandonedShards.dfy` | exactly which steps are too early, and three ways they end |
| `SharedService.dfy` | the object the shards share, its methods against those functions, and what its fields say in any run |
| `ServerCore.dfy` | one server's device resources, with its own workload or as a shard |
| `ServerLifecycle.dfy` | the two state machines above them, and a server's whole life, with quarantine |
| `QuarantineList.dfy` | the lock-free list of quarantined holders |
| `ClientLocks.dfy` | client mutexes, `get_parallel`, and absence of deadlock |

The channel machine is parameterised by the driver, by whether the device can reach host memory, by the sizes and by
the starting value of all counters. The device is any party that keeps this contract, taken from the protocol header
and the kernel (line numbers are those of
`third_party/tt-metal/patches/0003-kvcache-protocol-device-runtime.patch`):

- it posts a request only when the two move semaphores agree, and writes the slot first (6555-6557);
- it pushes only after the acknowledgement, to the offset and under the generation it was given (10626-10732);
- it reads streamed chunk `c` only after progress has passed `c` (12095-12190);
- it acknowledges a source only after reading all of it (12277-12291, 12346-12410);
- it asks back only for slots and lengths its directory holds;
- without host mapping, the value it writes through is in its heap at the offset the request names, and it leaves the
  pages of the value in question alone until the request completes.

The chunk count is the ceiling of the length over the unit. The unit is 4288 bytes only where its size matters, in the
arena.

## Findings

- A refused `pool_release` can lose a free extent: the next extent is erased before the previous one is checked.
  `RefusedReleaseMayLoseNext` says exactly when.
- The metadata protocol needs a reader that samples End first, and holds for fewer than 2^32 - 1 publications during
  one read; both limits are shown to be tight.
- A device access that throws in the middle of a transfer leaves its reservation behind; the close-time accounting is
  off exactly in that case.
- A shard of a common workload can be destroyed or quarantined too early, which nothing checks. Before the common launch
  it stays on the server list, so the launch of the completed set writes to it, and may run on its freed buffers: this
  takes a worker thread that cannot be created, or a shard that starts early and is then quarantined. While the
  launched workload runs, a destroyed shard that never launched is not counted as terminated, so the workload never
  finishes, and is freed while running when the last reference goes. `TooEarlyIsExact` proves which steps these are.
- A shard that closes normally gives up its key, and its buffers to the service, while the device still executes the
  common workload, exactly while another shard of the set has yet to signal (`ShutDown`, `ClosesBeforeTheOther`).

## Model

| member | source | states |
|---|---|---|
| `FreeExtents.AllocFindsLeastRun` | src/native/ttnn/server_runtime/server_storage.cpp:66-86 | an allocation starts at the least unit of the pool where enough contiguous units are free, and fails exactly when there is no such run anywhere |
| `FreeExtents.AllocRemovesTheRun` | src/native/ttnn/server_runtime/server_storage.cpp:69-86 | it takes exactly that run out of the free units and keeps the extents disjoint and never adjacent |
| `FreeExtents.ReleaseAddsTheRun` | src/native/ttnn/server_runtime/server_storage.cpp:88-116 | a release is accepted exactly for an in-range run with no free unit, adds exactly that run, and keeps the list canonical |
| `FreeExtents.RefusedReleaseMayLoseNext` | src/native/ttnn/server_runtime/server_storage.cpp:97-113 | a refused release leaves the list alone except when the run touches the next free extent and overlaps the previous one: then exactly that next extent is lost |
| `FreeExtents.RefusedReleaseWitness` | src/native/ttnn/server_runtime/server_storage.cpp:101-109 | a list and a run for which a refused release loses an extent |
| `FreeExtents.CanonicalIsUnique` | src/native/ttnn/server_runtime/server_runtime_core.hpp:466-472 | the free list is determined by the set of free units |
| `FreeExtents.AllocThenReleaseRestores` | src/native/ttnn/server_runtime/server_storage.cpp:69-116 | releasing what was just allocated restores the identical list |
| `FreeExtents.ReleaseAllRestoresWhole` | src/native/ttnn/server_runtime/server_storage.cpp:88-116 | releasing all outstanding extents, in any order, leaves the one extent that spans the pool |
| `FreeExtents.FullTotalIsWhole` | src/native/ttnn/server_runtime/server_runtime_core.hpp:466-472 | extents that are disjoint and never adjacent and add up to the whole pool are one extent |
| `HostPool.Pool.PoolAlloc` | src/native/ttnn/server_runtime/server_storage.cpp:69-86 | the scan in place computes the specified allocation, and nothing when no pool is mapped |
| `HostPool.Pool.PoolRelease` | src/native/ttnn/server_runtime/server_storage.cpp:90-116 | the two-sided merge in place computes the specified release, with the outcome of each of its checks |
| `HostPool.Pool.AttachBefore` | src/native/ttnn/server_runtime/server_storage.cpp:105-115 | the merge with the previous extent |
| `PoolMetadata.GenerationsCollide` | src/native/ttnn/server_runtime/server_storage.cpp:159-162 | two publications of a slot carry the same generation exactly when a multiple of 2^32 - 1 publications separates them |
| `PoolMetadata.LateDropSparesNewer` | src/native/ttnn/server_runtime/server_storage.cpp:135-151 | a lease dropped late blanks the slot's newer metadata exactly on such a multiple, so never within 2^32 - 2 later publications |
| `PoolMetadata.MetaTable.InvalidatePoolMeta` | src/native/ttnn/server_runtime/server_storage.cpp:118-133 | blanks exactly one slot, word by word in the given order, after its range check |
| `PoolMetadata.MetaTable.InvalidatePoolMetaIfGeneration` | src/native/ttnn/server_runtime/server_storage.cpp:135-151 | blanks the slot exactly when both generation words are the given nonzero one |
| `PoolMetadata.MetaTable.PublishPoolMeta` | src/native/ttnn/server_runtime/server_storage.cpp:153-176 | advances the slot's generation past zero and publishes offset and length under it, word by word in the given order, touching no other slot |
| `MetadataRace.TearFree` | src/native/ttnn/server_runtime/server_storage.cpp:118-176 | any interleaving of publications and invalidations: a reader sampling End, the fields, then Begin that sees one nonzero generation holds the fields of a single publication, if fewer than 2^32 - 1 publications began meanwhile |
| `MetadataRace.PublicationIsTheRace` | src/native/ttnn/server_runtime/server_storage.cpp:163-174 | the stores of a publication, in the order the runtime makes them, are those of the raced writer |
| `MetadataRace.InvalidationIsTheRace` | src/native/ttnn/server_runtime/server_storage.cpp:122-132 | so are those of an invalidation |
| `MetadataRace.TornAfterFullCycle` | src/native/ttnn/server_runtime/server_storage.cpp:159-162 | after exactly 2^32 - 1 later publications such a reader accepts a torn read: the bound is tight |
| `MetadataRace.TornUpward` | third_party/tt-metal/patches/0003-kvcache-protocol-device-runtime.patch:11933-11946 | if the words were sampled in memory order, a torn read across one publication would be accepted: the kernel fetches all four in one 32-byte read, and that the order inside it is the other one is an assumption |
| `TierSpec.ReserveShape` | src/native/ttnn/server_runtime/server_device_runtime_io.cpp:239-246 | a value gets an extent exactly if the pool has enough contiguous free units anywhere; the extent is the least such run, exactly its units stop being free, and the slot is published over it under its next generation; without room nothing changes |
| `TierSpec.LateReleaseSparesNewer` | src/native/ttnn/server_runtime/server_device_runtime_io.cpp:618-645 | a lease released after its slot was published again leaves the newer metadata alone, unless a multiple of 2^32 - 1 publications lies between |
| `TierSpec.GiveBackAdds` | src/native/ttnn/server_runtime/server_device_runtime_io.cpp:204-211 | giving an owned extent back is always accepted and returns exactly its units |
| `HostTier.RuntimeCore.ReserveExtent` | src/native/ttnn/server_runtime/server_device_runtime_io.cpp:239-246 | the locked section, field by field, gives out the least run that is long enough exactly if there is one, and otherwise changes nothing |
| `HostTier.RuntimeCore.DropHostValue` | src/native/ttnn/server_runtime/server_storage.cpp:178-192 | the slot's value, its extent and its metadata go together; an absent slot changes nothing |
| `HostTier.RuntimeCore.ReserveDevicePushDestination` | src/native/ttnn/server_runtime/server_tiering.cpp:112-127 | drop and reserve under one lock equal the two specified steps in sequence |
| `HostTier.RuntimeCore.PublishDevicePushedValue` | src/native/ttnn/server_runtime/server_tiering.cpp:129-145 | stores the reserved extent, or exactly the staged bytes when there was none |
| `HostTier.RuntimeCore.ReleaseReserved` | src/native/ttnn/server_runtime/server_device_runtime_io.cpp:204-212 | the rollback blanks the slot and gives back exactly the reservation |
| `HostTier.RuntimeCore.PublishLease` | src/native/ttnn/server_runtime/server_device_runtime_io.cpp:213-231 | a lease that can be allocated is tracked and charged; one that cannot is rolled back and charges nothing |
| `HostTier.RuntimeCore.ReleaseExternalHostLease` | src/native/ttnn/server_runtime/server_device_runtime_io.cpp:618-645 | an owned lease is released once, tracked or not, and blanks only metadata of its own generation; a released or detached one leaves pool, metadata and charge alone |
| `HostTier.RuntimeCore.DetachExternalHostLeases` | src/native/ttnn/server_runtime/server_device_runtime_io.cpp:647-654 | every outstanding lease is cut loose, nothing stays charged, pool and metadata are untouched |
| `HostTier.StreamBlock` | src/native/ttnn/server_runtime/server_tiering.cpp:336-366 | one pass of the copy loop stages the next block's bytes before it posts them, and keeps every earlier post truthful |
| `HostTier.StreamBlocks` | src/native/ttnn/server_runtime/server_tiering.cpp:327-366 | at each progress value posted, the staged prefix it shows was already the value's; the last value posted is the chunk count, and nothing beyond the value is overwritten |
| `HostTier.StreamedOneMore` | src/native/ttnn/server_runtime/server_device_runtime_io.cpp:434-463 | one more block keeps every earlier post truthful |
| `HostChannel.ExternalRequests.CheckLayout` | src/native/ttnn/server_runtime/server_device_runtime_io.cpp:140-172 | a request is accepted exactly if its slot and key fit, it carries a key exactly when it promotes, a removal carries nothing, and every other value has a legal length and lies in whole units of the device heap or was never allocated |
| `HostChannel.ExternalRequests.Poll` | src/native/ttnn/server_runtime/server_device_runtime_io.cpp:86-188 | the poll is rejected outside a running or closing core, for an active request, a sequence gap or a bad layout; it sees nothing while the workload is not running or I/O is cancelled; otherwise it does exactly the channel machine's poll step |
| `HostChannel.ExternalRequests.Complete` | src/native/ttnn/server_runtime/server_device_runtime_io.cpp:592-612 | a completion is accepted exactly for the request in hand once its transfer is complete, or for a removal that needs none; it publishes that request's number and does the machine's finish step |
| `ManagerPolicy.Manager.HandleHostRequest` | src/native/ttnn/server_tiering.cpp:36-111 | the outcome, the values afterwards, the value supplied and the count, for each kind of request and every outcome of the receive, the supply and the completion |
| `ManagerPolicy.MachineFollowsPolicy` | src/native/ttnn/server_tiering.cpp:36-111 | over every interleaving with the device, the channel machine's manager-driven host, from a request just polled until it is served, stopped or refused, leaves the stored values and ends as `Handle` does for some receive and some supply |
| `BackingStore.ReserveKeeps` | src/native/ttnn/server_runtime/server_device_runtime_io.cpp:239-246 | reserving moves an unowned extent into transit and keeps the partition of the pool, the unit sum and exact metadata |
| `BackingStore.AbandonKeeps` | src/native/ttnn/server_runtime/server_device_runtime_io.cpp:204-212 | so does rolling a reservation back |
| `BackingStore.RetireMappedKeeps` | src/native/ttnn/server_runtime/server_device_runtime_io.cpp:618-645 | so does retiring a mapped value, whatever else is in transit |
| `BackingStore.LeaseKeeps` | src/native/ttnn/server_runtime/server_device_runtime_io.cpp:213-231 | wrapping the extent in a lease charges exactly its units |
| `BackingStore.InsertKeeps` | src/native/ttnn/server_tiering.cpp:68-76 | storing the value hands the extent from the transfer to the slot |
| `MoveChannelControl.ControlStep` | src/native/ttnn/server_runtime/server_device_runtime_io.cpp:86-188 | every step of either side keeps the sequence, phase and counter relations of the channel, across 32-bit wrap |
| `MoveChannelHost.ChecksHold` | src/native/ttnn/server_tiering.cpp:36-105 | none of the host's phase, sequence, layout, length or representation checks fires on a step from the invariant |
| `MoveChannelDevice.DeviceKeepsData` | third_party/tt-metal/patches/0003-kvcache-protocol-device-runtime.patch:10626-10732 | no step of a device that keeps its contract breaks the data invariant |
| `MoveChannelHost.HostKeepsData` | src/native/ttnn/server_runtime/server_device_runtime_io.cpp:190-654 | no step of the host, with either driver, breaks the data invariant |
| `MoveChannelResults.SuppliesLatestWrite` | src/native/ttnn/server_tiering.cpp:36-105 | over every run, with any mix of pool hits and misses, every completed supply has delivered exactly the bytes of its slot's latest write through; without host mapping both ways go through the banks of the device heap |
| `MoveChannelResults.StoredIsWritten` | src/native/ttnn/server_runtime/server_tiering.cpp:464-653 | with the device idle, the stored values equal the plain map that the run's requests write, byte for byte, for both drivers |
| `MoveChannelResults.NoCheckFires` | src/native/ttnn/server_runtime/server_device_runtime_io.cpp:66-84 | no check of the host fires in any run of a device that keeps its contract |
| `MoveChannelResults.CompletesOnceInOrder` | src/native/ttnn/server_runtime/server_runtime_core.hpp:425-427 | completions are a prefix of the posts, in order, at most one behind, and equal to them when the semaphores agree |
| `MoveChannelResults.WaitsAreExact` | src/native/ttnn/server_runtime/server_device_runtime_io.cpp:282-295 | each wait of the host ends exactly when the device has done its part of this very operation, so an earlier number never satisfies it |
| `MoveChannelResults.WaitsEndOn` | src/native/ttnn/server_runtime/server_device_runtime_io.cpp:536-582 | uncancelled, the poll takes a request exactly if one is posted, the push wait ends exactly once the device has pushed, and the supply wait on either completion word, of which the mapped one comes first |
| `MoveChannelResults.CancelGivesBack` | src/native/ttnn/server_runtime/server_device_runtime_io.cpp:291-299 | a cancelled host stops at any of its waits, and its reservation goes back: the close-time accounting comes out |
| `MoveChannelResults.PostedCommitIsRequested` | src/native/ttnn/server_runtime/server_device_runtime_io.cpp:386-396 | until the device has drained it, a posted commit carries the slot, destination, length and key length that the device asked for, and the directory holds a value of that length |
| `MoveChannelResults.PoolIsUsedIfRoom` | src/native/ttnn/server_runtime/server_device_runtime_io.cpp:238-246 | a write through gets pool space exactly if the pool, without the slot's old value, has a long enough run anywhere |
| `MoveChannelResults.PostsWholeBlocks` | src/native/ttnn/server_runtime/server_device_runtime_io.cpp:434-463 | each progress word of a streamed value is one full block further or the chunk count, and a mapped value is published at once |
| `MoveChannelResults.StreamingIsSafe` | src/native/ttnn/server_runtime/server_tiering.cpp:327-366 | whatever progress is published, the bytes it shows at the offset the reader uses are the value's; once streaming is over progress is the chunk count |
| `MoveChannelResults.PushesSpareValues` | src/native/ttnn/server_runtime/server_device_runtime_io.cpp:248-268 | a push for one slot changes no stored value |
| `MoveChannelResults.UnitsAreConserved` | src/native/ttnn/server_runtime/server_device_runtime_io.cpp:204-306 | free, stored and in-transit units make up the pool, and the units in use are the sum over the tracked leases |
| `MoveChannelResults.LeakIsOrphan` | src/native/ttnn/server_runtime/server.cpp:737-757 | the close's count of free units and of the units of every value still stored is the whole pool exactly if no reservation was left behind, and is otherwise short by that reservation |
| `MoveChannelResults.EmptiedPoolIsWhole` | src/native/ttnn/server_runtime/server.cpp:737-766 | with every value dropped, nothing is charged, and the pool is one free extent and the metadata blank exactly if no reservation was left behind |
| `MoveChannelResults.OrphanNeedsBrokenAccess` | src/native/ttnn/server_runtime/server_device_runtime_io.cpp:268-289 | a reservation is left behind only by a device access that throws in the middle of a transfer |
| `MoveChannelResults.OrphanWitness` | src/native/ttnn/server_runtime/server_device_runtime_io.cpp:268-289 | a run in which one such access loses a reservation |
| `MoveChannelResults.NoDanglingMetadata` | src/native/ttnn/server_runtime/server_device_runtime_io.cpp:208-216 | a slot's valid metadata names the extent of its stored value or of its own reservation, and none of those units is free |
| `MoveChannelResults.DirectReadIsCurrent` | third_party/tt-metal/patches/0003-kvcache-protocol-device-runtime.patch:11920-11946 | while no write through or removal of the slot is in flight and none of its own broke off, a device that finds the generation its directory recorded may read the extent directly: offset nonzero, length and bytes current, whatever else is in flight and even after the worker stopped |
| `MoveChannelLive.WorkDrops` | src/native/ttnn/server_runtime/server_device_runtime_io.cpp:536-590 | every step that is not the outside world's uses up some of a bounded amount of work |
| `MoveChannelLive.RunsAreBounded` | src/native/ttnn/server_runtime/server_device_runtime_io.cpp:536-590 | however the sides interleave, a run without outside steps is no longer than the work it starts with |
| `MoveChannelLive.NeverBothBlocked` | src/native/ttnn/server_runtime/server_device_runtime_io.cpp:282-306 | while a request is on its way and nobody has cancelled, host or device can move |
| `MoveChannelLive.RequestCompletes` | src/native/ttnn/server_runtime/server_tiering.cpp:425-455 | from every reachable state the two sides alone can complete the request in flight |
| `BankLayout.CoversOnce` | src/native/ttnn/server_runtime/server_storage.cpp:258-290 | every unit of a value is on exactly one page of one bank's coalesced run |
| `ValueBanks.ReadPerUnit` | src/native/ttnn/server_runtime/server_storage.cpp:237-259 | the per-unit read fills the destination with the value's units in order and nothing else |
| `ValueBanks.ReadBulk` | src/native/ttnn/server_runtime/server_storage.cpp:258-297 | so does the per-bank read with its scatter, for every base unit, length and bank count, inside the scratch buffer |
| `ValueBanks.ReadAll` | src/native/ttnn/server_runtime/server_storage.cpp:228-299 | both strategies give the same bytes |
| `ValueBanks.WriteBanks` | src/native/ttnn/server_runtime/server_device_runtime_io.cpp:485-532 | the coalesced write puts each unit, zero-padded, on its page and changes no address outside the value's pages |
| `ValueBanks.WrittenGathers` | src/native/ttnn/server_runtime/server_tiering.cpp:248-291 | memory written that way gathers to the value |
| `ValueBanks.WriteThenRead` | src/native/ttnn/server_runtime/server_tiering.cpp:248-291 | a value written bank by bank reads back byte for byte |
| `DeviceHeap.StoredReads` | src/native/ttnn/server_runtime/server_device_runtime_io.cpp:485-532 | the memory after a write, as a function of the memory before, reads back exactly the value |
| `DeviceHeap.WrittenIsStored` | src/native/ttnn/server_runtime/server_device_runtime_io.cpp:502-532 | the bank-by-bank write leaves exactly that memory: its contract admits no other |
| `DeviceHeap.WriteHeap` | src/native/ttnn/server_runtime/server_device_runtime_io.cpp:485-532 | the supply's write is the heap write of the channel machine |
| `DeviceHeap.ReadHeap` | src/native/ttnn/server_runtime/server_storage.cpp:228-299 | the receive's read is the heap read of the channel machine |
| `ValueBanks.GuardedRead` | src/native/ttnn/server_runtime/server_storage.cpp:300-319 | the double read makes 2 to 102 passes, stops at the first two that agree on the value's bytes, leaves the last pass's bytes, and makes exactly two passes when the first two agree |
| `HostArena.OffsetsFitWords` | src/native/ttnn/server_runtime/server_resources.cpp:672-684 | no 32-bit addition of the slice layout wraps |
| `HostArena.SliceCheckIsGroupCheck` | src/native/ttnn/server_runtime/server_resources.cpp:713-718 | the slice bounds check rejects exactly the worker groups the arena was not made for, in both kinds of arena |
| `HostArena.SlicesAreDisjoint` | src/native/ttnn/server_runtime/server_resources.cpp:713-718 | slices of different worker groups share no byte |
| `HostArena.RegionsAreDisjoint` | src/native/ttnn/server_runtime/server_resources.cpp:672-684 | staging, completion lines, ingress slots, metadata and pool follow one another inside the slice, and the slice is inside the mapping |
| `HostArena.CompactArenaHasNoPool` | src/native/ttnn/server_runtime/server_resources.cpp:182-202 | without the hugepage there are no pool units, whatever the cap |
| `HostArena.PoolOffsetsAreNotStaging` | src/native/ttnn/server_runtime/server_resources.cpp:785-809 | no pool extent has the staging offset 0, and no 32-bit device address of a pool unit wraps |
| `HostArena.PoolFillsSlice` | src/native/ttnn/server_runtime/server_resources.cpp:794-809 | the pool has as many units as the rest of the slice and the cap allow, and the staging window is the least number of units that holds the largest value |
| `HostArena.LayoutServesTier` | src/native/ttnn/server_runtime/server_resources.cpp:669-811 | every layout that is reserved satisfies what the tier's proofs assume of its configuration |
| `HostArena.EndpointArena.AcquireArena` | src/native/ttnn/server_runtime/server_resources.cpp:694-711 | a shard that finds no live arena makes one, on the hugepage exactly if that can be mapped and a slice holds the control region; others are accepted exactly if they agree with it |
| `HostArena.EndpointArena.Release` | src/native/ttnn/server_runtime/server.cpp:457 | the arena goes with the last shard that holds it, and not before |
| `HostArena.EndpointArena.HeldSlicesAreDisjoint` | src/native/ttnn/server_runtime/server_resources.cpp:713-722 | shards that hold the arena at the same time share no byte of it |
| `HostArena.EndpointArena.LayOutSlice` | src/native/ttnn/server_runtime/server_resources.cpp:713-811 | the slice is laid out as specified, or refused for its group or for crossing 4 GiB |
| `HostArena.EndpointArena.ReserveStageBuffer` | src/native/ttnn/server_runtime/server_resources.cpp:669-811 | each refusal happens exactly under its condition and leaves no reference behind; otherwise the layout is a reserved one |
| `PeerTable.AddKeeps` | src/native/ttnn/server_runtime/server_program.cpp:579-637 | one more peer keeps one connection per direction with exactly the link planes that all its peers share, or the peers cannot be served |
| `PeerTable.ConnectionsBound` | src/native/ttnn/server_runtime/server_program.cpp:647-657 | connections never exceed the number of directions |
| `PeerTable.Enumeration.AddPeer` | src/native/ttnn/server_runtime/server_program.cpp:579-637 | the loop body edits the vectors as specified and refuses exactly where the specification does |
| `PeerTable.Enumeration.Enumerate` | src/native/ttnn/server_runtime/server_program.cpp:575-663 | enumeration succeeds only with an exact plan within the connection limit, and is refused only for unserviceable peers or too many connections |
| `PeerTable.BuildTable` | src/native/ttnn/server_runtime/server_program.cpp:743-757 | a table slot holds the last entry of its chip, or the empty sentinel |
| `PeerTable.TableServes` | src/native/ttnn/server_runtime/server_program.cpp:743-757 | a slot is empty exactly for a chip that was not registered; otherwise it has the connection and the route of the peer enumerated last for that chip, and the plane it opens serves every peer of that direction |
| `SharedWorkload.StepKeepsInv` | src/native/ttnn/server_runtime/server_program.cpp:1034-1086 | every step that is not too early keeps everything of a running workload retained, and the common launch touches no destroyed shard |
| `SharedWorkload.OrderlyRunsAreSafe` | src/native/ttnn/server_runtime/server_program.cpp:1195-1253 | over every run without such a step: workload and buffers are kept while the device may run, one finish at most, each shard counted once under any retries |
| `AbandonedShards.TooEarlyIsExact` | src/native/ttnn/server_runtime/server_device_runtime.cpp:52-72 | from every state such runs reach, a step is too early exactly when some continuation without a further one frees memory the device may be using or writes to a destroyed shard |
| `AbandonedShards.LostBeforeLaunchWitness` | src/native/ttnn/server_lifecycle.cpp:67-104 | five steps of three shards, one destroyed before the set was complete: the common launch runs on its freed buffers |
| `AbandonedShards.HeldBeforeLaunchWitness` | src/native/ttnn/server_runtime/server_program.cpp:1034-1056 | four steps of two shards, one started early and quarantined, after which the common launch writes to it |
| `AbandonedShards.QuarantineRetainsEverything` | src/native/ttnn/server_runtime/server.cpp:645-687 | if a launched shard is quarantined without signalling, nothing is ever finished or freed, whatever the other shards do |
| `AbandonedShards.AbandonedShardBlocksFinish` | src/native/ttnn/server_runtime/server_device_runtime.cpp:58-60 | a shard destroyed before its own launch call while the workload runs: no run finishes the workload any more, and memory stays safe exactly while another shard references the service |
| `AbandonedShards.AbandonedShardWitness` | src/native/ttnn/server_runtime/server.cpp:544-564 | six steps of two shards after which a running workload has been freed |
| `SharedService.BooksStep` | src/native/ttnn/server_runtime/server_program.cpp:130-141 | in any run at all, the service's flags, counts and server list agree with where its shards are; it lives exactly while one of them references it, and holds retired buffers only while it lives and has a workload |
| `SharedService.OthersLeave` | src/native/ttnn/server_runtime/server_program.cpp:1054-1079 | another shard's step leaves a shard where it is, unless it is the common launch and fails: then the shard is quarantined with all others |
| `SharedService.TerminateShows` | src/native/ttnn/server_runtime/server_program.cpp:1195-1253 | a shard's termination returns exactly if nothing was launched, or its signal is written and it is not the last or the finish returns; then the workload runs on exactly if another shard of the launched set has yet to signal; an unlaunched shard leaves the server list and spoils the set |
| `SharedService.FinishShows` | src/native/ttnn/server_runtime/server_program.cpp:1238-1252 | the finish happens exactly with the last signal; then every destroyed shard's buffers are freed and no other shard is touched, and otherwise workload and shards stay as they were |
| `SharedService.LaunchShows` | src/native/ttnn/server_runtime/server_program.cpp:1034-1086 | a shard's launch returns exactly before the set is complete, as a common launch that is sent, or after it; the common launch enqueues, and if it fails nobody stays up |
| `SharedService.MuxService.Join` | src/native/ttnn/server_runtime/server_program.cpp:993-1022 | a shard joins exactly while the set is neither complete nor spoilt; the last one prepares the workload, and a failure spoils the set |
| `SharedService.MuxService.LaunchServerKernel` | src/native/ttnn/server_runtime/server_program.cpp:1034-1086 | the launch does exactly the specified step: early, common, late, refused, or lost with every shard |
| `SharedService.MuxService.TerminateServerKernel` | src/native/ttnn/server_runtime/server_program.cpp:1195-1253 | the termination returns exactly under that condition, and finishes, frees what was retired, or leaves everything, exactly under the other |
| `SharedService.MuxService.LetGo` | src/native/ttnn/server_runtime/server.cpp:544-564 | a destroyed shard's buffers are retired into the service while it has a workload, and the last reference takes the service with it |
| `ServerCore.Core.LaunchExternal` | src/native/ttnn/server_runtime/server.cpp:383-406 | with its own workload a launch succeeds exactly if it is sent, one that may have been sent ends quarantined, one refused before sending stays prepared; a shard's succeeds exactly before the set is complete, as a common launch that is sent, or after it, and is quarantined exactly when it makes the common launch and fails |
| `ServerCore.Core.TerminateExternal` | src/native/ttnn/server_runtime/server.cpp:408-420 | termination succeeds exactly in a final state, or from ready or closing if the workload is gone or its finish returns; a shard's exactly under the service's condition, and then the workload still runs exactly while another shard has yet to signal; a failure can be retried |
| `ServerCore.Core.ReleaseExternal` | src/native/ttnn/server_runtime/server.cpp:422-480 | resources are let go exactly in a prepared or terminated state without leases, and the key is given up; the device may still be executing then exactly if the common workload is launched, and the service keeps the buffers exactly while it has a workload |
| `ServerCore.Core.QuarantineExternal` | src/native/ttnn/server_runtime/server.cpp:482-491 | quarantine keeps the key and adds one entry to the list, the first time only |
| `ServerCore.Core.OthersAct` | src/native/ttnn/server_runtime/server_program.cpp:1051-1079 | another shard's step changes this core only if it is a common launch that fails: then the core is quarantined from outside, with one entry |
| `ServerCore.Core.OrderlyIsSafe` | src/native/ttnn/server_runtime/server.cpp:544-564 | while the device may be executing, the core's buffers are its own, quarantined, or retired into a live service, unless a shard was destroyed too early |
| `ServerCore.ClosesBeforeTheOther` | src/native/ttnn/server_runtime/server_program.cpp:1217-1253 | two launched shards: after one closes normally its key is free and the device goes on executing on buffers the service keeps |
| `ServerLifecycle.DeviceRuntime.Launch` | src/native/ttnn/server_runtime/server_device_runtime.cpp:74-90 | a launch succeeds exactly from prepared when the core's does, and the runtime is quarantined exactly if the core is |
| `ServerLifecycle.DeviceRuntime.Terminate` | src/native/ttnn/server_runtime/server_device_runtime.cpp:146-159 | a termination succeeds exactly if there is nothing to stop or the core's succeeds; a terminated runtime has a core that finished, was quarantined, or is a shard that has signalled |
| `ServerLifecycle.DeviceRuntime.Destroy` | src/native/ttnn/server_runtime/server_device_runtime.cpp:52-72 | the destructor releases exactly an unlaunched or a terminated core without leases, and quarantines every other, once |
| `ServerLifecycle.ServerImpl.Start` | src/native/ttnn/server_lifecycle.cpp:40-112 | construction succeeds exactly if the key is free, the kernels are built, the thread is created and the launch returns, for a shard after whatever the others did meanwhile; otherwise the claim is given up and the core released or quarantined |
| `ServerLifecycle.ServerImpl.ShutDown` | src/native/ttnn/server_lifecycle.cpp:238-249 | shutting down succeeds exactly if the kernel's termination does; an own workload has then finished and the core is closed; a shard is closed with its key free unless another's launch failed meanwhile, while the device goes on exactly if another shard has yet to signal |
| `ServerLifecycle.ServerImpl.Close` | src/native/ttnn/server_lifecycle.cpp:204-249 | a live server is closed, with its core closed and its key free, exactly if the drain, where one is made, returns, the worker has not failed and the kernel's termination succeeds; otherwise it serves on, can be closed again, or is quarantined, each exactly under its condition |
| `ServerLifecycle.ServerImpl.ForceQuarantine` | src/native/ttnn/server_lifecycle.cpp:308-323 | a live server ends quarantined, once, with its claim given up |
| `ServerLifecycle.ServerImpl.Destroy` | src/native/ttnn/server_lifecycle.cpp:114-124 | with its own workload the core is released exactly if the first close succeeds, or the second does from where the first leaves off; else it is quarantined |
| `ServerLifecycle.Lifetime` | src/native/ttnn/server_lifecycle.cpp:40-124 | with an own workload or as a shard, over every order of calls, every interleaving with the other shards' steps and every mix of failures: at the end the key is free and nothing runs on the server's memory or the common service still keeps it, or everything is kept for good, once, and the key stays taken; an undisturbed server with its own workload ends released exactly if one of its two closes can succeed |
| `QuarantineList.StepKeepsInv` | src/native/ttnn/server_runtime/server.cpp:618-643 | every step of any thread keeps each live holder in exactly one place, once, with intact links |
| `QuarantineList.NothingLostOrDuplicated` | src/native/ttnn/server_runtime/server.cpp:682-686 | over every interleaving of pushes and drains, address reuse included, nothing is lost, duplicated or freed unless safe |
| `QuarantineList.IdleListIsExact` | src/native/ttnn/client_lifecycle.cpp:92-98 | with no thread draining, the list from the head is exactly the live holders, each once |
| `QuarantineList.DrainFreesExactlySafe` | src/native/ttnn/server_runtime/server.cpp:605-643 | a drain that is not interfered with frees exactly the holders marked safe and leaves every other one on the list |
| `QuarantineList.SafeIsNeverPutBack` | src/native/ttnn/server_runtime/server.cpp:618-643 | under any interleaving a drain puts back only holders that are not safe |
| `QuarantineList.PushGetsThrough` | src/native/ttnn/server_runtime/server.cpp:682-686 | wherever a run has come, a push in progress gets its holder to the head of the list by its second compare-and-swap at the latest, if nobody comes in between |
| `QuarantineList.DrainEnds` | src/native/ttnn/server_runtime/server.cpp:605-643 | from wherever a run has come, a drain that nobody disturbs visits its whole chain and comes to its end |
| `LockOrder.OperationsAreDisciplined` | src/native/ttnn/client_operations_adapter.cpp:145-168 | every operation, on any clients, takes its mutexes in ascending order with the registry last, and gives them all back |
| `LockOrder.OperationsTakeTheirMutexes` | src/native/ttnn/client_operations_adapter.cpp:157-166 | every operation acquires the mutex of each of its clients, and the registry exactly where it edits it, once, all before it releases any; a call that names a client twice takes none |
| `LockRuns.WorkIsGuarded` | src/native/ttnn/client_operations_adapter.cpp:162-187 | in every run, a thread between its last acquire and its first release holds exactly those mutexes, and no other thread holds one of them |
| `LockRuns.AnyOperationWorks` | src/native/ttnn/client_operations_adapter.cpp:162-166 | once everybody is done, any thread can begin any operation on any clients, and gets to hold all its mutexes |
| `LockRuns.EverybodyFinishes` | src/native/ttnn/client_operations_adapter.cpp:162-187 | from wherever a run has come, the operations begun can all be finished, and then no mutex is held |
| `LockRuns.NoWaitCycle` | src/native/ttnn/client_operations_adapter.cpp:157-168 | no threads ever wait for each other in a circle |
| `LockRuns.SomeoneMoves` | src/native/ttnn/client_lifecycle.cpp:221-254 | some thread can always take its next step |
| `LockRuns.NeverDeadlocks` | src/native/ttnn/client_lifecycle.cpp:160-167 | both hold in every run of any operations by any number of threads |
| `LockOrder.DistinctIffStrict` | src/native/ttnn/client_operations_adapter.cpp:157-160 | sorting and comparing neighbours finds out exactly whether the clients are distinct |
| `ParallelGet.Client.SyncOperationsQuarantine` | src/native/ttnn/client_operations_adapter.cpp:42-52 | a quarantined backend quarantines its client, and publishes it once |
| `ParallelGet.GetParallel` | src/native/ttnn/client_operations_adapter.cpp:145-187 | each refusal happens exactly under its condition, the mutexes of all clients are taken in sorted order and given back exactly as the lock model says, answers come in the caller's order, and every client is synchronised on success and on failure alike |

## Left out

- Device kernels, wire packets, routing and the bootstrap handshake: only the contract above is assumed of them.
- Memory ordering: a step is atomic and steps are sequentially consistent; store fences appear only as the order of steps, except in the metadata race, where each word is stored and sampled on its own.
- Changes of the device heap while a request is in flight: the device is assumed to leave the pages of the value it asked about alone, and the double read that guards against such changes is proved on its own.
- A device access that throws while a completion word is written: in the channel machine the host stops between transfers only by cancellation; the manager's method has that outcome.
- Exhaustion of memory other than a lease allocation, and exceptions of the standard library.
- The runtime's own `close` under its internal policy (`server.cpp:689-800`): it terminates before it releases like the external path, and would repeat its proofs.
- The draining of in-flight puts, which is one of four outcomes here, and the put counters themselves.
- Entries of other servers in the quarantine list: each server's own entry is modelled, in its own view of a common launch that fails.
- The registry that finds or makes an endpoint's common service: a server is given the one it finds, alive.
- Release of quarantined servers for tests, except the list operations themselves: the registry key it erases is not modelled.
- The hash map of host values is a `map`, the ordered extent map a sequence in iteration order, and `std::sort`, `std::remove_if` and `std::find` are functions.
- Static inter-mesh peers, whose table is filled with one constant connection, and the idle connection slot.
- Budgets for device memory, L1 offset chains, profiling, timing, logging and environment parsing.
- The Python facade, bindings, scripts, benchmarks and the debug scans over host values.
