# A verified model of vLLM's state-space scan, sleep/wake allocator, block files and tools

The project models seven pieces of the repository in Dafny 4.11 and proves what they promise, for all inputs, all runs and
all interleavings. `dafny verify dfyconfig.toml` checks everything.

**Chunked state-space scan with a block state cache.** `ChunkMetadata` is the planner that cuts a batch of prefill requests
into chunks ending on block boundaries. `ScanKernel` is the kernel as code on arrays, writing its outputs in place over its
inputs; the token update is an uninterpreted step, so no arithmetic is assumed. `CommutingSteps` and `ProgramOrder` show that
the programs of the launch grid may run in any order. `PrefixCache` is the cache over a whole serving history: requests arrive,
share prefixes, grow, are evicted, and are computed in any number of calls. `ServedLaunch` joins the two: one launch over
several requests is one call for each of them. `MambaToken` puts the concrete update back in, over the reals and with the
padded state lanes.

**Sleep/wake device allocator** (the ROCm branches). `ChunkPlan` is the chunk arithmetic with 64-bit wrap-around,
`DeviceDriver` the mapping and release loops against a driver in which any call may fail, `SleepWake` the lifecycle as single
driver calls and looks at the shared error code, interleaved between threads; a chunk is mapped only where nothing is mapped, and
an unmap call removes whatever it finds at its address. `SleepWakeRuns`, `SleepWakeMaps` and `SleepWakeLimits` say what holds over
whole runs and where it ends, `SleepWakeTraces` has the runs from the empty system in which it fails, and `SleepWakeCode` the
entry points as code with interference between any two steps.

**Atomic block files.** `BlockFiles` is the store and load protocol as a step system over directory entries, inodes and open
files; it relies on rename() replacing its target atomically, as described for rename() in the System Interfaces volume of
POSIX.1-2017, and on O_EXCL. `BlockFileRuns` has the properties of runs, `BlockFileCode` the two routines and their batch
loops as code with interference.

**Tensor-parallel slicer.** `TensorSlices` has tensors as shape and flat row-major data, `ExpertNames` the name pattern on
strings, `ExpertInventory` the check for complete expert records, `SliceRules`, `SliceCheckpoint` and `SliceValidate` the planner,
converter and validator.

**Build-time report.** `BuildSweep` is the reference (equal shares of elementary time segments), `BuildUnion` the length of the
union of the tasks' intervals, `BuildReport` and `BuildSummary` the sweep as code, `NinjaLog` the reading of the log.

**Paged gather** (`PagedGather`), **spin-wait with a hardware monitor** (`Spinloop`) and **per-token quantization**
(`TokenQuant`).

Where a promise turned out not to hold everywhere, the model keeps the code as it is and gives the exact condition:

- the chunk plan is right if and only if neither of two 64-bit sums wraps; the overflow guard covers neither (`PlanGoodIff`);
- a destination block can be unlinked by a load if and only if some block of its path is shorter than the load's buffer
  (`RemovalIff`), and what is unlinked is the file that was read if and only if nobody published there meanwhile
  (`RemovedIsRead`);
- conversion fails with a duplicate name if and only if an ordinary tensor has the name of an expert's slice (`ClashIff`);
- the monitor loses no wake-up if and only if the buffer does not straddle two lines; the length check does not ensure this
  (`NoLostWakeupIff`);
- a malloc that returns an address has every chunk mapped to its own handle, and the range opened and zeroed, if and only if no
  sleep or wake reported and cleared the error code after the malloc had met an error, and no other allocation's unmap call
  succeeded at the address of a chunk that the malloc had mapped (`BackedIff`; the failing runs are `MaskedError`, `MaskedMap` and
  `UnmappedBehind`); for a wake that reports success the second half is the condition (`WakeBackedIff`);
- another allocation can unmap a chunk only if one of the two is without its address (`TakingNeedsLoss`);
- the rollback after a map call leaves that call's chunk mapped, with its handle released, if and only if the call had succeeded
  (the error it saw was another thread's) and nobody else unmaps it (`RollbackLeaves`, `LeftMapped`);
- an allocation that lost its address in a sleep is marked asleep all the same, and a wake of it can report success: a wake ends
  with the address if and only if it began with it and nobody took it away meanwhile (`WakeAddressIff`, `WokenWithoutAddress`);
- freeing an allocation that has lost its address is harmless if and only if the driver refuses or nobody holds the range at
  that moment (`FreeingLost`, `StolenAddress`); a free for an allocation without its address is also the only way in which a
  bystander ever loses one (`HarmIff`, `HarmNeedsLoss`);
- handles leak if and only if one of three kinds of step occurs (`LeakIff`);
- every element of a quantized row comes back from its stored byte within half a step, whatever the conversions to 32 bits and to a
  byte make of numbers that do not fit, if and only if the lowest value is less than 2^31 - 1/2 steps away from zero (or the mode is
  symmetric) and the codes of the lowest and the highest value fit a byte (`HalfStepIff`); up to eight bits the latter always holds
  (`EightBitsIff`), with sixteen it need not (`SixteenBits`);
- an accepted tensor can be rebuilt from the sliced tree if and only if there are ranks at all or it is not replicated
  (`LosslessIff`), and its accepted pieces are the slices the converter would write if and only if they all have the same extent
  (`AcceptedSlicesIff`, `UnevenPieces`);
- `earliest` is the earliest start if and only if no start is negative or the last target starts first (`EarliestIff`), and
  `latest` the last end if and only if some end is not negative (`LatestIff`);
- gathered rows land at cu[i] - cu[0] if and only if no earlier length is negative (`OffsetIff`).

## Model

| member | source | states |
|---|---|---|
| ChunkMetadata.ComputeChunkMetadata | vllm/v1/attention/backends/mamba_attn.py:265-325 | For every batch: each request's chunks cover exactly its new tokens, every chunk but its last ends on a block boundary, and the three lists describe them consistently |
| ChunkMetadata.AppendRequest | vllm/v1/attention/backends/mamba_attn.py:291-321 | One request's chunks, a leading partial chunk included, follow the closed form of tokens done per chunk; all its tokens are used up |
| ChunkMetadata.CountSplits | vllm/v1/attention/backends/mamba_attn.py:299-313 | A leading partial chunk plus the ceiling of the rest is the number of blocks the tokens touch |
| ChunkMetadata.LastComputedBlock | vllm/v1/attention/backends/mamba_attn.py:396-403 | The clamped floor division is the block that contains the last computed token |
| ChunkMetadata.FirstScheduledBlock | vllm/v1/attention/backends/mamba_attn.py:405-412 | The index is computed / size |
| ChunkMetadata.LastScheduledBlock | vllm/v1/attention/backends/mamba_attn.py:414-424 | The index is (length - 1) / size for a nonempty sequence |
| ScanKernel.ScanProgram | vllm/_xpu_ops.py:680-900 | One (batch, dim) program on arrays, outputs written over delta and z, leaves exactly the memory that computing from copies of the inputs gives, states stored in the planned slots, skipped programs change nothing |
| ScanKernel.ScanTokens | vllm/_xpu_ops.py:809-861 | The token loop refines the plain recurrence although each element is overwritten as soon as it is used |
| ScanKernel.ScanChunk | vllm/_xpu_ops.py:797-889 | One chunk continues the scan and stores the state in the slot found by the block division |
| ScanKernel.StartPosition | vllm/_xpu_ops.py:784-792 | With several chunks the start position derived from the first chunk's length is the number of tokens already computed |
| ScanKernel.BlockDone | vllm/_xpu_ops.py:873-874 | For every chunk but the last the division finds the block that the chunk fills |
| ScanKernel.PositionsExact | vllm/_xpu_ops.py:784-889 | With the planner's metadata and several chunks, the current position before every chunk is the number of tokens computed before the call plus those processed in it |
| CommutingSteps.AnyOrder | vllm/_xpu_ops.py:1151-1152 | Steps that commute pairwise lead to the same state in every order |
| ProgramOrder.StepsCommute | vllm/_xpu_ops.py:680-707 | Two programs commute if neither stores where the other loads or stores |
| ProgramOrder.GridIndependent | vllm/_xpu_ops.py:680-773 | Programs of a launch, packed or batch-strided, with strides of its own for z, share no buffer element, and share cache entries only through a shared slot |
| ProgramOrder.RowUnique | vllm/_xpu_ops.py:746-773 | If rows are as long as their stride allows, an element of a buffer lies in the row of one (batch, dim) program only, for packed and for batch-strided tensors |
| ProgramOrder.GridAnyOrder | vllm/_xpu_ops.py:1073-1146 | If no request's store slots are used by another request, all enumerations of the grid of a packed or batch-strided launch leave the same memory |
| PrefixCache.SlotsAfterCall | vllm/_xpu_ops.py:863-889 | After a call the slot of every scheduled block b holds the state after exactly min((b+1)*block_size, P+T) tokens, if the scheduled blocks have different entries, whatever the rest of the block-table line holds |
| PrefixCache.OtherSlotsKept | vllm/_xpu_ops.py:863-889 | After a call every other cache entry is unchanged |
| PrefixCache.CallIsExec | vllm/_xpu_ops.py:694-889 | The cache model's call is what the kernel does when launched with the planner's metadata and a block-table line that starts with the request's blocks: the state cache, the outputs over delta and the gated outputs over z |
| PrefixCache.CallOk | vllm/_xpu_ops.py:797-889 | A call keeps every filled block of its request equal to the resumed scan at that block's end, and extends the outputs, plain and gated, accordingly |
| PrefixCache.CallKeepsOther | vllm/_xpu_ops.py:863-889 | A call of one request leaves all blocks of the others as they were, shared prefix blocks included |
| PrefixCache.NextInv | vllm/_xpu_ops.py:694-743 | Calls, joins on a shared block-aligned prefix, growth of a block table and evictions keep the cache invariant |
| PrefixCache.RunInv | vllm/_xpu_ops.py:694-889 | The cache invariant holds at every point of every serving history |
| PrefixCache.CachingIsInvisible | vllm/_xpu_ops.py:694-889 | With lossless state storage, the outputs, plain and gated, and every block's state in every history are those of one uninterrupted plain scan from the first token, however the tokens were split and whichever prefix was shared |
| ServedLaunch.ServedIndependent | vllm/_xpu_ops.py:694-743 | Programs serving different rows of a reachable cache never store where another one loads or stores, because the cache shares only full blocks |
| ServedLaunch.LaunchIsCalls | vllm/_xpu_ops.py:680-900 | A launch over several requests leaves the state cache of one call after the other, and every row's outputs in place; rows without a program are as they were |
| ServedLaunch.ServedInAnyOrder | vllm/_xpu_ops.py:680-900 | So it does in whatever order its programs run, and the cache invariant holds afterwards |
| MambaToken.PaddedRun | vllm/_xpu_ops.py:720-743 | The state on padded lanes is the state on dstate lanes followed by zeros |
| MambaToken.PaddedOutputs | vllm/_xpu_ops.py:809-861 | Outputs of the padded update, plain and gated, are those of the recurrence on dstate elements |
| MambaToken.StorageExact | vllm/_xpu_ops.py:881-888 | Masked stores and loads lose nothing of a reachable padded state |
| MambaToken.ServedOutputs | vllm/_xpu_ops.py:720-889 | Serving through the prefix cache with padded lanes gives the outputs, plain and gated, of the plain recurrence |
| ChunkPlan.PlanChunks | csrc/cumem_allocator.cpp:366-416 | The loop fills chunk_sizes with the planned sizes in 64-bit arithmetic, failing when the aligned chunk size wraps to zero |
| ChunkPlan.PlanGoodIff | csrc/cumem_allocator.cpp:391-416 | All chunks are positive multiples of the granularity, at most the aligned chunk size, and sum to the aligned size if and only if neither round-up wraps |
| ChunkPlan.GuardIsNotEnough | csrc/cumem_allocator.cpp:38-41 | A setting that passes the overflow guard and breaks the plan |
| ChunkPlan.TilesRange | csrc/cumem_allocator.cpp:184-203 | Every byte of the range lies in exactly one chunk at the accumulated offsets |
| SleepWakeCode.PlanCut | csrc/cumem_allocator.cpp:391-416 | Even when a sum wraps, every plan has chunks of positive size that fit the range one behind the other |
| DeviceDriver.LaidIff | csrc/cumem_allocator.cpp:184-203 | Mapping and unmapping use the one layout in which chunk i starts behind the sizes of the chunks before it |
| DeviceDriver.Allocator.CreateAndMap | csrc/cumem_allocator.cpp:119-240 | Without a pending error: success maps every chunk of its own new handle in order; a failed create or map releases each created handle once and unmaps each mapped chunk once, so the device is as before if those calls succeed; later failures leave all mapped; with a pending error the first handle is created and forgotten; in every case the calls made, their arguments and their order are given |
| DeviceDriver.Allocator.CreateAll | csrc/cumem_allocator.cpp:174-183 | Every chunk gets a new handle of its own; on the first failure each handle created before is released once |
| DeviceDriver.Allocator.MapAll | csrc/cumem_allocator.cpp:184-204 | Chunks are mapped one behind the other; on the first failure each mapped chunk is unmapped once, at its own address, and each handle released once |
| DeviceDriver.Allocator.UnmapAndRelease | csrc/cumem_allocator.cpp:242-286 | Every unmap and every release is attempted exactly once, at the offsets used for mapping, and the first failing status is recorded |
| DeviceDriver.CreateUndone | csrc/cumem_allocator.cpp:176-182 | Releasing what was created restores the live handles |
| DeviceDriver.MapUndone | csrc/cumem_allocator.cpp:188-203 | Unmapping and releasing restore mappings and handles |
| SleepWake.NextInv | csrc/cumem_allocator.cpp:346-808 | Every step of every thread, waking or freeing an allocation that has lost its address included, keeps: disjoint reservations, each held by exactly one allocation or nobody, each live handle owned by exactly one allocation or leaked, disjoint mappings that agree with what each allocation has mapped, and what each phase knows about the error code |
| SleepWakeRuns.ReservationsDisjoint | csrc/cumem_allocator.cpp:346-474 | In every interleaving live reservations are disjoint, and so are the ranges of any two allocations that have their address |
| SleepWakeRuns.AddressKept | csrc/cumem_allocator.cpp:704-808 | An allocation's address never changes; whenever it is awake or asleep it holds the reservation of exactly that range, unless a sleep of it reported an error or another allocation's free took the range, and no sleep of it has reserved again since |
| SleepWakeRuns.AddressIff | csrc/cumem_allocator.cpp:477-808 | Over any stretch of a run in which an allocation does not itself give up or replace its address, it has it at the end if and only if it had it at the beginning and nobody took it in between |
| SleepWakeRuns.HarmIff | csrc/cumem_allocator.cpp:713-731 | A bystander keeps its address in a step if and only if the driver does not free its range for another allocation in that step |
| SleepWakeRuns.HarmNeedsLoss | csrc/cumem_allocator.cpp:566-583 | Only an allocation without its address can take another's |
| SleepWakeRuns.SleepReports | csrc/cumem_allocator.cpp:704-741 | A sleep that reports success holds no handle and has reserved its address again in that sleep; it has the address if and only if no other allocation's free took it since |
| SleepWakeRuns.LossIsReported | csrc/cumem_allocator.cpp:713-737 | An allocation that is awake or asleep without its address, and from which nobody took it since a sleep last reserved it again, has a sleep that reported an error since then |
| SleepWakeRuns.WakeReports | csrc/cumem_allocator.cpp:794-808 | In a wake that reports success every create, map, access and memset call succeeded; one that reports an error is asleep and owns nothing |
| SleepWakeRuns.WakeAddressIff | vllm/device_allocator/cumem.py:273-276 | A wake, also of an allocation whose sleep failed, ends with the address if and only if it began with it and nobody took it meanwhile |
| SleepWakeRuns.HandlesOwned | csrc/cumem_allocator.cpp:174-284 | Every live handle belongs to exactly one allocation, awake if no job runs on it, or was leaked |
| SleepWakeRuns.LeakIff | csrc/cumem_allocator.cpp:174-236 | Handles leak in exactly the runs with a failed release, a create that succeeds while an error is pending, or an error seen at the very end when create_and_map has left handles |
| SleepWakeMaps.MappingsDisjoint | csrc/cumem_allocator.cpp:184-203 | In every interleaving mappings at different addresses do not overlap |
| SleepWakeMaps.ChunkIff | csrc/cumem_allocator.cpp:184-273 | Over any stretch of a run in which an allocation itself neither maps nor unmaps a chunk, the device has the chunk's mapping at the end if and only if it had it at the beginning and nobody else unmapped it in between |
| SleepWakeMaps.TakingNeedsLoss | csrc/cumem_allocator.cpp:266-273 | An unmap call that removes another allocation's chunk needs one of the two to be without its address |
| SleepWakeMaps.RollbackLeaves | csrc/cumem_allocator.cpp:184-203 | The rollback releases all handles and leaves the chunk of the last map call mapped if and only if that call had succeeded and nobody else unmaps the chunk |
| SleepWakeLimits.FreeingLost | csrc/cumem_allocator.cpp:581-583 | When the address of an allocation that has lost it is freed, all others keep theirs if and only if the driver refuses or nobody holds the range at that moment, whatever others did since the free began |
| SleepWakeTraces.StolenAddress | csrc/cumem_allocator.cpp:713-731 | A run from the empty system: another malloc gets the address between free and re-reserve, and the later free of the sleeper takes it away again |
| SleepWakeTraces.WokenWithoutAddress | vllm/device_allocator/cumem.py:273-276 | A run from the empty system in which the wake of an allocation that lost its address reports success, mapped at an address whose reservation a sleeping allocation holds |
| SleepWakeTraces.MaskedError | csrc/cumem_allocator.cpp:734-738 | A run from the empty system: a report clears another thread's create failure, and a malloc returns an address with nothing behind it |
| SleepWakeTraces.MaskedMap | csrc/cumem_allocator.cpp:734-738 | The same for a map failure and the access and memset failures that follow from it: the handle is there and nothing is mapped |
| SleepWakeTraces.UnmappedBehind | csrc/cumem_allocator.cpp:266-273 | A run from the empty system: a malloc returns with its address, all its calls having succeeded and no error having been cleared, and another allocation's free has unmapped its memory |
| SleepWakeTraces.LeftMapped | csrc/cumem_allocator.cpp:184-203 | A run from the empty system: another thread's error makes malloc give up after a successful map call, and the chunk stays mapped with its handle and its address given back |
| SleepWakeLimits.BackedIff | csrc/cumem_allocator.cpp:449-473 | A returned address has every chunk mapped to its own handle, and the range opened and zeroed, if and only if no sleep or wake cleared the error code after this malloc had met an error and no other allocation's unmap call succeeded at the address of a chunk it had mapped |
| SleepWakeLimits.BackedWhenUndisturbed | csrc/cumem_allocator.cpp:449-473 | When the error code was not cleared at all while the malloc ran, the address is aligned, and the memory is there if and only if no such unmap call succeeded |
| SleepWakeLimits.WakeBackedIff | csrc/cumem_allocator.cpp:743-808 | A wake that reports success has every chunk mapped to its own handle, and the range opened and zeroed, if and only if no other allocation's unmap call succeeded at the address of a chunk it had mapped |
| SleepWakeLimits.InUseIff | csrc/cumem_allocator.cpp:184-273 | From then on, as long as the memory is in use, it is there if and only if no such unmap call has succeeded |
| SleepWakeCode.InterferenceSound | csrc/cumem_allocator.cpp:346-808 | Steps of other threads keep the invariant, leave an allocation alone up to taking its address and unmapping chunks of it, and cannot clear an error while its job holds the lock |
| SleepWakeCode.Machine.ReserveAddress | csrc/cumem_allocator.cpp:50-71 | An address is accepted only if it is aligned; a misaligned second attempt is given back |
| SleepWakeCode.Machine.Malloc | csrc/cumem_allocator.cpp:346-474 | An address is returned only for an aligned range, cut into the given chunks, that the new allocation holds, unless others took it; if the error code was not cleared meanwhile every call succeeded, and each chunk is mapped to its handle if and only if others have not unmapped it; without an address the allocation is over |
| SleepWakeCode.Machine.CreateAndMap | csrc/cumem_allocator.cpp:119-240 | Under interference it comes back with the allocation's address and job unchanged; if the error code was not cleared meanwhile, either it is set or every call succeeded and each chunk is mapped to its handle if and only if others have not unmapped it |
| SleepWakeCode.Machine.UnmapAndRelease | csrc/cumem_allocator.cpp:242-286 | Under interference it ends with no handle of the device belonging to the allocation and none of its mappings left but those whose unmap call failed; if one failed the error code is set |
| SleepWakeCode.Machine.Sleep | csrc/cumem_allocator.cpp:622-741 | The allocation ends asleep and owns no handle, whatever is reported; true means that none of its mappings is left and that it has its old address, unless a thread freeing an address it had lost took it; the error code is clear afterwards |
| SleepWakeCode.Machine.Wake | csrc/cumem_allocator.cpp:743-808 | From asleep, address lost or not: true means awake with every call made and each chunk mapped to its handle if and only if others have not unmapped it, false means asleep and owning nothing; a lost address does not come back, and one that is there stays unless others take it |
| SleepWakeCode.Machine.Free | csrc/cumem_allocator.cpp:477-594 | Awake or asleep, address lost or not, the allocation ends with no handle, no claim to its address and no mapping of its own but those whose unmap call failed or, if it was asleep, that were still there |
| BlockFiles.NextInv | csrc/fs_io.cpp:40-113 | Every step of every writer and reader keeps: a destination is absent or bound to a complete file nobody will modify, and temp files in use are distinct |
| BlockFiles.TempsDiffer | csrc/fs_io.cpp:50-55 | Exclusive creation alone keeps the temp files of live stores apart, whatever names they were given |
| BlockFileRuns.WholeBlocks | csrc/fs_io.cpp:40-113 | At every point of every run each destination holds a whole block, and a load that returned 0 holds the front of a single one |
| BlockFileRuns.ExactBlock | csrc/fs_io.cpp:87-113 | With a buffer of the block's size a load that returned 0 holds exactly one writer's block, never a mixture |
| BlockFileRuns.PublishedIsFrozen | csrc/fs_io.cpp:57-78 | A published file is never modified again, even after it was replaced or removed |
| BlockFileRuns.RemovalIff | csrc/fs_io.cpp:95-107 | Some run lets a load unlink its path if and only if a block of that path is shorter than its buffer |
| BlockFileRuns.RemovedIsRead | csrc/fs_io.cpp:87-107 | The file a load unlinks is the one it has read if and only if no store published there since it was opened |
| BlockFileRuns.StoredStays | csrc/fs_io.cpp:40-107 | If no buffer exceeds a block, a block stays present from the moment its store returned 0 |
| BlockFileRuns.TempUntouched | csrc/fs_io.cpp:50-77 | No process touches or removes another's temp file |
| BlockFileRuns.NoTempsLeft | csrc/fs_io.cpp:57-77 | When cleanup unlinks succeed, the temp files present are those of stores in progress |
| BlockFileCode.InterferenceSound | csrc/fs_io.cpp:40-113 | Steps of other threads and processes are covered by what the code assumes between two system calls |
| BlockFileCode.BlockStore.StoreBlock | csrc/fs_io.cpp:40-78 | Returns 0 with a whole block at the destination at that moment, or the first error, and keeps the protocol's invariant at every system call |
| BlockFileCode.BlockStore.BatchStore | csrc/fs_io.cpp:203-262 | Stops at the first error and reports its index; all blocks before it are in place and stay while others go on |
| BlockFileCode.BlockStore.LoadBlock | csrc/fs_io.cpp:87-113 | Returns 0 only with the front of one whole block of its path in the buffer |
| BlockFileCode.BlockStore.BatchLoad | csrc/fs_io.cpp:272-338 | Stops at the first error and reports how many blocks were loaded; those buffers hold whole blocks |
| TensorSlices.FlatUnflat | tools/slice_exl3_checkpoint.py:77 | Row-major flattening inverts unflattening |
| TensorSlices.UnflatFlat | tools/slice_exl3_checkpoint.py:77 | Row-major unflattening inverts flattening |
| TensorSlices.SliceElement | tools/slice_exl3_checkpoint.py:76-77 | By multi-dimensional index, a rank's contiguous slice is the source shifted by rank widths |
| TensorSlices.RoundTrip | tools/slice_exl3_checkpoint.py:68-77 | For every rank, shape, dimension and tp, concatenating the slices rebuilds shape and data exactly |
| TensorSlices.SplitIff | tools/slice_exl3_checkpoint.py:68-77 | Pieces that concatenate to a tensor are its slices if and only if they all have the same extent along the split dimension |
| TensorSlices.UnevenPieces | tools/slice_exl3_checkpoint.py:371-374 | Pieces of extent 1 and 3 concatenate to a tensor and are not its slices |
| TensorSlices.SomeSlice | tools/slice_exl3_checkpoint.py:77 | Every source element lands in some rank's slice |
| TensorSlices.OneSlice | tools/slice_exl3_checkpoint.py:77 | It lands in only one place of only one slice |
| TensorSlices.SliceBytes | tools/slice_exl3_checkpoint.py:108-109 | The slices share the tensor's bytes equally |
| ExpertNames.ParsedName | tools/slice_exl3_checkpoint.py:35-39 | The pattern's prefix and field put together again are the name |
| ExpertNames.RankedInjective | tools/slice_exl3_checkpoint.py:64-65 | Distinct (expert tensor, rank) pairs have distinct output names |
| ExpertNames.RankedIsOrdinary | tools/slice_exl3_checkpoint.py:64-65 | A slice's name never matches the expert pattern |
| SliceRules.ClashIff | tools/slice_exl3_checkpoint.py:277-288 | Output names repeat if and only if an ordinary source tensor has a slice's name |
| SliceRules.TransformBytes | tools/slice_exl3_checkpoint.py:206-209 | Bytes written for a tensor: its size once, or once per rank if it is replicated |
| ExpertInventory.Inspect | tools/slice_exl3_checkpoint.py:146-191 | The checks pass if and only if the expert tensors are exactly a grid: contiguous layers, experts 0 to n - 1, three projections, four fields |
| SliceCheckpoint.Plan | tools/slice_exl3_checkpoint.py:120-209 | It fails exactly for tp below 2, incomplete expert records or a tensor that cannot be transformed; otherwise it counts the outputs and their bytes |
| SliceCheckpoint.Convert | tools/slice_exl3_checkpoint.py:253-292 | It fails exactly if the plan does or an ordinary tensor has a slice's name; otherwise the tree holds every output once, in its source's shard, and the counts of tensors and bytes are the planned ones |
| SliceCheckpoint.ConvertShard | tools/slice_exl3_checkpoint.py:277-291 | One shard's loops write its outputs or find a repeated name |
| SliceValidate.Validate | tools/slice_exl3_checkpoint.py:328-374 | It accepts exactly the trees in which every source tensor's outputs are in its shard and compare equal by its rule |
| SliceValidate.LosslessIff | tools/slice_exl3_checkpoint.py:361-374 | An accepted tensor can be rebuilt from the tree if and only if there are ranks or it is not replicated |
| SliceValidate.AcceptedSlicesIff | tools/slice_exl3_checkpoint.py:361-374 | The pieces accepted for a tensor are those the converter would write if and only if a split tensor's pieces all have the same extent |
| SliceValidate.AcceptedDetermines | tools/slice_exl3_checkpoint.py:328-374 | Two sources over the same names that are accepted against one tree have equal tensors, those replicated over no ranks excepted |
| SliceValidate.NoRanksNoCheck | tools/slice_exl3_checkpoint.py:368-370 | With no ranks a replicated tensor is accepted whatever it holds |
| SliceValidate.ConvertedIsAccepted | tools/slice_exl3_checkpoint.py:277-374 | What the conversion loop wrote is always accepted |
| SliceValidate.ConvertAndValidate | tools/slice_exl3_checkpoint.py:253-325 | Validation never turns a converted tree down |
| BuildSweep.SortTimeline | tools/report_build_time_ninja.py:219-229 | Sorting by time and action lists every start and stop once, starts first at equal times |
| BuildSweep.Conserved | tools/report_build_time_ninja.py:240-254 | The weighted durations add up to the length of the segments in which something ran |
| BuildUnion.BusyIsUnion | tools/report_build_time_ninja.py:238-256 | That is the length of the union of the tasks' intervals, merged by start time |
| BuildReport.Accumulates | tools/report_build_time_ninja.py:240-245 | One step of the running total adds one elementary segment's share |
| BuildReport.WeightedIs | tools/report_build_time_ninja.py:246-253 | The growth of the running total between start and stop is the sum of the task's shares |
| BuildReport.Scan | tools/report_build_time_ninja.py:230-256 | The scan sets every task's weighted duration and total, and fails exactly if some task ends before it starts |
| BuildSummary.WithinDuration | tools/report_build_time_ninja.py:74-89 | A weighted duration lies between zero and the duration |
| BuildSummary.WeightedTotal | tools/report_build_time_ninja.py:240-256 | The weighted total is the length of the union of the intervals, merged independently of the sweep, and the whole span exactly when there is no idle moment |
| BuildSummary.EarliestIff | tools/report_build_time_ninja.py:209-214 | earliest is the earliest start if and only if no start is negative or the last target starts first |
| BuildSummary.LatestIff | tools/report_build_time_ninja.py:210-216 | latest is the last end if and only if some end is not negative |
| BuildSummary.Summarize | tools/report_build_time_ninja.py:198-256 | It succeeds exactly on nonempty lists of tasks that do not end before they start; then weighted durations and total are the reference's, the span is right exactly under the two conditions above, and then the total fills it exactly if there is no idle moment |
| NinjaLog.ReadTargets | tools/report_build_time_ninja.py:104-148 | It returns the grouping by command of all well-formed lines, or without show_all of those from where the last build starts: the last line that conflicts with a line of the build before it; from there on it is one build |
| NinjaLog.BuildStartIs | tools/report_build_time_ninja.py:124-142 | From where the last build starts no line conflicts with an earlier one, and its first line conflicts with one of the build before |
| NinjaLog.DropOldBuild | tools/report_build_time_ninja.py:124-142 | The two checks for a new build drop everything read so far if and only if the line conflicts with one of the build so far |
| NinjaLog.AddEntry | tools/report_build_time_ninja.py:143-147 | A line appends its name to its command's target or opens a new one behind the others |
| NinjaLog.AllNamesKept | tools/report_build_time_ninja.py:143-147 | The targets' names together are the logged names, each as often as it was logged |
| PagedGather.Fetch | vllm/_custom_ops.py:193-198 | Block, offset and slot of every position, looked up one by one, give the request's window |
| PagedGather.Gather | vllm/_custom_ops.py:185-199 | The destination becomes the concatenation of all requests' windows followed by its old rows |
| PagedGather.LandsAt | vllm/_custom_ops.py:190-199 | Each request's window stands in the output behind those before it |
| PagedGather.OffsetIff | vllm/_custom_ops.py:187-199 | A request's rows start at cu[i] - cu[0] if and only if no earlier length is negative |
| PagedGather.GatheredIsSlices | vllm/_custom_ops.py:185-199 | If the cache holds the requests' rows through their page tables, what is gathered are the slices of those rows, whatever the pages |
| Spinloop.NoLostWakeupIff | csrc/spinloop.cpp:91-138 | No run waits with the condition true and the monitor silent if and only if the buffer lies within one monitored line |
| Spinloop.LosingRun | csrc/spinloop.cpp:91-138 | The run that loses a wake-up when the buffer straddles two lines |
| Spinloop.LeavesInTime | csrc/spinloop.cpp:108-125 | With a timeout at most 16 iterations begin after the deadline, however often the 32-bit counter wraps |
| TokenQuant.HalfStepIff | vllm/_xpu_ops.py:918-935 | For every row: all elements come back from their stored bytes within half a scale step for every conversion to 32 bits and to a byte, if and only if the lowest value is less than 2^31 - 1/2 steps from zero (or the mode is symmetric) and the codes of the lowest and highest values fit the byte |
| TokenQuant.HalfStep | vllm/_xpu_ops.py:918-935 | For such a row they do, in both modes, clamping, minimum scale and the wrap-around of -1 * zero point included |
| TokenQuant.EightBitsIff | vllm/_xpu_ops.py:918-935 | Up to eight bits they do for every conversion if and only if the zero point fits |
| TokenQuant.SixteenBits | vllm/_xpu_ops.py:931-935 | With sixteen bits a row that spans the range has a code that does not fit its byte |
| TokenQuant.CodeIff | vllm/_xpu_ops.py:931-935 | An element comes back from its code within half a step if and only if its scaled value is at most half a step outside the range |
| TokenQuant.RoundIff | vllm/_xpu_ops.py:929-934 | Rounding gives the one integer that is nearest, or even among two equally near |
| TokenQuant.ScaleExact | vllm/_xpu_ops.py:922-928 | The quantized range covers the row's spread, and no more than it unless the minimum scale is reached |
| TokenQuant.FitsByte | vllm/_xpu_ops.py:931-935 | Up to eight bits the clamped value fits the byte it is stored in |
| TokenQuant.InRange | vllm/_xpu_ops.py:918-933 | With the exact zero point, the value that is rounded exceeds the range by at most half a step |
| TokenQuant.WideZeroPoint | vllm/_xpu_ops.py:925-929 | A constant row far from zero violates the condition |

## Left out

- Floating-point rounding: the scan's update is uninterpreted or over the reals, the quantizer and the report use reals, and exp and softplus are uninterpreted.
- TokenQuant.HalfStep: a signed range of one bit, where the source divides by zero, is excluded, and so is an empty row.
- PrefixCache.CachingIsInvisible: assumes that a stored state loads back unchanged; without that the run with rounding at every resume is what PrefixCache.RunInv gives.
- ScanKernel.ScanProgram: addresses within the buffers are required, as the kernel itself demands; the 32-bit casts of the metadata are not modelled.
- The decode kernels, the convolution state and the scheduler around the scan.
- The CUDA branches of the allocator, the tuple building and reference counting between Python and C, and failures of host malloc other than giving up the reservation.
- DeviceDriver.Allocator.CreateAndMap: runs alone; SleepWakeCode.Machine.CreateAndMap has the interference between its driver calls.
- The driver of the lifecycle may free a reservation or release a handle while something is still mapped there; a driver that refuses is covered, since any call may fail.
- The size that my_free is called with is taken to be the aligned size of the allocation.
- The lifecycle assumes that sleep, wake and free are asked only for allocations whose malloc has returned; the registry's entry for a failed malloc and the CPU backup of contents are not modelled.
- A failed driver call and the look at the error code right after it are separate steps; a look and the driver call it guards are one step, which loses no behaviour because other threads can only raise the code in between.
- BlockFiles.NextInv: temp paths are assumed not to be destinations; reads come up short only at the end of the file, and direct I/O, permissions and crashes of the machine are not modelled.
- SliceCheckpoint.Plan: the failures for missing files, bit rate, codebook, shard paths and a shard whose contents differ from the index are not modelled, and neither are JSON, hashing and the copying of support files.
- SliceCheckpoint.Convert: fails where Plan does, with the same exceptions.
- The expert name pattern is taken with ASCII digits; torch.cat's special case for empty one-dimensional tensors and comparison of NaN are not modelled.
- The warning threshold, printing and grouping by extension in the build report; targets are compared in integral milliseconds when the log is read.
- PagedGather.Gather: page tables in range, window starts that are not negative and a long enough destination are required, as indexing in the source does.
- Spinloop.LeavesInTime: counts iterations, not time; the loop is a step system because it need not end.
- The foreign-kernel wrappers in vllm/_custom_ops.py and the rest of vllm/_xpu_ops.py, which forward arguments.
