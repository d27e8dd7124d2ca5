# Verified model of the NPU simulator

The simulator has three parts whose behaviour is more than arithmetic, and this
project models each of them and proves what it is for.

**The golden executor** (`sim/golden_executor.py`, `sim/quantize.py`) is a
bit-level interpreter for NPU instructions over a byte-addressed SRAM and DRAM.
`Memory`, `NpuMemory`, `DmaDescriptors` and `DmaTransfers` hold the memories, the
64-bit descriptor codec, the chain builder and the two chain-walking
instructions; the main result is that a DMA load is one copy. `Int4`, `Mxu`,
`Mmul`, `Isa` and `IsaMeaning` hold the nibble packing, the tiled saturating
product, the matrix instruction, the instruction set and what each instruction
leaves in memory; the main result is that MMUL is the exact matrix product. `OpChain`, `OpChainMeaning` and `Executor` hold the pass
that inserts dtype conversions between instructions and the proof that it
preserves the meaning of the program. `Quantize`, `QuantizedGemm` and
`PerChannel` follow a weight matrix through quantisation, packing and the scaled
product, and bound the error. `Softmax` and `Cordic` cover the table-driven
exponential and the shift-and-add rotation over exact reals.

**The scenario scheduler** (`sim/scenario_runner.py`) is a preemptive dispatcher.
`Scheduling` gives its handlers as functions on a state; `Runner` gives the class
with its fields and loops, each method proved equal to its function. `Accounting`,
`DispatchOrder`, `JobPlaces` and `PolicyOrder` prove what holds in every reachable
state and what a dispatch pass achieves; `ServiceTime` proves that a job is given
exactly its work over all its preemptions; `Mailboxes` says what a mailbox holds
over a run and what becomes of a waiting job; `EndOfRun` proves that every job that
arrived has met exactly one fate when the run has drained its queues;
`TwoResources` and `StaleResume` are runs in which a plausible property fails.

**The design-space generator and its judges** (`sim/dse/`, and two further
frontier implementations). `DesignModels`, `Repair`, `RepairConverges`,
`Enumeration`, `Covering`, `CoverContents` and `Generator` hold constraint repair,
the two enumeration modes, what the covering one contains, and the class; `Ledger` and `Manifest` hold the coverage ledger
and the runner's loop; `Frontier`, `Pareto` and `ParetoAgreement` hold the three
frontiers. `CycleFormula` is the reference cycle count of `scripts/analyze_perf.py`.

`Ordering`, `Arithmetic` and `Options` are shared helpers. A loop of the source is
a loop here, proved against a function; the theorems are about the functions.

## Where the code does not do what it might seem to

- A preemption can be in vain: the victims make room for a job exactly when its
  needs fit beside the jobs that rank before it (`DispatchOrder.PreemptForServesExactly`),
  and `_preempt_for` evicts the others without looking
  (`DispatchOrder.AttemptServesExactly`).
- A queued job can be running and still wait in its queue: with two resources a
  preemption can free the wrong unit, and the job that then starts is not at the
  head of its queue, so it is not taken out (`TwoResources.AJobWaitsWhileItRuns`).
  The exact condition for one start is that the job is the head
  (`JobPlaces.OnlyTheHeadMayStart`); it holds throughout when preemption is off,
  or when all jobs have the same needs, of any resources.
- A mailbox is meant to keep the latest item of its stream until a newer one
  replaces it, but `_start_job` takes the pending item out whichever job of the
  stream it starts. Resuming an older job takes the latest one, and no record says
  so (`StaleResume.LatestIsLost`): a waiting job is lost exactly when a job of its
  stream starts and it does not fit itself (`Mailboxes.PendingFate`), never when it
  is the only job of the stream that may be dispatched (`Mailboxes.AloneIsNeverLost`).
- A comment in `matmul_int32` (`sim/golden_executor.py:124-125`) counts on 64-bit
  accumulation, while the array library keeps 32 bits for 32-bit operands. The
  model takes either (`wide`); the product is exact under both exactly for
  K up to 2097151 (`Mxu.ExactUpToLimit`).
- `_get_dst_addr` takes a destination `da` of 0 for a missing one, but an `oa` of 0
  passes (`OpChain.DstAddrIsWriteAddr`). A producer without `len` counts as
  producing nothing to the converter pass and as 2560 elements to the instruction,
  so its consumer reads stale scratch unless it reads nothing
  (`OpChainMeaning.MissingLengthLeavesScratchStale`); in general a conversion feeds
  its consumer exactly when it converts as many elements as the consumer reads
  (`OpChainMeaning.HoldsExactly`). The dtype table is wrong
  about VRED_MAX and VRED_SUM (`OpChain.TableMatchesReads`), so they are not
  supported as consumers of a converted operand.
- The chain builder never ends with a chunk size of 0 and refuses a negative one.
- A filter that requires the quality gate admits no result at all, since that gate
  is never resolved (`Pareto.GatesAdmit`).
- `compute_frontier` gives a result without metrics the worst values, the legacy
  adapter skips it; the two disagree exactly when nothing measured beats those
  values (`ParetoAgreement.FrontiersAgreeExactly`).
- Pruning a point takes its axis values out of the evaluated and successful sets
  even when other points hold them (`Ledger.PruningForgetsOthers`).
- Full mode can leave a requested value neither generated nor excluded, because an
  exclusion names the axis that was found wrong, not the value that is lost
  (`Generator.FullModeCanMiss`); the manifest's third invariant then fails.
- Repair need not settle. Two constraints on one axis that match together settle
  exactly when the first value of one list is in the other list, or when the axis
  already has a value of both; otherwise every round changes the axis twice, the
  first perhaps once (`RepairConverges.PairSettlesExactly`).
- Repair raises when a rule that matches is broken on an axis the combination does
  not bind; `Generator.DesignSpace.CiAllAxesCombinations` says exactly when.

## Model

| member | source | states |
|---|---|---|
| `DmaDescriptors.FieldsDoNotOverlap` | sim/golden_executor.py:832-843 | joining the masked fields by shift and bitwise or is adding them, on 64-bit vectors |
| `DmaDescriptors.DecodeEncode` | sim/golden_executor.py:814-856 | every descriptor the constructor accepts survives encoding and decoding up to 4096 becoming 0, keeps its transfer size, and its word fits 64 bits |
| `DmaDescriptors.EncodeLayout` | sim/golden_executor.py:794-843 | every field of an acceptable descriptor sits at its documented bit position, a size of 4096 as 0 |
| `DmaDescriptors.EncodeDecode` | sim/golden_executor.py:832-855 | every 64-bit word decodes to an acceptable descriptor that encodes to that word |
| `DmaDescriptors.BuildWeightLoadChain` | sim/golden_executor.py:879-905 | the builder's loop for all bases, totals and chunk sizes: the chain, the error, or no end at all |
| `DmaDescriptors.ChainAcceptedExactly` | sim/golden_executor.py:814-905 | the builder succeeds exactly when no chunk exceeds 4096 and the first and last chunk start within the address fields |
| `DmaDescriptors.LastOffsetClosed` | sim/golden_executor.py:887-903 | where the last chunk starts, in closed form |
| `DmaDescriptors.ChainShape` | sim/golden_executor.py:890-903 | exactly the last descriptor carries the last flag and the sizes add up to the total |
| `DmaDescriptors.ChainAt` | sim/golden_executor.py:879-905 | every descriptor of the chain: addresses a chunk apart on both sides, the rest in the last one, loads on channel 0 |
| `DmaTransfers.LoadFollowsChain` | sim/golden_executor.py:1383-1396 | DMA_LDD performs the transfers of any chain stored in DRAM in order and stops after its last descriptor |
| `DmaTransfers.LoadIsOneCopy` | sim/golden_executor.py:832-905 | build, encode, store little-endian, walk: DMA_LDD ends after the chain's length and copies exactly `total` contiguous bytes, nothing else changed |
| `DmaTransfers.StoreFollowsChain` | sim/golden_executor.py:1398-1410 | DMA_STD performs a stored chain's transfers although it reads the chain from the memory it writes, if no transfer lands on a descriptor still to be read |
| `DmaTransfers.StoreIsOneCopy` | sim/golden_executor.py:873-877 | walking a built chain with DMA_STD writes one contiguous SRAM block to DRAM, under the same condition |
| `DmaTransfers.StoreThenLoad` | sim/golden_executor.py:868-877 | a block apart from its chain is stored as one copy, and loading through the chain afterwards leaves SRAM as it was |
| `DmaTransfers.LoadThenStore` | sim/golden_executor.py:868-877 | loading through any built chain and storing through it leaves DRAM as it was, even where the block covers the chain itself |
| `DmaTransfers.LoadsNeverOverflow` | sim/golden_executor.py:1048-1053 | whatever DRAM holds, no DMA_LDD ever trips the SRAM bounds check |
| `DmaTransfers.PastTheEnd` | sim/golden_executor.py:873-877 | a store past the end of DRAM is refused with nothing written, except that a single byte is dropped; one that fits is refused only when SRAM is too short |
| `NpuMemory.Sram.ReadBytes` | sim/golden_executor.py:1042-1046 | returns the bytes or refuses past the end |
| `NpuMemory.Sram.WriteBytes` | sim/golden_executor.py:1048-1053 | writes exactly the block, or refuses and writes nothing |
| `NpuMemory.DmaEngine.ExecuteLoad` | sim/golden_executor.py:868-871 | one descriptor: the DRAM slice, cut off at the end, goes to SRAM |
| `NpuMemory.DmaEngine.ExecuteStore` | sim/golden_executor.py:873-877 | one descriptor the other way: refused when the block read is longer than one byte and does not fit, while a single byte past the end is lost without an error |
| `NpuMemory.DmaEngine.LoadChain` | sim/golden_executor.py:1383-1396 | the loop on the objects ends as the walk on values does: same outcome, count and memory, after a refusal too |
| `NpuMemory.DmaEngine.StoreChain` | sim/golden_executor.py:1398-1410 | the same for the store loop |
| `Memory.LittleEndianRoundTrip` | sim/golden_executor.py:1389-1390 | little-endian bytes read back as the number |
| `Memory.FromBytesRoundTrip` | sim/golden_executor.py:1389-1390 | every byte string is the little-endian form of what it reads as |
| `Int4.UnpackPack` | sim/golden_executor.py:55-85 | unpacking gives the packed values back up to one padding zero exactly when all fit four bits |
| `Int4.PackUnpack` | sim/golden_executor.py:55-85 | packing undoes unpacking on every byte string |
| `Mxu.PartialIsExact` | sim/golden_executor.py:120-130 | for K up to 2097151 neither the clip nor 32-bit wrap-around ever acts |
| `Mxu.ExactUpToLimit` | sim/golden_executor.py:120-130 | the saturated accumulation is exact for all operands exactly up to that K |
| `Mxu.WideSaturates` | sim/golden_executor.py:120-130 | a 64-bit accumulation ends in the nearest 32-bit number, for all operands and lengths |
| `Mxu.NarrowWraps` | sim/golden_executor.py:120-130 | a 32-bit one ends in the 32-bit number that differs from the sum by multiples of 2^32 |
| `Mxu.MatrixUnit.MatmulInt32` | sim/golden_executor.py:89-132 | the H x W tile loops compute the saturated sum of every element, for any positive H and W |
| `Mmul.BlockReadsBack` | sim/golden_executor.py:1055-1063 | an int32 block written to SRAM reads back |
| `Mmul.Execute` | sim/golden_executor.py:1231-1244 | the instruction on the SRAM object: the step on values, or an error with nothing written |
| `Mmul.MemoryDotIsDot` | sim/golden_executor.py:134-150 | the sums over the two operand slices are sums over int8 bytes and nibbles at their SRAM addresses |
| `Mmul.MmulIsExact` | sim/golden_executor.py:89-150 | every element of the result at `oa` is the exact sum of products read from SRAM, and no byte outside the result changes |
| `Isa.WritesWhatItSays` | sim/golden_executor.py:1231-1482 | each instruction writes as many bytes as its operands announce |
| `Isa.MmulStepIsStep` | sim/golden_executor.py:1231-1244 | the interpreter's MMUL case is the matrix instruction |
| `IsaMeaning.MatrixStep` | sim/golden_executor.py:1231-1244 | MMUL is the matrix instruction at the addresses and default dimensions of its operands |
| `IsaMeaning.PairwiseStep` | sim/golden_executor.py:1414-1432 | VADD and VMUL leave at `da` the saturated sums and products of the two int32 vectors at `sa`, change nothing else, and raise exactly out of bounds |
| `IsaMeaning.ToHalfStep` | sim/golden_executor.py:1452-1460 | VCONV, element by element |
| `IsaMeaning.ToInt32Step` | sim/golden_executor.py:1462-1470 | VCONV_F16_I32, element by element |
| `IsaMeaning.ResidualStep` | sim/golden_executor.py:1472-1482 | VRESID leaves the saturated sums of the truncated half vector at `sa` and the int32 vector at `sb`, by default 1024 bytes on |
| `IsaMeaning.UnitStep` | sim/golden_executor.py:1246-1382 | the special-function instructions: the vector at `sa` and the remaining operands go to the unit, its output to `da` |
| `IsaMeaning.IdleStep` | sim/golden_executor.py:1225-1229 | NOP, BARRIER and the KV instructions leave the memory alone |
| `IsaMeaning.ClipStep` | sim/golden_executor.py:1619-1624 | the inserted clip leaves each int32 saturated to -128..127 as one byte |
| `OpChain.TableMatchesReads` | sim/golden_executor.py:1173-1191 | the input-dtype table agrees with what the instructions read exactly off the two reductions |
| `OpChain.TypesAreWidths` | sim/golden_executor.py:1173-1212 | the types in the tables are those of the bytes: what an instruction writes and reads is whole elements of them |
| `OpChain.CountExactly` | sim/golden_executor.py:1528-1536 | the element count the pass uses is what the instruction writes exactly when its length is given |
| `OpChain.DstAddrIsWriteAddr` | sim/golden_executor.py:1505-1507 | exactly when the address the pass takes for a result is where the result goes |
| `OpChain.InsertDtypeConverters` | sim/golden_executor.py:1538-1606 | the pass's loop computes the expansion, or refuses the program |
| `OpChainMeaning.InsertionPreservesMeaning` | sim/golden_executor.py:1538-1627 | on a supported chain the expanded program fails exactly when the typed run does and leaves SRAM outside scratch as the typed run does |
| `OpChainMeaning.OneConversion` | sim/golden_executor.py:1567-1583 | a single inserted conversion feeds the consumer the converted operand |
| `OpChainMeaning.ConvertsBetweenTypes` | sim/golden_executor.py:1555-1606 | which conversion is chosen: from the written type to the read type, none for equal or absent types, and refused exactly from int32 to int8 |
| `OpChainMeaning.TwoConversions` | sim/golden_executor.py:1585-1596 | fp16 to int8 by conversion and clip feeds the consumer the clipped operand |
| `OpChainMeaning.SlotsDisjointAndAligned` | sim/golden_executor.py:1562-1596 | the result of the pass is the program with items added between, and from an aligned base the ranges those items write are pairwise disjoint and 64-byte aligned |
| `OpChain.RoundUpIsLeast` | sim/golden_executor.py:1572-1596 | a slot takes the least multiple of 64 that holds it |
| `OpChainMeaning.MissingLengthLeavesScratchStale` | sim/golden_executor.py:1528-1536 | for every conversion after a producer without `len`: over all memories the slot holds the operand exactly when the consumer reads no element |
| `OpChainMeaning.HoldsExactly` | sim/golden_executor.py:1562-1596 | for every kind of conversion, over all memories of a size, the slot holds the converted operand of n elements after the inserted items exactly when n is at most the number they convert |
| `Executor.GoldenExecutor.StepInstr` | sim/golden_executor.py:1214-1491 | an instruction on the SRAM object does what the step on values does |
| `Executor.GoldenExecutor.Int8ClipOn` | sim/golden_executor.py:1619-1624 | the clip item reads int32, saturates to int8 and writes |
| `Executor.GoldenExecutor.RunOpChain` | sim/golden_executor.py:1608-1627 | the run of a chain is the run of its expansion, and for a supported program succeeds exactly when the typed run does, with its memory outside scratch |
| `Quantize.QuantError` | sim/quantize.py:111-119 | a value within its block's maximum lands in [-7, 7] without the clip acting and comes back within half a scale |
| `Quantize.FullScale` | sim/quantize.py:111-119 | the largest magnitude of a block becomes 7 or -7 |
| `Quantize.ElementError` | sim/quantize.py:105-134 | the same for every element of the matrix with its own block's scale |
| `Quantize.ErrorInWeights` | sim/quantize.py:105-134 | in terms of the weights alone: every element comes back within M/14 + 10^-12, M the largest magnitude of its block of its column |
| `Quantize.ZeroExactly` | sim/quantize.py:111-118 | a block of a column is quantised to zeros exactly when all its weights are below 10^-12 in magnitude |
| `Quantize.PeakComesBack` | sim/quantize.py:111-134 | otherwise its largest magnitude is quantised to 7 or -7 and comes back exactly, and the scale is a seventh of it |
| `Quantize.BlockIsExact` | sim/golden_executor.py:243-252 | a block's 32-bit sum is exact for group sizes up to 2097151 |
| `Quantize.BlocksCover` | sim/quantize.py:100-107 | the blocks cover the reduction dimension exactly |
| `QuantizedGemm.PackedValues` | sim/quantize.py:121-127 | unpacking the packed matrix gives every quantised value back |
| `QuantizedGemm.QuantizedProductBound` | sim/golden_executor.py:186-260 | the per-block product of the packed weights equals A times the dequantised matrix and is within the sum of abs(A)*scale/2, and of abs(A)*(M/14 + 10^-12), of A times W, per entry |
| `QuantizedGemm.ScaleBlock` | sim/quantize.py:105-119 | one block's scales and quantised rows, the rest unchanged |
| `QuantizedGemm.DequantizeBlock` | sim/quantize.py:130-134 | one block of the reference matrix, the rest unchanged |
| `QuantizedGemm.QuantizeInt4PerBlock` | sim/quantize.py:79-136 | the three outputs are the packed quantised matrix, the scale table and the dequantised matrix, whose entries `Quantize.ErrorInWeights`, `ZeroExactly` and `PeakComesBack` describe |
| `QuantizedGemm.MatmulInt4PerBlock` | sim/golden_executor.py:186-260 | the column-tile and block loops compute the sum of scaled block sums |
| `PerChannel.ChannelRoundTrip` | sim/quantize.py:57-71 | dequantising the packed bytes gives the quantiser's reference value, within half a scale of the weight |
| `PerChannel.ChannelProductBound` | sim/golden_executor.py:154-184 | both error bounds for the per-channel product |
| `PerChannel.ScaleChannels` | sim/quantize.py:34-45 | the column loop's scales and quantised values |
| `PerChannel.QuantizeInt4PerChannel` | sim/quantize.py:11-54 | its three outputs |
| `PerChannel.DequantizeInt4PerChannel` | sim/quantize.py:57-71 | each element is its nibble times its column's scale |
| `PerChannel.MatmulInt4PerChannel` | sim/golden_executor.py:154-184 | each element is the saturated sum times its column's scale |
| `Softmax.ExpMonotone` | sim/golden_executor.py:331-358 | the interpolated exponential is monotone on the whole line, clamps included, and stays in [0, 1] |
| `Softmax.ExpAtPoint` | sim/golden_executor.py:341-351 | at the table's points it returns the table's entries |
| `Softmax.ExpBetweenPoints` | sim/golden_executor.py:331-358 | between two points it lies on the line through their entries; below the table it is 0, above 1 |
| `Softmax.NormaliserAtLeastOne` | sim/golden_executor.py:366-374 | the sum of exponentials is at least 1, so the division always happens |
| `Softmax.SoftmaxIsDistribution` | sim/golden_executor.py:360-377 | for every nonempty vector outputs are non-negative, sum to 1 and keep the input order |
| `Softmax.SoftmaxRatios` | sim/golden_executor.py:360-377 | each output is the exponential of its input less the maximum, magnitudes below 2^-14 flushed, over the sum of all |
| `Softmax.ShiftInvariant` | sim/golden_executor.py:366-371 | adding a constant to all inputs changes nothing when no element is flushed |
| `Cordic.ReducedAngle` | sim/golden_executor.py:541-554 | the reduced angle lies in [-pi/2, pi/2], differs by half turns, and the flip is set exactly when their number is odd |
| `Cordic.ReducedAlready` | sim/golden_executor.py:541-554 | an angle in [-pi/2, pi/2] is left alone, ends included |
| `Cordic.NormKeptExactly` | sim/golden_executor.py:556-570 | lengths are kept for all vectors and angles exactly when gain squared undoes the growth, whatever the table |
| `Cordic.ResidualBound` | sim/golden_executor.py:561-566 | for a covering table that starts at pi/4 the angle left over is at most the last entry |
| `Cordic.ResidualBelow` | sim/golden_executor.py:561-566 | a table that reaches past pi/2 leaves less than its last entry from above, a zero angle being turned on |
| `Cordic.HalvingCovers` | sim/golden_executor.py:530-531 | entries at most twice their successor make a covering table |
| `Cordic.CoveringExactly` | sim/golden_executor.py:561-566 | for non-negative entries, every starting angle within reach ends within the last entry exactly when the table is covering |
| `Cordic.RotatedIsRotation` | sim/golden_executor.py:535-570 | for every vector and angle the result is the exact rotation by the angle less the residual |
| `Cordic.GainUndoesGrowth` | sim/golden_executor.py:532-533 | the product of the table's cosines is the gain that keeps lengths |
| `Cordic.ScoreIsRelative` | sim/golden_executor.py:592-601 | the dot product of two rotated vectors depends on the difference of their angles only, within twice the last entry |
| `Cordic.CordicUnit.ReduceAngle` | sim/golden_executor.py:541-554 | the branches compute the reduction |
| `Cordic.CordicUnit.CordicRotate` | sim/golden_executor.py:535-570 | the loop computes the rotation function |
| `Cordic.CordicUnit.RotateHeads` | sim/golden_executor.py:592-599 | every pair of every head is rotated by its own angle, in place |
| `Scheduling.PreemptForKeeps` | sim/scenario_runner.py:323-340 | preempting for a job only takes running jobs that rank after it |
| `Accounting.ClampNeverBites` | sim/scenario_runner.py:92-96 | releasing a running job lowers each counter by exactly its need, so the clamp at 0 never acts |
| `Accounting.EveryRunIsAccounted` | sim/scenario_runner.py:75-96 | in every reachable state used units equal the running jobs' needs and fit the capacity, running and preempted are disjoint, and the two tables have exactly their keys |
| `Accounting.EveryRunBalances` | sim/scenario_runner.py:272-390 | in every run each job's starts exceed its preemptions and completions by one exactly while it runs |
| `ServiceTime.EveryRunIsTimely` | sim/scenario_runner.py:272-306 | in every run a running job is due when what it had left at its last start is done: all its work, or what its last preemption reported |
| `ServiceTime.TrueRunsAreExact` | sim/scenario_runner.py:342-390 | when the kernel reports true rests, every preemption stores what was left less the time run and every completion comes when nothing is left |
| `ServiceTime.WorkIsConserved` | sim/scenario_runner.py:272-390 | in such runs a running job's stretch and its earlier ones add up to its work, and a preempted job has the rest of it left |
| `ServiceTime.CompletedWithItsWork` | sim/scenario_runner.py:373-390 | a job that completes was given exactly its work, over all its stretches |
| `DispatchOrder.PassNeverUndoesAStart` | sim/scenario_runner.py:222-242 | for any requirements a job started in a pass is not preempted by that pass |
| `DispatchOrder.AlikeAttempt` | sim/scenario_runner.py:323-340 | when all jobs have the same needs an attempt starts the job where there is room, or in the place of the worst running job, if that ranks later |
| `DispatchOrder.PassSelects` | sim/scenario_runner.py:222-242 | with the same needs a pass ends with the best-ranked jobs running, as many as fit |
| `DispatchOrder.DispatchRunsTheBest` | sim/scenario_runner.py:222-263 | with the same needs, after a dispatch every eligible job still waiting and every victim ranks after every running job and does not fit beside them |
| `DispatchOrder.PlainPassLeavesNoneFitting` | sim/scenario_runner.py:222-242 | with preemption off and any requirements a pass stops nothing, and a candidate left waiting does not fit beside what runs at the end |
| `DispatchOrder.PlainDispatchExactly` | sim/scenario_runner.py:222-263 | the same of the dispatcher: what it starts was eligible and fitted, and no eligible job left waiting fits |
| `JobPlaces.OnlyTheHeadMayStart` | sim/scenario_runner.py:308-314 | a start keeps a waiting job in one place exactly when it is the head of its queue |
| `JobPlaces.StartLeavesOthers` | sim/scenario_runner.py:308-314 | no start takes another job out of a queue |
| `JobPlaces.PreemptTheWorst` | sim/scenario_runner.py:342-369 | preempting the worst-ranked running job keeps every queue sorted with the preempted jobs in front |
| `JobPlaces.AlikePassInPlace` | sim/scenario_runner.py:222-242 | with the same needs a pass keeps all queues in line and every job where it was or running |
| `JobPlaces.PlainPassInPlace` | sim/scenario_runner.py:222-242 | the same for any needs without preemption |
| `JobPlaces.EveryJobInOnePlace` | sim/scenario_runner.py:125-390 | the location invariant over every run of an orderly scenario |
| `JobPlaces.AcceptedJobsAreConserved` | sim/scenario_runner.py:222-390 | in every such run a queued job is in exactly one of waiting, running, completed, completes at most once, and preempted jobs are a key-sorted prefix of their queue |
| `PolicyOrder.PolicyIsStrictTotal` | sim/scheduler/policies.py:43-58 | the policy key orders jobs strictly and totally, the id breaking ties |
| `PolicyOrder.PolicyExactly` | sim/scheduler/policies.py:43-58 | which of two jobs ranks first: higher priority, then earlier deadline across classes, then earlier arrival, then the id |
| `Ordering.StringLessExactly` | sim/scheduler/policies.py:43-58 | ids compare at their first difference, a proper prefix first |
| `PolicyOrder.CompiledIsWf` | sim/scenario_runner.py:100-108 | a compiled scenario meets what the theorems ask of the order |
| `PolicyOrder.LaterArrivalRanksLater` | sim/scheduler/policies.py:43-58 | within a class of equal relative deadlines a later arrival ranks later |
| `TwoResources.AJobWaitsWhileItRuns` | sim/scenario_runner.py:308-314 | a run with two resources in which a job is waiting and running at once |
| `TwoResources.UselessPreemption` | sim/scenario_runner.py:323-340 | a state in which a victim is preempted and the candidate still does not start |
| `Mailboxes.PostReplaces` | sim/scenario_runner.py:166-181 | the posted job waits, the one it replaces does not run, and no other job changes |
| `Mailboxes.MailboxHoldsLatest` | sim/scenario_runner.py:166-321 | in every run a mailbox holds exactly the latest accepted arrival of its stream as long as no job of the stream was started since |
| `Mailboxes.PendingFate` | sim/scenario_runner.py:222-321 | what a dispatch does to a waiting job: when it keeps waiting, when it runs, and exactly when it is lost |
| `Mailboxes.AloneIsNeverLost` | sim/scenario_runner.py:308-321 | it is never lost while no other job of its stream may be dispatched |
| `StaleResume.LatestIsLost` | sim/scenario_runner.py:308-321 | a run in which resuming an older job of the stream loses the latest arrival without a record |
| `DispatchOrder.PreemptForServesExactly` | sim/scenario_runner.py:323-340 | for any requirements, after the victim loop the candidate fits exactly when its needs fit beside those of the running jobs that rank before it |
| `DispatchOrder.AttemptServesExactly` | sim/scenario_runner.py:222-242 | exactly when an attempt starts its candidate, and exactly when it evicts running jobs in vain |
| `DispatchOrder.PassServesExactly` | sim/scenario_runner.py:222-242 | for any requirements with preemption, at the end of a pass a candidate runs exactly when it fits beside the running jobs that rank before it |
| `DispatchOrder.DispatchServesExactly` | sim/scenario_runner.py:222-263 | the same for every preempted job, queue head and pending item, and nothing else is started |
| `Runner.ScenarioRunner.Fits` | sim/scenario_runner.py:75-84 | true exactly when every needed resource exists with enough free units |
| `Runner.ScenarioRunner.Allocate` | sim/scenario_runner.py:86-90 | adds the job's needs to the counters |
| `Runner.ScenarioRunner.ReleaseResources` | sim/scenario_runner.py:92-96 | subtracts them, clamped at 0 |
| `Runner.ScenarioRunner.DequeueFromRunner` | sim/scenario_runner.py:308-321 | removes the job from its queue only at the head; a mailbox gives up whatever is pending |
| `Runner.ScenarioRunner.StartJob` | sim/scenario_runner.py:272-306 | the whole new state of a start or resume; `ServiceTime.EveryRunIsTimely` says what the due time means |
| `Runner.ScenarioRunner.TryStart` | sim/scenario_runner.py:265-270 | starts exactly when the resources are there, else changes nothing |
| `Runner.ScenarioRunner.PreemptJob` | sim/scenario_runner.py:342-369 | the whole new state of a preemption |
| `Runner.ScenarioRunner.WorstFirst` | sim/scenario_runner.py:328-330 | the running jobs, each once, worst rank first |
| `Runner.ScenarioRunner.PreemptFor` | sim/scenario_runner.py:323-340 | the victim loop is the function that takes the worst job while needed; false means nothing changed |
| `Runner.ScenarioRunner.CollectCandidates` | sim/scenario_runner.py:244-263 | the preempted, the queue heads and the pending mailbox items |
| `Runner.ScenarioRunner.DispatchPass` | sim/scenario_runner.py:222-242 | the sorted loop with its skip tests is the pass over the candidate set |
| `Runner.ScenarioRunner.PostToMailbox` | sim/scenario_runner.py:166-181 | the newer job replaces the older, which is preempted or given up |
| `Runner.ScenarioRunner.OnArrival` | sim/scenario_runner.py:125-196 | rejection, queueing, dropping and posting |
| `Runner.ScenarioRunner.OnComplete` | sim/scenario_runner.py:373-390 | the whole new state of a completion, nothing for a job that is not running |
| `Runner.ScenarioRunner.Execute` | sim/scenario_runner.py:412-434 | the object driven by any event list, then drained, ends in the drained state of the run |
| `Runner.ScenarioRunner.Drain` | sim/scenario_runner.py:423-427 | empties every queue once, from head to tail, recording each job as dropped |
| `EndOfRun.DrainedExactly` | sim/scenario_runner.py:423-427 | draining empties the queues it is given, leaves everything else, and logs nothing but drops |
| `EndOfRun.EveryArrivalIsSettled` | sim/scenario_runner.py:412-434 | at the end of every orderly run each arrived job was rejected, dropped or completed or still runs, exactly one of these and once, and no queue holds a job |
| `EndOfRun.ArrivalExactly` | sim/scenario_runner.py:137-165 | an arrival for a queue is rejected exactly when its class is subject to admission and refused, dropped exactly when its queue is full, and otherwise comes last |
| `EndOfRun.QueuesStayWithin` | sim/scheduler/queues.py:44-60 | without preemption no queue of FIFO classes exceeds its capacity in any run |
| `Repair.LogReplays` | sim/dse/space.py:221-239 | replaying the change log on the input gives the output, each change applying where it is made |
| `Repair.FirstChange` | sim/dse/space.py:233-237 | an axis that ends different has a logged change from the value it came in with |
| `Repair.SweepKeeps` | sim/dse/space.py:225-238 | a sweep changes nothing exactly when no matching constraint has a repairable violation |
| `Repair.RoundsStop` | sim/dse/space.py:224-239 | some round changes nothing exactly when the state before the last round is free of repairable violations, and the loop then ends with that state |
| `Repair.TenSweeps` | sim/dse/space.py:221-239 | with its early exit a repair is ten sweeps, neither more nor fewer |
| `Repair.ConsistentUntouched` | sim/dse/space.py:221-239 | a combination is returned untouched with an empty log exactly when it is consistent |
| `RepairConverges.VisitEffect` | sim/dse/space.py:226-237 | one visit changes an axis only to the first value of a broken rule and leaves the constraint's repairable rules satisfied |
| `RepairConverges.SweepSettles` | sim/dse/space.py:225-238 | one sweep settles one more level of a stratified, conflict-free set |
| `RepairConverges.RepairConvergesByLevels` | sim/dse/space.py:221-239 | for depth d up to 10 repair ends settled and is what d sweeps compute, so up to depth 9 it ends before its bound |
| `RepairConverges.PinnedSetConverges` | sim/dse/space.py:80-92 | pinning the scenario's bandwidth keeps convergence when the earlier rules allow the value |
| `RepairConverges.PairSettlesExactly` | sim/dse/space.py:221-239 | for two matching constraints on one axis, exactly which combinations repair settles, and otherwise that every round changes the axis, by the exact length of the log |
| `RepairConverges.PairAlwaysSettlesExactly` | sim/dse/space.py:221-239 | two unguarded constraints on one axis settle for all combinations exactly when the first value of one list is in the other |
| `Enumeration.CheckAgrees` | sim/dse/space.py:241-272 | the two validity checks agree on every combination, and a complaint carries the failing constraint's name and reason |
| `Enumeration.ValidExactly` | sim/dse/space.py:241-249 | a combination is valid exactly when, wherever the guards of a constraint hold, its requirements do and nothing it excludes is met |
| `Enumeration.ComplaintExactly` | sim/dse/space.py:251-272 | the complaint is about the first constraint that is not content, with its name and reason, filed under the axis of its first broken requirement or else of its first guard |
| `Enumeration.ProductIsChoices` | sim/dse/space.py:128-135 | the product holds exactly the choices of one value per axis |
| `Enumeration.ProductDistinct` | sim/dse/space.py:128-135 | without repeated values no combination comes twice |
| `Enumeration.ProductSize` | sim/dse/space.py:128-135 | the number of combinations is the product of the value counts |
| `Enumeration.ProductAt` | sim/dse/space.py:128-135 | where each combination stands: the values of the first axis in order, the other axes varying faster |
| `Enumeration.FullModePartitions` | sim/dse/space.py:128-141 | full mode generates exactly the satisfying choices, none twice, and as many exclusions as there are others |
| `Generator.FullModeReachesExactly` | sim/dse/space.py:128-141 | full mode generates or excludes a requested value exactly when some choice with it is valid or first refused about that axis |
| `Generator.FullModeCanMiss` | sim/dse/manifest.py:45-53 | a space whose full enumeration leaves a requested value missing |
| `Covering.CoverIsSound` | sim/dse/space.py:143-219 | all generated combinations are valid and pairwise distinct on the axes |
| `Covering.EveryValueReached` | sim/dse/space.py:173-185 | a requested value whose repaired combination is valid is generated or excluded for that axis and value with a reason |
| `CoverContents.DefaultsRepresented` | sim/dse/space.py:168-172 | the repaired defaults, if valid, are represented by a kept combination |
| `CoverContents.EveryMoveSettled` | sim/dse/space.py:173-185 | for each requested value: if its repair is valid a kept combination agrees with it on every axis and a lost value is excluded citing the change that took it; otherwise the complaint is recorded |
| `CoverContents.EveryPairSettled` | sim/dse/space.py:187-217 | the same for every engine other than the default at every listed node other than the default |
| `CoverContents.CoverOriginates` | sim/dse/space.py:143-219 | nothing else is kept or excluded |
| `Generator.DesignSpace.constructor` | sim/dse/space.py:53-92 | axes sorted by name, the scenario's bandwidth pinned last |
| `Generator.AxesAscend` | sim/dse/space.py:74-76 | the sorted axes ascend by name |
| `Generator.PinExactly` | sim/dse/space.py:80-92 | the pin is met exactly with the declared bandwidth, and otherwise complained about under the axis itself |
| `Generator.DesignSpace.VisitConstraint` | sim/dse/space.py:226-237 | the inner loops are one visit, and raise exactly when the visit would bind a new axis |
| `Generator.DesignSpace.SweepOnce` | sim/dse/space.py:225-238 | one round over the constraints with its changed flag is a sweep |
| `Generator.DesignSpace.RepairCombo` | sim/dse/space.py:221-239 | the bounded loop computes the repair, or raises exactly when the repair would bind a new axis |
| `Generator.DesignSpace.CheckValid` | sim/dse/space.py:241-249 | true exactly when every constraint accepts the combination |
| `Generator.DesignSpace.Explain` | sim/dse/space.py:251-272 | the first complaint, none exactly for a valid combination; `Enumeration.ComplaintExactly` says which |
| `Generator.DesignSpace.FullCombinations` | sim/dse/space.py:128-141 | the two output lists of full mode |
| `Generator.DesignSpace.FindRepairExclusion` | sim/dse/space.py:153-166 | the first logged change that took the value off the axis |
| `Generator.DesignSpace.CoverValue` | sim/dse/space.py:173-185 | one requested value: kept, excluded by repair, or complained about; raises exactly when its repair does |
| `Generator.DesignSpace.CiAllAxesCombinations` | sim/dse/space.py:143-219 | the loops over axes and over engines at other nodes compute the cover that `CoverContents` describes, or raise exactly when one of their repairs does |
| `Generator.BoundNeverRaises` | sim/dse/space.py:234-236 | defaults that bind every axis a rule can assign never raise |
| `Generator.MissingExactly` | sim/dse/manifest.py:45-53 | the manifest misses a value exactly when it was requested and neither reached nor excluded |
| `Generator.CoveringRunIsValid` | sim/dse/runner.py:361-397 | from covering generation through any run over distinct points to a manifest without complaints |
| `Generator.StableIsValid` | sim/dse/space.py:241-249 | without forbidding rules a combination is valid exactly when repair has nothing left to do |
| `Generator.StratifiedRunIsValid` | sim/dse/runner.py:361-397 | for a stratified, conflict-free set of requirements every requested value is generated or excluded with a reason, and any run over distinct points ends in a manifest without complaints |
| `Ledger.BookShowsHistory` | sim/dse/manifest.py:168-218 | what a point's event history leaves in the five id sets, for any event list |
| `Ledger.BalancedExactly` | sim/dse/manifest.py:168-218 | a point is pruned only, or evaluated with exactly one outcome, exactly when its history is clean |
| `Ledger.DocumentedIsClean` | sim/dse/manifest.py:175-218 | evaluations and successes followed by at most one reclassification are clean |
| `Ledger.OutcomesDisjoint` | sim/dse/manifest.py:183-218 | along such histories no point is in two outcome sets |
| `Ledger.CleanHistoriesCount` | sim/dse/manifest.py:124-146 | once every point's history is clean both counting invariants hold |
| `Ledger.AxisSetsExactly` | sim/dse/manifest.py:168-200 | exactly which values an axis lists as evaluated and successful in every run |
| `Ledger.AxisMarksExactly` | sim/dse/manifest.py:193-224 | which values an axis lists as failed, filtered and pruned in every run, and which exclusions it gains |
| `Ledger.PruningForgetsOthers` | sim/dse/manifest.py:183-200 | pruning one point removes a value a successful point still has |
| `Ledger.RunnerCountsExactly` | sim/dse/runner.py:368-397 | after the runner's loop both invariants hold exactly when no id both failed and ended well, so always for distinct ids |
| `Manifest.OpenedExactly` | sim/dse/manifest.py:82-122 | the opened book lists the requested and generated values and the axis's exclusions, and no outcome |
| `Manifest.CoverageManifest.constructor` | sim/dse/manifest.py:82-122 | the three building loops open the book |
| `Manifest.CoverageManifest.RecordEvaluated` | sim/dse/manifest.py:168-173 | the whole new book: the id and its axis values join the evaluated ones, all else stays |
| `Manifest.CoverageManifest.RecordSuccess` | sim/dse/manifest.py:175-181 | the whole new book: evaluated and successful both gain the point, an earlier failure stays on record |
| `Manifest.CoverageManifest.ClearSuccessState` | sim/dse/manifest.py:183-191 | id by id and value by value: exactly the point's id and its value on each axis leave the evaluated and successful sets, whoever put them there, and nothing else changes |
| `Manifest.ClearUndoesSuccess` | sim/dse/manifest.py:175-191 | clearing takes back a recorded success exactly when the book held no trace of the point before |
| `Manifest.CoverageManifest.AddPointExclusion` | sim/dse/manifest.py:220-224 | every known axis of the point gains one exclusion with its value and the reason, the others nothing |
| `Manifest.CoverageManifest.RecordPruned` | sim/dse/manifest.py:193-200 | the whole new book: the point leaves evaluated and successful, values other points hold included, and every axis gains an exclusion |
| `Manifest.CoverageManifest.RecordFailed` | sim/dse/manifest.py:202-209 | the whole new book: the point counts as evaluated and failed and no longer as successful, its axis values stay listed as successful |
| `Manifest.CoverageManifest.RecordFiltered` | sim/dse/manifest.py:211-218 | the whole new book, as for a failure, in the filtered sets |
| `Manifest.CoverageManifest.FindDuplicates` | sim/dse/manifest.py:157-166 | the ids that more than one point carries |
| `Manifest.CoverageManifest.Validate` | sim/dse/manifest.py:226-254 | no problem exactly for a valid book, and each problem exactly when its cause is there, other problems or not |
| `Manifest.RunPoints` | sim/dse/runner.py:368-397 | the runner's loop records evaluated and then failed or successful for each point |
| `Manifest.RunValidExactly` | sim/dse/runner.py:361-397 | after a run over distinct points the manifest is valid exactly when nothing was missing at the start |
| `Frontier.FrontExactly` | sim/dse/pareto.py:334-344 | for any strict partial order an element is off the frontier exactly when a frontier element dominates it |
| `Frontier.FrontPermutes` | sim/dse/pareto.py:334-344 | the frontier does not depend on the order of the list |
| `Frontier.SortedUnique` | sim/dse/pareto.py:346-347 | sorted arrangements of the same elements are equal when no two tie |
| `Pareto.DominanceIsStrictPartial` | sim/dse/pareto.py:302-318 | dominance is irreflexive and transitive for any objectives, missing metrics and infinities included |
| `Pareto.MissingIsWorst` | sim/dse/pareto.py:291-300 | a missing metric is never better than any value, infinities included |
| `Pareto.MetricReadExactly` | sim/dse/pareto.py:98-114 | an objective reads the attribute of its name, or, only if there is none, the one its legacy name stands for |
| `Pareto.OwnMetric` | sim/dse/pareto.py:291-300 | under distinct objective names each objective is compared by its own metric |
| `Pareto.GatesAdmit` | sim/dse/pareto.py:194-289 | what passing all seven gates amounts to |
| `Pareto.AdmissibleExactly` | sim/dse/pareto.py:194-289 | which results pass, attribute by attribute; a missing one keeps nothing out |
| `Pareto.FrontierExactly` | sim/dse/pareto.py:320-348 | every result fails a gate, is on the frontier, or is dominated by a frontier point |
| `Pareto.FrontierIncomparable` | sim/dse/pareto.py:320-348 | no frontier point dominates another |
| `Pareto.FrontierAscends` | sim/dse/pareto.py:346-347 | the frontier ascends by id |
| `Pareto.DefaultTradeoff` | sim/dse/pareto.py:87-95 | under the default objectives one full record dominates another exactly when it is no worse in throughput, latency, misses, area, power and energy, and the other is |
| `Pareto.OrderIndependent` | sim/dse/pareto.py:320-348 | the points do not depend on input order, nor does the list when ids are distinct |
| `Pareto.FrontierIsFixpoint` | sim/dse/pareto.py:320-348 | the frontier of a frontier is that frontier |
| `Pareto.MultiObjectivePareto.EvaluateGates` | sim/dse/pareto.py:194-289 | the seven gate results in order |
| `Pareto.MultiObjectivePareto.ObjectiveValues` | sim/dse/pareto.py:291-300 | the value table, worst values for missing metrics |
| `Pareto.MultiObjectivePareto.CheckDominates` | sim/dse/pareto.py:302-318 | the flag loop decides dominance |
| `Pareto.MultiObjectivePareto.IsDominated` | sim/dse/pareto.py:336-342 | the inner loop, which skips the point itself, decides whether any point dominates it |
| `Pareto.MultiObjectivePareto.ComputeFrontier` | sim/dse/pareto.py:320-348 | the output is the sorted frontier of the passing results, each with its own gates and values |
| `ParetoAgreement.FindPareto` | sim/design_space_explorer.py:359-370 | the loops compute the area-sorted frontier |
| `ParetoAgreement.OutputIsStaircase` | sim/design_space_explorer.py:359-370 | along that output area and throughput never fall, and rise together |
| `ParetoAgreement.ParetoIdsFromResults` | sim/contracts/legacy_result.py:217-236 | the ids of the results with metrics that no other such result beats |
| `ParetoAgreement.PointwiseAgreement` | sim/dse/pareto.py:320-348 | result by result, when the gated frontier and the legacy adapter agree |
| `ParetoAgreement.FrontiersAgreeExactly` | sim/contracts/legacy_result.py:217-236 | the two sets of ids are equal exactly when every result has metrics or a measured one beats those without |
| `ParetoAgreement.ExplorerAgrees` | sim/design_space_explorer.py:359-370 | the explorer's list holds exactly the points the legacy adapter selects |
| `CycleFormula.ExpectedCycles` | scripts/analyze_perf.py:31-64 | the triple loop equals the closed form, or 1 without a reduction |
| `CycleFormula.ClosedFormExactly` | scripts/analyze_perf.py:31-64 | where the closed form and the loop agree, exactly |
| `CycleFormula.Monotone` | scripts/analyze_perf.py:31-64 | the count never falls when a dimension grows, and a longer reduction of a nonempty product costs more |
| `CycleFormula.OneTile` | scripts/analyze_perf.py:31-64 | one tile costs its reduction, its rows and six cycles |
| `CycleFormula.TilesAddUp` | scripts/analyze_perf.py:31-64 | the count is a sum over tiles in each dimension |

## Left out

- Half-precision and single-precision rounding, NaN and infinities in the executor: scales, tables, angles and activations are exact reals, and the conversions and special-function instructions on bytes are arbitrary functions of their input of the right length (`Isa.Units`).
- Cycle counts, hashes, state snapshots and traces of the executor, the NoC model, and the GELU, normalisation and pooling formulas.
- Negative and non-integer instruction operands, which the model takes as natural numbers.
- Simple DMA and KV instructions in operation chains; the descriptor instructions are modelled on their own.
- InsertionPreservesMeaning: requires a supported chain (each instruction reads the previous result, lengths explicit, scratch clear of the operands, no reduction as a consumer of a converted operand); `DstAddrIsWriteAddr`, `TableMatchesReads` and `MissingLengthLeavesScratchStale` show why.
- StoreIsOneCopy: requires that each transfer stays clear of the descriptors after it, since it may otherwise overwrite what is still to be read.
- QuantizeInt4PerChannel: requires at least one row, because the maximum of an empty column raises in the source.
- OnArrival: the admission controller's verdict is a parameter, because the controller and its reservations are another component. The event kernel supplies the time and the work left of each job as parameters. Of what the metrics collector is told the model keeps the order of the events and the busy times, not arrivals, queue sizes, observation ages and recovery times; queue sequence numbers are not modelled.
- AcceptedJobsAreConserved: FIFO classes only, the same needs for all jobs or no preemption, and arrivals in policy order within a class; with mailboxes a job can be lost (`LatestIsLost`), and `AJobWaitsWhileItRuns` shows what different needs do.
- EveryArrivalIsSettled: the same runs.
- QueuesStayWithin: without preemption, since a preempted job goes back to its queue whether it is full or not.
- WorkIsConserved: requires that the kernel reports the true rest of every running job and that completions come when due, since the kernel's clock is another component.
- Lookups of unknown job ids, which raise in the source; the model's lookups give a default.
- RepairConvergesByLevels: the stratified, conflict-free condition is enough, not necessary, for three and more constraints; `PairSettlesExactly` is exact for two.
- The digest that makes a point's id is an arbitrary function of its combination; hardware configurations, temporal metadata, calibration, replay bundles and reports are not modelled.
- Gate reasons, the gate summary and scenario parsing for objectives.
- Evaluation of a design point: its verdict is a parameter of the runner's loop.
- Engine timing, area and power models, the operation compiler with its fixed addresses, model import and comparison tools: formulas over calibrated constants, or input and output.
