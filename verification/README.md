# Verified models of the HQSB cores

A Dafny 4.11 project that models five cores of HQSB, a single-node inference and kernel
benchmarking system, and proves what each core is for. `dafny verify dfyconfig.toml` checks
everything.

| file | what it models |
|---|---|
| `Decoding.dfy` | greedy speculative decoding: lookup and draft proposals, block verification, cache rollback, statistics |
| `Choices.dfy`, `Sampling.dfy` | the choice trie and the sampler, and constrained decoding on top of the decoder |
| `KvStore.dfy`, `BlockKv.dfy` | the dense per-request KV store, the block-pool KV store, and the refinement between them |
| `Bytes.dfy`, `Tiling.dfy` | little-endian records, the tiling record, the on-chip budget and the host's tiling decision |
| `Device.dfy`, `Kernels.dfy`, `Launch.dfy` | the simulated device: bounds-checked memory, on-chip buffer, queues, the three kernels, a launch, and host and device together |
| `Capture.dfy` | dataflow capture while tensor addresses and storage keys are reused |
| `CapabilityCache.dfy` | the single-flight capability cache as interleaved steps of any number of calls |
| `Hindsight.dfy` | reassembly of events from interleaved binary fragments |
| `Schedule.dfy`, `Verify.dfy` | burst arrivals, producer shares, memoised payloads, and the verdict on a run |
| `Arithmetic.dfy`, `Orders.dfy`, `Options.dfy` | division facts and the repetition penalty on reals, ascending lists and optional values |

How the main results read:

* **Decoding.** The network is any deterministic function from the tokens consumed to scores; a
  cache is the sequence of tokens consumed. Whatever proposes tokens, what `Decoder.Rounds`
  publishes is a prefix of the one-token-at-a-time run and all of it when it finishes; every
  crop is legal and the books balance after every round. Each token is stated outright: the
  sampler's pick for prompt and tokens so far, or the target's best token. What the sampler picks
  is stated over logits, history, penalty and minimum length alone. With a choice trie, any run
  that is not cancelled ends within its budget at a whole choice plus EOS.
* **KV storage.** Over every history of forwards and releases, both stores walk through the states
  of one abstract machine, with its batches and its refusals; what is stored for a request is what
  its admitted passes brought since its last release. `NextIs`, `RefusalIs` and `HandedIs` say what
  that machine does cell by cell. In every reachable state free list and block
  tables partition the pool, and the receipt's waste is less than a block per request. Committing
  copies the past again in the dense store and never in the block store.
* **Tiling and device.** From an accepted request through the serialized record to the device,
  each kernel writes its formula, each output element once and in order, inside bounds and inside
  the host's estimate, independent of cores, tiles, buffers and (where it fits) of rereading;
  it does so exactly when the element type can be encoded, the result type can be rounded and a
  kept row fits, and faults otherwise. What it loads and stores is counted exactly.
* **Capture.** Every call does to nodes, edges and the record of what happened exactly what a
  machine that knows tensors and storages by instance would do, so each recorded edge comes from
  the latest recorded producer of that very tensor, or writer of that very storage, at the moment
  its target was made. Over the calls alone, `EdgesJoin` says which edges join any two of them.
* **Cache.** One probe per key in flight in every interleaving; a call returns what its own probe
  found or what was stored when it looked, and raises otherwise; a stored result is final without
  clearing; some call can always move, and every run without new calls ends within seven steps a
  call.
* **Benchmark oracle.** Fragment streams decode to exactly the events that fully arrived; a
  verdict of complete is equivalent to exact in-order delivery per producer.

Where the code and its documentation disagree, the model follows the code:

* The record holds one loop count, the busiest core's for flat tilings and a row's for row-wise
  ones, yet the device compares it with every active core of an addition: an accepted request is
  reported as a mismatch exactly when `HostAndDevice.CoresMatch` fails (`FlatMismatchExists` gives
  one).
* Keeping a row on chip (`reread_x=False`) needs a buffer the host does not charge although a
  comment says it must have been: the launch overruns exactly when `HostAndDevice.KeepNeed`
  exceeds the budget (`KeptRowOverruns` gives an accepted request that does).
* The tiling decision is documented as a decision or a rejection, but charging the budget may
  raise: exactly when `Tiling.ChargeRaisesExactly` says so (`RaisesOnAHugeTile` gives one).
* The host accepts one-byte element types for which device memory has no encoding, and integer
  element and accumulator types to which no kernel can round: such launches fault, exactly when
  `HostAndDevice.Runs` fails (`ByteElementsFault`, `IntegerAdditionFaults` and
  `IntegerAccumulatorFaults` give accepted requests that do).
* The published traffic estimate for RMSNorm with rows read again counts the weights once, while
  the kernel loads them for every row: estimate and count agree exactly when
  `HostAndDevice.TrafficIsModelled` holds, which for such a launch means a single row.

## Model

| member | source | states |
|---|---|---|
| `SerialDecoding.RunsAreSerial` | hqsb/backends/decoding_engine.py:131-211 | any run of greedy choices without an early stop is a prefix of the serial run, and equal to it once it has ended or no choice follows |
| `SerialDecoding.SerialIsARun` | hqsb/backends/decoding_engine.py:131-211 | the serial reference itself follows the chooser, stops only at its end and ends properly |
| `SerialDecoding.RunConcat` | hqsb/backends/decoding_engine.py:181-189 | appending a verified block to a run gives a run, for any block |
| `Decoding.Crop` | hqsb/backends/decoding_engine.py:28-35 | raises exactly outside 0..length, else keeps that prefix and reports what was dropped |
| `Decoding.Lookup` | hqsb/backends/decoding_engine.py:38-47 | the continuation of the latest earlier occurrence of the longest repeated suffix in the window, cut at the count; empty when there is none |
| `Decoding.DraftSequence.Rewind` | hqsb/backends/decoding_engine.py:66-75 | for any new history the crop is legal, and cache and consumed tokens equal that history afterwards |
| `Decoding.DraftSequence.Propose` | hqsb/backends/decoding_engine.py:66-85 | whatever came before, the proposals are the draft's own serial continuation of the current history, each the draft's best token after history and proposals so far, 1 to `count` of them, fewer only after an EOS |
| `Decoding.Decoder.Guess` | hqsb/backends/decoding_engine.py:136-151 | proposals never exceed the remaining budget minus one, nor the configured draft length, whichever source makes them |
| `Decoding.Decoder.Score` | hqsb/backends/decoding_engine.py:152-166 | one forward yields the scores after every guessed prefix, reusing the prefill scores once |
| `Decoding.Decoder.Accept` | hqsb/backends/decoding_engine.py:167-180 | drafting: the longest matching prefix plus one correction, each the target's best token there, or a raise exactly when a score of the block is not finite; without drafting: the sampler's pick for the whole history and what was generated of it |
| `Decoding.VerifiedPrefix` | hqsb/backends/decoding_engine.py:176-186 | cutting a verified block at the budget and the first stop leaves a run of the target |
| `Decoding.Decoder.CutAtStop` | hqsb/backends/decoding_engine.py:182-186 | the block up to and including its first stop token, unless the length is fixed |
| `Decoding.Decoder.RollBack` | hqsb/backends/decoding_engine.py:187-190 | the crop after a round is always legal and leaves the history without its last token |
| `Decoding.Decoder.Book` | hqsb/backends/decoding_engine.py:191-208 | proposed = accepted + discarded is kept, rounds are logged up to 256 |
| `Decoding.Decoder.Publish` | hqsb/backends/decoding_engine.py:181-209 | the state between rounds holds again: cache = history less one, inputs - rollbacks = cache length, forwards at most rounds + 1 |
| `Decoding.Decoder.Round` | hqsb/backends/decoding_engine.py:134-211 | one round keeps the invariant and emits a nonempty verified block, or raises without publishing |
| `Decoding.Decoder.Loop` | hqsb/backends/decoding_engine.py:134-211 | ends finished unless stopped, non-finite or without a selectable token; never by a bad crop |
| `Decoding.Decoder.PublishedIsSerial` | hqsb/backends/decoding_engine.py:131-211 | in every state between rounds what was published is a prefix of the serial run, and all of it when finished |
| `Decoding.Decoder.Rounds` | hqsb/backends/decoding_engine.py:131-211 | the yielded groups together are the serial greedy sequence: token k is the sampler's pick for the whole history before it, or the target's own best token; no stop before the last token, and it ends at a stop (unless fixed) or at the limit |
| `Decoding.Decoder.PicksAre` | hqsb/backends/decoding_engine.py:168-180 | in every state between rounds each published token is what sampler or target say of exactly the tokens before it, prompt included |
| `ChoiceTries.InsertAdds` | hqsb/backends/decoding_sampling.py:20-24 | inserting a path accepts it, reaches its prefixes, and changes nothing else |
| `ChoiceTries.Build` | hqsb/backends/decoding_sampling.py:7-24 | the checks in their order refuse exactly the unacceptable choice sets (empty, too long, stop tokens, repeated, outside the budget), else the trie represents the choices |
| `ChoiceTries.AdmissibleMeans` | hqsb/backends/decoding_sampling.py:26-33 | the allowed tokens are those that extend the prefix to a prefix of a choice, and EOS exactly after a whole choice |
| `ChoiceTries.AlwaysASuccessor` | hqsb/backends/decoding_sampling.py:59-65 | after every prefix of a choice some allowed token is not forbidden by the minimum length |
| `Sampling.BackendsAgreeGreedily` | hqsb/backends/decoding_sampling.py:66-72 | mask and gather pick the same token greedily with lowest-index ties, and fail together |
| `Sampling.ReachesCutoff` | hqsb/backends/decoding_sampling.py:75-79 | a score reaches the top-k cutoff exactly when fewer than k scores are above it |
| `Sampling.BackendsAgreeOnTopK` | hqsb/backends/decoding_sampling.py:66-79 | the top-k threshold leaves the same scores at the same tokens under mask and gather |
| `Sampling.MaskedOutStaysOut` | hqsb/backends/decoding_sampling.py:69-79 | no token outside the allowed set survives mask and threshold |
| `Sampling.PreparedIs` | hqsb/backends/decoding_sampling.py:49-60 | minus infinity exactly for a stop token before the minimum length; an unseen token keeps its logit, a seen one times the penalty is its logit, or is its logit times the penalty if negative; above one the penalty never raises a score and lowers every nonzero one |
| `Sampling.WorthsExist` | hqsb/backends/decoding_sampling.py:49-58 | those equations have one solution for every logit, history and penalty |
| `Sampling.ArgmaxIs` | hqsb/backends/decoding_sampling.py:94-95 | greedy picks the lowest index of a largest finite score |
| `Sampling.GreedySelectIs` | hqsb/backends/decoding_sampling.py:45-101 | with or without a trie, under either backend, greedy selection is the lowest allowed index of the largest penalised logit, stop tokens left out before the minimum length, and raises exactly when no token is left |
| `Sampling.TopKIs` | hqsb/backends/decoding_sampling.py:75-79 | exactly the scores with fewer than k above them survive, unchanged |
| `Sampling.DrawIs` | hqsb/backends/decoding_sampling.py:73-101 | a masking draw is handed the penalised logit over the temperature for every allowed token with fewer than k allowed ones worth more, nothing for the others, and raises exactly when nothing is left |
| `Sampling.GatheringDrawIs` | hqsb/backends/decoding_sampling.py:67-101 | a gathering draw is handed the same scores of the allowed tokens alone, and its index is mapped back |
| `Sampling.PickIsFinite` | hqsb/backends/decoding_sampling.py:88-101 | selection raises exactly without a finite score, and otherwise picks a finite one, at every step of a seeded draw |
| `Sampling.GreedySelectsAlike` | hqsb/backends/decoding_sampling.py:45-101 | a greedy sampler selects the same token, or raises alike, under mask and gather, for every trie, history and vocabulary |
| `Sampling.DrawsFromTheSame` | hqsb/backends/decoding_sampling.py:66-79 | after temperature and top-k the allowed tokens have the same scores under mask and gather, and nothing else is left under the mask |
| `Sampling.SelectsAdmissible` | hqsb/backends/decoding_sampling.py:45-101 | with a candidate the minimum length does not forbid, the sampler selects, and only allowed tokens |
| `Sampling.SelectsBestFollower` | hqsb/backends/decoding_sampling.py:45-101 | after a prefix of a choice greedy selection takes the best token by penalised logit among those that continue a choice, or end one |
| `Sampling.GuidedFinishes` | hqsb/backends/decoding_execution.py:132-175 | a chooser that always takes allowed tokens ends within the limit as a whole choice plus EOS |
| `Sampling.ConstrainedDecodingFinishes` | hqsb/backends/decoding_sampling.py:6-36 | the serial constrained run is a valid choice for every acceptable choice set, every logits function and every draw, which may depend on the step |
| `Sampling.DecodeChoice` | hqsb/backends/decoding_execution.py:132-175 | trie, sampler and decoder together: refused exactly for unacceptable choices, uncancelled runs complete, completed runs end at an allowed terminal, and a greedy run takes the best follower at every step with the whole history penalised |
| `KvViews.CommitsAgree` | hqsb/backends/device_kv.py:36-54 | replacing a row by the batch's past plus new cells equals appending the new cells exactly when the batch carries the stored past |
| `KvViews.ExtendingCarries` | hqsb/backends/device_kv.py:12-34 | a batch that extends a packed one carries every stored past |
| `DenseStore.DenseKV.Pack` | hqsb/backends/device_kv.py:12-34 | the left-padded zero-filled batch of the stored rows and as many copied cells as they have, or a raise exactly on a missing row or wrong length |
| `DenseStore.DenseKV.Commit` | hqsb/backends/device_kv.py:36-54 | each request's row becomes past plus new cells, all of them copied, others unchanged; a layer that is not dynamic raises before anything changes |
| `BlockTables.Private` | hqsb/backends/block_kv.py:81-91 | a partition gives each request distinct blocks nobody else holds |
| `BlockTables.EveryBlockOnce` | hqsb/backends/block_kv.py:11-27 | every block of the pool is free or held by exactly one request, never both |
| `BlockTables.WriteIsLocal` | hqsb/backends/block_kv.py:82-93 | writing inside one block changes exactly the logical positions it covers |
| `BlockTables.ViewExtended` | hqsb/backends/block_kv.py:73-94 | scattering into private blocks appends to one request's cells and leaves all others as they were |
| `BlockStore.BlockKV.Refuse` | hqsb/backends/block_kv.py:20-27 | stale length exactly for an outdated request, capacity exactly when the need exceeds the free list |
| `BlockStore.BlockKV.GrowRow` | hqsb/backends/block_kv.py:74-80 | the table grows to ceil(valid / size) blocks, the last ones of the free list with the very last first, the pool stays partitioned, the counters balance, blocks used before are counted as reused, and an admitted pop never meets an empty list |
| `BlockStore.BlockKV.Scatter` | hqsb/backends/block_kv.py:82-93 | the new cells land at their logical positions, block by block, each copied once |
| `BlockStore.BlockKV.CommitRow` | hqsb/backends/block_kv.py:73-94 | one request's cells are extended by its new cells, no other request's contents change |
| `BlockStore.BlockKV.Commit` | hqsb/backends/block_kv.py:55-95 | all requests' cells extended and the need taken from the free list, only the new cells copied, the byte budget kept, or a refusal that leaves rows and free list alone, each reason exactly when it applies |
| `BlockStore.BlockKV.Pack` | hqsb/backends/block_kv.py:29-53 | gathers exactly the left-padded batch of the requests' cells, copying each stored cell once |
| `BlockStore.BlockKV.Release` | hqsb/backends/block_kv.py:97-101 | removes one request, returns exactly its blocks, keeps the partition |
| `BlockStore.BlockKV.Clear` | hqsb/backends/block_kv.py:118-121 | every block is free again |
| `BlockStore.BlockKV.Receipt` | hqsb/backends/block_kv.py:106-116 | active blocks are capacity minus free, and allocations minus releases; valid tokens are all stored cells; waste is less than a block per request; bytes in use are bytes of cells and of waste and fit the pool, which fits its budget |
| `BlockTables.TablesWaste` | hqsb/backends/block_kv.py:106-116 | tables of just enough blocks hold at least their cells and waste less than a block each |
| `KvRefinement.Step` | hqsb/backends/block_kv.py:29-101 | one forward or release takes both stores to the same next state of the abstract machine, with its batch and its refusal |
| `KvRefinement.NextAppends` | hqsb/backends/block_kv.py:55-95 | an admitted forward appends each request's own new cells and leaves all other requests alone |
| `KvRefinement.NextIs` | hqsb/backends/block_kv.py:54-101 | a release forgets one request and frees its blocks; an admitted forward appends the last added cells of its column to each of its requests, leaves every other request alone and takes its need from the free blocks; a refused one changes nothing |
| `KvRefinement.NeedGrows` | hqsb/backends/block_kv.py:15-27 | the blocks a call needs are, request by request, ceilings after minus ceilings before |
| `KvRefinement.RefusalIs` | hqsb/backends/block_kv.py:15-74 | each refusal, and admission, applies exactly when its reason does and none looked for before it |
| `KvRefinement.HandedIs` | hqsb/backends/device_kv.py:12-34 | the batch has a row per request, zeros and then its stored cells flush right; it is empty when all lengths are zero, and raises exactly when a nonzero length is not the stored one |
| `KvRefinement.Replay` | hqsb/backends/block_kv.py:29-101 | over any history both stores walk through the states of the abstract machine and hand out its batches and refusals |
| `KvRefinement.StoredIsCollected` | hqsb/backends/block_kv.py:29-101 | after any history a request's cells are those of its admitted forwards, in order, since its last release |
| `Bytes.UnpackConcat` | hqsb/ascend/tiling.py:308-311 | values that fit their widths survive packing and unpacking |
| `Bytes.ConcatUnpack` | hqsb/ascend/tiling.py:312-321 | bytes survive unpacking and packing |
| `Bytes.ValueConcat` | hqsb/ascend/tiling.py:165-168 | the first byte of a field is the least significant one |
| `Tiling.RoundTrip` | hqsb/ascend/tiling.py:308-321 | a well-formed record that fits its fields is parsed back as itself from exactly 72 bytes |
| `Tiling.RoundTripBack` | hqsb/ascend/tiling.py:312-321 | every accepted payload is the serialization of the record parsed from it |
| `Tiling.FieldOrder` | hqsb/ascend/tiling.py:146-168 | which bytes of an accepted payload are which field, and that writing the record gives them back |
| `Tiling.NeverTooWide` | hqsb/ascend/tiling.py:831-915 | with representable limits every accepted record fits its field widths |
| `Tiling.AcceptedExactly` | hqsb/ascend/tiling.py:791-935 | a request is accepted exactly when a condition on it alone holds (contiguous, positive, known types, cores, index width, alignment, workspace, buffers, budget), and is charged its model's bytes |
| `Tiling.AcceptedRecord` | hqsb/ascend/tiling.py:856-935 | an accepted record carries the request, the key of its code path, rows split over cores, and the loop count and tail of the busiest core or the row |
| `Tiling.EstimateRaisesExactly` | hqsb/ascend/tiling.py:658-696 | when charging a model raises: a negative buffer count or one of its products past the index width |
| `Tiling.RaisedByCharge` | hqsb/ascend/tiling.py:866-882 | a request that passes the checks escapes with an exception exactly when charging it raises |
| `Tiling.ChargeRaisesExactly` | hqsb/ascend/tiling.py:866-882 | charging raises exactly when a product or the budget itself does |
| `Tiling.RaisesOnAHugeTile` | hqsb/ascend/tiling.py:866-874 | a concrete request on which the decision raises |
| `Geometry.AcceptedIsTiled` | hqsb/ascend/tiling.py:858-907 | an accepted record partitions exactly its rows over its cores |
| `Geometry.OwnerOf` | hqsb/ascend/tiling.py:336-346 | every row belongs to exactly one core |
| `Geometry.CoreInside` | hqsb/ascend/tiling.py:336-349 | no core's elements leave the tensor |
| `Geometry.TileLoopIs` | hqsb/ascend/tiling.py:724-734 | the loop count is the ceiling and the tail the remainder |
| `Geometry.LoopAndTail` | hqsb/ascend/sim_device.py:735-748 | the device's own loop count and tail are the same two numbers |
| `Geometry.TileAt` | hqsb/ascend/sim_device.py:557-560 | the tiles of a loop abut, stay in range and none is empty |
| `Geometry.TileEnd` | hqsb/ascend/sim_device.py:735-748 | together they end exactly at the end of the range |
| `Oracles.TotalConcat` | hqsb/ascend/sim_device.py:612-620 | exact sums may be taken tile by tile |
| `Oracles.TotalOne` | hqsb/ascend/operators.py:226-247 | the sum of one value is that value, and of none zero |
| `Oracles.TotalNeutral` | hqsb/ascend/sim_device.py:616-620 | padding lanes do not change a sum |
| `Oracles.AddOracleAt` | hqsb/ascend/operators.py:216-223 | element k of the result is the rounded, encoded sum of elements k |
| `Oracles.SumOracleAt` | hqsb/ascend/operators.py:226-247 | element r of the result is the rounded, encoded sum of the elements of row r |
| `Oracles.NormOracleAt` | hqsb/ascend/operators.py:250-279 | element (r, j) is the rounding of x times the reciprocal root of (the row's sum of squares over its width, plus eps) times weight j |
| `Device.GlobalMemory.Allocate` | hqsb/ascend/sim_device.py:114-130 | appends a buffer, or fails exactly when it does not fit |
| `Device.GlobalMemory.CopyIn` | hqsb/ascend/sim_device.py:561-568 | the valid lanes and zeros, one load for each valid lane, or a fault exactly when a load leaves the buffer |
| `Device.GlobalMemory.CopyOut` | hqsb/ascend/sim_device.py:574-577 | stores the values in order, or faults exactly when one leaves the buffer, touching nothing else |
| `Device.OnChip.Acquire` | hqsb/ascend/sim_device.py:242-262 | a plan is claimed exactly when its bytes fit, and the high-water mark is its sum |
| `Device.OnChip.Drop` | hqsb/ascend/sim_device.py:264-270 | freeing all live tags never faults and leaves nothing |
| `Device.Queue.Enqueue` | hqsb/ascend/sim_device.py:300-309 | blocks exactly at full depth |
| `Device.Queue.Dequeue` | hqsb/ascend/sim_device.py:311-319 | first in first out, underflows exactly when empty |
| `AddKernel.AddRun.Tiles` | hqsb/ascend/sim_device.py:546-577 | a core's tiles write its stretch of the oracle once and in order, without blocking or underflow; they fault exactly when it leaves a buffer or the type cannot be rounded, and then store nothing in the latter case |
| `AddKernel.AddRun.Run` | hqsb/ascend/sim_device.py:517-581 | for every record only the output changes; for a record that adds up it is the oracle, UB ends empty, queues drained, each input element is loaded once, and the mismatches are exactly the disagreeing cores, unless the element type cannot be rounded: then the first core faults, nothing is stored and its slots stay claimed |
| `RowSumKernel.SumRow` | hqsb/ascend/sim_device.py:607-620 | tile by tile the exact sum of the row, each element loaded once |
| `RowSumKernel.RowSumRun.Run` | hqsb/ascend/sim_device.py:583-626 | the same for row sums, which are rounded to the accumulation type |
| `NormKernel.NormRun.PassOne` | hqsb/ascend/sim_device.py:673-685 | the sum of squares of the row, and the row itself when it is kept |
| `NormKernel.NormRun.PassTwo` | hqsb/ascend/sim_device.py:689-711 | the scaled row is the same whether reread or taken from the kept row; without a rounding it faults with nothing stored |
| `NormKernel.NormRun.Run` | hqsb/ascend/sim_device.py:628-717 | the same for RMSNorm, with three or two loads an element, and an overrun whenever slots and kept row do not fit; the oracle it equals is spelled out by `NormOracleAt` |
| `Launch.SimulatedDevice.LaunchAdd` | hqsb/ascend/sim_device.py:388-513 | placing, running and reporting an addition: correct, a fault for mismatched lengths, for a type without an encoding or without a rounding, each exactly when it applies |
| `Launch.SimulatedDevice.LaunchRowSums` | hqsb/ascend/sim_device.py:388-513 | the same for row sums, whose accumulation type must be known and have a rounding; when they run they are reported complete |
| `Launch.SimulatedDevice.LaunchNorm` | hqsb/ascend/sim_device.py:388-513 | the same for RMSNorm, including missing or mis-sized weights |
| `Launch.SimulatedDevice.Launch` | hqsb/ascend/sim_device.py:388-513 | from bytes: refused exactly for bad payloads, too many cores or an unknown element type; inputs always intact; suitable records give the expected output, or an unwritten one when the type has no rounding; no encoding and no room are faults |
| `HostAndDevice.EstimateCovers` | hqsb/ascend/tiling.py:496-549 | rereading, each kernel holds at most what the host charged, which is at most the budget |
| `HostAndDevice.ExpectedComputes` | hqsb/ascend/sim_device.py:566-711 | the output expected of each kernel is its formula, cell by cell, on the inputs as memory holds them |
| `HostAndDevice.MismatchedIs` | hqsb/ascend/sim_device.py:545-556 | the reported cores are none, or exactly those without an extra row |
| `HostAndDevice.FlatMismatch` | hqsb/ascend/tiling.py:858-864 | a flat record is reported exactly when its cores disagree on the loop count |
| `HostAndDevice.MismatchedNone` | hqsb/ascend/sim_device.py:545-556 | for any record that adds up, no core is reported exactly when every active core's count is the record's |
| `HostAndDevice.FlatCoresMatch` | hqsb/ascend/tiling.py:858-864 | for flat tilings the busiest core's count matches every active core exactly when the cores agree among themselves |
| `HostAndDevice.ReportedExactly` | hqsb/ascend/sim_device.py:546-556 | for every accepted request, flat or row-wise, and every kernel the device reports nothing exactly when a condition on the request holds |
| `HostAndDevice.FlatMismatchExists` | hqsb/ascend/tiling.py:859-864 | an accepted request for which the device's report is not empty |
| `HostAndDevice.KeptRowOverruns` | hqsb/ascend/sim_device.py:654-657 | an accepted request whose kept row needs more than the budget, and every launch of which overruns |
| `HostAndDevice.IntegerAdditionFaults` | hqsb/ascend/sim_device.py:569-573 | an accepted request for integers every launch of which faults because sums cannot be rounded |
| `HostAndDevice.IntegerAccumulatorFaults` | hqsb/ascend/sim_device.py:618-625 | an accepted request with a one-byte accumulator every launch of which faults for the same reason |
| `HostAndDevice.ByteElementsFault` | hqsb/ascend/sim_device.py:200-216 | an accepted request for one-byte elements every launch of which faults because memory has no encoding for them |
| `HostAndDevice.Guaranteed` | hqsb/ascend/test_vectors.py:320-342 | how an accepted request fares, by its types, its kept row and its loop counts: no encoding, overrun, no rounding, or the expected output |
| `HostAndDevice.TileAndLaunch` | hqsb/ascend/sim_device.py:388-717 | accepted, serialized and launched: without a fault exactly when the types can be encoded and rounded and a kept row fits, and then with the output each kernel's formula gives cell by cell, each element once, within the estimate, complete exactly when loop counts agree, its traffic as estimated exactly when the request tells |
| `HostAndDevice.TrafficExactly` | hqsb/ascend/sim_device.py:775-806 | loads and stores come to the published estimate for every addition, row sum and kept row, and for rows read again exactly when there is one |
| `CaptureLog.RememberedIsLast` | hqsb/backends/architecture_capture.py:78-82 | a writer that is still remembered is the latest writer of that storage instance |
| `Capture.Collector.StorageOf` | hqsb/backends/architecture_capture.py:70-87 | after the call the key's writer is the remembered writer of that very storage instance, whatever held the key before; exactly a storage none of whose tensors met so far is alive is forgotten |
| `Capture.Collector.Producer` | hqsb/backends/architecture_capture.py:101-109 | the latest recorded producer of that very tensor, whatever held its address before, or a new external node; nothing else changes |
| `Capture.Collector.Dependencies` | hqsb/backends/architecture_capture.py:111-120 | exactly the latest producers and remembered writers of the arguments, by instance, and only external nodes for the arguments are added |
| `Capture.Collector.AddEdges` | hqsb/backends/architecture_capture.py:129-136 | upward edges without duplicates, all of them unless the limit is hit |
| `Capture.Collector.Record` | hqsb/backends/architecture_capture.py:122-144 | exactly one node, with its edges, its outputs and its writes in the log, or only the limit's mark; what that makes of memory and producers is `CallMemory` and `CallProducers` |
| `Capture.Collector.Dispatch` | hqsb/backends/architecture_capture.py:154-165 | an operator call takes the world to the one where its arguments were looked up and its node recorded with exactly what they depend on by instance |
| `Capture.Collector.Enter` | hqsb/backends/architecture_capture.py:167-171 | only looks the arguments up and remembers exactly their dependencies |
| `Capture.Collector.Leave` | hqsb/backends/architecture_capture.py:173-180 | a module becomes a node, with its saved dependencies, exactly when it has outputs and nothing was recorded inside |
| `Capture.Collector.Age` | hqsb/backends/architecture_capture.py:78-82 | the invariant survives any deaths and any reuse of addresses and keys |
| `Capture.CallMemory` | hqsb/backends/architecture_capture.py:70-144 | after a call without a limit every storage written to has its node as latest and remembered writer, no other storage gets a new one, and one is forgotten exactly when it is looked at while none of its tensors met so far is alive |
| `Capture.CallProducers` | hqsb/backends/architecture_capture.py:101-144 | every output has the node as latest producer, and no other tensor gets a new one but an argument without any, which gets an external node |
| `Capture.EdgesJoin` | hqsb/backends/architecture_capture.py:111-165 | between the nodes of any two calls a data edge stands exactly when the later takes a tensor the earlier was the last to make, and a storage_write edge exactly when it takes a tensor of a storage the earlier was the last to write to and that was not forgotten since |
| `Capture.KeeperKeeps` | hqsb/backends/architecture_capture.py:78-82 | while a met tensor of the storage is alive its writer is not forgotten |
| `Capture.WriteIsSeen` | hqsb/backends/architecture_capture.py:115-144 | an operator on a live tensor of a storage gets a storage_write edge from the last operator that wrote to it, while the written tensor lives |
| `Capture.ModuleEdges` | hqsb/backends/architecture_capture.py:167-180 | a module that becomes a node has exactly the edges its arguments had when it was entered |
| `Capture.Collector.Run` | hqsb/backends/architecture_capture.py:70-194 | over every possible history each call does exactly that to log, nodes, moments, arguments and edges; each edge is justified at the moment its target was made, goes up, and exists once; and which edges join any two calls is what `EdgesJoin` says |
| `CaptureLog.UsesAreBacked` | hqsb/backends/architecture_capture.py:111-120 | whatever an operation is said to depend on is a latest producer or writer of one of its arguments |
| `CapabilityCache.NextKeepsInv` | ops/capability.py:244-276 | every atomic step keeps the invariant |
| `CapabilityCache.SingleFlight` | ops/capability.py:253-272 | in every reachable state at most one probe per key is in flight and every stored entry matches its key and may be kept |
| `CapabilityCache.LockNeverChanges` | ops/capability.py:249-251 | a key's lock never changes, even across clearing |
| `CapabilityCache.KeepsEntries` | ops/capability.py:268-272 | a stored entry is never replaced and only goes by clearing |
| `CapabilityCache.OutcomeIs` | ops/capability.py:253-272 | in every run, once a call is decided: a probe's result is returned if it is for the call's key and an identity mismatch raised otherwise, it raises exactly when its probe raised, and without a probe it returns as a hit what was stored for its key when it looked |
| `CapabilityCache.StoreKeeps` | ops/capability.py:270-272 | storing keeps the result exactly if it is available or one of the nine lasting reasons, changes no other entry, and the storing call returns the result |
| `CapabilityCache.StoredStays` | ops/capability.py:253-272 | what was kept is still there after any further steps without clearing |
| `CapabilityCache.StoredIsFinal` | ops/capability.py:253-272 | without clearing a stored result stays, no probe of its key runs, and every undecided call returns it marked as cached |
| `CapabilityCache.LaterCallsHit` | ops/capability.py:253-272 | the same for every call after any reachable state |
| `CapabilityCache.NeverStuck` | ops/capability.py:253-276 | a call that has not returned, or the holder it waits for, can move |
| `CapabilityCache.RunsAreBounded` | ops/capability.py:253-276 | without new calls every run, however it interleaves and is cleared, takes at most seven steps a call |
| `CapabilityCache.EndedIsDone` | ops/capability.py:253-276 | where no call can move, every call has returned |
| `CapabilityCache.Drains` | ops/capability.py:253-276 | from every reachable state all calls can be run to their end |
| `HindsightEvents.ParseEncoded` | benchmarks/capture/oracle.py:93-99 | an event survives encoding and parsing |
| `HindsightEvents.SizeFromPrefix` | benchmarks/capture/oracle.py:91-96 | any prefix that holds the header tells the true body size |
| `Hindsight.OnlySentEvents` | benchmarks/capture/oracle.py:81-102 | under any loss, reordering and repetition of sent fragments decoding never fails and yields only sent events |
| `Hindsight.InOrderDelivery` | benchmarks/capture/oracle.py:81-102 | for interleaved in-order streams with any losses, exactly the completed events, in order of the completing fragments |
| `Hindsight.CompletedIff` | benchmarks/capture/oracle.py:81-102 | an event is completed, once, exactly when its fragments arrived unbroken up to the last nonempty one |
| `Hindsight.ExactDelivery` | benchmarks/capture/oracle.py:81-102 | every event all of whose fragments arrived comes out, and none twice |
| `Hindsight.FramesOfFile` | benchmarks/capture/oracle.py:70-80 | blocks written with their lengths are the blocks read |
| `Hindsight.DecodeFile` | benchmarks/capture/oracle.py:65-102 | the loop over the file yields what the block decoder yields, and fails exactly on a malformed file or an impossible event |
| `Hindsight.FileDelivery` | benchmarks/capture/oracle.py:65-102 | from bytes to events for in-order streams |
| `Schedule.PeriodOfSteadyArrival` | benchmarks/capture/schedule.py:25-32 | the period chosen contains the steady arrival time |
| `Schedule.WithinPulse` | benchmarks/capture/schedule.py:25-32 | each burst arrival lies in the active part of its period |
| `Schedule.PulsePosition` | benchmarks/capture/schedule.py:25-32 | inside its period a burst arrival is the time elapsed since the period began, squeezed by active over period and rounded down |
| `Schedule.BurstMonotone` | benchmarks/capture/schedule.py:25-32 | burst arrivals never decrease |
| `Schedule.Indices` | benchmarks/capture/worker.py:102 | a thread's indices are exactly the ones assigned to it (with skew nine tenths to the first, the rest in turn; without, in turn), in order; fails exactly for skew with one producer and more than 90 events |
| `Schedule.SharesPartition` | benchmarks/capture/schedule.py:72-75 | the shares cover all indices and do not overlap, in every case whose indices can be assigned |
| `Payloads.LcmIsMultiple` | benchmarks/capture/worker.py:99 | the period is a multiple of both cycle lengths |
| `Payloads.PayloadBears` | benchmarks/capture/schedule.py:78-104 | kind, letter or seed, size, name length and nesting of a payload, from the index and the case |
| `Payloads.PayloadRepeats` | benchmarks/capture/schedule.py:78-104 | without mix and giants the payload at index modulo the period is the payload at the index |
| `Payloads.Memo.Get` | benchmarks/capture/worker.py:95-97 | the bounded cache always returns the payload of its key |
| `Payloads.Produce` | benchmarks/capture/worker.py:89-131 | events and receipts carry each index's own payload, kind and text and nesting spelled out, and time, in order, until too late, and every index is accounted for |
| `Verification.CleanIff` | benchmarks/capture/oracle.py:138-167 | no counter moves exactly when all events are genuine and each producer's indices ascend |
| `Verification.CompleteIff` | benchmarks/capture/oracle.py:138-193 | complete exactly when nothing failed and each producer delivered its scheduled indices once, in order, with body and time |
| `Verification.DeliveredIsShare` | benchmarks/capture/oracle.py:138-193 | in a complete run each producer's delivered indices are the list its thread walked |
| `Verification.CountedOnce` | benchmarks/capture/oracle.py:138-167 | unless judging raised, every event outside the warmup is counted once among foreign, duplicate, corrupt and valid |
| `Verification.CountsAre` | benchmarks/capture/oracle.py:138-167 | each counter is the number of events of its verdict: warmup, foreign, a repetition of an index already delivered, a wrong time or body, late; and judging raised exactly at an unreadable body |
| `Verification.ReadReceipts` | benchmarks/capture/oracle.py:114-126 | raises exactly on an out-of-range or repeated receipt, else holds what they say |
| `Verification.PlanIs` | benchmarks/capture/oracle.py:114-126 | the receipts' indices are planned for their times and no others are |
| `Verification.CountEvents` | benchmarks/capture/oracle.py:138-169 | the counting loop computes the specified tally and flags |
| `Verification.Verify` | benchmarks/capture/oracle.py:105-193 | the whole verdict: complete exactly for exact delivery, lossy exactly for a clean stream that is not, control and failures before both; counters by verdict; attempted is the number of receipts |

## Left out

- Tensor numerics: values are exact reals behind uninterpreted encoding and rounding functions, NaN, infinities and values past a type's range (on which packing may raise) do not occur, and sums are exact, so rounding inside an accumulation is not modelled. Which types have an encoding and a rounding is modelled.
- Layers, heads and the key/value pair of a KV cache: one cell stands for all of them at a position, because every layer is treated alike.
- Softmax and nucleus filtering are functions of the scores, and the seeded draw of the scores and the step; agreement of the backends after nucleus filtering, which sums probabilities in floating point, is not stated.
- `Sampling.PreparedIs`: a history or EOS token outside the vocabulary, on which indexing the scores raises when a penalty or a minimum length applies, has no effect here.
- Logits are a function of the tokens consumed; the model library's cache is the sequence of those tokens.
- The clock, cancellation, offers and adapters are parameters; timing fields, latency samples and the logical minimum of bytes are not modelled.
- Global memory is addressed in elements, since every buffer of a launch has one element size; the integrity comparison is against what was placed.
- A device is given a usable on-chip budget; the exception of a budget without any usable byte is modelled on the host side only.
- `Launch.SimulatedDevice.LaunchNorm`: a hidden size of zero is reported as a fault, where the source lets the division error escape.
- `Launch.SimulatedDevice.Launch`: inputs missing altogether from the mapping; traffic is counted in elements, and the loads of an integrity snapshot are not counted.
- `HostAndDevice.ByteElementsFault`: a caller that names a one-byte input in its integrity snapshot gets the encoding error out of the launch itself, since reading it back is outside the guarded part, and no report.
- A tensor keeps its storage for life: rebinding a live tensor to another storage is not modelled.
- `Capture.Collector.AddEdges`: the order in which a call's edges are added, which is sorted in the source, is left open; the result holds for every order.
- Node metadata, names, histograms, phases and warnings of a capture, and liveness changes in the middle of one callback.
- Cache keys are pairs of backend and identity instead of digests; the payload form of the cache and its integrity check are not modelled.
- `CapabilityCache.NeverStuck`: lets a probe end by raising; that probes do end is an assumption about them.
- `Hindsight.DecodeFile`: run names and bodies are byte strings; failures of text decoding are not modelled.
- `Verification.Verify`: file hashes, throughput, quantiles and fairness figures, and truncated receipt files.
- Poisson, on-off and phased schedules, and fractional rates, which are floating point.
- Model loading, HTTP, processes, vendor probes, report writing and operator dispatch: orchestration around libraries that are not part of this model.
