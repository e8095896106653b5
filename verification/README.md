# Verified models of the inference kernels and tools

Dafny models of the repository's optimised data paths, each proved against the simple specification it must agree with.
`dafny verify dfyconfig.toml` checks everything. Arithmetic is exact throughout: integers, bit-vectors where the code works
on registers, reals where it works in floating point.

| file | what it models |
|---|---|
| `Sass.dfy`, `FragmentLayout.dfy` | the register operations the kernel generators emit; the fragment-major plane layout shared by packers and kernels |
| `MoeW2Gemm.dfy`, `MoeW2Kernel.dfy` | the 2-bit MoE GEMM: decode, tensor-core steps, per-32 folds, warp split, shared-memory reduction, predicated pair store |
| `MoeW4qCodec.dfy` | the radix-5 split-FP4 codec: base plane, 80-bit records with their 16-bit spill, and the kernel's decode |
| `SparseMlaSoftmax.dfy`, `SparseMlaPhases.dfy` | the sparse-MLA prefill loop: the online softmax over two caches with an optional sink; its shared memory under barriers, 256 threads in any interleaving |
| `CodebookDp.dfy`, `CodebookRemap.dfy`, `CodebookGroups.dfy`, `CodebookSubsets.dfy`, `CodebookOffGrid.dfy` | the K-level quantiser, the in-place remap of packed bytes, the per-group modes with their candidate sets, and exactly when the choice among occurring values is optimal |
| `GroupedMoe.dfy` | the grouped MoE layout: concurrent slot allocation, gather, and the two descriptions of the live rows |
| `SideDefer.dfy`, `Prequant.dfy` | stream-ordering state machines: deferred mHC side work against the un-deferred program; the side-stream row quantization with its ring of two buffer sets |
| `DrafterPrep.dfy` | one fused launch of the drafter's input kernel against one launch per KV group |
| `DeltaOrder.dfy`, `DeltaPromotion.dfy`, `DeltaSim.dfy` | the delta-cache simulator: candidate orders, a frame's promotions as a function of the tables, the replay |
| `ResultProtocol.dfy` | reservation and publication of a benchmark result by processes that interleave and crash |
| `CandidateTopK.dfy` | candidate block selection on a prefix plus fix-up against the full-width selection |
| `SignTest.dfy` | the exact sign test |
| `Sums.dfy`, `Arithmetic.dfy`, `Options.dfy` | finite sums, division facts, an option type |

How the parts are modelled:

- Kernels that run in lockstep are methods over registers, arrays and a shared-memory array; concurrent ones (scatter, prefill
  phases, result protocol) are state machines whose steps interleave freely, with theorems over every run.
- Streams carry, per stream, the set of operations ordered before the next one; an event is such a set. Two programs whose
  kernels have the same past order every pair of kernels in the same way.
- exp2 and log2 are parameters known by their laws (a sum becomes a product, positive, log2 undoes exp2 on positive numbers).
- Some predicates are stated under a bound variable (`Open`, `Opens`): they unfold only where a proof mentions the opener, which
  keeps proofs short. `DeltaSim.Invariant` states such an invariant in the open.

Where the code and its documentation part:

- `choose_levels` promises the best K of the 16 representable values but drops values that never occur. It is optimal among the
  occurring values (`CodebookDp.ChooseLevels`). Among all representable ones it is so exactly when some best choice there has
  every nearest-level cluster served by an occurring value (`CodebookOffGrid.GridOptimalExactly`); it fails for instance at
  K = 1, 2 and 4 (`CodebookOffGrid.OneLevelMisses`, `CodebookOffGrid.TwoLevelsMiss`, `CodebookOffGrid.FourLevelsMiss`). The
  per-group modes do search all representable values (`CodebookSubsets.GroupIsOptimal`).
- `lfu_aged` subtracts the same amount from every key of a call, so it always evicts what `lfu` evicts
  (`DeltaPromotion.AgeingChangesNothing`).
- `reserve_result` releases its guard before it writes its pid, so a second process that reads the lock in between takes it over
  and both return a reservation. `ResultProtocol.PromptIsExact` gives the condition, `ResultProtocol.EarlyReadBreaks` the failure;
  the published result is safe in either case (`ResultProtocol.ResultIsOneText`).
- The simulator's tables rely on frames of distinct pairs. A frame that lists a pair twice breaks them exactly when it places it
  twice (`DeltaSim.InverseExactly` reads this off the tables before the frame, `DeltaSim.RepeatedPair` runs into it).
- A decode launch of the 2-bit GEMM (mc = 1) with more than 8 rows stores zeros in rows 8 and up; decode is documented for at most 4 rows.

## Model

| member | source | states |
|---|---|---|
| `MoeW2Kernel.Gemm` | kernels/gen/gen_moe_w2.py:305-378 | Every C[r, n] with r < m_rows of the 16-row tile is stored exactly once and equals the plain scaled product over all k, for any N, K, warp count, codes and scales; rows 8.. of a decode launch (mc = 1) are stored as 0; rows past the tile are untouched. |
| `MoeW2Kernel.OutputIsReference` | kernels/gen/moe_w2_check.py:71-72 | What the warps accumulate over the whole K range is the reference product A[r,k] As[r,k/32] level(code[n,k]) scale[n,k/32] summed over k. |
| `MoeW2Kernel.Cta` | kernels/gen/gen_moe_w2.py:123-138 | One thread block stores its 16 columns exactly once each and nothing else; a pad pair (m_rows = 0) leaves without touching C. |
| `MoeW2Kernel.ReduceStore` | kernels/gen/gen_moe_w2.py:377-378 | The passes over slot bases leave all 256 slots stored. |
| `MoeW2Kernel.ReducePass` | kernels/gen/gen_moe_w2.py:320-374 | One pass, the clamped tail of a non-power-of-two block included, extends the stored slots by exactly the threads of the block that still have one. |
| `MoeW2Kernel.StoredOnce` | kernels/gen/gen_moe_w2.py:323-338 | Over all passes and threads an even slot with a live row is stored by exactly one thread: the one the quotient and remainder by the thread count name. |
| `MoeW2Kernel.StoreSlot` | kernels/gen/gen_moe_w2.py:359-374 | The predicated pair store advances the record of stores by exactly one slot and its neighbour. |
| `MoeW2Kernel.CoordUnique` | kernels/gen/gen_moe_w2.py:339-358 | Different slots have different output positions. |
| `MoeW2Kernel.CoordOfPosition` | kernels/gen/gen_moe_w2.py:348-358 | Every position of the 16 x 16 tile is the position of a slot. |
| `MoeW2Kernel.ReduceSlot` | kernels/gen/gen_moe_w2.py:343-347 | The shared-memory reduction of a slot is the sum of the slot over all warps. |
| `MoeW2Kernel.ReducedOutput` | kernels/gen/gen_moe_w2.py:343-347 | That sum is the whole K sum of the slot’s output position. |
| `MoeW2Kernel.SlicesAdd` | kernels/gen/gen_moe_w2.py:81-82 | The warps’ K slices add up to the whole product, whatever the warp count. |
| `MoeW2Kernel.SpillWarp` | kernels/gen/gen_moe_w2.py:306-315 | A warp’s page holds its masters by slot; the other pages are untouched. |
| `MoeW2Kernel.Nwarp` | kernels/gen/gen_moe_w2.py:51-57 | The warp count is the largest divisor of K/128 not above the cap of 4 or 8. |
| `MoeW2Gemm.MarchWarp` | kernels/gen/gen_moe_w2.py:284-287 | A warp’s masters end as the sums over its K slice of the scaled terms. |
| `MoeW2Gemm.K64` | kernels/gen/gen_moe_w2.py:195-281 | One k64 block advances every master by its 64 terms and leaves the per-k32 accumulators reset. |
| `MoeW2Gemm.FoldSum` | kernels/gen/gen_moe_w2.py:256-271 | Folding the per-k32 accumulator with the A scale of its group keeps the master the sum of the terms. |
| `MoeW2Gemm.Qmma` | kernels/gen/moe_sfa_probe_check.py:49-52 | The tensor-core step by its contract: c0..c3 of lane (g, t) at row g (+8), column 2t (+1), gain the 32 products with the column’s block scale applied. |
| `MoeW2Gemm.LoadA` | kernels/gen/gen_moe_w2.py:223-235 | The A fragment holds A[row, k] where the row predicate allows and zero elsewhere. |
| `MoeW2Gemm.DecodeByte` | kernels/gen/gen_moe_w2.py:240-255 | Spread and PRMT turn the four 2-bit codes of a byte into the four table bytes. |
| `MoeW2Gemm.DecodeBlock` | kernels/gen/gen_moe_w2.py:212-255 | The decoded registers of a block hold the codes of exactly its matrix elements. |
| `MoeW2Gemm.E4m3CodeValues` | kernels/gen/gen_moe_w2.py:189 | The table bytes are -4, -1, 1, 4 in e4m3. |
| `MoeW2Gemm.PackedScale` | kernels/gen/moe_w2_check.py:43-45 | The scale byte at the kernel’s address is the one of its row and k32 group. |
| `MoeW2Gemm.StepCode` | kernels/gen/gen_moe_w2.py:274-281 | The registers a tensor-core step reads are its slice of the code matrix. |
| `FragmentLayout.WordAt` | kernels/gen/moe_w2_check.py:36-39 | The word at the index of (block, lane, word) is that word of the unpacked matrix: the view/permute chain and the kernel’s addresses agree. |
| `FragmentLayout.PackedFields` | kernels/gen/moe_w2_check.py:40 | The byte the kernel addresses carries exactly the four codes of its word. |
| `FragmentLayout.ChunkDigits` | kernels/gen/gen_moe_w2.py:147-155 | A chunk index determines its block and lane. |
| `Sass.SpreadNibble` | kernels/gen/gen_moe_w2.py:244-254 | The seven-instruction spread puts field j of the low byte into nibble j, whatever the register holds above it. |
| `MoeW4qCodec.DecodeBlock` | kernels/gen/gen_moe_w4q.py:172-237 | Packing the base and quintal planes of any e2m1 matrix and decoding a block at the kernel’s addresses leaves, for the element of row r and column c, a byte in lane 4 (r mod 8) + (c mod 16) / 4 with the e4m3 value of the nibble and its sign, both zeros included. |
| `MoeW4qCodec.ElementDecoded` | kernels/gen/gen_moe_w4q.py:124-140 | Every element of a block has its lane, word and position, and its byte is there. |
| `MoeW4qCodec.ByteValue` | kernels/gen/moe_w4q_check.py:38-39 | The decoded byte means the nibble: equal values, and the two zeros keep their signs. |
| `MoeW4qCodec.DecodeLane` | kernels/gen/gen_moe_w4q.py:252-254 | The eight words of a lane are decoded from its 8 base bytes and its 10-byte record. |
| `MoeW4qCodec.DecodeWord` | kernels/gen/gen_moe_w4q.py:215-237 | Selectors, the two PRMTs and the OR of signs give the four bytes of a word. |
| `MoeW4qCodec.DigitRange` | kernels/gen/moe_w4q_check.py:56-59 | The refinement digit is below 5, and with the code it determines the magnitude and the sign. |
| `MoeW4qCodec.Div5` | kernels/gen/gen_moe_w4q.py:18 | Multiply by 0x334 and shift by 12 is division by five for every x below 1024. |
| `MoeW4qCodec.NoCarry` | kernels/gen/gen_moe_w4q.py:231-234 | Adding five to the big digits in all nibbles at once never carries into the next nibble. |
| `MoeW4qCodec.BigMaskIs` | kernels/gen/gen_moe_w4q.py:231-233 | The xor mask marks exactly the codes 0 and 3. |
| `MoeW4qCodec.SignedByte` | kernels/gen/gen_moe_w4q.py:235-237 | The magnitude byte ORed with the sign byte is the e4m3 byte of the nibble. |
| `MoeW4qCodec.ExtractsWord` | kernels/gen/gen_moe_w4q.py:188-212 | Extraction from the three registers inverts the 16-bit spill for every word, the two that cross registers included. |
| `MoeW4qCodec.BitOps.PackShorts` | kernels/gen/moe_w4q_check.py:64-71 | The spill loop leaves in every 16-bit limb exactly the words that overlap it. |
| `MoeW4qCodec.PackRecord` | kernels/gen/moe_w4q_check.py:64-72 | The ten bytes of a record, word by word. |
| `MoeW4qCodec.PackQuintal` | kernels/gen/moe_w4q_check.py:51-76 | The plane holds every lane’s record, eight bytes and two bytes apart. |
| `MoeW4qCodec.InterleaveAt` | kernels/gen/gen_moe_w4q.py:132-140 | Byte b of a lane’s record is at the kernel’s P8 or P2 address. |
| `SparseMlaSoftmax.Attend` | kernels/gen/gen_sparse_mla_prefill_v41.py:466-532 | For every token, head and candidate list the output times the one-shot denominator (plus the sink’s term) is the one-shot numerator; with no valid position it is zero; the log-sum-exp matches. The one-shot sums run over every index of both rows and count exactly those below the length loaded, if there is one, with an index that is not negative. |
| `SparseMlaSoftmax.Chunk` | kernels/gen/gen_sparse_mla_prefill_v41.py:466-532 | One turn of the chunk loop keeps: maximum, sum and accumulators represent the softmax over all candidates so far. |
| `SparseMlaSoftmax.PositionHasRow` | kernels/gen/gen_sparse_mla_prefill_v41.py:231-277 | Every position of either cache has a chunk row that scores exactly its candidate, and no two positions share a row. |
| `SparseMlaSoftmax.RowHasPosition` | kernels/gen/gen_sparse_mla_prefill_v41.py:231-277 | Every unmasked chunk row is some position’s. |
| `SparseMlaSoftmax.LenIs` | kernels/gen/gen_sparse_mla_prefill_v41.py:132-153 | The clamped lengths admit exactly the positions inside the index row and before the length loaded, if there is one; without a compressed cache none of its positions. |
| `SparseMlaSoftmax.ChunksNeeded` | kernels/gen/gen_sparse_mla_prefill_v41.py:154-158 | Each cache gets the least number of chunks of 64 that covers its length. |
| `SparseMlaSoftmax.ChunksCoverPositions` | kernels/gen/gen_sparse_mla_prefill_v41.py:231-277 | The weights, the weighted values and the count of valid candidates sum over the clamped, padded chunks of both caches to what they sum to over all positions of the index rows, said of the launch parameters. |
| `SparseMlaSoftmax.Rescaled` | kernels/gen/gen_sparse_mla_prefill_v41.py:495-498 | Moving the maximum scales the sum of weights and every weighted column by alpha. |
| `SparseMlaSoftmax.PeakNext` | kernels/gen/gen_sparse_mla_prefill_v41.py:477-494 | The new maximum is the largest live score so far, or -1e30. |
| `SparseMlaSoftmax.NewMax` | kernels/gen/gen_sparse_mla_prefill_v41.py:488-494 | The row maximum over the eight warps and the old maximum. |
| `SparseMlaSoftmax.NewSum` | kernels/gen/gen_sparse_mla_prefill_v41.py:514-529 | The running sum after scaling and adding the eight warp sums is the sum of weights of all candidates. |
| `SparseMlaSoftmax.PvColumn` | kernels/gen/gen_sparse_mla_prefill_v41.py:546-561 | The four k-steps add the chunk’s weighted values of a column. |
| `SparseMlaSoftmax.Norm` | kernels/gen/gen_sparse_mla_prefill_v41.py:592-616 | The norm and log-sum-exp of both branches, with and without a sink, against the one-shot mass. |
| `SparseMlaSoftmax.SinkNorm` | kernels/gen/gen_sparse_mla_prefill_v41.py:601-616 | With a sink the result is the softmax with one extra zero-valued term, relative to the larger peak. |
| `SparseMlaSoftmax.FinalSum` | kernels/gen/gen_sparse_mla_prefill_v41.py:592-598 | Running sum and one-shot sum differ by exactly exp2 of the maximum. |
| `SparseMlaSoftmax.MassSign` | kernels/gen/gen_sparse_mla_prefill_v41.py:594-600 | The denominator is positive exactly when some position is valid. |
| `SparseMlaSoftmax.WarpMax` | kernels/gen/gen_sparse_mla_prefill_v41.py:477-483 | Pairwise maxima and butterfly shuffles give the maximum of a warp’s eight scores. |
| `SparseMlaPhases.NoRace` | kernels/gen/gen_sparse_mla_prefill_v41.py:385-428 | Between two barriers no shared-memory cell is stored by one thread and accessed by another. |
| `SparseMlaPhases.LoadsAreRight` | kernels/gen/gen_sparse_mla_prefill_v41.py:417-428 | In every run of 256 freely interleaved threads a load reads what it means to read: chunk c is scored against chunk c’s tile and validity. |
| `SparseMlaPhases.EveryChunkOnce` | kernels/gen/gen_sparse_mla_prefill_v41.py:418-422 | A token of n chunks scores each in exactly one phase, and finishes after the last. |
| `SparseMlaPhases.RunInv` | kernels/gen/gen_sparse_mla_prefill_v41.py:562-568 | The memory holds what the phase’s stores and the earlier phases left, in every reachable state. |
| `SparseMlaPhases.LoadMeant` | kernels/gen/gen_sparse_mla_prefill_v41.py:466-472 | Every load of a phase finds a cell stored before the phase, not stored in it, with the content the thread means. |
| `SparseMlaPhases.StoreOwner` | kernels/gen/gen_sparse_mla_prefill_v41.py:203-214 | Whatever is stored in a phase is stored by the cell’s one owner. |
| `SparseMlaPhases.LoadUnwritten` | kernels/gen/gen_sparse_mla_prefill_v41.py:284-304 | Nothing loaded in a phase is stored in it. |
| `SparseMlaPhases.KeptNext` | kernels/gen/gen_sparse_mla_prefill_v41.py:424-428 | Across a barrier a cell’s content is what was kept or what the phase stored. |
| `SparseMlaPhases.CellsDisjoint` | kernels/gen/gen_sparse_mla_prefill_v41.py:57-65 | Different pieces of shared memory share no byte and fit the 87040 bytes of the launch. |
| `SparseMlaPhases.PermuteTwice` | kernels/gen/gen_sparse_mla_prefill_v41.py:29-31 | The permuted order of the validity buffer is its own inverse. |
| `CodebookDp.ChooseLevels` | tools/repack_expert_bits.py:71-123 | The returned error is the minimum, over every K-element subset of the occurring values, of the weighted squared error under nearest-level assignment, and the levels attain it. |
| `CodebookDp.LowerBound` | tools/repack_expert_bits.py:105-114 | No subset of k points, under nearest assignment, does better than the recurrence: contiguous clusters lose nothing. |
| `CodebookDp.Cut` | tools/repack_expert_bits.py:89-90 | Nearest assignment cuts the points into a prefix served by all levels but the last and a cluster of the last. |
| `CodebookDp.BackError` | tools/repack_expert_bits.py:115-123 | The levels collected by backtracking attain the recurrence’s value. |
| `CodebookDp.Midpoint` | tools/repack_expert_bits.py:126-133 | Of two levels the lower is at least as near exactly up to their midpoint. |
| `CodebookDp.FillCosts` | tools/repack_expert_bits.py:88-103 | Running sums and first argmins give every interval’s best single representative among its points. |
| `CodebookDp.FillSplits` | tools/repack_expert_bits.py:105-114 | The tables hold the best value and the first best split of every cell. |
| `CodebookDp.Backtrack` | tools/repack_expert_bits.py:115-122 | Reading the tables from the last cell yields the recurrence’s levels in ascending order. |
| `CodebookRemap.ProcessTensor` | tools/repack_expert_bits.py:349-362 | The in-place rewrite puts the bytes on min(K, occurring) occurring values, the error returned is the squared error it really causes, and no rewrite of the bytes onto as many occurring values causes less; with K at least the number of occurring values no byte changes; no byte or K = 0 is the index error. |
| `CodebookRemap.MapErrorIsLevelError` | tools/repack_expert_bits.py:126-142 | The histogram error of the code map built from levels is the quantiser’s error for those levels. |
| `CodebookRemap.HistogramError` | tools/repack_expert_bits.py:353-360 | The histogram’s error under a code map is the error of rewriting the bytes. |
| `CodebookRemap.OccurringKept` | tools/repack_expert_bits.py:131-139 | With as many levels as occurring values an occurring code is mapped to itself, signed zeros included. |
| `CodebookRemap.KeepsLevel` | tools/repack_expert_bits.py:134-139 | A code whose value is a level keeps its code. |
| `CodebookRemap.BuildLut` | tools/repack_expert_bits.py:126-142 | The byte table remaps both nibbles; every code goes to the first nearest level, and to the zero of its own sign when that level is zero. |
| `CodebookRemap.MapIsLeast` | tools/repack_expert_bits.py:126-142 | No rewrite of the bytes onto the levels, nibble by nibble, has less squared error than the one through their code map. |
| `CodebookRemap.ValueFormat` | tools/repack_expert_bits.py:54-55 | The sixteen values are those of the e2m1 format, doubled: sign, two exponent bits with bias 1, one mantissa bit. |
| `CodebookRemap.Histogram` | tools/repack_expert_bits.py:353-354 | Byte counts summed over high and over low nibbles are the code counts. |
| `CodebookRemap.BuildPoints` | tools/repack_expert_bits.py:77-85 | The points are the occurring values in ascending order, the two zeros merged. |
| `CodebookRemap.PointsComplete` | tools/repack_expert_bits.py:82 | Every occurring value is a point. |
| `CodebookGroups.RemapGroups` | tools/repack_expert_bits.py:277-296 | Every group of bytes is rewritten by the candidate map of least error for it and the sum returned is the error really caused; with K >= 15 every group is rewritten through the identity map, without tables, and no byte changes. |
| `CodebookGroups.RemapGroup` | tools/repack_expert_bits.py:291-295 | One group is rewritten by the candidate map of least error for it, and no byte outside it changes. |
| `CodebookGroups.SelectMap` | tools/repack_expert_bits.py:256-266 | The selected candidate has the least histogram error. |
| `CodebookGroups.NearestLevel` | tools/repack_expert_bits.py:210-224 | The level is a nearest one, sign-agreeing if any nearest is, then of least magnitude. |
| `CodebookGroups.ChoiceIsOdd` | tools/repack_expert_bits.py:170-176 | On a symmetric set the choice is an odd function of the code, for both zeros and every tie. |
| `CodebookGroups.FirstArgminOddExactly` | tools/repack_expert_bits.py:170-177 | On symmetric ascending levels the first-argmin rule of build_lut is odd in a code if and only if the code has only one nearest level. |
| `CodebookGroups.ZerosCollide` | tools/repack_expert_bits.py:172-177 | A case where it has two: with levels -1.0 and 1.0 both zeros go to -1.0. |
| `CodebookSubsets.CombinationsComplete` | tools/repack_expert_bits.py:206-207 | The enumerated combinations are exactly the K-element subsets of the grid places. |
| `CodebookSubsets.CandidateSets` | tools/repack_expert_bits.py:192-207 | The candidate level sets are every K-element set of representable values and nothing else. |
| `CodebookSubsets.SymmetricSets` | tools/repack_expert_bits.py:194-205 | With the symmetry constraint they are exactly the pairs of mirror pairs, each a symmetric set of four. |
| `CodebookSubsets.SubsetTables` | tools/repack_expert_bits.py:227-242 | Every set gets the codes and squared changes of the odd-symmetric nearest levels. |
| `CodebookSubsets.TableShifts` | tools/repack_expert_bits.py:230-232 | Ties do not affect the squared changes. |
| `CodebookSubsets.GroupIsOptimal` | tools/repack_expert_bits.py:162-166 | With these tables a group is rewritten at the least error any K-element set of representable values can have for it. |
| `CodebookSubsets.TableIsOdd` | tools/repack_expert_bits.py:169-176 | On a symmetric set the remap is an odd function of the value, both zeros included. |
| `CodebookOffGrid.GridOptimalExactly` | tools/repack_expert_bits.py:71-82 | For every number of levels, the best choice among the occurring values is a best choice among all representable values if and only if some best representable choice has, in each of its nearest-level clusters, an occurring value as near to the cluster’s weighted mean as the level. |
| `CodebookOffGrid.ServedIsMatched` | tools/repack_expert_bits.py:71-82 | Levels whose clusters are served by occurring values are matched by the choice, whatever the number of levels. |
| `CodebookOffGrid.OwnLevels` | tools/repack_expert_bits.py:126-133 | The error of a level set is the sum of its nearest-level clusters’ errors. |
| `CodebookOffGrid.DroppedValueIsBetter` | tools/repack_expert_bits.py:71-82 | With more occurring values than levels, any two of them one apart, a level set of weighted error below 1 is strictly better than the choice, and no best representable choice is served. |
| `CodebookOffGrid.OneLevelMisses` | tools/repack_expert_bits.py:71-82 | K = 1, with 1.0 and 2.0 occurring: 1.5 is strictly better. |
| `CodebookOffGrid.TwoLevelsMiss` | tools/repack_expert_bits.py:71-82 | K = 2, with 1.0, 2.0 and -6.0 occurring: -6.0 and 1.5 are strictly better. |
| `CodebookOffGrid.FourLevelsMiss` | tools/repack_expert_bits.py:71-82 | K = 4, with 1.0, 2.0, 6.0, -4.0 and -6.0 occurring: -6.0, -4.0, 1.5 and 6.0 are strictly better. |
| `CodebookOffGrid.NearerIsBetter` | tools/repack_expert_bits.py:126-133 | For one cluster a value is at least as good as another exactly when it is at least as near to the weighted mean. |
| `CodebookOffGrid.AllRepresentable` | tools/repack_expert_bits.py:71-82 | When every representable value occurs the choice is optimal among all of them, for every K. |
| `CodebookOffGrid.EnoughLevels` | tools/repack_expert_bits.py:86 | With a level for every occurring value the error is zero. |
| `GroupedMoe.ScatterPlaces` | tools/dsv41_sm120/patch_vllm_moe_glue_sm120.py:108-139 | After any interleaving of the per-pair atomic adds every live pair has its own row in its expert’s live rows, the cursors hold the exclusive live ends, and the rows written are exactly the live ones. |
| `GroupedMoe.RunInv` | tools/dsv41_sm120/patch_vllm_moe_glue_sm120.py:70-73 | The invariant of every reachable state of the scatter. |
| `GroupedMoe.RowsDistinct` | tools/dsv41_sm120/patch_vllm_moe_glue_sm120.py:115 | No two pairs ever hold the same row, of one expert or of two. |
| `GroupedMoe.ScatterPrograms` | tools/dsv41_sm120/patch_vllm_moe_glue_sm120.py:69-115 | For every number of programs striding over the pairs and every interleaving of them: when all are done each live pair has been placed once in a row of its own, the cursors hold the live ends and the rows written are the live ones. |
| `GroupedMoe.ProgramStepIsStep` | tools/dsv41_sm120/patch_vllm_moe_glue_sm120.py:69-115 | Every program step is a step of the scatter that takes a pair no other step has taken, or skips a pair without expert: no guard is needed. |
| `GroupedMoe.ProgramRunInv` | tools/dsv41_sm120/patch_vllm_moe_glue_sm120.py:69-115 | In every reachable state of every grid the memory shows of each pair exactly what its program has done. |
| `GroupedMoe.Gather` | tools/dsv41_sm120/patch_vllm_moe_glue_sm120.py:153-161 | The gathered output of a token is the direct sum over its experts in top-k order, for any accumulation step. |
| `GroupedMoe.DirectIsSum` | tools/dsv41_sm120/patch_vllm_moe_glue_sm120.py:153-161 | With real addition that is the sum over the routed top-k slots, each once, of its own weight times the row its expert makes of the token. |
| `GroupedMoe.OrderDoesNotMatter` | tools/dsv41_sm120/patch_vllm_moe_glue_sm120.py:8-13 | Any two scatters, the old per-token order among them, hand the gather the same value for every pair. |
| `GroupedMoe.DescriptionsAgree` | tools/dsv41_sm120/patch_vllm_moe_act_skip_padding_sm120.py:13-23 | After every complete run of the scatter programs a row has been written if and only if m_indices has an expert for it, if and only if the cursors left behind, with rounded-up starts, describe it. |
| `GroupedMoe.StartFromEnd` | tools/dsv41_sm120/patch_vllm_moe_act_skip_padding_sm120.py:62-66 | An expert’s start is the previous end rounded up, empty experts included. |
| `GroupedMoe.RoundUpLeast` | tools/dsv41_sm120/patch_vllm_moe_act_skip_padding_sm120.py:62-66 | Rounding up gives the least multiple of the alignment not below the count. |
| `GroupedMoe.CopyEnds` | tools/dsv41_sm120/patch_vllm_moe_act_skip_padding_sm120.py:62-66 | The optional output receives the cursor array. |
| `GroupedMoe.BlocksInOrder` | tools/dsv41_sm120/patch_vllm_moe_act_skip_padding_sm120.py:4-6 | Padded blocks follow each other without overlap. |
| `GroupedMoe.LayoutFits` | tools/dsv41_sm120/patch_vllm_moe_act_skip_padding_sm120.py:4-6 | The cumulative sums of rounded-up counts give every expert as many rows as it has pairs. |
| `SideDefer.Replay` | tools/dsv41_sm120/patch_vllm_mhc_side_defer_sm120.py:45-67 | In every run of tagged and untagged boundaries at most one boundary’s work is queued; launching it now gives every kernel of every stream exactly the past it has in the un-deferred program; with nothing queued, in particular after a join, the device is that program’s, and after a join all side work is behind the model stream. The logs, said of the commands alone: the model stream runs the kernels of its commands in order, each behind exactly the earlier ones and the side work joined before it; with nothing queued each side stream runs its boundaries’ work in order, each kernel behind its boundary kernel and everything the model stream had behind it by then, and the side work before it. |
| `SideDefer.DirectIsLogged` | tools/dsv41_sm120/patch_vllm_mhc_overlap_sm120.py:207-272 | Every program without deferral logs on each stream the kernels of its commands in order, each with exactly the past the commands give it: side work waits for its boundary, a join waits for the side stream’s work, nothing else is ordered. |
| `SideDefer.WorkCommutes` | tools/dsv41_sm120/patch_vllm_mhc_side_defer_sm120.py:16-23 | Launching queued side work before or after a model-stream kernel gives every kernel the same past. |
| `SideDefer.WorkKeepsMain` | tools/dsv41_sm120/patch_vllm_mhc_side_defer_sm120.py:153-156 | Side work leaves the model stream alone. |
| `SideDefer.LaunchedOnceInOrder` | tools/dsv41_sm120/patch_vllm_mhc_overlap_sm120.py:207-272 | Every boundary’s side work is launched exactly once, in boundary order. |
| `SideDefer.JoinGuards` | tools/dsv41_sm120/patch_vllm_mhc_overlap_sm120.py:217-218 | After a join of the un-deferred program every kernel the side stream has launched comes before what the model stream does next. |
| `SideDefer.AlwaysCovered` | tools/dsv41_sm120/patch_vllm_mhc_overlap_sm120.py:217-218 | A stream’s launches are ordered before its later work. |
| `SideDefer.Capture.Boundary` | tools/dsv41_sm120/patch_vllm_mhc_side_defer_sm120.py:147-164 | The boundary records its event, drains earlier work, and queues or launches its own, in step with the un-deferred program. |
| `SideDefer.Capture.RunDeferred` | tools/dsv41_sm120/patch_vllm_mhc_side_defer_sm120.py:61-64 | Draining brings the device to the un-deferred program’s state. |
| `SideDefer.Capture.DeferSide` | tools/dsv41_sm120/patch_vllm_mhc_side_defer_sm120.py:55-58 | A tag changes the next boundary of its stream and nothing else. |
| `SideDefer.Capture.Gemv` | tools/dsv41_sm120/patch_vllm_mhc_side_defer_sm120.py:87-92 | Behind the first GEMV nothing is queued. |
| `SideDefer.Capture.Join` | tools/dsv41_sm120/patch_vllm_mhc_side_defer_sm120.py:79-84 | A join drains first, then waits: the device is the un-deferred one and the side stream’s work is behind it. |
| `Prequant.HandOut` | tools/dsv41_sm120/patch_vllm_moe_prequant_sm120.py:44-131 | In every sequence of begin, take, join and write calls, buffers are handed out exactly when the matching begin is pending, and they hold that begin’s tensor as it was then; they are torn exactly when that tensor was written in between. |
| `Prequant.OutcomeIsCurrent` | tools/dsv41_sm120/patch_vllm_moe_prequant_sm120.py:44-131 | Untorn buffers hold the tensor as it is when they are handed out. |
| `Prequant.JoinedOnce` | tools/dsv41_sm120/patch_vllm_moe_prequant_sm120.py:44-131 | In every sequence of calls at most one side quantization is not joined, the last; the joined ones, each once and in order, are exactly those behind the model stream, and no buffer set was rewritten before its earlier readers. |
| `Prequant.ReadBeforeRewrite` | tools/dsv41_sm120/patch_vllm_moe_prequant_sm120.py:44-131 | When a call hands out a buffer set, its launch is on record as a reader of the set, and every later rewrite of that set counts the launch among the reads before it and is ordered behind it. |
| `Prequant.Replay` | tools/dsv41_sm120/patch_vllm_moe_prequant_sm120.py:44-131 | The context run over any sequence of calls: what each call is handed, the misses and whether a quantization is left pending. |
| `Prequant.Layer` | tools/dsv41_sm120/patch_vllm_moe_prequant_sm120.py:33-37 | A begin, any writes by model-stream kernels, the launch: it is handed buffers exactly when rows, K and pairs qualify and it asks for the same rows, capacity and K, and they are torn exactly when one of those kernels wrote them. |
| `Prequant.BeginKeeps` | tools/dsv41_sm120/patch_vllm_moe_prequant_sm120.py:57-116 | A qualifying begin leaves one quantization pending, of the tensor as it is; any other leaves none. |
| `Prequant.Context.Take` | tools/dsv41_sm120/patch_vllm_moe_prequant_sm120.py:119-131 | Buffers are handed out exactly when tensor, shape, capacity and K match; the side stream is joined either way and a mismatch is counted. |
| `Prequant.Context.Begin` | tools/dsv41_sm120/patch_vllm_moe_prequant_sm120.py:57-116 | What nobody took is joined and counted first; then exactly one quantization is launched if the rows fit the capacity, the columns are K, a multiple of 128, and there are at least 32 pairs. |
| `Prequant.Context.Fork` | tools/dsv41_sm120/patch_vllm_moe_prequant_sm120.py:105-114 | The side launch is ordered behind the fork and holds the tensor’s present version. |
| `Prequant.Context.EnsureRing` | tools/dsv41_sm120/patch_vllm_moe_prequant_sm120.py:92-104 | Two buffer sets never allocated before when the key changes; otherwise the ring, the turn and the device stay. |
| `Prequant.Context.JoinPending` | tools/dsv41_sm120/patch_vllm_moe_prequant_sm120.py:47-54 | The pending quantization, if any, is joined once and the marker cleared. |
| `Prequant.Context.Wait` | tools/dsv41_sm120/patch_vllm_moe_prequant_sm120.py:52-54 | The model stream is behind the quantization it waits for. |
| `Prequant.Context.WriteTensor` | tools/dsv41_sm120/patch_vllm_moe_prequant_sm120.py:33-37 | A model-stream write advances its tensor’s version, tears a pending quantization of that tensor and leaves one of another as it is. |
| `Prequant.Context.ReadBuffers` | tools/dsv41_sm120/patch_vllm_moe_prequant_sm120.py:153-159 | A fused launch is a reader of the buffers it was handed. |
| `DrafterPrep.Fused` | tools/dsv41_sm120/patch_vllm_dflash_prepare_groups_sm120.py:299-321 | One fused launch, its (request, block) programs in any order, leaves every buffer as the one-group kernel run for each KV group in turn, in any orders. What it leaves, said of the batch: query positions go on from the last token not rejected, capped at the model length; the first input is the sampled token if there is one, else the next prefill token, the others the draft token; slots are pad exactly where the lane is not valid or its block is 0; contexts, samples, scalars and padding likewise; nothing else changes. |
| `DrafterPrep.LaunchPrepares` | tools/dsv41_sm120/patch_vllm_dflash_prepare_groups_sm120.py:183-296 | Any memory with the effect of a launch of all groups holds in every buffer the values the batch’s inputs determine, and outside the ranges what it held before. |
| `DrafterPrep.QueriesContinue` | tools/dsv41_sm120/patch_vllm_dflash_prepare_groups_sm120.py:189-226 | Query positions continue the accepted context: one past the position of its last token not rejected, and so on, up to the model length. |
| `DrafterPrep.StoresAgree` | tools/dsv41_sm120/patch_vllm_dflash_prepare_groups_sm120.py:183-296 | Programs never store conflicting values, within a launch or across launches of different groups. |
| `DrafterPrep.StoredIsTouched` | tools/dsv41_sm120/patch_vllm_dflash_prepare_groups_sm120.py:267-296 | A launch stores exactly its ranges: queries, samples, contexts and their padding, without gaps and nothing else. |
| `DrafterPrep.RangesCovered` | tools/dsv41_sm120/patch_vllm_dflash_prepare_groups_sm120.py:206-210 | Every element of the ranges is stored by some program of the grid. |
| `DrafterPrep.Launch` | tools/dsv41_sm120/patch_vllm_dflash_prepare_groups_sm120.py:183-296 | One launch in any order has the effect of its set of stores, whatever memory it starts from. |
| `DrafterPrep.AnyInterleaving` | tools/dsv41_sm120/patch_vllm_dflash_prepare_groups_sm120.py:183-296 | Programs may interleave store by store: any list of the launch’s stores that misses none has the launch’s effect. |
| `DrafterPrep.RunProgram` | tools/dsv41_sm120/patch_vllm_dflash_prepare_groups_sm120.py:183-296 | One program performs exactly its set of stores. |
| `DrafterPrep.LaunchPerGroup` | tools/dsv41_sm120/patch_vllm_dflash_prepare_groups_sm120.py:299-305 | The loop over groups has the effect of the union of the groups’ launches. |
| `DrafterPrep.LaunchSplit` | tools/dsv41_sm120/patch_vllm_dflash_prepare_groups_sm120.py:228-245 | A launch of n + 1 groups stores what the launch of n groups and the launch of the last one store together. |
| `DrafterPrep.Regroup` | tools/dsv41_sm120/patch_vllm_dflash_prepare_groups_sm120.py:228-245 | What a program stores to an element does not depend on which other groups are instantiated. |
| `DrafterPrep.Lane` | tools/dsv41_sm120/patch_vllm_dflash_prepare_groups_sm120.py:206-254 | All masked stores of one lane. |
| `DrafterPrep.GroupSlots` | tools/dsv41_sm120/patch_vllm_dflash_prepare_groups_sm120.py:63-124 | The context and query slot of one group and lane. |
| `DrafterPrep.Head` | tools/dsv41_sm120/patch_vllm_dflash_prepare_groups_sm120.py:256-266 | The four scalars block 0 stores for its request. |
| `DrafterPrep.Pad` | tools/dsv41_sm120/patch_vllm_dflash_prepare_groups_sm120.py:267-296 | The four padding loops of the last request’s block 0. |
| `DrafterPrep.PadStretch` | tools/dsv41_sm120/patch_vllm_dflash_prepare_groups_sm120.py:269-276 | A masked block-strided loop fills exactly its stretch. |
| `DrafterPrep.GridSize` | tools/dsv41_sm120/patch_vllm_dflash_prepare_groups_sm120.py:310-313 | Block size and count cover every request’s tokens and queries, with less than a block to spare for the longest. |
| `DeltaSim.Simulator.Run` | tools/delta_sim.py:94-131 | The replay of any trace with distinct pairs per frame: the invariant after every frame, the hit and activation counts as the forward pass saw them, and promotions - evictions = cached now - cached when scoring began. |
| `DeltaSim.Invariant` | tools/delta_sim.py:68-74 | Between frames: mirror and owner are inverse, owner slots and free slots partition 0..n, every layer’s count is its cached count and within the cap, last-seen is the latest routed tick, frequencies are routed counts. |
| `DeltaSim.StaysCached` | tools/delta_sim.py:77-81 | A cached pair last routed at tick t stays cached through every later frame with tick below t + evict_floor. |
| `DeltaSim.Simulator.Victim` | tools/delta_sim.py:77-92 | Among the slots that are neither active nor routed less than the floor ago, lru takes the earliest last tick, the other policies the least frequency and then the earliest tick; of equal ones the slot that comes first. None is returned exactly when no slot is eligible. |
| `DeltaPromotion.VictimUnique` | tools/delta_sim.py:89-91 | Key and slot order determine the victim. |
| `DeltaPromotion.LruVictim` | tools/delta_sim.py:77-92 | The victim of lru: an eligible slot is it if and only if its last tick is the earliest of all eligible slots, the first of equal ones. |
| `DeltaPromotion.LfuVictim` | tools/delta_sim.py:77-92 | The victim of lfu and lfu_aged: the least frequency, then the earliest tick, then the slot that comes first, if and only if. |
| `DeltaPromotion.AgeingChangesNothing` | tools/delta_sim.py:84-87 | lfu_aged always evicts what lfu evicts. |
| `DeltaSim.Simulator.Step` | tools/delta_sim.py:94-131 | One frame, whatever it lists: hits, the candidate order, which candidates are placed, who stays cached, the counters; with distinct pairs the invariant holds again. |
| `DeltaSim.Simulator.PromoteAll` | tools/delta_sim.py:110-131 | The loop leaves the tables, the count and the cold ages that the promotion function says. |
| `DeltaSim.InverseExactly` | tools/delta_sim.py:110-131 | A frame leaves mirror and owner inverse if and only if it places no pair twice: without a cap, if and only if the first candidates, as many as the budget and the free and evictable slots before the frame allow, are distinct; with free slots for the whole budget, if and only if those admitted by the layer counts before the frame are. |
| `DeltaSim.RepeatedPair` | tools/delta_sim.py:102-131 | A simulator run into the broken state: a first frame that lists one pair twice, with two slots, a budget of two and no cap. |
| `DeltaPromotion.DecideFirst` | tools/delta_sim.py:110-121 | Without a cap the first candidates in strategy order are placed, as many as budget and room allow. |
| `DeltaPromotion.DecideGreedy` | tools/delta_sim.py:112-117 | With free slots for the whole budget the candidates placed are those whose layer is below the cap when their turn comes. |
| `DeltaPromotion.DecideInOrder` | tools/delta_sim.py:111-115 | Candidates are decided one by one in order; those behind the last decided are not considered. |
| `DeltaPromotion.DecideInverse` | tools/delta_sim.py:118-130 | The tables stay inverse through the loop if and only if no pair is placed that is cached or has been placed in it. |
| `DeltaPromotion.DecideGoes` | tools/delta_sim.py:110-131 | The loop keeps the slot partition, the layer counts and cap, the last-seen ticks, and every pair routed less than the floor ago. |
| `DeltaPromotion.DecideBooks` | tools/delta_sim.py:125-133 | Placements less departures is the growth of the owner table, and whoever leaves has been cold for the floor. |
| `DeltaPromotion.FillKeeps` | tools/delta_sim.py:80-81 | A placement evicts no pair that is active or was routed less than the floor ago. |
| `DeltaSim.Simulator.Promote` | tools/delta_sim.py:115-131 | A candidate gets the last free slot or else the victim’s, whose pair leaves; with neither nothing changes. |
| `DeltaSim.Simulator.Touch` | tools/delta_sim.py:102-107 | Frequencies, last-seen ticks and the candidate list of a frame, repeated pairs included. |
| `DeltaSim.Simulator.Score` | tools/delta_sim.py:97-101 | The hit count against the table before the frame’s promotions. |
| `DeltaOrder.OrderCandidates` | tools/delta_sim.py:39-53 | Every strategy permutes the candidates, with the order each promises. |
| `DeltaOrder.Interleave` | tools/delta_sim.py:44-52 | Round-robin keeps each layer’s order, and in every prefix an earlier layer is at most one ahead of a later one and never behind, unless one is exhausted. |
| `DeltaOrder.SortIsStable` | tools/delta_sim.py:42-43 | Hottest first, equally hot candidates in captured order. |
| `DeltaOrder.LayersPermute` | tools/delta_sim.py:44-52 | Sequences that agree layer by layer are permutations. |
| `ResultProtocol.ResultIsOneText` | bench/runner/common.py:385-394 | In every run with crashes the result, if there, is the whole text of exactly one publication. |
| `ResultProtocol.ResultIsFinal` | bench/runner/common.py:364-398 | Once there, the result stays and no character of it ever changes. |
| `ResultProtocol.AppearsWhole` | bench/runner/common.py:379-389 | The result appears by one link of a live process, complete. |
| `ResultProtocol.AtMostOneHolder` | bench/runner/common.py:330-361 | If each reserver has recorded its pid before another reads its lock, at most one live process holds the reservation, and a publisher holds it. |
| `ResultProtocol.PromptIsExact` | bench/runner/common.py:343-349 | That condition is exact: a read of the lock keeps the invariant if and only if the lock’s creator is not alive with its pid unwritten. |
| `ResultProtocol.EarlyReadBreaks` | bench/runner/common.py:354-360 | Every such early read lets two live processes hold the reservation: the guard is released before the pid is written. |
| `ResultProtocol.EarlyReadReachable` | bench/runner/common.py:354-360 | The early read is reachable from the start by two processes. |
| `ResultProtocol.DeadHolderIsReplaced` | bench/runner/common.py:343-350 | A lock whose creator has died is reclaimed by the next reserver. |
| `ResultProtocol.FirstReserves` | bench/runner/common.py:330-361 | Undisturbed and without a lock, reserve_result leaves a new lock with the caller’s pid, the guard free and nothing else changed. |
| `ResultProtocol.LiveHolderRefuses` | bench/runner/common.py:343-357 | A lock that names a live process refuses the caller, and nothing has changed. |
| `ResultProtocol.VanishedLockRefuses` | bench/runner/common.py:343-357 | A reclaimer whose unlink finds the lock gone gives up: the guard is free and nothing is reserved. |
| `ResultProtocol.HolderPublishes` | bench/runner/common.py:364-398 | Undisturbed, the holder’s write_result publishes its whole text and leaves no lock, no temporary name and every other file as it was; a temporary file left by a failed dump is used again. |
| `ResultProtocol.OthersAreRefused` | bench/runner/common.py:365-378 | With a result present, or a lock that does not name the caller, write_result changes nothing. |
| `ResultProtocol.LateLinkLoses` | bench/runner/common.py:386-394 | A link behind another publication leaves result and lock alone and removes only the temporary name. |
| `ResultProtocol.RetryPublishes` | bench/runner/common.py:379-398 | After a dump that raised, the holder’s next write publishes its text in the same temporary file. |
| `ResultProtocol.LockStep` | bench/runner/common.py:330-361 | Every step with a prompt read keeps the lock invariant. |
| `ResultProtocol.FilesStep` | bench/runner/common.py:378-398 | Every step keeps the file invariant. |
| `CandidateTopK.Select` | tools/dsv41_sm120/patch_vllm_candidate_short_sm120.py:108-130 | On a row that is -inf beyond its valid blocks the output lists, each once, exactly the blocks the full-width selection publishes, and -1 elsewhere: no listed block is -inf, an unlisted one is behind every listed one (NaN before +inf before the finite scores by size, equal ones by column), and while an entry is -1 every block that is not -inf is listed. |
| `CandidateTopK.PrefixIsEnough` | tools/dsv41_sm120/patch_vllm_candidate_short_sm120.py:11-20 | Prefix and full width publish the same set if and only if every column the full width takes beyond the prefix is -inf. |
| `CandidateTopK.TailTakesPlace` | tools/dsv41_sm120/patch_vllm_candidate_short_sm120.py:11-13 | A prefix column that the full width drops is behind a selected column of the tail. |
| `CandidateTopK.TopKCount` | tools/dsv41_sm120/patch_vllm_candidate_short_sm120.py:14-16 | Exactly min(k, n) columns are selected. |
| `CandidateTopK.SelectedAreLargest` | tools/dsv41_sm120/patch_vllm_candidate_short_sm120.py:14-16 | A column left out is not ahead of a selected one: NaN goes before +inf, +inf before the finite scores, those by size, -inf last, equal scores by column. |
| `CandidateTopK.TopkPrefill` | tools/dsv41_sm120/patch_vllm_candidate_short_sm120.py:14-16 | The selected columns ascending, then -1. |
| `CandidateTopK.Fixup` | tools/dsv41_sm120/patch_vllm_candidate_short_sm120.py:84-105 | In place: a selected block stays unless its score is -inf; everything else becomes -1. |
| `SignTest.ExactTail` | bench/runner/probes.py:61-73 | The p-value is the exact two-sided binomial tail: the share of all outcomes at least as extreme. |
| `SignTest.ClampOnlyOnTies` | bench/runner/probes.py:70-71 | Doubling the lower tail exceeds 1 exactly when longer equals shorter. |
| `SignTest.SwapKeepsP` | bench/runner/probes.py:42-71 | Swapping the two reports changes nothing. |
| `SignTest.DoubledTail` | bench/runner/probes.py:67-71 | Twice the lower tail against the number of outcomes, in integers. |
| `SignTest.CombIs` | bench/runner/probes.py:67-69 | The binomial coefficient, by factorials. |
| `SignTest.RowsAre` | bench/runner/probes.py:42-49 | An item has a count exactly when a profiled run of it succeeded with tokens; the last such run gives it. |
| `SignTest.SidesAre` | bench/runner/probes.py:54-62 | The longer side is the items of both reports whose candidate count exceeds the baseline’s, the shorter side those below it. |

## Left out

- `MoeW2Kernel.Gemm`: covers the shipped row-major A operand; the AFRAG variant, which reads a pre-packed A, is not modelled.
- `MoeW2Gemm.Qmma`: the tensor-core step is its contract in exact arithmetic; rounding of products, accumulators and the bf16 store is not modelled.
- `MoeW4qCodec.DecodeBlock`: stops at the decoded registers; the rest of that kernel repeats the 2-bit kernel, and its reduce-store lacks the slot clamp for thread counts that do not divide 256.
- `SparseMlaSoftmax.Attend`: the final multiplication of the log-sum-exp by lse_scale, the bf16 roundings and the approximate exp2, log2 and reciprocal instructions are not modelled; scores and record values are parameters, so the fp8 and fp4 dequantisation is not either.
- `SparseMlaPhases.NoRace`: a thread's accesses within a phase are a set without order, which allows every order the hardware could take; registers staged across phases are not cells.
- `CodebookGroups.RemapGroups`: the costs are exact; the float32 costs of many-group runs and the chunking of the groups are not modelled.
- `CodebookRemap.ProcessTensor`: file headers, shard copying and the codebook counters around it are I/O or bookkeeping.
- `GroupedMoe.Gather`: row values, activation and GEMMs are a function of the expert and the row's own input, as the glue's documentation states; the packed scale columns move with the row and are not separate.
- `GroupedMoe.DescriptionsAgree`: m_indices is its contract (the expert on the first count rows of a block, -1 elsewhere); the kernel that fills it is not part of this model.
- `SideDefer.Replay`: a kernel is a number with the set of kernels ordered before it; tensors are not named, since equal pasts order every pair. The references kept in `_moet_pending` (allocator lifetime) are not modelled.
- `Prequant.Replay`: the exception fall-back that clears the marker, the class and dtype checks (one flag here) and the environment switch read at the first call (a constant here) are not modelled.
- `DrafterPrep.Fused`: the position and block-table arithmetic of cp_local_slot is a parameter. A request's queries are its speculative steps plus the unsampled first one, as the caller sets them up.
- `DeltaSim.InverseExactly`: with a per-layer cap and evictions in the same frame the placements are those of the promotion function itself; no closed form of them is given.
- `DeltaSim.Simulator.Run`: frames come sorted and with distinct pairs; loading the trace, the float warm-up fraction (a frame number here), percentages, percentiles and the unknown-policy error are not modelled. Victim keys are compared as reals.
- `ResultProtocol.AtMostOneHolder`: pids are not reused and a signal to a live process succeeds; a process that may not signal the holder would take it for dead. The overwrite switch is off. Single writes of the pid are atomic, those of the result are not.
- `CandidateTopK.TopkPrefill`: the top-k kernel by its documented contract; its clusters and launches are not modelled.
- `SignTest.ExactTail`: the quotient is exact; the float division, ratios, medians and runaway counts around it are not modelled.
- SASS scheduling, register renumbering, assembly and CUDA launches; text patching of other packages with its check modes; benchmark clients, servers, containers, hashing and report rendering.
