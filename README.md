# xorshift128+ and AES counter generators, modelled in Dafny

This project models the random-number engines of SIMDxorshift_cpp:

- the scalar xorshift128+ generator: its key, the step, the multiply-shift bounded sampler, the pairwise buffer fill and the two-at-a-time Fisher–Yates shuffle;
- the 256-bit (4-lane) and 512-bit (8-lane) vector engines: the scalar step used for seeding, the 128-step jump, lane seeding by chained jumps, the lane-wise vector step, the one-, two- and four-key block fills, the lane-wise bounded sampler and the vectorised shuffle;
- the AES "dragontamer" counter generator: its key, the counter step, the output layout and the block fill.

Machine words are `bv64` lanes and `bv32` buffer words, stored little-endian. Word `2k` of a wide register is the low half of 64-bit lane `k`. Buffers are `array<bv32>`. Bounds and indices that the source keeps in `uint32_t` are `u32` integers, and their wrap-around is written out where it matters.

Modules:

- `Words`: shared word operations, multiply-shift and a block store.
- `Swaps`: the swap sequences that the shuffles perform.
- `Xorshift128Plus`: the scalar generator.
- `Jump`: the scalar step on keys and the jump.
- `VectorLanes`: the vector key and the vector step.
- `VectorFill`: the block fills, shared by both vector widths.
- `Simd256` and `Simd512`: the two engines.
- `AesDragontamer`: the AES counter generator.

Every fill is specified against a reference stream. For each cell `x < size` the contract names the word it must hold. The scalar shuffle and the 256-bit shuffle are specified as a sequence of swaps `ApplySwaps`, whose targets come from the key's stream. Separate lemmas prove that such a sequence permutes the first `size` cells and leaves the others alone.

The `onkeys` step and the jump appear twice in the source, once in each vector header, as identical code. Module `Jump` models them once, and both engines use it. Likewise the 512-bit step (`include/simd_avx512_xorshift128plus.hpp:97-110`) is the 256-bit step over eight lanes, so `VectorLanes.Rand` models both.

Two properties of the source itself, rather than of a corrected version:

- The vector step (`include/simd_xorshift128plus.hpp:100`, `include/simd_avx512_xorshift128plus.hpp:105`) computes the new `part2` from the old `part2` alone; the old `part1` is discarded. So a lane does not follow the scalar recurrence. The model keeps the step as written (`VectorLanes.Rand`). `VectorLaneIsNotScalar` shows the difference. `VNextIntended` with `VIntendedLaneIsScalar` shows what a step reading `part1` would compute.
- In the AES output, the low 128 bits are the AESDEC result and the high 128 bits are the second AESENC result. This is the order `_mm256_set_m128i(penultimate1, penultimate2)` produces.

## Model

| member | source | states |
|---|---|---|
| Xorshift128Plus.Key.constructor | include/xorshift128plus.hpp:7-23 | the key's state is `p1 << 32 \| p2`, `p3 << 32 \| p4` |
| Xorshift128Plus.SeedStateExact | include/xorshift128plus.hpp:15-22 | seed packing is an exact concatenation: the four 32-bit seed words can be read back from the two halves of the key |
| Xorshift128Plus.SeedStateInjective | include/xorshift128plus.hpp:15-22 | two seedings give the same key if and only if all four seed words are equal |
| Xorshift128Plus.Next | include/xorshift128plus.hpp:34-38 | the new `seed1` is the old `seed2` |
| Xorshift128Plus.Rand | include/xorshift128plus.hpp:32-40 | the key advances by exactly one step of the recurrence, and the result is the output of the old state (new `seed2` plus old `seed2`, mod 2^64) |
| Xorshift128Plus.ZeroStepIsZero | include/xorshift128plus.hpp:32-39 | the all-zero key steps to itself and outputs 0 |
| Xorshift128Plus.ZeroIsAbsorbing | include/xorshift128plus.hpp:32-39 | from the all-zero key, every number of steps stays at zero and every output is 0 |
| Xorshift128Plus.StepNAdd | include/xorshift128plus.hpp:32-40 | `m` steps after `n` steps are `n + m` steps |
| Xorshift128Plus.StepNShift | include/xorshift128plus.hpp:32-40 | one step followed by `n` steps is `n + 1` steps |
| Xorshift128Plus.StreamWordPair | include/xorshift128plus.hpp:48-52 | the output of call `m + 1` supplies stream words `2m` (its low half) and `2m + 1` (its high half) |
| Xorshift128Plus.ScrambleHighLinear | include/xorshift128plus.hpp:37 | `s1 ^= s1 << 23` is XOR-linear |
| Xorshift128Plus.CombineLinear | include/xorshift128plus.hpp:38 | the new `seed2` is XOR-linear in both of its inputs |
| Xorshift128Plus.NextLinear | include/xorshift128plus.hpp:34-38 | one step of `s ^ u` is the XOR of the steps of `s` and `u` |
| Xorshift128Plus.StepNLinear | include/xorshift128plus.hpp:34-38 | any number of steps is XOR-linear |
| Xorshift128Plus.XorStateZero | include/xorshift128plus.hpp:34-38 | the zero state is the unit of the lane-wise XOR that the linearity results use |
| Words.MulShift | include/xorshift128plus.hpp:75 | `(x * bound) >> 32` is below `bound` when `bound > 0`, and is 0 when `bound == 0` |
| Words.ConcatInjective | include/xorshift128plus.hpp:21-22 | packing two 32-bit words into 64 bits loses nothing |
| Xorshift128Plus.BoundedTwoByTwo | include/xorshift128plus.hpp:65-70 | one step of the key; `bounded1` is the low half of its output scaled into `[0, bound1)` and `bounded2` the high half scaled into `[0, bound2)` |
| Xorshift128Plus.Bounded | include/xorshift128plus.hpp:72-76 | one step of the key; the result is the low half of its output scaled into `[0, bound)` |
| Xorshift128Plus.PopulateRandom | include/xorshift128plus.hpp:42-57 | cell `x` takes stream word `x` for `x < FilledByPairwiseFill(size)`; every other cell, including all cells at or beyond `size`, is unchanged |
| Xorshift128Plus.FilledByPairwiseFill | include/xorshift128plus.hpp:46-56 | at most `size` cells are written, and all of them when `size` is odd |
| Xorshift128Plus.PairwiseFillMissesLastCell | include/xorshift128plus.hpp:48-56 | for even `size >= 2` exactly `size - 1` cells are written: the last cell is left as it was |
| Xorshift128Plus.PairwiseFillSizeTwo | include/xorshift128plus.hpp:48-56 | for `size == 2` only cell 0 is written |
| Xorshift128Plus.PopulateRandomCorrected | include/xorshift128plus.hpp:42-57 | with the loop running while more than one cell remains, every cell below `size` takes its stream word and nothing else changes |
| Xorshift128Plus.ShuffleTargets | include/xorshift128plus.hpp:115-143 | swap `k` places a cell at position `size - 1 - k`, with a target below `size - k` |
| Xorshift128Plus.SwapCells | include/xorshift128plus.hpp:119-125 | the two cells are exchanged, and nothing else changes |
| Xorshift128Plus.ShufflePair | include/xorshift128plus.hpp:115-134 | one loop iteration takes one step of the key and performs the next two swaps of the sequence, with bounds `i` and `i - 1` |
| Xorshift128Plus.ShuffleLast | include/xorshift128plus.hpp:136-143 | when two cells remain, one bounded draw performs the last swap of the sequence |
| Xorshift128Plus.Shuffle32 | include/xorshift128plus.hpp:106-144 | the buffer becomes the swap sequence of `size - 1` swaps (none for `size <= 1`) applied to its old contents |
| Xorshift128Plus.ShufflePermutes | include/xorshift128plus.hpp:106-144 | after the shuffle the first `size` cells are a permutation of their old contents, the cells beyond `size` are unchanged, and for `size <= 1` nothing changes |
| Xorshift128Plus.ShuffleTargetsSnoc | include/xorshift128plus.hpp:117 | the next swap's target is the next stream word, scaled by the number of cells still unshuffled |
| Swaps.Swap | include/xorshift128plus.hpp:119-125 | the two cells are exchanged and every other cell is kept |
| Swaps.SwapPermutes | include/xorshift128plus.hpp:119-125 | a swap preserves the multiset of cells |
| Swaps.ApplySwapsSnoc | include/xorshift128plus.hpp:115-143 | one more target is one more swap of the next position down |
| Swaps.ApplySwapsPermutes | include/xorshift128plus.hpp:106-144 | any swap sequence with in-range targets preserves the multiset of the buffer |
| Swaps.ApplySwapsFrame | include/xorshift128plus.hpp:106-144 | cells at or beyond `top` are never touched |
| Swaps.ApplySwapsPermutesPrefix | include/xorshift128plus.hpp:106-144 | the first `top` cells are a permutation of their old contents |
| Jump.OnKeys | include/simd_xorshift128plus.hpp:17-24 | the pointer-updating step equals the state part of the scalar step |
| Jump.JumpWord | include/simd_xorshift128plus.hpp:35-43 | 64 iterations of the inner loop accumulate the next 64 terms of the XOR-of-iterates and advance the state by 64 steps |
| Jump.JumpOnKeys | include/simd_xorshift128plus.hpp:27-48 | the output is the XOR of `step^k(in)` over the `k < 128` whose bit is set in the jump polynomial |
| Jump.JumpAccStep | include/simd_xorshift128plus.hpp:37-42 | one inner-loop iteration XORs in the current state exactly when its bit of the jump polynomial is set |
| Jump.JumpPowStep | include/simd_xorshift128plus.hpp:74-76 | `k + 1` chained jumps are one jump of `k` chained jumps |
| Jump.JumpOfZero | include/simd_xorshift128plus.hpp:27-48 | the jump maps the zero state to the zero state |
| Jump.JumpAccLinear | include/simd_xorshift128plus.hpp:31-44 | every prefix of the jump's accumulation is XOR-linear |
| Jump.JumpOfLinear | include/simd_xorshift128plus.hpp:27-48 | the jump is XOR-linear |
| Jump.JumpPowZero | include/simd_xorshift128plus.hpp:74-76 | the zero state stays zero under any number of chained jumps |
| VectorLanes.VecKey.constructor | include/simd_xorshift128plus.hpp:52-80 | lane `k` of (`part1`, `part2`) is `k` chained jumps of the seed state, in lane order |
| VectorLanes.PackNotInjective | include/simd_xorshift128plus.hpp:62-69 | with 64-bit seed parts, `p1 << 32 \| p2` is not a concatenation: two different seeds give the same state |
| VectorLanes.PackOfWords | include/simd_xorshift128plus.hpp:68-69 | when the seed parts fit in 32 bits the packing is the scalar key's concatenation |
| Simd256.NewKey | include/simd_xorshift128plus.hpp:62-79 | lane 0 is the packed seed and lane `k + 1` the jump of lane `k`, for the three jumps |
| VectorLanes.Rand | include/simd_xorshift128plus.hpp:92-105 | the new `part1` is the old `part2`; the new `part2` and the result depend only on the old `part2`, lane by lane |
| VectorLanes.VStepExprIsVNext | include/simd_xorshift128plus.hpp:100-102 | the register expression of the step computes the lane-wise step, with no carry between lanes |
| VectorLanes.VStepExprLane | include/simd_xorshift128plus.hpp:100-102 | lane `k` of the new `part2` is the step applied to lane `k` of the old `part2` alone |
| VectorLanes.VectorLaneIsNotScalar | include/simd_xorshift128plus.hpp:100 | the vector step sends lane value 0 to 0 whatever `part1` holds, while the scalar step from `(1, 0)` does not give 0 |
| VectorLanes.VNextIntended | include/simd_xorshift128plus.hpp:94-102 | a step that reads `part1`, as the declaration of `s1` suggests, combines lane `k` of both parts |
| VectorLanes.VIntendedLaneIsScalar | include/simd_xorshift128plus.hpp:94-102 | under that step every lane follows the scalar recurrence |
| VectorLanes.VStepNLane | include/simd_xorshift128plus.hpp:92-105 | after `m` steps, lane `k` is lane `k`'s own iterate: lanes never mix |
| VectorLanes.VStepNShift | include/simd_xorshift128plus.hpp:92-105 | one step then `m` steps is `m + 1` steps |
| VectorLanes.VStreamShift | include/simd_xorshift128plus.hpp:117-125 | the stream after `m` whole blocks is the stream of the key stepped `m` times |
| VectorLanes.VStreamBlock | include/simd_xorshift128plus.hpp:117-125 | block `m` of the stream is the memory image of output `m + 1` |
| Words.WordsOf | include/simd_xorshift128plus.hpp:122 | the store writes word `2k` as the low half and word `2k + 1` as the high half of lane `k` |
| Words.StoreWords | include/simd_xorshift128plus.hpp:134-137 | the stored cells take the words in order, and no other cell changes |
| VectorFill.StoreOutput | include/simd_xorshift128plus.hpp:122 | one call stores the memory image of the output at `i` and steps the key |
| Simd256.Populate | include/simd_xorshift128plus.hpp:107-139 | cell `x < size` takes word `x` of the key's stream, covering the whole blocks and the tail prefix of one more block; cells at or beyond `size` are unchanged |
| VectorFill.PopulateOne | include/simd_xorshift128plus.hpp:107-139 | the same for any lane count, with block `2 * lanes` |
| Simd256.PopulateTwo | include/simd_xorshift128plus.hpp:142-174 | cell `x < size` takes `Fill` of the two key streams, where key 1 also writes the leftover block and the tail; cells at or beyond `size` are unchanged |
| VectorFill.PopulateTwo | include/simd_xorshift128plus.hpp:142-174 | the same for any lane count |
| Simd256.PopulateFour | include/simd_xorshift128plus.hpp:177-219 | cell `x < size` takes `Fill` of the four key streams, with rounds of four blocks, then of two, then of one, then the tail; cells at or beyond `size` are unchanged |
| VectorFill.PopulateFour | include/simd_xorshift128plus.hpp:177-219 | the same for any lane count |
| VectorFill.FillIsStream | include/simd_xorshift128plus.hpp:177-219 | every cell of a multi-key fill is one word of one key's own stream, namely word `Source(...).1` of key `Source(...).0` |
| VectorFill.SourceInjective | include/simd_xorshift128plus.hpp:177-219 | no stream word is used for two cells |
| VectorFill.SourceOneKey | include/simd_xorshift128plus.hpp:107-139 | with one key, cell `x` is word `x` of its stream |
| VectorFill.FillOneIsStream | include/simd_xorshift128plus.hpp:107-139 | the one-key fill is the key's stream |
| VectorFill.FillBlock | include/simd_xorshift128plus.hpp:189-197 | in a whole round, block `j` holds the output of key `j` |
| VectorFill.FillRound | include/simd_xorshift128plus.hpp:189-197 | after a whole round, the rest of the fill is the same fill with every key stepped once |
| VectorFill.FillHalve | include/simd_xorshift128plus.hpp:199-210 | when a round of `k` keys no longer fits, the fill continues with the first `k / 2` keys |
| VectorFill.FillTail | include/simd_xorshift128plus.hpp:211-218 | the tail is a prefix of the next output of key 1 |
| VectorFill.BlockFits | include/simd_xorshift128plus.hpp:117 | the guard holds if and only if `i + need <= size` |
| VectorFill.GuardAgrees | include/simd_xorshift128plus.hpp:117 | the 32-bit guard as written agrees with the exact one whenever `size + need < 2^32` |
| VectorFill.GuardWraps | include/simd_xorshift128plus.hpp:117 | near 2^32 the 32-bit guard as written admits a block that does not fit |
| VectorFill.GuardWrapsIff | include/simd_xorshift128plus.hpp:117-125 | for a step of `need` words (8, 16, 32 or 64), some multiple of `need` up to `size` makes the 32-bit guard admit a block that does not fit if and only if `size >= 2^32 - need`; there `i + need` wraps to 0, so `i` restarts at 0 |
| Simd256.RandomBound | include/simd_xorshift128plus.hpp:238-253 | output lane `x` is `(randomvals[x] * upperbound[x]) >> 32`: it depends only on lane `x`, and is below `upperbound[x]` when that bound is nonzero |
| Simd256.BlendedWord | include/simd_xorshift128plus.hpp:244-252 | the even/odd multiply, shift and blend pipeline yields the high half of each lane's own product |
| Simd256.OddMask | include/simd_xorshift128plus.hpp:252 | mask `0b10101010` selects exactly the odd words |
| Simd256.ProductHalves | include/simd_xorshift128plus.hpp:244 | the low and high words of a `_mm256_mul_epu32` lane together hold the exact 64-bit product, so the shift right by 32 keeps its high half |
| Simd256.SubEightStep | include/simd_xorshift128plus.hpp:315 | subtracting 8 from every lane turns the interval of batch `b` into that of batch `b + 1` |
| Simd256.BatchTargetsAre | include/simd_xorshift128plus.hpp:295-317 | the bound of lane `x` in batch `b` is the `i` of that swap, and the target is the stream word of that swap scaled by it |
| Simd256.VShuffleTargets | include/simd_xorshift128plus.hpp:303-313 | swap `k` places a cell at position `size - 1 - k`, with a target below `size - k` |
| Simd256.VShuffleTargetsSnoc | include/simd_xorshift128plus.hpp:307-312 | the next swap's target is the next stream word, scaled by the number of cells still unshuffled |
| Simd256.ShuffleInBoundsIff | include/simd_xorshift128plus.hpp:303-313 | every position the loop as written touches is below `size` if and only if `size <= 1` or `size mod 8` is 0 or 1 |
| Simd256.ShuffleOverrun | include/simd_xorshift128plus.hpp:303-313 | for `size == 2`, the third swap of the first batch uses position `0xFFFFFFFF` |
| Simd256.ShuffleBatch | include/simd_xorshift128plus.hpp:305-313 | one batch as written performs the next eight swaps of the sequence |
| Simd256.NextBatch | include/simd_xorshift128plus.hpp:315-319 | one call steps the key and yields the next interval and the targets of the next batch |
| Simd256.Shuffle32 | include/simd_xorshift128plus.hpp:287-321 | for the sizes on which the source stays in bounds, the buffer becomes the as-written number of swaps applied to its old contents |
| Simd256.VShufflePermutes | include/simd_xorshift128plus.hpp:287-321 | any prefix of the swap sequence keeps the first `size` cells a permutation and leaves the rest unchanged |
| Simd256.ShuffleAgreesWhenSafe | include/simd_xorshift128plus.hpp:303-313 | on those sizes, the as-written swap count gives the same buffer as the `size - 1` swaps of the corrected loop |
| Simd256.ShuffleBatchCorrected | include/simd_xorshift128plus.hpp:305-313 | a batch that stops at `i == 1` performs the next swaps of the sequence |
| Simd256.Shuffle32Corrected | include/simd_xorshift128plus.hpp:287-321 | for every size, the buffer becomes the `size - 1` swaps (none for `size <= 1`) applied to its old contents |
| Simd512.NewKey | include/simd_avx512_xorshift128plus.hpp:51-87 | lane 0 is the packed seed and lane `k + 1` the jump of lane `k`, for the seven jumps |
| Simd512.Populate | include/simd_avx512_xorshift128plus.hpp:112-141 | with block 16, cell `x < size` takes word `x` of the key's stream; cells at or beyond `size` are unchanged |
| Simd512.PopulateTwo | include/simd_avx512_xorshift128plus.hpp:144-175 | with block 16, cell `x < size` takes `Fill` of the two key streams; cells at or beyond `size` are unchanged |
| Simd512.PopulateFour | include/simd_avx512_xorshift128plus.hpp:177-220 | with block 16, cell `x < size` takes `Fill` of the four key streams; cells at or beyond `size` are unchanged |
| AesDragontamer.AesKey.constructor | include/aes_dragontamer.hpp:16-39 | `seed2` goes to the low lane and `seed1` to the high lane of the state; the increment is the constant register |
| AesDragontamer.IncrementLanes | include/aes_dragontamer.hpp:34-35 | the sixteen bytes give low lane `0x110D0B0705030201` and high lane `0x2F2B29251F1D1713` |
| AesDragontamer.BytesValue | include/aes_dragontamer.hpp:34-35 | `n` bytes make a number below `256^n` |
| AesDragontamer.Pack32 | include/aes_dragontamer.hpp:30-31 | the packed seed's high and low 32-bit halves are the two seed words |
| AesDragontamer.Pack32Injective | include/aes_dragontamer.hpp:24-31 | seed packing is injective |
| AesDragontamer.Rand | include/aes_dragontamer.hpp:49-60 | the counter advances lane-wise by the increment first; the increment is unchanged; the output is built from the advanced counter |
| AesDragontamer.CounterStep | include/aes_dragontamer.hpp:51 | one more call turns the counter of `n` calls into that of `n + 1` calls: each lane is its start plus `n` times its increment, mod 2^64 |
| AesDragontamer.CounterLaneStep | include/aes_dragontamer.hpp:51 | the same for one lane, with no carry into the other |
| AesDragontamer.CounterStart | include/aes_dragontamer.hpp:38 | before any call the counter is the seeded state |
| AesDragontamer.LaneWords | include/aes_dragontamer.hpp:75 | the store writes word `2k` as the low 32 bits and word `2k + 1` as the high 32 bits of 64-bit lane `k` |
| AesDragontamer.StreamBlock | include/aes_dragontamer.hpp:73-78 | words `8m` to `8m + 7` of the fill are the memory image of the output of call `m + 1` |
| AesDragontamer.Populate | include/aes_dragontamer.hpp:62-88 | cell `x < size` takes word `x mod 8` of the output after `x / 8 + 1` counter steps from the seeded key; cells at or beyond `size` are unchanged; `ceil(size / 8)` outputs are drawn |

## Left out

- The entropy seeder `randutils::auto_seed_128` is not part of this model. The seed words are parameters of the constructors and of the fills that build their own keys.
- The internals of AESENC and AESDEC are not modelled. They are function parameters of type `(M128, M128) -> M128`.
- `include/benchmark.hpp` is timing instrumentation and printing, and is not part of this model.
- Statistical claims are not modelled: that the jump equals 2^64 steps, decorrelation of lanes, uniformity or bias, periods. Only the XOR-of-iterates definition of the jump is stated.
- Unaligned stores and pointer casts are modelled as writes of consecutive 32-bit words in little-endian lane order. Aliasing between the buffer and the keys is not modelled.
- The public wrappers (`fill_array*`, `get_rand`, `operator()`) only forward to the modelled operations, so they have no members of their own.
- Simd256.Populate: uses the exact guard `i + block <= size`. The source computes `i + block` in 32 bits, and it wraps when `size >= 2^32 - 8`. From then on the source stores past `size` and never ends. The model does not follow this (see Findings and `GuardWrapsIff`).
- Simd256.PopulateTwo: the same exact guard in place of the 32-bit one. The source's rounds of two blocks wrap when `size >= 2^32 - 16`.
- Simd256.PopulateFour: the same exact guard in place of the 32-bit one. The source's rounds of four blocks wrap when `size >= 2^32 - 32`.
- Simd512.Populate: the same exact guard in place of the 32-bit one. The source's single blocks wrap when `size >= 2^32 - 16`. The model also draws from `mykey` where the source names the undeclared `my_key1`.
- Simd512.PopulateTwo: the same exact guard in place of the 32-bit one. The source's rounds of two blocks wrap when `size >= 2^32 - 32`.
- Simd512.PopulateFour: the same exact guard in place of the 32-bit one. The source's rounds of four blocks wrap when `size >= 2^32 - 64`.
- VectorFill.PopulateOne: loops on the exact guard `BlockFits` over `size: nat`, where the source's `size` is a `uint32_t` and its guard `i + block <= size` is computed in 32 bits, wrapping once `size >= 2^32 - block`.
- VectorFill.PopulateTwo: the same exact guard over `size: nat` in place of the 32-bit one. The source's rounds of two blocks wrap once `size >= 2^32 - 2 * block`.
- VectorFill.PopulateFour: the same exact guard over `size: nat` in place of the 32-bit one. The source's rounds of four blocks wrap once `size >= 2^32 - 4 * block`.
- AesDragontamer.Populate: the same exact guard in place of the 32-bit one. The source's blocks wrap when `size >= 2^32 - 8`. `calls` is a ghost count of the outputs drawn, not a value the source returns.
- Simd256.Shuffle32: requires `ShuffleSafe(size)`, i.e. `size <= 1` or `size mod 8` in {0, 1}. For other sizes the source indexes outside the buffer, which `ShuffleOverrun` and `ShuffleInBoundsIff` show.
- VectorLanes.Rand: keeps the step as written, so vector lanes do not follow the scalar recurrence. The step that reads `part1` is stated separately (`VNextIntended`) and is not used by the fills.
- The vector keys take their seed parts as 64-bit values, as the source's `std::array<uint64_t, 4>` does. So the packing is a bitwise or and is not injective (`PackNotInjective`).
- Each fill creates its keys from seed parameters, one `Seed` per key. The model does not relate the seeds of different keys, because the seeder is not modelled.

## Findings

| source | as written | input that shows it | evidently intended | confidence | as-written member | corrected member |
|---|---|---|---|---|---|---|
| include/xorshift128plus.hpp:48-56 | the loop runs `while (i > 2)` and then writes one 32-bit word | `size == 2` (any even `size >= 2`): cell `size - 1` is never written | loop `while (i > 1)`, so every cell below `size` is written | not executed | Xorshift128Plus.PairwiseFillMissesLastCell | Xorshift128Plus.PopulateRandomCorrected |
| include/simd_xorshift128plus.hpp:303-313 | each batch performs 8 swaps and decrements `i` each time, whatever `i` is | `size == 2`: the third swap reads `storage[0xFFFFFFFF]` | stop swapping once `i <= 1` | not executed | Simd256.ShuffleOverrun | Simd256.Shuffle32Corrected |
| include/simd_xorshift128plus.hpp:117 | the guard `i + block <= size` is evaluated in 32 bits | block 8, `size == 0xFFFFFFF8`: `i` reaches `0xFFFFFFF8 == size`, and `i + 8` wraps to 0, which is `<= size`. So line 122 stores 8 words starting at `rand_arr + size`, and `i` restarts at 0. From then on the loop rewrites the buffer forever and never reaches the tail. The same happens for `size >= 2^32 - block`, and for the rounds of two and four keys at `2^32 - 2 * block` and `2^32 - 4 * block` | the guard compares the exact sum | not executed | VectorFill.GuardWrapsIff | VectorFill.BlockFits |
