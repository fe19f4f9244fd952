/**
 * The 256-bit engine: four xorshift128+ lanes in one register, block fills of
 * eight 32-bit words, the lane-wise multiply-shift sampler and the vectorised
 * Fisher-Yates shuffle. Registers of 32-bit words are `seq<u32>` of length 8,
 * word `2k` being the low half of 64-bit lane `k`.
 */
module Simd256 {
  import opened Words
  import opened Swaps
  import opened Xorshift128Plus
  import opened Jump
  import opened VectorLanes
  import opened VectorFill

  /** Four 64-bit lanes per `__m256i`. */
  const LANES: nat := 4
  /** `sizeof(__m256i) / sizeof(uint32_t)`. */
  const BLOCK: nat := 8

  /**
   * The 4-lane key: lane 0 holds the packed seed and lane `k + 1` the jump of lane
   * `k`, for the three jumps of the constructor.
   */
  method NewKey(seed: Seed) returns (key: VecKey)
    ensures fresh(key) && |key.part1| == |key.part2| == LANES
    ensures State(key.part1[0], key.part2[0]) == SeedOf(seed)
    ensures forall k :: 0 <= k < LANES - 1 ==>
      State(key.part1[k + 1], key.part2[k + 1]) == JumpOf(State(key.part1[k], key.part2[k]))
  {
    key := new VecKey(LANES, seed);
    forall k | 0 <= k < LANES - 1
      ensures State(key.part1[k + 1], key.part2[k + 1]) == JumpOf(State(key.part1[k], key.part2[k]))
    {
      JumpPowStep(SeedOf(seed), k);
    }
    JumpPowStep(SeedOf(seed), 0);
  }

  // ---------------------------------------------------------------------------
  // Block fills

  /** `populate_array_simd_xorshift128plus`: every cell below `size` takes the key's stream word. */
  method Populate(randArr: array<bv32>, size: u32, seed: Seed)
    requires size <= randArr.Length
    modifies randArr
    ensures forall x :: 0 <= x < randArr.Length ==>
      randArr[x] == if x < size then VStreamWord(Stream(seed, LANES), x) else old(randArr[x])
  {
    PopulateOne(randArr, size, LANES, seed);
  }

  /** `populate_array_simd_xorshift128plus_two`: blocks alternate between the two keys. */
  method PopulateTwo(randArr: array<bv32>, size: u32, seed1: Seed, seed2: Seed)
    requires size <= randArr.Length
    modifies randArr
    ensures forall x :: 0 <= x < randArr.Length ==>
      randArr[x] == if x < size then Fill([Stream(seed1, LANES), Stream(seed2, LANES)], 2, BLOCK, size, x)
                    else old(randArr[x])
  {
    VectorFill.PopulateTwo(randArr, size, LANES, seed1, seed2);
  }

  /** `populate_array_simd_xorshift128plus_four`: blocks cycle through the four keys. */
  method PopulateFour(randArr: array<bv32>, size: u32, seed1: Seed, seed2: Seed, seed3: Seed, seed4: Seed)
    requires size <= randArr.Length
    modifies randArr
    ensures forall x :: 0 <= x < randArr.Length ==>
      randArr[x] == if x < size
                    then Fill([Stream(seed1, LANES), Stream(seed2, LANES), Stream(seed3, LANES), Stream(seed4, LANES)], 4, BLOCK, size, x)
                    else old(randArr[x])
  {
    VectorFill.PopulateFour(randArr, size, LANES, seed1, seed2, seed3, seed4);
  }

  // ---------------------------------------------------------------------------
  // The lane-wise bounded sampler

  /** The 32-bit words of a register read as unsigned numbers. */
  function Unsigned(w: seq<bv32>): (r: seq<u32>)
    ensures |r| == |w| && forall x :: 0 <= x < |w| ==> r[x] == w[x] as int
  {
    seq(|w|, x requires 0 <= x < |w| => w[x] as int)
  }

  /** Word `half` (0 low, 1 high) of the 64-bit product of two 32-bit values. */
  function ProductWord(a: u32, b: u32, half: nat): (r: u32)
    requires half < 2
    ensures half == 1 ==> r == a * b / TWO32
  {
    ProductBound(a, b);
    if half == 0 then a * b % TWO32 else a * b / TWO32
  }

  /**
   * The low and high words of a lane of `_mm256_mul_epu32` together hold the exact
   * 64-bit product, so shifting the lane right by 32 keeps the product's high half.
   */
  lemma ProductHalves(a: u32, b: u32)
    ensures ProductWord(a, b, 0) + TWO32 * ProductWord(a, b, 1) == a * b
  {
  }

  /** `_mm256_mul_epu32`: each 64-bit lane becomes the product of the low words of the two lanes. */
  function MulEpu32(a: seq<u32>, b: seq<u32>): (r: seq<u32>)
    requires |a| == |b| == BLOCK
    ensures |r| == BLOCK
  {
    seq(BLOCK, x requires 0 <= x < BLOCK => if x % 2 == 0 then ProductWord(a[x], b[x], 0) else ProductWord(a[x - 1], b[x - 1], 1))
  }

  /** `_mm256_srli_epi64(_, 32)`: the high word of each lane moves to the low word, the high word becomes zero. */
  function Srli32(a: seq<u32>): (r: seq<u32>)
    requires |a| == BLOCK
    ensures |r| == BLOCK
  {
    seq(BLOCK, x requires 0 <= x < BLOCK => if x % 2 == 0 then a[x + 1] else 0)
  }

  /** Bit `x` of a blend mask: set means word `x` comes from the second operand. */
  function MaskBit(mask: bv8, x: nat): bool
    requires x < 8
  {
    (mask >> x) & 1 == 1
  }

  /** `_mm256_blend_epi32(a, b, mask)`. */
  function Blend(a: seq<u32>, b: seq<u32>, mask: bv8): (r: seq<u32>)
    requires |a| == |b| == BLOCK
    ensures |r| == BLOCK
  {
    seq(BLOCK, x requires 0 <= x < BLOCK => if MaskBit(mask, x) then b[x] else a[x])
  }

  /** The mask `0b10101010` picks exactly the odd words. */
  lemma OddMask(x: nat)
    requires x < 8
    ensures MaskBit(0xAA, x) <==> x % 2 == 1
  {
    if x == 0 {} else if x == 1 {} else if x == 2 {} else if x == 3 {}
    else if x == 4 {} else if x == 5 {} else if x == 6 {} else {}
  }

  /** Word `x` of the blended register is the high word of the product of word `x` of each operand. */
  lemma BlendedWord(randomvals: seq<u32>, upperbound: seq<u32>, x: nat)
    requires |randomvals| == |upperbound| == BLOCK && x < BLOCK
    ensures Blend(Srli32(MulEpu32(randomvals, upperbound)), MulEpu32(Srli32(randomvals), Srli32(upperbound)), 0xAA)[x]
            == ProductWord(randomvals[x], upperbound[x], 1)
  {
    hide ProductWord;
    if x == 0 {} else if x == 1 {} else if x == 2 {} else if x == 3 {}
    else if x == 4 {} else if x == 5 {} else if x == 6 {} else {}
  }

  /**
   * `avx_randombound_epu32`: the even words come from the shifted product of the
   * low words, the odd words from the product of the high words, blended with
   * `0b10101010`. Word `x` of the result is `(randomvals_x * upperbound_x) >> 32`,
   * which depends on word `x` alone and is below the bound when the bound is not 0.
   */
  function RandomBound(randomvals: seq<u32>, upperbound: seq<u32>): (r: seq<u32>)
    requires |randomvals| == |upperbound| == BLOCK
    ensures |r| == BLOCK
    ensures forall x :: 0 <= x < BLOCK ==> r[x] == randomvals[x] * upperbound[x] / TWO32
    ensures forall x :: 0 <= x < BLOCK && upperbound[x] != 0 ==> r[x] < upperbound[x]
  {
    var evenparts := Srli32(MulEpu32(randomvals, upperbound));
    var oddparts := MulEpu32(Srli32(randomvals), Srli32(upperbound));
    var r := Blend(evenparts, oddparts, 0xAA);
    forall x | 0 <= x < BLOCK
      ensures r[x] == randomvals[x] * upperbound[x] / TWO32
      ensures upperbound[x] != 0 ==> r[x] < upperbound[x]
    {
      BlendedWord(randomvals, upperbound, x);
      ProductBound(randomvals[x], upperbound[x]);
    }
    r
  }

  // ---------------------------------------------------------------------------
  // The vectorised shuffle

  /** `_mm256_setr_epi32(size, size - 1, ..., size - 7)` after `b` subtractions of 8, wrapping like `uint32_t`. */
  function IntervalAt(size: u32, b: nat): (r: seq<u32>)
    ensures |r| == BLOCK
  {
    seq(BLOCK, x requires 0 <= x < BLOCK => (size - 8 * b - x) % TWO32)
  }

  /** `_mm256_sub_epi32(interval, vec8)`. */
  function SubEight(a: seq<u32>): (r: seq<u32>)
    ensures |r| == |a| && forall x :: 0 <= x < |a| ==> r[x] == (a[x] - 8) % TWO32
  {
    seq(|a|, x requires 0 <= x < |a| => (a[x] - 8) % TWO32)
  }

  /** Reducing before or after a subtraction gives the same `uint32_t` value. */
  lemma ModSub(y: int, c: int)
    ensures (y % TWO32 - c) % TWO32 == (y - c) % TWO32
  {
    var q := y / TWO32;
    assert y == TWO32 * q + y % TWO32;
    assert y % TWO32 - c == (y - c) - TWO32 * q;
  }

  /** Subtracting 8 from every word moves the interval on by one batch. */
  lemma SubEightStep(size: u32, b: nat)
    ensures SubEight(IntervalAt(size, b)) == IntervalAt(size, b + 1)
  {
    forall x | 0 <= x < BLOCK
      ensures SubEight(IntervalAt(size, b))[x] == IntervalAt(size, b + 1)[x]
    {
      ModSub(size - 8 * b - x, 8);
    }
  }

  /**
   * The targets of the first `n` swaps of the vector shuffle: swap `k` puts a cell
   * into position `size - 1 - k`, choosing it among `[0, size - k)` with word `k` of
   * the key's stream.
   */
  function VShuffleTargets(v: seq<bv64>, size: u32, n: nat): (ts: seq<nat>)
    requires |v| > 0 && n <= size
    ensures |ts| == n
    ensures forall k :: 0 <= k < n ==> ts[k] < size - k
    ensures TargetsBelow(ts, size)
  {
    if n == 0 then []
    else VShuffleTargets(v, size, n - 1) + [MulShift(VStreamWord(v, n - 1), size - (n - 1))]
  }

  /** The random register of batch `b` bounded by the interval of batch `b`. */
  function BatchTargets(v: seq<bv64>, size: u32, b: nat): (r: seq<u32>)
    requires |v| == LANES
    ensures |r| == BLOCK
  {
    RandomBound(Unsigned(WordsOf(VOutput(VStepN(v, b)))), IntervalAt(size, b))
  }

  /** Lane `x` of batch `b` is bounded by `size - 8 b - x`, the `i` of swap `x`, while that is positive. */
  lemma BatchTargetsAre(v: seq<bv64>, size: u32, b: nat, x: nat)
    requires |v| == LANES && 8 * b + x < size && x < BLOCK
    ensures BatchTargets(v, size, b)[x] == MulShift(VStreamWord(v, 8 * b + x), size - 8 * b - x)
  {
    hide VStreamWord, WordsOf, VOutput, VStepN, RandomBound;
    var w := WordsOf(VOutput(VStepN(v, b)));
    assert 2 * |v| == 8;
    VStreamBlock(v, b, 8 * b, x);
    assert VStreamWord(v, 8 * b + x) == w[x];
    assert IntervalAt(size, b)[x] == size - 8 * b - x;
    assert BatchTargets(v, size, b)[x] == Unsigned(w)[x] * IntervalAt(size, b)[x] / TWO32;
  }

  /** Before the first swap: nothing has moved, and the first register comes from the seeded key. */
  lemma ShuffleStart(a: seq<bv32>, v: seq<bv64>, size: u32)
    requires |v| == LANES && size <= |a|
    ensures ApplySwaps(a, size, VShuffleTargets(v, size, 0)) == a
    ensures VStepN(v, 1) == VNext(v)
    ensures BatchTargets(v, size, 0) == RandomBound(Unsigned(WordsOf(VOutput(v))), IntervalAt(size, 0))
  {}

  /**
   * The number of swaps of the shuffle as written up to the batch in which `i`
   * reaches 1 or 0, in whole batches of 8. On the sizes where `ShuffleSafe` holds
   * these are all of its swaps; on the others `i` wraps below 0 inside that batch
   * and the loop goes on.
   */
  function SwapsAsWritten(size: u32): nat
  {
    if size <= 1 then 0 else 8 * ((size - 2) / 8 + 1)
  }

  /** The position `i - 1` of swap `n` as written, with `uint32_t` wrap-around. */
  function PositionAsWritten(size: u32, n: nat): u32
  {
    (size - 1 - n) % TWO32
  }

  /** Sizes for which the shuffle as written stays inside the buffer. */
  predicate ShuffleSafe(size: u32)
  {
    size <= 1 || size % 8 == 0 || size % 8 == 1
  }

  /**
   * Every swap of the shuffle as written is inside `[0, size)` exactly when the
   * size is at most 1 or leaves remainder 0 or 1 modulo 8.
   */
  lemma ShuffleInBoundsIff(size: u32)
    ensures (forall n :: 0 <= n < SwapsAsWritten(size) ==> PositionAsWritten(size, n) < size) <==> ShuffleSafe(size)
  {
    if size > 1 {
      var q := (size - 2) / 8;
      assert 8 * q <= size - 2 < 8 * q + 8;
      if ShuffleSafe(size) {
        assert SwapsAsWritten(size) <= size;
        forall n | 0 <= n < SwapsAsWritten(size) ensures PositionAsWritten(size, n) < size {}
      } else {
        var n := size;
        assert n < SwapsAsWritten(size);
        assert PositionAsWritten(size, n) == TWO32 - 1;
      }
    }
  }

  /**
   * One concrete instance, for illustration: with `size = 2` the first batch swaps
   * position 1, then 0, then position `0xFFFFFFFF`. `ShuffleInBoundsIff` states the
   * general case.
   */
  lemma ShuffleOverrun()
    ensures SwapsAsWritten(2) == 8
    ensures PositionAsWritten(2, 0) == 1 && PositionAsWritten(2, 1) == 0
    ensures PositionAsWritten(2, 2) == 0xFFFF_FFFF
  {}

  /** One more target extends the target sequence. */
  lemma VShuffleTargetsSnoc(v: seq<bv64>, size: u32, n: nat, t: nat)
    requires |v| > 0 && n < size
    requires t == MulShift(VStreamWord(v, n), size - n) as nat
    ensures VShuffleTargets(v, size, n + 1) == VShuffleTargets(v, size, n) + [t]
  {}

  /**
   * Whatever the number of swaps, the first `size` cells end as a permutation of
   * what they held and no cell from `size` on is touched.
   */
  lemma VShufflePermutes(a: seq<bv32>, v: seq<bv64>, size: u32, n: nat)
    requires |v| > 0 && n <= size <= |a|
    ensures var r := ApplySwaps(a, size, VShuffleTargets(v, size, n));
      multiset(r[..size]) == multiset(a[..size]) && r[size..] == a[size..]
  {
    ApplySwapsPermutesPrefix(a, size, VShuffleTargets(v, size, n));
    ApplySwapsFrame(a, size, VShuffleTargets(v, size, n));
  }

  /**
   * Where the shuffle as written stays in bounds it computes what the corrected
   * one does: for `size mod 8 == 0` its one extra swap exchanges cell 0 with itself.
   */
  lemma ShuffleAgreesWhenSafe(a: seq<bv32>, v: seq<bv64>, size: u32)
    requires |v| > 0 && size <= |a| && ShuffleSafe(size)
    ensures SwapsAsWritten(size) <= size
    ensures ApplySwaps(a, size, VShuffleTargets(v, size, SwapsAsWritten(size)))
         == ApplySwaps(a, size, VShuffleTargets(v, size, SwapCount(size)))
  {
    hide SwapsAsWritten, ShuffleSafe, ApplySwaps, VShuffleTargets;
    SafeCount(size);
    if size > 1 && size % 8 == 0 {
      LastSwapIdle(a, v, size);
    }
  }

  /** The swap of cell 0 with a target below 1 changes nothing. */
  lemma LastSwapIdle(a: seq<bv32>, v: seq<bv64>, size: u32)
    requires |v| > 0 && 0 < size <= |a|
    ensures ApplySwaps(a, size, VShuffleTargets(v, size, size)) == ApplySwaps(a, size, VShuffleTargets(v, size, size - 1))
  {
    hide VStreamWord, MulShift;
    var ts := VShuffleTargets(v, size, size);
    assert ts[..size - 1] == VShuffleTargets(v, size, size - 1);
    assert ts[size - 1] == 0;
    var prev := ApplySwaps(a, size, ts[..size - 1]);
    assert Swap(prev, 0, 0) == prev;
  }

  /** The swaps done as written: all `size` positions when 8 divides `size`, else the `size - 1` of Fisher-Yates. */
  lemma SafeCount(size: u32)
    requires ShuffleSafe(size)
    ensures SwapsAsWritten(size) == if size > 1 && size % 8 == 0 then size else SwapCount(size)
  {
    if size > 1 {
      var q := (size - 2) / 8;
      assert 8 * q <= size - 2 < 8 * q + 8;
    }
  }

  /**
   * The inner loop of the shuffle as written: eight swaps, position `i - 1` with
   * lane `j` of the bounded register, `i` going down by one each time.
   */
  method ShuffleBatch(storage: array<bv32>, ghost initial: seq<bv32>, size: u32, i0: u32,
                      randomsource: seq<u32>, ghost v: seq<bv64>, ghost b: nat)
    returns (i: u32)
    requires |v| == LANES && |initial| == storage.Length && size <= storage.Length
    requires i0 == size - 8 * b && i0 >= 8
    requires randomsource == BatchTargets(v, size, b)
    requires storage[..] == ApplySwaps(initial, size, VShuffleTargets(v, size, size - i0))
    modifies storage
    ensures i == i0 - 8
    ensures storage[..] == ApplySwaps(initial, size, VShuffleTargets(v, size, size - i))
  {
    hide VStreamWord, MulShift, ApplySwaps, BatchTargets, VShuffleTargets;
    i := i0;
    for j := 0 to 8
      invariant i == i0 - j
      invariant storage[..] == ApplySwaps(initial, size, VShuffleTargets(v, size, size - i))
    {
      var nextpos := randomsource[j];
      BatchTargetsAre(v, size, b, j);
      VShuffleTargetsSnoc(v, size, size - i, nextpos);
      SwapNext(storage, initial, size, VShuffleTargets(v, size, size - i), i - 1, nextpos);
      i := i - 1;
    }
  }

  /**
   * The inner loop with the missing guard: it stops as soon as `i` reaches 1, so
   * a last, partial batch does only the swaps that remain.
   */
  method ShuffleBatchCorrected(storage: array<bv32>, ghost initial: seq<bv32>, size: u32, i0: u32,
                               randomsource: seq<u32>, ghost v: seq<bv64>, ghost b: nat)
    returns (i: u32)
    requires |v| == LANES && |initial| == storage.Length && size <= storage.Length
    requires i0 == size - 8 * b && i0 > 1
    requires randomsource == BatchTargets(v, size, b)
    requires storage[..] == ApplySwaps(initial, size, VShuffleTargets(v, size, size - i0))
    modifies storage
    ensures i == if i0 >= 9 then i0 - 8 else 1
    ensures storage[..] == ApplySwaps(initial, size, VShuffleTargets(v, size, size - i))
  {
    hide VStreamWord, MulShift, ApplySwaps, BatchTargets, VShuffleTargets;
    i := i0;
    var j := 0;
    while j < 8 && i > 1
      invariant 0 <= j <= 8 && i == i0 - j && i >= 1
      invariant storage[..] == ApplySwaps(initial, size, VShuffleTargets(v, size, size - i))
    {
      var nextpos := randomsource[j];
      BatchTargetsAre(v, size, b, j);
      VShuffleTargetsSnoc(v, size, size - i, nextpos);
      SwapNext(storage, initial, size, VShuffleTargets(v, size, size - i), i - 1, nextpos);
      i := i - 1;
      j := j + 1;
    }
  }

  /** The loop state of the shuffle once `b` batches are done. */
  ghost predicate ShuffleState(key: VecKey, storage: array<bv32>, initial: seq<bv32>, v: seq<bv64>, size: u32,
                               i: u32, b: nat, interval: seq<u32>, randomsource: seq<u32>)
    reads key, storage
  {
    |v| == LANES && |initial| == storage.Length && size <= storage.Length && i <= size &&
    key.part2 == VStepN(v, b + 1) && interval == IntervalAt(size, b) && randomsource == BatchTargets(v, size, b) &&
    storage[..] == ApplySwaps(initial, size, VShuffleTargets(v, size, size - i))
  }

  /** The tail of an outer pass: step the interval, draw the next register and bound it. */
  method NextBatch(key: VecKey, size: u32, interval0: seq<u32>, ghost v: seq<bv64>, ghost b: nat)
    returns (interval: seq<u32>, randomsource: seq<u32>)
    requires |v| == LANES && key.part2 == VStepN(v, b + 1) && interval0 == IntervalAt(size, b)
    modifies key
    ensures key.part2 == VStepN(v, b + 2)
    ensures interval == IntervalAt(size, b + 1) && randomsource == BatchTargets(v, size, b + 1)
  {
    interval := SubEight(interval0);
    SubEightStep(size, b);
    var r := VectorLanes.Rand(key);
    randomsource := RandomBound(Unsigned(WordsOf(r)), interval);
  }

  /**
   * The set-up of the shuffle: a key seeded from `seed`, the interval
   * `(size, size - 1, ..., size - 7)` and the first bounded register.
   */
  method ShuffleSetup(storage: array<bv32>, size: u32, seed: Seed)
    returns (key: VecKey, interval: seq<u32>, randomsource: seq<u32>, ghost v: seq<bv64>)
    requires size <= storage.Length
    ensures fresh(key) && v == Stream(seed, LANES)
    ensures ShuffleState(key, storage, storage[..], v, size, size, 0, interval, randomsource)
  {
    key := new VecKey(LANES, seed);
    v := key.part2;
    interval := IntervalAt(size, 0);
    var r := VectorLanes.Rand(key);
    randomsource := RandomBound(Unsigned(WordsOf(r)), interval);
    ShuffleStart(storage[..], v, size);
  }

  /** What the loop state says about the buffer. */
  lemma StateStorage(key: VecKey, storage: array<bv32>, initial: seq<bv32>, v: seq<bv64>, size: u32,
                     i: u32, b: nat, interval: seq<u32>, randomsource: seq<u32>)
    requires ShuffleState(key, storage, initial, v, size, i, b, interval, randomsource)
    ensures |v| == LANES && i <= size
    ensures storage[..] == ApplySwaps(initial, size, VShuffleTargets(v, size, size - i))
  {}

  /** A size the shuffle as written handles stays one after a whole batch. */
  lemma SafeStep(i: u32)
    requires ShuffleSafe(i) && i > 1
    ensures i >= 8 && ShuffleSafe(i - 8)
  {}

  /** When `i = size - 8 b` has reached 0 or 1, the shuffle as written has done all its swaps. */
  lemma CountAsWritten(size: u32, b: nat)
    requires 0 <= size - 8 * b <= 1
    ensures SwapsAsWritten(size) == 8 * b
  {
    if size > 1 {
      assert 8 * (b - 1) <= size - 2 < 8 * b;
    }
  }

  /** One pass of the outer loop as written: eight swaps, then the next register. */
  method ShufflePass(key: VecKey, storage: array<bv32>, ghost initial: seq<bv32>, ghost v: seq<bv64>, size: u32,
                     i0: u32, ghost b: nat, interval0: seq<u32>, randomsource0: seq<u32>)
    returns (i: u32, interval: seq<u32>, randomsource: seq<u32>)
    requires ShuffleState(key, storage, initial, v, size, i0, b, interval0, randomsource0)
    requires i0 == size - 8 * b && i0 >= 8
    modifies key, storage
    ensures ShuffleState(key, storage, initial, v, size, i, b + 1, interval, randomsource)
    ensures i == i0 - 8
  {
    hide VStreamWord, MulShift, ApplySwaps, BatchTargets, VShuffleTargets, VStepN, RandomBound, IntervalAt;
    i := ShuffleBatch(storage, initial, size, i0, randomsource0, v, b);
    interval, randomsource := NextBatch(key, size, interval0, v, b);
  }

  /** One pass of the outer loop with the guarded inner loop. */
  method ShufflePassCorrected(key: VecKey, storage: array<bv32>, ghost initial: seq<bv32>, ghost v: seq<bv64>, size: u32,
                              i0: u32, ghost b: nat, interval0: seq<u32>, randomsource0: seq<u32>)
    returns (i: u32, interval: seq<u32>, randomsource: seq<u32>)
    requires ShuffleState(key, storage, initial, v, size, i0, b, interval0, randomsource0)
    requires i0 == size - 8 * b && i0 > 1
    modifies key, storage
    ensures ShuffleState(key, storage, initial, v, size, i, b + 1, interval, randomsource)
    ensures i == if i0 >= 9 then i0 - 8 else 1
  {
    hide VStreamWord, MulShift, ApplySwaps, BatchTargets, VShuffleTargets, VStepN, RandomBound, IntervalAt;
    i := ShuffleBatchCorrected(storage, initial, size, i0, randomsource0, v, b);
    interval, randomsource := NextBatch(key, size, interval0, v, b);
  }

  /**
   * `simd_xorshift128plus_shuffle32` as written, for the sizes where it stays in
   * bounds: batches of eight swaps while `i > 1`, one more register drawn after
   * every batch. The buffer ends as the swap sequence applied to its old contents.
   */
  method Shuffle32(storage: array<bv32>, size: u32, seed: Seed)
    requires size <= storage.Length
    requires ShuffleSafe(size)
    modifies storage
    ensures storage[..] == ApplySwaps(old(storage[..]), size, VShuffleTargets(Stream(seed, LANES), size, SwapsAsWritten(size)))
  {
    hide ShuffleState, ShuffleSafe, VShuffleTargets, ApplySwaps, Stream;
    ghost var initial := storage[..];
    var key, interval, randomsource, v := ShuffleSetup(storage, size, seed);
    var i := size;
    ghost var b := 0;
    while i > 1
      invariant ShuffleState(key, storage, initial, v, size, i, b, interval, randomsource)
      invariant i == size - 8 * b && ShuffleSafe(i)
      decreases i
    {
      SafeStep(i);
      i, interval, randomsource := ShufflePass(key, storage, initial, v, size, i, b, interval, randomsource);
      b := b + 1;
    }
    StateStorage(key, storage, initial, v, size, i, b, interval, randomsource);
    CountAsWritten(size, b);
  }

  /**
   * The shuffle with the inner loop also guarded by `i > 1`: it performs the
   * `size - 1` swaps of a Fisher-Yates shuffle for every size.
   */
  method Shuffle32Corrected(storage: array<bv32>, size: u32, seed: Seed)
    requires size <= storage.Length
    modifies storage
    ensures storage[..] == ApplySwaps(old(storage[..]), size, VShuffleTargets(Stream(seed, LANES), size, SwapCount(size)))
  {
    hide ShuffleState, ShuffleSafe, VShuffleTargets, ApplySwaps, Stream;
    ghost var initial := storage[..];
    var key, interval, randomsource, v := ShuffleSetup(storage, size, seed);
    var i := size;
    ghost var b := 0;
    while i > 1
      invariant ShuffleState(key, storage, initial, v, size, i, b, interval, randomsource)
      invariant i > 1 ==> i == size - 8 * b
      invariant size > 0 ==> i >= 1
      decreases i
    {
      i, interval, randomsource := ShufflePassCorrected(key, storage, initial, v, size, i, b, interval, randomsource);
      b := b + 1;
    }
    StateStorage(key, storage, initial, v, size, i, b, interval, randomsource);
  }
}
