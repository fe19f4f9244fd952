/**
 * The 512-bit engine: the same lane-wise xorshift128+ step as the 256-bit one over
 * eight lanes seeded by seven chained jumps, filling blocks of sixteen 32-bit words.
 */
module Simd512 {
  import opened Words
  import opened Xorshift128Plus
  import opened Jump
  import opened VectorLanes
  import opened VectorFill

  /** Eight 64-bit lanes per `__m512i`. */
  const LANES: nat := 8
  /** `sizeof(__m512i) / sizeof(uint32_t)`. */
  const BLOCK: nat := 16

  /**
   * The 8-lane key: lane 0 holds the packed seed and lane `k + 1` the jump of lane
   * `k`, for the seven jumps of the constructor.
   */
  method NewKey(seed: Seed) returns (key: VecKey)
    ensures fresh(key) && |key.part1| == |key.part2| == LANES
    ensures State(key.part1[0], key.part2[0]) == SeedOf(seed)
    ensures forall k :: 0 <= k < LANES - 1 ==>
      State(key.part1[k + 1], key.part2[k + 1]) == JumpOf(State(key.part1[k], key.part2[k]))
  {
    key := new VecKey(LANES, seed);
    forall k | 0 <= k < LANES - 1
      ensures State(key.part1[k + 1], key.part2[k + 1]) == JumpOf(State(key.part1[k], key.part2[k]))
    {
      JumpPowStep(SeedOf(seed), k);
    }
    JumpPowStep(SeedOf(seed), 0);
  }

  /**
   * `populateRandom_avx512_xorshift128plus`, with the key it declares (`mykey`)
   * used for every block: every cell below `size` takes the key's stream word.
   */
  method Populate(randArr: array<bv32>, size: u32, seed: Seed)
    requires size <= randArr.Length
    modifies randArr
    ensures forall x :: 0 <= x < randArr.Length ==>
      randArr[x] == if x < size then VStreamWord(Stream(seed, LANES), x) else old(randArr[x])
  {
    PopulateOne(randArr, size, LANES, seed);
  }

  /** `populateRandom_avx512_xorshift128plus_two`: blocks of 16 words alternate between the two keys. */
  method PopulateTwo(randArr: array<bv32>, size: u32, seed1: Seed, seed2: Seed)
    requires size <= randArr.Length
    modifies randArr
    ensures forall x :: 0 <= x < randArr.Length ==>
      randArr[x] == if x < size then Fill([Stream(seed1, LANES), Stream(seed2, LANES)], 2, BLOCK, size, x)
                    else old(randArr[x])
  {
    VectorFill.PopulateTwo(randArr, size, LANES, seed1, seed2);
  }

  /** `populateRandom_avx512_xorshift128plus_four`: blocks of 16 words cycle through the four keys. */
  method PopulateFour(randArr: array<bv32>, size: u32, seed1: Seed, seed2: Seed, seed3: Seed, seed4: Seed)
    requires size <= randArr.Length
    modifies randArr
    ensures forall x :: 0 <= x < randArr.Length ==>
      randArr[x] == if x < size
                    then Fill([Stream(seed1, LANES), Stream(seed2, LANES), Stream(seed3, LANES), Stream(seed4, LANES)], 4, BLOCK, size, x)
                    else old(randArr[x])
  {
    VectorFill.PopulateFour(randArr, size, LANES, seed1, seed2, seed3, seed4);
  }
}
