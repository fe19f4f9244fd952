/**
 * The AES "dragontamer" generator: a 128-bit counter of two independent 64-bit
 * lanes, advanced by a constant increment, whose output register is built from
 * AES round functions applied to the counter. The round functions (AESENC and
 * AESDEC) are parameters: only the counter arithmetic, the output layout and
 * the block fill are modelled. Lanes are numbers below 2^64.
 */
module AesDragontamer {
  import opened Words
  import opened VectorFill

  type u64 = x: int | 0 <= x < TWO64
  type u8 = x: int | 0 <= x < 256

  /** An `__m128i` as its low and high 64-bit lanes. */
  datatype M128 = M128(lo: u64, hi: u64)

  /** An AES round function on a 128-bit state and a 128-bit round key. */
  type Round = (M128, M128) -> M128

  /** `_mm_add_epi64`: each lane wraps modulo 2^64 on its own, with no carry between lanes. */
  function AddEpi64(a: M128, b: M128): M128
  {
    M128((a.lo + b.lo) % TWO64, (a.hi + b.hi) % TWO64)
  }

  /** `_mm_set_epi64x(e1, e0)`: `e0` is the low lane. */
  function SetEpi64x(e1: u64, e0: u64): M128
  {
    M128(e0, e1)
  }

  /** `256^n`. */
  function Pow256(n: nat): (r: nat)
    ensures r >= 1
  {
    if n == 0 then 1 else 256 * Pow256(n - 1)
  }

  /** The number whose bytes, most significant first, are `bs`. */
  function BytesValue(bs: seq<u8>): (r: nat)
    ensures r < Pow256(|bs|)
  {
    if bs == [] then 0
    else
      var hi := BytesValue(bs[..|bs| - 1]);
      assert hi * 256 + 255 < Pow256(|bs|) by {
        MulMono(hi, Pow256(|bs| - 1) - 1, 256);
      }
      hi * 256 + bs[|bs| - 1]
  }

  /** `_mm_set_epi8(e15, ..., e0)`: the arguments are the bytes most significant first, `e0` the lowest. */
  function SetEpi8(e: seq<u8>): M128
    requires |e| == 16
  {
    M128(BytesValue(e[8..]), BytesValue(e[..8]))
  }

  /** The bytes the constructor passes to `_mm_set_epi8`. */
  const INCREMENT_BYTES: seq<u8> :=
    [0x2f, 0x2b, 0x29, 0x25, 0x1f, 0x1d, 0x17, 0x13, 0x11, 0x0D, 0x0B, 0x07, 0x05, 0x03, 0x02, 0x01]

  const INC_LO: u64 := 0x110D0B0705030201
  const INC_HI: u64 := 0x2F2B29251F1D1713

  /** A byte more at the low end: the value so far moves up by one byte. */
  lemma BytesValueStep(bs: seq<u8>, k: nat)
    requires 0 < k <= |bs|
    ensures BytesValue(bs[..k]) == BytesValue(bs[..k - 1]) * 256 + bs[k - 1]
  {
    assert bs[..k][..k - 1] == bs[..k - 1];
  }

  /** Eight bytes read most significant first, one byte at a time. */
  lemma EightBytes(bs: seq<u8>, v1: int, v2: int, v3: int, v4: int, v5: int, v6: int, v7: int, v8: int)
    requires |bs| == 8
    requires v1 == bs[0] && v2 == v1 * 256 + bs[1] && v3 == v2 * 256 + bs[2] && v4 == v3 * 256 + bs[3]
    requires v5 == v4 * 256 + bs[4] && v6 == v5 * 256 + bs[5] && v7 == v6 * 256 + bs[6] && v8 == v7 * 256 + bs[7]
    ensures BytesValue(bs) == v8
  {
    assert bs[..0] == [] && BytesValue(bs[..0]) == 0 && bs[..8] == bs;
    hide BytesValue;
    BytesValueStep(bs, 1); BytesValueStep(bs, 2); BytesValueStep(bs, 3); BytesValueStep(bs, 4);
    BytesValueStep(bs, 5); BytesValueStep(bs, 6); BytesValueStep(bs, 7); BytesValueStep(bs, 8);
  }

  /** The increment register has low lane `0x110D0B0705030201` and high lane `0x2F2B29251F1D1713`. */
  lemma IncrementLanes()
    ensures SetEpi8(INCREMENT_BYTES) == M128(INC_LO, INC_HI)
  {
    hide BytesValue;
    assert INCREMENT_BYTES[8..] == [0x11, 0x0D, 0x0B, 0x07, 0x05, 0x03, 0x02, 0x01];
    assert INCREMENT_BYTES[..8] == [0x2f, 0x2b, 0x29, 0x25, 0x1f, 0x1d, 0x17, 0x13];
    EightBytes(INCREMENT_BYTES[8..], 0x11, 0x110D, 0x110D0B, 0x110D0B07, 0x110D0B0705, 0x110D0B070503,
               0x110D0B07050302, 0x110D0B0705030201);
    EightBytes(INCREMENT_BYTES[..8], 0x2F, 0x2F2B, 0x2F2B29, 0x2F2B2925, 0x2F2B29251F, 0x2F2B29251F1D,
               0x2F2B29251F1D17, 0x2F2B29251F1D1713);
  }

  /** `(uint64_t)hi << 32 | lo` for two 32-bit seed words: an exact concatenation. */
  function Pack32(hi: u32, lo: u32): (r: u64)
    ensures r / TWO32 == hi && r % TWO32 == lo
  {
    hi * TWO32 + lo
  }

  /** Different seed words give different 64-bit seeds. */
  lemma Pack32Injective(h1: u32, l1: u32, h2: u32, l2: u32)
    ensures Pack32(h1, l1) == Pack32(h2, l2) <==> h1 == h2 && l1 == l2
  {
    hide Pack32;
  }

  class AesKey {
    var state: M128
    var increment: M128

    /**
     * `seed1 = p1 << 32 | p2` goes to the high lane of the state and
     * `seed2 = p3 << 32 | p4` to the low lane; the increment is the constant register.
     */
    constructor (p1: u32, p2: u32, p3: u32, p4: u32)
      ensures state == M128(Pack32(p3, p4), Pack32(p1, p2))
      ensures increment == M128(INC_LO, INC_HI)
    {
      var seed1 := Pack32(p1, p2);
      var seed2 := Pack32(p3, p4);
      increment := SetEpi8(INCREMENT_BYTES);
      IncrementLanes();
      state := SetEpi64x(seed1, seed2);
    }
  }

  /** `_mm256_set_m128i(hi, lo)`: the four 64-bit lanes of the result, lowest first. */
  function SetM128i(hi: M128, lo: M128): (r: seq<u64>)
    ensures |r| == 4
  {
    [lo.lo, lo.hi, hi.lo, hi.hi]
  }

  /**
   * The output for a counter value: one AESENC round of the counter, then the low
   * 128 bits are an AESDEC round of that and the high 128 bits a second AESENC round.
   */
  function Output(state: M128, increment: M128, aesenc: Round, aesdec: Round): (r: seq<u64>)
    ensures |r| == 4
  {
    var penultimate := aesenc(state, increment);
    SetM128i(aesenc(penultimate, increment), aesdec(penultimate, increment))
  }

  /**
   * `aesdragontamer_rand`: the counter advances by the increment first, and the
   * output is computed from the advanced counter; the increment does not change.
   */
  method Rand(key: AesKey, aesenc: Round, aesdec: Round) returns (r: seq<u64>)
    modifies key
    ensures key.state == AddEpi64(old(key.state), old(key.increment))
    ensures key.increment == old(key.increment)
    ensures r == Output(key.state, key.increment, aesenc, aesdec)
  {
    key.state := AddEpi64(key.state, key.increment);
    var penultimate := aesenc(key.state, key.increment);
    var penultimate1 := aesenc(penultimate, key.increment);
    var penultimate2 := aesdec(penultimate, key.increment);
    r := SetM128i(penultimate1, penultimate2);
  }

  /** The counter after `n` calls: each lane is its start plus `n` times its increment, modulo 2^64. */
  function CounterAt(start: M128, increment: M128, n: nat): M128
  {
    M128(CounterLane(start.lo, increment.lo, n), CounterLane(start.hi, increment.hi, n))
  }

  /** One lane of the counter after `n` calls. */
  function CounterLane(s: u64, c: u64, n: nat): u64
  {
    (s + n * c) % TWO64
  }

  /** Reducing before or after an addition gives the same 64-bit lane. */
  lemma ModAdd(y: int, c: int)
    ensures (y % TWO64 + c) % TWO64 == (y + c) % TWO64
  {
    var q := y / TWO64;
    assert y == TWO64 * q + y % TWO64;
    assert y % TWO64 + c == (y + c) - TWO64 * q;
  }

  /** One lane of one more call. */
  lemma CounterLaneStep(s: u64, c: u64, n: nat)
    ensures (CounterLane(s, c, n) + c) % TWO64 == CounterLane(s, c, n + 1)
  {
    MulStep(n + 1, c);
    ModAdd(s + n * c, c);
  }

  /** Before any call the counter is the start. */
  lemma CounterStart(start: M128, increment: M128)
    ensures CounterAt(start, increment, 0) == start
  {}

  /** One more call advances the counter of `n` calls to that of `n + 1`. */
  lemma CounterStep(start: M128, increment: M128, n: nat)
    ensures AddEpi64(CounterAt(start, increment, n), increment) == CounterAt(start, increment, n + 1)
  {
    hide CounterLane;
    CounterLaneStep(start.lo, increment.lo, n);
    CounterLaneStep(start.hi, increment.hi, n);
  }

  /** The low 32 bits of a 64-bit lane: the word stored at the lower address. */
  function LowWord(x: u64): bv32
  {
    (x % TWO32) as bv32
  }

  /** The high 32 bits of a 64-bit lane. */
  function HighWord(x: u64): bv32
  {
    (x / TWO32) as bv32
  }

  /** The 32-bit words of a register of 64-bit lanes, in memory order. */
  function LaneWords(lanes: seq<u64>): (w: seq<bv32>)
    ensures |w| == 2 * |lanes|
    ensures forall k :: 0 <= k < |lanes| ==> w[2 * k] == LowWord(lanes[k]) && w[2 * k + 1] == HighWord(lanes[k])
  {
    if lanes == [] then []
    else
      var rest := LaneWords(lanes[1..]);
      assert forall k :: 1 <= k < |lanes| ==>
        rest[2 * (k - 1)] == LowWord(lanes[k]) && rest[2 * (k - 1) + 1] == HighWord(lanes[k]);
      [LowWord(lanes[0]), HighWord(lanes[0])] + rest
  }

  /**
   * Word `x` of the fill: word `x mod 8` of the output of call `x / 8 + 1` on a key
   * whose counter started at `start`.
   */
  function StreamWord(start: M128, increment: M128, aesenc: Round, aesdec: Round, x: nat): bv32
  {
    LaneWords(Output(CounterAt(start, increment, x / 8 + 1), increment, aesenc, aesdec))[x % 8]
  }

  /** Call `m + 1` supplies words `8 m` to `8 m + 7`. */
  lemma StreamBlock(start: M128, increment: M128, aesenc: Round, aesdec: Round, m: nat, x: nat)
    requires 8 * m <= x < 8 * m + 8
    ensures StreamWord(start, increment, aesenc, aesdec, x)
         == LaneWords(Output(CounterAt(start, increment, m + 1), increment, aesenc, aesdec))[x - 8 * m]
  {
    hide LaneWords, Output, CounterAt;
    assert x / 8 == m && x % 8 == x - 8 * m;
  }

  /** The number of `rand` calls of a fill of `size` words: one per block, the last possibly partial. */
  function Calls(size: nat): nat
  {
    (size + 7) / 8
  }

  /**
   * `populateRandom_avx_aesdragontamer`: whole 8-word outputs are stored while a
   * block fits, then a prefix of one more output fills the rest. Every cell below
   * `size` takes its stream word; `calls` counts the outputs drawn.
   */
  method Populate(randArr: array<bv32>, size: u32, p1: u32, p2: u32, p3: u32, p4: u32, aesenc: Round, aesdec: Round)
    returns (ghost calls: nat)
    requires size <= randArr.Length
    modifies randArr
    ensures calls == Calls(size)
    ensures forall x :: 0 <= x < randArr.Length ==>
      randArr[x] == if x < size
                    then StreamWord(M128(Pack32(p3, p4), Pack32(p1, p2)), M128(INC_LO, INC_HI), aesenc, aesdec, x)
                    else old(randArr[x])
  {
    hide StreamWord, LaneWords, Output, CounterAt, AddEpi64, Pack32;
    var key := new AesKey(p1, p2, p3, p4);
    ghost var start := key.state;
    ghost var inc := key.increment;
    ghost var a0 := randArr[..];
    CounterStart(start, inc);
    var i := 0;
    calls := 0;
    while BlockFits(i, 8, size)
      invariant i == 8 * calls <= size
      invariant key.state == CounterAt(start, inc, calls) && key.increment == inc
      invariant forall x :: 0 <= x < randArr.Length ==>
        randArr[x] == if x < i then StreamWord(start, inc, aesenc, aesdec, x) else a0[x]
      decreases size - i
    {
      var r := Rand(key, aesenc, aesdec);
      CounterStep(start, inc, calls);
      StoreBlock(randArr, i, LaneWords(r), start, inc, aesenc, aesdec, calls, a0, 8);
      i := i + 8;
      calls := calls + 1;
    }
    if i != size {
      var r := Rand(key, aesenc, aesdec);
      CounterStep(start, inc, calls);
      StoreBlock(randArr, i, LaneWords(r)[..size - i], start, inc, aesenc, aesdec, calls, a0, size - i);
      calls := calls + 1;
    }
  }

  /** Stores the first `len` words of output `m + 1` at `i = 8 m`, extending the filled prefix. */
  method StoreBlock(randArr: array<bv32>, i: nat, words: seq<bv32>, ghost start: M128, ghost inc: M128,
                    ghost aesenc: Round, ghost aesdec: Round, ghost m: nat, ghost a0: seq<bv32>, len: nat)
    requires i == 8 * m && len <= 8 && i + len <= randArr.Length == |a0|
    requires words == LaneWords(Output(CounterAt(start, inc, m + 1), inc, aesenc, aesdec))[..len]
    requires forall x :: 0 <= x < randArr.Length ==>
      randArr[x] == if x < i then StreamWord(start, inc, aesenc, aesdec, x) else a0[x]
    modifies randArr
    ensures forall x :: 0 <= x < randArr.Length ==>
      randArr[x] == if x < i + len then StreamWord(start, inc, aesenc, aesdec, x) else a0[x]
  {
    hide StreamWord, LaneWords, Output, CounterAt;
    StoreWords(randArr, i, words);
    forall x | i <= x < i + len
      ensures randArr[x] == StreamWord(start, inc, aesenc, aesdec, x)
    {
      StreamBlock(start, inc, aesenc, aesdec, m, x);
    }
  }
}
