/**
 * The scalar xorshift128+ engine: a 128-bit state of two 64-bit words, the
 * multiply-shift bounded samplers built on it, the pairwise buffer fill and the
 * two-at-a-time Fisher-Yates shuffle. The entropy source that seeds a key is
 * replaced by the four 32-bit seed words it would produce, given as parameters.
 */
module Xorshift128Plus {
  import opened Words
  import opened Swaps

  /** The value of a key: `seed1` and `seed2`. */
  datatype State = State(seed1: bv64, seed2: bv64)

  const Zero: State := State(0, 0)

  /** First xorshift of a step: `s1 ^= s1 << 23`. */
  function ScrambleHigh(s1: bv64): bv64 { s1 ^ (s1 << 23) }

  /** The new `seed2`: `s1 ^ s0 ^ (s1 >> 18) ^ (s0 >> 5)`. */
  function Combine(s1: bv64, s0: bv64): bv64 { s1 ^ s0 ^ (s1 >> 18) ^ (s0 >> 5) }

  /** The state update of one step of the recurrence. */
  function Next(s: State): (n: State)
    ensures n.seed1 == s.seed2
  {
    State(s.seed2, Combine(ScrambleHigh(s.seed1), s.seed2))
  }

  /** The 64-bit value one step returns: the new `seed2` plus the old one, modulo 2^64. */
  function Output(s: State): bv64
  {
    Add64(Next(s).seed2, s.seed2)
  }

  /** The state after `n` steps. */
  function StepN(s: State, n: nat): State
  {
    if n == 0 then s else Next(StepN(s, n - 1))
  }

  /** A step followed by `n` steps is `n + 1` steps. */
  lemma {:induction false} StepNShift(s: State, n: nat)
    ensures StepN(Next(s), n) == StepN(s, n + 1)
    decreases n
  {
    if n > 0 {
      StepNShift(s, n - 1);
    }
  }

  /**
   * Word `x` of the stream of outputs of a key starting at `s`, the outputs written
   * as consecutive little-endian 64-bit values: words 0 and 1 are the low and the
   * high half of the first output; word `x + 2` is word `x` of the key one step on.
   */
  function StreamWord(s: State, x: nat): bv32
    decreases x
  {
    if x >= 2 then StreamWord(Next(s), x - 2)
    else if x == 0 then Lo(Output(s))
    else Hi(Output(s))
  }

  /**
   * The call that follows `m` steps supplies stream words `n = 2m` (the low half of
   * its output) and `n + 1` (the high half).
   */
  lemma {:induction false} StreamWordPair(s: State, n: nat, m: nat)
    requires n == 2 * m
    ensures StreamWord(s, n) == Lo(Output(StepN(s, m)))
    ensures StreamWord(s, n + 1) == Hi(Output(StepN(s, m)))
    decreases m
  {
    hide Output, Next, Lo, Hi;
    if m > 0 {
      StreamWordPair(Next(s), n - 2, m - 1);
      StepNShift(s, m - 1);
    }
  }

  /** The key built from four 32-bit seed words: `p1 << 32 | p2` and `p3 << 32 | p4`. */
  function SeedState(p1: bv32, p2: bv32, p3: bv32, p4: bv32): State
  {
    State(Concat(p1, p2), Concat(p3, p4))
  }

  /** Seed packing is exact: the four words can be read back from the key. */
  lemma SeedStateExact(p1: bv32, p2: bv32, p3: bv32, p4: bv32)
    ensures var s := SeedState(p1, p2, p3, p4);
      Hi(s.seed1) == p1 && Lo(s.seed1) == p2 && Hi(s.seed2) == p3 && Lo(s.seed2) == p4
  {
    ConcatSplit(p1, p2);
    ConcatSplit(p3, p4);
  }

  /** Distinct seed words give distinct keys. */
  lemma SeedStateInjective(p1: bv32, p2: bv32, p3: bv32, p4: bv32, q1: bv32, q2: bv32, q3: bv32, q4: bv32)
    ensures SeedState(p1, p2, p3, p4) == SeedState(q1, q2, q3, q4) <==> p1 == q1 && p2 == q2 && p3 == q3 && p4 == q4
  {
    ConcatInjective(p1, p2, q1, q2);
    ConcatInjective(p3, p4, q3, q4);
  }

  /** The all-zero key is a fixed point of the step, and its output is 0. */
  lemma ZeroStepIsZero()
    ensures Next(Zero) == Zero && Output(Zero) == 0
  {}

  /** The all-zero key is absorbing: it never leaves zero and only ever returns 0. */
  lemma {:induction false} ZeroIsAbsorbing(n: nat)
    ensures StepN(Zero, n) == Zero
    ensures Output(StepN(Zero, n)) == 0
  {
    if n > 0 {
      ZeroIsAbsorbing(n - 1);
    }
    ZeroStepIsZero();
  }

  /** Steps compose: `m` more steps after `n` steps are `n + m` steps. */
  lemma {:induction false} StepNAdd(s: State, n: nat, m: nat)
    ensures StepN(StepN(s, n), m) == StepN(s, n + m)
    decreases m
  {
    if m > 0 {
      StepNAdd(s, n, m - 1);
    }
  }

  // ---------------------------------------------------------------------------
  // XOR-linearity of the step (over GF(2)^128)

  /** Lane-wise exclusive or of two states. */
  function XorState(s: State, u: State): State
  {
    State(Xor64(s.seed1, u.seed1), Xor64(s.seed2, u.seed2))
  }

  lemma XorScrambleKernel(a: bv64, c: bv64)
    ensures (a ^ c) ^ ((a ^ c) << 23) == Xor64(a ^ (a << 23), c ^ (c << 23))
  {}

  lemma XorCombineKernel(t: bv64, u: bv64, b: bv64, d: bv64)
    ensures (t ^ u) ^ (b ^ d) ^ ((t ^ u) >> 18) ^ ((b ^ d) >> 5)
         == Xor64(t ^ b ^ (t >> 18) ^ (b >> 5), u ^ d ^ (u >> 18) ^ (d >> 5))
  {}

  /** `s1 ^= s1 << 23` is linear. */
  lemma ScrambleHighLinear(a: bv64, c: bv64)
    ensures ScrambleHigh(Xor64(a, c)) == Xor64(ScrambleHigh(a), ScrambleHigh(c))
  {
    XorScrambleKernel(a, c);
    assert ScrambleHigh(a ^ c) == Xor64(ScrambleHigh(a), ScrambleHigh(c));
  }

  /** The new `seed2` is linear in both arguments. */
  lemma CombineLinear(t: bv64, u: bv64, b: bv64, d: bv64)
    ensures Combine(Xor64(t, u), Xor64(b, d)) == Xor64(Combine(t, b), Combine(u, d))
  {
    XorCombineKernel(t, u, b, d);
    assert Combine(t ^ u, b ^ d) == Xor64(Combine(t, b), Combine(u, d));
  }

  /** One step is XOR-linear: stepping `s ^ u` is stepping both and combining. */
  lemma NextLinear(s: State, u: State)
    ensures Next(XorState(s, u)) == XorState(Next(s), Next(u))
  {
    ScrambleHighLinear(s.seed1, u.seed1);
    CombineLinear(ScrambleHigh(s.seed1), ScrambleHigh(u.seed1), s.seed2, u.seed2);
  }

  /** Any number of steps is XOR-linear. */
  lemma {:induction false} StepNLinear(s: State, u: State, n: nat)
    ensures StepN(XorState(s, u), n) == XorState(StepN(s, n), StepN(u, n))
  {
    if n > 0 {
      StepNLinear(s, u, n - 1);
      NextLinear(StepN(s, n - 1), StepN(u, n - 1));
    }
  }

  lemma XorRegroupKernel(a: bv64, b: bv64, c: bv64, d: bv64)
    ensures Xor64(a ^ b, c ^ d) == Xor64(a ^ c, b ^ d)
  {}

  lemma XorZeroKernel(x: bv64)
    ensures Xor64(x, 0) == x && Xor64(0, x) == x
  {}

  lemma XorRegroup(a: bv64, b: bv64, c: bv64, d: bv64)
    ensures Xor64(Xor64(a, b), Xor64(c, d)) == Xor64(Xor64(a, c), Xor64(b, d))
  {
    XorRegroupKernel(a, b, c, d);
  }

  /** `(A ^ B) ^ (C ^ D) == (A ^ C) ^ (B ^ D)` on states. */
  lemma XorStateRegroup(a: State, b: State, c: State, d: State)
    ensures XorState(XorState(a, b), XorState(c, d)) == XorState(XorState(a, c), XorState(b, d))
  {
    XorRegroup(a.seed1, b.seed1, c.seed1, d.seed1);
    XorRegroup(a.seed2, b.seed2, c.seed2, d.seed2);
  }

  /** The zero state is the unit of `XorState`. */
  lemma XorStateZero(s: State)
    ensures XorState(s, Zero) == s && XorState(Zero, s) == s
  {
    XorZeroKernel(s.seed1);
    XorZeroKernel(s.seed2);
  }

  // ---------------------------------------------------------------------------
  // The key and the generator's operations

  class Key {
    var seed1: bv64
    var seed2: bv64

    function Value(): State
      reads this
    {
      State(seed1, seed2)
    }

    /** The key built from the four seed words the entropy source would give. */
    constructor (p1: bv32, p2: bv32, p3: bv32, p4: bv32)
      ensures Value() == SeedState(p1, p2, p3, p4)
    {
      seed1 := Concat(p1, p2);
      seed2 := Concat(p3, p4);
    }
  }

  /** One step of the key; returns the new `seed2` plus the old `seed2`. */
  method Rand(key: Key) returns (r: bv64)
    modifies key
    ensures key.Value() == Next(old(key.Value()))
    ensures r == Output(old(key.Value()))
  {
    var s1 := key.seed1;
    var s0 := key.seed2;
    key.seed1 := s0;
    s1 := ScrambleHigh(s1);
    key.seed2 := Combine(s1, s0);
    r := Add64(key.seed2, s0);
  }

  /**
   * Two bounded values from one step: the low word scaled into `[0, bound1)`, the
   * high word into `[0, bound2)`.
   */
  method BoundedTwoByTwo(key: Key, bound1: u32, bound2: u32) returns (bounded1: u32, bounded2: u32)
    modifies key
    ensures key.Value() == Next(old(key.Value()))
    ensures bounded1 == MulShift(Lo(Output(old(key.Value()))), bound1)
    ensures bounded2 == MulShift(Hi(Output(old(key.Value()))), bound2)
    ensures bound1 != 0 ==> bounded1 < bound1
    ensures bound2 != 0 ==> bounded2 < bound2
  {
    var rand := Rand(key);
    bounded1 := MulShift(Lo(rand), bound1);
    bounded2 := MulShift(Hi(rand), bound2);
  }

  /** One bounded value in `[0, bound)` from the low word of one step. */
  method Bounded(key: Key, bound: u32) returns (r: u32)
    modifies key
    ensures key.Value() == Next(old(key.Value()))
    ensures r == MulShift(Lo(Output(old(key.Value()))), bound)
    ensures bound != 0 ==> r < bound
  {
    var rand := Rand(key);
    r := MulShift(Lo(rand), bound);
  }

  // ---------------------------------------------------------------------------
  // Filling a buffer

  /**
   * How many leading cells the pairwise fill writes: every cell for an odd size,
   * all but the last for an even size of at least 2.
   */
  function FilledByPairwiseFill(size: nat): (n: nat)
    ensures n <= size
    ensures size % 2 == 1 ==> n == size
  {
    if size % 2 == 0 && size >= 2 then size - 1 else size
  }

  /** The buffer fill leaves the last cell of an even-sized buffer unwritten. */
  lemma PairwiseFillMissesLastCell(size: nat)
    requires size >= 2 && size % 2 == 0
    ensures FilledByPairwiseFill(size) == size - 1
    ensures FilledByPairwiseFill(size) < size
  {}

  /**
   * One concrete instance, for illustration: for size 2 only cell 0 is written although
   * the caller asked for two words. `PairwiseFillMissesLastCell` states the general case.
   */
  lemma PairwiseFillSizeTwo()
    ensures FilledByPairwiseFill(2) == 1
  {}

  /**
   * The fill as written: while more than two cells remain, one 64-bit store of the
   * next output; then, if any cell remains, the low word of one more output. For an
   * even size the loop stops with two cells left and only one of them is written.
   */
  method PopulateRandom(randArr: array<bv32>, size: u32, p1: bv32, p2: bv32, p3: bv32, p4: bv32)
    requires size <= randArr.Length
    modifies randArr
    ensures forall x :: 0 <= x < randArr.Length ==>
      randArr[x] == if x < FilledByPairwiseFill(size) then StreamWord(SeedState(p1, p2, p3, p4), x) else old(randArr[x])
  {
    hide Output, Next, Lo, Hi, StreamWord;
    var key := new Key(p1, p2, p3, p4);
    ghost var s := key.Value();
    var i := size;
    ghost var m := 0;
    while i > 2
      invariant 0 <= i <= size && size - i == 2 * m
      invariant i == 0 ==> size == 0
      invariant key.Value() == StepN(s, m)
      invariant forall x :: 0 <= x < randArr.Length ==>
        randArr[x] == if x < size - i then StreamWord(s, x) else old(randArr[x])
    {
      var r := Rand(key);
      StreamWordPair(s, size - i, m);
      StoreWords(randArr, size - i, [Lo(r), Hi(r)]);
      i := i - 2;
      m := m + 1;
    }
    if i != 0 {
      var r := Rand(key);
      StreamWordPair(s, size - i, m);
      randArr[size - i] := Lo(r);
      assert size - i + 1 == FilledByPairwiseFill(size);
    }
  }

  /** The fill with the loop running while more than one cell remains: writes every cell. */
  method PopulateRandomCorrected(randArr: array<bv32>, size: u32, p1: bv32, p2: bv32, p3: bv32, p4: bv32)
    requires size <= randArr.Length
    modifies randArr
    ensures forall x :: 0 <= x < randArr.Length ==>
      randArr[x] == if x < size then StreamWord(SeedState(p1, p2, p3, p4), x) else old(randArr[x])
  {
    hide Output, Next, Lo, Hi, StreamWord;
    var key := new Key(p1, p2, p3, p4);
    ghost var s := key.Value();
    var i := size;
    ghost var m := 0;
    while i > 1
      invariant 0 <= i <= size && size - i == 2 * m
      invariant key.Value() == StepN(s, m)
      invariant forall x :: 0 <= x < randArr.Length ==>
        randArr[x] == if x < size - i then StreamWord(s, x) else old(randArr[x])
    {
      var r := Rand(key);
      StreamWordPair(s, size - i, m);
      StoreWords(randArr, size - i, [Lo(r), Hi(r)]);
      i := i - 2;
      m := m + 1;
    }
    if i != 0 {
      var r := Rand(key);
      StreamWordPair(s, size - i, m);
      randArr[size - i] := Lo(r);
    }
  }

  // ---------------------------------------------------------------------------
  // The shuffle

  /**
   * The number of swaps of the shuffle: positions `size - 1` down to 1 are each
   * swapped once.
   */
  function SwapCount(size: nat): nat
  {
    if size == 0 then 0 else size - 1
  }

  /**
   * The targets of the first `n` swaps: swap `k` puts a cell into position
   * `size - 1 - k`, choosing it among `[0, size - k)` with stream word `k`.
   */
  function ShuffleTargets(s: State, size: u32, n: nat): (ts: seq<nat>)
    requires n <= size
    ensures |ts| == n
    ensures forall k :: 0 <= k < n ==> ts[k] < size - k
    ensures TargetsBelow(ts, size)
  {
    if n == 0 then []
    else ShuffleTargets(s, size, n - 1) + [MulShift(StreamWord(s, n - 1), size - (n - 1))]
  }

  /** Exchanges two cells, reading both before writing either. */
  method SwapCells(storage: array<bv32>, p: nat, q: nat)
    requires p < storage.Length && q < storage.Length
    modifies storage
    ensures storage[..] == Swap(old(storage[..]), p, q)
  {
    var tmp := storage[p];
    var val := storage[q];
    storage[p] := val;
    storage[q] := tmp;
  }

  /** Performs the next swap of a swap sequence in place. */
  method SwapNext(storage: array<bv32>, ghost initial: seq<bv32>, top: nat, ghost ts: seq<nat>, pos: nat, target: nat)
    requires |ts| < top <= |initial| == storage.Length && pos == top - 1 - |ts|
    requires TargetsBelow(ts, top) && target < top
    requires storage[..] == ApplySwaps(initial, top, ts)
    modifies storage
    ensures TargetsBelow(ts + [target], top)
    ensures storage[..] == ApplySwaps(initial, top, ts + [target])
  {
    SwapCells(storage, pos, target);
    ApplySwapsSnoc(initial, top, ts, target);
  }

  /** One more target extends the target sequence. */
  lemma ShuffleTargetsSnoc(s: State, size: u32, n: nat, bound: u32, t: nat)
    requires n < size && bound == size - n
    requires t == MulShift(StreamWord(s, n), bound) as nat
    ensures ShuffleTargets(s, size, n + 1) == ShuffleTargets(s, size, n) + [t]
  {}

  /** Before the first swap nothing has moved and the key has not stepped. */
  lemma ShuffleStart(a: seq<bv32>, s: State, size: u32)
    requires size <= |a|
    ensures ApplySwaps(a, size, ShuffleTargets(s, size, 0)) == a && StepN(s, 0) == s
  {}

  /** The shuffle's swaps only rearrange the first `size` cells and leave the others alone. */
  lemma ShufflePermutes(a: seq<bv32>, s: State, size: u32)
    requires size <= |a|
    ensures var r := ApplySwaps(a, size, ShuffleTargets(s, size, SwapCount(size)));
      multiset(r[..size]) == multiset(a[..size]) && r[size..] == a[size..] && (size <= 1 ==> r == a)
  {
    var ts := ShuffleTargets(s, size, SwapCount(size));
    ApplySwapsPermutesPrefix(a, size, ts);
    ApplySwapsFrame(a, size, ts);
  }

  /**
   * One step of the shuffle's loop (`i > 2`): bounds `i` and `i - 1` from one output,
   * then position `i - 1` and position `i - 2` are each swapped with their target.
   */
  method ShufflePair(storage: array<bv32>, key: Key, ghost s: State, ghost initial: seq<bv32>, size: u32, i: u32, ghost m: nat)
    requires 2 < i <= size <= storage.Length == |initial| && size - i == 2 * m
    requires key.Value() == StepN(s, m)
    requires storage[..] == ApplySwaps(initial, size, ShuffleTargets(s, size, size - i))
    modifies storage, key
    ensures key.Value() == StepN(s, m + 1)
    ensures storage[..] == ApplySwaps(initial, size, ShuffleTargets(s, size, size - i + 2))
  {
    hide Output, Next, Lo, Hi, StreamWord, MulShift;
    ghost var n := size - i;
    StreamWordPair(s, n, m);
    var nextpos1, nextpos2 := BoundedTwoByTwo(key, i, i - 1);
    assert nextpos1 == MulShift(StreamWord(s, n), i);
    assert nextpos2 == MulShift(StreamWord(s, n + 1), i - 1);
    SwapNext(storage, initial, size, ShuffleTargets(s, size, n), i - 1, nextpos1);
    ShuffleTargetsSnoc(s, size, n, i, nextpos1);
    SwapNext(storage, initial, size, ShuffleTargets(s, size, n + 1), i - 2, nextpos2);
    ShuffleTargetsSnoc(s, size, n + 1, i - 1, nextpos2);
  }

  /** The shuffle's last swap when two cells remain: bound 2 from the low word of one output. */
  method ShuffleLast(storage: array<bv32>, key: Key, ghost s: State, ghost initial: seq<bv32>, size: u32, ghost m: nat)
    requires 2 <= size <= storage.Length == |initial| && size - 2 == 2 * m
    requires key.Value() == StepN(s, m)
    requires storage[..] == ApplySwaps(initial, size, ShuffleTargets(s, size, size - 2))
    modifies storage, key
    ensures storage[..] == ApplySwaps(initial, size, ShuffleTargets(s, size, size - 1))
  {
    hide Output, Next, Lo, Hi, StreamWord, MulShift;
    ghost var n := size - 2;
    StreamWordPair(s, n, m);
    var nextpos := Bounded(key, 2);
    assert nextpos == MulShift(StreamWord(s, n), 2);
    SwapNext(storage, initial, size, ShuffleTargets(s, size, n), 1, nextpos);
    ShuffleTargetsSnoc(s, size, n, 2, nextpos);
  }

  /**
   * The scalar Fisher-Yates shuffle of the first `size` cells: two swaps per step
   * (positions `i - 1` and `i - 2`, bounds `i` and `i - 1`) while `i > 2`, then a
   * single swap if two cells remain.
   */
  method Shuffle32(storage: array<bv32>, size: u32, p1: bv32, p2: bv32, p3: bv32, p4: bv32)
    requires size <= storage.Length
    modifies storage
    ensures storage[..] == ApplySwaps(old(storage[..]), size, ShuffleTargets(SeedState(p1, p2, p3, p4), size, SwapCount(size)))
  {
    hide Output, Next, Lo, Hi, StreamWord, MulShift, Swap, SeedState, Concat, ShuffleTargets, ApplySwaps, StepN;
    var key := new Key(p1, p2, p3, p4);
    ghost var s := key.Value();
    ghost var initial := storage[..];
    ShuffleStart(initial, s, size);
    var i := size;
    ghost var m := 0;
    while i > 2
      invariant 0 <= i <= size && size - i == 2 * m
      invariant i == 0 ==> size == 0
      invariant key.Value() == StepN(s, m)
      invariant storage[..] == ApplySwaps(initial, size, ShuffleTargets(s, size, size - i))
    {
      ShufflePair(storage, key, s, initial, size, i, m);
      i := i - 2;
      m := m + 1;
    }
    if i > 1 {
      ShuffleLast(storage, key, s, initial, size, m);
      i := i - 1;
    }
    assert size - i == SwapCount(size);
  }
}
