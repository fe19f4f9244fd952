/**
 * The vector keys of the 256-bit and the 512-bit engines. A register is a sequence
 * of 64-bit lanes (4 or 8 of them); the engines differ only in that lane count, so
 * the key, its step and the stream of words it produces are modelled once here.
 *
 * As written, the vector step builds the new `part2` from the old `part2` alone:
 * `s1` is first loaded from `part1` and then overwritten before it is used. Each
 * lane is therefore an independent sequence `p, f(p), f(f(p)), ...` that does not
 * follow the scalar recurrence, and `part1` never influences an output.
 */
module VectorLanes {
  import opened Words
  import opened Xorshift128Plus
  import opened Jump

  // ---------------------------------------------------------------------------
  // Lane-wise register operations (the AVX2 / AVX-512 intrinsics on 64-bit lanes)

  /** `_mm*_xor_si*`. */
  function XorLanes(a: seq<bv64>, b: seq<bv64>): (r: seq<bv64>)
    requires |a| == |b|
    ensures |r| == |a|
  {
    seq(|a|, k requires 0 <= k < |a| => Xor64(a[k], b[k]))
  }

  function Shl64(x: bv64, n: nat): bv64
    requires n <= 64
  {
    x << n
  }

  function Shr64(x: bv64, n: nat): bv64
    requires n <= 64
  {
    x >> n
  }

  /** `_mm*_slli_epi64`: every lane shifted left, zeros shifted in. */
  function ShlLanes(a: seq<bv64>, n: nat): (r: seq<bv64>)
    requires n <= 64
    ensures |r| == |a|
  {
    seq(|a|, k requires 0 <= k < |a| => Shl64(a[k], n))
  }

  /** `_mm*_srli_epi64`: every lane shifted right, zeros shifted in. */
  function ShrLanes(a: seq<bv64>, n: nat): (r: seq<bv64>)
    requires n <= 64
    ensures |r| == |a|
  {
    seq(|a|, k requires 0 <= k < |a| => Shr64(a[k], n))
  }

  /** `_mm*_add_epi64`: lane-wise addition modulo 2^64, no carry between lanes. */
  function AddLanes(a: seq<bv64>, b: seq<bv64>): (r: seq<bv64>)
    requires |a| == |b|
    ensures |r| == |a|
  {
    seq(|a|, k requires 0 <= k < |a| => Add64(a[k], b[k]))
  }

  // ---------------------------------------------------------------------------
  // The step of one lane, and of a register

  /** What the vector step makes of one lane `p` of `part2`: `u ^ p ^ (u >> 18) ^ (p >> 5)`, `u = p ^ (p << 23)`. */
  function LaneStep(p: bv64): bv64
  {
    var u := Xor64(p, Shl64(p, 23));
    Xor64(Xor64(Xor64(u, p), Shr64(u, 18)), Shr64(p, 5))
  }

  /** The lane of the vector step's result: the new lane plus the old one. */
  function LaneOutput(p: bv64): bv64
  {
    Add64(LaneStep(p), p)
  }

  /** The new `part2`: every lane stepped on its own. */
  function VNext(v: seq<bv64>): (r: seq<bv64>)
    ensures |r| == |v|
  {
    seq(|v|, k requires 0 <= k < |v| => LaneStep(v[k]))
  }

  /** The register one vector step returns. */
  function VOutput(v: seq<bv64>): (r: seq<bv64>)
    ensures |r| == |v|
  {
    seq(|v|, k requires 0 <= k < |v| => LaneOutput(v[k]))
  }

  /** `part2` after `m` vector steps. */
  function VStepN(v: seq<bv64>, m: nat): (r: seq<bv64>)
    ensures |r| == |v|
  {
    if m == 0 then v else VNext(VStepN(v, m - 1))
  }

  /** One lane after `m` steps. */
  function LaneIter(p: bv64, m: nat): bv64
  {
    if m == 0 then p else LaneStep(LaneIter(p, m - 1))
  }

  /** Lanes do not interact: lane `k` after `m` vector steps depends on lane `k` alone. */
  lemma {:induction false} VStepNLane(v: seq<bv64>, m: nat, k: nat)
    requires k < |v|
    ensures VStepN(v, m)[k] == LaneIter(v[k], m)
  {
    hide LaneStep;
    if m > 0 {
      VStepNLane(v, m - 1, k);
    }
  }

  /** A vector step followed by `m` steps is `m + 1` steps. */
  lemma {:induction false} VStepNShift(v: seq<bv64>, m: nat)
    ensures VStepN(VNext(v), m) == VStepN(v, m + 1)
  {
    hide VNext;
    if m > 0 {
      VStepNShift(v, m - 1);
    }
  }

  /**
   * Word `x` of the stream of a vector key whose `part2` is `v`: the outputs stored
   * one after the other, each as `2 |v|` little-endian 32-bit words.
   */
  function VStreamWord(v: seq<bv64>, x: nat): bv32
    requires |v| > 0
    decreases x
  {
    if x >= 2 * |v| then VStreamWord(VNext(v), x - 2 * |v|) else WordsOf(VOutput(v))[x]
  }

  /** Skipping `m` whole outputs of the stream is stepping the key `m` times. */
  lemma {:induction false} VStreamShift(v: seq<bv64>, m: nat, base: nat, w: nat)
    requires |v| > 0 && base == m * (2 * |v|)
    ensures VStreamWord(v, base + w) == VStreamWord(VStepN(v, m), w)
    decreases m
  {
    hide VNext, VOutput, WordsOf;
    if m > 0 {
      MulStep(m, 2 * |v|);
      VStreamShift(VNext(v), m - 1, base - 2 * |v|, w);
      VStepNShift(v, m - 1);
    }
  }

  /** Output `m` of a vector key supplies stream words `m (2 |v|)` to `m (2 |v|) + 2 |v| - 1`. */
  lemma VStreamBlock(v: seq<bv64>, m: nat, base: nat, t: nat)
    requires |v| > 0 && base == m * (2 * |v|) && t < 2 * |v|
    ensures VStreamWord(v, base + t) == WordsOf(VOutput(VStepN(v, m)))[t]
  {
    VStreamShift(v, m, base, t);
  }

  // ---------------------------------------------------------------------------
  // The step as written versus the scalar recurrence

  /** A lane of `part1` set to 1 and of `part2` to 0: the scalar step moves, the vector step stays at 0. */
  lemma VectorLaneIsNotScalar()
    ensures LaneStep(0) == 0
    ensures Next(State(1, 0)).seed2 != 0
  {}

  /**
   * The step the engine evidently intends (Lemire's vector xorshift128+): the first
   * xorshift applied to `part1`, not to `part2`.
   */
  function VNextIntended(p1: seq<bv64>, p2: seq<bv64>): (r: seq<bv64>)
    requires |p1| == |p2|
    ensures |r| == |p2|
  {
    seq(|p2|, k requires 0 <= k < |p2| => Combine(ScrambleHigh(p1[k]), p2[k]))
  }

  /** Both halves of a register pair after `m` steps of the intended vector step. */
  function VIntendedN(p1: seq<bv64>, p2: seq<bv64>, m: nat): (r: (seq<bv64>, seq<bv64>))
    requires |p1| == |p2|
    ensures |r.0| == |r.1| == |p2|
  {
    if m == 0 then (p1, p2)
    else
      var prev := VIntendedN(p1, p2, m - 1);
      (prev.1, VNextIntended(prev.0, prev.1))
  }

  /** With the intended step, every lane pair follows the scalar recurrence. */
  lemma {:induction false} VIntendedLaneIsScalar(p1: seq<bv64>, p2: seq<bv64>, m: nat, k: nat)
    requires |p1| == |p2| && k < |p2|
    ensures var r := VIntendedN(p1, p2, m); State(r.0[k], r.1[k]) == StepN(State(p1[k], p2[k]), m)
  {
    hide Combine, ScrambleHigh;
    if m > 0 {
      VIntendedLaneIsScalar(p1, p2, m - 1, k);
    }
  }

  // ---------------------------------------------------------------------------
  // Seeding

  /**
   * The four seed values the vector keys read: 64-bit, so `p1 << 32 | p2` is a plain
   * bitwise or and `p2`'s high half lands on `p1`'s low half.
   */
  datatype Seed = Seed(p1: bv64, p2: bv64, p3: bv64, p4: bv64)

  /** `hi << 32 | lo` on 64-bit values. */
  function Pack(hi: bv64, lo: bv64): bv64 { (hi << 32) | lo }

  /** The scalar state a vector key starts from. */
  function SeedOf(seed: Seed): State
  {
    State(Pack(seed.p1, seed.p2), Pack(seed.p3, seed.p4))
  }

  /** The packing loses information: two different seeds give the same key. */
  lemma PackNotInjective()
    ensures Pack(0, 0x1_0000_0000) == Pack(1, 0)
  {}

  /** When both values fit in 32 bits the packing is the exact concatenation of the scalar key. */
  lemma PackOfWords(hi: bv32, lo: bv32)
    ensures Pack(hi as bv64, lo as bv64) == Concat(hi, lo)
  {}

  /** The `part2` a key starts with: the second words of its lanes. This alone determines its stream. */
  function Stream(seed: Seed, lanes: nat): (v: seq<bv64>)
    ensures |v| == lanes
  {
    seq(lanes, k requires 0 <= k < lanes => JumpPow(SeedOf(seed), k).seed2)
  }

  class VecKey {
    var part1: seq<bv64>
    var part2: seq<bv64>

    /**
     * The key's lanes: lane 0 is the seed, lane `k + 1` the jump of lane `k`. `part1`
     * holds the first words (`S0`) and `part2` the second words (`S1`), in lane order.
     */
    constructor (lanes: nat, seed: Seed)
      requires lanes > 0
      ensures |part1| == |part2| == lanes
      ensures forall k :: 0 <= k < lanes ==> State(part1[k], part2[k]) == JumpPow(SeedOf(seed), k)
      ensures part2 == Stream(seed, lanes)
    {
      hide JumpOf, JumpAcc, Pack, JumpPow;
      var s := SeedOf(seed);
      JumpPowStep(s, 0);
      var s0: seq<bv64> := [s.seed1];
      var s1: seq<bv64> := [s.seed2];
      while |s0| < lanes
        invariant 1 <= |s0| == |s1| <= lanes
        invariant forall k :: 0 <= k < |s0| ==> State(s0[k], s1[k]) == JumpPow(s, k)
      {
        var o1, o2 := JumpOnKeys(s0[|s0| - 1], s1[|s1| - 1]);
        JumpPowStep(s, |s0| - 1);
        s0 := s0 + [o1];
        s1 := s1 + [o2];
      }
      part1 := s0;
      part2 := s1;
    }
  }

  /** The new `part2` as the intrinsics compute it. */
  function VStepExpr(p: seq<bv64>): (r: seq<bv64>)
    ensures |r| == |p|
  {
    var u := XorLanes(p, ShlLanes(p, 23));
    XorLanes(XorLanes(XorLanes(u, p), ShrLanes(u, 18)), ShrLanes(p, 5))
  }

  lemma VStepExprLane(p: seq<bv64>, k: nat)
    requires k < |p|
    ensures VStepExpr(p)[k] == LaneStep(p[k])
  {
    hide Xor64, Shl64, Shr64;
  }

  lemma VStepExprIsVNext(p: seq<bv64>)
    ensures VStepExpr(p) == VNext(p)
  {
    forall k | 0 <= k < |p|
      ensures VStepExpr(p)[k] == VNext(p)[k]
    {
      VStepExprLane(p, k);
    }
  }

  /**
   * The vector step as written: `part1` takes the old `part2`; `s1` is loaded from
   * `part1` but overwritten with `part2 ^ (part2 << 23)` before use; the new `part2`
   * and the result are computed lane by lane from the old `part2`.
   */
  method Rand(key: VecKey) returns (r: seq<bv64>)
    modifies key
    ensures key.part1 == old(key.part2)
    ensures key.part2 == VNext(old(key.part2))
    ensures r == VOutput(old(key.part2))
  {
    var s1 := key.part1;
    var s0 := key.part2;
    key.part1 := key.part2;
    s1 := XorLanes(key.part2, ShlLanes(key.part2, 23));
    key.part2 := XorLanes(XorLanes(XorLanes(s1, s0), ShrLanes(s1, 18)), ShrLanes(s0, 5));
    r := AddLanes(key.part2, s0);
    VStepExprIsVNext(s0);
    assert key.part2 == VStepExpr(s0);
  }
}
