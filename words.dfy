/**
 * Machine words shared by every engine: 64-bit lanes are `bv64`, the words of an
 * output buffer are `bv32`. Registers are stored little-endian (x86): 32-bit word
 * 2k of a wide register is the low half of its 64-bit lane k.
 */
module Words {

  const TWO32: int := 0x1_0000_0000
  const TWO64: int := 0x1_0000_0000_0000_0000

  /** An unsigned 32-bit value used as a number (a bound, an index). */
  type u32 = x: int | 0 <= x < TWO32

  /** Bitwise exclusive or of two lanes. */
  function Xor64(x: bv64, y: bv64): bv64 { x ^ y }

  /** `uint64_t` addition: wraps around modulo 2^64. */
  function Add64(x: bv64, y: bv64): bv64 { x + y }

  /** The low 32 bits of a lane: the word stored at the lower address. */
  function Lo(x: bv64): bv32 { (x & 0xFFFF_FFFF) as bv32 }

  /** The high 32 bits of a lane. */
  function Hi(x: bv64): bv32 { (x >> 32) as bv32 }

  /** `(uint64_t)hi << 32 | lo` for two 32-bit values. */
  function Concat(hi: bv32, lo: bv32): bv64 { ((hi as bv64) << 32) | (lo as bv64) }

  lemma ConcatSplit(hi: bv32, lo: bv32)
    ensures Hi(Concat(hi, lo)) == hi && Lo(Concat(hi, lo)) == lo
  {}

  lemma SplitConcat(x: bv64)
    ensures Concat(Hi(x), Lo(x)) == x
  {}

  /** Packing two 32-bit values into a 64-bit one loses nothing. */
  lemma ConcatInjective(h1: bv32, l1: bv32, h2: bv32, l2: bv32)
    ensures Concat(h1, l1) == Concat(h2, l2) <==> h1 == h2 && l1 == l2
  {
    ConcatSplit(h1, l1);
    ConcatSplit(h2, l2);
  }

  /** The 32-bit words of a register held as 64-bit lanes, in memory order. */
  function WordsOf(lanes: seq<bv64>): (w: seq<bv32>)
    ensures |w| == 2 * |lanes|
    ensures forall k :: 0 <= k < |lanes| ==> w[2 * k] == Lo(lanes[k]) && w[2 * k + 1] == Hi(lanes[k])
  {
    if lanes == [] then []
    else
      var rest := WordsOf(lanes[1..]);
      assert forall k :: 1 <= k < |lanes| ==> rest[2 * (k - 1)] == Lo(lanes[k]) && rest[2 * (k - 1) + 1] == Hi(lanes[k]);
      [Lo(lanes[0]), Hi(lanes[0])] + rest
  }

  lemma ProductBound(x: int, b: int)
    requires 0 <= x < TWO32 && 0 <= b < TWO32
    ensures 0 <= x * b < TWO64
    ensures 0 <= x * b / TWO32 < TWO32
    ensures b != 0 ==> x * b / TWO32 < b
  {
    MulMono(x, TWO32 - 1, b);
    assert x * b <= TWO32 * b - b;
    MulMono(b, TWO32 - 1, TWO32);
    var q := x * b / TWO32;
    assert q * TWO32 <= x * b;
    if b != 0 {
      assert q * TWO32 < b * TWO32;
      if q >= b {
        MulMono(b, q, TWO32);
        assert false;
      }
    }
  }

  /** `m c` is `(m - 1) c + c`. */
  lemma MulStep(m: nat, c: nat)
    requires m > 0
    ensures m * c == (m - 1) * c + c
    ensures m * c >= c
  {}

  lemma MulMono(x: int, y: int, c: int)
    requires 0 <= x <= y && 0 <= c
    ensures 0 <= x * c <= y * c
  {}

  /**
   * Lemire's multiply-shift: `((uint64_t)x * bound) >> 32`. The product of two
   * 32-bit values never wraps in 64 bits, so it is the exact integer product.
   */
  function MulShift(x: bv32, bound: u32): (r: u32)
    ensures bound != 0 ==> r < bound
    ensures bound == 0 ==> r == 0
  {
    ProductBound(x as int, bound);
    x as int * bound / TWO32
  }

  /**
   * A store of consecutive 32-bit words at `at` (an unaligned vector store or a
   * `memcpy` of a prefix of a block): those cells take the words, no other cell
   * changes.
   */
  method StoreWords(a: array<bv32>, at: nat, words: seq<bv32>)
    requires at + |words| <= a.Length
    modifies a
    ensures forall x :: 0 <= x < a.Length ==> a[x] == if at <= x < at + |words| then words[x - at] else old(a[x])
  {
    forall x | at <= x < at + |words| {
      a[x] := words[x - at];
    }
  }
}
