/**
 * Filling a buffer of 32-bit words from one, two or four vector keys, as the
 * 256-bit and the 512-bit engines both do (they differ only in the lane count).
 *
 * With `k` keys and blocks of `b = 2 * lanes` words, the buffer is cut into rounds
 * of `k` blocks, block `j` of a round taking the next output of key `j`. When fewer
 * than `k` blocks remain the engine drops to half as many keys, and a last partial
 * block takes a prefix of the next output of the first key.
 */
module VectorFill {
  import opened Words
  import opened VectorLanes
  import opened Jump

  /**
   * `k` keys in use out of `vs`, all registers of the same non-zero width: each output
   * is a block of `b` words.
   */
  ghost predicate KeysOk(vs: seq<seq<bv64>>, k: nat, b: nat)
  {
    (k == 1 || k == 2 || k == 4) && k <= |vs| && b > 0 &&
    forall j :: 0 <= j < |vs| ==> 2 * |vs[j]| == b
  }

  /** The words of a key's next output as they are stored: `2 |v|` little-endian 32-bit words. */
  function OutWords(v: seq<bv64>): (w: seq<bv32>)
    ensures |w| == 2 * |v|
  {
    WordsOf(VOutput(v))
  }

  /** Every key in use steps once; the others keep their state. */
  function StepKeys(vs: seq<seq<bv64>>, k: nat): (r: seq<seq<bv64>>)
    ensures |r| == |vs|
  {
    seq(|vs|, j requires 0 <= j < |vs| => if j < k then VNext(vs[j]) else vs[j])
  }

  /** The words of one round: `k` blocks of `b` words. */
  function RoundLen(k: nat, b: nat): (r: nat)
    requires k == 1 || k == 2 || k == 4
    ensures r >= b
  {
    if k == 1 then b else if k == 2 then b + b else b + b + b + b
  }

  /** Where block `j` of a round of blocks of `b` words starts. */
  function BlockStart(j: nat, b: nat): (r: nat)
    requires j < 4
  {
    if j == 0 then 0 else if j == 1 then b else if j == 2 then b + b else b + b + b
  }

  /** Which block `j` of a round holds position `y`, and at which word `t`. */
  function InRound(k: nat, b: nat, y: nat): (r: (nat, nat))
    requires (k == 1 || k == 2 || k == 4) && y < RoundLen(k, b)
    ensures r.0 < k && r.1 < b && y == BlockStart(r.0, b) + r.1
  {
    if y < b then (0, y)
    else if y < b + b then (1, y - b)
    else if y < b + b + b then (2, y - b - b)
    else (3, y - b - b - b)
  }

  /** Position `t` of block `j` is found again. */
  lemma InRoundOf(k: nat, b: nat, j: nat, t: nat)
    requires (k == 1 || k == 2 || k == 4) && j < k && t < b
    ensures BlockStart(j, b) + t < RoundLen(k, b)
    ensures InRound(k, b, BlockStart(j, b) + t) == (j, t)
  {
  }

  /**
   * Word `y` of a buffer of `n` words filled from keys whose `part2` registers are
   * `vs`, `k` of them in use.
   */
  function Fill(vs: seq<seq<bv64>>, k: nat, b: nat, n: nat, y: nat): bv32
    requires KeysOk(vs, k, b) && y < n
    decreases n, k
  {
    if RoundLen(k, b) <= n then
      if y < RoundLen(k, b) then
        var s := InRound(k, b, y);
        OutWords(vs[s.0])[s.1]
      else Fill(StepKeys(vs, k), k, b, n - RoundLen(k, b), y - RoundLen(k, b))
    else if k == 1 then OutWords(vs[0])[y]
    else Fill(vs, k / 2, b, n, y)
  }

  // ---------------------------------------------------------------------------
  // Unfolding steps used by the fill loops

  /** A whole round fits: block `j` of it is the next output of key `j`. */
  lemma FillBlock(vs: seq<seq<bv64>>, k: nat, b: nat, n: nat, j: nat, t: nat)
    requires KeysOk(vs, k, b) && RoundLen(k, b) <= n && j < k && t < b
    ensures BlockStart(j, b) + t < n
    ensures Fill(vs, k, b, n, BlockStart(j, b) + t) == OutWords(vs[j])[t]
  {
    InRoundOf(k, b, j, t);
  }

  /** After a whole round, the rest of the buffer is filled by the stepped keys. */
  lemma FillRound(vs: seq<seq<bv64>>, k: nat, b: nat, n: nat, y: nat)
    requires KeysOk(vs, k, b) && RoundLen(k, b) <= y < n
    ensures KeysOk(StepKeys(vs, k), k, b)
    ensures Fill(vs, k, b, n, y) == Fill(StepKeys(vs, k), k, b, n - RoundLen(k, b), y - RoundLen(k, b))
  {
    hide VNext, VOutput, WordsOf, OutWords;
  }

  /** When a round no longer fits, half as many keys go on. */
  lemma FillHalve(vs: seq<seq<bv64>>, k: nat, b: nat, n: nat, y: nat)
    requires KeysOk(vs, k, b) && k > 1 && n < RoundLen(k, b) && y < n
    ensures KeysOk(vs, k / 2, b)
    ensures Fill(vs, k, b, n, y) == Fill(vs, k / 2, b, n, y)
  {
  }

  /** Less than a block left: the words are a prefix of the first key's next output. */
  lemma FillTail(vs: seq<seq<bv64>>, b: nat, n: nat, y: nat)
    requires KeysOk(vs, 1, b) && n < b && y < n
    ensures Fill(vs, 1, b, n, y) == OutWords(vs[0])[y]
  {
  }

  // ---------------------------------------------------------------------------
  // The fill against each key's own stream

  /** Which key supplies position `y` of an `n`-word buffer, and at which word of its stream. */
  function Source(k: nat, b: nat, n: nat, y: nat): (r: (nat, nat))
    requires (k == 1 || k == 2 || k == 4) && b > 0 && y < n
    ensures r.0 < k
    decreases n, k
  {
    if RoundLen(k, b) <= n then
      if y < RoundLen(k, b) then InRound(k, b, y)
      else
        var s := Source(k, b, n - RoundLen(k, b), y - RoundLen(k, b));
        (s.0, s.1 + b)
    else if k == 1 then (0, y)
    else Source(k / 2, b, n, y)
  }

  /** The first block of a key's stream is its next output. */
  lemma StreamFirst(v: seq<bv64>, t: nat)
    requires 0 < |v| && t < 2 * |v|
    ensures VStreamWord(v, t) == OutWords(v)[t]
  {
  }

  /** Past the first block, a key's stream is the stream of the stepped key. */
  lemma StreamNext(v: seq<bv64>, w: nat)
    requires 0 < |v|
    ensures VStreamWord(v, w + 2 * |v|) == VStreamWord(VNext(v), w)
  {
  }

  /** Every word of the buffer is the word of its source key's stream that `Source` names. */
  lemma {:induction false} FillIsStream(vs: seq<seq<bv64>>, k: nat, b: nat, n: nat, y: nat)
    requires KeysOk(vs, k, b) && y < n
    ensures Source(k, b, n, y).0 < |vs| && |vs[Source(k, b, n, y).0]| > 0
    ensures Fill(vs, k, b, n, y) == VStreamWord(vs[Source(k, b, n, y).0], Source(k, b, n, y).1)
    decreases n, k
  {
    hide VNext, VOutput, WordsOf, OutWords, VStreamWord, Fill;
    if RoundLen(k, b) <= n {
      if y >= RoundLen(k, b) {
        var r := RoundLen(k, b);
        var s := Source(k, b, n - r, y - r);
        FillRound(vs, k, b, n, y);
        FillIsStream(StepKeys(vs, k), k, b, n - r, y - r);
        StreamNext(vs[s.0], s.1);
      } else {
        var s := InRound(k, b, y);
        FillBlock(vs, k, b, n, s.0, s.1);
        StreamFirst(vs[s.0], s.1);
      }
    } else if k > 1 {
      FillHalve(vs, k, b, n, y);
      FillIsStream(vs, k / 2, b, n, y);
    } else {
      FillTail(vs, b, n, y);
      StreamFirst(vs[0], y);
    }
  }

  /** With one key the buffer is exactly that key's stream, word for word. */
  lemma {:induction false} SourceOneKey(b: nat, n: nat, y: nat)
    requires b > 0 && y < n
    ensures Source(1, b, n, y) == (0, y)
    decreases n
  {
    if b <= n && y >= b {
      SourceOneKey(b, n - b, y - b);
    }
  }

  /**
   * No word of any key's stream is stored twice: distinct positions of the buffer
   * take distinct (key, stream word) pairs.
   */
  lemma {:induction false} SourceInjective(k: nat, b: nat, n: nat, y1: nat, y2: nat)
    requires (k == 1 || k == 2 || k == 4) && b > 0 && y1 < n && y2 < n
    ensures Source(k, b, n, y1) == Source(k, b, n, y2) ==> y1 == y2
    decreases n, k
  {
    if RoundLen(k, b) <= n {
      if y1 >= RoundLen(k, b) && y2 >= RoundLen(k, b) {
        SourceInjective(k, b, n - RoundLen(k, b), y1 - RoundLen(k, b), y2 - RoundLen(k, b));
      }
    } else if k > 1 {
      SourceInjective(k / 2, b, n, y1, y2);
    }
  }

  // ---------------------------------------------------------------------------
  // Loop invariants of the fill methods

  /**
   * After `i` words, the rest of the buffer the keys `vs` (`k0` in use) fill is what
   * the current keys `cur` (`k` in use) fill in the `n - i` words left.
   */
  ghost predicate Rest(vs: seq<seq<bv64>>, k0: nat, cur: seq<seq<bv64>>, k: nat, b: nat, n: nat, i: nat)
    requires KeysOk(vs, k0, b) && KeysOk(cur, k, b)
  {
    i <= n && forall y :: i <= y < n ==> Fill(vs, k0, b, n, y) == Fill(cur, k, b, n - i, y - i)
  }

  /** Nothing has been written yet. */
  lemma RestStart(vs: seq<seq<bv64>>, k: nat, b: nat, n: nat)
    requires KeysOk(vs, k, b)
    ensures Rest(vs, k, vs, k, b, n, 0)
  {
  }

  /** One whole round: block `j` is the next output of current key `j`, then every key in use steps. */
  lemma RestRound(vs: seq<seq<bv64>>, k0: nat, cur: seq<seq<bv64>>, k: nat, b: nat, n: nat, i: nat)
    requires KeysOk(vs, k0, b) && KeysOk(cur, k, b) && Rest(vs, k0, cur, k, b, n, i)
    requires RoundLen(k, b) <= n - i
    ensures KeysOk(StepKeys(cur, k), k, b)
    ensures Rest(vs, k0, StepKeys(cur, k), k, b, n, i + RoundLen(k, b))
    ensures forall y :: i <= y < i + RoundLen(k, b) ==>
      var s := InRound(k, b, y - i);
      Fill(vs, k0, b, n, y) == OutWords(cur[s.0])[s.1]
  {
    hide VNext, VOutput, WordsOf, OutWords;
    forall y | i + RoundLen(k, b) <= y < n
      ensures Fill(vs, k0, b, n, y) == Fill(StepKeys(cur, k), k, b, n - (i + RoundLen(k, b)), y - (i + RoundLen(k, b)))
    {
      FillRound(cur, k, b, n - i, y - i);
    }
    forall y | i <= y < i + RoundLen(k, b)
      ensures var s := InRound(k, b, y - i);
        Fill(vs, k0, b, n, y) == OutWords(cur[s.0])[s.1]
    {
      var s := InRound(k, b, y - i);
      FillBlock(cur, k, b, n - i, s.0, s.1);
    }
  }

  /** A round no longer fits: half as many keys go on. */
  lemma RestHalve(vs: seq<seq<bv64>>, k0: nat, cur: seq<seq<bv64>>, k: nat, b: nat, n: nat, i: nat)
    requires KeysOk(vs, k0, b) && KeysOk(cur, k, b) && Rest(vs, k0, cur, k, b, n, i)
    requires k > 1 && n - i < RoundLen(k, b)
    ensures KeysOk(cur, k / 2, b)
    ensures Rest(vs, k0, cur, k / 2, b, n, i)
  {
    hide VNext, VOutput, WordsOf, OutWords;
    forall y | i <= y < n
      ensures Fill(vs, k0, b, n, y) == Fill(cur, k / 2, b, n - i, y - i)
    {
      FillHalve(cur, k, b, n - i, y - i);
    }
  }

  /** Less than a block is left: it is a prefix of the next output of the first key. */
  lemma RestTail(vs: seq<seq<bv64>>, k0: nat, cur: seq<seq<bv64>>, b: nat, n: nat, i: nat)
    requires KeysOk(vs, k0, b) && KeysOk(cur, 1, b) && Rest(vs, k0, cur, 1, b, n, i)
    requires n - i < b
    ensures forall y :: i <= y < n ==> Fill(vs, k0, b, n, y) == OutWords(cur[0])[y - i]
  {
    hide VNext, VOutput, WordsOf, OutWords;
    forall y | i <= y < n
      ensures Fill(vs, k0, b, n, y) == OutWords(cur[0])[y - i]
    {
      FillTail(cur, b, n - i, y - i);
    }
  }

  // ---------------------------------------------------------------------------
  // The loop guard

  /**
   * The guard `i + need <= size` evaluated in `uint32_t`, as the fill loops write it:
   * the sum wraps around once it reaches 2^32.
   */
  function BlockFitsAsWritten(i: u32, need: nat, size: u32): bool
  {
    (i + need) % TWO32 <= size
  }

  /**
   * One concrete instance, for illustration: near 2^32 the wrapped guard lets a block
   * through that runs past the end of the buffer. `GuardWrapsIff` states the general case.
   */
  lemma GuardWraps()
    ensures BlockFitsAsWritten(0xFFFF_FFF8, 8, 0xFFFF_FFFF)
    ensures 0xFFFF_FFF8 + 8 > 0xFFFF_FFFF
  {
  }

  /** The guard without wrap-around: a block of `need` words fits in what is left. */
  function BlockFits(i: nat, need: nat, size: nat): (r: bool)
    requires i <= size
    ensures r <==> i + need <= size
  {
    need <= size - i
  }

  /**
   * The fill loops step `i` by `need` from 0, so they reach every multiple of `need`
   * up to `size`. Such an `i` at which the wrapped guard admits a block that does not
   * fit exists exactly when `size >= 2^32 - need`; there `i + need` wraps to 0, so `i`
   * restarts at 0 and the loop never ends.
   */
  lemma GuardWrapsIff(need: nat, size: u32)
    requires need == 8 || need == 16 || need == 32 || need == 64
    ensures (exists i: u32 :: i <= size && i % need == 0 && BlockFitsAsWritten(i, need, size) && !BlockFits(i, need, size))
            <==> size >= TWO32 - need
    ensures size >= TWO32 - need ==> (TWO32 - need) % need == 0 && ((TWO32 - need) + need) % TWO32 == 0
  {
    if size >= TWO32 - need {
      var i: u32 := TWO32 - need;
      assert BlockFitsAsWritten(i, need, size) && !BlockFits(i, need, size);
    } else {
      forall i: u32 | i <= size
        ensures BlockFitsAsWritten(i, need, size) == BlockFits(i, need, size)
      {
        GuardAgrees(i, need, size);
      }
    }
  }

  /** Below 2^32 the two guards agree, so the loops as written are right for such sizes. */
  lemma GuardAgrees(i: u32, need: nat, size: u32)
    requires i <= size && size + need < TWO32
    ensures BlockFitsAsWritten(i, need, size) == BlockFits(i, need, size)
  {
  }

  // ---------------------------------------------------------------------------
  // The fill methods

  /**
   * Cells `i` to `size - 1` hold the words the keys `vs` (`k` in use) put there in a
   * buffer of `size` words; the others below `size` are untouched, as are all cells
   * from `size` on.
   */
  ghost predicate Filled(a: seq<bv32>, old_a: seq<bv32>, vs: seq<seq<bv64>>, k: nat, b: nat, size: nat, i: nat)
    requires KeysOk(vs, k, b) && |a| == |old_a|
  {
    forall x :: 0 <= x < |a| ==> a[x] == if x < i && x < size then Fill(vs, k, b, size, x) else old_a[x]
  }

  /** Only cells `lo` to `hi - 1` may differ between `a` and `a1`. */
  ghost predicate Unchanged(a: seq<bv32>, a1: seq<bv32>, lo: nat, hi: nat)
  {
    |a1| == |a| && forall x :: 0 <= x < |a| && (x < lo || hi <= x) ==> a1[x] == a[x]
  }

  /** Two writes to adjacent ranges write their union. */
  lemma UnchangedJoin(a: seq<bv32>, a1: seq<bv32>, a2: seq<bv32>, lo: nat, mid: nat, hi: nat)
    requires lo <= mid <= hi && Unchanged(a, a1, lo, mid) && Unchanged(a1, a2, mid, hi)
    ensures Unchanged(a, a2, lo, hi)
  {
  }

  /** Cells `at` onwards hold the words `w`. */
  ghost predicate Holds(a: seq<bv32>, at: nat, w: seq<bv32>)
  {
    at + |w| <= |a| && forall x :: at <= x < at + |w| ==> a[x] == w[x - at]
  }

  /**
   * A round stored: block `j` of the round holds the next output of current key `j`,
   * every cell outside the round kept its value.
   */
  lemma FilledRound(a: seq<bv32>, a1: seq<bv32>, a0: seq<bv32>, vs: seq<seq<bv64>>, k0: nat,
                    cur: seq<seq<bv64>>, k: nat, b: nat, size: nat, i: nat)
    requires KeysOk(vs, k0, b) && KeysOk(cur, k, b) && Rest(vs, k0, cur, k, b, size, i)
    requires RoundLen(k, b) <= size - i && |a| == |a1| == |a0| && size <= |a|
    requires Filled(a, a0, vs, k0, b, size, i)
    requires Unchanged(a, a1, i, i + RoundLen(k, b))
    requires forall j :: 0 <= j < k ==> Holds(a1, i + BlockStart(j, b), OutWords(cur[j]))
    ensures KeysOk(StepKeys(cur, k), k, b)
    ensures Rest(vs, k0, StepKeys(cur, k), k, b, size, i + RoundLen(k, b))
    ensures Filled(a1, a0, vs, k0, b, size, i + RoundLen(k, b))
  {
    hide Fill, VNext, VOutput, WordsOf, OutWords;
    RestRound(vs, k0, cur, k, b, size, i);
    forall x | i <= x < i + RoundLen(k, b)
      ensures a1[x] == Fill(vs, k0, b, size, x)
    {
      var s := InRound(k, b, x - i);
      assert Holds(a1, i + BlockStart(s.0, b), OutWords(cur[s.0]));
    }
  }

  /** A round of one block. */
  lemma FilledRound1(a: seq<bv32>, a1: seq<bv32>, a0: seq<bv32>, vs: seq<seq<bv64>>, k0: nat,
                     cur: seq<seq<bv64>>, b: nat, size: nat, i: nat)
    requires KeysOk(vs, k0, b) && KeysOk(cur, 1, b) && Rest(vs, k0, cur, 1, b, size, i)
    requires b <= size - i && |a| == |a1| == |a0| && size <= |a|
    requires Filled(a, a0, vs, k0, b, size, i)
    requires Unchanged(a, a1, i, i + b)
    requires Holds(a1, i, OutWords(cur[0]))
    ensures KeysOk(StepKeys(cur, 1), 1, b)
    ensures Rest(vs, k0, StepKeys(cur, 1), 1, b, size, i + b)
    ensures Filled(a1, a0, vs, k0, b, size, i + b)
  {
    hide Holds, Unchanged, Fill, Filled, Rest, KeysOk, VNext, VOutput, WordsOf, OutWords;
    FilledRound(a, a1, a0, vs, k0, cur, 1, b, size, i);
  }

  /** A round of two blocks, one from each of the first two keys. */
  lemma FilledRound2(a: seq<bv32>, a1: seq<bv32>, a0: seq<bv32>, vs: seq<seq<bv64>>, k0: nat,
                     cur: seq<seq<bv64>>, b: nat, size: nat, i: nat)
    requires KeysOk(vs, k0, b) && KeysOk(cur, 2, b) && Rest(vs, k0, cur, 2, b, size, i)
    requires 2 * b <= size - i && |a| == |a1| == |a0| && size <= |a|
    requires Filled(a, a0, vs, k0, b, size, i)
    requires Unchanged(a, a1, i, i + 2 * b)
    requires Holds(a1, i, OutWords(cur[0])) && Holds(a1, i + b, OutWords(cur[1]))
    ensures KeysOk(StepKeys(cur, 2), 2, b)
    ensures Rest(vs, k0, StepKeys(cur, 2), 2, b, size, i + 2 * b)
    ensures Filled(a1, a0, vs, k0, b, size, i + 2 * b)
  {
    hide Holds, Unchanged, Fill, Filled, Rest, KeysOk, VNext, VOutput, WordsOf, OutWords;
    FilledRound(a, a1, a0, vs, k0, cur, 2, b, size, i);
  }

  /** A round of four blocks, one from each key. */
  lemma FilledRound4(a: seq<bv32>, a1: seq<bv32>, a0: seq<bv32>, vs: seq<seq<bv64>>, k0: nat,
                     cur: seq<seq<bv64>>, b: nat, size: nat, i: nat)
    requires KeysOk(vs, k0, b) && KeysOk(cur, 4, b) && Rest(vs, k0, cur, 4, b, size, i)
    requires 4 * b <= size - i && |a| == |a1| == |a0| && size <= |a|
    requires Filled(a, a0, vs, k0, b, size, i)
    requires Unchanged(a, a1, i, i + 4 * b)
    requires Holds(a1, i, OutWords(cur[0])) && Holds(a1, i + b, OutWords(cur[1]))
    requires Holds(a1, i + 2 * b, OutWords(cur[2])) && Holds(a1, i + 3 * b, OutWords(cur[3]))
    ensures KeysOk(StepKeys(cur, 4), 4, b)
    ensures Rest(vs, k0, StepKeys(cur, 4), 4, b, size, i + 4 * b)
    ensures Filled(a1, a0, vs, k0, b, size, i + 4 * b)
  {
    hide Holds, Unchanged, Fill, Filled, Rest, KeysOk, VNext, VOutput, WordsOf, OutWords;
    FilledRound(a, a1, a0, vs, k0, cur, 4, b, size, i);
  }

  /** The tail stored: the last cells hold a prefix of the first key's next output. */
  lemma FilledTail(a: seq<bv32>, a1: seq<bv32>, a0: seq<bv32>, vs: seq<seq<bv64>>, k0: nat,
                   cur: seq<seq<bv64>>, b: nat, size: nat, i: nat)
    requires KeysOk(vs, k0, b) && KeysOk(cur, 1, b) && Rest(vs, k0, cur, 1, b, size, i)
    requires size - i < b && |a| == |a1| == |a0| && size <= |a|
    requires Filled(a, a0, vs, k0, b, size, i)
    requires Unchanged(a, a1, i, size)
    requires forall x :: i <= x < size ==> a1[x] == OutWords(cur[0])[x - i]
    ensures Filled(a1, a0, vs, k0, b, size, size)
  {
    hide Fill, VNext, VOutput, WordsOf, OutWords;
    RestTail(vs, k0, cur, b, size, i);
  }

  /** Words already stored stay when only cells from `lo` on are written. */
  lemma HoldsKept(a: seq<bv32>, a1: seq<bv32>, at: nat, w: seq<bv32>, lo: nat, hi: nat)
    requires Holds(a, at, w) && Unchanged(a, a1, lo, hi) && at + |w| <= lo
    ensures Holds(a1, at, w)
  {
  }

  /**
   * One unaligned vector store of the next output of `key` at cell `at`: those
   * `2 |part2|` cells take the output's words, every other cell keeps its value.
   */
  method StoreOutput(randArr: array<bv32>, at: nat, key: VecKey)
    requires at + 2 * |key.part2| <= randArr.Length
    modifies randArr, key
    ensures key.part1 == old(key.part2) && key.part2 == VNext(old(key.part2))
    ensures Holds(randArr[..], at, OutWords(old(key.part2)))
    ensures Unchanged(old(randArr[..]), randArr[..], at, at + 2 * |key.part2|)
  {
    var r := Rand(key);
    StoreWords(randArr, at, WordsOf(r));
  }

  /** With one key the buffer holds the key's stream, word for word. */
  lemma FillOneIsStream(v: seq<bv64>, n: nat, y: nat)
    requires 0 < |v| && y < n
    ensures KeysOk([v], 1, 2 * |v|)
    ensures Fill([v], 1, 2 * |v|, n, y) == VStreamWord(v, y)
  {
    FillIsStream([v], 1, 2 * |v|, n, y);
    SourceOneKey(2 * |v|, n, y);
  }

  /**
   * The state of a fill after `i` words: the buffer `a` (`a0` before the fill) is
   * right below `i`, and the current keys `cur` fill the rest as the keys `vs` would.
   */
  ghost predicate Inv(a: seq<bv32>, a0: seq<bv32>, vs: seq<seq<bv64>>, k0: nat,
                      cur: seq<seq<bv64>>, k: nat, b: nat, size: nat, i: nat)
  {
    KeysOk(vs, k0, b) && KeysOk(cur, k, b) && |a| == |a0| && size <= |a| &&
    Rest(vs, k0, cur, k, b, size, i) && Filled(a, a0, vs, k0, b, size, i)
  }

  /** The loop `while (i + block <= size)` over one key. */
  method RoundsOfOne(randArr: array<bv32>, size: nat, block: nat, i0: nat, key: VecKey,
                     ghost vs: seq<seq<bv64>>, ghost k0: nat, ghost cur0: seq<seq<bv64>>, ghost a0: seq<bv32>)
    returns (i: nat, ghost cur: seq<seq<bv64>>)
    requires i0 <= size
    requires Inv(randArr[..], a0, vs, k0, cur0, 1, block, size, i0) && key.part2 == cur0[0]
    modifies randArr, key
    ensures Inv(randArr[..], a0, vs, k0, cur, 1, block, size, i) && key.part2 == cur[0]
    ensures i <= size && !BlockFits(i, block, size)
  {
    hide Fill, VNext, VOutput, WordsOf, OutWords, Filled, Rest, Holds, Unchanged;
    i, cur := i0, cur0;
    while BlockFits(i, block, size)
      invariant Inv(randArr[..], a0, vs, k0, cur, 1, block, size, i) && key.part2 == cur[0] && |cur| == |cur0|
      invariant i <= size && 2 * |cur[0]| == block
      decreases size - i
    {
      ghost var a := randArr[..];
      StoreOutput(randArr, i, key);
      FilledRound1(a, randArr[..], a0, vs, k0, cur, block, size, i);
      cur := StepKeys(cur, 1);
      i := i + block;
    }
  }

  /** The loop `while (i + 2 * block <= size)` over two keys. */
  method RoundsOfTwo(randArr: array<bv32>, size: nat, block: nat, i0: nat, key1: VecKey, key2: VecKey,
                     ghost vs: seq<seq<bv64>>, ghost k0: nat, ghost cur0: seq<seq<bv64>>, ghost a0: seq<bv32>)
    returns (i: nat, ghost cur: seq<seq<bv64>>)
    requires i0 <= size
    requires key1 != key2
    requires Inv(randArr[..], a0, vs, k0, cur0, 2, block, size, i0) && key1.part2 == cur0[0] && key2.part2 == cur0[1]
    modifies randArr, key1, key2
    ensures Inv(randArr[..], a0, vs, k0, cur, 2, block, size, i) && key1.part2 == cur[0] && key2.part2 == cur[1]
    ensures i <= size && !BlockFits(i, 2 * block, size)
  {
    hide Fill, VNext, VOutput, WordsOf, OutWords, Filled, Rest, Holds, Unchanged;
    i, cur := i0, cur0;
    while BlockFits(i, 2 * block, size)
      invariant Inv(randArr[..], a0, vs, k0, cur, 2, block, size, i)
      invariant key1.part2 == cur[0] && key2.part2 == cur[1] && |cur| == |cur0|
      invariant i <= size && 2 * |cur[0]| == block && 2 * |cur[1]| == block
      decreases size - i
    {
      ghost var a := randArr[..];
      StoreRoundOfTwo(randArr, i, block, key1, key2);
      FilledRound2(a, randArr[..], a0, vs, k0, cur, block, size, i);
      cur := StepKeys(cur, 2);
      i := i + 2 * block;
    }
  }

  /** One pass of the two-key loop: one output of each key, stored one block after the other. */
  method StoreRoundOfTwo(randArr: array<bv32>, i: nat, block: nat, key1: VecKey, key2: VecKey)
    requires key1 != key2 && i + 2 * block <= randArr.Length
    requires 2 * |key1.part2| == block && 2 * |key2.part2| == block
    modifies randArr, key1, key2
    ensures key1.part2 == VNext(old(key1.part2)) && key2.part2 == VNext(old(key2.part2))
    ensures Holds(randArr[..], i, OutWords(old(key1.part2))) && Holds(randArr[..], i + block, OutWords(old(key2.part2)))
    ensures Unchanged(old(randArr[..]), randArr[..], i, i + 2 * block)
  {
    hide VNext, VOutput, WordsOf, OutWords, Holds, Unchanged;
    ghost var a := randArr[..];
    ghost var w1 := OutWords(key1.part2);
    StoreOutput(randArr, i, key1);
    ghost var a1 := randArr[..];
    StoreOutput(randArr, i + block, key2);
    HoldsKept(a1, randArr[..], i, w1, i + block, i + 2 * block);
    UnchangedJoin(a, a1, randArr[..], i, i + block, i + 2 * block);
  }

  /** One pass of the four-key loop: one output of each key, stored one block after the other. */
  method StoreRoundOfFour(randArr: array<bv32>, i: nat, block: nat,
                          key1: VecKey, key2: VecKey, key3: VecKey, key4: VecKey)
    requires key1 != key2 && key1 != key3 && key1 != key4 && key2 != key3 && key2 != key4 && key3 != key4
    requires i + 4 * block <= randArr.Length
    requires 2 * |key1.part2| == block && 2 * |key2.part2| == block
    requires 2 * |key3.part2| == block && 2 * |key4.part2| == block
    modifies randArr, key1, key2, key3, key4
    ensures key1.part2 == VNext(old(key1.part2)) && key2.part2 == VNext(old(key2.part2))
    ensures key3.part2 == VNext(old(key3.part2)) && key4.part2 == VNext(old(key4.part2))
    ensures Holds(randArr[..], i, OutWords(old(key1.part2))) && Holds(randArr[..], i + block, OutWords(old(key2.part2)))
    ensures Holds(randArr[..], i + 2 * block, OutWords(old(key3.part2)))
    ensures Holds(randArr[..], i + 3 * block, OutWords(old(key4.part2)))
    ensures Unchanged(old(randArr[..]), randArr[..], i, i + 4 * block)
  {
    hide VNext, VOutput, WordsOf, OutWords, Holds, Unchanged;
    ghost var a := randArr[..];
    ghost var w1, w2 := OutWords(key1.part2), OutWords(key2.part2);
    StoreRoundOfTwo(randArr, i, block, key1, key2);
    ghost var a1 := randArr[..];
    StoreRoundOfTwo(randArr, i + 2 * block, block, key3, key4);
    HoldsKept(a1, randArr[..], i, w1, i + 2 * block, i + 4 * block);
    HoldsKept(a1, randArr[..], i + block, w2, i + 2 * block, i + 4 * block);
    UnchangedJoin(a, a1, randArr[..], i, i + 2 * block, i + 4 * block);
  }

  /** The loop `while (i + 4 * block <= size)` over four keys. */
  method RoundsOfFour(randArr: array<bv32>, size: nat, block: nat, i0: nat,
                      key1: VecKey, key2: VecKey, key3: VecKey, key4: VecKey,
                      ghost vs: seq<seq<bv64>>, ghost k0: nat, ghost cur0: seq<seq<bv64>>, ghost a0: seq<bv32>)
    returns (i: nat, ghost cur: seq<seq<bv64>>)
    requires i0 <= size
    requires key1 != key2 && key1 != key3 && key1 != key4 && key2 != key3 && key2 != key4 && key3 != key4
    requires Inv(randArr[..], a0, vs, k0, cur0, 4, block, size, i0)
    requires key1.part2 == cur0[0] && key2.part2 == cur0[1] && key3.part2 == cur0[2] && key4.part2 == cur0[3]
    modifies randArr, key1, key2, key3, key4
    ensures Inv(randArr[..], a0, vs, k0, cur, 4, block, size, i)
    ensures key1.part2 == cur[0] && key2.part2 == cur[1] && key3.part2 == cur[2] && key4.part2 == cur[3]
    ensures i <= size && !BlockFits(i, 4 * block, size)
  {
    hide Fill, VNext, VOutput, WordsOf, OutWords, Filled, Rest, Holds, Unchanged;
    i, cur := i0, cur0;
    while BlockFits(i, 4 * block, size)
      invariant Inv(randArr[..], a0, vs, k0, cur, 4, block, size, i) && |cur| == |cur0|
      invariant key1.part2 == cur[0] && key2.part2 == cur[1] && key3.part2 == cur[2] && key4.part2 == cur[3]
      invariant i <= size && 2 * |cur[0]| == block && 2 * |cur[1]| == block
      invariant 2 * |cur[2]| == block && 2 * |cur[3]| == block
      decreases size - i
    {
      ghost var a := randArr[..];
      StoreRoundOfFour(randArr, i, block, key1, key2, key3, key4);
      FilledRound4(a, randArr[..], a0, vs, k0, cur, block, size, i);
      cur := StepKeys(cur, 4);
      i := i + 4 * block;
    }
  }

  /** `if (i != size)`: one more output of the first key, of which a prefix is copied. */
  method TailOfOne(randArr: array<bv32>, size: nat, block: nat, i: nat, key: VecKey,
                   ghost vs: seq<seq<bv64>>, ghost k0: nat, ghost cur: seq<seq<bv64>>, ghost a0: seq<bv32>)
    requires Inv(randArr[..], a0, vs, k0, cur, 1, block, size, i) && key.part2 == cur[0]
    requires i <= size && !BlockFits(i, block, size)
    modifies randArr, key
    ensures KeysOk(vs, k0, block) && |randArr[..]| == |a0| && Filled(randArr[..], a0, vs, k0, block, size, size)
  {
    hide Fill, VNext, VOutput, WordsOf, Filled, Rest;
    ghost var a := randArr[..];
    if i != size {
      var r := Rand(key);
      StoreWords(randArr, i, WordsOf(r)[..size - i]);
    }
    FilledTail(a, randArr[..], a0, vs, k0, cur, block, size, i);
  }

  /** Before the first store. */
  lemma InvStart(a: seq<bv32>, vs: seq<seq<bv64>>, k: nat, b: nat, size: nat)
    requires KeysOk(vs, k, b) && size <= |a|
    ensures Inv(a, a, vs, k, vs, k, b, size, 0)
  {
    hide Fill;
    RestStart(vs, k, b, size);
  }

  /** Dropping from `k` keys to half as many once a round of `k` blocks no longer fits. */
  lemma InvHalve(a: seq<bv32>, a0: seq<bv32>, vs: seq<seq<bv64>>, k0: nat,
                 cur: seq<seq<bv64>>, k: nat, b: nat, size: nat, i: nat)
    requires Inv(a, a0, vs, k0, cur, k, b, size, i) && k > 1 && i <= size && !BlockFits(i, RoundLen(k, b), size)
    ensures Inv(a, a0, vs, k0, cur, k / 2, b, size, i)
  {
    hide Fill, Filled;
    RestHalve(vs, k0, cur, k, b, size, i);
  }

  /**
   * The one-key fill of the vector engines: a key seeded from `seed`, whole outputs
   * stored while a block fits, then a prefix of one more output for the rest.
   */
  method PopulateOne(randArr: array<bv32>, size: nat, lanes: nat, seed: Seed)
    requires lanes > 0 && size <= randArr.Length
    modifies randArr
    ensures forall x :: 0 <= x < randArr.Length ==>
      randArr[x] == if x < size then VStreamWord(Stream(seed, lanes), x) else old(randArr[x])
  {
    hide Fill, VNext, VOutput, WordsOf, OutWords, Rest, Stream, JumpPow, SeedOf;
    var key := new VecKey(lanes, seed);
    var block := 2 * lanes;
    ghost var vs := [key.part2];
    ghost var a0 := randArr[..];
    RestStart(vs, 1, block, size);
    var i := 0;
    ghost var cur;
    i, cur := RoundsOfOne(randArr, size, block, i, key, vs, 1, vs, a0);
    TailOfOne(randArr, size, block, i, key, vs, 1, cur, a0);
    forall x | 0 <= x < size
      ensures Fill(vs, 1, block, size, x) == VStreamWord(Stream(seed, lanes), x)
    {
      FillOneIsStream(vs[0], size, x);
    }
  }

  /**
   * The two-key fill: rounds of one output of each key while two blocks fit, then
   * the first key alone, then the tail from the first key.
   */
  method PopulateTwo(randArr: array<bv32>, size: nat, lanes: nat, seed1: Seed, seed2: Seed)
    requires lanes > 0 && size <= randArr.Length
    modifies randArr
    ensures KeysOk([Stream(seed1, lanes), Stream(seed2, lanes)], 2, 2 * lanes)
    ensures forall x :: 0 <= x < randArr.Length ==>
      randArr[x] == if x < size then Fill([Stream(seed1, lanes), Stream(seed2, lanes)], 2, 2 * lanes, size, x)
                    else old(randArr[x])
  {
    hide Fill, VNext, VOutput, WordsOf, OutWords, Rest, Stream, JumpPow, SeedOf;
    var key1 := new VecKey(lanes, seed1);
    var key2 := new VecKey(lanes, seed2);
    var block := 2 * lanes;
    ghost var vs := [key1.part2, key2.part2];
    ghost var a0 := randArr[..];
    RestStart(vs, 2, block, size);
    var i := 0;
    ghost var cur;
    i, cur := RoundsOfTwo(randArr, size, block, i, key1, key2, vs, 2, vs, a0);
    InvHalve(randArr[..], a0, vs, 2, cur, 2, block, size, i);
    i, cur := RoundsOfOne(randArr, size, block, i, key1, vs, 2, cur, a0);
    TailOfOne(randArr, size, block, i, key1, vs, 2, cur, a0);
  }

  /**
   * The four-key fill: rounds of one output of each of four keys, then of the first
   * two, then of the first alone, then the tail from the first key.
   */
  method PopulateFour(randArr: array<bv32>, size: nat, lanes: nat, seed1: Seed, seed2: Seed, seed3: Seed, seed4: Seed)
    requires lanes > 0 && size <= randArr.Length
    modifies randArr
    ensures KeysOk([Stream(seed1, lanes), Stream(seed2, lanes), Stream(seed3, lanes), Stream(seed4, lanes)], 4, 2 * lanes)
    ensures forall x :: 0 <= x < randArr.Length ==>
      randArr[x] == if x < size
                    then Fill([Stream(seed1, lanes), Stream(seed2, lanes), Stream(seed3, lanes), Stream(seed4, lanes)], 4, 2 * lanes, size, x)
                    else old(randArr[x])
  {
    hide Fill, VNext, VOutput, WordsOf, OutWords, Rest, Stream, JumpPow, SeedOf;
    var key1 := new VecKey(lanes, seed1);
    var key2 := new VecKey(lanes, seed2);
    var key3 := new VecKey(lanes, seed3);
    var key4 := new VecKey(lanes, seed4);
    var block := 2 * lanes;
    ghost var vs := [key1.part2, key2.part2, key3.part2, key4.part2];
    ghost var a0 := randArr[..];
    InvStart(a0, vs, 4, block, size);
    FourKeyPhases(randArr, size, block, key1, key2, key3, key4, vs, a0);
    assert vs == [Stream(seed1, lanes), Stream(seed2, lanes), Stream(seed3, lanes), Stream(seed4, lanes)];
    assert Filled(randArr[..], a0, vs, 4, block, size, size);
  }

  /** The four phases of the four-key fill: four keys, then two, then one, then the tail. */
  method FourKeyPhases(randArr: array<bv32>, size: nat, block: nat, key1: VecKey, key2: VecKey, key3: VecKey, key4: VecKey,
                       ghost vs: seq<seq<bv64>>, ghost a0: seq<bv32>)
    requires key1 != key2 && key1 != key3 && key1 != key4 && key2 != key3 && key2 != key4 && key3 != key4
    requires Inv(randArr[..], a0, vs, 4, vs, 4, block, size, 0)
    requires key1.part2 == vs[0] && key2.part2 == vs[1] && key3.part2 == vs[2] && key4.part2 == vs[3]
    modifies randArr, key1, key2, key3, key4
    ensures KeysOk(vs, 4, block) && |randArr[..]| == |a0| && Filled(randArr[..], a0, vs, 4, block, size, size)
  {
    hide Fill, VNext, VOutput, WordsOf, OutWords, Rest, Filled, Holds, Unchanged;
    var i := 0;
    ghost var cur;
    i, cur := RoundsOfFour(randArr, size, block, i, key1, key2, key3, key4, vs, 4, vs, a0);
    InvHalve(randArr[..], a0, vs, 4, cur, 4, block, size, i);
    i, cur := RoundsOfTwo(randArr, size, block, i, key1, key2, vs, 4, cur, a0);
    InvHalve(randArr[..], a0, vs, 4, cur, 2, block, size, i);
    i, cur := RoundsOfOne(randArr, size, block, i, key1, vs, 4, cur, a0);
    TailOfOne(randArr, size, block, i, key1, vs, 4, cur, a0);
  }
}
