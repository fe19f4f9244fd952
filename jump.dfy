/**
 * The scalar step on a pair of 64-bit words and the jump used to seed the lanes
 * of the vector engines. The jump accumulates, over the 128 bits of a fixed jump
 * polynomial, the XOR of the iterates of the state selected by the set bits. The
 * 256-bit and the 512-bit engine carry identical copies of both routines; they are
 * modelled once here.
 */
module Jump {
  import opened Words
  import opened Xorshift128Plus

  /** The jump polynomial: bit `k` of `JUMP[0] + 2^64 * JUMP[1]` selects iterate `k`. */
  const JUMP: seq<bv64> := [0x8a5cd789635d2dff, 0x121fd2155c472f96]

  /** `w & (1 << b)` is nonzero. */
  predicate BitSet(w: bv64, b: nat)
    requires b < 64
  {
    w & (1 << b) != 0
  }

  /** Bit `k` of the 128-bit jump polynomial. */
  predicate JumpBit(k: nat)
    requires k < 128
  {
    BitSet(JUMP[k / 64], k % 64)
  }

  /** The XOR of the iterates `StepN(s, k)`, for every `k < n` whose jump bit is set. */
  function JumpAcc(s: State, n: nat): State
    requires n <= 128
  {
    if n == 0 then Zero
    else if JumpBit(n - 1) then XorState(JumpAcc(s, n - 1), StepN(s, n - 1))
    else JumpAcc(s, n - 1)
  }

  /** The state a jump produces from `s`. */
  function JumpOf(s: State): State
  {
    JumpAcc(s, 128)
  }

  /** `JumpOf` applied `k` times: the seed of lane `k`. */
  function JumpPow(s: State, k: nat): State
  {
    if k == 0 then s else JumpOf(JumpPow(s, k - 1))
  }

  /** One more jump. */
  lemma JumpPowStep(s: State, k: nat)
    ensures JumpPow(s, 0) == s
    ensures JumpPow(s, k + 1) == JumpOf(JumpPow(s, k))
  {
    hide JumpOf;
  }

  /**
   * One scalar step on the words behind two pointers: `(*ps0, *ps1)` play the roles
   * of `seed1` and `seed2` of a scalar key.
   */
  method OnKeys(ps0: bv64, ps1: bv64) returns (ps0': bv64, ps1': bv64)
    ensures State(ps0', ps1') == Next(State(ps0, ps1))
  {
    var s1 := ps0;
    var s0 := ps1;
    ps0' := s0;
    s1 := ScrambleHigh(s1);
    ps1' := Combine(s1, s0);
  }

  /**
   * The inner loop of the jump over the 64 bits of word `i` of the polynomial: XOR the
   * current iterate into the accumulator when the bit is set, then step the iterate.
   */
  method JumpWord(ghost start: State, i: nat, a0: bv64, b0: bv64, acc0: bv64, acc1: bv64)
    returns (a: bv64, b: bv64, s0: bv64, s1: bv64)
    requires i < 2
    requires State(acc0, acc1) == JumpAcc(start, 64 * i)
    requires State(a0, b0) == StepN(start, 64 * i)
    ensures State(s0, s1) == JumpAcc(start, 64 * i + 64)
    ensures State(a, b) == StepN(start, 64 * i + 64)
  {
    hide Next, Xor64, BitSet, JumpAcc, JumpBit;
    a, b, s0, s1 := a0, b0, acc0, acc1;
    var bit := 0;
    while bit < 64
      invariant 0 <= bit <= 64
      invariant State(s0, s1) == JumpAcc(start, 64 * i + bit)
      invariant State(a, b) == StepN(start, 64 * i + bit)
    {
      JumpAccStep(start, i, bit);
      if BitSet(JUMP[i], bit) {
        s0 := Xor64(s0, a);
        s1 := Xor64(s1, b);
      }
      a, b := OnKeys(a, b);
      bit := bit + 1;
    }
  }

  /** The jump: the 64 bits of the first word of the polynomial, then those of the second. */
  method JumpOnKeys(in1: bv64, in2: bv64) returns (output1: bv64, output2: bv64)
    ensures State(output1, output2) == JumpOf(State(in1, in2))
  {
    hide JumpAcc, StepN, Next, BitSet, JumpBit, Xor64, Combine, ScrambleHigh;
    ghost var start := State(in1, in2);
    JumpStart(start);
    var a, b := in1, in2;
    var s0: bv64 := 0;
    var s1: bv64 := 0;
    var i := 0;
    while i < 2
      invariant 0 <= i <= 2
      invariant State(s0, s1) == JumpAcc(start, 64 * i)
      invariant State(a, b) == StepN(start, 64 * i)
    {
      a, b, s0, s1 := JumpWord(start, i, a, b, s0, s1);
      i := i + 1;
    }
    output1 := s0;
    output2 := s1;
  }

  /** Before the first bit the sum is empty and the iterate is the start. */
  lemma JumpStart(s: State)
    ensures JumpAcc(s, 0) == Zero && StepN(s, 0) == s
  {}

  /** Bit `bit` of word `i` of the polynomial decides whether iterate `64 i + bit` joins the sum. */
  lemma JumpAccStep(s: State, i: nat, bit: nat)
    requires i < 2 && bit < 64
    ensures JumpAcc(s, 64 * i + bit + 1) ==
      if BitSet(JUMP[i], bit) then XorState(JumpAcc(s, 64 * i + bit), StepN(s, 64 * i + bit))
      else JumpAcc(s, 64 * i + bit)
  {
    assert (64 * i + bit) / 64 == i && (64 * i + bit) % 64 == bit;
  }

  /** Every prefix of the jump sum of the zero state is zero. */
  lemma {:induction false} JumpAccZero(n: nat)
    requires n <= 128
    ensures JumpAcc(Zero, n) == Zero
  {
    hide Next, StepN, BitSet, JumpBit, Xor64;
    if n > 0 {
      JumpAccZero(n - 1);
      ZeroIsAbsorbing(n - 1);
      XorStateZero(Zero);
    }
  }

  /** The jump maps the zero state to itself. */
  lemma JumpOfZero()
    ensures JumpOf(Zero) == Zero
  {
    hide JumpAcc;
    JumpAccZero(128);
  }

  /** Every prefix of the jump sum is XOR-linear in the starting state. */
  lemma {:induction false} JumpAccLinear(s: State, u: State, n: nat)
    requires n <= 128
    ensures JumpAcc(XorState(s, u), n) == XorState(JumpAcc(s, n), JumpAcc(u, n))
  {
    hide Next, StepN, BitSet, JumpBit, Xor64;
    if n == 0 {
      XorStateZero(Zero);
    } else {
      JumpAccLinear(s, u, n - 1);
      if JumpBit(n - 1) {
        StepNLinear(s, u, n - 1);
        XorStateRegroup(JumpAcc(s, n - 1), JumpAcc(u, n - 1), StepN(s, n - 1), StepN(u, n - 1));
      }
    }
  }

  /** The jump is XOR-linear. */
  lemma JumpOfLinear(s: State, u: State)
    ensures JumpOf(XorState(s, u)) == XorState(JumpOf(s), JumpOf(u))
  {
    hide JumpAcc;
    JumpAccLinear(s, u, 128);
  }

  /** Chained jumps from the zero state stay zero. */
  lemma {:induction false} JumpPowZero(k: nat)
    ensures JumpPow(Zero, k) == Zero
  {
    hide JumpAcc, JumpOf;
    if k > 0 {
      JumpPowZero(k - 1);
      JumpOfZero();
    }
  }
}
