/** The jitter generator (src/core/rng.rs) and the atomic core that shares it
    (src/core/tokio.rs).

    A u64 is a `bv64`, whose `+` and `*` already wrap.  The lemmas below come in
    two layers: one-operation facts stated on literal bit-vector expressions, and
    facts about the named rounds, which only use equality. */
module SplitMix {
  import opened Common

  // --- The mixer and its inverse, round by round -------------------------------

  function Shift30(z: bv64): bv64 { z ^ (z >> 30) }
  function Shift27(z: bv64): bv64 { z ^ (z >> 27) }
  function Shift31(z: bv64): bv64 { z ^ (z >> 31) }
  function Mul1(z: bv64): bv64 { z * 0xBF58_476D_1CE4_E5B9 }
  function Mul2(z: bv64): bv64 { z * 0x94D0_49BB_1331_11EB }

  function Unshift30(y: bv64): bv64 { y ^ (y >> 30) ^ (y >> 60) }
  function Unshift27(y: bv64): bv64 { y ^ (y >> 27) ^ (y >> 54) }
  function Unshift31(y: bv64): bv64 { y ^ (y >> 31) ^ (y >> 62) }
  function Unmul1(y: bv64): bv64 { y * 0x96DE_1B17_3F11_9089 }
  function Unmul2(y: bv64): bv64 { y * 0x3196_42B2_D24D_8EC3 }

  /** The output function: `z` runs through xor-shift-multiply twice, then one more xor-shift. */
  function Mix(z: bv64): bv64 {
    Shift31(Mul2(Shift27(Mul1(Shift30(z)))))
  }

  function Unmix(y: bv64): bv64 {
    Unshift30(Unmul1(Unshift27(Unmul2(Unshift31(y)))))
  }

  lemma LiteralRounds(x: bv64)
    ensures Unshift30(x ^ (x >> 30)) == x && Unshift27(x ^ (x >> 27)) == x && Unshift31(x ^ (x >> 31)) == x
    ensures Unmul1(x * 0xBF58_476D_1CE4_E5B9) == x && Unmul2(x * 0x94D0_49BB_1331_11EB) == x
  {}

  lemma LiteralRoundsBack(y: bv64)
    ensures Shift30(y ^ (y >> 30) ^ (y >> 60)) == y
    ensures Shift27(y ^ (y >> 27) ^ (y >> 54)) == y
    ensures Shift31(y ^ (y >> 31) ^ (y >> 62)) == y
    ensures Mul1(y * 0x96DE_1B17_3F11_9089) == y && Mul2(y * 0x3196_42B2_D24D_8EC3) == y
  {}

  lemma {:induction false} RoundsUndone(x: bv64)
    ensures Unshift30(Shift30(x)) == x && Unshift27(Shift27(x)) == x && Unshift31(Shift31(x)) == x
    ensures Unmul1(Mul1(x)) == x && Unmul2(Mul2(x)) == x
  {
    LiteralRounds(x);
  }

  lemma {:induction false} RoundsRedone(y: bv64)
    ensures Shift30(Unshift30(y)) == y && Shift27(Unshift27(y)) == y && Shift31(Unshift31(y)) == y
    ensures Mul1(Unmul1(y)) == y && Mul2(Unmul2(y)) == y
  {
    LiteralRoundsBack(y);
  }

  lemma {:induction false} UnmixAfterMix(z: bv64)
    ensures Unmix(Mix(z)) == z
  {
    RoundsUndone(z);
    RoundsUndone(Shift30(z));
    RoundsUndone(Mul1(Shift30(z)));
    RoundsUndone(Shift27(Mul1(Shift30(z))));
    RoundsUndone(Mul2(Shift27(Mul1(Shift30(z)))));
  }

  lemma {:induction false} MixAfterUnmix(y: bv64)
    ensures Mix(Unmix(y)) == y
  {
    RoundsRedone(y);
    RoundsRedone(Unshift31(y));
    RoundsRedone(Unmul2(Unshift31(y)));
    RoundsRedone(Unshift27(Unmul2(Unshift31(y))));
    RoundsRedone(Unmul1(Unshift27(Unmul2(Unshift31(y)))));
  }

  /** The mixer is a permutation of the 64-bit words: no two states share an output
      and every word is the output of some state. */
  lemma {:induction false} MixIsBijective(z: bv64, w: bv64)
    ensures Mix(z) == Mix(w) <==> z == w
    ensures Mix(Unmix(z)) == z
  {
    UnmixAfterMix(z);
    UnmixAfterMix(w);
    MixAfterUnmix(z);
  }

  // --- The stream of one seed --------------------------------------------------

  /** `wrapping_add` of the golden-ratio constant. */
  function Advance(s: bv64): bv64 { s + 0x9E37_79B9_7F4A_7C15 }

  /** The state after `n` calls. */
  function StateAfter(seed: bv64, n: nat): bv64 {
    if n == 0 then seed else Advance(StateAfter(seed, n - 1))
  }

  /** What call number `n`, counted from 0, returns. */
  function Output(seed: bv64, n: nat): bv64 {
    Mix(StateAfter(seed, n + 1))
  }

  // --- Counting in 64-bit words: 1 has order exactly 2^64 ------------------------

  function Inc(c: bv64): bv64 { c + 1 }
  function Add(x: bv64, y: bv64): bv64 { x + y }

  /** `n` as a word, counted up one at a time. */
  function Count(n: nat): bv64 {
    if n == 0 then 0 else Inc(Count(n - 1))
  }

  /** The word with bit `k` set, or zero past the top. */
  function Bit(k: nat): bv64 {
    if k == 0 then 1 else Add(Bit(k - 1), Bit(k - 1))
  }

  lemma LiteralAdd(x: bv64, y: bv64)
    ensures Inc(x + y) == x + (y + 1)
    ensures Add(x, y + 1) == x + (y + 1)
    ensures Add(x, 0) == x
  {}

  lemma {:induction false} AddInc(x: bv64, y: bv64)
    ensures Add(x, Inc(y)) == Inc(Add(x, y))
    ensures Add(x, 0) == x
  {
    LiteralAdd(x, y);
  }

  lemma {:induction false} CountAdds(a: nat, b: nat)
    ensures Count(a + b) == Add(Count(a), Count(b))
  {
    if b == 0 {
      AddInc(Count(a), 0);
    } else {
      CountAdds(a, b - 1);
      AddInc(Count(a), Count(b - 1));
    }
  }

  lemma {:induction false} CountOfPow2(k: nat)
    ensures Count(Pow2(k)) == Bit(k)
  {
    if k == 0 {
      assert Count(1) == Inc(Count(0));
    } else {
      CountOfPow2(k - 1);
      CountAdds(Pow2(k - 1), Pow2(k - 1));
    }
  }

  /** Once a count is zero, so are the counts of its multiples. */
  lemma {:induction false} CountOfMultiple(a: nat, n: nat)
    requires Count(a) == 0
    ensures Count(n * a) == 0
  {
    if n > 0 {
      CountOfMultiple(a, n - 1);
      CountAdds((n - 1) * a, a);
      assert n * a == (n - 1) * a + a;
      assert Add(0, 0) == 0;
    }
  }

  lemma BitNext(k: nat, b: bv64)
    requires Bit(k) == b
    ensures Bit(k + 1) == b + b
  {}

  lemma {:induction false} Bits16()
    ensures Bit(16) == 0x10000
  {
    BitNext(0, 0x1); BitNext(1, 0x2); BitNext(2, 0x4); BitNext(3, 0x8); BitNext(4, 0x10); BitNext(5, 0x20);
    BitNext(6, 0x40); BitNext(7, 0x80); BitNext(8, 0x100); BitNext(9, 0x200); BitNext(10, 0x400); BitNext(11, 0x800);
    BitNext(12, 0x1000); BitNext(13, 0x2000); BitNext(14, 0x4000); BitNext(15, 0x8000);
  }

  lemma {:induction false} Bits32()
    requires Bit(16) == 0x10000
    ensures Bit(32) == 0x100000000
  {
    BitNext(16, 0x10000); BitNext(17, 0x20000); BitNext(18, 0x40000); BitNext(19, 0x80000); BitNext(20, 0x100000);
    BitNext(21, 0x200000); BitNext(22, 0x400000); BitNext(23, 0x800000); BitNext(24, 0x1000000);
    BitNext(25, 0x2000000); BitNext(26, 0x4000000); BitNext(27, 0x8000000); BitNext(28, 0x10000000);
    BitNext(29, 0x20000000); BitNext(30, 0x40000000); BitNext(31, 0x80000000);
  }

  lemma {:induction false} Bits48()
    requires Bit(32) == 0x100000000
    ensures Bit(48) == 0x1000000000000
  {
    BitNext(32, 0x100000000); BitNext(33, 0x200000000); BitNext(34, 0x400000000); BitNext(35, 0x800000000);
    BitNext(36, 0x1000000000); BitNext(37, 0x2000000000); BitNext(38, 0x4000000000); BitNext(39, 0x8000000000);
    BitNext(40, 0x10000000000); BitNext(41, 0x20000000000); BitNext(42, 0x40000000000); BitNext(43, 0x80000000000);
    BitNext(44, 0x100000000000); BitNext(45, 0x200000000000); BitNext(46, 0x400000000000);
    BitNext(47, 0x800000000000);
  }

  lemma {:induction false} Bits64()
    requires Bit(48) == 0x1000000000000
    ensures Bit(63) == 0x8000_0000_0000_0000 && Bit(64) == 0
  {
    BitNext(48, 0x1000000000000); BitNext(49, 0x2000000000000); BitNext(50, 0x4000000000000);
    BitNext(51, 0x8000000000000); BitNext(52, 0x10000000000000); BitNext(53, 0x20000000000000);
    BitNext(54, 0x40000000000000); BitNext(55, 0x80000000000000); BitNext(56, 0x100000000000000);
    BitNext(57, 0x200000000000000); BitNext(58, 0x400000000000000); BitNext(59, 0x800000000000000);
    BitNext(60, 0x1000000000000000); BitNext(61, 0x2000000000000000); BitNext(62, 0x4000000000000000);
    BitNext(63, 0x8000000000000000);
  }

  lemma {:induction false} Pow2By8(k: nat)
    ensures Pow2(k + 8) == 256 * Pow2(k)
  {
    assert Pow2(k + 8) == 4 * Pow2(k + 6);
    assert Pow2(k + 6) == 4 * Pow2(k + 4);
    assert Pow2(k + 4) == 4 * Pow2(k + 2);
    assert Pow2(k + 2) == 4 * Pow2(k);
  }

  lemma {:induction false} Pow2Of64()
    ensures Pow2(64) == 0x1_0000_0000_0000_0000
  {
    Pow2By8(0); Pow2By8(8); Pow2By8(16); Pow2By8(24); Pow2By8(32); Pow2By8(40); Pow2By8(48); Pow2By8(56);
  }

  /** Counting to 2^63 leaves the top bit set; counting to 2^64 comes back to zero. */
  lemma {:induction false} TopCounts()
    ensures Count(Pow2(63)) != 0 && Count(Pow2(64)) == 0
  {
    Bits16(); Bits32(); Bits48(); Bits64();
    CountOfPow2(63);
    CountOfPow2(64);
  }

  /** Every positive number below 2^e is an odd multiple of a smaller power of two. */
  lemma {:induction false} OddPart(d: nat, e: nat) returns (t: nat, q: nat)
    requires 0 < d < Pow2(e)
    ensures t < e && d == Pow2(t) * (2 * q + 1)
    decreases d
  {
    if d % 2 == 1 {
      t, q := 0, d / 2;
    } else {
      var t', q' := OddPart(d / 2, e - 1);
      t, q := t' + 1, q';
      assert Pow2(t) * (2 * q + 1) == 2 * (Pow2(t') * (2 * q + 1));
    }
  }

  lemma {:induction false} Pow2Adds(a: nat, b: nat)
    ensures Pow2(a) * Pow2(b) == Pow2(a + b)
  {
    if a > 0 {
      Pow2Adds(a - 1, b);
      assert Pow2(a) * Pow2(b) == 2 * (Pow2(a - 1) * Pow2(b));
    }
  }

  lemma {:induction false} ScaleProduct(a: nat, b: nat, p: nat, q: nat)
    requires a * b == p
    ensures a * (b * (2 * q + 1)) == p + q * (2 * p)
  {
    calc {
      a * (b * (2 * q + 1));
      (a * b) * (2 * q + 1);
      p * (2 * q) + p;
      p + q * (2 * p);
    }
  }

  lemma {:induction false} ScaledOdd(t: nat, q: nat)
    requires t <= 63
    ensures Pow2(63 - t) * (Pow2(t) * (2 * q + 1)) == Pow2(63) + q * Pow2(64)
  {
    Pow2Adds(63 - t, t);
    ScaleProduct(Pow2(63 - t), Pow2(t), Pow2(63), q);
  }

  lemma {:induction false} CountOfOdd(a: nat, b: nat, q: nat)
    requires Count(a) != 0 && Count(b) == 0
    ensures Count(a + q * b) != 0
  {
    CountOfMultiple(b, q);
    CountAdds(a, q * b);
    AddInc(Count(a), 0);
  }

  /** No count below 2^64 wraps to zero: scaled up to an odd multiple of 2^63 it would
      otherwise leave the top bit set. */
  lemma {:induction false} CountNonzero(d: nat)
    requires 0 < d < 0x1_0000_0000_0000_0000
    ensures Count(d) != 0
  {
    Pow2Of64();
    var t, q := OddPart(d, 64);
    ScaledOdd(t, q);
    TopCounts();
    CountOfOdd(Pow2(63), Pow2(64), q);
    if Count(d) == 0 {
      CountOfMultiple(d, Pow2(63 - t));
      assert false;
    }
  }

  /** How many steps lead from `s` to `t`: the difference times the inverse of the increment. */
  function Steps(t: bv64, s: bv64): bv64 { (t - s) * 0xF1DE_83E1_9937_733D }

  lemma LiteralLinear(s: bv64, c: bv64)
    ensures Advance(s + c * 0x9E37_79B9_7F4A_7C15) == s + (c + 1) * 0x9E37_79B9_7F4A_7C15
    ensures Steps(s + c * 0x9E37_79B9_7F4A_7C15, s) == c
  {}

  function Offset(s: bv64, c: bv64): bv64 { s + c * 0x9E37_79B9_7F4A_7C15 }

  lemma {:induction false} OffsetSteps(s: bv64, c: bv64)
    ensures Advance(Offset(s, c)) == Offset(s, Inc(c))
    ensures Steps(Offset(s, c), s) == c
  {
    LiteralLinear(s, c);
  }

  lemma OffsetZero(s: bv64)
    ensures Offset(s, 0) == s
  {}

  lemma {:induction false} OffsetFixed(s: bv64, c: bv64)
    requires Offset(s, c) == s
    ensures c == 0
  {
    OffsetSteps(s, c);
    OffsetSteps(s, 0);
    OffsetZero(s);
  }

  lemma {:induction false} StateIsOffset(seed: bv64, n: nat)
    ensures StateAfter(seed, n) == Offset(seed, Count(n))
  {
    if n == 0 {
      OffsetZero(seed);
    } else {
      StateIsOffset(seed, n - 1);
      OffsetSteps(seed, Count(n - 1));
    }
  }

  lemma {:induction false} StateAfterAdds(seed: bv64, i: nat, d: nat)
    ensures StateAfter(seed, i + d) == StateAfter(StateAfter(seed, i), d)
  {
    if d > 0 {
      StateAfterAdds(seed, i, d - 1);
    }
  }

  /** The state does not repeat within 2^64 steps. */
  lemma {:induction false} StatesDistinct(seed: bv64, i: nat, j: nat)
    requires i < j <= i + 0xFFFF_FFFF_FFFF_FFFF
    ensures StateAfter(seed, i) != StateAfter(seed, j)
  {
    var s := StateAfter(seed, i);
    StateAfterAdds(seed, i, j - i);
    StateIsOffset(s, j - i);
    CountNonzero(j - i);
    if StateAfter(seed, i) == StateAfter(seed, j) {
      OffsetFixed(s, Count(j - i));
      assert false;
    }
  }

  // --- Results -----------------------------------------------------------------

  lemma Shift30Is(z: bv64, r: bv64)
    requires r == z ^ (z >> 30)
    ensures Shift30(z) == r
  {}

  lemma Shift27Is(z: bv64, r: bv64)
    requires r == z ^ (z >> 27)
    ensures Shift27(z) == r
  {}

  lemma Shift31Is(z: bv64, r: bv64)
    requires r == z ^ (z >> 31)
    ensures Shift31(z) == r
  {}

  lemma Mul1Is(z: bv64, r: bv64)
    requires r == z * 0xBF58_476D_1CE4_E5B9
    ensures Mul1(z) == r
  {}

  lemma Mul2Is(z: bv64, r: bv64)
    requires r == z * 0x94D0_49BB_1331_11EB
    ensures Mul2(z) == r
  {}

  /** The mixer, step by step: xor-shift, multiply, xor-shift, multiply, xor-shift. */
  lemma {:induction false} MixStepByStep(z: bv64, a: bv64, b: bv64, c: bv64, d: bv64, r: bv64)
    requires a == z ^ (z >> 30) && b == a * 0xBF58_476D_1CE4_E5B9
    requires c == b ^ (b >> 27) && d == c * 0x94D0_49BB_1331_11EB
    requires r == d ^ (d >> 31)
    ensures Mix(z) == r
  {
    hide Shift30, Shift27, Shift31, Mul1, Mul2;
    Shift30Is(z, a);
    Mul1Is(a, b);
    Shift27Is(b, c);
    Mul2Is(c, d);
    Shift31Is(d, r);
  }

  lemma {:induction false} KnownStates()
    ensures StateAfter(0, 1) == 0x9E37_79B9_7F4A_7C15
    ensures StateAfter(0, 2) == 0x3C6E_F372_FE94_F82A
    ensures StateAfter(0, 3) == 0xDAA6_6D2C_7DDF_743F
  {
    assert StateAfter(0, 0) == 0;
    assert StateAfter(0, 1) == Advance(0);
    assert StateAfter(0, 2) == Advance(0x9E37_79B9_7F4A_7C15);
  }

  /** The generator's published first outputs for seed 0. */
  lemma {:induction false} KnownOutputs()
    ensures Output(0, 0) == 0xE220_A839_7B1D_CDAF
    ensures Output(0, 1) == 0x6E78_9E6A_A1B9_65F4
    ensures Output(0, 2) == 0x06C4_5D18_8009_454F
  {
    hide Mix;
    KnownStates();
    MixStepByStep(0x9E37_79B9_7F4A_7C15, 0x9E37_79BB_0797_9AF0, 0x6F68_261B_57E7_A770,
      0x6F68_2616_BAE3_641A, 0xE220_A838_BF5C_9DDE, 0xE220_A839_7B1D_CDAF);
    MixStepByStep(0x3C6E_F372_FE94_F82A, 0x3C6E_F372_0F2F_35E1, 0x2A94_FCBF_CCB4_3499,
      0x2A94_FCBA_9E2B_A360, 0x6E78_9E6A_7D48_5920, 0x6E78_9E6A_A1B9_65F4);
    MixStepByStep(0xDAA6_6D2C_7DDF_743F, 0xDAA6_6D2F_1746_C08E, 0xF1C3_DD63_22D8_2C9E,
      0xF1C3_DD7D_1AA3_80FA, 0x06C4_5D18_8D81_FF7E, 0x06C4_5D18_8009_454F);
  }

  /** Each later output is the first one of the state before it. */
  lemma {:induction false} NextOutput(seed: bv64, n: nat)
    ensures Output(seed, n) == Output(StateAfter(seed, n), 0)
    ensures StateAfter(seed, n + 1) == StateAfter(seed, n) + 0x9E37_79B9_7F4A_7C15
  {
    var s := StateAfter(seed, n);
    assert StateAfter(s, 1) == Advance(StateAfter(s, 0));
  }

  /** The first 2^64 outputs of one seed are pairwise different. */
  lemma {:induction false} OutputsDistinct(seed: bv64, i: nat, j: nat)
    requires i < j < 0x1_0000_0000_0000_0000
    ensures Output(seed, i) != Output(seed, j)
  {
    StatesDistinct(seed, i + 1, j + 1);
    MixIsBijective(StateAfter(seed, i + 1), StateAfter(seed, j + 1));
  }

  lemma AdvanceInjective(s: bv64, t: bv64)
    requires Advance(s) == Advance(t)
    ensures s == t
  {}

  lemma {:induction false} StatesAgree(s: bv64, t: bv64, n: nat)
    requires StateAfter(s, n) == StateAfter(t, n)
    ensures s == t
  {
    if n > 0 {
      AdvanceInjective(StateAfter(s, n - 1), StateAfter(t, n - 1));
      StatesAgree(s, t, n - 1);
    }
  }

  /** Two seeds that agree on any one output are the same seed. */
  lemma {:induction false} SeedsDiffer(s: bv64, t: bv64, n: nat)
    ensures Output(s, n) == Output(t, n) <==> s == t
  {
    MixIsBijective(StateAfter(s, n + 1), StateAfter(t, n + 1));
    if StateAfter(s, n + 1) == StateAfter(t, n + 1) {
      StatesAgree(s, t, n + 1);
    }
  }

  // --- The generator and the shared core as objects -------------------------------

  /** `SplitMix64`: one mutable word. */
  class SplitMix64 {
    var state: bv64

    constructor (seed: bv64)
      ensures state == seed
    {
      state := seed;
    }

    method NextU64() returns (z: bv64)
      modifies this
      ensures state == StateAfter(old(state), 1)
      ensures z == Output(old(state), 0)
    {
      state := Advance(state);
      z := state;
      z := Mul1(Shift30(z));
      z := Mul2(Shift27(z));
      z := Shift31(z);
    }
  }

  /** `TokioCore`: the word is advanced by an atomic `fetch_add`, and each caller mixes
      the value it fetched in a generator of its own.  The ghost fields say how many
      fetches the word has seen since it held the seed. */
  class TokioCore {
    var rngState: bv64
    ghost var seed: bv64
    ghost var fetches: nat

    ghost predicate Valid()
      reads this
    {
      rngState == StateAfter(seed, fetches)
    }

    constructor (seed: bv64)
      ensures Valid() && this.seed == seed && fetches == 0
    {
      rngState := seed;
      this.seed := seed;
      fetches := 0;
    }

    /** The atomic step.  Fetch number k hands out the state from which output k is mixed. */
    method FetchAdd() returns (s: bv64)
      requires Valid()
      modifies this
      ensures Valid() && seed == old(seed) && fetches == old(fetches) + 1
      ensures s == StateAfter(seed, old(fetches))
    {
      s := rngState;
      rngState := Advance(rngState);
      fetches := fetches + 1;
    }

    /** One draw: whatever the order of the fetches, fetch number k returns output k of
        the sequential stream. */
    method NextU64() returns (z: bv64)
      requires Valid()
      modifies this
      ensures Valid() && seed == old(seed) && fetches == old(fetches) + 1
      ensures z == Output(seed, old(fetches))
    {
      var s := FetchAdd();
      var local := new SplitMix64(s);
      z := local.NextU64();
      StateAfterAdds(seed, old(fetches), 1);
    }
  }
}
