// The xorshift generator of open-coroutine-queue/src/rand.rs.
module Rand {

  const TWO_TO_32 := 0x1_0000_0000

  datatype RngSeed = RngSeed(s: bv32, r: bv32)

  /** `RngSeed::from_u64`: high word and low word, the low word forced to be nonzero. */
  function FromU64(seed: bv64): (k: RngSeed)
    ensures k.r != 0
    ensures k.s as bv64 == seed >> 32
    ensures k.r as bv64 == if (seed & 0xFFFF_FFFF) == 0 then 1 else seed & 0xFFFF_FFFF
  {
    var one := ((seed >> 32) & 0xFFFF_FFFF) as bv32;
    var two := (seed & 0xFFFF_FFFF) as bv32;
    RngSeed(one, if two == 0 then 1 else two)
  }

  function Joined(high: bv64, low: bv64): bv64 {
    (high << 32) | low
  }

  lemma Halves(seed: bv64)
    ensures Joined(seed >> 32, seed & 0xFFFF_FFFF) == seed
  {
  }

  /** The two words put together again are the seed, where the 1 that replaced a zero counts as 0. */
  lemma SeedIsKept(seed: bv64)
    ensures var k := FromU64(seed);
            if seed & 0xFFFF_FFFF == 0 then k.r == 1 && Joined(k.s as bv64, 0) == seed
            else Joined(k.s as bv64, k.r as bv64) == seed
  {
    Halves(seed);
    hide Joined;
  }

  // The word operations of one step, named so that the proofs below can treat them as black boxes.

  function LeftXor(x: bv32): bv32 {
    x ^ (x << 17)
  }

  function RightXor(x: bv32): bv32 {
    x ^ (x >> 7)
  }

  function HighXor(x: bv32): bv32 {
    x ^ (x >> 16)
  }

  function Xor(x: bv32, y: bv32): bv32 {
    x ^ y
  }

  /** `wrapping_add` on 32-bit words. */
  function Add(x: bv32, y: bv32): bv32 {
    x + y
  }

  /** Inverse of `RightXor`: the geometric series truncated at 32 bits. */
  function RightUnxor(y: bv32): bv32 {
    y ^ (y >> 7) ^ (y >> 14) ^ (y >> 21) ^ (y >> 28)
  }

  /** One `fastrand` step: the old second word moves to the front and a mixed word follows it. */
  function Step(k: RngSeed): RngSeed {
    RngSeed(k.r, Xor(RightXor(LeftXor(k.s)), HighXor(k.r)))
  }

  function Output(k: RngSeed): bv32 {
    Add(k.r, Step(k).r)
  }

  function Unstep(k: RngSeed): RngSeed {
    RngSeed(LeftXor(RightUnxor(Xor(k.r, HighXor(k.s)))), k.s)
  }

  function Steps(k: RngSeed, n: nat): RngSeed
    decreases n
  {
    if n == 0 then k else Steps(Step(k), n - 1)
  }

  function Unsteps(k: RngSeed, n: nat): RngSeed
    decreases n
  {
    if n == 0 then k else Unstep(Unsteps(k, n - 1))
  }

  function Outputs(k: RngSeed, n: nat): seq<bv32>
    decreases n
  {
    if n == 0 then [] else [Output(k)] + Outputs(Step(k), n - 1)
  }

  lemma MixWord(x: bv32, y: bv32)
    ensures Xor(x ^ (x >> 7), y ^ (y >> 16)) == x ^ y ^ (x >> 7) ^ (y >> 16)
  {
  }

  /** The regrouped mix of `Step` is the source's `s1 ^ s0 ^ s1 >> 7 ^ s0 >> 16`. */
  lemma MixedWord(x: bv32, y: bv32)
    ensures Xor(RightXor(x), HighXor(y)) == x ^ y ^ (x >> 7) ^ (y >> 16)
  {
    hide Xor;
    MixWord(x, y);
  }

  lemma LeftXorInvolutive(x: bv32)
    ensures LeftXor(LeftXor(x)) == x
  {
  }

  lemma XorTwice(a: bv32, b: bv32)
    ensures Xor(a ^ b, b) == a
  {
  }

  lemma RightUnxorWord(x: bv32)
    ensures RightUnxor(x ^ (x >> 7)) == x
  {
  }

  lemma RightUnxorInverse(x: bv32)
    ensures RightUnxor(RightXor(x)) == x
  {
    hide RightUnxor;
    RightUnxorWord(x);
  }

  lemma RightXorWord(y: bv32)
    ensures RightXor(y ^ (y >> 7) ^ (y >> 14) ^ (y >> 21) ^ (y >> 28)) == y
  {
  }

  lemma RightXorInverse(y: bv32)
    ensures RightXor(RightUnxor(y)) == y
  {
    hide RightXor;
    RightXorWord(y);
  }

  lemma XorInverse(a: bv32, b: bv32)
    ensures Xor(Xor(a, b), b) == a
  {
    assert Xor(a, b) == a ^ b;
    XorTwice(a, b);
  }

  /** The step is a bijection of the 64-bit state: `Unstep` inverts it on both sides. */
  lemma StepIsBijective(k: RngSeed)
    ensures Unstep(Step(k)) == k
    ensures Step(Unstep(k)) == k
  {
    hide LeftXor, RightXor, HighXor, RightUnxor, Xor;
    XorInverse(RightXor(LeftXor(k.s)), HighXor(k.r));
    RightUnxorInverse(LeftXor(k.s));
    LeftXorInvolutive(k.s);
    var y := Xor(k.r, HighXor(k.s));
    LeftXorInvolutive(RightUnxor(y));
    RightXorInverse(y);
    XorInverse(k.r, HighXor(k.s));
  }

  lemma {:induction false} StepsAreBijective(k: RngSeed, n: nat)
    ensures Unsteps(Steps(k, n), n) == k
    ensures Steps(Unsteps(k, n), n) == k
    decreases n
  {
    if n > 0 {
      StepsAreBijective(Step(k), n - 1);
      StepIsBijective(k);
      StepsAreBijective(k, n - 1);
      StepIsBijective(Unsteps(k, n - 1));
    }
  }

  /** The all-zero state is absorbing, and only itself leads to it. */
  lemma ZeroIsIsolated(k: RngSeed)
    ensures Step(k) == RngSeed(0, 0) <==> k == RngSeed(0, 0)
  {
    assert Step(RngSeed(0, 0)) == RngSeed(0, 0);
    StepIsBijective(k);
    StepIsBijective(RngSeed(0, 0));
  }

  /** A generator seeded through `from_u64` is never in the absorbing state, however long it runs. */
  lemma {:induction false} NeverAbsorbed(k: RngSeed, n: nat)
    requires k != RngSeed(0, 0)
    ensures Steps(k, n) != RngSeed(0, 0)
    decreases n
  {
    if n > 0 {
      ZeroIsIsolated(k);
      NeverAbsorbed(Step(k), n - 1);
    }
  }

  /** `RngSeedGenerator::next_seed`: two outputs of the generator, paired. */
  function NextSeed(k: RngSeed): RngSeed {
    RngSeed(Output(k), Output(Step(k)))
  }

  function Neg(x: bv32): bv32 {
    0 - x
  }

  lemma SumIsZero(x: bv32, y: bv32)
    ensures x + y == 0 <==> y == 0 - x
  {
  }

  lemma AddIsZero(x: bv32, y: bv32)
    ensures Add(x, y) == 0 <==> y == Neg(x)
  {
    assert Add(x, y) == x + y && Neg(x) == 0 - x;
    hide Add, Neg;
    SumIsZero(x, y);
  }

  lemma NegNeg(x: bv32)
    ensures Neg(Neg(x)) == x
  {
  }

  /** The generator states whose next two outputs are both 0; the second word decides. */
  predicate Absorbing(k: RngSeed) {
    && k == Unstep(RngSeed(k.r, Neg(k.r)))
    && Xor(RightXor(LeftXor(k.r)), HighXor(Neg(k.r))) == k.r
  }

  /**
   * `next_seed` goes through `from_pair`, which has no zero check: it produces the absorbing seed if
   * and only if the generator is in one of the states above.
   */
  lemma NextSeedAbsorbedIff(k: RngSeed)
    ensures NextSeed(k) == RngSeed(0, 0) <==> Absorbing(k)
  {
    StepIsBijective(k);
    StepIsBijective(RngSeed(k.r, Neg(k.r)));
    AddIsZero(k.r, Step(k).r);
    AddIsZero(Step(k).r, Step(Step(k)).r);
    NegNeg(k.r);
    hide LeftXor, RightXor, HighXor, Xor, Unstep, Add, Neg;
  }

  /** Such a state, reached by seeding: the queue built from its next seed always draws 0. */
  lemma NextSeedCanBeAbsorbed()
    ensures var k := FromU64(0xad33a998_5135579b);
            k == RngSeed(0xad33a998, 0x5135579b) && NextSeed(k) == RngSeed(0, 0)
  {
    var k := RngSeed(0xad33a998, 0x5135579b);
    assert Step(k).r == 0xaecaa865;
  }

  lemma SeededNeverAbsorbed(seed: bv64, n: nat)
    ensures Steps(FromU64(seed), n) != RngSeed(0, 0)
  {
    NeverAbsorbed(FromU64(seed), n);
  }

  lemma MulMonotone(x: nat, y: nat, n: nat)
    requires x <= y
    ensures x * n <= y * n
  {
  }

  lemma ScaledBelow(x: nat, n: nat)
    requires x < TWO_TO_32 && 0 < n
    ensures 0 <= x * n / TWO_TO_32 < n
  {
    MulMonotone(x, TWO_TO_32 - 1, n);
    var q := x * n / TWO_TO_32;
    assert q * TWO_TO_32 <= x * n < n * TWO_TO_32;
  }

  function Value(x: bv32): (v: nat)
    ensures v < TWO_TO_32
  {
    x as nat
  }

  /** Lemire's reduction of a 32-bit word: the high word of the 64-bit product. */
  function Scaled(x: nat, n: nat): (y: nat)
    requires x < TWO_TO_32
    ensures 0 < n ==> y < n
    ensures n == 0 ==> y == 0
  {
    if n == 0 then 0 else ScaledBelow(x, n); x * n / TWO_TO_32
  }

  /** The least output that is scaled to `y` or more. */
  function LeastFor(y: nat, n: nat): nat
    requires 0 < n
  {
    (y * TWO_TO_32 + (n - 1)) / n
  }

  lemma DivBetween(a: nat, b: nat, q: nat)
    requires 0 < b && q * b <= a < (q + 1) * b
    ensures a / b == q
  {
    var d := a / b;
    assert d * b <= a < (d + 1) * b;
    if d < q {
      MulMonotone(d + 1, q, b);
    } else if q < d {
      MulMonotone(q + 1, d, b);
    }
  }

  lemma LeastForIs(y: nat, n: nat, x: nat)
    requires 0 < n
    ensures y * TWO_TO_32 <= x * n <==> LeastFor(y, n) <= x
  {
    var a := y * TWO_TO_32;
    var d := (a + (n - 1)) / n;
    assert d * n <= a + (n - 1) < (d + 1) * n;
    if d <= x {
      MulMonotone(d, x, n);
    } else {
      MulMonotone(x + 1, d, n);
      assert (x + 1) * n == x * n + n;
    }
  }

  /** The outputs of the generator are cut into consecutive intervals, one for each value, in order. */
  lemma ScaledIff(x: nat, n: nat, y: nat)
    requires x < TWO_TO_32 && 0 < n
    ensures Scaled(x, n) == y <==> LeastFor(y, n) <= x < LeastFor(y + 1, n)
  {
    LeastForIs(y, n, x);
    LeastForIs(y + 1, n, x);
    var q := x * n / TWO_TO_32;
    assert q * TWO_TO_32 <= x * n < (q + 1) * TWO_TO_32;
  }

  /** The quotient of a sum is the sum of the quotients, or one more. */
  lemma QuotientOfSum(a: nat, b: nat, n: nat, d: nat, e: nat)
    requires 0 < n && d * n <= a < (d + 1) * n && e * n <= b < (e + 1) * n
    ensures d + e <= (a + b) / n <= d + e + 1
  {
    assert (d + e) * n == d * n + e * n;
    assert (d + e + 1) * n == (d + e) * n + n && (d + e + 2) * n == (d + e + 1) * n + n;
    DivBetween(a + b, n, if a + b < (d + e + 1) * n then d + e else d + e + 1);
  }

  /** Those intervals cover all outputs, and their sizes differ by at most one. */
  lemma EvenShares(n: nat, y: nat)
    requires 0 < n
    ensures LeastFor(0, n) == 0 && LeastFor(n, n) == TWO_TO_32
    ensures TWO_TO_32 / n <= LeastFor(y + 1, n) - LeastFor(y, n) <= TWO_TO_32 / n + 1
  {
    DivBetween(n - 1, n, 0);
    DivBetween(n * TWO_TO_32 + (n - 1), n, TWO_TO_32);
    ShareOf(n, y * TWO_TO_32 + (n - 1));
  }

  lemma ShareOf(n: nat, a: nat)
    requires 0 < n
    ensures TWO_TO_32 / n <= (a + TWO_TO_32) / n - a / n <= TWO_TO_32 / n + 1
  {
    var d, e := a / n, TWO_TO_32 / n;
    Quotient(a, n);
    Quotient(TWO_TO_32, n);
    QuotientOfSum(a, TWO_TO_32, n, d, e);
  }

  lemma Quotient(a: nat, n: nat)
    requires 0 < n
    ensures a / n * n <= a < (a / n + 1) * n
  {
  }

  class FastRand {
    var one: bv32
    var two: bv32

    function State(): RngSeed
      reads this
    {
      RngSeed(one, two)
    }

    constructor (seed: RngSeed)
      ensures State() == seed
    {
      one, two := seed.s, seed.r;
    }

    /** The state is exchanged for `seed`, and the seed returned names the old state. */
    method ReplaceSeed(seed: RngSeed) returns (before: RngSeed)
      modifies this
      ensures before == old(State()) && State() == seed
    {
      before := RngSeed(one, two);
      one := seed.s;
      two := seed.r;
    }

    method Fastrand() returns (x: bv32)
      modifies this
      ensures State() == Step(old(State())) && x == Output(old(State()))
      ensures one == old(two) && x == Add(old(two), two)
    {
      hide LeftXor, RightXor, HighXor, Xor, Add;
      var s1 := one;
      var s0 := two;
      s1 := LeftXor(s1);
      s1 := Xor(RightXor(s1), HighXor(s0));
      one := s0;
      two := s1;
      x := Add(s0, s1);
    }

    method FastrandN(n: nat) returns (x: nat)
      requires n < TWO_TO_32
      modifies this
      ensures State() == Step(old(State()))
      ensures x == Scaled(Value(Output(old(State()))), n)
      ensures 0 < n ==> x < n
      ensures n == 0 ==> x == 0
    {
      hide Step, Output, Value;
      var y := Fastrand();
      x := Scaled(Value(y), n);
    }

    method Draw(n: nat) returns (xs: seq<bv32>)
      modifies this
      ensures xs == Outputs(old(State()), n) && State() == Steps(old(State()), n)
    {
      xs := [];
      var i := 0;
      while i < n
        invariant i <= n && |xs| == i
        invariant Outputs(old(State()), n) == xs + Outputs(State(), n - i)
        invariant Steps(old(State()), n) == Steps(State(), n - i)
      {
        var x := Fastrand();
        xs := xs + [x];
        i := i + 1;
      }
    }

    /** Drawing from another seed and putting the returned seed back resumes the old sequence. */
    method ReplaceAndRestore(seed: RngSeed, m: nat, n: nat) returns (xs: seq<bv32>, ys: seq<bv32>)
      modifies this
      ensures xs == Outputs(seed, m)
      ensures ys == Outputs(old(State()), n) && State() == Steps(old(State()), n)
    {
      var before := ReplaceSeed(seed);
      xs := Draw(m);
      var _ := ReplaceSeed(before);
      ys := Draw(n);
    }
  }
}
