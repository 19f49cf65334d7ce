/** The pseudorandom number generator: Schrage's method in 32-bit arithmetic that wraps around. */
module Schrage {
  import opened Basics

  const A: int := 16807
  const M: int := 2147483647
  const Q: int := 127773
  const R: int := 2836
  const TWO32: int := 0x1_0000_0000

  /** Conversion to an unsigned and to a signed 32-bit integer. */
  function ToUint32(x: int): (r: int)
    ensures 0 <= r < TWO32
  {
    x % TWO32
  }

  function ToInt32(x: int): (r: int)
    ensures -0x8000_0000 <= r < 0x8000_0000
  {
    if x % TWO32 < 0x8000_0000 then x % TWO32 else x % TWO32 - TWO32
  }

  predicate IsInt32(x: int) {
    -0x8000_0000 <= x < 0x8000_0000
  }

  /** The generator in exact arithmetic. */
  function Step(seed: int): (r: int)
    ensures 0 <= r < M
  {
    A * seed % M
  }

  /** `n` steps of the generator. */
  function Steps(seed: int, n: nat): int {
    if n == 0 then seed else Step(Steps(seed, n - 1))
  }

  function Power(b: int, n: nat): int {
    if n == 0 then 1 else b * Power(b, n - 1)
  }

  class ThreadContext {
    var randomSeed: int

    constructor ()
      ensures randomSeed == 0
    {
      randomSeed := 0;
    }

    /** `seed` is an unsigned number. */
    method SetRandomSeed(seed: int)
      requires 0 <= seed < TWO32
      modifies this
      ensures IsInt32(randomSeed) && ToUint32(randomSeed) == seed
    {
      randomSeed := ToInt32(seed);
    }

    /** The seed is divided as an unsigned number, and all arithmetic wraps around; for every 32-bit seed the
        result is nevertheless that of exact arithmetic on the unsigned seed. */
    method Pseudorand() returns (r: int)
      requires IsInt32(randomSeed)
      modifies this
      ensures r == randomSeed == Step(ToUint32(old(randomSeed))) && IsInt32(randomSeed)
    {
      var seed := randomSeed;
      var hi := ToUint32(seed) / Q;
      var lo := ToUint32(seed) % Q;
      Exact(ToUint32(seed), hi, lo);
      NoLoss(A * lo, R * hi);
      hide ToUint32, ToInt32, Step;
      seed := ToInt32(ToUint32(ToUint32(A * lo) - ToUint32(R * hi)));
      if seed < 0 {
        NegativeNoLoss(seed);
        seed := ToInt32(ToUint32(ToUint32(seed) + M));
      }
      randomSeed := seed;
      r := seed;
    }
  }

  // ------------------------------------------------------------------ exactness

  /** A difference of two products in range survives the wrap-around. */
  lemma NoLoss(p: int, s: int)
    requires 0 <= p < 0x8000_0000 && 0 <= s < 0x8000_0000
    ensures ToInt32(ToUint32(ToUint32(p) - ToUint32(s))) == p - s
  {
  }

  /** So does the correction of a negative difference. */
  lemma NegativeNoLoss(d: int)
    requires -M < d < 0
    ensures ToInt32(ToUint32(ToUint32(d) + M)) == d + M
  {
  }

  /** Neither product nor the difference leaves the range of a 32-bit integer, and the difference is
      congruent to the product with the multiplier. */
  lemma Exact(u: int, hi: int, lo: int)
    requires 0 <= u < TWO32 && hi == u / Q && lo == u % Q
    ensures 0 <= A * lo < 0x8000_0000 && 0 <= R * hi < 0x8000_0000
    ensures var d := A * lo - R * hi; -M < d < M && Step(u) == if d < 0 then d + M else d
  {
    assert u == hi * Q + lo;
    var d := A * lo - R * hi;
    assert A * u == hi * M + d;
    if d < 0 {
      ModUnique(A * u, M, hi - 1, d + M);
    } else {
      ModUnique(A * u, M, hi, d);
    }
  }

  // ------------------------------------------------------------------ congruence

  /** Step, read as congruence. */
  lemma StepCongruent(x: int, y: int)
    requires exists k: int :: x == y + k * M
    ensures Step(x) == Step(y)
  {
    var k: int :| x == y + k * M;
    ModUnique(A * x, M, A * y / M + A * k, A * y % M);
  }

  /** `n` calls multiply the seed by the `n`-th power of the multiplier. */
  lemma {:induction false} StepsArePowers(seed: int, n: nat)
    requires n > 0
    ensures Steps(seed, n) == Power(A, n) * seed % M
  {
    if n == 1 {
      assert Power(A, 1) == A * Power(A, 0) == A;
      assert Steps(seed, 1) == Step(Steps(seed, 0)) == Step(seed);
    } else {
      StepsArePowers(seed, n - 1);
      var x := Power(A, n - 1) * seed;
      assert x % M == x + (-(x / M)) * M;
      StepCongruent(x % M, x);
      assert A * x == Power(A, n) * seed;
    }
  }

  /** A result of the generator is its own unsigned reading. */
  lemma UnsignedAgain(seed: int)
    ensures ToUint32(Step(seed)) == Step(seed)
  {
  }

  /** The last of `n` calls returns, and leaves in the context, the seed times the `n`-th power of the multiplier. */
  method Calls(context: ThreadContext, n: nat) returns (r: int)
    requires IsInt32(context.randomSeed) && n > 0
    modifies context
    ensures r == context.randomSeed == Power(A, n) * ToUint32(old(context.randomSeed)) % M
  {
    hide Step, ToUint32;
    ghost var seed := ToUint32(context.randomSeed);
    r := 0;
    for i := 0 to n
      invariant IsInt32(context.randomSeed) && ToUint32(context.randomSeed) == Steps(seed, i)
      invariant i > 0 ==> r == context.randomSeed == Steps(seed, i)
    {
      r := context.Pseudorand();
      UnsignedAgain(Steps(seed, i));
    }
    StepsArePowers(seed, n);
  }

  /** The multiplier that undoes a step. */
  const B: int := 1407677000

  function StepBack(seed: int): (r: int)
    ensures 0 <= r < M
  {
    B * seed % M
  }

  /** On 1 .. 2^31 - 2 the step is a bijection, and never reaches zero. */
  lemma StepIsBijection(x: int)
    requires 0 < x < M
    ensures 0 < Step(x) < M && 0 < StepBack(x) < M
    ensures StepBack(Step(x)) == x && Step(StepBack(x)) == x
  {
    assert A * B == 11017 * M + 1;
    Inverse(A, B, x);
    Inverse(B, A, x);
  }

  lemma Inverse(a: int, b: int, x: int)
    requires 0 < x < M && a * b == 11017 * M + 1
    ensures b * (a * x % M) % M == x
    ensures a * x % M != 0
  {
    var q := a * x / M;
    var r := a * x % M;
    assert r == a * x - q * M;
    assert b * r == (a * b) * x - (b * q) * M;
    assert b * r == (11017 * x - b * q) * M + x;
    ModUnique(b * r, M, 11017 * x - b * q, x);
    assert r == 0 ==> b * r == 0;
  }

  /** Distinct seeds stay distinct. */
  lemma StepIsInjective(x: int, y: int)
    requires 0 < x < M && 0 < y < M && Step(x) == Step(y)
    ensures x == y
  {
    StepIsBijection(x);
    StepIsBijection(y);
  }

  /** Read as a signed number, the seed is multiplied exactly if and only if it is not negative: a negative
      one counts as a number that is 2^32 larger. */
  lemma ExactForSigned(seed: int)
    requires IsInt32(seed)
    ensures Step(ToUint32(seed)) == Step(seed) <==> seed >= 0
  {
    if seed < 0 {
      assert ToUint32(seed) == seed + TWO32;
      assert A * (seed + TWO32) == A * seed + 2 * A + 2 * A * M;
      var s := Step(seed);
      var q := A * seed / M;
      if s + 2 * A < M {
        ModUnique(A * (seed + TWO32), M, q + 2 * A, s + 2 * A);
      } else {
        ModUnique(A * (seed + TWO32), M, q + 2 * A + 1, s + 2 * A - M);
      }
    }
  }
}
