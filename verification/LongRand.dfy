// The "minimal standard" random number generator of plustek-pp_misc.c: one step
// computed with 32-bit words only, and the orbit of that step over whole runs.

/** Facts about products and remainders modulo the Mersenne prime 2^31 - 1. */
module MersenneMod {
  const M: int := 0x7FFF_FFFF

  /** x and y leave the same remainder when they differ by a multiple of M. */
  lemma SameRemainder(x: int, y: int, k: int)
    requires x == y + k * M
    ensures x % M == y % M
  {
  }

  lemma ProductLeft(x: int, y: int)
    ensures (x % M) * y % M == x * y % M
  {
    var q := x / M;
    assert x * y == (x % M) * y + (q * y) * M by {
      assert x == q * M + x % M;
      assert (q * M + x % M) * y == q * M * y + (x % M) * y;
      assert q * M * y == (q * y) * M;
    }
    SameRemainder(x * y, (x % M) * y, q * y);
  }

  /** Multiplication modulo M is associative. */
  lemma Associate(x: int, y: int, z: int)
    ensures (x * y % M) * z % M == x * (y * z % M) % M
  {
    ProductLeft(x * y, z);
    assert (y * z % M) * x == x * (y * z % M);
    ProductLeft(y * z, x);
    assert (x * y) * z == (y * z) * x by {
      assert (x * y) * z == x * (y * z);
    }
  }
}

module LongRand {
  import opened MersenneMod

  const A: int := 16807
  /** The inverse of the multiplier modulo M. */
  const A_INVERSE: int := 1407677000
  const U32: int := 0x1_0000_0000

  /** What the generator promises to compute: f(z) = 16807 z mod (2^31 - 1). */
  function Next(z: int): int {
    A * z % M
  }

  /** A * A_INVERSE is 1 modulo M, so the step can be undone. */
  lemma StepUndone(z: int)
    requires 0 <= z < M
    ensures A_INVERSE * Next(z) % M == z
  {
    Associate(A_INVERSE, A, z);
    assert A_INVERSE * A % M == 1;
  }

  /** The seeds on which the generator is used: neither 0 nor 2^31 - 1. */
  predicate Proper(z: int) {
    1 <= z < M
  }

  lemma NextIsProper(z: int)
    requires Proper(z)
    ensures Proper(Next(z))
  {
    StepUndone(z);
  }

  /** The two partial products fit a Long, and make up the whole one. */
  lemma Halves(seed: int, low: int, high: int)
    requires 0 <= seed <= M && low == A * (seed % 0x1_0000) && high == A * (seed / 0x1_0000)
    ensures 0 <= low < U32 / 2 && 0 <= high < U32 / 2
    ensures A * seed == low + (high % 0x8000) * 0x1_0000 + 0x8000_0000 * (high / 0x8000)
    ensures 0 <= low + (high % 0x8000) * 0x1_0000 < U32 && 0 <= high / 0x8000 <= A
  {
  }

  /** Dropping the top bit and adding one takes off M. */
  method Fold(lo: int) returns (r: int, ghost taken: int)
    requires 0 <= lo < U32
    ensures r == lo - taken * M && 0 <= taken <= 1
    ensures 0 <= r <= if lo <= M then lo else M + 1
    ensures lo < U32 - 1 ==> r <= M
    ensures lo > 0 ==> r > 0
  {
    r, taken := lo, 0;
    if lo > M {
      r, taken := lo % 0x8000_0000 + 1, 1;
    }
  }

  lemma NextCases(seed: int, r: int)
    requires 0 <= seed <= M && 0 <= r <= M && A * seed % M == r % M && (r > 0 <==> seed > 0)
    ensures r == Next(seed) <==> seed != M
    ensures seed == M ==> r == M
    ensures Proper(seed) <==> Proper(r)
  {
    if Proper(seed) {
      NextIsProper(seed);
    }
  }

  /** One step with ULong intermediates. Masks and shifts of the source are written as
      remainders and quotients; the assertions say that no 32-bit word overflows and
      that the two signed products fit a Long. */
  method NextLongRand(seed: int) returns (r: int)
    requires 0 <= seed <= M
    ensures 0 <= r <= M
    ensures r == Next(seed) <==> seed != M
    ensures seed < 2147483647 ==> r == 16807 * seed % 2147483647
    ensures seed == M ==> r == M
    ensures Proper(seed) <==> Proper(r)
  {
    ghost var z := A * seed;
    var low := A * (seed % 0x1_0000);
    var high := A * (seed / 0x1_0000);
    Halves(seed, low, high);
    var lo := low + (high % 0x8000) * 0x1_0000;
    assert lo < U32;
    ghost var k := high / 0x8000;
    ghost var c;
    lo, c := Fold(lo);
    lo := lo + high / 0x8000;
    assert lo < U32;
    ghost var d;
    r, d := Fold(lo);
    assert z == r + (k + c + d) * M;
    SameRemainder(z, r, k + c + d);
    NextCases(seed, r);
  }

  /** The module's static state and the two entry points that change it. */
  class Generator {
    var randomnum: int

    predicate Valid()
      reads this
    {
      0 <= randomnum <= M
    }

    constructor ()
      ensures randomnum == 1
    {
      randomnum := 1;
    }

    /** Seeds outside Long keep only their low 31 bits; 0 is replaced by 1. */
    method Seed(seed: int)
      modifies this
      ensures Valid()
      ensures Proper(randomnum) <==> seed == 0 || (seed % 0x8000_0000 != 0 && seed % 0x8000_0000 != M)
      ensures 1 <= seed < M ==> randomnum == seed
    {
      randomnum := if seed != 0 then seed % 0x8000_0000 else 1;
    }

    method LongRand() returns (r: int)
      requires Valid()
      modifies this
      ensures Valid() && r == randomnum
      ensures old(randomnum) < M ==> randomnum == Next(old(randomnum))
      ensures Proper(old(randomnum)) <==> Proper(randomnum)
    {
      randomnum := NextLongRand(randomnum);
      r := randomnum;
    }
  }

  // ----- the orbit of the step -----

  /** The state after n calls, starting from z. */
  function Run(n: nat, z: int): int {
    if n == 0 then z else Next(Run(n - 1, z))
  }

  lemma {:induction false} RunIsProper(n: nat, z: int)
    requires Proper(z)
    ensures Proper(Run(n, z))
  {
    if n > 0 {
      RunIsProper(n - 1, z);
      NextIsProper(Run(n - 1, z));
    }
  }

  lemma {:induction false} RunSum(m: nat, n: nat, z: int)
    ensures Run(m + n, z) == Run(m, Run(n, z))
  {
    if m > 0 {
      RunSum(m - 1, n, z);
    }
  }

  /** A run can be undone: two runs of equal length that meet started together. */
  lemma {:induction false} RunInjective(n: nat, y: int, z: int)
    requires Proper(y) && Proper(z) && Run(n, y) == Run(n, z)
    ensures y == z
  {
    if n > 0 {
      RunIsProper(n - 1, y);
      RunIsProper(n - 1, z);
      StepUndone(Run(n - 1, y));
      StepUndone(Run(n - 1, z));
      RunInjective(n - 1, y, z);
    }
  }

  /** n calls leave every proper state where it was. */
  ghost predicate Fixes(n: nat) {
    forall z :: Proper(z) ==> Run(n, z) == z
  }

  /** n calls multiply every proper state by v. */
  ghost predicate Acts(n: nat, v: int) {
    forall z :: Proper(z) ==> Run(n, z) == v * z % M
  }

  lemma {:induction false} RunActs(n: nat)
    ensures Acts(n, Run(n, 1))
  {
    forall z | Proper(z)
      ensures Run(n, z) == Run(n, 1) * z % M
    {
      RunIsLinear(n, z);
    }
  }

  lemma {:induction false} RunIsLinear(n: nat, z: int)
    requires Proper(z)
    ensures Run(n, z) == Run(n, 1) * z % M
  {
    if n > 0 {
      RunIsLinear(n - 1, z);
      Associate(A, Run(n - 1, 1), z);
    }
  }
}
