// Leaving lines out when the user wants fewer than the motor delivers: the same running sum
// serves the USB driver and the parallel-port driver (plustek-pp_image.c:169-180, 1499-1500).

module LineSampling {
  import opened Arith

  function CeilDiv(n: nat, d: nat): nat
    requires d > 0
  {
    (n + d - 1) / d
  }

  /** The sampling sum after `raw` raw lines, `user` of them taken. */
  ghost predicate Sampling(sumY: int, raw: nat, user: nat, userDpi: nat, phyDpi: nat) {
    && 0 <= sumY < phyDpi
    && sumY == phyDpi - userDpi + raw * userDpi - user * phyDpi
  }

  lemma CeilOf(n: nat, d: nat, q: nat)
    requires d > 0
    ensures CeilDiv(n, d) == q <==> d * q < n + d && n <= d * q
  {
    QuotientBounds(n + d - 1, d);
    if d * q < n + d && n <= d * q {
      Quotient(n + d - 1, d, q, n + d - 1 - d * q);
    }
  }

  /** One raw line: it is taken exactly if it is the one the closed form names. */
  lemma SampleStep(sumY: int, raw: nat, user: nat, userDpi: nat, phyDpi: nat)
    requires 0 < userDpi <= phyDpi && Sampling(sumY, raw, user, userDpi, phyDpi)
    ensures var taken := sumY + userDpi >= phyDpi;
      && Sampling(if taken then sumY + userDpi - phyDpi else sumY + userDpi, raw + 1,
                  if taken then user + 1 else user, userDpi, phyDpi)
      && (taken <==> raw == CeilDiv(user * phyDpi, userDpi))
  {
    assert (raw + 1) * userDpi == raw * userDpi + userDpi;
    assert (user + 1) * phyDpi == user * phyDpi + phyDpi;
    CeilOf(user * phyDpi, userDpi, raw);
  }

  /** How many lines are taken of the first raw ones. */
  lemma TakenCount(sumY: int, raw: nat, user: nat, userDpi: nat, phyDpi: nat)
    requires 0 < userDpi <= phyDpi && Sampling(sumY, raw, user, userDpi, phyDpi)
    ensures user == (phyDpi - userDpi + raw * userDpi) / phyDpi
  {
    Quotient(phyDpi - userDpi + raw * userDpi, phyDpi, user, sumY);
  }

  class Sampler {
    const userDpi: nat
    const phyDpi: nat
    var wYSum: int
    /** The raw lines so far, and those of them that were taken. */
    ghost var raw: nat
    ghost var taken: seq<nat>

    constructor (userDpi: nat, phyDpi: nat)
      requires 0 < userDpi <= phyDpi < 0x8000
      ensures Valid() && raw == 0 && taken == [] && this.userDpi == userDpi && this.phyDpi == phyDpi
    {
      this.userDpi, this.phyDpi := userDpi, phyDpi;
      wYSum, raw, taken := phyDpi - userDpi, 0, [];
    }

    /** The u-th line taken is the raw line the closed form names. */
    ghost predicate Valid()
      reads this
    {
      && 0 < userDpi <= phyDpi < 0x8000
      && Sampling(wYSum, raw, |taken|, userDpi, phyDpi)
      && forall u :: 0 <= u < |taken| ==> taken[u] == CeilDiv(u * phyDpi, userDpi)
    }

    /** Says of the next raw line whether it is taken, on an unsigned 16-bit sum. */
    method SampleLine() returns (due: bool)
      requires Valid()
      modifies this
      ensures Valid() && raw == old(raw) + 1
      ensures due <==> old(raw) == CeilDiv(|old(taken)| * phyDpi, userDpi)
      ensures taken == if due then old(taken) + [old(raw)] else old(taken)
    {
      SampleStep(wYSum, raw, |taken|, userDpi, phyDpi);
      wYSum := (wYSum + userDpi) % 0x1_0000;
      due := wYSum >= phyDpi;
      if due {
        wYSum := wYSum - phyDpi;
        taken := taken + [raw];
      }
      raw := raw + 1;
    }
  }
}
