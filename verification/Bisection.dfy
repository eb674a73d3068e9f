// What the coarse gain and offset searches share.

module Bisection {
  /** How often an interval can be halved and stay wide. */
  function Halvings(w: nat): nat {
    if w <= 2 then 0 else 1 + Halvings((w + 1) / 2)
  }

  lemma {:induction false} HalvingsMonotone(v: nat, w: nat)
    requires v <= w
    ensures Halvings(v) <= Halvings(w)
  {
    if v > 2 {
      HalvingsMonotone((v + 1) / 2, (w + 1) / 2);
    }
  }
}
