// Slots of a ring of lines, shared by the readers of the parallel-port and USB drivers.

module RingSlots {
  import opened Arith

  /** Slot of line i in a ring of `size` slots. */
  function Slot(begin: nat, size: nat, i: nat): (s: nat)
    requires size > 0
    ensures begin <= s < begin + size
  {
    begin + i % size
  }

  /** The wrap-around test of a ring pointer. */
  function Bump(slot: nat, begin: nat, size: nat): nat {
    if slot + 1 >= begin + size then begin else slot + 1
  }

  /** Lines less than a ring apart never share a slot. */
  lemma Distinct(begin: nat, size: nat, i: nat, j: nat)
    requires size > 0 && i < j < i + size
    ensures Slot(begin, size, i) != Slot(begin, size, j)
  {
    if i % size == j % size {
      var d := j / size - i / size;
      assert j - i == size * d by {
        assert j == size * (j / size) + j % size;
        assert i == size * (i / size) + i % size;
      }
      SmallMultiple(size, d);
      assert false;
    }
  }

  /** The wrap-around test computes the next slot. */
  lemma Next(begin: nat, size: nat, i: nat)
    requires size > 0
    ensures Slot(begin, size, i + 1) == Bump(Slot(begin, size, i), begin, size)
  {
    var q, r := i / size, i % size;
    assert i + 1 == size * q + (r + 1);
    if r + 1 == size {
      assert i + 1 == size * (q + 1) + 0;
      Quotient(i + 1, size, q + 1, 0);
    } else {
      Quotient(i + 1, size, q, r + 1);
    }
  }
}
