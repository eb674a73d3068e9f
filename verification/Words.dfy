// 32-bit words in a buffer of 16-bit words.

module Words {
  const U32: int := 0x1_0000_0000

  /** The 32-bit word at index i of a buffer of 16-bit words (low word first). */
  function Dword(w: seq<int>, i: nat): int
    requires 2 * i + 1 < |w|
  {
    w[2 * i] + 0x1_0000 * w[2 * i + 1]
  }

  predicate AreWords(w: seq<int>) {
    forall i :: 0 <= i < |w| ==> 0 <= w[i] < 0x1_0000
  }

  method SetDword(w: array<int>, j: nat, v: int)
    requires 2 * j + 1 < w.Length && 0 <= v < U32
    modifies w
    ensures forall i :: 0 <= i && 2 * i + 1 < w.Length ==> Dword(w[..], i) == if i == j then v else old(Dword(w[..], i))
    ensures forall i :: 0 <= i < w.Length && i != 2 * j && i != 2 * j + 1 ==> w[i] == old(w[i])
  {
    w[2 * j], w[2 * j + 1] := v % 0x1_0000, v / 0x1_0000;
  }
}
