/**
 * The arithmetic of the unsharp filter (plustek-pp_image.c:545-604, with the constants of
 * plustek-pp_p9636.c:882-883).
 *
 * A pixel is weighted 53 times, every neighbour that differs from it by more than 12 is taken off
 * once, and the rest is divided by the weight that is left and cut to a byte.
 */
module UnsharpMask {
  import opened Arith

  const MUL: int := 53
  const OFFSET: int := 12

  function Byte(x: int): (r: int)
    ensures 0 <= r < 0x100
  {
    if x < 0 then 0 else if x > 255 then 255 else x
  }

  predicate Far(c: int, n: int) {
    c - n > OFFSET || n - c > OFFSET
  }

  /** The neighbours that are taken off. */
  function FarOnes(c: int, around: seq<int>): (r: seq<int>)
    ensures |r| <= |around| && forall k :: 0 <= k < |r| ==> Far(c, r[k]) && r[k] in around
  {
    if around == [] then []
    else FarOnes(c, around[..|around| - 1]) + if Far(c, around[|around| - 1]) then [around[|around| - 1]] else []
  }

  function Sum(s: seq<int>): int {
    if s == [] then 0 else Sum(s[..|s| - 1]) + s[|s| - 1]
  }

  /** What the filter computes, in the order of the source. */
  function Cut(value: int, weight: int): (r: int)
    requires weight > 0
  {
    if value > 0 then if value / weight < 255 then value / weight else 255 else 0
  }

  function Sharpened(c: int, around: seq<int>): (r: int)
    requires |around| <= 8
  {
    var far := FarOnes(c, around);
    Cut(MUL * c - Sum(far), MUL - |far|)
  }

  /** What one neighbour takes off the value, and off the weight. */
  function Off(c: int, n: int): int {
    if Far(c, n) then n else 0
  }

  function One(c: int, n: int): int {
    if Far(c, n) then 1 else 0
  }

  lemma OneMoreNeighbour(c: int, around: seq<int>, k: nat)
    requires k < |around|
    ensures Sum(FarOnes(c, around[..k + 1])) == Sum(FarOnes(c, around[..k])) + Off(c, around[k])
    ensures |FarOnes(c, around[..k + 1])| == |FarOnes(c, around[..k])| + One(c, around[k])
  {
    assert around[..k + 1][..k] == around[..k];
    var before := FarOnes(c, around[..k]);
    assert (before + [around[k]])[..|before|] == before;
    assert before + [] == before;
  }

  /** How much the far neighbours differ from the pixel, in all. */
  function Contrast(c: int, far: seq<int>): int {
    if far == [] then 0 else Contrast(c, far[..|far| - 1]) + (c - far[|far| - 1])
  }

  lemma {:induction false} ContrastIsSum(c: int, far: seq<int>)
    ensures Contrast(c, far) == |far| * c - Sum(far)
  {
    if far != [] {
      ContrastIsSum(c, far[..|far| - 1]);
      assert |far| * c == (|far| - 1) * c + c;
    }
  }

  ghost predicate Partial(c: int, around: seq<int>, k: nat, sum: int, count: int)
    requires k <= |around|
  {
    sum == Sum(FarOnes(c, around[..k])) && count == |FarOnes(c, around[..k])|
  }

  lemma PartialStep(c: int, around: seq<int>, k: nat, sum: int, count: int)
    requires k < |around| && Partial(c, around, k, sum, count)
    ensures Partial(c, around, k + 1, sum + Off(c, around[k]), count + One(c, around[k]))
  {
    OneMoreNeighbour(c, around, k);
  }

  lemma Two(c: int, a: seq<int>, k: nat, sum: int, count: int)
    requires k + 2 <= |a| && Partial(c, a, k, sum, count)
    ensures Partial(c, a, k + 2, sum + Off(c, a[k]) + Off(c, a[k + 1]), count + One(c, a[k]) + One(c, a[k + 1]))
  {
    PartialStep(c, a, k, sum, count);
    PartialStep(c, a, k + 1, sum + Off(c, a[k]), count + One(c, a[k]));
  }

  /** Taken off are exactly the neighbours that differ by more than 12, each as often as it is there. */
  lemma {:induction false} FarOnesExactly(c: int, around: seq<int>, n: int)
    ensures multiset(FarOnes(c, around))[n] == if n < c - 12 || n > c + 12 then multiset(around)[n] else 0
  {
    if around != [] {
      var front, v := around[..|around| - 1], around[|around| - 1];
      FarOnesExactly(c, front, n);
      assert around == front + [v];
      CountAppended(front, v, n);
      if Far(c, v) { CountAppended(FarOnes(c, front), v, n); }
    }
  }

  lemma CountAppended(s: seq<int>, v: int, n: int)
    ensures multiset(s + [v])[n] == multiset(s)[n] + if v == n then 1 else 0
  {
  }

  // ---- the neighbours in three lines ----

  /** The eight neighbours of pixel dw + 1 of the middle line, in the order they are looked at. */
  function Around(prev: seq<int>, current: seq<int>, next: seq<int>, dw: nat): (r: seq<int>)
    requires dw + 2 < |prev| == |current| == |next|
    ensures |r| == 8
  {
    [prev[dw], prev[dw + 1], prev[dw + 2], current[dw], current[dw + 2], next[dw], next[dw + 1], next[dw + 2]]
  }

  function OffOfRow(c: int, row: seq<int>, dw: nat): int
    requires dw + 2 < |row|
  {
    Off(c, row[dw]) + Off(c, row[dw + 1]) + Off(c, row[dw + 2])
  }

  function OneOfRow(c: int, row: seq<int>, dw: nat): (n: int)
    requires dw + 2 < |row|
    ensures 0 <= n <= 3
  {
    One(c, row[dw]) + One(c, row[dw + 1]) + One(c, row[dw + 2])
  }

  function OffOfSides(c: int, row: seq<int>, dw: nat): int
    requires dw + 2 < |row|
  {
    Off(c, row[dw]) + Off(c, row[dw + 2])
  }

  function OneOfSides(c: int, row: seq<int>, dw: nat): (n: int)
    requires dw + 2 < |row|
    ensures 0 <= n <= 2
  {
    One(c, row[dw]) + One(c, row[dw + 2])
  }

  /** A row of three, at place k of the neighbours. */
  lemma PartialRow(c: int, a: seq<int>, k: nat, row: seq<int>, dw: nat, sum: int, count: int)
    requires k + 3 <= |a| && dw + 2 < |row| && Partial(c, a, k, sum, count)
    requires a[k] == row[dw] && a[k + 1] == row[dw + 1] && a[k + 2] == row[dw + 2]
    ensures Partial(c, a, k + 3, sum + OffOfRow(c, row, dw), count + OneOfRow(c, row, dw))
  {
    Two(c, a, k, sum, count);
    PartialStep(c, a, k + 2, sum + Off(c, a[k]) + Off(c, a[k + 1]), count + One(c, a[k]) + One(c, a[k + 1]));
  }

  /** One pixel as the source computes it, row by row. */
  function Pixel(prev: seq<int>, current: seq<int>, next: seq<int>, dw: nat): int
    requires dw + 2 < |prev| == |current| == |next|
  {
    var c := current[dw + 1];
    Cut(MUL * c - OffOfRow(c, prev, dw) - OffOfSides(c, current, dw) - OffOfRow(c, next, dw),
        MUL - OneOfRow(c, prev, dw) - OneOfSides(c, current, dw) - OneOfRow(c, next, dw))
  }

  predicate IsAround(a: seq<int>, prev: seq<int>, current: seq<int>, next: seq<int>, dw: nat)
    requires dw + 2 < |prev| == |current| == |next|
  {
    && |a| == 8 && a[0] == prev[dw] && a[1] == prev[dw + 1] && a[2] == prev[dw + 2]
    && a[3] == current[dw] && a[4] == current[dw + 2]
    && a[5] == next[dw] && a[6] == next[dw + 1] && a[7] == next[dw + 2]
  }

  lemma PixelOfNeighbours(prev: seq<int>, current: seq<int>, next: seq<int>, dw: nat, a: seq<int>)
    requires dw + 2 < |prev| == |current| == |next| && IsAround(a, prev, current, next, dw)
    ensures Pixel(prev, current, next, dw) == Sharpened(current[dw + 1], a)
  {
    var c := current[dw + 1];
    assert a[..0] == [] && a[..|a|] == a;
    var k := |a| - 8;
    PartialRow(c, a, k, prev, dw, 0, 0);
    var sum, count := OffOfRow(c, prev, dw), OneOfRow(c, prev, dw);
    Two(c, a, k + 3, sum, count);
    sum, count := sum + OffOfSides(c, current, dw), count + OneOfSides(c, current, dw);
    PartialRow(c, a, k + 5, next, dw, sum, count);
  }

  /** The rows give the same pixel as the list of the eight neighbours. */
  lemma PixelIsSharpened(prev: seq<int>, current: seq<int>, next: seq<int>, dw: nat)
    requires dw + 2 < |prev| == |current| == |next|
    ensures Pixel(prev, current, next, dw) == Sharpened(current[dw + 1], Around(prev, current, next, dw))
  {
    PixelOfNeighbours(prev, current, next, dw, Around(prev, current, next, dw));
  }

  /** Whether a neighbour is taken off ... */
  function Weight(c: int, n: int): int {
    if n < c - 12 || n > c + 12 then 1 else 0
  }

  /** ... and how much that takes away. */
  function Share(c: int, n: int): int {
    if n < c - 12 || n > c + 12 then n else 0
  }

  /** What is left of 53 times the pixel without its far neighbours ... */
  function MaskedValue(prev: seq<int>, current: seq<int>, next: seq<int>, dw: nat): int
    requires dw + 2 < |prev| == |current| == |next|
  {
    var c := current[dw + 1];
    53 * c - (Share(c, prev[dw]) + Share(c, prev[dw + 1]) + Share(c, prev[dw + 2])
              + Share(c, current[dw]) + Share(c, current[dw + 2])
              + Share(c, next[dw]) + Share(c, next[dw + 1]) + Share(c, next[dw + 2]))
  }

  /** ... and of the weight. */
  function MaskedWeight(prev: seq<int>, current: seq<int>, next: seq<int>, dw: nat): (w: int)
    requires dw + 2 < |prev| == |current| == |next|
    ensures w > 0
  {
    var c := current[dw + 1];
    53 - (Weight(c, prev[dw]) + Weight(c, prev[dw + 1]) + Weight(c, prev[dw + 2])
          + Weight(c, current[dw]) + Weight(c, current[dw + 2])
          + Weight(c, next[dw]) + Weight(c, next[dw + 1]) + Weight(c, next[dw + 2]))
  }

  /** What pixel dw + 1 of the middle line is promised to become. */
  function Masked(prev: seq<int>, current: seq<int>, next: seq<int>, dw: nat): int
    requires dw + 2 < |prev| == |current| == |next|
  {
    var v := MaskedValue(prev, current, next, dw) / MaskedWeight(prev, current, next, dw);
    if v < 0 then 0 else if v > 255 then 255 else v
  }

  lemma SameShares(c: int, row: seq<int>, dw: nat)
    requires dw + 2 < |row|
    ensures OffOfRow(c, row, dw) == Share(c, row[dw]) + Share(c, row[dw + 1]) + Share(c, row[dw + 2])
    ensures OneOfRow(c, row, dw) == Weight(c, row[dw]) + Weight(c, row[dw + 1]) + Weight(c, row[dw + 2])
    ensures OffOfSides(c, row, dw) == Share(c, row[dw]) + Share(c, row[dw + 2])
    ensures OneOfSides(c, row, dw) == Weight(c, row[dw]) + Weight(c, row[dw + 2])
  {
  }

  /** The source's pixel is the promised one, for all neighbours. */
  lemma PixelIsMasked(prev: seq<int>, current: seq<int>, next: seq<int>, dw: nat)
    requires dw + 2 < |prev| == |current| == |next|
    ensures Pixel(prev, current, next, dw) == Masked(prev, current, next, dw)
  {
    var c := current[dw + 1];
    SameShares(c, prev, dw);
    SameShares(c, current, dw);
    SameShares(c, next, dw);
    CutIsByte(MaskedValue(prev, current, next, dw), MaskedWeight(prev, current, next, dw));
  }

  /** Eight equal neighbours: they leave a pixel alone if they differ by at most 12. */
  lemma EvenNeighbours(c: int, n: int, prev: seq<int>, current: seq<int>, next: seq<int>)
    requires 0 <= c < 0x100 && prev == [n, n, n] && current == [n, c, n] && next == [n, n, n]
    ensures -12 <= c - n <= 12 ==> Pixel(prev, current, next, 0) == c
    ensures !(-12 <= c - n <= 12) ==> Pixel(prev, current, next, 0) == Byte((53 * c - 8 * n) / 45)
    ensures c == 100 && n == 0 ==> Pixel(prev, current, next, 0) == 117
  {
    PixelIsMasked(prev, current, next, 0);
    if -12 <= c - n <= 12 { Quotient(53 * c, 53, c, 0); }
  }

  /** The filter adds to the pixel its contrast with the far neighbours, over the weight that is left. */
  lemma AddsContrast(c: int, around: seq<int>)
    requires 0 <= c < 0x100 && |around| <= 8
    ensures var far := FarOnes(c, around);
            Sharpened(c, around) == Byte(c + Contrast(c, far) / (MUL - |far|))
  {
    var far := FarOnes(c, around);
    ContrastIsSum(c, far);
    Recentred(c, |far|, Sum(far), Contrast(c, far));
  }

  lemma Recentred(c: int, m: nat, sum: int, x: int)
    requires m <= 8 && x == m * c - sum
    ensures Cut(MUL * c - sum, MUL - m) == Byte(c + x / (MUL - m))
  {
    var w := MUL - m;
    assert MUL * c - sum == w * c + x;
    WholePart(w, c, x);
    CutIsByte(w * c + x, w);
  }

  lemma WholePart(w: int, c: int, x: int)
    requires w > 0
    ensures (w * c + x) / w == c + x / w
  {
    var q, r := x / w, x % w;
    assert w * c + x == w * (c + q) + r;
    Quotient(w * c + x, w, c + q, r);
  }

  lemma CutIsByte(value: int, w: int)
    requires w > 0
    ensures Cut(value, w) == Byte(value / w)
  {
    if value <= 0 {
      QuotientMonotone(value, 0, w);
    } else {
      QuotientMonotone(0, value, w);
    }
  }

  /** A pixel that no neighbour differs from by more than 12 is unchanged. */
  lemma FlatIsKept(c: int, around: seq<int>)
    requires 0 <= c < 0x100 && |around| <= 8
    requires forall k :: 0 <= k < |around| ==> -12 <= c - around[k] <= 12
    ensures Sharpened(c, around) == c
  {
    NoneFar(c, around);
    AddsContrast(c, around);
  }

  lemma {:induction false} NoneFar(c: int, around: seq<int>)
    requires forall k :: 0 <= k < |around| ==> !Far(c, around[k])
    ensures FarOnes(c, around) == []
  {
    if around != [] { NoneFar(c, around[..|around| - 1]); }
  }

  lemma {:induction false} ContrastBounds(c: int, far: seq<int>)
    requires forall k :: 0 <= k < |far| ==> Far(c, far[k])
    ensures (forall k :: 0 <= k < |far| ==> far[k] < c) ==> Contrast(c, far) >= (OFFSET + 1) * |far|
    ensures (forall k :: 0 <= k < |far| ==> far[k] > c) ==> Contrast(c, far) <= -(OFFSET + 1) * |far|
  {
    if far != [] { ContrastBounds(c, far[..|far| - 1]); }
  }

  /** Edges only grow: next to darker pixels a pixel never gets darker, next to brighter ones never brighter. */
  lemma ContrastOnlyGrows(c: int, around: seq<int>)
    requires 0 <= c < 0x100 && |around| <= 8
    ensures (forall n :: n in around ==> n <= c + 12) ==> Sharpened(c, around) >= c
    ensures (forall n :: n in around ==> n >= c - 12) ==> Sharpened(c, around) <= c
  {
    var far := FarOnes(c, around);
    AddsContrast(c, around);
    ContrastBounds(c, far);
    var x, w := Contrast(c, far), MUL - |far|;
    if x >= 0 { QuotientMonotone(0, x, w); }
    if x <= 0 { QuotientMonotone(x, 0, w); }
  }
}
