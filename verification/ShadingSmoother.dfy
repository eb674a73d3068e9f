/**
 * The sliding average of a shading line (plustek-pp_dac.c:949-979).
 *
 * The source keeps the sum of six pixels on either side of the current one in two unsigned 16-bit
 * variables and the six left pixels in a shift register.  The law it refines is the direct average
 * over thirteen pixels, the middle one counted four times; left of the line its first pixel is
 * repeated.  The line is read one pixel past the last one that matters.
 */
module ShadingSmoother {
  /** A pixel, or the first one for places left of the line. */
  function At(s: seq<int>, k: int): int
    requires k < |s| && |s| > 0
  {
    if k < 0 then s[0] else s[k]
  }

  function Left(s: seq<int>, i: nat): int
    requires i < |s|
  {
    At(s, i - 6) + At(s, i - 5) + At(s, i - 4) + At(s, i - 3) + At(s, i - 2) + At(s, i - 1)
  }

  function Right(s: seq<int>, i: nat): int
    requires i + 6 < |s|
  {
    s[i + 1] + s[i + 2] + s[i + 3] + s[i + 4] + s[i + 5] + s[i + 6]
  }

  /** The direct average of a pixel and the six on either side of it. */
  function Smoothed(s: seq<int>, i: nat): int
    requires i + 6 < |s|
  {
    (4 * s[i] + Left(s, i) + Right(s, i)) / 16
  }

  predicate Bytes(s: seq<int>) {
    forall k :: 0 <= k < |s| ==> 0 <= s[k] < 0x100
  }

  /** The shift register holds the six pixels left of place i. */
  ghost predicate Holds(w: seq<int>, s: seq<int>, i: nat)
    requires i < |s|
  {
    |w| == 6 && forall k :: 0 <= k < 6 ==> w[k] == At(s, i - 6 + k)
  }

  method Shift(wLeft: array<int>, pixel: int)
    requires wLeft.Length == 6
    modifies wLeft
    ensures wLeft[..] == old(wLeft[1..]) + [pixel]
  {
    wLeft[0] := wLeft[1];
    wLeft[1] := wLeft[2];
    wLeft[2] := wLeft[3];
    wLeft[3] := wLeft[4];
    wLeft[4] := wLeft[5];
    wLeft[5] := pixel;
  }

  /** The line before and after: count pixels from base on are averages, the others are as they were. */
  ghost predicate SmoothedLine(was: seq<int>, now: seq<int>, s: seq<int>, base: nat, count: nat)
    requires count + 6 <= |s|
  {
    |now| == |was| &&
    forall k :: 0 <= k < |now| ==>
                  (now[k] == if base <= k < base + count then Smoothed(s, k - base) else was[k])
  }

  lemma OneMore(was: seq<int>, now: seq<int>, s: seq<int>, base: nat, count: nat)
    requires count + 7 <= |s| && SmoothedLine(was, now, s, base, count) && base + count < |now|
    ensures SmoothedLine(was, now[base + count := Smoothed(s, count)], s, base, count + 1)
  {
  }

  /** Smooths count pixels from place base on. */
  method SumAverageShading(dest: array<int>, source: array<int>, base: nat, count: nat)
    requires dest != source && Bytes(source[..])
    requires base + count + 7 <= source.Length && base + count <= dest.Length
    modifies dest
    ensures SmoothedLine(old(dest[..]), dest[..], source[base..], base, count)
  {
    ghost var s := source[base..];
    assert Bytes(s);
    var first := source[base];
    var wLeft := new int[6](_ => first);
    var wSumL := wLeft[0] * 6;
    var wSumR := source[base + 1] + source[base + 2] + source[base + 3] + source[base + 4]
      + source[base + 5] + source[base + 6];
    var i: nat := 0;
    while i < count
      invariant i <= count && Holds(wLeft[..], s, i)
      invariant wSumL == Left(s, i) && wSumR == Right(s, i)
      invariant SmoothedLine(old(dest[..]), dest[..], s, base, i)
    {
      var pixel := source[base + i];
      NextSums(s, i);
      OneMore(old(dest[..]), dest[..], s, base, i);
      dest[base + i] := (pixel * 4 + wSumL + wSumR) / 16;
      wSumL := (wSumL - wLeft[0] + pixel) % 0x1_0000;
      Shift(wLeft, pixel);
      wSumR := (wSumR - source[base + i + 1] + source[base + i + 7]) % 0x1_0000;
      i := i + 1;
    }
  }

  /** No 16-bit sum overflows, and every average fits a byte. */
  lemma SumsFit(s: seq<int>, i: nat)
    requires Bytes(s) && i + 6 < |s|
    ensures 0 <= Left(s, i) <= 6 * 255 && 0 <= Right(s, i) <= 6 * 255 && 0 <= Smoothed(s, i) < 0x100
  {
    Between(s, i, 0, 255);
  }

  lemma Slide(s: seq<int>, i: nat)
    requires i + 7 < |s|
    ensures Left(s, i + 1) == Left(s, i) - At(s, i - 6) + s[i]
    ensures Right(s, i + 1) == Right(s, i) - s[i + 1] + s[i + 7]
  {
  }

  /** What one pixel of brightness v alone contributes: a quarter to itself, a sixteenth to the six pixels on
      either side; the first pixel also stands for the places left of the line. */
  lemma SinglePixel(s: seq<int>, i: nat, q: nat, v: nat)
    requires i + 6 < |s| && q < |s| && forall k :: 0 <= k < |s| ==> s[k] == if k == q then v else 0
    ensures q > 0 ==> Smoothed(s, i) == (if i == q then 4 * v else if i - 6 <= q <= i + 6 then v else 0) / 16
    ensures q == 0 ==> Smoothed(s, i) == (if i == 0 then 10 * v else if i <= 6 then (7 - i) * v else 0) / 16
  {
    FromLeft(s, i, q, v);
    FromRight(s, i, q, v);
  }

  lemma FromLeft(s: seq<int>, i: nat, q: nat, v: nat)
    requires i < |s| && q < |s| && forall k :: 0 <= k < |s| ==> s[k] == if k == q then v else 0
    ensures q > 0 ==> Left(s, i) == if i - 6 <= q < i then v else 0
    ensures q == 0 ==> Left(s, i) == if i == 0 then 6 * v else if i <= 6 then (7 - i) * v else 0
  {
    if q == 0 && 0 < i <= 6 { assert i == 1 || i == 2 || i == 3 || i == 4 || i == 5 || i == 6; }
  }

  lemma FromRight(s: seq<int>, i: nat, q: nat, v: nat)
    requires i + 6 < |s| && q < |s| && forall k :: 0 <= k < |s| ==> s[k] == if k == q then v else 0
    ensures Right(s, i) == if i < q <= i + 6 then v else 0
  {
  }

  /** The average stays between the darkest and the brightest pixel it is taken over. */
  lemma Between(s: seq<int>, i: nat, lo: int, hi: int)
    requires i + 6 < |s|
    requires forall k :: i - 6 <= k <= i + 6 ==> lo <= At(s, k) <= hi
    ensures 6 * lo <= Left(s, i) <= 6 * hi && 6 * lo <= Right(s, i) <= 6 * hi && lo <= Smoothed(s, i) <= hi
  {
    assert forall k :: i <= k <= i + 6 ==> s[k] == At(s, k);
  }

  lemma NextSums(s: seq<int>, i: nat)
    requires Bytes(s) && i + 7 < |s|
    ensures Left(s, i + 1) == (Left(s, i) - At(s, i - 6) + s[i]) % 0x1_0000
    ensures Right(s, i + 1) == (Right(s, i) - s[i + 1] + s[i + 7]) % 0x1_0000
  {
    Slide(s, i);
    SumsFit(s, i + 1);
  }

  predicate Rises(s: seq<int>, k: nat) {
    k + 1 < |s| ==> s[k] <= s[k + 1]
  }

  lemma {:induction false} InOrder(s: seq<int>, i: nat, j: nat)
    requires i <= j < |s| && forall k :: Rises(s, k)
    ensures s[i] <= s[j]
  {
    if i < j {
      InOrder(s, i, j - 1);
      assert Rises(s, j - 1);
    }
  }

  /** A line that never falls is smoothed into one that never falls. */
  lemma {:induction false} KeepsOrder(s: seq<int>, i: nat, j: nat)
    requires i <= j && j + 6 < |s| && forall k :: Rises(s, k)
    ensures Smoothed(s, i) <= Smoothed(s, j)
  {
    if i < j {
      KeepsOrder(s, i, j - 1);
      Slide(s, j - 1);
      InOrder(s, if j < 7 then 0 else j - 7, j - 1);
      InOrder(s, j - 1, j);
      InOrder(s, j, j + 6);
    }
  }
}
