// Shading calibration on ASIC 98001, from the three colour planes of the lines that are read to the
// averages and kept extremes of each colour.

module ShadingPlanes {
  import opened TrimmedMean
  import opened Words
  import opened Shading98001
  import opened ShadingBlue
  import opened Planes

  /** Every line starts with a red, a green and a blue plane of so many words each. */
  ghost predicate AreFromPlanes(lines: seq<seq<int>>, pixels: nat, red: seq<seq<int>>, green: seq<seq<int>>,
                                blue: seq<seq<int>>)
  {
    && (pixels == 2700 || pixels == 5400)
    && Holds(lines, 0, pixels, red) && Holds(lines, pixels, pixels, green) && Holds(lines, 2 * pixels, pixels, blue)
  }

  /** The samples among them: the low twelve bits. */
  function LowBits(words: seq<int>): (r: seq<int>)
    ensures |r| == |words|
  {
    seq(|words|, n requires 0 <= n < |words| => words[n] % 4096)
  }

  /** The samples of pixel p of a plane in ascending order. */
  function Ranked(plane: seq<seq<int>>, p: nat): (r: seq<int>)
    requires forall n :: 0 <= n < |plane| ==> p < |plane[n]|
    ensures |r| == |plane|
  {
    Sort(LowBits(AtPixel(plane, p)), true)
  }

  lemma RankedAscends(plane: seq<seq<int>>, p: nat)
    requires forall n :: 0 <= n < |plane| ==> p < |plane[n]|
    ensures Ascending(Ranked(plane, p), LowBits(AtPixel(plane, p)))
  {
    SortAscends(LowBits(AtPixel(plane, p)));
  }

  /** The samples of a channel are those of its plane. */
  lemma SamplesOfPlane(lines: seq<seq<int>>, pixels: nat, plane: seq<seq<int>>, c: nat, p: nat)
    requires Holds(lines, pixels * c, pixels, plane) && (pixels == 2700 || pixels == 5400) && c < 3 && p < pixels - 4
    ensures forall line :: line in lines ==> |line| == 16200
    ensures Samples(lines, pixels, c, p) == LowBits(AtPixel(plane, p))
  {
    var samples, words := Samples(lines, pixels, c, p), LowBits(AtPixel(plane, p));
    forall n | 0 <= n < |lines|
      ensures samples[n] == words[n]
    {
      WordOfPlane(lines, pixels, plane, c, p, n);
    }
  }

  lemma WordOfPlane(lines: seq<seq<int>>, pixels: nat, plane: seq<seq<int>>, c: nat, p: nat, n: nat)
    requires Holds(lines, pixels * c, pixels, plane) && (pixels == 2700 || pixels == 5400) && c < 3
    requires p < pixels && n < |lines|
    ensures |lines[n]| == 16200 && Off(pixels, c) + p < 16200 && lines[n][Off(pixels, c) + p] == plane[n][p]
  {
    assert lines[n][pixels * c..pixels * c + pixels][p] == plane[n][p];
  }

  // ----- the slots of each colour -----

  /** The kept samples of one pixel of one colour, in slots 5400 words apart: the three brightest from the
      brightest on, the five darkest from the darkest on. */
  ghost predicate SlotsOfPlane(a: seq<int>, c: nat, p: nat, s: seq<int>)
    requires |a| == 129600 && c < 3 && p < 5396 && |s| == 32
  {
    && (forall k :: 0 <= k < 3 ==> a[16200 * c + 5400 * k + p] == s[31 - k])
    && (forall k :: 0 <= k < 5 ==> a[48600 + 27000 * c + 5400 * k + p] == s[k])
  }

  lemma SlotWords(a: seq<int>, c: nat, p: nat, hi: seq<int>, lo: seq<int>, s: seq<int>)
    requires |a| == 129600 && c < 3 && p < 5396 && |s| == 32
    requires hi == HilightSlots(a, c, p) && lo == ShadowSlots(a, c, p) && IsTop(hi, s) && lo == s[..5]
    ensures SlotsOfPlane(a, c, p, s)
  {
    forall k | 0 <= k < 3
      ensures a[16200 * c + 5400 * k + p] == s[31 - k]
    {
      assert hi[k] == a[5400 * (3 * c + k) + p];
    }
    forall k | 0 <= k < 5
      ensures a[48600 + 27000 * c + 5400 * k + p] == s[k]
    {
      assert lo[k] == a[5400 * (9 + 5 * c + k) + p];
    }
  }

  lemma SlotsAreOfPlane(a: seq<int>, lines: seq<seq<int>>, pixels: nat, plane: seq<seq<int>>, c: nat, p: nat)
    requires |lines| == 32 && Holds(lines, pixels * c, pixels, plane) && Geometry(a, pixels) && c < 3 && p < pixels - 4
    requires forall line :: line in lines ==> |line| == 16200
    requires KeptAll(a, lines, pixels)
    ensures SlotsOfPlane(a, c, p, Ranked(plane, p))
  {
    SamplesOfPlane(lines, pixels, plane, c, p);
    var samples := Samples(lines, pixels, c, p);
    HilightsOfSorted(samples, 0, Sort(samples, true));
    KeptPrefix(samples, SHADOWS, 0xfff, true);
    SlotWords(a, c, p, HilightSlots(a, c, p), ShadowSlots(a, c, p), Sort(samples, true));
  }

  // ----- the averages of each colour -----

  /** The mean of the 24 middle samples. */
  ghost predicate MeanOfPlane(value: int, s: seq<int>)
    requires |s| == 32
  {
    value == Sum(s[5..29]) / 24
  }

  /** What the blue words add up to: each is scaled and then cut to twelve bits. */
  function ScaledSum(words: seq<int>): int {
    if words == [] then 0
    else ScaledSum(words[..|words| - 1]) + words[|words| - 1] * 94 / 100 % 4096
  }

  /** Blue is what is left of the scaled sum without the eight extremes, which are not scaled. */
  ghost predicate BlueOfPlane(value: int, words: seq<int>, s: seq<int>)
    requires |s| == 32
  {
    value == (ScaledSum(words) - (Sum(s[..5]) + Sum(s[29..]))) % 0x1_0000_0000 / 24 % 0x1_0000
  }

  lemma MeanIsOfPlane(lines: seq<seq<int>>, pixels: nat, plane: seq<seq<int>>, c: nat, p: nat)
    requires |lines| == 32 && Holds(lines, pixels * c, pixels, plane) && (pixels == 2700 || pixels == 5400)
    requires c < 2 && p < pixels - 4 && forall line :: line in lines ==> |line| == 16200
    ensures MeanOfPlane(Average(lines, pixels, c, p), Ranked(plane, p))
  {
    SamplesOfPlane(lines, pixels, plane, c, p);
    RedGreenAverage(lines, pixels, c, p);
  }

  lemma {:induction false} BlueSumOfPlane(lines: seq<seq<int>>, pixels: nat, plane: seq<seq<int>>, p: nat)
    requires Holds(lines, 2 * pixels, pixels, plane) && (pixels == 2700 || pixels == 5400) && p < pixels - 4
    ensures forall line :: line in lines ==> |line| == 16200
    ensures SumAdded(lines, pixels, 2, p) == ScaledSum(AtPixel(plane, p))
  {
    if lines != [] {
      var n := |lines| - 1;
      BlueSumOfPlane(lines[..n], pixels, plane[..n], p);
      assert AtPixel(plane, p)[..n] == AtPixel(plane[..n], p);
      WordOfPlane(lines, pixels, plane, 2, p, n);
    }
  }

  lemma BlueIsOfPlane(lines: seq<seq<int>>, pixels: nat, plane: seq<seq<int>>, p: nat)
    requires |lines| == 32 && Holds(lines, 2 * pixels, pixels, plane) && (pixels == 2700 || pixels == 5400)
    requires p < pixels - 4 && forall line :: line in lines ==> |line| == 16200
    ensures BlueOfPlane(Average(lines, pixels, 2, p), AtPixel(plane, p), Ranked(plane, p))
  {
    SamplesOfPlane(lines, pixels, plane, 2, p);
    BlueSumOfPlane(lines, pixels, plane, p);
    KeptSumOfSorted(LowBits(AtPixel(plane, p)), Ranked(plane, p));
  }

  lemma KeptSumOfSorted(samples: seq<int>, s: seq<int>)
    requires |samples| == 32 && s == Sort(samples, true)
    ensures KeptSum(samples) == Sum(s[..5]) + Sum(s[29..])
  {
    ExtremesAndMiddle(samples, 0, 0xfff);
    SumSort(samples, true);
    SplitSum(s, SHADOWS, |s| - HILIGHTS);
  }

  lemma AveragesOfColours(w: seq<int>, lines: seq<seq<int>>, pixels: nat, red: seq<seq<int>>, green: seq<seq<int>>,
                          blue: seq<seq<int>>, p: nat)
    requires |w| == 32400 && |lines| == 32 && AreFromPlanes(lines, pixels, red, green, blue) && p < pixels - 4
    requires forall line :: line in lines ==> |line| == 16200
    requires forall c, p :: 0 <= c < 3 && 0 <= p < pixels - 4 ==> w[5400 * c + (4 + p)] == Average(lines, pixels, c, p)
    ensures MeanOfPlane(w[4 + p], Ranked(red, p)) && MeanOfPlane(w[5404 + p], Ranked(green, p))
    ensures BlueOfPlane(w[10804 + p], AtPixel(blue, p), Ranked(blue, p))
  {
    assert w[5400 * 0 + (4 + p)] == Average(lines, pixels, 0, p);
    assert w[5400 * 1 + (4 + p)] == Average(lines, pixels, 1, p);
    assert w[5400 * 2 + (4 + p)] == Average(lines, pixels, 2, p);
    MeanIsOfPlane(lines, pixels, red, 0, p);
    MeanIsOfPlane(lines, pixels, green, 1, p);
    BlueIsOfPlane(lines, pixels, blue, p);
  }

  /** Every pixel has the averages of its own colours ... */
  ghost predicate AveragesArePlanes(w: seq<int>, pixels: nat, red: seq<seq<int>>, green: seq<seq<int>>, blue: seq<seq<int>>)
    requires |w| == 32400 && 4 <= pixels <= 5400 && |red| == |green| == |blue| == 32
    requires forall n :: 0 <= n < 32 ==> |red[n]| == |green[n]| == |blue[n]| == pixels
  {
    forall p :: 0 <= p < pixels - 4 ==>
      && MeanOfPlane(w[4 + p], Ranked(red, p)) && MeanOfPlane(w[5404 + p], Ranked(green, p))
      && BlueOfPlane(w[10804 + p], AtPixel(blue, p), Ranked(blue, p))
  }

  /** ... and their extremes. */
  ghost predicate SlotsArePlanes(a: seq<int>, pixels: nat, red: seq<seq<int>>, green: seq<seq<int>>, blue: seq<seq<int>>)
    requires |a| == 129600 && 4 <= pixels <= 5400 && |red| == |green| == |blue| == 32
    requires forall n :: 0 <= n < 32 ==> |red[n]| == |green[n]| == |blue[n]| == pixels
  {
    forall p :: 0 <= p < pixels - 4 ==>
      && SlotsOfPlane(a, 0, p, Ranked(red, p)) && SlotsOfPlane(a, 1, p, Ranked(green, p))
      && SlotsOfPlane(a, 2, p, Ranked(blue, p))
  }

  lemma AllAverages(w: seq<int>, lines: seq<seq<int>>, pixels: nat, red: seq<seq<int>>, green: seq<seq<int>>,
                    blue: seq<seq<int>>)
    requires |w| == 32400 && |lines| == 32 && AreFromPlanes(lines, pixels, red, green, blue)
    requires forall line :: line in lines ==> |line| == 16200
    requires forall c, p :: 0 <= c < 3 && 0 <= p < pixels - 4 ==> w[5400 * c + (4 + p)] == Average(lines, pixels, c, p)
    ensures AveragesArePlanes(w, pixels, red, green, blue)
  {
    forall p | 0 <= p < pixels - 4
      ensures MeanOfPlane(w[4 + p], Ranked(red, p)) && MeanOfPlane(w[5404 + p], Ranked(green, p))
      ensures BlueOfPlane(w[10804 + p], AtPixel(blue, p), Ranked(blue, p))
    {
      AveragesOfColours(w, lines, pixels, red, green, blue, p);
    }
  }

  lemma AllSlots(a: seq<int>, lines: seq<seq<int>>, pixels: nat, red: seq<seq<int>>, green: seq<seq<int>>,
                 blue: seq<seq<int>>)
    requires Geometry(a, pixels) && |lines| == 32 && AreFromPlanes(lines, pixels, red, green, blue)
    requires forall line :: line in lines ==> |line| == 16200
    requires KeptAll(a, lines, pixels)
    ensures SlotsArePlanes(a, pixels, red, green, blue)
  {
    forall p | 0 <= p < pixels - 4
      ensures SlotsOfPlane(a, 0, p, Ranked(red, p)) && SlotsOfPlane(a, 1, p, Ranked(green, p))
      ensures SlotsOfPlane(a, 2, p, Ranked(blue, p))
    {
      SlotsOfColours(a, lines, pixels, red, green, blue, p);
    }
  }

  lemma SlotsOfColours(a: seq<int>, lines: seq<seq<int>>, pixels: nat, red: seq<seq<int>>, green: seq<seq<int>>,
                       blue: seq<seq<int>>, p: nat)
    requires Geometry(a, pixels) && |lines| == 32 && AreFromPlanes(lines, pixels, red, green, blue) && p < pixels - 4
    requires forall line :: line in lines ==> |line| == 16200
    requires KeptAll(a, lines, pixels)
    ensures SlotsOfPlane(a, 0, p, Ranked(red, p)) && SlotsOfPlane(a, 1, p, Ranked(green, p))
    ensures SlotsOfPlane(a, 2, p, Ranked(blue, p))
  {
    SlotsAreOfPlane(a, lines, pixels, red, 0, p);
    SlotsAreOfPlane(a, lines, pixels, green, 1, p);
    SlotsAreOfPlane(a, lines, pixels, blue, 2, p);
  }

  /** The 32-times calibration, colour by colour: the words of each plane go to its own slots and its own
      averages, whatever follows the planes in a line. */
  method AdjustPlanes(a: array<int>, w: array<int>, lines: seq<seq<int>>, pixels: nat, ghost red: seq<seq<int>>,
                      ghost green: seq<seq<int>>, ghost blue: seq<seq<int>>)
    requires a != w && a.Length == 129600 && w.Length == 32400
    requires |lines| == 32 && AreFromPlanes(lines, pixels, red, green, blue)
    modifies a, w
    ensures AveragesArePlanes(w[..], pixels, red, green, blue) && SlotsArePlanes(a[..], pixels, red, green, blue)
    // the first four words of a colour have no pixel, the last four pixels of a line no slots
    ensures forall t :: 0 <= t < 16200 && t % 5400 < 4 ==> w[t] == 0
    ensures forall i :: 0 <= i < a.Length && i % 5400 >= pixels - 4 ==> a[i] == if i < 48600 then 0 else 0xfff
  {
    forall line | line in lines
      ensures |line| == 16200
    {
    }
    Adjust12BitShading(a, w, lines, pixels);
    AllAverages(w[..], lines, pixels, red, green, blue);
    AllSlots(a[..], lines, pixels, red, green, blue);
  }

  /** Even light of 1000, 2000 and 3000: red and green come out right, blue as 2760 instead of 2820. */
  lemma EvenPlanes(red: seq<int>, green: seq<int>, blue: seq<int>)
    requires |red| == |green| == |blue| == 32
    requires forall n :: 0 <= n < 32 ==> red[n] == 1000 && green[n] == 2000 && blue[n] == 3000
    ensures MeanOfPlane(1000, Sort(LowBits(red), true)) && MeanOfPlane(2000, Sort(LowBits(green), true))
    ensures BlueOfPlane(2760, blue, Sort(LowBits(blue), true))
  {
    EvenSort(red, 1000);
    EvenSort(green, 2000);
    EvenSort(blue, 3000);
    EvenScaledSum(blue);
  }

  lemma EvenSort(words: seq<int>, v: int)
    requires |words| == 32 && 0 <= v < 4096 && forall n :: 0 <= n < 32 ==> words[n] == v
    ensures var s := Sort(LowBits(words), true);
      Sum(s[5..29]) == 24 * v && Sum(s[..5]) == 5 * v && Sum(s[29..]) == 3 * v
  {
    var samples := LowBits(words);
    var s := Sort(samples, true);
    SortSorts(samples, true);
    forall i | 0 <= i < |s|
      ensures s[i] == v
    {
      assert s[i] in multiset(s) && s[i] in samples;
    }
    SumBounds(s[5..29], v, v);
    SumBounds(s[..5], v, v);
    SumBounds(s[29..], v, v);
  }

  lemma {:induction false} EvenScaledSum(words: seq<int>)
    requires forall n :: 0 <= n < |words| ==> words[n] == 3000
    ensures ScaledSum(words) == 2820 * |words|
  {
    if words != [] {
      EvenScaledSum(words[..|words| - 1]);
    }
  }
}
