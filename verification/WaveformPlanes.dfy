// Shading calibration on ASIC 98003, from the colour planes of the lines that are read to the averages and
// kept extremes of each value. Averages and slots of a colour scan are interleaved.

module WaveformPlanes {
  import opened TrimmedMean
  import opened Words
  import opened Planes
  import opened Shading98003

  /** The words of pixel p of a plane in ascending order. */
  function RankedWords(plane: seq<seq<int>>, p: nat): (r: seq<int>)
    requires forall n :: 0 <= n < |plane| ==> p < |plane[n]|
    ensures |r| == |plane|
  {
    Sort(AtPixel(plane, p), true)
  }

  /** Where a plane lies in a line, and which lane takes a pixel of it. */
  ghost predicate IsChannel(m: Mode, c: nat, from: nat) {
    m.Valid() && if m.colour then c < 3 && from == m.pixels * c else c == 0 && from == m.pixels
  }

  function LaneOf(m: Mode, c: nat, p: nat): nat {
    if m.colour then 3 * p + c else p
  }

  lemma SamplesOfPlane(lines: seq<seq<int>>, m: Mode, plane: seq<seq<int>>, c: nat, from: nat, p: nat)
    requires AreLines(lines) && IsChannel(m, c, from) && Holds(lines, from, m.pixels, plane) && p < m.pixels
    ensures LaneOf(m, c, p) < m.Lanes() && Samples(lines, m, LaneOf(m, c, p)) == AtPixel(plane, p)
  {
    var j := LaneOf(m, c, p);
    SourceOfLane(m, c, from, p);
    var samples, words := Samples(lines, m, j), AtPixel(plane, p);
    forall n | 0 <= n < |lines|
      ensures samples[n] == words[n]
    {
      var line := lines[n];
      assert samples[n] == line[from + p];
      assert line[from..from + m.pixels][p] == line[from + p] && line[from..from + m.pixels] == plane[n];
    }
  }

  lemma SourceOfLane(m: Mode, c: nat, from: nat, p: nat)
    requires IsChannel(m, c, from) && p < m.pixels
    ensures LaneOf(m, c, p) < m.Lanes() && m.Source(LaneOf(m, c, p)) == from + p
  {
  }

  /** What a sum starts with: the first 8100 are cleared. */
  function LeftOver(w: seq<int>, j: nat): int
    requires 2 * j + 1 < |w|
  {
    if j < 8100 then 0 else w[2 * j] + 0x1_0000 * w[2 * j + 1]
  }

  /** The average of a colour value: what was left over and the 24 middle words. */
  ghost predicate ColourValue(value: int, leftOver: int, s: seq<int>)
    requires |s| == 32
  {
    value == (leftOver + Sum(s[5..29])) % 0x1_0000_0000 / 24 % 0x1_0000
  }

  /** The average of a gray value: only the three brightest words are taken off. */
  ghost predicate GrayValue(value: int, s: seq<int>)
    requires |s| == 32
  {
    value == Sum(s[..29]) / 24 % 0x1_0000
  }

  /** The slots of a value, as far apart as there are values: the three brightest words, and the five darkest
      in colour, but zeros in gray. */
  ghost predicate SlotsOfValue(a: seq<int>, lanes: nat, j: nat, s: seq<int>, colour: bool)
    requires j < lanes && |a| >= 8 * lanes && |s| == 32
  {
    && (forall k :: 0 <= k < 3 ==> (Fits(lanes, j, k); a[k * lanes + j] == s[31 - k]))
    && (forall k :: 3 <= k < 8 ==> (Fits(lanes, j, k); a[k * lanes + j] == if colour then s[k - 3] else 0))
  }

  lemma SlotWords(a: seq<int>, lanes: nat, j: nat, samples: seq<int>, colour: bool)
    requires j < lanes && |a| >= KEPT * lanes && |samples| == 32
    requires Lane(a, lanes, j) == KeptSlots(samples, colour)
    ensures SlotsOfValue(a, lanes, j, Sort(samples, true), colour)
  {
    var s := Sort(samples, true);
    HilightsOfSorted(samples, 0, s);
    KeptPrefix(samples, SHADOWS, 0xffff, true);
    LaneWords(a, lanes, j, Kept(samples, HILIGHTS, 0, false),
              if colour then Kept(samples, SHADOWS, 0xffff, true) else Padding(SHADOWS, 0), s, colour);
  }

  lemma LaneWords(a: seq<int>, lanes: nat, j: nat, hi: seq<int>, lo: seq<int>, s: seq<int>, colour: bool)
    requires j < lanes && |a| >= KEPT * lanes && |s| == 32 && IsTop(hi, s) && |lo| == 5
    requires Lane(a, lanes, j) == hi + lo && forall k :: 0 <= k < 5 ==> lo[k] == if colour then s[k] else 0
    ensures SlotsOfValue(a, lanes, j, s, colour)
  {
    var lane := Lane(a, lanes, j);
    forall k | 0 <= k < 3
      ensures (Fits(lanes, j, k); a[k * lanes + j] == s[31 - k])
    {
      assert lane[k] == Slot(a, lanes, j, k);
    }
    forall k | 3 <= k < 8
      ensures (Fits(lanes, j, k); a[k * lanes + j] == if colour then s[k - 3] else 0)
    {
      assert lane[k] == Slot(a, lanes, j, k) && lane[k] == lo[k - 3];
    }
  }

  lemma AverageOfWords(samples: seq<int>, leftOver: int, colour: bool)
    requires |samples| == 32 && AreWords(samples)
    ensures var s, value := Sort(samples, true), Average(samples, leftOver, colour);
      (colour ==> ColourValue(value, leftOver, s)) && (!colour && leftOver == 0 ==> GrayValue(value, s))
  {
    var s := Sort(samples, true);
    ExtremesAndMiddle(samples, 0, 0xffff);
    SumConcat(Kept(samples, HILIGHTS, 0, false), Kept(samples, SHADOWS, 0xffff, true));
    if !colour { SumOfGray(samples); }
  }

  lemma SumOfGray(samples: seq<int>)
    requires |samples| == 32 && AreWords(samples)
    ensures var s := Sort(samples, true);
      Sum(samples) - Sum(KeptSlots(samples, false)) == Sum(s[..29]) && 0 <= Sum(s[..29]) <= 29 * 0xffff
  {
    var s := Sort(samples, true);
    var hi := Kept(samples, HILIGHTS, 0, false);
    ExtremesAndMiddle(samples, 0, 0xffff);
    KeptPrefix(samples, SHADOWS, 0xffff, true);
    ZeroSum(SHADOWS);
    SumConcat(hi, Padding(SHADOWS, 0));
    SumSplit(s[..29], SHADOWS);
    assert s[..29][..5] == s[..5] && s[..29][5..] == s[5..29];
    SortedBound(samples, 0, 29);
    assert s[0..29] == s[..29];
  }

  /** One plane: every pixel from the fourth on has its own average and its own slots. */
  ghost predicate PlaneShaded(w: seq<int>, first: seq<int>, a: seq<int>, m: Mode, plane: seq<seq<int>>, c: nat)
    requires m.Valid() && |w| == |first| == 32400 && |a| >= 8 * m.Lanes() && |plane| == 32 && c < 3
    requires forall n :: 0 <= n < 32 ==> |plane[n]| == m.pixels
  {
    forall p :: 4 <= p < m.pixels ==>
      var s := RankedWords(plane, p);
      if m.colour then
        && ColourValue(w[3 * p + c], LeftOver(first, 3 * p + c), s)
        && SlotsOfValue(a, 3 * m.pixels, 3 * p + c, s, true)
      else GrayValue(w[p], s) && SlotsOfValue(a, m.pixels, p, s, false)
  }

  /** The first four pixels have no averages, and their slots stay as they were cleared. */
  ghost predicate FrontUntouched(w: seq<int>, a: seq<int>, m: Mode)
    requires m.Valid() && |w| == 32400 && |a| >= 8 * m.Lanes()
  {
    forall j :: 0 <= j < (if m.colour then 12 else 4) ==>
      w[j] == 0 && forall k :: 0 <= k < 8 ==> SlotCleared(a, m.Lanes(), j, k, m.colour)
  }

  predicate SlotCleared(a: seq<int>, lanes: nat, j: nat, k: nat, colour: bool)
    requires j < lanes && k < 8 && |a| >= 8 * lanes
  {
    Fits(lanes, j, k);
    a[k * lanes + j] == if colour && k >= 3 then 0xffff else 0
  }

  lemma FrontStays(w: seq<int>, a: seq<int>, m: Mode, lines: seq<seq<int>>)
    requires m.Valid() && AreLines(lines) && |w| == 32400 && |a| >= KEPT * m.Lanes() && KeptAll(a, lines, m)
    requires forall i :: 0 <= i < m.First() ==> w[i] == 0
    ensures FrontUntouched(w, a, m)
  {
    forall j, k | 0 <= j < m.First() && 0 <= k < 8
      ensures SlotCleared(a, m.Lanes(), j, k, m.colour)
    {
      var lane := Lane(a, m.Lanes(), j);
      assert lane == KeptSlots([], m.colour) && lane[k] == Slot(a, m.Lanes(), j, k);
    }
  }

  lemma ShadedPlane(w: seq<int>, first: seq<int>, a: seq<int>, m: Mode, lines: seq<seq<int>>, plane: seq<seq<int>>,
                    c: nat, from: nat)
    requires AreLines(lines) && |lines| == 32 && IsChannel(m, c, from) && Holds(lines, from, m.pixels, plane)
    requires |w| == |first| == 32400 && |a| >= KEPT * m.Lanes() && KeptAll(a, lines, m)
    requires forall j :: m.First() <= j < m.Lanes() ==> w[j] == Average(Samples(lines, m, j), Stale(first, j), m.colour)
    ensures PlaneShaded(w, first, a, m, plane, c)
  {
    forall p | 4 <= p < m.pixels
      ensures var s, j := RankedWords(plane, p), LaneOf(m, c, p);
        && (if m.colour then ColourValue(w[j], LeftOver(first, j), s) else GrayValue(w[j], s))
        && SlotsOfValue(a, m.Lanes(), j, s, m.colour)
    {
      ShadedPixel(w, first, a, m, lines, plane, c, from, p);
    }
  }

  lemma SamplesAreWords(lines: seq<seq<int>>, m: Mode, j: nat)
    requires m.Valid() && AreLines(lines) && j < m.Lanes()
    ensures AreWords(Samples(lines, m, j))
  {
    forall n | 0 <= n < |lines|
      ensures 0 <= Samples(lines, m, j)[n] < 0x1_0000
    {
      var line, i := lines[n], m.Source(j);
      assert IsLine(line) && i < |line| && 0 <= line[i] < 0x1_0000;
      assert Samples(lines, m, j)[n] == line[i];
    }
  }

  lemma ShadedPixel(w: seq<int>, first: seq<int>, a: seq<int>, m: Mode, lines: seq<seq<int>>, plane: seq<seq<int>>,
                    c: nat, from: nat, p: nat)
    requires AreLines(lines) && |lines| == 32 && IsChannel(m, c, from) && Holds(lines, from, m.pixels, plane)
    requires |w| == |first| == 32400 && |a| >= KEPT * m.Lanes() && KeptAll(a, lines, m) && 4 <= p < m.pixels
    requires forall j :: m.First() <= j < m.Lanes() ==> w[j] == Average(Samples(lines, m, j), Stale(first, j), m.colour)
    ensures var s, j := RankedWords(plane, p), LaneOf(m, c, p);
      && j < m.Lanes() && (if m.colour then ColourValue(w[j], LeftOver(first, j), s) else GrayValue(w[j], s))
      && SlotsOfValue(a, m.Lanes(), j, s, m.colour)
  {
    var j := LaneOf(m, c, p);
    SamplesOfPlane(lines, m, plane, c, from, p);
    SamplesAreWords(lines, m, j);
    SlotWords(a, m.Lanes(), j, Samples(lines, m, j), m.colour);
    AverageOfWords(Samples(lines, m, j), Stale(first, j), m.colour);
  }

  /** A colour calibration, plane by plane. */
  method ShadeColour(a: array<int>, w: array<int>, lines: seq<seq<int>>, pixels: nat, ghost red: seq<seq<int>>,
                     ghost green: seq<seq<int>>, ghost blue: seq<seq<int>>)
    requires a != w && (pixels == 2700 || pixels == 5400) && w.Length == 32400 && a.Length >= 24 * pixels
    requires AreLines(lines) && |lines| == 32 && AreWords(w[..])
    requires Holds(lines, 0, pixels, red) && Holds(lines, pixels, pixels, green) && Holds(lines, 2 * pixels, pixels, blue)
    modifies a, w
    ensures var m := Mode(true, pixels);
      && PlaneShaded(w[..], old(w[..]), a[..], m, red, 0) && PlaneShaded(w[..], old(w[..]), a[..], m, green, 1)
      && PlaneShaded(w[..], old(w[..]), a[..], m, blue, 2) && FrontUntouched(w[..], a[..], m)
  {
    ghost var first := w[..];
    var m := Mode(true, pixels);
    AdjustShadingWaveform(a, w, lines, m);
    FrontStays(w[..], a[..], m, lines);
    ShadedPlane(w[..], first, a[..], m, lines, red, 0, 0);
    ShadedPlane(w[..], first, a[..], m, lines, green, 1, pixels);
    ShadedPlane(w[..], first, a[..], m, lines, blue, 2, 2 * pixels);
  }

  /** A gray calibration takes the second plane of every line. */
  method ShadeGray(a: array<int>, w: array<int>, lines: seq<seq<int>>, pixels: nat, ghost plane: seq<seq<int>>)
    requires a != w && (pixels == 2700 || pixels == 5400) && w.Length == 32400 && a.Length >= 24 * pixels
    requires AreLines(lines) && |lines| == 32 && AreWords(w[..]) && Holds(lines, pixels, pixels, plane)
    modifies a, w
    ensures PlaneShaded(w[..], old(w[..]), a[..], Mode(false, pixels), plane, 0)
    ensures FrontUntouched(w[..], a[..], Mode(false, pixels))
  {
    ghost var first := w[..];
    AdjustShadingWaveform(a, w, lines, Mode(false, pixels));
    FrontStays(w[..], a[..], Mode(false, pixels), lines);
    ShadedPlane(w[..], first, a[..], Mode(false, pixels), lines, plane, 0, pixels);
  }
}
