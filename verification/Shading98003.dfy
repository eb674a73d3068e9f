// Shading calibration on ASIC 98003 (plustek-pp_dac.c:1931-2171), with the memory for the kept
// extremes present: 32 lines are summed while the extremes of every value are kept, and the sums
// are narrowed to 16-bit averages inside the buffer that holds them.
//
// The channels of a colour scan are interleaved; a gray scan has one.  A "lane" is one value of
// one pixel: lane 3 * pixel + channel in colour, lane = pixel in gray.

module Shading98003 {
  import opened TrimmedMean
  import opened Words
  import opened Arith

  const BEGIN: nat := 4
  const KEPT: nat := HILIGHTS + SHADOWS

  /** A colour or gray scan, at 600 dpi (5400 pixels) or 300 dpi (2700 pixels). */
  datatype Mode = Mode(colour: bool, pixels: nat) {
    predicate Valid() {
      pixels == 2700 || pixels == 5400
    }

    /** The number of lanes, which is also the distance of the slots of one lane. */
    function Lanes(): nat {
      if colour then 3 * pixels else pixels
    }

    function First(): nat {
      if colour then 3 * BEGIN else BEGIN
    }

    /** Where a line read from the scanner holds the value of a lane. */
    function Source(j: nat): (s: nat)
      requires Valid() && j < Lanes()
      ensures s < 16200
    {
      if colour then j % 3 * pixels + j / 3 else pixels + j
    }
  }

  predicate IsLine(line: seq<int>) {
    |line| == 16200 && AreWords(line)
  }

  predicate AreLines(lines: seq<seq<int>>) {
    forall n :: 0 <= n < |lines| ==> IsLine(lines[n])
  }

  // ----- the slots -----

  /** Slot k of lane j. */
  function Slot(a: seq<int>, lanes: nat, j: nat, k: nat): int
    requires j < lanes && k < KEPT && |a| >= KEPT * lanes
  {
    Fits(lanes, j, k);
    a[k * lanes + j]
  }

  lemma Fits(lanes: nat, j: nat, k: nat)
    requires j < lanes && k < KEPT
    ensures 0 <= k * lanes + j < KEPT * lanes
  {
    assert (k + 1) * lanes <= KEPT * lanes;
  }

  lemma PlacesDiffer(lanes: nat, j: nat, k: nat, j': nat, k': nat)
    requires j < lanes && j' < lanes && (j != j' || k != k')
    ensures k * lanes + j != k' * lanes + j'
  {
    if k * lanes + j == k' * lanes + j' {
      var n := k * lanes + j;
      Quotient(n, lanes, k, j);
      Quotient(n, lanes, k', j');
      assert false;
    }
  }

  method PutSlot(a: array<int>, lanes: nat, j: nat, k: nat, v: int)
    requires j < lanes && k < KEPT && a.Length >= KEPT * lanes
    modifies a
    ensures forall j', k' :: 0 <= j' < lanes && 0 <= k' < KEPT ==>
      (Slot(a[..], lanes, j', k') == if j' == j && k' == k then v else old(Slot(a[..], lanes, j', k')))
  {
    Fits(lanes, j, k);
    ghost var before := a[..];
    a[k * lanes + j] := v;
    forall j', k' | 0 <= j' < lanes && 0 <= k' < KEPT
      ensures Slot(a[..], lanes, j', k') == if j' == j && k' == k then v else Slot(before, lanes, j', k')
    {
      Fits(lanes, j', k');
      if j' != j || k' != k { PlacesDiffer(lanes, j, k, j', k'); }
    }
  }

  /** The slots of a lane from one place on. */
  function Slots(a: seq<int>, lanes: nat, j: nat, from: nat, count: nat): (r: seq<int>)
    requires j < lanes && from + count <= KEPT && |a| >= KEPT * lanes
    ensures |r| == count
  {
    seq(count, k requires 0 <= k < count => Slot(a, lanes, j, from + k))
  }

  /** Only these slots of this lane may differ. */
  ghost predicate SlotsFrame(before: seq<int>, after: seq<int>, lanes: nat, j: nat, from: nat, count: nat)
    requires |before| >= KEPT * lanes && |after| >= KEPT * lanes
  {
    forall j', k' :: 0 <= j' < lanes && 0 <= k' < KEPT && !(j' == j && from <= k' < from + count) ==>
      Slot(after, lanes, j', k') == Slot(before, lanes, j', k')
  }

  lemma FrameChain(s0: seq<int>, s1: seq<int>, s2: seq<int>, lanes: nat, j: nat, from: nat, count: nat)
    requires |s0| >= KEPT * lanes && |s1| >= KEPT * lanes && |s2| >= KEPT * lanes
    requires SlotsFrame(s0, s1, lanes, j, from, count) && SlotsFrame(s1, s2, lanes, j, from + count, 1)
    ensures SlotsFrame(s0, s2, lanes, j, from, count + 1)
  {
  }

  /** A comparison with one slot and the exchange if need be. */
  ghost predicate Compared(s0: seq<int>, s1: seq<int>, lanes: nat, j: nat, k: nat, v: int, next: int, dark: bool)
    requires |s0| >= KEPT * lanes && |s1| >= KEPT * lanes && j < lanes && k < KEPT
  {
    var was, now := Slot(s0, lanes, j, k), Slot(s1, lanes, j, k);
    SlotsFrame(s0, s1, lanes, j, k, 1) && if Before(v, was, dark) then now == v && next == was else now == was && next == v
  }

  method OfferSlot(a: array<int>, lanes: nat, j: nat, k: nat, v: int, dark: bool) returns (next: int)
    requires j < lanes && k < KEPT && a.Length >= KEPT * lanes
    modifies a
    ensures Compared(old(a[..]), a[..], lanes, j, k, v, next, dark)
  {
    Fits(lanes, j, k);
    next := v;
    if Before(next, a[k * lanes + j], dark) {
      var tmp := next;
      next := a[k * lanes + j];
      PutSlot(a, lanes, j, k, tmp);
    }
  }

  lemma SlotsUpdate(s0: seq<int>, s1: seq<int>, lanes: nat, j: nat, from: nat, count: nat, b: nat)
    requires |s0| >= KEPT * lanes && |s1| >= KEPT * lanes
    requires j < lanes && b < count && from + count <= KEPT && SlotsFrame(s0, s1, lanes, j, from + b, 1)
    ensures Slots(s1, lanes, j, from, count) == Slots(s0, lanes, j, from, count)[b := Slot(s1, lanes, j, from + b)]
  {
  }

  lemma PassingCompared(s0: seq<int>, s1: seq<int>, lanes: nat, j: nat, from: nat, after: seq<int>, b: nat,
                        v: int, next: int, dark: bool)
    requires |s0| >= KEPT * lanes && |s1| >= KEPT * lanes
    requires j < lanes && b < |after| && from + |after| <= KEPT
    requires Passing(Slots(s0, lanes, j, from, |after|), after, b, v, dark)
    requires Compared(s0, s1, lanes, j, from + b, v, next, dark)
    ensures Passing(Slots(s1, lanes, j, from, |after|), after, b + 1, next, dark)
  {
    var now := Slots(s0, lanes, j, from, |after|);
    PassingStep(now, after, b, v, dark);
    SlotsUpdate(s0, s1, lanes, j, from, |after|, b);
    assert now[b := now[b]] == now;
  }

  /** Offers one value to some slots of one lane. */
  method KeepExtremes(a: array<int>, lanes: nat, j: nat, from: nat, count: nat, v: int, dark: bool)
    requires j < lanes && from + count <= KEPT && a.Length >= KEPT * lanes
    modifies a
    ensures Slots(a[..], lanes, j, from, count) == Pass(old(Slots(a[..], lanes, j, from, count)), v, dark)
    ensures SlotsFrame(old(a[..]), a[..], lanes, j, from, count)
  {
    ghost var start := a[..];
    ghost var after := Pass(Slots(start, lanes, j, from, count), v, dark);
    var w, b := v, 0;
    while b < count
      invariant b <= count && SlotsFrame(start, a[..], lanes, j, from, b)
      invariant Passing(Slots(a[..], lanes, j, from, count), after, b, w, dark)
    {
      ghost var prev := a[..];
      var next := OfferSlot(a, lanes, j, from + b, w, dark);
      FrameChain(start, prev, a[..], lanes, j, from, b);
      PassingCompared(prev, a[..], lanes, j, from, after, b, w, next, dark);
      w, b := next, b + 1;
    }
    PassingDone(Slots(a[..], lanes, j, from, count), after, w, dark);
  }

  // ----- one line -----

  /** All slots of a lane: first the brightest, then the darkest. */
  function Lane(a: seq<int>, lanes: nat, j: nat): (r: seq<int>)
    requires j < lanes && |a| >= KEPT * lanes
    ensures |r| == KEPT
  {
    Slots(a, lanes, j, 0, HILIGHTS) + Slots(a, lanes, j, HILIGHTS, SHADOWS)
  }

  function LanePass(slots: seq<int>, v: int): (r: seq<int>)
    requires |slots| == KEPT
    ensures |r| == KEPT
  {
    Pass(slots[..HILIGHTS], v, false) + Pass(slots[HILIGHTS..], v, true)
  }

  /** Offers one value to a lane, and leaves the other lanes alone. */
  method OfferValue(a: array<int>, lanes: nat, j: nat, v: int)
    requires j < lanes && a.Length >= KEPT * lanes
    modifies a
    ensures forall i :: 0 <= i < lanes ==>
      Lane(a[..], lanes, i) == if i == j then LanePass(old(Lane(a[..], lanes, j)), v) else old(Lane(a[..], lanes, i))
  {
    ghost var s0 := a[..];
    KeepExtremes(a, lanes, j, 0, HILIGHTS, v, false);
    ghost var s1 := a[..];
    KeepExtremes(a, lanes, j, HILIGHTS, SHADOWS, v, true);
    forall i | 0 <= i < lanes
      ensures Lane(a[..], lanes, i) == if i == j then LanePass(Lane(s0, lanes, j), v) else Lane(s0, lanes, i)
    {
      OfferedLane(s0, s1, a[..], lanes, j, v, i);
    }
  }

  lemma OfferedLane(s0: seq<int>, s1: seq<int>, s2: seq<int>, lanes: nat, j: nat, v: int, i: nat)
    requires |s0| >= KEPT * lanes && |s1| >= KEPT * lanes && |s2| >= KEPT * lanes && j < lanes && i < lanes
    requires Slots(s1, lanes, j, 0, HILIGHTS) == Pass(Slots(s0, lanes, j, 0, HILIGHTS), v, false)
    requires Slots(s2, lanes, j, HILIGHTS, SHADOWS) == Pass(Slots(s1, lanes, j, HILIGHTS, SHADOWS), v, true)
    requires SlotsFrame(s0, s1, lanes, j, 0, HILIGHTS) && SlotsFrame(s1, s2, lanes, j, HILIGHTS, SHADOWS)
    ensures Lane(s2, lanes, i) == if i == j then LanePass(Lane(s0, lanes, j), v) else Lane(s0, lanes, i)
  {
    assert Slots(s2, lanes, i, 0, HILIGHTS) == Slots(s1, lanes, i, 0, HILIGHTS);
    assert Slots(s1, lanes, i, HILIGHTS, SHADOWS) == Slots(s0, lanes, i, HILIGHTS, SHADOWS);
    if i != j {
      assert Slots(s1, lanes, i, 0, HILIGHTS) == Slots(s0, lanes, i, 0, HILIGHTS);
      assert Slots(s2, lanes, i, HILIGHTS, SHADOWS) == Slots(s1, lanes, i, HILIGHTS, SHADOWS);
    } else {
      assert Lane(s0, lanes, j)[..HILIGHTS] == Slots(s0, lanes, j, 0, HILIGHTS);
      assert Lane(s0, lanes, j)[HILIGHTS..] == Slots(s0, lanes, j, HILIGHTS, SHADOWS);
    }
  }

  /** What a line does to the slots of the lanes below a limit. */
  ghost predicate Saved(before: seq<int>, after: seq<int>, m: Mode, line: seq<int>, limit: nat)
    requires m.Valid() && |before| >= KEPT * m.Lanes() && |after| >= KEPT * m.Lanes() && IsLine(line)
  {
    forall i :: 0 <= i < m.Lanes() ==>
      Lane(after, m.Lanes(), i) ==
        if m.First() <= i < limit then LanePass(Lane(before, m.Lanes(), i), line[m.Source(i)])
        else Lane(before, m.Lanes(), i)
  }

  method SaveHilightShadow(a: array<int>, m: Mode, line: seq<int>)
    requires m.Valid() && a.Length >= KEPT * m.Lanes() && IsLine(line)
    modifies a
    ensures Saved(old(a[..]), a[..], m, line, m.Lanes())
  {
    ghost var start := a[..];
    var j := m.First();
    while j < m.Lanes()
      invariant m.First() <= j <= m.Lanes() && Saved(start, a[..], m, line, j)
    {
      OfferValue(a, m.Lanes(), j, line[m.Source(j)]);
      j := j + 1;
    }
  }

  /** What a line does to the sums of the lanes below a limit. */
  ghost predicate Summed(before: seq<int>, after: seq<int>, m: Mode, line: seq<int>, limit: nat)
    requires m.Valid() && |before| >= 2 * m.Lanes() && |after| >= 2 * m.Lanes() && IsLine(line)
  {
    && (forall i :: 0 <= i < m.Lanes() ==>
      Dword(after, i) ==
        if m.First() <= i < limit then (Dword(before, i) + line[m.Source(i)]) % U32 else Dword(before, i))
    && (forall i :: 0 <= i < 2 * m.First() ==> after[i] == before[i])
  }

  method AddToSumBuffer(w: array<int>, m: Mode, line: seq<int>)
    requires m.Valid() && w.Length >= 2 * m.Lanes() && IsLine(line)
    modifies w
    ensures Summed(old(w[..]), w[..], m, line, m.Lanes())
  {
    ghost var start := w[..];
    var j := m.First();
    while j < m.Lanes()
      invariant m.First() <= j <= m.Lanes() && Summed(start, w[..], m, line, j)
    {
      SetDword(w, j, (w[2 * j] + 0x1_0000 * w[2 * j + 1] + line[m.Source(j)]) % U32);
      j := j + 1;
    }
  }

  // ----- any number of lines -----

  function Samples(lines: seq<seq<int>>, m: Mode, j: nat): (r: seq<int>)
    requires m.Valid() && AreLines(lines) && j < m.Lanes()
    ensures |r| == |lines|
  {
    seq(|lines|, n requires 0 <= n < |lines| => lines[n][m.Source(j)])
  }

  /** The slots after any number of samples.  The memory that is cleared for the bright slots of a
      colour scan covers all eight slots of a gray scan, so that its dark slots start at 0 and stay there. */
  function KeptSlots(samples: seq<int>, colour: bool): (r: seq<int>)
    ensures |r| == KEPT
  {
    Kept(samples, HILIGHTS, 0, false) + if colour then Kept(samples, SHADOWS, 0xffff, true) else Padding(SHADOWS, 0)
  }

  lemma {:induction false} PassZeros(slots: seq<int>, v: int)
    requires v >= 0 && forall k :: 0 <= k < |slots| ==> slots[k] == 0
    ensures Pass(slots, v, true) == slots
  {
    if slots != [] { PassZeros(slots[1..], v); }
  }

  lemma KeptSlotsStep(samples: seq<int>, v: int, colour: bool)
    requires AreWords(samples) && 0 <= v < 0x1_0000
    ensures LanePass(KeptSlots(samples, colour), v) == KeptSlots(samples + [v], colour)
  {
    var slots := KeptSlots(samples, colour);
    assert slots[..HILIGHTS] == Kept(samples, HILIGHTS, 0, false);
    PassKeeps(samples, v, HILIGHTS, 0, false);
    if colour {
      assert slots[HILIGHTS..] == Kept(samples, SHADOWS, 0xffff, true);
      PassKeeps(samples, v, SHADOWS, 0xffff, true);
    } else {
      assert slots[HILIGHTS..] == Padding(SHADOWS, 0);
      PassZeros(slots[HILIGHTS..], v);
    }
  }

  ghost predicate KeptAll(a: seq<int>, lines: seq<seq<int>>, m: Mode)
    requires m.Valid() && AreLines(lines) && |a| >= KEPT * m.Lanes()
  {
    && (forall j :: m.First() <= j < m.Lanes() ==> Lane(a, m.Lanes(), j) == KeptSlots(Samples(lines, m, j), m.colour))
    && (forall j :: 0 <= j < m.First() ==> Lane(a, m.Lanes(), j) == KeptSlots([], m.colour))
  }

  /** What a sum starts with: only 8100 of the 32-bit sums are cleared. */
  function Stale(w: seq<int>, j: nat): int
    requires 2 * j + 1 < |w|
  {
    if j < 8100 then 0 else Dword(w, j)
  }

  ghost predicate SummedAll(w: seq<int>, first: seq<int>, lines: seq<seq<int>>, m: Mode)
    requires m.Valid() && AreLines(lines) && |w| >= 2 * m.Lanes() && |first| >= 2 * m.Lanes()
  {
    && (forall j :: m.First() <= j < m.Lanes() ==> Dword(w, j) == (Stale(first, j) + Sum(Samples(lines, m, j))) % U32)
    && (forall i :: 0 <= i < 2 * m.First() ==> w[i] == 0)
  }

  lemma SamplesStep(lines: seq<seq<int>>, line: seq<int>, m: Mode, j: nat)
    requires m.Valid() && AreLines(lines) && IsLine(line) && j < m.Lanes()
    ensures AreLines(lines + [line]) && AreWords(Samples(lines, m, j))
    ensures Samples(lines + [line], m, j) == Samples(lines, m, j) + [line[m.Source(j)]]
    ensures Sum(Samples(lines + [line], m, j)) == Sum(Samples(lines, m, j)) + line[m.Source(j)]
  {
    var v := line[m.Source(j)];
    SumConcat(Samples(lines, m, j), [v]);
    assert Sum([v]) == v;
  }

  lemma SavedStep(before: seq<int>, after: seq<int>, lines: seq<seq<int>>, line: seq<int>, m: Mode)
    requires m.Valid() && AreLines(lines) && IsLine(line)
    requires |before| >= KEPT * m.Lanes() && |after| >= KEPT * m.Lanes()
    requires KeptAll(before, lines, m) && Saved(before, after, m, line, m.Lanes())
    ensures AreLines(lines + [line]) && KeptAll(after, lines + [line], m)
  {
    forall j | m.First() <= j < m.Lanes()
      ensures Lane(after, m.Lanes(), j) == KeptSlots(Samples(lines + [line], m, j), m.colour)
    {
      SamplesStep(lines, line, m, j);
      KeptSlotsStep(Samples(lines, m, j), line[m.Source(j)], m.colour);
    }
  }

  lemma SummedStep(before: seq<int>, after: seq<int>, first: seq<int>, lines: seq<seq<int>>, line: seq<int>, m: Mode)
    requires m.Valid() && AreLines(lines) && IsLine(line)
    requires |before| >= 2 * m.Lanes() && |after| >= 2 * m.Lanes() && |first| >= 2 * m.Lanes()
    requires SummedAll(before, first, lines, m) && Summed(before, after, m, line, m.Lanes())
    ensures AreLines(lines + [line]) && SummedAll(after, first, lines + [line], m)
  {
    forall j | m.First() <= j < m.Lanes()
      ensures Dword(after, j) == (Stale(first, j) + Sum(Samples(lines + [line], m, j))) % U32
    {
      SamplesStep(lines, line, m, j);
      AddAfterCut(Stale(first, j) + Sum(Samples(lines, m, j)), line[m.Source(j)]);
    }
  }

  lemma AddAfterCut(x: int, v: int)
    ensures (x % U32 + v) % U32 == (x + v) % U32
  {
  }

  // ----- averages, narrowed in place -----

  /** The 16-bit average of a lane, computed from the sums before narrowing. */
  function Narrowed(w: seq<int>, a: seq<int>, m: Mode, j: nat): int
    requires m.Valid() && j < m.Lanes() && |w| >= 2 * m.Lanes() && |a| >= KEPT * m.Lanes()
  {
    (Dword(w, j) - Sum(Lane(a, m.Lanes(), j))) % U32 / 24 % 0x1_0000
  }

  lemma SumOfLane(a: seq<int>, lanes: nat, j: nat, k: nat)
    requires j < lanes && k < KEPT && |a| >= KEPT * lanes
    ensures var lane := Lane(a, lanes, j);
      lane[k] == Slot(a, lanes, j, k) && Sum(lane[..k + 1]) == Sum(lane[..k]) + Slot(a, lanes, j, k)
  {
    var lane := Lane(a, lanes, j);
    assert lane[..k + 1] == lane[..k] + [lane[k]];
    SumConcat(lane[..k], [lane[k]]);
    assert Sum([lane[k]]) == lane[k];
  }

  /** Takes the kept extremes of one lane off its sum, in the buffer. */
  method SubExtremes(w: array<int>, a: array<int>, m: Mode, j: nat)
    requires w != a && m.Valid() && j < m.Lanes() && w.Length >= 2 * m.Lanes() && a.Length >= KEPT * m.Lanes()
    requires 0 <= Dword(w[..], j) < U32
    modifies w
    ensures Dword(w[..], j) == (old(Dword(w[..], j)) - Sum(Lane(a[..], m.Lanes(), j))) % U32
    ensures forall i :: 0 <= i < w.Length && i != 2 * j && i != 2 * j + 1 ==> w[i] == old(w[i])
  {
    ghost var sum, lane := Dword(w[..], j), Lane(a[..], m.Lanes(), j);
    var k: nat := 0;
    assert lane[..0] == [];
    while k < KEPT
      invariant k <= KEPT && Dword(w[..], j) == (sum - Sum(lane[..k])) % U32
      invariant forall i :: 0 <= i < w.Length && i != 2 * j && i != 2 * j + 1 ==> w[i] == old(w[i])
    {
      SumOfLane(a[..], m.Lanes(), j, k);
      Fits(m.Lanes(), j, k);
      SetDword(w, j, (w[2 * j] + 0x1_0000 * w[2 * j + 1] - a[k * m.Lanes() + j]) % U32);
      k := k + 1;
    }
    assert lane[..KEPT] == lane;
  }

  /** The lanes from j on still have their sums; the lanes before have their averages. */
  ghost predicate Averaged(start: seq<int>, w: seq<int>, a: seq<int>, m: Mode, j: nat)
    requires m.Valid() && |start| == |w| >= 2 * m.Lanes() && |a| >= KEPT * m.Lanes()
  {
    && (forall i :: m.First() <= i < j && i < m.Lanes() ==> w[i] == Narrowed(start, a, m, i))
    && (forall i :: j <= i < m.Lanes() ==> Dword(w, i) == Dword(start, i))
    && (forall i :: 0 <= i < m.First() ==> w[i] == start[i])
  }

  lemma AveragedStep(start: seq<int>, prev: seq<int>, w: seq<int>, a: seq<int>, m: Mode, j: nat)
    requires m.Valid() && |start| == |prev| == |w| >= 2 * m.Lanes() && |a| >= KEPT * m.Lanes()
    requires m.First() <= j < m.Lanes() && Averaged(start, prev, a, m, j)
    requires forall i :: 0 <= i < |w| && i != j && i != 2 * j && i != 2 * j + 1 ==> w[i] == prev[i]
    requires w[j] == Narrowed(start, a, m, j)
    ensures Averaged(start, w, a, m, j + 1)
  {
  }

  method AverageAfterSub(w: array<int>, a: array<int>, m: Mode)
    requires w != a && m.Valid() && w.Length >= 2 * m.Lanes() && a.Length >= KEPT * m.Lanes()
    requires forall j :: m.First() <= j < m.Lanes() ==> 0 <= Dword(w[..], j) < U32
    modifies w
    ensures forall j :: m.First() <= j < m.Lanes() ==> w[j] == Narrowed(old(w[..]), a[..], m, j)
    ensures forall i :: 0 <= i < m.First() ==> w[i] == old(w[i])
  {
    ghost var start := w[..];
    var j := m.First();
    while j < m.Lanes()
      invariant m.First() <= j <= m.Lanes() && Averaged(start, w[..], a[..], m, j)
    {
      ghost var prev := w[..];
      assert Dword(w[..], j) == Dword(start, j);
      SubExtremes(w, a, m, j);
      w[j] := (w[2 * j] + 0x1_0000 * w[2 * j + 1]) / 24 % 0x1_0000;
      AveragedStep(start, prev, w[..], a[..], m, j);
      j := j + 1;
    }
  }

  /** The stored average of a lane, from its samples and what its sum started with. */
  function Average(samples: seq<int>, stale: int, colour: bool): int {
    (stale + Sum(samples) - Sum(KeptSlots(samples, colour))) % U32 / 24 % 0x1_0000
  }

  lemma NarrowedIsAverage(w: seq<int>, first: seq<int>, a: seq<int>, lines: seq<seq<int>>, m: Mode, j: nat)
    requires m.Valid() && AreLines(lines) && m.First() <= j < m.Lanes()
    requires |w| >= 2 * m.Lanes() && |first| >= 2 * m.Lanes() && |a| >= KEPT * m.Lanes()
    requires SummedAll(w, first, lines, m) && KeptAll(a, lines, m)
    ensures Narrowed(w, a, m, j) == Average(Samples(lines, m, j), Stale(first, j), m.colour)
  {
    CutBeforeSub(Stale(first, j) + Sum(Samples(lines, m, j)), Sum(KeptSlots(Samples(lines, m, j), m.colour)));
  }

  lemma CutBeforeSub(x: int, y: int)
    ensures (x % U32 - y) % U32 == (x - y) % U32
  {
  }

  method Clear(a: array<int>, w: array<int>, m: Mode)
    requires a != w && m.Valid() && w.Length == 32400 && a.Length >= 3 * KEPT * m.pixels && AreWords(w[..])
    modifies a, w
    ensures KeptAll(a[..], [], m) && SummedAll(w[..], old(w[..]), [], m)
  {
    ghost var first := w[..];
    forall i | 0 <= i < 16200 { w[i] := 0; }
    forall i | 0 <= i < 3 * KEPT * m.pixels { a[i] := if i < 3 * HILIGHTS * m.pixels then 0 else 0xffff; }
    forall j | 0 <= j < m.Lanes()
      ensures Lane(a[..], m.Lanes(), j) == KeptSlots(Samples([], m, j), m.colour) == KeptSlots([], m.colour)
    {
      assert Samples([], m, j) == [];
      ClearedLane(a[..], m, j);
    }
    forall j | m.First() <= j < m.Lanes()
      ensures Dword(w[..], j) == (Stale(first, j) + Sum(Samples([], m, j))) % U32
    {
      assert Samples([], m, j) == [] && 0 <= Stale(first, j) < U32;
    }
  }

  lemma ClearedLane(a: seq<int>, m: Mode, j: nat)
    requires m.Valid() && j < m.Lanes() && |a| >= 3 * KEPT * m.pixels
    requires forall i :: 0 <= i < 3 * KEPT * m.pixels ==> a[i] == if i < 3 * HILIGHTS * m.pixels then 0 else 0xffff
    ensures Lane(a, m.Lanes(), j) == KeptSlots([], m.colour)
  {
  }

  /** Clears, reads 32 lines, averages. */
  method AdjustShadingWaveform(a: array<int>, w: array<int>, lines: seq<seq<int>>, m: Mode)
    requires a != w && m.Valid() && w.Length == 32400 && a.Length >= 3 * KEPT * m.pixels
    requires AreLines(lines) && |lines| == 32 && AreWords(w[..])
    modifies a, w
    ensures KeptAll(a[..], lines, m)
    ensures forall j :: m.First() <= j < m.Lanes() ==>
      w[j] == Average(Samples(lines, m, j), Stale(old(w[..]), j), m.colour)
    ensures forall i :: 0 <= i < m.First() ==> w[i] == 0
  {
    ghost var first := w[..];
    Clear(a, w, m);
    var n: nat := 0;
    assert lines[..0] == [];
    while n < 32
      invariant n <= 32 && KeptAll(a[..], lines[..n], m) && SummedAll(w[..], first, lines[..n], m)
    {
      ghost var slots, sums := a[..], w[..];
      SaveHilightShadow(a, m, lines[n]);
      AddToSumBuffer(w, m, lines[n]);
      SavedStep(slots, a[..], lines[..n], lines[n], m);
      SummedStep(sums, w[..], first, lines[..n], lines[n], m);
      assert lines[..n + 1] == lines[..n] + [lines[n]];
      n := n + 1;
    }
    assert lines[..32] == lines;
    ghost var sums := w[..];
    AverageAfterSub(w, a, m);
    forall j | m.First() <= j < m.Lanes()
      ensures w[j] == Average(Samples(lines, m, j), Stale(first, j), m.colour)
    {
      NarrowedIsAverage(sums, first, a[..], lines, m, j);
    }
  }

  // ----- what the averages mean -----

  lemma WordsBound(samples: seq<int>)
    requires AreWords(samples) && |samples| == 32
    ensures 0 <= Sum(Middle(samples)) <= 24 * 0xffff
    ensures 0 <= Sum(Sort(samples, true)[..SHADOWS]) <= 5 * 0xffff
  {
    SortedBound(samples, SHADOWS, |samples| - HILIGHTS);
    SortedBound(samples, 0, SHADOWS);
    assert Sort(samples, true)[0..SHADOWS] == Sort(samples, true)[..SHADOWS];
  }

  lemma SortedBound(samples: seq<int>, i: nat, j: nat)
    requires AreWords(samples) && i <= j <= |samples|
    ensures 0 <= Sum(Sort(samples, true)[i..j]) <= (j - i) * 0xffff
  {
    var s := Sort(samples, true);
    SortSorts(samples, true);
    forall t | 0 <= t < |s| ensures 0 <= s[t] < 0x1_0000 {
      assert s[t] in multiset(s) && s[t] in samples;
    }
    SumBounds(s[i..j], 0, 0xffff);
  }

  /** The effect of an excess on a sum, as a signed number: the 32-bit sum may wrap around. */
  function Effect(excess: int, middle: int): int {
    if middle + excess < U32 then excess else excess - U32
  }

  /** An excess in the sum does no harm exactly when the quotient by 24 does not see it. */
  lemma ExcessHarmless(middle: int, excess: int)
    requires 0 <= middle <= 24 * 0xffff && 0 <= excess < U32
    ensures (middle + excess) % U32 / 24 % 0x1_0000 == middle / 24
        <==> (middle % 24 + Effect(excess, middle)) / 24 % 0x1_0000 == 0
  {
    var effect := Effect(excess, middle);
    assert (middle + excess) % U32 == middle + effect;
    assert (middle + effect) / 24 == middle / 24 + (middle % 24 + effect) / 24;
    LowWord(middle / 24, (middle % 24 + effect) / 24);
  }

  lemma LowWord(x: int, y: int)
    requires 0 <= x < 0x1_0000
    ensures (x + y) % 0x1_0000 == x <==> y % 0x1_0000 == 0
  {
  }

  /** Main result for colour scans: the exact mean of the 24 middle samples, in every lane whose sum
      was cleared; in the others exactly when what was left in the sum does no harm. */
  lemma ColourAverage(samples: seq<int>, stale: int)
    requires AreWords(samples) && |samples| == 32 && 0 <= stale < U32
    ensures var middle := Sum(Middle(samples));
      (Average(samples, stale, true) == Mean(samples))
      <==> ((middle % 24 + Effect(stale, middle)) / 24 % 0x1_0000 == 0)
    ensures stale == 0 ==>
      Average(samples, stale, true) == Mean(samples)
      && Middle(samples)[0] <= Average(samples, stale, true) <= Middle(samples)[23]
  {
    var hi, lo := Kept(samples, HILIGHTS, 0, false), Kept(samples, SHADOWS, 0xffff, true);
    ExtremesAndMiddle(samples, 0, 0xffff);
    SumConcat(hi, lo);
    WordsBound(samples);
    ExcessHarmless(Sum(Middle(samples)), stale);
    MeanInMiddle(samples);
  }

  lemma {:induction false} SortOfSorted(s: seq<int>)
    requires Sorted(s, true)
    ensures Sort(s, true) == s
  {
    if s != [] {
      var last := |s| - 1;
      SortOfSorted(s[..last]);
      InsertAtEnd(s[last], s[..last]);
      assert s == s[..last] + [s[last]];
    }
  }

  lemma {:induction false} InsertAtEnd(v: int, s: seq<int>)
    requires forall i :: 0 <= i < |s| ==> s[i] <= v
    ensures Insert(v, s, true) == s + [v]
  {
    if s != [] {
      InsertAtEnd(v, s[1..]);
      assert s == [s[0]] + s[1..];
    }
  }

  /** So many samples of 0, the others of one value. */
  function Witness(zeros: nat, v: int): (s: seq<int>)
    requires 0 <= v < 0x1_0000
    ensures |s| == 32 && AreWords(s)
  {
    seq(32, i => if i < zeros then 0 else v)
  }

  lemma WitnessMiddle(zeros: nat, v: int, m: seq<int>)
    requires 0 <= v < 0x1_0000 && SHADOWS <= zeros <= |Witness(zeros, v)| - HILIGHTS && m == Middle(Witness(zeros, v))
    ensures Sum(m) == v * (|m| + SHADOWS - zeros)
  {
    var s := Witness(zeros, v);
    SortOfSorted(s);
    assert m == s[SHADOWS..|s| - HILIGHTS];
    var k := zeros - SHADOWS;
    SumSplit(m, k);
    forall i | 0 <= i < |m|
      ensures m[i] == if i < k then 0 else v
    {
      assert m[i] == s[SHADOWS + i];
    }
    SumBounds(m[..k], 0, 0);
    SumBounds(m[k..], v, v);
  }

  lemma WitnessAverage(zeros: nat, v: int, stale: int, middle: int)
    requires 0 <= v < 0x1_0000 && SHADOWS <= zeros <= 29 && middle == v * (29 - zeros) && 0 <= stale < U32
    ensures (Average(Witness(zeros, v), stale, true) == Mean(Witness(zeros, v)))
      <==> ((middle % 24 + Effect(stale, middle)) / 24 % 0x1_0000 == 0)
  {
    WitnessMiddle(zeros, v, Middle(Witness(zeros, v)));
    ColourAverage(Witness(zeros, v), stale);
  }

  lemma RightForAll(stale: int, samples: seq<int>)
    requires 0 <= stale && stale % 0x18_0000 == 0 && stale + 24 * 0xffff < U32
    requires AreWords(samples) && |samples| == 32
    ensures Average(samples, stale, true) == Mean(samples)
  {
    WordsBound(samples);
    WholeMultiple(Sum(Middle(samples)), stale);
    ColourAverage(samples, stale);
  }

  lemma WrongForSome(stale: int) returns (samples: seq<int>)
    requires 0 <= stale < U32 && !(stale % 0x18_0000 == 0 && stale + 24 * 0xffff < U32)
    ensures AreWords(samples) && |samples| == 32 && Average(samples, stale, true) != Mean(samples)
  {
    var zeros, v, middle := 5, 0xffff, 24 * 0xffff;
    if Effect(stale, 0) / 24 % 0x1_0000 != 0 {
      v, middle := 0, 0;
    } else if (23 + Effect(stale, 23)) / 24 % 0x1_0000 != 0 {
      zeros, v, middle := 6, 1, 23;
    }
    SomeWitnessFails(stale);
    WitnessAverage(zeros, v, stale, middle);
    samples := Witness(zeros, v);
  }

  /** The average of a colour lane is right for all readings exactly if what was left in its sum is a
      multiple of 24 * 65536 small enough that no sum wraps around. */
  lemma ColourAlwaysRight(stale: int)
    requires 0 <= stale < U32
    ensures (forall samples: seq<int> | AreWords(samples) && |samples| == 32 ::
               Average(samples, stale, true) == Mean(samples))
        <==> (stale % 0x18_0000 == 0 && stale + 24 * 0xffff < U32)
  {
    if stale % 0x18_0000 == 0 && stale + 24 * 0xffff < U32 {
      forall samples: seq<int> | AreWords(samples) && |samples| == 32
        ensures Average(samples, stale, true) == Mean(samples)
      {
        RightForAll(stale, samples);
      }
    } else {
      var samples := WrongForSome(stale);
      assert Average(samples, stale, true) != Mean(samples);
    }
  }

  lemma WholeMultiple(middle: int, stale: int)
    requires 0 <= middle <= 24 * 0xffff && 0 <= stale && stale % 0x18_0000 == 0 && stale + 24 * 0xffff < U32
    ensures (middle % 24 + Effect(stale, middle)) / 24 % 0x1_0000 == 0
  {
    var q := stale / 0x18_0000;
    assert (middle % 24 + stale) / 24 == 0x1_0000 * q;
  }

  lemma SomeWitnessFails(stale: int)
    requires 0 <= stale < U32 && !(stale % 0x18_0000 == 0 && stale + 24 * 0xffff < U32)
    ensures !(Effect(stale, 0) / 24 % 0x1_0000 == 0 && (23 + Effect(stale, 23)) / 24 % 0x1_0000 == 0
              && Effect(stale, 24 * 0xffff) / 24 % 0x1_0000 == 0)
  {
    if stale + 24 * 0xffff >= U32 {
      BelowZero(stale - U32);
    } else {
      NotWhole(stale);
    }
  }

  lemma BelowZero(e: int)
    requires -24 * 0xffff <= e < 0
    ensures e / 24 % 0x1_0000 != 0
  {
    assert -0xffff <= e / 24 <= -1;
  }

  lemma NotWhole(stale: nat)
    requires stale % 0x18_0000 != 0
    ensures !(stale / 24 % 0x1_0000 == 0 && (23 + stale) / 24 % 0x1_0000 == 0)
  {
    var q, r := stale / 24, stale % 24;
    if r == 0 {
      assert stale == 0x18_0000 * (q / 0x1_0000) + 24 * (q % 0x1_0000);
    } else {
      assert 23 + stale == 24 * (q + 1) + (r - 1);
    }
  }

  /** Main result for gray scans: the dark samples are never taken off, so that the average is the
      mean of the middle samples only for the darkest of pixels. */
  lemma GrayAverage(samples: seq<int>)
    requires AreWords(samples) && |samples| == 32
    ensures Average(samples, 0, false) == Mean(samples)
        <==> Sum(Sort(samples, true)[..SHADOWS]) + Sum(Middle(samples)) % 24 < 24
  {
    var hi, lo := Kept(samples, HILIGHTS, 0, false), Sort(samples, true)[..SHADOWS];
    ExtremesAndMiddle(samples, 0, 0xffff);
    KeptPrefix(samples, SHADOWS, 0xffff, true);
    ZeroSum(SHADOWS);
    SumConcat(hi, Padding(SHADOWS, 0));
    WordsBound(samples);
    ExcessHarmless(Sum(Middle(samples)), Sum(lo));
  }

  lemma {:induction false} ZeroSum(k: nat)
    ensures Sum(Padding(k, 0)) == 0
  {
    if k > 0 {
      assert Padding(k, 0)[1..] == Padding(k - 1, 0);
      ZeroSum(k - 1);
    }
  }

  /** Even light: a gray scan is right only up to a brightness of 4, and a colour scan goes wrong
      with as little as 24 left in the sum. */
  lemma EvenLight(samples: seq<int>, v: int)
    requires |samples| == 32 && 0 <= v < 0x1_0000 && forall i :: 0 <= i < 32 ==> samples[i] == v
    ensures Average(samples, 0, false) == Mean(samples) <==> v <= 4
    ensures Average(samples, 24, true) != Mean(samples)
  {
    var s := Sort(samples, true);
    SortSorts(samples, true);
    forall i | 0 <= i < |s| ensures s[i] == v {
      assert s[i] in multiset(s) && s[i] in samples;
    }
    SumBounds(Middle(samples), v, v);
    SumBounds(s[..SHADOWS], v, v);
    GrayAverage(samples);
    ColourAverage(samples, 24);
  }
}
