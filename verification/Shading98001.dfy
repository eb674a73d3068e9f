// Shading calibration on ASIC 98001: 32 lines are summed into 32-bit words while the
// extremes of every pixel are kept in strided slots; then the sums are narrowed to
// 16-bit averages inside the very buffer that holds them.

module Shading98001 {
  import opened TrimmedMean
  import opened Words

  const HILIGHT_BLOCK: nat := 0
  const SHADOW_BLOCK: nat := 9

  /** Slot k of a pixel lies k blocks of 5400 further on. */
  function Slot(a: seq<int>, block: nat, p: nat, k: nat): int
    requires p < 5400 && 5400 * (block + k) + p < |a|
  {
    a[5400 * (block + k) + p]
  }

  function Column(a: seq<int>, block: nat, p: nat, count: nat): (r: seq<int>)
    requires p < 5400 && 5400 * (block + count) <= |a|
    ensures |r| == count
  {
    seq(count, k requires 0 <= k < count => Slot(a, block, p, k))
  }

  predicate InColumn(i: int, block: nat, p: nat, count: nat) {
    i % 5400 == p && 5400 * block <= i < 5400 * (block + count)
  }

  lemma ColumnFrame(a: seq<int>, b: seq<int>, block: nat, p: nat, count: nat)
    requires |a| == |b| && p < 5400 && 5400 * (block + count) <= |a|
    requires forall i :: 0 <= i < |a| && InColumn(i, block, p, count) ==> a[i] == b[i]
    ensures Column(a, block, p, count) == Column(b, block, p, count)
  {
    forall k | 0 <= k < count
      ensures Slot(a, block, p, k) == Slot(b, block, p, k)
    {
      assert InColumn(5400 * (block + k) + p, block, p, count);
    }
  }

  lemma ColumnUpdate(a: seq<int>, block: nat, p: nat, count: nat, k: nat, v: int)
    requires p < 5400 && k < count && 5400 * (block + count) <= |a|
    ensures InColumn(5400 * (block + k) + p, block, p, count)
    ensures Column(a[5400 * (block + k) + p := v], block, p, count) == Column(a, block, p, count)[k := v]
  {
  }

  /** A comparison with one slot and the exchange if need be. */
  ghost predicate Compared(prev: seq<int>, now: seq<int>, pw: nat, v: int, next: int, dark: bool)
    requires pw < |prev|
  {
    if Before(v, prev[pw], dark) then now == prev[pw := v] && next == prev[pw] else now == prev && next == v
  }

  method OfferSlot(a: array<int>, pw: nat, v: int, dark: bool) returns (next: int)
    requires pw < a.Length
    modifies a
    ensures Compared(old(a[..]), a[..], pw, v, next, dark)
  {
    next := v;
    if Before(next, a[pw], dark) {
      var wTmp := next;
      next := a[pw];
      a[pw] := wTmp;
    }
  }

  lemma PassingColumn(prev: seq<int>, now: seq<int>, block: nat, p: nat, count: nat, after: seq<int>, k: nat,
                      v: int, next: int, dark: bool)
    requires p < 5400 && k < count == |after| && 5400 * (block + count) <= |prev| == |now|
    requires Passing(Column(prev, block, p, count), after, k, v, dark)
    requires Compared(prev, now, 5400 * (block + k) + p, v, next, dark)
    ensures Passing(Column(now, block, p, count), after, k + 1, next, dark)
    ensures forall i :: 0 <= i < |now| && !InColumn(i, block, p, count) ==> now[i] == prev[i]
  {
    PassingStep(Column(prev, block, p, count), after, k, v, dark);
    ColumnUpdate(prev, block, p, count, k, v);
  }

  /** Offers one sample to the slots of one pixel. */
  method KeepExtremes(a: array<int>, block: nat, p: nat, count: nat, v: int, dark: bool)
    requires p < 5400 && 5400 * (block + count) <= a.Length
    modifies a
    ensures Column(a[..], block, p, count) == Pass(old(Column(a[..], block, p, count)), v, dark)
    ensures forall i :: 0 <= i < a.Length && !InColumn(i, block, p, count) ==> a[i] == old(a[i])
  {
    ghost var after := Pass(Column(a[..], block, p, count), v, dark);
    var wVCmp, pw, k := v, 5400 * block + p, 0;
    while k < count
      invariant k <= count && pw == 5400 * (block + k) + p
      invariant forall i :: 0 <= i < a.Length && !InColumn(i, block, p, count) ==> a[i] == old(a[i])
      invariant Passing(Column(a[..], block, p, count), after, k, wVCmp, dark)
    {
      ghost var prev := a[..];
      var next := OfferSlot(a, pw, wVCmp, dark);
      PassingColumn(prev, a[..], block, p, count, after, k, wVCmp, next, dark);
      wVCmp, pw, k := next, pw + 5400, k + 1;
    }
    PassingDone(Column(a[..], block, p, count), after, wVCmp, dark);
  }

  /** What offering the first pixels of a line does to the slots of one channel. */
  ghost predicate LineKept(start: seq<int>, now: seq<int>, block: nat, count: nat, line: seq<int>, off: nat, pixels: nat,
                           dark: bool)
    requires |start| == |now| && pixels <= 5400 && off + pixels <= |line| && 5400 * (block + count) <= |now|
  {
    && (forall p :: 0 <= p < pixels ==>
          Column(now, block, p, count) == Pass(Column(start, block, p, count), line[off + p] % 4096, dark))
    && (forall i :: 0 <= i < |now| && !(5400 * block <= i < 5400 * (block + count) && i % 5400 < pixels) ==>
          now[i] == start[i])
  }

  lemma LineKeptStep(start: seq<int>, prev: seq<int>, now: seq<int>, block: nat, count: nat, line: seq<int>, off: nat,
                     p: nat, dark: bool)
    requires |start| == |prev| == |now| && p < 5400 && off + p < |line| && 5400 * (block + count) <= |now|
    requires LineKept(start, prev, block, count, line, off, p, dark)
    requires Column(now, block, p, count) == Pass(Column(prev, block, p, count), line[off + p] % 4096, dark)
    requires forall i :: 0 <= i < |now| && !InColumn(i, block, p, count) ==> now[i] == prev[i]
    ensures LineKept(start, now, block, count, line, off, p + 1, dark)
  {
    ColumnFrame(start, prev, block, p, count);
    forall q | 0 <= q < p
      ensures Column(now, block, q, count) == Column(prev, block, q, count)
    {
      ColumnFrame(prev, now, block, q, count);
    }
  }

  /** One of the two pixel loops: offers a line to the slots of one channel. */
  method KeepLine(a: array<int>, block: nat, count: nat, line: seq<int>, off: nat, pixels: nat, dark: bool)
    requires pixels <= 5400 && off + pixels <= |line| && 5400 * (block + count) <= a.Length
    modifies a
    ensures LineKept(old(a[..]), a[..], block, count, line, off, pixels, dark)
  {
    ghost var start := a[..];
    var p := 0;
    while p < pixels
      invariant p <= pixels && LineKept(start, a[..], block, count, line, off, p, dark)
    {
      ghost var prev := a[..];
      KeepExtremes(a, block, p, count, line[off + p] % 4096, dark);
      LineKeptStep(start, prev, a[..], block, count, line, off, p, dark);
      p := p + 1;
    }
  }

  // ----- the slots of all pixels and channels over a whole run -----

  /** Where channel c starts in a line read from the scanner. */
  function Off(pixels: nat, c: nat): nat {
    if pixels == 5400 then 5400 * c else 2700 * c
  }

  predicate Geometry(a: seq<int>, pixels: nat) {
    |a| == 129600 && (pixels == 2700 || pixels == 5400)
  }

  function HilightSlots(a: seq<int>, c: nat, p: nat): seq<int>
    requires |a| == 129600 && c < 3 && p < 5400
  {
    Column(a, HILIGHT_BLOCK + 3 * c, p, 3)
  }

  function ShadowSlots(a: seq<int>, c: nat, p: nat): seq<int>
    requires |a| == 129600 && c < 3 && p < 5400
  {
    Column(a, SHADOW_BLOCK + 5 * c, p, 5)
  }

  predicate InChannel(i: int, c: nat) {
    16200 * c <= i < 16200 * c + 16200 || 48600 + 27000 * c <= i < 48600 + 27000 * c + 27000
  }

  lemma ChannelFrame(a: seq<int>, b: seq<int>, c: nat)
    requires |a| == |b| == 129600 && c < 3
    requires forall i :: 0 <= i < |a| && InChannel(i, c) ==> a[i] == b[i]
    ensures forall p :: 0 <= p < 5400 ==>
      HilightSlots(a, c, p) == HilightSlots(b, c, p) && ShadowSlots(a, c, p) == ShadowSlots(b, c, p)
  {
    forall p | 0 <= p < 5400
      ensures HilightSlots(a, c, p) == HilightSlots(b, c, p) && ShadowSlots(a, c, p) == ShadowSlots(b, c, p)
    {
      ColumnFrame(a, b, HILIGHT_BLOCK + 3 * c, p, 3);
      ColumnFrame(a, b, SHADOW_BLOCK + 5 * c, p, 5);
    }
  }

  /** What one line does to the slots of every pixel of a channel. */
  ghost predicate Offered(before: seq<int>, after: seq<int>, line: seq<int>, pixels: nat, c: nat)
    requires Geometry(before, pixels) && Geometry(after, pixels) && c < 3 && |line| == 16200
  {
    forall p :: 0 <= p < pixels - 4 ==>
      && HilightSlots(after, c, p) == Pass(HilightSlots(before, c, p), line[Off(pixels, c) + p] % 4096, false)
      && ShadowSlots(after, c, p) == Pass(ShadowSlots(before, c, p), line[Off(pixels, c) + p] % 4096, true)
  }

  /** The slots behind the last pixel are left alone. */
  ghost predicate RestKept(before: seq<int>, after: seq<int>, pixels: nat) {
    |before| == |after| && forall i :: 0 <= i < |after| && i % 5400 >= pixels - 4 ==> after[i] == before[i]
  }

  /** Channel c of a line: first the hilight slots of all pixels, then the shadow slots. */
  method SortHilightShadow(a: array<int>, line: seq<int>, pixels: nat, c: nat)
    requires Geometry(a[..], pixels) && |line| == 16200 && c < 3
    modifies a
    ensures Offered(old(a[..]), a[..], line, pixels, c)
    ensures forall i :: 0 <= i < a.Length && !InChannel(i, c) ==> a[i] == old(a[i])
    ensures RestKept(old(a[..]), a[..], pixels)
  {
    ghost var start := a[..];
    KeepLine(a, HILIGHT_BLOCK + 3 * c, 3, line, Off(pixels, c), pixels - 4, false);
    ghost var mid := a[..];
    KeepLine(a, SHADOW_BLOCK + 5 * c, 5, line, Off(pixels, c), pixels - 4, true);
    OfferedBoth(start, mid, a[..], line, pixels, c);
  }

  /** The shadow pass leaves the hilight slots alone and finds its own slots untouched. */
  lemma OfferedBoth(start: seq<int>, mid: seq<int>, end: seq<int>, line: seq<int>, pixels: nat, c: nat)
    requires Geometry(start, pixels) && |mid| == |end| == |start| && |line| == 16200 && c < 3
    requires forall p :: 0 <= p < pixels - 4 ==>
      HilightSlots(mid, c, p) == Pass(HilightSlots(start, c, p), line[Off(pixels, c) + p] % 4096, false)
    requires forall p :: 0 <= p < pixels - 4 ==>
      ShadowSlots(end, c, p) == Pass(ShadowSlots(mid, c, p), line[Off(pixels, c) + p] % 4096, true)
    requires forall i :: 48600 <= i < |start| ==> mid[i] == start[i]
    requires forall i :: 0 <= i < 48600 ==> end[i] == mid[i]
    ensures Offered(start, end, line, pixels, c)
  {
    forall p | 0 <= p < pixels - 4
      ensures HilightSlots(end, c, p) == HilightSlots(mid, c, p)
      ensures ShadowSlots(start, c, p) == ShadowSlots(mid, c, p)
    {
      ColumnFrame(mid, end, HILIGHT_BLOCK + 3 * c, p, 3);
      ColumnFrame(start, mid, SHADOW_BLOCK + 5 * c, p, 5);
    }
  }

  method OfferLine(a: array<int>, line: seq<int>, pixels: nat)
    requires Geometry(a[..], pixels) && |line| == 16200
    modifies a
    ensures forall c :: 0 <= c < 3 ==> Offered(old(a[..]), a[..], line, pixels, c)
    ensures RestKept(old(a[..]), a[..], pixels)
  {
    ghost var s0 := a[..];
    SortHilightShadow(a, line, pixels, 0);
    ghost var s1 := a[..];
    SortHilightShadow(a, line, pixels, 1);
    ghost var s2 := a[..];
    SortHilightShadow(a, line, pixels, 2);
    ghost var s3 := a[..];
    ChannelFrame(s1, s3, 0);
    ChannelFrame(s0, s1, 1);
    ChannelFrame(s2, s3, 1);
    ChannelFrame(s0, s2, 2);
  }

  /** The 12-bit samples of pixel p of channel c, line by line. */
  function Samples(lines: seq<seq<int>>, pixels: nat, c: nat, p: nat): (r: seq<int>)
    requires c < 3 && p < 5400 && (forall line :: line in lines ==> |line| == 16200)
    ensures |r| == |lines|
  {
    seq(|lines|, n requires 0 <= n < |lines| => assert lines[n] in lines; lines[n][Off(pixels, c) + p] % 4096)
  }

  /** Every slot holds what a full sort of the samples so far would put there. */
  ghost predicate KeptAll(a: seq<int>, lines: seq<seq<int>>, pixels: nat)
    requires Geometry(a, pixels) && (forall line :: line in lines ==> |line| == 16200)
  {
    forall c, p :: 0 <= c < 3 && 0 <= p < pixels - 4 ==>
      && HilightSlots(a, c, p) == Kept(Samples(lines, pixels, c, p), HILIGHTS, 0, false)
      && ShadowSlots(a, c, p) == Kept(Samples(lines, pixels, c, p), SHADOWS, 0xfff, true)
  }

  lemma SamplesAppend(lines: seq<seq<int>>, line: seq<int>, pixels: nat, c: nat, p: nat)
    requires c < 3 && p < 5400 && |line| == 16200 && (forall l :: l in lines ==> |l| == 16200)
    ensures Samples(lines + [line], pixels, c, p)
      == Samples(lines, pixels, c, p) + [line[Off(pixels, c) + p] % 4096]
  {
  }

  lemma KeptStepAt(before: seq<int>, after: seq<int>, lines: seq<seq<int>>, line: seq<int>, pixels: nat, c: nat, p: nat)
    requires Geometry(before, pixels) && Geometry(after, pixels) && |line| == 16200
    requires forall l :: l in lines ==> |l| == 16200
    requires c < 3 && p < pixels - 4
    requires KeptAll(before, lines, pixels) && Offered(before, after, line, pixels, c)
    ensures HilightSlots(after, c, p) == Kept(Samples(lines + [line], pixels, c, p), HILIGHTS, 0, false)
    ensures ShadowSlots(after, c, p) == Kept(Samples(lines + [line], pixels, c, p), SHADOWS, 0xfff, true)
  {
    SamplesAppend(lines, line, pixels, c, p);
    var samples, v := Samples(lines, pixels, c, p), line[Off(pixels, c) + p] % 4096;
    PassKeeps(samples, v, HILIGHTS, 0, false);
    PassKeeps(samples, v, SHADOWS, 0xfff, true);
  }

  lemma KeptStep(before: seq<int>, after: seq<int>, lines: seq<seq<int>>, line: seq<int>, pixels: nat)
    requires Geometry(before, pixels) && Geometry(after, pixels) && |line| == 16200
    requires forall l :: l in lines ==> |l| == 16200
    requires KeptAll(before, lines, pixels)
    requires forall c :: 0 <= c < 3 ==> Offered(before, after, line, pixels, c)
    ensures KeptAll(after, lines + [line], pixels)
  {
    forall c, p | 0 <= c < 3 && 0 <= p < pixels - 4
      ensures HilightSlots(after, c, p) == Kept(Samples(lines + [line], pixels, c, p), HILIGHTS, 0, false)
      ensures ShadowSlots(after, c, p) == Kept(Samples(lines + [line], pixels, c, p), SHADOWS, 0xfff, true)
    {
      KeptStepAt(before, after, lines, line, pixels, c, p);
    }
  }

  // ----- sums -----

  /** What one sample adds to its sum: the blue channel is scaled to 94 percent. */
  function Added(raw: int, c: nat): int {
    if c == 2 then raw * 94 / 100 % 4096 else raw % 4096
  }

  method AddChannel(w: array<int>, line: seq<int>, off: nat, c: nat)
    requires c < 3 && w.Length >= 32400 && off + 5396 <= |line|
    modifies w
    ensures forall t :: 5400 * c + 4 <= t < 5400 * c + 5400 ==>
      Dword(w[..], t) == (old(Dword(w[..], t)) + Added(line[off + t - (5400 * c + 4)], c)) % U32
    ensures forall t :: 0 <= t < 16200 && !(5400 * c + 4 <= t < 5400 * c + 5400) ==>
      Dword(w[..], t) == old(Dword(w[..], t))
  {
    ghost var start := w[..];
    var first := 5400 * c + 4;
    var dw := 0;
    while dw < 5396
      invariant dw <= 5396
      invariant forall t :: first <= t < first + dw ==>
        Dword(w[..], t) == (Dword(start, t) + Added(line[off + t - first], c)) % U32
      invariant forall t :: 0 <= t < 16200 && !(first <= t < first + dw) ==> Dword(w[..], t) == Dword(start, t)
    {
      var t := first + dw;
      assert Dword(w[..], t) == Dword(start, t);
      SetDword(w, t, (w[2 * t] + 0x1_0000 * w[2 * t + 1] + Added(line[off + dw], c)) % U32);
      dw := dw + 1;
    }
  }

  // ----- averages, narrowed in place -----

  method SumColumn(a: array<int>, block: nat, p: nat, count: nat) returns (sum: int)
    requires p < 5400 && 5400 * (block + count) <= a.Length
    ensures sum == Sum(Column(a[..], block, p, count))
  {
    sum := 0;
    var pw, k := 5400 * block + p, 0;
    while k < count
      invariant k <= count && pw == 5400 * (block + k) + p
      invariant sum == Sum(Column(a[..], block, p, k))
    {
      assert Column(a[..], block, p, k + 1) == Column(a[..], block, p, k) + [a[pw]];
      SumConcat(Column(a[..], block, p, k), [a[pw]]);
      assert Sum([a[pw]]) == a[pw];
      sum, pw, k := sum + a[pw], pw + 5400, k + 1;
    }
  }

  /** The sum of the eight kept samples of pixel p of channel c. */
  function Extremes(a: seq<int>, c: nat, p: nat): int
    requires |a| >= 129600 && c < 3 && p < 5400
  {
    Sum(Column(a, HILIGHT_BLOCK + 3 * c, p, 3)) + Sum(Column(a, SHADOW_BLOCK + 5 * c, p, 5))
  }

  /** The 16-bit value for index i of channel c, computed from the sums before narrowing. */
  function Narrowed(w: seq<int>, a: seq<int>, pixels: nat, c: nat, i: nat): int
    requires |w| >= 32400 && |a| >= 129600 && c < 3 && i < 5400
  {
    var sum := Dword(w, 5400 * c + i);
    if 4 <= i < pixels then (sum - Extremes(a, c, i - 4)) % U32 / 24 % 0x1_0000
    else sum / 32 % 0x1_0000
  }

  /** The words in front of the pixels and behind the last one are means of all 32 words. */
  lemma NarrowedOutside(w: seq<int>, a: seq<int>, pixels: nat, c: nat, i: nat)
    requires |w| >= 32400 && |a| >= 129600 && c < 3 && i < 5400 && (i < 4 || pixels <= i)
    ensures var t := 5400 * c + i; Narrowed(w, a, pixels, c, i) == (w[2 * t] + 0x1_0000 * w[2 * t + 1]) / 32 % 0x1_0000
  {
  }

  method SubNoise(w: array<int>, a: array<int>, pixels: nat, c: nat)
    requires w != a && w.Length >= 32400 && a.Length >= 129600 && c < 3 && (pixels == 2700 || pixels == 5400)
    modifies w
    ensures forall i :: 0 <= i < 5400 ==> w[5400 * c + i] == Narrowed(old(w[..]), a[..], pixels, c, i)
    ensures forall i :: 0 <= i < w.Length && !(5400 * c <= i < 5400 * c + 5400) ==> w[i] == old(w[i])
  {
    ghost var start := w[..];
    ghost var slots := a[..];
    var i := 0;
    while i < 5400
      invariant i <= 5400 && a[..] == slots
      invariant forall j :: 0 <= j < i ==> w[5400 * c + j] == Narrowed(start, slots, pixels, c, j)
      invariant forall j :: 0 <= j < w.Length && !(5400 * c <= j < 5400 * c + i) ==> w[j] == start[j]
    {
      var t := 5400 * c + i;
      var sum := w[2 * t] + 0x1_0000 * w[2 * t + 1];
      assert sum == Dword(start, t);
      if i < 4 || pixels <= i {
        w[t] := sum / 32 % 0x1_0000;
      } else {
        var hi := SumColumn(a, HILIGHT_BLOCK + 3 * c, i - 4, 3);
        var lo := SumColumn(a, SHADOW_BLOCK + 5 * c, i - 4, 5);
        w[t] := (sum - (hi + lo)) % U32 / 24 % 0x1_0000;
      }
      i := i + 1;
    }
  }

  /** Narrowing all three channels inside one buffer gives what narrowing into a second
      buffer would give: no sum is overwritten before it is read. */
  method ShadingWaveformSum(w: array<int>, a: array<int>, pixels: nat)
    requires w != a && w.Length >= 32400 && a.Length >= 129600 && (pixels == 2700 || pixels == 5400)
    modifies w
    ensures forall c, i :: 0 <= c < 3 && 0 <= i < 5400 ==>
      w[5400 * c + i] == Narrowed(old(w[..]), a[..], pixels, c, i)
  {
    ghost var start := w[..];
    SubNoise(w, a, pixels, 0);
    SumsUnread(start, w[..], a[..], pixels, 1);
    SumsUnread(start, w[..], a[..], pixels, 2);
    ghost var first := w[..];
    SubNoise(w, a, pixels, 1);
    SumsUnread(first, w[..], a[..], pixels, 2);
    SubNoise(w, a, pixels, 2);
  }

  /** Words of the channels before c do not reach the sums of channel c. */
  lemma SumsUnread(v: seq<int>, w: seq<int>, a: seq<int>, pixels: nat, c: nat)
    requires |v| == |w| && |w| >= 32400 && |a| >= 129600 && 1 <= c < 3
    requires forall i :: 5400 * c <= i < |w| ==> v[i] == w[i]
    ensures forall i :: 0 <= i < 5400 ==> Narrowed(w, a, pixels, c, i) == Narrowed(v, a, pixels, c, i)
  {
    forall i | 0 <= i < 5400
      ensures Narrowed(w, a, pixels, c, i) == Narrowed(v, a, pixels, c, i)
    {
      assert Dword(v, 5400 * c + i) == Dword(w, 5400 * c + i);
    }
  }

  // ----- the whole calibration -----

  /** What the samples of one pixel add up to while they are read. */
  function SumAdded(lines: seq<seq<int>>, pixels: nat, c: nat, p: nat): int
    requires c < 3 && p < 5396 && (forall line :: line in lines ==> |line| == 16200)
  {
    if lines == [] then 0
    else
      var last := |lines| - 1;
      assert lines[last] in lines;
      SumAdded(lines[..last], pixels, c, p) + Added(lines[last][Off(pixels, c) + p], c)
  }

  lemma AddedBound(raw: int, c: nat)
    ensures 0 <= Added(raw, c) < 4096
  {
  }

  lemma SumAddedAppend(lines: seq<seq<int>>, line: seq<int>, pixels: nat, c: nat, p: nat)
    requires c < 3 && p < 5396 && |line| == 16200 && (forall l :: l in lines ==> |l| == 16200)
    ensures SumAdded(lines + [line], pixels, c, p)
      == SumAdded(lines, pixels, c, p) + Added(line[Off(pixels, c) + p], c)
  {
    assert (lines + [line])[..|lines|] == lines;
  }

  lemma {:induction false} SumAddedBound(lines: seq<seq<int>>, pixels: nat, c: nat, p: nat)
    requires c < 3 && p < 5396 && (forall line :: line in lines ==> |line| == 16200)
    ensures 0 <= SumAdded(lines, pixels, c, p) <= 4095 * |lines|
  {
    if lines != [] {
      SumAddedBound(lines[..|lines| - 1], pixels, c, p);
    }
  }

  /** Every sum is the plain sum of what was added: 32 samples never overflow 32 bits. */
  ghost predicate SummedAll(w: seq<int>, lines: seq<seq<int>>, pixels: nat)
    requires |w| == 32400 && (forall line :: line in lines ==> |line| == 16200)
  {
    && (forall t :: 0 <= t < 16200 && t % 5400 >= 4 ==> Dword(w, t) == SumAdded(lines, pixels, t / 5400, t % 5400 - 4))
    && (forall t :: 0 <= t < 16200 && t % 5400 < 4 ==> Dword(w, t) == 0)
  }

  lemma SumStep(lines: seq<seq<int>>, line: seq<int>, pixels: nat, c: nat, p: nat)
    requires c < 3 && p < 5396 && |line| == 16200 && (forall l :: l in lines ==> |l| == 16200)
    requires |lines| < 32
    ensures SumAdded(lines + [line], pixels, c, p)
      == (SumAdded(lines, pixels, c, p) + Added(line[Off(pixels, c) + p], c)) % U32
  {
    SumAddedBound(lines, pixels, c, p);
    SumAddedAppend(lines, line, pixels, c, p);
    AddedBound(line[Off(pixels, c) + p], c);
  }

  lemma SummedStep(start: seq<int>, end: seq<int>, line: seq<int>, pixels: nat, lines: seq<seq<int>>)
    requires |start| == |end| == 32400 && |line| == 16200 && |lines| < 32 && (forall l :: l in lines ==> |l| == 16200)
    requires SummedAll(start, lines, pixels)
    requires forall t :: 0 <= t < 16200 && t % 5400 >= 4 ==>
      Dword(end, t) == (Dword(start, t) + Added(line[Off(pixels, t / 5400) + t % 5400 - 4], t / 5400)) % U32
    requires forall t :: 0 <= t < 16200 && t % 5400 < 4 ==> Dword(end, t) == Dword(start, t)
    ensures SummedAll(end, lines + [line], pixels)
  {
    forall t | 0 <= t < 16200 && t % 5400 >= 4
      ensures Dword(end, t) == SumAdded(lines + [line], pixels, t / 5400, t % 5400 - 4)
    {
      SumStep(lines, line, pixels, t / 5400, t % 5400 - 4);
    }
  }

  method AddLine(w: array<int>, line: seq<int>, pixels: nat, ghost lines: seq<seq<int>>)
    requires w.Length == 32400 && |line| == 16200 && (pixels == 2700 || pixels == 5400)
    requires |lines| < 32 && (forall l :: l in lines ==> |l| == 16200)
    requires SummedAll(w[..], lines, pixels)
    modifies w
    ensures SummedAll(w[..], lines + [line], pixels)
  {
    ghost var start := w[..];
    AddChannel(w, line, Off(pixels, 0), 0);
    AddChannel(w, line, Off(pixels, 1), 1);
    AddChannel(w, line, Off(pixels, 2), 2);
    forall t | 0 <= t < 16200 && t % 5400 >= 4
      ensures Dword(w[..], t) == (Dword(start, t) + Added(line[Off(pixels, t / 5400) + t % 5400 - 4], t / 5400)) % U32
    {
      assert t - (5400 * (t / 5400) + 4) == t % 5400 - 4;
    }
    SummedStep(start, w[..], line, pixels, lines);
  }

  /** What is taken off the sum of a pixel. */
  function KeptSum(samples: seq<int>): int {
    Sum(Kept(samples, HILIGHTS, 0, false)) + Sum(Kept(samples, SHADOWS, 0xfff, true))
  }

  /** The stored average: the sum less the kept extremes, in 32-bit arithmetic. */
  function Average(lines: seq<seq<int>>, pixels: nat, c: nat, p: nat): int
    requires c < 3 && p < 5396 && (forall line :: line in lines ==> |line| == 16200)
  {
    (SumAdded(lines, pixels, c, p) - KeptSum(Samples(lines, pixels, c, p))) % U32 / 24 % 0x1_0000
  }

  lemma NarrowedIsAverage(a: seq<int>, w: seq<int>, lines: seq<seq<int>>, pixels: nat, c: nat, p: nat)
    requires Geometry(a, pixels) && |w| == 32400 && (forall line :: line in lines ==> |line| == 16200)
    requires KeptAll(a, lines, pixels) && SummedAll(w, lines, pixels)
    requires c < 3 && p < pixels - 4
    ensures Narrowed(w, a, pixels, c, 4 + p) == Average(lines, pixels, c, p)
  {
    var t := 5400 * c + 4 + p;
    assert t % 5400 - 4 == p && t / 5400 == c;
    assert Extremes(a, c, p) == Sum(HilightSlots(a, c, p)) + Sum(ShadowSlots(a, c, p));
  }

  /** 32-times mode with hilight slots present: clears, reads 32 lines, averages. */
  method Adjust12BitShading(a: array<int>, w: array<int>, lines: seq<seq<int>>, pixels: nat)
    requires a != w && Geometry(a[..], pixels) && w.Length == 32400
    requires |lines| == 32 && (forall line :: line in lines ==> |line| == 16200)
    modifies a, w
    ensures KeptAll(a[..], lines, pixels)
    ensures forall c, p :: 0 <= c < 3 && 0 <= p < pixels - 4 ==>
      w[5400 * c + (4 + p)] == Average(lines, pixels, c, p)
    ensures forall t :: 0 <= t < 16200 && t % 5400 < 4 ==> w[t] == 0
    ensures forall i :: 0 <= i < a.Length && i % 5400 >= pixels - 4 ==> a[i] == if i < 48600 then 0 else 0xfff
  {
    ReadLines(a, w, lines, pixels);
    ghost var sums := w[..];
    ShadingWaveformSum(w, a, pixels);
    forall t | 0 <= t < 16200 && t % 5400 < 4
      ensures w[t] == 0
    {
      assert w[5400 * (t / 5400) + t % 5400] == Narrowed(sums, a[..], pixels, t / 5400, t % 5400);
      assert Dword(sums, t) == 0;
    }
    forall c, p | 0 <= c < 3 && 0 <= p < pixels - 4
      ensures w[5400 * c + (4 + p)] == Average(lines, pixels, c, p)
    {
      NarrowedIsAverage(a[..], sums, lines, pixels, c, p);
    }
  }

  /** Clears slots and sums, and reads the lines into them. */
  method ReadLines(a: array<int>, w: array<int>, lines: seq<seq<int>>, pixels: nat)
    requires a != w && Geometry(a[..], pixels) && w.Length == 32400
    requires |lines| == 32 && (forall line :: line in lines ==> |line| == 16200)
    modifies a, w
    ensures KeptAll(a[..], lines, pixels) && SummedAll(w[..], lines, pixels)
    ensures forall i :: 0 <= i < a.Length && i % 5400 >= pixels - 4 ==> a[i] == if i < 48600 then 0 else 0xfff
  {
    forall i | 0 <= i < w.Length {
      w[i] := 0;
    }
    forall i | 0 <= i < a.Length {
      a[i] := if i < 48600 then 0 else 0xfff;
    }
    var n := 0;
    assert lines[..0] == [];
    ghost var cleared := a[..];
    while n < 32
      invariant n <= 32
      invariant KeptAll(a[..], lines[..n], pixels) && SummedAll(w[..], lines[..n], pixels)
      invariant RestKept(cleared, a[..], pixels)
    {
      ghost var before := a[..];
      OfferLine(a, lines[n], pixels);
      KeptStep(before, a[..], lines[..n], lines[n], pixels);
      AddLine(w, lines[n], pixels, lines[..n]);
      assert lines[..n + 1] == lines[..n] + [lines[n]];
      n := n + 1;
    }
    assert lines[..32] == lines;
  }

  // ----- what the averages mean -----

  lemma {:induction false} SumAddedIsSum(lines: seq<seq<int>>, pixels: nat, c: nat, p: nat)
    requires c < 2 && p < 5396 && (forall line :: line in lines ==> |line| == 16200)
    ensures SumAdded(lines, pixels, c, p) == Sum(Samples(lines, pixels, c, p))
  {
    if lines != [] {
      var last := |lines| - 1;
      assert lines[last] in lines;
      SumAddedIsSum(lines[..last], pixels, c, p);
      SamplesAppend(lines[..last], lines[last], pixels, c, p);
      assert lines == lines[..last] + [lines[last]];
      var v := lines[last][Off(pixels, c) + p] % 4096;
      SumConcat(Samples(lines[..last], pixels, c, p), [v]);
      assert Sum([v]) == v;
    }
  }

  /** Middle samples are samples. */
  lemma MiddleBounds(samples: seq<int>)
    requires |samples| == 32 && (forall v :: v in samples ==> 0 <= v < 4096)
    ensures forall i :: 0 <= i < 24 ==> 0 <= Middle(samples)[i] < 4096
  {
    var m := Middle(samples);
    SortSorts(samples, true);
    forall i | 0 <= i < 24
      ensures 0 <= m[i] < 4096
    {
      assert m[i] in multiset(Sort(samples, true));
      assert m[i] in samples;
    }
  }

  /** The subtraction leaves the sum of the middle samples, and stays inside both word widths. */
  lemma NoUnderflow(lines: seq<seq<int>>, pixels: nat, c: nat, p: nat)
    requires |lines| == 32 && (forall line :: line in lines ==> |line| == 16200)
    requires c < 2 && p < 5396
    ensures var samples := Samples(lines, pixels, c, p);
      && SumAdded(lines, pixels, c, p) - KeptSum(samples) == Sum(Middle(samples))
      && KeptSum(samples) <= SumAdded(lines, pixels, c, p) < U32
      && (SumAdded(lines, pixels, c, p) - KeptSum(samples)) / 24 < 0x1_0000
  {
    var samples := Samples(lines, pixels, c, p);
    SumAddedIsSum(lines, pixels, c, p);
    SumAddedBound(lines, pixels, c, p);
    ExtremesAndMiddle(samples, 0, 0xfff);
    MiddleBounds(samples);
    SumBounds(Middle(samples), 0, 4095);
  }

  /** Main result: red and green get the exact mean of the 24 middle samples. The
      subtraction never goes below zero and the 16-bit word never overflows. */
  lemma RedGreenAverage(lines: seq<seq<int>>, pixels: nat, c: nat, p: nat)
    requires |lines| == 32 && (forall line :: line in lines ==> |line| == 16200)
    requires c < 2 && p < 5396
    ensures var samples := Samples(lines, pixels, c, p);
      && KeptSum(samples) <= SumAdded(lines, pixels, c, p) < U32
      && (SumAdded(lines, pixels, c, p) - KeptSum(samples)) / 24 < 0x1_0000
      && Average(lines, pixels, c, p) == Mean(samples)
      && Middle(samples)[0] <= Average(lines, pixels, c, p) <= Middle(samples)[23]
  {
    NoUnderflow(lines, pixels, c, p);
    MeanInMiddle(Samples(lines, pixels, c, p));
  }
}
