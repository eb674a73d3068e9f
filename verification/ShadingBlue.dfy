// The blue channel of ASIC 98001: sums are built from samples scaled to 94 percent, but
// the extremes taken off them are not scaled. When is the result the mean it should be?

module ShadingBlue {
  import opened TrimmedMean
  import opened Shading98001
  import opened Words

  function Scale(v: int): int {
    v * 94 / 100
  }

  function ScaleAll(s: seq<int>): (r: seq<int>)
    ensures |r| == |s|
  {
    if s == [] then [] else [Scale(s[0])] + ScaleAll(s[1..])
  }

  lemma {:induction false} ScaleAt(s: seq<int>, i: nat)
    requires i < |s|
    ensures ScaleAll(s)[i] == Scale(s[i])
  {
    if i > 0 {
      ScaleAt(s[1..], i - 1);
    }
  }

  lemma {:induction false} ScaleConcat(a: seq<int>, b: seq<int>)
    ensures ScaleAll(a + b) == ScaleAll(a) + ScaleAll(b)
  {
    if a == [] {
      assert a + b == b;
    } else {
      assert (a + b)[1..] == a[1..] + b;
      ScaleConcat(a[1..], b);
    }
  }

  /** Scaling commutes with sorted insertion, ties made by rounding included. */
  lemma {:induction false} ScaleInsert(v: int, s: seq<int>)
    requires Sorted(s, true)
    ensures ScaleAll(Insert(v, s, true)) == Insert(Scale(v), ScaleAll(s), true)
  {
    if s == [] {
      assert ([v] + s)[1..] == s;
    } else if v < s[0] {
      assert ([v] + s)[1..] == s;
      forall i | 0 <= i < |s|
        ensures !Before(ScaleAll(s)[i], Scale(v), true)
      {
        ScaleAt(s, i);
      }
      ScaleSorted(s);
      InsertFront(ScaleAll(s), Scale(v), true);
    } else {
      ScaleInsert(v, s[1..]);
      assert ([s[0]] + Insert(v, s[1..], true))[1..] == Insert(v, s[1..], true);
      assert ScaleAll(s)[1..] == ScaleAll(s[1..]);
    }
  }

  lemma ScaleSorted(s: seq<int>)
    requires Sorted(s, true)
    ensures Sorted(ScaleAll(s), true)
  {
    forall i, j | 0 <= i < j < |s|
      ensures !Before(ScaleAll(s)[j], ScaleAll(s)[i], true)
    {
      ScaleAt(s, i);
      ScaleAt(s, j);
    }
  }

  lemma {:induction false} ScaleSort(samples: seq<int>)
    ensures Sort(ScaleAll(samples), true) == ScaleAll(Sort(samples, true))
  {
    if samples != [] {
      var last := |samples| - 1;
      var front, v := samples[..last], samples[last];
      assert samples == front + [v];
      ScaleConcat(front, [v]);
      assert ScaleAll([v]) == [Scale(v)];
      ScaleSort(front);
      SortSorts(front, true);
      ScaleInsert(v, Sort(front, true));
    }
  }

  lemma {:induction false} ScaleSlice(s: seq<int>, i: nat, j: nat)
    requires i <= j <= |s|
    ensures ScaleAll(s[i..j]) == ScaleAll(s)[i..j]
  {
    forall k | 0 <= k < j - i
      ensures ScaleAll(s[i..j])[k] == ScaleAll(s)[i..j][k]
    {
      ScaleAt(s[i..j], k);
      ScaleAt(s, i + k);
    }
  }

  /** The middle of the scaled samples is the scaled middle of the samples. */
  lemma ScaleMiddle(samples: seq<int>)
    requires |samples| == 32
    ensures Middle(ScaleAll(samples)) == ScaleAll(Middle(samples))
  {
    ScaleSort(samples);
    ScaleSlice(Sort(samples, true), SHADOWS, 29);
  }

  /** What a set of kept samples loses by scaling. */
  function Loss(s: seq<int>): int {
    Sum(s) - Sum(ScaleAll(s))
  }

  lemma {:induction false} LossBounds(s: seq<int>)
    requires forall i :: 0 <= i < |s| ==> 0 <= s[i] < 4096
    ensures 0 <= Loss(s) <= 246 * |s|
    ensures Loss(s) == 0 <==> forall i :: 0 <= i < |s| ==> s[i] == 0
  {
    if s != [] {
      LossBounds(s[1..]);
      assert s[0] == 0 || s[0] - Scale(s[0]) > 0;
      assert forall i :: 1 <= i < |s| ==> s[i] == s[1..][i - 1];
    }
  }

  lemma ScaleAppend(s: seq<int>, v: int)
    ensures Sum(ScaleAll(s + [v])) == Sum(ScaleAll(s)) + Scale(v)
  {
    ScaleConcat(s, [v]);
    SumConcat(ScaleAll(s), [Scale(v)]);
    assert ScaleAll([v]) == [Scale(v)];
    assert Sum([Scale(v)]) == Scale(v);
  }

  /** The words as they are read; the converter sets 12 bits of them. */
  ghost predicate AreRead(lines: seq<seq<int>>) {
    forall line :: line in lines ==> |line| == 16200 && forall i :: 0 <= i < 16200 ==> 0 <= line[i] < 0x1_0000
  }

  ghost predicate TwelveBit(lines: seq<seq<int>>) {
    forall line :: line in lines ==> |line| == 16200 && forall i :: 0 <= i < 16200 ==> 0 <= line[i] < 4096
  }

  /** What bits above the twelfth add to the blue sum: a blue word is scaled before it is cut. */
  function HighBits(lines: seq<seq<int>>, pixels: nat, p: nat): int
    requires p < 5396 && (forall line :: line in lines ==> |line| == 16200)
  {
    if lines == [] then 0
    else
      var last := |lines| - 1;
      assert lines[last] in lines;
      var raw := lines[last][Off(pixels, 2) + p];
      HighBits(lines[..last], pixels, p) + (Added(raw, 2) - Scale(raw % 4096))
  }

  lemma ScaleIsAdded(raw: int)
    ensures -4096 < Added(raw, 2) - Scale(raw % 4096) < 4096
    ensures 0 <= raw < 4096 ==> Added(raw, 2) == Scale(raw % 4096)
  {
  }

  lemma {:induction false} HighBitsBound(lines: seq<seq<int>>, pixels: nat, p: nat)
    requires p < 5396 && (forall line :: line in lines ==> |line| == 16200)
    ensures -4095 * |lines| <= HighBits(lines, pixels, p) <= 4095 * |lines|
    ensures TwelveBit(lines) ==> HighBits(lines, pixels, p) == 0
  {
    if lines != [] {
      var last := |lines| - 1;
      assert lines[last] in lines;
      HighBitsBound(lines[..last], pixels, p);
      ScaleIsAdded(lines[last][Off(pixels, 2) + p]);
    }
  }

  lemma ScaledBlueStep(lines: seq<seq<int>>, line: seq<int>, pixels: nat, p: nat)
    requires p < 5396 && (forall l :: l in lines ==> |l| == 16200) && |line| == 16200
    requires SumAdded(lines, pixels, 2, p) == Sum(ScaleAll(Samples(lines, pixels, 2, p))) + HighBits(lines, pixels, p)
    ensures SumAdded(lines + [line], pixels, 2, p)
      == Sum(ScaleAll(Samples(lines + [line], pixels, 2, p))) + HighBits(lines + [line], pixels, p)
  {
    SamplesAppend(lines, line, pixels, 2, p);
    ScaleAppend(Samples(lines, pixels, 2, p), line[Off(pixels, 2) + p] % 4096);
    SumAddedAppend(lines, line, pixels, 2, p);
    assert (lines + [line])[..|lines|] == lines;
  }

  lemma {:induction false} ScaledBlueSum(lines: seq<seq<int>>, pixels: nat, p: nat)
    requires p < 5396 && (forall line :: line in lines ==> |line| == 16200)
    ensures SumAdded(lines, pixels, 2, p) == Sum(ScaleAll(Samples(lines, pixels, 2, p))) + HighBits(lines, pixels, p)
  {
    if lines != [] {
      var last := |lines| - 1;
      assert lines[last] in lines;
      ScaledBlueSum(lines[..last], pixels, p);
      ScaledBlueStep(lines[..last], lines[last], pixels, p);
      assert lines == lines[..last] + [lines[last]];
    }
  }

  /** What the unscaled extremes take off the blue sum beyond the scaled ones. */
  function ExtremesLoss(samples: seq<int>): int {
    Loss(Kept(samples, HILIGHTS, 0, false)) + Loss(Kept(samples, SHADOWS, 0xfff, true))
  }

  /** Kept and middle samples are samples. */
  lemma PartsAreSamples(samples: seq<int>, v: int)
    requires |samples| == 32
    requires v in Kept(samples, HILIGHTS, 0, false) || v in Kept(samples, SHADOWS, 0xfff, true) || v in Middle(samples)
    ensures v in samples
  {
    ExtremesAndMiddle(samples, 0, 0xfff);
    assert v in multiset(samples);
  }

  lemma KeptBounds(samples: seq<int>)
    requires |samples| == 32 && (forall v :: v in samples ==> 0 <= v < 4096)
    ensures forall i :: 0 <= i < HILIGHTS ==> 0 <= Kept(samples, HILIGHTS, 0, false)[i] < 4096
    ensures forall i :: 0 <= i < SHADOWS ==> 0 <= Kept(samples, SHADOWS, 0xfff, true)[i] < 4096
  {
    forall i | 0 <= i < HILIGHTS
      ensures 0 <= Kept(samples, HILIGHTS, 0, false)[i] < 4096
    {
      PartsAreSamples(samples, Kept(samples, HILIGHTS, 0, false)[i]);
    }
    forall i | 0 <= i < SHADOWS
      ensures 0 <= Kept(samples, SHADOWS, 0xfff, true)[i] < 4096
    {
      PartsAreSamples(samples, Kept(samples, SHADOWS, 0xfff, true)[i]);
    }
  }

  lemma ThreePartSum(s: seq<int>)
    requires |s| == 32
    ensures Sum(ScaleAll(s)) == Sum(ScaleAll(s[..5])) + Sum(ScaleAll(s[5..29])) + Sum(ScaleAll(s[29..]))
  {
    var lo, middle, hi := s[..5], s[5..29], s[29..];
    assert s == lo + (middle + hi);
    ScaleConcat(lo, middle + hi);
    ScaleConcat(middle, hi);
    SumConcat(ScaleAll(lo), ScaleAll(middle + hi));
    SumConcat(ScaleAll(middle), ScaleAll(hi));
  }

  /** The blue sum less its extremes: the scaled middle less the loss. */
  lemma BlueSum(samples: seq<int>)
    requires |samples| == 32 && (forall v :: v in samples ==> 0 <= v < 4096)
    ensures var hi, lo := Kept(samples, HILIGHTS, 0, false), Kept(samples, SHADOWS, 0xfff, true);
      Sum(ScaleAll(samples)) - (Sum(hi) + Sum(lo)) == Sum(ScaleAll(Middle(samples))) - ExtremesLoss(samples)
  {
    var s := Sort(samples, true);
    SumSort(ScaleAll(samples), true);
    ScaleSort(samples);
    ThreePartSum(s);
    HilightLoss(samples);
    KeptPrefix(samples, SHADOWS, 0xfff, true);
  }

  /** The hilight slots lose what the top of the sorted samples loses. */
  lemma HilightLoss(samples: seq<int>)
    requires |samples| == 32
    ensures var top, hi := Sort(samples, true)[29..], Kept(samples, HILIGHTS, 0, false);
      Sum(ScaleAll(hi)) == Sum(ScaleAll(top))
  {
    var s := Sort(samples, true);
    HilightsOfSorted(samples, 0, s);
    TopBackwards(s, Kept(samples, HILIGHTS, 0, false));
  }

  lemma TopBackwards(s: seq<int>, hi: seq<int>)
    requires |s| == 32 && IsTop(hi, s)
    ensures Sum(ScaleAll(hi)) == Sum(ScaleAll(s[29..]))
  {
    ScaleThree(s[29..]);
    ScaleThree(hi);
  }

  lemma ScaleThree(s: seq<int>)
    requires |s| == 3
    ensures Sum(ScaleAll(s)) == Scale(s[0]) + Scale(s[1]) + Scale(s[2])
  {
    ScaleAppend(s[..2], s[2]);
    ScaleAppend(s[..1], s[1]);
    ScaleAppend(s[..0], s[0]);
    assert s[..2] + [s[2]] == s && s[..1] + [s[1]] == s[..2] && s[..0] + [s[0]] == s[..1];
  }

  /** What the blue sum has too much, before the division: the high bits, less the loss. */
  function BlueExcess(lines: seq<seq<int>>, pixels: nat, p: nat): int
    requires p < 5396 && (forall line :: line in lines ==> |line| == 16200)
  {
    HighBits(lines, pixels, p) - ExtremesLoss(Samples(lines, pixels, 2, p))
  }

  lemma ExcessBounds(lines: seq<seq<int>>, pixels: nat, p: nat)
    requires |lines| == 32 && AreRead(lines) && p < 5396
    ensures -133008 <= BlueExcess(lines, pixels, p) <= 133008
    ensures 0 <= Sum(Middle(ScaleAll(Samples(lines, pixels, 2, p)))) <= 24 * 4095
  {
    BlueBounds(Samples(lines, pixels, 2, p));
    HighBitsBound(lines, pixels, p);
  }

  lemma BlueIsMiddleLess(lines: seq<seq<int>>, pixels: nat, p: nat)
    requires |lines| == 32 && AreRead(lines) && p < 5396
    ensures var samples := Samples(lines, pixels, 2, p);
      Average(lines, pixels, 2, p)
      == (Sum(Middle(ScaleAll(samples))) + BlueExcess(lines, pixels, p)) % U32 / 24 % 0x1_0000
  {
    BlueDifference(lines, pixels, p);
  }

  lemma BlueDifference(lines: seq<seq<int>>, pixels: nat, p: nat)
    requires |lines| == 32 && AreRead(lines) && p < 5396
    ensures var samples := Samples(lines, pixels, 2, p);
      SumAdded(lines, pixels, 2, p) - KeptSum(samples)
      == Sum(Middle(ScaleAll(samples))) + BlueExcess(lines, pixels, p)
  {
    ScaledBlueSum(lines, pixels, p);
    BlueNumerator(Samples(lines, pixels, 2, p));
  }

  lemma BlueNumerator(samples: seq<int>)
    requires |samples| == 32 && (forall v :: v in samples ==> 0 <= v < 4096)
    ensures Sum(ScaleAll(samples)) - (Sum(Kept(samples, HILIGHTS, 0, false)) + Sum(Kept(samples, SHADOWS, 0xfff, true)))
      == Sum(Middle(ScaleAll(samples))) - ExtremesLoss(samples)
  {
    BlueSum(samples);
    ScaleMiddle(samples);
  }

  lemma BlueBounds(samples: seq<int>)
    requires |samples| == 32 && (forall v :: v in samples ==> 0 <= v < 4096)
    ensures 0 <= ExtremesLoss(samples) <= 1968 && 0 <= Sum(Middle(ScaleAll(samples))) <= 24 * 4095
  {
    ScaleMiddle(samples);
    KeptBounds(samples);
    LossBounds(Kept(samples, HILIGHTS, 0, false));
    LossBounds(Kept(samples, SHADOWS, 0xfff, true));
    MiddleBounds(samples);
    ScaledMiddleBounds(Middle(samples));
  }

  /** Main result: blue gets the mean of the middle scaled samples if and only if what bits above the
      twelfth add, less what the eight extremes lose by scaling, is rounded away by the division. */
  lemma BlueAverage(lines: seq<seq<int>>, pixels: nat, p: nat)
    requires |lines| == 32 && AreRead(lines) && p < 5396
    ensures var samples := Samples(lines, pixels, 2, p);
      (Average(lines, pixels, 2, p) == Mean(ScaleAll(samples))) <==>
      (0 <= Sum(Middle(ScaleAll(samples))) % 24 + BlueExcess(lines, pixels, p) < 24)
  {
    BlueIsMiddleLess(lines, pixels, p);
    ExcessBounds(lines, pixels, p);
    QuotientMatches(Sum(Middle(ScaleAll(Samples(lines, pixels, 2, p)))), BlueExcess(lines, pixels, p));
  }

  /** For 12-bit words that is: what the extremes lose is at most the remainder of the division. */
  lemma BlueAverageOf12Bits(lines: seq<seq<int>>, pixels: nat, p: nat)
    requires |lines| == 32 && TwelveBit(lines) && p < 5396
    ensures var samples := Samples(lines, pixels, 2, p);
      (Average(lines, pixels, 2, p) == Mean(ScaleAll(samples))) <==>
      (ExtremesLoss(samples) <= Sum(Middle(ScaleAll(samples))) % 24)
  {
    BlueAverage(lines, pixels, p);
    HighBitsBound(lines, pixels, p);
    BlueBounds(Samples(lines, pixels, 2, p));
  }

  lemma ScaledMiddleBounds(m: seq<int>)
    requires |m| == 24 && (forall i :: 0 <= i < 24 ==> 0 <= m[i] < 4096)
    ensures 0 <= Sum(ScaleAll(m)) <= 24 * 4095
  {
    forall i | 0 <= i < 24
      ensures 0 <= ScaleAll(m)[i] <= 4095
    {
      ScaleAt(m, i);
    }
    SumBounds(ScaleAll(m), 0, 4095);
  }

  /** A difference that wraps below zero is never mistaken for the right quotient. */
  lemma QuotientMatches(middle: int, excess: int)
    requires -133008 <= excess <= 133008 && 0 <= middle <= 24 * 4095
    ensures (middle + excess) % U32 / 24 % 0x1_0000 == middle / 24 <==> 0 <= middle % 24 + excess < 24
  {
    if middle + excess < 0 {
      assert (middle + excess) % U32 == middle + excess + U32;
    } else {
      assert (middle + excess) % U32 == middle + excess;
    }
  }

  /** An evenly lit line of any value above zero makes the law fail. */
  lemma EvenLightTooDark(lines: seq<seq<int>>, pixels: nat, p: nat, v: int)
    requires |lines| == 32 && TwelveBit(lines) && p < 5396 && 0 < v < 4096
    requires forall n :: 0 <= n < 32 ==> Samples(lines, pixels, 2, p)[n] == v
    ensures Average(lines, pixels, 2, p) != Mean(ScaleAll(Samples(lines, pixels, 2, p)))
  {
    EvenSamples(Samples(lines, pixels, 2, p), v);
    NothingLeft(Sum(Middle(ScaleAll(Samples(lines, pixels, 2, p)))), Scale(v));
    BlueAverageOf12Bits(lines, pixels, p);
  }

  /** A pixel that ever reads 384 or more comes out wrong, whatever its other samples are: its brightest
      sample alone loses a whole unit of the average. */
  lemma BrightTooDark(lines: seq<seq<int>>, pixels: nat, p: nat, n: nat)
    requires |lines| == 32 && TwelveBit(lines) && p < 5396 && n < 32
    requires Samples(lines, pixels, 2, p)[n] >= 384
    ensures Average(lines, pixels, 2, p) != Mean(ScaleAll(Samples(lines, pixels, 2, p)))
  {
    var samples := Samples(lines, pixels, 2, p);
    BrightestIsKept(samples, n);
    KeptBounds(samples);
    BrightLoss(Kept(samples, HILIGHTS, 0, false));
    LossBounds(Kept(samples, SHADOWS, 0xfff, true));
    BlueAverageOf12Bits(lines, pixels, p);
  }

  lemma BrightestIsKept(samples: seq<int>, n: nat)
    requires |samples| == 32 && n < 32
    ensures Kept(samples, HILIGHTS, 0, false)[0] >= samples[n]
  {
    var s := Sort(samples, true);
    SortSorts(samples, true);
    HilightsOfSorted(samples, 0, s);
    assert samples[n] in multiset(samples);
    var i :| 0 <= i < |s| && s[i] == samples[n];
    assert i < |s| - 1 ==> !Before(s[|s| - 1], s[i], true);
  }

  lemma BrightLoss(s: seq<int>)
    requires s != [] && s[0] >= 384 && forall i :: 0 <= i < |s| ==> 0 <= s[i] < 4096
    ensures Loss(s) >= 24
  {
    LossBounds(s[1..]);
    assert s[0] - Scale(s[0]) >= 24;
  }

  lemma NothingLeft(middle: int, v: int)
    requires middle == 24 * v
    ensures middle % 24 == 0
  {
  }

  lemma EvenSamples(samples: seq<int>, v: int)
    requires |samples| == 32 && 0 < v < 4096 && (forall n :: 0 <= n < 32 ==> samples[n] == v)
    ensures ExtremesLoss(samples) > 0 && Sum(Middle(ScaleAll(samples))) == 24 * Scale(v)
  {
    KeptBounds(samples);
    var hi, m := Kept(samples, HILIGHTS, 0, false), Middle(samples);
    PartsAreSamples(samples, hi[0]);
    LossBounds(hi);
    LossBounds(Kept(samples, SHADOWS, 0xfff, true));
    ScaleMiddle(samples);
    forall i | 0 <= i < 24
      ensures ScaleAll(m)[i] == Scale(v)
    {
      ScaleAt(m, i);
      PartsAreSamples(samples, m[i]);
    }
    SumBounds(ScaleAll(m), Scale(v), Scale(v));
  }
}
