// What the shading calibration computes per pixel: of all samples the brightest and the
// darkest few are kept aside by an insertion pass, and the mean is taken over the rest.

module TrimmedMean {
  /** Slots are kept darkest first (the shadow slots) or brightest first (the hilight slots). */
  predicate Before(a: int, b: int, dark: bool) {
    if dark then a < b else a > b
  }

  /** One insertion pass over fixed slots: whatever falls off the end is forgotten. */
  function Pass(slots: seq<int>, v: int, dark: bool): (r: seq<int>)
    ensures |r| == |slots|
  {
    if slots == [] then []
    else if Before(v, slots[0], dark) then [v] + Pass(slots[1..], slots[0], dark)
    else [slots[0]] + Pass(slots[1..], v, dark)
  }

  lemma PassTail(slots: seq<int>, k: nat, v: int, dark: bool)
    requires k < |slots|
    ensures var t := Pass(slots[k..], v, dark);
      if Before(v, slots[k], dark) then t == [v] + Pass(slots[k + 1..], slots[k], dark)
      else t == [slots[k]] + Pass(slots[k + 1..], v, dark)
  {
    assert slots[k..][1..] == slots[k + 1..];
  }

  lemma Tail(s: seq<int>, k: nat)
    requires k < |s|
    ensures s[k..] == [s[k]] + s[k + 1..]
  {
  }

  /** The pass has gone over the first b slots, with v left over. */
  ghost predicate Passing(now: seq<int>, after: seq<int>, b: nat, v: int, dark: bool) {
    b <= |now| == |after| && now[..b] == after[..b] && Pass(now[b..], v, dark) == after[b..]
  }

  lemma PassingDone(now: seq<int>, after: seq<int>, v: int, dark: bool)
    requires Passing(now, after, |after|, v, dark)
    ensures now == after
  {
    assert now[..|now|] == now && after[..|after|] == after;
  }

  lemma PassingStep(now: seq<int>, after: seq<int>, b: nat, v: int, dark: bool)
    requires b < |now| && Passing(now, after, b, v, dark)
    ensures Passing(if Before(v, now[b], dark) then now[b := v] else now, after, b + 1,
                    if Before(v, now[b], dark) then now[b] else v, dark)
  {
    PassTail(now, b, v, dark);
    Tail(after, b);
    assert now[b := v][b + 1..] == now[b + 1..] && now[b := v][..b] == now[..b];
  }

  // ----- the reference: sort all samples -----

  predicate Sorted(s: seq<int>, dark: bool) {
    forall i, j :: 0 <= i < j < |s| ==> !Before(s[j], s[i], dark)
  }

  function Insert(v: int, s: seq<int>, dark: bool): (r: seq<int>)
    ensures |r| == |s| + 1
  {
    if s == [] || Before(v, s[0], dark) then [v] + s else [s[0]] + Insert(v, s[1..], dark)
  }

  function Sort(samples: seq<int>, dark: bool): (r: seq<int>)
    ensures |r| == |samples|
  {
    if samples == [] then []
    else Insert(samples[|samples| - 1], Sort(samples[..|samples| - 1], dark), dark)
  }

  lemma {:induction false} InsertPermutes(v: int, s: seq<int>, dark: bool)
    ensures multiset(Insert(v, s, dark)) == multiset(s) + multiset{v}
  {
    if s == [] || Before(v, s[0], dark) {
    } else {
      InsertPermutes(v, s[1..], dark);
      assert s == [s[0]] + s[1..];
    }
  }

  lemma SortedCons(x: int, s: seq<int>, dark: bool)
    requires Sorted(s, dark)
    requires forall y :: y in s ==> !Before(y, x, dark)
    ensures Sorted([x] + s, dark)
  {
    var r := [x] + s;
    forall i, j | 0 <= i < j < |r|
      ensures !Before(r[j], r[i], dark)
    {
      assert r[j] == s[j - 1];
    }
  }

  lemma {:induction false} InsertSorts(v: int, s: seq<int>, dark: bool)
    requires Sorted(s, dark)
    ensures Sorted(Insert(v, s, dark), dark)
  {
    if s == [] || Before(v, s[0], dark) {
      SortedCons(v, s, dark);
    } else {
      var r := Insert(v, s[1..], dark);
      InsertSorts(v, s[1..], dark);
      InsertPermutes(v, s[1..], dark);
      forall y | y in r
        ensures !Before(y, s[0], dark)
      {
        assert y in multiset(r);
        if y != v {
          assert y in s[1..];
        }
      }
      SortedCons(s[0], r, dark);
    }
  }

  lemma {:induction false} SortSorts(samples: seq<int>, dark: bool)
    ensures Sorted(Sort(samples, dark), dark)
    ensures multiset(Sort(samples, dark)) == multiset(samples)
  {
    if samples != [] {
      var last := |samples| - 1;
      SortSorts(samples[..last], dark);
      InsertSorts(samples[last], Sort(samples[..last], dark), dark);
      InsertPermutes(samples[last], Sort(samples[..last], dark), dark);
      assert samples == samples[..last] + [samples[last]];
    }
  }

  // ----- the passes compute a prefix of the sorted samples -----

  /** A pass over the first k of a sorted sequence is an insertion into all of it. */
  lemma {:induction false} PassIsInsert(s: seq<int>, k: nat, v: int, dark: bool)
    requires Sorted(s, dark) && k <= |s|
    ensures Pass(s[..k], v, dark) == Insert(v, s, dark)[..k]
  {
    if k == 0 {
      assert s[..0] == [];
    } else {
      assert s[..k][1..] == s[1..][..k - 1];
      if Before(v, s[0], dark) {
        assert Insert(v, s, dark)[..k] == [v] + s[..k - 1];
        if k > 1 {
          PassIsInsert(s[1..], k - 1, s[0], dark);
          InsertFront(s[1..], s[0], dark);
          assert s == [s[0]] + s[1..];
        }
      } else {
        PassIsInsert(s[1..], k - 1, v, dark);
        assert Insert(v, s, dark)[..k] == [s[0]] + Insert(v, s[1..], dark)[..k - 1];
      }
    }
  }

  /** A value that precedes or equals the whole sequence is inserted in front. */
  lemma {:induction false} InsertFront(s: seq<int>, v: int, dark: bool)
    requires Sorted(s, dark)
    requires forall i :: 0 <= i < |s| ==> !Before(s[i], v, dark)
    ensures Insert(v, s, dark) == [v] + s
  {
    if s != [] && !Before(v, s[0], dark) {
      assert s[0] == v;
      InsertFront(s[1..], v, dark);
      assert s == [v] + s[1..];
    }
  }

  function Padding(k: nat, pad: int): seq<int> {
    seq(k, _ => pad)
  }

  /** The k slots after any number of samples: the first k of the sorted samples, followed
      by the initial value of the slots while there are fewer than k samples. */
  function Kept(samples: seq<int>, k: nat, pad: int, dark: bool): (r: seq<int>)
    ensures |r| == k
  {
    (Sort(samples, dark) + Padding(k, pad))[..k]
  }

  /** No sample lies beyond the initial slot value. */
  predicate Within(samples: seq<int>, pad: int, dark: bool) {
    forall i :: 0 <= i < |samples| ==> !Before(pad, samples[i], dark)
  }

  lemma {:induction false} InsertBeforePadding(v: int, s: seq<int>, k: nat, pad: int, dark: bool)
    requires !Before(pad, v, dark)
    ensures Insert(v, s + Padding(k, pad), dark)[..k] == (Insert(v, s, dark) + Padding(k, pad))[..k]
  {
    var p := Padding(k, pad);
    if s == [] {
      assert s + p == p;
      InsertIntoPadding(v, k, pad, dark);
    } else if Before(v, s[0], dark) {
      assert [v] + (s + p) == [v] + s + p;
    } else {
      assert (s + p)[1..] == s[1..] + p;
      if k > 0 {
        InsertBeforePadding(v, s[1..], k, pad, dark);
        var r := Insert(v, s[1..], dark) + p;
        assert Insert(v, s + p, dark)[..k] == [s[0]] + Insert(v, s[1..] + p, dark)[..k - 1];
        assert Insert(v, s[1..] + p, dark)[..k - 1] == Insert(v, s[1..] + p, dark)[..k][..k - 1];
        assert r[..k - 1] == r[..k][..k - 1];
        assert (Insert(v, s, dark) + p)[..k] == [s[0]] + r[..k - 1];
      }
    }
  }

  lemma {:induction false} InsertIntoPadding(v: int, k: nat, pad: int, dark: bool)
    requires !Before(pad, v, dark)
    ensures Insert(v, Padding(k, pad), dark) == [v] + Padding(k, pad)
  {
    InsertFront(Padding(k, pad), v, dark);
  }

  /** Main step: one pass turns the slots for n samples into the slots for n + 1. */
  lemma PassKeeps(samples: seq<int>, v: int, k: nat, pad: int, dark: bool)
    requires Within(samples, pad, dark) && !Before(pad, v, dark)
    ensures Pass(Kept(samples, k, pad, dark), v, dark) == Kept(samples + [v], k, pad, dark)
  {
    var s := Sort(samples, dark);
    SortSorts(samples, dark);
    forall i | 0 <= i < |s|
      ensures !Before(pad, s[i], dark)
    {
      assert s[i] in multiset(s);
      assert s[i] in samples;
    }
    PassIsInsert(s + Padding(k, pad), k, v, dark);
    InsertBeforePadding(v, s, k, pad, dark);
    assert (samples + [v])[..|samples|] == samples;
  }

  // ----- the mean of the middle -----

  function Sum(s: seq<int>): int {
    if s == [] then 0 else s[0] + Sum(s[1..])
  }

  lemma {:induction false} SumConcat(a: seq<int>, b: seq<int>)
    ensures Sum(a + b) == Sum(a) + Sum(b)
  {
    if a == [] {
      assert a + b == b;
    } else {
      assert (a + b)[1..] == a[1..] + b;
      SumConcat(a[1..], b);
    }
  }

  lemma {:induction false} SumInsert(v: int, s: seq<int>, dark: bool)
    ensures Sum(Insert(v, s, dark)) == v + Sum(s)
  {
    if s == [] || Before(v, s[0], dark) {
      assert ([v] + s)[1..] == s;
    } else {
      SumInsert(v, s[1..], dark);
      assert ([s[0]] + Insert(v, s[1..], dark))[1..] == Insert(v, s[1..], dark);
    }
  }

  lemma {:induction false} SumSort(samples: seq<int>, dark: bool)
    ensures Sum(Sort(samples, dark)) == Sum(samples)
  {
    if samples != [] {
      var last := |samples| - 1;
      SumSort(samples[..last], dark);
      SumInsert(samples[last], Sort(samples[..last], dark), dark);
      SumConcat(samples[..last], [samples[last]]);
      assert samples == samples[..last] + [samples[last]];
      assert Sum([samples[last]]) == samples[last];
    }
  }

  lemma {:induction false} SumBounds(s: seq<int>, lo: int, hi: int)
    requires forall i :: 0 <= i < |s| ==> lo <= s[i] <= hi
    ensures lo * |s| <= Sum(s) <= hi * |s|
  {
    if s != [] {
      SumBounds(s[1..], lo, hi);
      assert lo * |s| == lo * |s[1..]| + lo && hi * |s| == hi * |s[1..]| + hi;
    }
  }

  // ----- brightest-first is darkest-first backwards -----

  function Reverse(s: seq<int>): (r: seq<int>)
    ensures |r| == |s|
  {
    if s == [] then [] else Reverse(s[1..]) + [s[0]]
  }

  lemma {:induction false} ReverseAt(s: seq<int>, i: nat)
    requires i < |s|
    ensures Reverse(s)[i] == s[|s| - 1 - i]
  {
    if i < |s| - 1 {
      ReverseAt(s[1..], i);
    }
  }

  lemma {:induction false} InsertAtBack(v: int, s: seq<int>, x: int)
    requires v >= x
    ensures Insert(v, s + [x], false) == Insert(v, s, false) + [x]
  {
    if s == [] {
      assert s + [x] == [x];
      assert Insert(v, [x], false) == [v, x];
    } else if Before(v, s[0], false) {
      assert [v] + (s + [x]) == ([v] + s) + [x];
    } else {
      assert (s + [x])[1..] == s[1..] + [x];
      InsertAtBack(v, s[1..], x);
      assert [s[0]] + (Insert(v, s[1..], false) + [x]) == ([s[0]] + Insert(v, s[1..], false)) + [x];
    }
  }

  lemma {:induction false} InsertLast(v: int, s: seq<int>)
    requires forall i :: 0 <= i < |s| ==> s[i] > v
    ensures Insert(v, s, false) == s + [v]
  {
    if s != [] {
      InsertLast(v, s[1..]);
      assert s == [s[0]] + s[1..];
    }
  }

  lemma {:induction false} InsertReversed(v: int, s: seq<int>)
    requires Sorted(s, true)
    ensures Insert(v, Reverse(s), false) == Reverse(Insert(v, s, true))
  {
    if s == [] {
      assert Insert(v, [], true)[1..] == [];
    } else if v < s[0] {
      assert ([v] + s)[1..] == s;
      forall i | 0 <= i < |s|
        ensures Reverse(s)[i] > v
      {
        ReverseAt(s, i);
      }
      InsertLast(v, Reverse(s));
    } else {
      InsertAtBack(v, Reverse(s[1..]), s[0]);
      InsertReversed(v, s[1..]);
      assert ([s[0]] + Insert(v, s[1..], true))[1..] == Insert(v, s[1..], true);
    }
  }

  lemma {:induction false} SortReversed(samples: seq<int>)
    ensures Sort(samples, false) == Reverse(Sort(samples, true))
  {
    if samples != [] {
      var last := |samples| - 1;
      SortReversed(samples[..last]);
      SortSorts(samples[..last], true);
      InsertReversed(samples[last], Sort(samples[..last], true));
    }
  }

  const HILIGHTS: nat := 3
  const SHADOWS: nat := 5

  /** The samples that are neither among the 3 brightest nor among the 5 darkest. */
  function Middle(samples: seq<int>): (r: seq<int>)
    requires |samples| >= HILIGHTS + SHADOWS
    ensures |r| == |samples| - HILIGHTS - SHADOWS
  {
    Sort(samples, true)[SHADOWS..|samples| - HILIGHTS]
  }

  lemma KeptPrefix(samples: seq<int>, k: nat, pad: int, dark: bool)
    requires k <= |samples|
    ensures Kept(samples, k, pad, dark) == Sort(samples, dark)[..k]
  {
  }

  /** The top of the sorted samples, backwards. */
  predicate IsTop(hi: seq<int>, s: seq<int>) {
    |hi| == 3 <= |s| && hi[0] == s[|s| - 1] && hi[1] == s[|s| - 2] && hi[2] == s[|s| - 3]
  }

  lemma ReverseTop(s: seq<int>)
    requires |s| >= 3
    ensures IsTop(Reverse(s)[..3], s)
  {
    var r := Reverse(s);
    forall i | 0 <= i < 3 ensures r[i] == s[|s| - 1 - i] {
      ReverseAt(s, i);
    }
  }

  /** The hilight slots in terms of the samples sorted darkest first. */
  lemma HilightsOfSorted(samples: seq<int>, pad: int, s: seq<int>)
    requires |samples| >= 3 && s == Sort(samples, true)
    ensures IsTop(Kept(samples, HILIGHTS, pad, false), s)
  {
    KeptPrefix(samples, HILIGHTS, pad, false);
    SortReversed(samples);
    ReverseTop(s);
  }

  lemma SplitSum(s: seq<int>, i: nat, j: nat)
    requires i <= j <= |s|
    ensures Sum(s) == Sum(s[..i]) + Sum(s[i..j]) + Sum(s[j..])
  {
    SumSplit(s, i);
    SumSplit(s[i..], j - i);
    assert s[i..][..j - i] == s[i..j] && s[i..][j - i..] == s[j..];
  }

  lemma SumSplit(s: seq<int>, i: nat)
    requires i <= |s|
    ensures Sum(s) == Sum(s[..i]) + Sum(s[i..])
  {
    SumConcat(s[..i], s[i..]);
    assert s == s[..i] + s[i..];
  }

  lemma SumBackwards(s: seq<int>, t: seq<int>)
    requires |s| == |t| == 3 && t[0] == s[2] && t[1] == s[1] && t[2] == s[0]
    ensures Sum(s) == Sum(t)
  {
    SumOfThree(s[0], s[1], s[2]);
    SumOfThree(t[0], t[1], t[2]);
    assert s == [s[0], s[1], s[2]] && t == [t[0], t[1], t[2]];
  }

  lemma SplitMultiset(s: seq<int>, hi: seq<int>)
    requires |s| >= 8 && IsTop(hi, s)
    ensures multiset(s) == multiset(hi) + multiset(s[..5]) + multiset(s[5..|s| - 3])
  {
    var top := s[|s| - 3..];
    assert s == s[..5] + s[5..|s| - 3] + top;
    SameThree(top, hi);
  }

  lemma SameThree(s: seq<int>, t: seq<int>)
    requires |s| == |t| == 3 && t[0] == s[2] && t[1] == s[1] && t[2] == s[0]
    ensures multiset(s) == multiset(t)
  {
    assert s == [s[0]] + [s[1]] + [s[2]] && t == [s[2]] + [s[1]] + [s[0]];
  }

  lemma MiddleBetween(s: seq<int>)
    requires |s| >= HILIGHTS + SHADOWS && Sorted(s, true)
    ensures var m := s[SHADOWS..|s| - HILIGHTS];
      forall i :: 0 <= i < |m| ==> s[SHADOWS - 1] <= m[i] <= s[|s| - HILIGHTS]
  {
    var m := s[SHADOWS..|s| - HILIGHTS];
    forall i | 0 <= i < |m|
      ensures s[SHADOWS - 1] <= m[i] <= s[|s| - HILIGHTS]
    {
      assert !Before(s[SHADOWS + i], s[SHADOWS - 1], true) && !Before(s[|s| - HILIGHTS], s[SHADOWS + i], true);
    }
  }

  /** Main result: the kept extremes and the middle make up the samples exactly, and
      every middle sample lies between the two groups. */
  lemma ExtremesAndMiddle(samples: seq<int>, hiPad: int, loPad: int)
    requires |samples| >= HILIGHTS + SHADOWS
    ensures var hi, lo := Kept(samples, HILIGHTS, hiPad, false), Kept(samples, SHADOWS, loPad, true);
      && multiset(samples) == multiset(hi) + multiset(lo) + multiset(Middle(samples))
      && Sum(samples) == Sum(hi) + Sum(lo) + Sum(Middle(samples))
      && (forall i :: 0 <= i < |Middle(samples)| ==>
            lo[SHADOWS - 1] <= Middle(samples)[i] <= hi[HILIGHTS - 1])
  {
    ExtremesMultiset(samples, hiPad, loPad);
    ExtremesSum(samples, hiPad, loPad);
    ExtremesBetween(samples, hiPad, loPad);
  }

  lemma ExtremesMultiset(samples: seq<int>, hiPad: int, loPad: int)
    requires |samples| >= HILIGHTS + SHADOWS
    ensures multiset(samples) == multiset(Kept(samples, HILIGHTS, hiPad, false))
      + multiset(Kept(samples, SHADOWS, loPad, true)) + multiset(Middle(samples))
  {
    var s := Sort(samples, true);
    SortSorts(samples, true);
    HilightsOfSorted(samples, hiPad, s);
    KeptPrefix(samples, SHADOWS, loPad, true);
    SplitMultiset(s, Kept(samples, HILIGHTS, hiPad, false));
  }

  lemma ExtremesSum(samples: seq<int>, hiPad: int, loPad: int)
    requires |samples| >= HILIGHTS + SHADOWS
    ensures Sum(samples) == Sum(Kept(samples, HILIGHTS, hiPad, false))
      + Sum(Kept(samples, SHADOWS, loPad, true)) + Sum(Middle(samples))
  {
    SumsWithKept(samples, HILIGHTS, SHADOWS, hiPad, loPad);
  }

  lemma SumsWithKept(samples: seq<int>, h: nat, d: nat, hiPad: int, loPad: int)
    requires h == HILIGHTS && d == SHADOWS && |samples| >= h + d
    ensures Sum(samples) == Sum(Kept(samples, h, hiPad, false)) + Sum(Kept(samples, d, loPad, true))
      + Sum(Middle(samples))
  {
    HilightsOfSorted(samples, hiPad, Sort(samples, true));
    KeptPrefix(samples, d, loPad, true);
    SumOfSorted(samples, Kept(samples, h, hiPad, false), Kept(samples, d, loPad, true), Middle(samples), d, |samples| - h);
  }

  lemma SumOfSorted(samples: seq<int>, hi: seq<int>, lo: seq<int>, middle: seq<int>, i: nat, j: nat)
    requires var s := Sort(samples, true);
      i <= j && j + 3 == |s| && IsTop(hi, s) && lo == s[..i] && middle == s[i..j]
    ensures Sum(samples) == Sum(hi) + Sum(lo) + Sum(middle)
  {
    SumSort(samples, true);
    PartsSum(Sort(samples, true), hi, i, j);
  }

  lemma ExtremesBetween(samples: seq<int>, hiPad: int, loPad: int)
    requires |samples| >= HILIGHTS + SHADOWS
    ensures forall i :: 0 <= i < |Middle(samples)| ==>
      Kept(samples, SHADOWS, loPad, true)[SHADOWS - 1] <= Middle(samples)[i]
        <= Kept(samples, HILIGHTS, hiPad, false)[HILIGHTS - 1]
  {
    var s := Sort(samples, true);
    SortSorts(samples, true);
    HilightsOfSorted(samples, hiPad, s);
    KeptPrefix(samples, SHADOWS, loPad, true);
    MiddleBetween(s);
  }

  lemma PartsSum(s: seq<int>, hi: seq<int>, i: nat, j: nat)
    requires IsTop(hi, s) && i <= j && j + 3 == |s|
    ensures Sum(s) == Sum(hi) + Sum(s[..i]) + Sum(s[i..j])
  {
    SplitSum(s, i, j);
    SumBackwards(s[j..], hi);
  }

  lemma SumOfThree(a: int, b: int, c: int)
    ensures Sum([a, b, c]) == a + b + c
  {
    SumConcat([a, b], [c]);
    SumConcat([a], [b]);
    assert [a, b] + [c] == [a, b, c] && [a] + [b] == [a, b];
  }

  /** The average the calibration stores for 32 samples. */
  function Mean(samples: seq<int>): int
    requires |samples| == 32
  {
    Sum(Middle(samples)) / 24
  }

  /** The mean lies between the darkest and the brightest of the 24 middle samples. */
  lemma MeanInMiddle(samples: seq<int>)
    requires |samples| == 32
    ensures Middle(samples)[0] <= Mean(samples) <= Middle(samples)[23]
  {
    SortSorts(samples, true);
    SumBounds(Middle(samples), Middle(samples)[0], Middle(samples)[23]);
  }
}
