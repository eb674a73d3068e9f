// Colour planes of the lines that a shading calibration reads.

module Planes {
  import opened TrimmedMean

  /** Every line holds a line of the plane from some word on. */
  ghost predicate Holds(lines: seq<seq<int>>, from: nat, pixels: nat, plane: seq<seq<int>>) {
    |lines| == |plane| &&
    forall n :: 0 <= n < |lines| ==>
      |lines[n]| == 16200 && |plane[n]| == pixels && from + pixels <= 16200 && lines[n][from..from + pixels] == plane[n]
  }

  /** Word p of every line of a plane. */
  function AtPixel(plane: seq<seq<int>>, p: nat): (r: seq<int>)
    requires forall n :: 0 <= n < |plane| ==> p < |plane[n]|
    ensures |r| == |plane|
  {
    seq(|plane|, n requires 0 <= n < |plane| => plane[n][p])
  }

  /** The same samples in ascending order. */
  ghost predicate Ascending(s: seq<int>, samples: seq<int>) {
    && |s| == |samples| && multiset(s) == multiset(samples)
    && forall i, j :: 0 <= i < j < |s| ==> s[i] <= s[j]
  }

  lemma SortAscends(samples: seq<int>)
    ensures Ascending(Sort(samples, true), samples)
  {
    var s := Sort(samples, true);
    SortSorts(samples, true);
    forall i, j | 0 <= i < j < |s|
      ensures s[i] <= s[j]
    {
      assert !Before(s[j], s[i], true);
    }
  }
}
