/**
 * The successive approximation of one feedback register (plustek-pp_dac.c:1571-1638).
 *
 * A value is written, a line is read, and the value goes up while the line is too dark and down
 * while it is bright enough, by a step that halves every time.  The full search starts in the
 * middle of the byte with step 64; the correcting search starts at the saved value with step 8.
 * The line read after the last step is ignored.  Register traffic and timers are left out: the
 * lines are an arbitrary sequence, so that they may depend on everything written before.
 */
module FbkSearch {
  function Power(n: nat): (p: nat)
    ensures p > 0
  {
    if n == 0 then 1 else 2 * Power(n - 1)
  }

  /** The value moved and cut to a byte. */
  function Step(v: int, up: bool, delta: nat): (r: int)
    ensures 0 <= r < 0x100
    ensures var moved := if up then v + delta else v - delta; 0 <= moved < 0x100 ==> r == moved
  {
    (if up then v + delta else v - delta) % 0x100
  }

  /** The values shown to the device, v the first of them; one reading decides each further step. */
  function Values(v: int, dark: seq<bool>): (r: seq<int>)
    ensures |r| == |dark| + 1 && r[0] == v
    decreases |dark|
  {
    if dark == [] then [v] else [v] + Values(Step(v, dark[0], Power(|dark| - 1)), dark[1..])
  }

  function Last(s: seq<int>): int
    requires |s| > 0
  {
    s[|s| - 1]
  }

  lemma ValuesStep(v: int, dark: seq<bool>)
    requires |dark| > 0
    ensures var rest := Values(Step(v, dark[0], Power(|dark| - 1)), dark[1..]);
            Values(v, dark) == [v] + rest && Last(Values(v, dark)) == Last(rest)
  {
  }

  /** With these values shown, and temp next, the remaining readings complete the whole run. */
  ghost predicate Completes(whole: seq<int>, shown: seq<int>, temp: int, rest: seq<bool>) {
    whole == shown + Values(temp, rest)
  }

  lemma OneTurn(whole: seq<int>, shown: seq<int>, temp: int, rest: seq<bool>)
    requires Completes(whole, shown, temp, rest)
    ensures rest == [] ==> whole == shown + [temp] && temp == Last(whole)
    ensures rest != [] ==> Completes(whole, shown + [temp], Step(temp, rest[0], Power(|rest| - 1)), rest[1..])
  {
    if rest != [] { ValuesStep(temp, rest); }
  }

  ghost function Sum(s: seq<int>): int {
    if s == [] then 0 else Sum(s[..|s| - 1]) + Last(s)
  }

  ghost predicate Bytes(line: seq<int>) {
    |line| == 64 && forall k :: 0 <= k < |line| ==> 0 <= line[k] < 0x100
  }

  ghost predicate Dark(line: seq<int>)
    requires Bytes(line)
  {
    Sum(line[26..42]) / 16 < 0xfe
  }

  /** A line is dark if its 16 pixels from 26 on add up to less than 16 * 254. */
  lemma DarkInNumbers(line: seq<int>)
    requires Bytes(line)
    ensures Dark(line) <==>
      line[26] + line[27] + line[28] + line[29] + line[30] + line[31] + line[32] + line[33]
      + line[34] + line[35] + line[36] + line[37] + line[38] + line[39] + line[40] + line[41] < 4064
  {
    var window := line[26..42];
    FourAtEnd(window[..4]);
    FourAtEnd(window[..8]);
    FourAtEnd(window[..12]);
    FourAtEnd(window);
    assert window[..8][..4] == window[..4] && window[..12][..8] == window[..8] && window[..4][..0] == [];
  }

  lemma FourAtEnd(s: seq<int>)
    requires |s| >= 4
    ensures var n := |s| - 4; Sum(s) == Sum(s[..n]) + s[n] + s[n + 1] + s[n + 2] + s[n + 3]
  {
    var n := |s| - 4;
    SumStep(s, n + 3);
    SumStep(s, n + 2);
    SumStep(s, n + 1);
    SumStep(s, n);
    assert s[..n + 4] == s;
  }

  lemma SumStep(s: seq<int>, n: nat)
    requires n < |s|
    ensures Sum(s[..n + 1]) == Sum(s[..n]) + s[n]
  {
    assert s[..n + 1][..n] == s[..n];
  }

  ghost predicate Enough(lines: seq<seq<int>>, n: nat) {
    |lines| >= n && forall k :: 0 <= k < |lines| ==> Bytes(lines[k])
  }

  ghost function Darks(lines: seq<seq<int>>, n: nat): seq<bool>
    requires Enough(lines, n)
  {
    seq(n, k requires 0 <= k < n => Dark(lines[k]))
  }

  /** The averaging loop, on an unsigned 16-bit sum that cannot overflow. */
  method Average(line: seq<int>) returns (sum: nat)
    requires Bytes(line)
    ensures sum < 254 <==> Dark(line)
  {
    sum := 0;
    var w: nat := 26;
    while w < 42
      invariant 26 <= w <= 42
      invariant sum == Sum(line[26..w]) <= 255 * (w - 26)
    {
      assert line[26..w + 1][..w - 26] == line[26..w];
      sum := (sum + line[w]) % 0x1_0000;
      w := w + 1;
    }
    sum := sum / 16;
  }

  /** The step table of the source, which ends with a zero. */
  method Table(i: nat) returns (delta: nat)
    requires i < 8
    ensures delta == if i < 7 then Power(6 - i) else 0
  {
    TableIsPowers();
    var addrSeq := [0x40, 0x20, 0x10, 0x08, 4, 2, 1, 0];
    delta := addrSeq[i];
  }

  lemma TableIsPowers()
    ensures Power(0) == 1 && Power(1) == 2 && Power(2) == 4 && Power(3) == 8
    ensures Power(4) == 16 && Power(5) == 32 && Power(6) == 64 && Power(7) == 128
  {
  }

  /** The readings the search makes use of. */
  function Steps(correcting: bool): nat {
    if correcting then 4 else 7
  }

  class Channel {
    var saved: int
    /** Everything written to the register so far, oldest first. */
    var shown: seq<int>

    constructor (value: int)
      ensures saved == value && shown == []
    {
      saved, shown := value, [];
    }

    /** Reads 8 lines, or 5 when correcting, and leaves the result in the register. */
    method Reading(correcting: bool, lines: seq<seq<int>>) returns (value: int)
      requires Enough(lines, Steps(correcting) + 1)
      modifies this
      ensures var values := Values(if correcting then old(saved) else 0x80, Darks(lines, Steps(correcting)));
              shown == old(shown) + values && value == saved == Last(values)
    {
      if correcting {
        value := Loop(3, saved, lines);
      } else {
        value := Loop(0, 0x80, lines);
      }
    }

    method Loop(first: nat, start: int, lines: seq<seq<int>>) returns (value: int)
      requires first <= 7 && Enough(lines, 8 - first)
      modifies this
      ensures var values := Values(start, Darks(lines, 7 - first));
              shown == old(shown) + values && value == saved == Last(values)
    {
      var index, temp := first, start;
      ghost var rest := Darks(lines, 7 - first);
      ghost var whole := shown + Values(start, rest);
      assert Last(whole) == Last(Values(start, rest));
      while true
        invariant first <= index <= 7 && rest == Darks(lines, 7 - first)[index - first..]
        invariant Completes(whole, shown, temp, rest)
        decreases 7 - index
      {
        OneTurn(whole, shown, temp, rest);
        saved := temp;
        shown := shown + [temp];
        var sum := Average(lines[index - first]);
        var delta := Table(index);
        if delta == 0 { return temp; }
        assert rest[0] == Dark(lines[index - first]);
        index := index + 1;
        rest := rest[1..];
        temp := Step(temp, sum < 0xfe, delta);
      }
    }
  }

  // ---- what the search finds ----

  /** How far a number of steps can move the value. */
  function Span(n: nat): (s: nat)
    ensures n > 0 ==> s == Power(n - 1) + Span(n - 1) && s == 2 * Span(n - 1) + 1
  {
    Power(n) - 1
  }

  ghost predicate Room(v: int, n: nat) {
    Span(n) <= v <= 0xff - Span(n)
  }

  lemma RoomAfter(v: int, n: nat)
    requires n > 0 && Room(v, n)
    ensures 0 <= v - Power(n - 1) && v + Power(n - 1) < 0x100
    ensures Room(v - Power(n - 1), n - 1) && Room(v + Power(n - 1), n - 1)
  {
  }

  /** The readings were dark exactly for the values below the threshold. */
  ghost predicate Threshold(values: seq<int>, dark: seq<bool>, t: int) {
    |values| == |dark| + 1 && forall k :: 0 <= k < |dark| ==> (dark[k] <==> values[k] < t)
  }

  lemma ThresholdOfRest(v: int, rest: seq<int>, dark: seq<bool>, t: int)
    requires |dark| > 0 && Threshold([v] + rest, dark, t)
    ensures (dark[0] <==> v < t) && Threshold(rest, dark[1..], t)
  {
    assert ([v] + rest)[0] == v;
    forall k | 0 <= k < |dark| - 1 ensures dark[1..][k] <==> rest[k] < t {
      assert ([v] + rest)[k + 1] == rest[k];
    }
  }

  /** The search brackets the threshold exactly when the threshold was within reach. */
  lemma {:induction false} Brackets(v: int, dark: seq<bool>, t: int)
    requires Room(v, |dark|) && Threshold(Values(v, dark), dark, t)
    ensures var r := Last(Values(v, dark)); r <= t <= r + 1 <==> v - Span(|dark|) <= t <= v + Span(|dark|) + 1
    decreases |dark|
  {
    if dark != [] {
      RoomAfter(v, |dark|);
      var next := Step(v, dark[0], Power(|dark| - 1));
      ValuesStep(v, dark);
      ThresholdOfRest(v, Values(next, dark[1..]), dark, t);
      Brackets(next, dark[1..], t);
    }
  }

  /** The thresholds a search can bracket, for any start: the last value before a step down would
      leave the byte is the limit below, and likewise above. */
  function Low(v: int, n: nat): int
    decreases n
  {
    if n == 0 then v else if v < Power(n - 1) then v + 1 else Low(v - Power(n - 1), n - 1)
  }

  function High(v: int, n: nat): int
    decreases n
  {
    if n == 0 then v + 1 else if v + Power(n - 1) > 0xff then v else High(v + Power(n - 1), n - 1)
  }

  /** Far above the threshold every reading is bright, and the search does not come back. */
  lemma {:induction false} FarAbove(v: int, dark: seq<bool>, t: int)
    requires v <= 0xff && v - Span(|dark|) >= 0 && v - Span(|dark|) > t && Threshold(Values(v, dark), dark, t)
    ensures Last(Values(v, dark)) > t
    decreases |dark|
  {
    if dark != [] {
      ThresholdStep(v, dark, t);
      assert Step(v, false, Power(|dark| - 1)) == v - Power(|dark| - 1);
      FarAbove(v - Power(|dark| - 1), dark[1..], t);
    }
  }

  lemma {:induction false} FarBelow(v: int, dark: seq<bool>, t: int)
    requires 0 <= v && v + Span(|dark|) <= 0xff && v + Span(|dark|) + 1 < t && Threshold(Values(v, dark), dark, t)
    ensures Last(Values(v, dark)) + 1 < t
    decreases |dark|
  {
    if dark != [] {
      ThresholdStep(v, dark, t);
      assert Step(v, true, Power(|dark| - 1)) == v + Power(|dark| - 1);
      FarBelow(v + Power(|dark| - 1), dark[1..], t);
    }
  }

  lemma ThresholdStep(v: int, dark: seq<bool>, t: int)
    requires dark != [] && Threshold(Values(v, dark), dark, t)
    ensures var rest := Values(Step(v, dark[0], Power(|dark| - 1)), dark[1..]);
            (dark[0] <==> v < t) && Threshold(rest, dark[1..], t) && Last(Values(v, dark)) == Last(rest)
  {
    ValuesStep(v, dark);
    ThresholdOfRest(v, Values(Step(v, dark[0], Power(|dark| - 1)), dark[1..]), dark, t);
  }

  lemma LimitsAround(v: int, n: nat)
    requires 0 <= v < 0x100
    ensures Low(v, n) <= v + 1 && High(v, n) >= v
    decreases n
  {
    if n > 0 {
      if v >= Power(n - 1) { LimitsAround(v - Power(n - 1), n - 1); }
      if v + Power(n - 1) <= 0xff { LimitsAround(v + Power(n - 1), n - 1); }
    }
  }

  lemma {:induction false} LowOfRaised(v: int, n: nat, w: int)
    requires 0 <= w && v == w + Power(n)
    ensures Low(v, n) == w + 1
    decreases n
  {
    if n > 0 { LowOfRaised(v - Power(n - 1), n - 1, w); }
  }

  lemma {:induction false} HighOfLowered(v: int, n: nat, w: int)
    requires w <= 0xff && v == w - Power(n)
    ensures High(v, n) == w
    decreases n
  {
    if n > 0 { HighOfLowered(v + Power(n - 1), n - 1, w); }
  }

  /** A step that leaves the byte loses the threshold. */
  lemma LostAbove(v: int, dark: seq<bool>, t: int)
    requires 0 <= v < 0x100 && dark != [] && Power(|dark|) <= 0x80 && Threshold(Values(v, dark), dark, t)
    requires dark[0] && v + Power(|dark| - 1) > 0xff
    ensures Last(Values(v, dark)) + 1 < t
  {
    var delta := Power(|dark| - 1);
    ThresholdStep(v, dark, t);
    assert Step(v, true, delta) == v + delta - 0x100;
    FarBelow(v + delta - 0x100, dark[1..], t);
  }

  lemma LostBelow(v: int, dark: seq<bool>, t: int)
    requires 0 <= v < 0x100 && dark != [] && Power(|dark|) <= 0x80 && Threshold(Values(v, dark), dark, t)
    requires !dark[0] && v < Power(|dark| - 1)
    ensures Last(Values(v, dark)) > t
  {
    var delta := Power(|dark| - 1);
    ThresholdStep(v, dark, t);
    assert Step(v, false, delta) == v - delta + 0x100;
    FarAbove(v - delta + 0x100, dark[1..], t);
  }

  /** Any search of at most seven steps brackets exactly the thresholds between its limits. */
  lemma {:induction false} BracketsExactly(v: int, dark: seq<bool>, t: int)
    requires 0 <= v < 0x100 && Power(|dark|) <= 0x80 && Threshold(Values(v, dark), dark, t)
    ensures var r := Last(Values(v, dark)); r <= t <= r + 1 <==> Low(v, |dark|) <= t <= High(v, |dark|)
    decreases |dark|
  {
    if dark != [] {
      var n, delta := |dark|, Power(|dark| - 1);
      LimitsStep(v, n);
      LimitsAround(v, n);
      assert dark[0] <==> v < t by { ThresholdStep(v, dark, t); }
      if dark[0] && v + delta > 0xff {
        LostAbove(v, dark, t);
      } else if !dark[0] && v < delta {
        LostBelow(v, dark, t);
      } else {
        ThresholdStep(v, dark, t);
        var next := Step(v, dark[0], delta);
        BracketsExactly(next, dark[1..], t);
        if dark[0] { LowOfRaised(next, n - 1, v); } else { HighOfLowered(next, n - 1, v); }
      }
    }
  }

  /** The full search brackets every threshold from 1 to 256, and none outside. */
  lemma FullSearch(dark: seq<bool>, t: int)
    requires |dark| == Steps(false) && Threshold(Values(0x80, dark), dark, t)
    ensures var r := Last(Values(0x80, dark)); r <= t <= r + 1 <==> 1 <= t <= 0x100
  {
    TableIsPowers();
    Brackets(0x80, dark, t);
  }

  /** The correcting search from any saved byte brackets exactly the thresholds between these limits;
      away from the ends of the byte they are 15 below and 16 above the saved value. */
  lemma CorrectingSearch(saved: int, dark: seq<bool>, t: int)
    requires 0 <= saved < 0x100 && |dark| == Steps(true) && Threshold(Values(saved, dark), dark, t)
    ensures var low := if saved < 8 then saved + 1 else if saved < 12 then saved - 7
                       else if saved < 14 then saved - 11 else if saved == 14 then 1 else saved - 15;
            var high := if saved >= 248 then saved else if saved >= 244 then saved + 8
                        else if saved >= 242 then saved + 12 else if saved == 241 then 255 else saved + 16;
            var r := Last(Values(saved, dark));
            r <= t <= r + 1 <==> low <= t <= high
  {
    TableIsPowers();
    BracketsExactly(saved, dark, t);
    CorrectingLimits(saved, |dark|);
  }

  lemma CorrectingLimits(v: int, n: nat)
    requires 0 <= v < 0x100 && n == 4
    ensures Low(v, n) == if v < 8 then v + 1 else if v < 12 then v - 7
                         else if v < 14 then v - 11 else if v == 14 then 1 else v - 15
    ensures High(v, n) == if v >= 248 then v else if v >= 244 then v + 8
                          else if v >= 242 then v + 12 else if v == 241 then 255 else v + 16
  {
    TableIsPowers();
    LimitsStep(v, n);
    LimitsStep(v - 8, n - 1);
    LimitsStep(v - 12, n - 2);
    LimitsStep(v - 14, n - 3);
    LimitsStep(v + 8, n - 1);
    LimitsStep(v + 12, n - 2);
    LimitsStep(v + 14, n - 3);
  }

  lemma LimitsStep(v: int, n: nat)
    requires n > 0
    ensures Low(v, n) == if v < Power(n - 1) then v + 1 else Low(v - Power(n - 1), n - 1)
    ensures High(v, n) == if v + Power(n - 1) > 0xff then v else High(v + Power(n - 1), n - 1)
    ensures n == 1 ==> Low(v - Power(n - 1), n - 1) == v - Power(n - 1)
    ensures n == 1 ==> High(v + Power(n - 1), n - 1) == v + Power(n - 1) + 1
  {
  }

  // ---- the byte and its wrap-around, for readings of any kind ----

  /** The readings as a binary number, the last one its lowest digit. */
  function Number(dark: seq<bool>): (n: nat) {
    if dark == [] then 0 else 2 * Number(dark[..|dark| - 1]) + (if dark[|dark| - 1] then 1 else 0)
  }

  lemma {:induction false} HighestDigit(dark: seq<bool>)
    requires |dark| > 0
    ensures Number(dark) == (if dark[0] then Power(|dark| - 1) else 0) + Number(dark[1..])
  {
    if |dark| > 1 {
      var front := dark[..|dark| - 1];
      HighestDigit(front);
      assert front[1..] == dark[1..][..|dark| - 2];
    }
  }

  /** Some step leaves the byte. */
  predicate Wraps(v: int, dark: seq<bool>)
    decreases |dark|
  {
    dark != [] &&
    var next := if dark[0] then v + Power(|dark| - 1) else v - Power(|dark| - 1);
    next < 0 || next > 0xff || Wraps(next, dark[1..])
  }

  lemma StepWithoutWrap(v: int, dark: seq<bool>)
    requires dark != [] && !Wraps(v, dark)
    ensures var next := Step(v, dark[0], Power(|dark| - 1));
            next == (if dark[0] then v + Power(|dark| - 1) else v - Power(|dark| - 1)) && !Wraps(next, dark[1..])
  {
  }

  /** As long as nothing wraps, the result spells the readings in binary. */
  lemma {:induction false} ResultIsBinary(v: int, dark: seq<bool>)
    requires !Wraps(v, dark)
    ensures Last(Values(v, dark)) == v - Span(|dark|) + 2 * Number(dark)
    decreases |dark|
  {
    if dark != [] {
      StepWithoutWrap(v, dark);
      ValuesStep(v, dark);
      HighestDigit(dark);
      ResultIsBinary(Step(v, dark[0], Power(|dark| - 1)), dark[1..]);
    }
  }

  lemma {:induction false} StaysInside(v: int, dark: seq<bool>)
    requires Room(v, |dark|)
    ensures !Wraps(v, dark)
    decreases |dark|
  {
    if dark != [] {
      RoomAfter(v, |dark|);
      StaysInside(if dark[0] then v + Power(|dark| - 1) else v - Power(|dark| - 1), dark[1..]);
    }
  }

  lemma {:induction false} LeavesByRepeating(v: int, up: bool, dark: seq<bool>)
    requires 0 <= v < 0x100 && forall k :: 0 <= k < |dark| ==> dark[k] == up
    requires if up then v + Span(|dark|) > 0xff else v - Span(|dark|) < 0
    ensures Wraps(v, dark)
    decreases |dark|
  {
    if dark != [] {
      var next := if up then v + Power(|dark| - 1) else v - Power(|dark| - 1);
      assert dark[0] == up;
      if 0 <= next < 0x100 { LeavesByRepeating(next, up, dark[1..]); }
    }
  }

  /** No readings at all make the byte wrap exactly when the start leaves room on both sides. */
  lemma NeverWrapsExactly(v: int, n: nat)
    requires 0 <= v < 0x100
    ensures (forall dark: seq<bool> | |dark| == n :: !Wraps(v, dark)) <==> Span(n) <= v <= 0xff - Span(n)
  {
    if Room(v, n) {
      forall dark: seq<bool> | |dark| == n ensures !Wraps(v, dark) { StaysInside(v, dark); }
    } else {
      var up := v > 0xff - Span(n);
      LeavesByRepeating(v, up, seq(n, _ => up));
    }
  }

  /** The full search never wraps; the correcting one exactly when the saved value is 15 to 240. */
  lemma WrappingOfBothSearches(saved: int)
    requires 0 <= saved < 0x100
    ensures forall dark: seq<bool> | |dark| == Steps(false) :: !Wraps(0x80, dark)
    ensures (forall dark: seq<bool> | |dark| == Steps(true) :: !Wraps(saved, dark)) <==> 15 <= saved <= 240
  {
    TableIsPowers();
    NeverWrapsExactly(0x80, Steps(false));
    NeverWrapsExactly(saved, Steps(true));
  }

  /** Readings are recovered from the number they spell. */
  lemma {:induction false} NumberInjective(dark: seq<bool>, other: seq<bool>)
    requires |dark| == |other| && Number(dark) == Number(other)
    ensures dark == other
  {
    if dark != [] {
      var last := |dark| - 1;
      NumberInjective(dark[..last], other[..last]);
      assert dark == dark[..last] + [dark[last]] && other == other[..last] + [other[last]];
    }
  }

  /** The full search returns an odd number that spells the readings, a different one for different
      readings. */
  lemma FullSearchSpells(dark: seq<bool>, other: seq<bool>)
    requires |dark| == |other| == Steps(false)
    ensures Last(Values(0x80, dark)) == 1 + 2 * Number(dark)
    ensures Last(Values(0x80, dark)) == Last(Values(0x80, other)) ==> dark == other
  {
    TableIsPowers();
    StaysInside(0x80, dark);
    StaysInside(0x80, other);
    ResultIsBinary(0x80, dark);
    ResultIsBinary(0x80, other);
    if Number(dark) == Number(other) { NumberInjective(dark, other); }
  }
}
