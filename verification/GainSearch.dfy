// Coarse gain calibration of CIS scanners: a bisection per colour channel that goes on
// until all channels are satisfied in the same scan.

module GainSearch {
  import opened Bisection

  const IDEAL: int := 0xf000
  const REG_GAIN: nat := 0x3b

  /** Search interval and current gain register of one channel. */
  datatype Channel = Channel(min: int, max: int, gain: int)

  /** The open window of readings that are taken as they are. */
  predicate InWindow(val: int) {
    IDEAL - 8000 < val < IDEAL
  }

  predicate Wide(c: Channel) {
    c.min + 1 < c.max
  }

  /** What one reading does to a channel. */
  function Adjusted(c: Channel, val: int): Channel {
    if InWindow(val) then c
    else if val > IDEAL - 4000 then Channel(c.min, c.gain, (c.gain + c.min) / 2)
    else Channel(c.gain, c.max, (c.gain + c.max) / 2)
  }

  /** Whether the channel asks for another scan. */
  predicate Again(c: Channel, val: int) {
    !InWindow(val) && Wide(Adjusted(c, val))
  }

  ghost predicate Ordered(c: Channel) {
    1 <= c.min <= c.gain <= c.max <= 63
  }

  // ----- why the loop ends -----

  /** An upper bound on the scans this channel can still ask for. */
  function Budget(c: Channel): nat
    requires Ordered(c)
  {
    if !Wide(c) then 0
    else Halvings(c.max - c.min) + if c.gain == (c.min + c.max) / 2 then 0 else 1
  }

  /** Whatever the reading says, asking again costs budget, and nothing adds to it. */
  lemma BudgetFalls(c: Channel, val: int)
    requires Ordered(c)
    ensures Ordered(Adjusted(c, val))
    ensures Budget(Adjusted(c, val)) + (if Again(c, val) then 1 else 0) <= Budget(c)
  {
    var d := Adjusted(c, val);
    if Wide(d) && !InWindow(val) {
      var v, w := d.max - d.min, c.max - c.min;
      if c.gain == (c.min + c.max) / 2 {
        HalvingsMonotone(v, (w + 1) / 2);
      } else {
        HalvingsMonotone(v, w);
      }
    }
  }

  // ----- what a steady, monotone sensor guarantees -----

  /** Readings depend on channel and gain only, and more gain never reads darker. */
  ghost predicate Steady(read: (nat, nat, int) -> int) {
    && (forall n, m, ch, g :: read(n, ch, g) == read(m, ch, g))
    && (forall n, ch, g, h :: g <= h ==> read(n, ch, g) <= read(n, ch, h))
  }

  /** Each end of the interval is either untested or known to be on its side. */
  ghost predicate Bracketed(c: Channel, response: int -> int) {
    && (c.min == 1 || response(c.min) <= IDEAL - 8000)
    && (c.max == 63 || response(c.max) >= IDEAL)
  }

  /** The channel is content with the last reading, or its interval is used up. */
  ghost predicate Settled(c: Channel, response: int -> int) {
    InWindow(response(c.gain)) || (!Wide(c) && c.gain == c.min)
  }

  lemma BracketKept(c: Channel, response: int -> int)
    requires Ordered(c) && Bracketed(c, response)
    ensures Bracketed(Adjusted(c, response(c.gain)), response)
    ensures !Again(c, response(c.gain)) ==> Settled(Adjusted(c, response(c.gain)), response)
  {
  }

  /** Where the search ended outside the window: gain 1 at its brightest is too bright, or the
      search ended on the last gain that is too dark. No gain from 1 to 62 is in the window. */
  lemma SettledMeans(c: Channel, response: int -> int)
    requires Ordered(c) && Bracketed(c, response) && Settled(c, response)
    requires forall g, h :: g <= h ==> response(g) <= response(h)
    requires !InWindow(response(c.gain))
    ensures (c.gain == 1 && response(1) >= IDEAL) ||
            (forall g :: 1 <= g <= 62 && g <= c.gain ==> response(g) <= IDEAL - 8000)
    ensures forall g :: 1 <= g <= 62 && g > c.gain ==> response(g) >= IDEAL
    ensures forall g :: 1 <= g <= 62 ==> !InWindow(response(g))
  {
    forall g | 1 <= g <= 62 && g != c.gain
      ensures if g < c.gain then response(g) <= IDEAL - 8000 else response(g) >= IDEAL
    {
      assert g <= c.min ==> response(g) <= response(c.min);
      assert g >= c.max ==> response(c.max) <= response(g);
    }
  }

  /** Gain 63 is only ever kept, never arrived at; and it is kept if it is in the window. */
  ghost predicate TopKept(c: Channel, start: int, response: int -> int) {
    && (c.gain == 63 ==> start == 63)
    && (start == 63 && InWindow(response(63)) ==> c.gain == 63)
  }

  lemma TopGainStays(c: Channel, start: int, response: int -> int)
    requires Ordered(c) && TopKept(c, start, response)
    ensures TopKept(Adjusted(c, response(c.gain)), start, response)
  {
  }

  /** The promise of the search started at some gain, and when it is kept: the gain found is in the
      window exactly if a gain from 1 to 62 is, or gain 63 is and the search started on it. */
  ghost predicate Found(c: Channel, start: int, response: int -> int) {
    53440 < response(c.gain) < 61440 <==>
      (exists g :: 1 <= g <= 62 && 53440 < response(g) < 61440) || (start == 63 && 53440 < response(63) < 61440)
  }

  /** Main result for one channel. */
  lemma FoundExactly(c: Channel, start: int, response: int -> int)
    requires Ordered(c) && Bracketed(c, response) && Settled(c, response) && TopKept(c, start, response)
    requires forall g, h :: g <= h ==> response(g) <= response(h)
    ensures Found(c, start, response)
  {
    if !InWindow(response(c.gain)) {
      SettledMeans(c, response);
    }
  }

  // ----- the driver's loop -----

  class Calibrator {
    const min: array<int>
    const max: array<int>
    const regs: array<int>    // a_bRegs

    ghost predicate Valid()
      reads this
    {
      && min.Length == max.Length == 3 && regs.Length == 0x80
      && min != max && min != regs && max != regs
    }

    constructor ()
      ensures Valid() && fresh(min) && fresh(max) && fresh(regs)
    {
      min := new int[3];
      max := new int[3];
      regs := new int[0x80];
    }

    function Chan(i: nat, reg: nat): Channel
      reads this, min, max, regs
      requires Valid() && i < 3 && reg < 3
    {
      Channel(min[i], max[i], regs[REG_GAIN + reg])
    }

    /** Interval i and the gain register `reg`: 1 asks for another scan. */
    method AdjGainSetting(i: nat, reg: nat, val: int) returns (adj: int)
      requires Valid() && i < 3 && reg < 3
      modifies min, max, regs
      ensures Chan(i, reg) == Adjusted(old(Chan(i, reg)), val)
      ensures adj == if Again(old(Chan(i, reg)), val) then 1 else 0
      // the gain becomes one end of the interval, and the new gain lies half-way to the other
      ensures 53440 < val < 61440 ==>
        adj == 0 && min[i] == old(min[i]) && max[i] == old(max[i]) && regs[0x3b + reg] == old(regs[0x3b + reg])
      ensures val >= 61440 ==>
        && min[i] == old(min[i]) && max[i] == old(regs[0x3b + reg])
        && regs[0x3b + reg] == (old(regs[0x3b + reg]) + min[i]) / 2
      ensures val <= 53440 ==>
        && max[i] == old(max[i]) && min[i] == old(regs[0x3b + reg])
        && regs[0x3b + reg] == (old(regs[0x3b + reg]) + max[i]) / 2
      ensures !(53440 < val < 61440) ==> adj == if min[i] + 1 >= max[i] then 0 else 1
      ensures forall k :: 0 <= k < 3 && k != i ==> min[k] == old(min[k]) && max[k] == old(max[k])
      ensures forall k :: 0 <= k < 0x80 && k != REG_GAIN + reg ==> regs[k] == old(regs[k])
    {
      var newgain := regs[REG_GAIN + reg];
      if IDEAL - 8000 < val < IDEAL {
        return 0;
      }
      if val > IDEAL - 4000 {
        max[i] := newgain;
        regs[REG_GAIN + reg] := (newgain + min[i]) / 2;
      } else {
        min[i] := newgain;
        regs[REG_GAIN + reg] := (newgain + max[i]) / 2;
      }
      adj := if min[i] + 1 >= max[i] then 0 else 1;
    }

    ghost predicate AllOrdered()
      reads this, min, max, regs
      requires Valid()
    {
      Ordered(Chan(0, 0)) && Ordered(Chan(1, 1)) && Ordered(Chan(2, 2))
    }

    method Start()
      requires Valid()
      modifies min, max
      ensures forall i :: 0 <= i < 3 ==> min[i] == 1 && max[i] == 63
    {
      max[0], max[1], max[2] := 0x3f, 0x3f, 0x3f;
      min[0], min[1], min[2] := 1, 1, 1;
    }

    ghost predicate AllBracketed(read: (nat, nat, int) -> int)
      reads this, min, max, regs
      requires Valid()
    {
      && Bracketed(Chan(0, 0), Response(read, 0)) && Bracketed(Chan(1, 1), Response(read, 1))
      && Bracketed(Chan(2, 2), Response(read, 2))
    }

    ghost predicate AllSettled(read: (nat, nat, int) -> int)
      reads this, min, max, regs
      requires Valid()
    {
      && Settled(Chan(0, 0), Response(read, 0)) && Settled(Chan(1, 1), Response(read, 1))
      && Settled(Chan(2, 2), Response(read, 2))
    }

    ghost predicate AllTopKept(read: (nat, nat, int) -> int, start: seq<int>)
      reads this, min, max, regs
      requires Valid() && |start| == 3
    {
      && TopKept(Chan(0, 0), start[0], Response(read, 0)) && TopKept(Chan(1, 1), start[1], Response(read, 1))
      && TopKept(Chan(2, 2), start[2], Response(read, 2))
    }

    /** All three channels keep the promise exactly as far as their starting gains allow. */
    ghost predicate AllFound(read: (nat, nat, int) -> int, start: seq<int>)
      reads this, min, max, regs
      requires Valid() && |start| == 3
    {
      && Found(Chan(0, 0), start[0], Response(read, 0)) && Found(Chan(1, 1), start[1], Response(read, 1))
      && Found(Chan(2, 2), start[2], Response(read, 2))
    }

    function TotalBudget(): nat
      reads this, min, max, regs
      requires Valid() && AllOrdered()
    {
      Budget(Chan(0, 0)) + Budget(Chan(1, 1)) + Budget(Chan(2, 2))
    }

    /** One scan in colour: the three channels are adjusted to readings of the same line. */
    method AdjustAll(r: int, g: int, b: int) returns (adj: int)
      requires Valid() && AllOrdered()
      modifies min, max, regs
      ensures Chan(0, 0) == Adjusted(old(Chan(0, 0)), r)
      ensures Chan(1, 1) == Adjusted(old(Chan(1, 1)), g)
      ensures Chan(2, 2) == Adjusted(old(Chan(2, 2)), b)
      ensures adj >= 0
      ensures adj == 0 <==>
        !Again(old(Chan(0, 0)), r) && !Again(old(Chan(1, 1)), g) && !Again(old(Chan(2, 2)), b)
      ensures AllOrdered() && TotalBudget() + (if adj != 0 then 1 else 0) <= old(TotalBudget())
    {
      BudgetFalls(Chan(0, 0), r);
      BudgetFalls(Chan(1, 1), g);
      BudgetFalls(Chan(2, 2), b);
      adj := AdjGainSetting(0, 0, r);
      var adjGreen := AdjGainSetting(1, 1, g);
      var adjBlue := AdjGainSetting(2, 2, b);
      adj := adj + adjGreen + adjBlue;
    }

    /** Colour scans: read(n, channel, gain) is the n-th scan's brightest average. For any
        readings the loop ends within 19 scans; for a steady sensor it ends settled. */
    method AdjustGainColor(read: (nat, nat, int) -> int) returns (scans: nat)
      requires Valid()
      requires 1 <= regs[0x3b] <= 63 && 1 <= regs[0x3c] <= 63 && 1 <= regs[0x3d] <= 63
      modifies min, max, regs
      ensures scans <= 19
      ensures AllOrdered()
      ensures Steady(read) ==> AllBracketed(read) && AllSettled(read)
      ensures Steady(read) ==> AllFound(read, old(regs[0x3b..0x3e]))
    {
      ghost var start := regs[0x3b..0x3e];
      Start();
      scans := 0;
      ghost var budget := 18;
      StartBudget(Chan(0, 0));
      StartBudget(Chan(1, 1));
      StartBudget(Chan(2, 2));
      var adj := 1;
      while adj != 0
        invariant AllOrdered() && adj >= 0
        invariant scans + budget == 18 + (if adj == 0 then 1 else 0)
        invariant 0 <= TotalBudget() <= budget
        invariant Steady(read) ==> AllBracketed(read)
        invariant Steady(read) && adj == 0 ==> AllSettled(read)
        invariant Steady(read) ==> AllTopKept(read, start)
        decreases budget, adj
      {
        var r, g, b := read(scans, 0, regs[0x3b]), read(scans, 1, regs[0x3c]), read(scans, 2, regs[0x3d]);
        if Steady(read) {
          BracketKept(Chan(0, 0), Response(read, 0));
          BracketKept(Chan(1, 1), Response(read, 1));
          BracketKept(Chan(2, 2), Response(read, 2));
          TopGainStays(Chan(0, 0), start[0], Response(read, 0));
          TopGainStays(Chan(1, 1), start[1], Response(read, 1));
          TopGainStays(Chan(2, 2), start[2], Response(read, 2));
        }
        adj := AdjustAll(r, g, b);
        scans := scans + 1;
        if adj != 0 {
          budget := budget - 1;
        }
      }
      if Steady(read) {
        FoundExactly(Chan(0, 0), start[0], Response(read, 0));
        FoundExactly(Chan(1, 1), start[1], Response(read, 1));
        FoundExactly(Chan(2, 2), start[2], Response(read, 2));
      }
    }

    /** Gray scans: only the green gain is searched; red and blue get the same value. */
    method AdjustGainGray(read: (nat, nat, int) -> int) returns (scans: nat)
      requires Valid() && 1 <= regs[0x3c] <= 63
      modifies min, max, regs
      ensures scans <= 7
      ensures Ordered(Chan(0, 1)) && regs[0x3b] == regs[0x3c] == regs[0x3d]
      ensures Steady(read) ==> Bracketed(Chan(0, 1), Response(read, 0)) && Settled(Chan(0, 1), Response(read, 0))
      ensures Steady(read) ==> Found(Chan(0, 1), old(regs[0x3c]), Response(read, 0))
    {
      ghost var start := regs[0x3c];
      Start();
      scans := 0;
      ghost var budget := 6;
      StartBudget(Chan(0, 1));
      var adj := 1;
      while adj != 0
        invariant Ordered(Chan(0, 1)) && adj >= 0
        invariant scans > 0 ==> regs[0x3b] == regs[0x3c] == regs[0x3d]
        invariant scans + budget == 6 + (if adj == 0 then 1 else 0)
        invariant 0 <= Budget(Chan(0, 1)) <= budget
        invariant Steady(read) ==> Bracketed(Chan(0, 1), Response(read, 0))
        invariant Steady(read) && adj == 0 ==> Settled(Chan(0, 1), Response(read, 0))
        invariant Steady(read) ==> TopKept(Chan(0, 1), start, Response(read, 0))
        decreases budget, adj
      {
        var w := read(scans, 0, regs[0x3c]);
        BudgetFalls(Chan(0, 1), w);
        if Steady(read) {
          BracketKept(Chan(0, 1), Response(read, 0));
          TopGainStays(Chan(0, 1), start, Response(read, 0));
        }
        adj := AdjGainSetting(0, 1, w);
        regs[0x3d] := regs[0x3c];
        regs[0x3b] := regs[0x3d];
        scans := scans + 1;
        if adj != 0 {
          budget := budget - 1;
        }
      }
      if Steady(read) { FoundExactly(Chan(0, 1), start, Response(read, 0)); }
    }
  }

  function Response(read: (nat, nat, int) -> int, ch: nat): int -> int {
    g => read(0, ch, g)
  }

  lemma StartBudget(c: Channel)
    requires c.min == 1 && c.max == 63 && 1 <= c.gain <= 63
    ensures Budget(c) <= 6
  {
    assert Halvings(62) == 5;
  }

  // ----- the bound on the scans is met, and the top gain can be missed -----

  /** A sensor that only gain 63 drives into the window: seven gray scans, starting from the
      preset gain 1, and the search ends on 62, outside the window. */
  lemma TopGainMissed(response: int -> int)
    requires forall g :: response(g) == if g >= 63 then IDEAL - 1 else 0
    ensures var c := Scanned(Channel(1, 63, 1), response, 7);
      c == Channel(62, 63, 62) && !InWindow(response(c.gain)) && InWindow(response(63))
    ensures forall n :: 0 <= n < 6 ==>
      var c := Scanned(Channel(1, 63, 1), response, n); Again(c, response(c.gain))
  {
    var c := Channel(1, 63, 1);
    assert Scanned(c, response, 1) == Channel(1, 63, 32);
    assert Scanned(c, response, 2) == Channel(32, 63, 47);
    assert Scanned(c, response, 3) == Channel(47, 63, 55);
    assert Scanned(c, response, 4) == Channel(55, 63, 59);
    assert Scanned(c, response, 5) == Channel(59, 63, 61);
    assert Scanned(c, response, 6) == Channel(61, 63, 62);
    assert Scanned(c, response, 7) == Channel(62, 63, 62);
  }

  /** A channel after n scans of a steady sensor. */
  function Scanned(c: Channel, response: int -> int, n: nat): Channel {
    if n == 0 then c
    else
      var d := Scanned(c, response, n - 1);
      Adjusted(d, response(d.gain))
  }
}
