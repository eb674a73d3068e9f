// Coarse offset calibration of CIS scanners: a bisection on signed six-bit offsets with C
// division, which truncates toward zero, and a second rule on the share of zero pixels.

module OffsetSearch {
  import opened Bisection

  const REG_OFFSET: nat := 0x38
  const DARK: int := 16
  const BRIGHT: int := 2048
  /** Percentage of zero pixels that is still accepted. */
  const ZERO_THRESHOLD: int := 1

  /** Search interval, current offset, and whether the black level is still looked at. */
  datatype Offset = Offset(low: int, now: int, high: int, tweak: bool)

  /** C division by two. */
  function Half(x: int): int {
    if x >= 0 then x / 2 else -(-x / 2)
  }

  /** The six bits written to the register, and how the chip reads them back. */
  function Encode(offset: int): int {
    offset % 64
  }

  function Decode(reg: int): int {
    if reg < 32 then reg else reg - 64
  }

  lemma RegisterRoundTrip(offset: int)
    requires -32 <= offset <= 31
    ensures 0 <= Encode(offset) < 64 && Decode(Encode(offset)) == offset
  {
    if offset < 0 {
      assert (offset + 64) % 64 == offset + 64;
    }
  }

  predicate Wide(o: Offset) {
    o.low + 1 < o.high
  }

  function Raised(o: Offset): Offset {
    o.(low := o.now, now := Half(o.now + o.high))
  }

  function Lowered(o: Offset): Offset {
    o.(high := o.now, now := Half(o.now + o.low))
  }

  datatype Verdict = Raise | Lower | LowerForZeros | Accept

  /** Which rule a reading triggers: average, then the share of zero pixels if the device
      has that check. Once the second rule has acted, the first is never consulted again. */
  function Judge(o: Offset, val: int, zeros: int, incDark: bool): Verdict {
    if o.tweak && val <= DARK then Raise
    else if o.tweak && val >= BRIGHT then Lower
    else if incDark && zeros > ZERO_THRESHOLD then LowerForZeros
    else Accept
  }

  function Adjusted(o: Offset, val: int, zeros: int, incDark: bool): Offset {
    match Judge(o, val, zeros, incDark)
    case Raise => Raised(o)
    case Lower => Lowered(o)
    case LowerForZeros => Lowered(o).(tweak := false)
    case Accept => o
  }

  predicate Again(o: Offset, val: int, zeros: int, incDark: bool) {
    Judge(o, val, zeros, incDark) != Accept && Wide(Adjusted(o, val, zeros, incDark))
  }

  /** A channel before and after a reading: too dark moves the lower end and the offset up, too bright or
      too many zero pixels the upper end and the offset down, half-way with a quotient cut toward zero. */
  predicate Moved(o: Offset, p: Offset, val: int, zeros: int, incDark: bool) {
    var up, down := o.now + o.high, o.now + o.low;
    && (o.tweak && val <= 16 ==>
          p == Offset(o.now, if up >= 0 then up / 2 else -(-up / 2), o.high, true))
    && (o.tweak && val >= 2048 ==>
          p == Offset(o.low, if down >= 0 then down / 2 else -(-down / 2), o.now, true))
    && ((!o.tweak || 16 < val < 2048) && incDark && zeros > 1 ==>
          p == Offset(o.low, if down >= 0 then down / 2 else -(-down / 2), o.now, false))
    && ((!o.tweak || 16 < val < 2048) && !(incDark && zeros > 1) ==> p == o)
  }

  lemma AdjustedMoves(o: Offset, val: int, zeros: int, incDark: bool)
    ensures Moved(o, Adjusted(o, val, zeros, incDark), val, zeros, incDark)
  {
  }

  /** The invariant, and the point on which truncating division could have broken it. */
  ghost predicate Ordered(o: Offset) {
    -32 <= o.low <= o.now <= o.high <= 31
  }

  /** While the interval is wide, the offset is its midpoint, strictly inside. Started at 0, a search
      never arrives at -32 or 31. */
  ghost predicate Centred(o: Offset) {
    Ordered(o) && -31 <= o.now <= 30 && (Wide(o) ==> o.now == Half(o.low + o.high))
  }

  /** An upper bound on the scans a channel can still ask for. */
  function Budget(o: Offset): nat
    requires o.low <= o.high
  {
    Halvings(o.high - o.low)
  }

  /** For any reading: order and midpoint are kept, asking again costs budget, and a channel
      with high - low <= 1 stays that way and never asks again. */
  lemma BudgetFalls(o: Offset, val: int, zeros: int, incDark: bool)
    requires Centred(o)
    ensures var p := Adjusted(o, val, zeros, incDark);
      && Centred(p) && o.low <= p.low && p.high <= o.high
      && Budget(p) + (if Again(o, val, zeros, incDark) then 1 else 0) <= Budget(o)
      && (!Wide(o) ==> !Wide(p) && !Again(o, val, zeros, incDark))
  {
    var p := Adjusted(o, val, zeros, incDark);
    var v, w := p.high - p.low, o.high - o.low;
    if Judge(o, val, zeros, incDark) != Accept {
      if Wide(o) {
        HalvingsMonotone(v, (w + 1) / 2);
      } else {
        HalvingsMonotone(v, w);
      }
    }
  }

  /** Too many zero pixels make the driver say it raises the offset; it never does. */
  lemma ZeroPixelsNeverRaise(o: Offset, val: int, zeros: int)
    requires Centred(o) && zeros > 1 && !(o.tweak && val <= 16)
    ensures Adjusted(o, val, zeros, true).now <= o.now
    ensures Adjusted(o, val, zeros, true).now == o.now <==> (o.now == o.low || (o.now == o.low + 1 && o.now <= 0))
  {
  }

  /** After the zero-pixel rule has acted once, a channel only ever goes down. */
  lemma OnlyDownAfterZeros(o: Offset, val: int, zeros: int, incDark: bool)
    requires Centred(o) && !o.tweak
    ensures var p := Adjusted(o, val, zeros, incDark); !p.tweak && p.low == o.low && p.now <= o.now
  {
  }

  // ----- a steady, monotone sensor without the zero-pixel check -----

  ghost predicate Bracketed(o: Offset, response: int -> int) {
    && (o.low == -32 || response(o.low) <= DARK)
    && (o.high == 31 || response(o.high) >= BRIGHT)
  }

  ghost predicate Settled(o: Offset, response: int -> int) {
    DARK < response(o.now) < BRIGHT || !Wide(o)
  }

  lemma BracketKept(o: Offset, response: int -> int, zeros: int)
    requires Centred(o) && Bracketed(o, response) && o.tweak
    ensures var p := Adjusted(o, response(o.now), zeros, false);
      && p.tweak && Bracketed(p, response)
      && (!Again(o, response(o.now), zeros, false) ==> Settled(p, response))
  {
  }

  predicate Acceptable(val: int) {
    DARK < val < BRIGHT
  }

  /** The promise of the search, and when it is kept: the black level found is acceptable exactly if
      some offset from -31 to 30 gives an acceptable one. */
  ghost predicate Found(o: Offset, response: int -> int) {
    16 < response(o.now) < 2048 <==> exists x :: -31 <= x <= 30 && 16 < response(x) < 2048
  }

  /** Main result for one channel without the zero-pixel check. */
  lemma FoundExactly(o: Offset, response: int -> int)
    requires Centred(o) && Bracketed(o, response) && Settled(o, response)
    requires forall x, y :: x <= y ==> response(x) <= response(y)
    ensures Found(o, response)
  {
    forall x | -31 <= x <= 30 && Acceptable(response(x))
      ensures Acceptable(response(o.now))
    {
      assert x <= o.low ==> response(x) <= response(o.low);
      assert x >= o.high ==> response(o.high) <= response(x);
    }
  }

  // ----- what the zero-pixel check changes -----

  /** A channel after n scans of a steady sensor. */
  function Scanned(o: Offset, response: int -> int, zeros: int -> int, incDark: bool, n: nat): Offset {
    if n == 0 then o
    else
      var p := Scanned(o, response, zeros, incDark, n - 1);
      Adjusted(p, response(p.now), zeros(p.now), incDark)
  }

  /** Both promises at once: the black level is acceptable and there are few zero pixels. */
  predicate Good(x: int, response: int -> int, zeros: int -> int) {
    Acceptable(response(x)) && zeros(x) <= ZERO_THRESHOLD
  }

  /** How a search with the zero-pixel check and one without it stand to each other: they are the same
      until the check acts; from then on both are at offsets with too many zero pixels. */
  ghost predicate Side(with: Offset, without: Offset, response: int -> int, zeros: int -> int) {
    && Centred(with) && Centred(without) && without.tweak
    && (if with.tweak then with == without
        else zeros(with.now) > ZERO_THRESHOLD && zeros(without.now) > ZERO_THRESHOLD && Acceptable(response(without.now)))
  }

  lemma SideKept(with: Offset, without: Offset, response: int -> int, zeros: int -> int)
    requires Side(with, without, response, zeros) && forall x, y :: x <= y ==> zeros(y) <= zeros(x)
    ensures Side(Adjusted(with, response(with.now), zeros(with.now), true),
                 Adjusted(without, response(without.now), zeros(without.now), false), response, zeros)
  {
    BudgetFalls(with, response(with.now), zeros(with.now), true);
    BudgetFalls(without, response(without.now), zeros(without.now), false);
    WithoutKeepsTweak(without, response(without.now), zeros(without.now));
    if zeros(with.now) > ZERO_THRESHOLD && !(with.tweak && response(with.now) <= DARK) {
      ZeroPixelsNeverRaise(with, response(with.now), zeros(with.now));
    }
  }

  /** On a sensor whose zero pixels get fewer with a higher offset, the check of the zero pixels never
      leads to a good offset that the search without it does not have after as many scans, nor away
      from one. Once it has acted, there are too many zero pixels for good. */
  lemma {:induction false} ZeroRuleGainsNothing(o: Offset, response: int -> int, zeros: int -> int, n: nat)
    requires Centred(o) && o.tweak && forall x, y :: x <= y ==> zeros(y) <= zeros(x)
    ensures var with, without := Scanned(o, response, zeros, true, n), Scanned(o, response, zeros, false, n);
      && Side(with, without, response, zeros)
      && (Good(with.now, response, zeros) <==> Good(without.now, response, zeros))
      && (!with.tweak ==> !Good(with.now, response, zeros))
  {
    if n > 0 {
      ZeroRuleGainsNothing(o, response, zeros, n - 1);
      SideKept(Scanned(o, response, zeros, true, n - 1), Scanned(o, response, zeros, false, n - 1), response, zeros);
    }
  }

  lemma WithoutKeepsTweak(o: Offset, val: int, zeros: int)
    ensures Adjusted(o, val, zeros, false).tweak == o.tweak
    ensures o.tweak && Acceptable(val) ==> Adjusted(o, val, zeros, false) == o
  {
  }

  // ----- the driver's loop -----

  /** What one scan says about one channel. */
  datatype Reading = Reading(average: int, zeros: int)

  ghost predicate Steady(read: (nat, nat, int) -> Reading) {
    && (forall n, m, ch, x :: read(n, ch, x) == read(m, ch, x))
    && (forall n, ch, x, y :: x <= y ==> read(n, ch, x).average <= read(n, ch, y).average)
  }

  function Response(read: (nat, nat, int) -> Reading, ch: nat): int -> int {
    x => read(0, ch, x).average
  }

  class Calibrator {
    const low: array<int>
    const now: array<int>
    const high: array<int>
    const tweakOffset: array<bool>
    const regs: array<int>    // a_bRegs
    const incDark: bool       // _WAF_INC_DARKTGT

    ghost predicate Valid()
      reads this
    {
      && low.Length == now.Length == high.Length == tweakOffset.Length == 3 && regs.Length == 0x80
      && low != now && low != high && now != high && regs != low && regs != now && regs != high
    }

    constructor (incDark: bool)
      ensures Valid() && fresh(low) && fresh(now) && fresh(high) && fresh(tweakOffset) && fresh(regs)
      ensures this.incDark == incDark
    {
      this.incDark := incDark;
      low := new int[3];
      now := new int[3];
      high := new int[3];
      tweakOffset := new bool[3];
      regs := new int[0x80];
    }

    function Chan(i: nat): Offset
      reads this, low, now, high, tweakOffset
      requires Valid() && i < 3
    {
      Offset(low[i], now[i], high[i], tweakOffset[i])
    }

    /** One channel: 1 asks for another scan. The register follows every change. */
    method GetNewOffset(ch: nat, reading: Reading) returns (adj: int)
      requires Valid() && ch < 3
      modifies low, now, high, tweakOffset, regs
      ensures Chan(ch) == Adjusted(old(Chan(ch)), reading.average, reading.zeros, incDark)
      ensures adj == if Again(old(Chan(ch)), reading.average, reading.zeros, incDark) then 1 else 0
      ensures forall k :: 0 <= k < 3 && k != ch ==> Chan(k) == old(Chan(k))
      ensures regs[REG_OFFSET + ch] ==
        if Judge(old(Chan(ch)), reading.average, reading.zeros, incDark) == Accept
        then old(regs[REG_OFFSET + ch]) else Encode(now[ch])
      ensures forall k :: 0 <= k < 0x80 && k != REG_OFFSET + ch ==> regs[k] == old(regs[k])
      ensures Moved(old(Chan(ch)), Chan(ch), reading.average, reading.zeros, incDark)
      ensures regs[0x38 + ch] ==
        if (old(tweakOffset[ch]) && (reading.average <= 16 || reading.average >= 2048)) || (incDark && reading.zeros > 1)
        then now[ch] % 64 else old(regs[0x38 + ch])
    {
      AdjustedMoves(Chan(ch), reading.average, reading.zeros, incDark);
      if tweakOffset[ch] {
        if reading.average <= DARK {
          adj := Raise(ch);
          return;
        } else if reading.average >= BRIGHT {
          adj := Lower(ch);
          return;
        }
      }
      if !incDark {
        return 0;
      }
      if reading.zeros > ZERO_THRESHOLD {
        adj := Lower(ch);
        tweakOffset[ch] := false;
        return;
      }
      return 0;
    }

    method Raise(ch: nat) returns (adj: int)
      requires Valid() && ch < 3
      modifies low, now, regs
      ensures Chan(ch) == Raised(old(Chan(ch))) && adj == if Wide(Chan(ch)) then 1 else 0
      ensures forall k :: 0 <= k < 3 && k != ch ==> Chan(k) == old(Chan(k))
      ensures regs[0x38 + ch] == now[ch] % 64
      ensures forall k :: 0 <= k < 0x80 && k != 0x38 + ch ==> regs[k] == old(regs[k])
    {
      low[ch] := now[ch];
      now[ch] := Half(now[ch] + high[ch]);
      regs[REG_OFFSET + ch] := now[ch] % 64;
      adj := if low[ch] + 1 >= high[ch] then 0 else 1;
    }

    method Lower(ch: nat) returns (adj: int)
      requires Valid() && ch < 3
      modifies now, high, regs
      ensures Chan(ch) == Lowered(old(Chan(ch))) && adj == if Wide(Chan(ch)) then 1 else 0
      ensures forall k :: 0 <= k < 3 && k != ch ==> Chan(k) == old(Chan(k))
      ensures regs[0x38 + ch] == now[ch] % 64
      ensures forall k :: 0 <= k < 0x80 && k != 0x38 + ch ==> regs[k] == old(regs[k])
    {
      high[ch] := now[ch];
      now[ch] := Half(now[ch] + low[ch]);
      regs[REG_OFFSET + ch] := now[ch] % 64;
      adj := if low[ch] + 1 >= high[ch] then 0 else 1;
    }

    ghost predicate AllCentred()
      reads this, low, now, high, tweakOffset
      requires Valid()
    {
      Centred(Chan(0)) && Centred(Chan(1)) && Centred(Chan(2))
    }

    ghost predicate AllFound(read: (nat, nat, int) -> Reading)
      reads this, low, now, high, tweakOffset
      requires Valid()
    {
      && Found(Chan(0), Response(read, 0)) && Found(Chan(1), Response(read, 1)) && Found(Chan(2), Response(read, 2))
    }

    ghost predicate AllBracketed(read: (nat, nat, int) -> Reading)
      reads this, low, now, high, tweakOffset
      requires Valid()
    {
      && Bracketed(Chan(0), Response(read, 0)) && Bracketed(Chan(1), Response(read, 1))
      && Bracketed(Chan(2), Response(read, 2))
      && tweakOffset[0] && tweakOffset[1] && tweakOffset[2]
    }

    ghost predicate AllSettled(read: (nat, nat, int) -> Reading)
      reads this, low, now, high, tweakOffset
      requires Valid()
    {
      && Settled(Chan(0), Response(read, 0)) && Settled(Chan(1), Response(read, 1))
      && Settled(Chan(2), Response(read, 2))
    }

    function TotalBudget(): nat
      reads this, low, now, high, tweakOffset
      requires Valid() && AllCentred()
    {
      Budget(Chan(0)) + Budget(Chan(1)) + Budget(Chan(2))
    }

    method Start()
      requires Valid()
      modifies low, now, high, tweakOffset
      ensures forall i :: 0 <= i < 3 ==> Chan(i) == Offset(-32, 0, 31, true)
    {
      low[0], low[1], low[2] := -32, -32, -32;
      now[0], now[1], now[2] := 0, 0, 0;
      high[0], high[1], high[2] := 31, 31, 31;
      tweakOffset[0], tweakOffset[1], tweakOffset[2] := true, true, true;
    }

    /** One scan in colour. */
    method AdjustAll(r: Reading, g: Reading, b: Reading) returns (adj: int)
      requires Valid() && AllCentred()
      modifies low, now, high, tweakOffset, regs
      ensures Chan(0) == Adjusted(old(Chan(0)), r.average, r.zeros, incDark)
      ensures Chan(1) == Adjusted(old(Chan(1)), g.average, g.zeros, incDark)
      ensures Chan(2) == Adjusted(old(Chan(2)), b.average, b.zeros, incDark)
      ensures adj == 0 <==>
        && !Again(old(Chan(0)), r.average, r.zeros, incDark) && !Again(old(Chan(1)), g.average, g.zeros, incDark)
        && !Again(old(Chan(2)), b.average, b.zeros, incDark)
      ensures AllCentred() && TotalBudget() + (if adj != 0 then 1 else 0) <= old(TotalBudget())
    {
      BudgetFalls(Chan(0), r.average, r.zeros, incDark);
      BudgetFalls(Chan(1), g.average, g.zeros, incDark);
      BudgetFalls(Chan(2), b.average, b.zeros, incDark);
      var adjRed := GetNewOffset(0, r);
      var adjGreen := GetNewOffset(1, g);
      var adjBlue := GetNewOffset(2, b);
      adj := if adjRed != 0 || adjGreen != 0 || adjBlue != 0 then 1 else 0;
    }

    /** Colour scans. For any readings the loop ends within 16 scans and the three registers
        decode to the offsets found; for a steady sensor the search ends settled. */
    method AdjustOffsetColor(read: (nat, nat, int) -> Reading) returns (scans: nat)
      requires Valid()
      modifies low, now, high, tweakOffset, regs
      ensures scans <= 16 && AllCentred()
      ensures Decode(regs[0x38]) == now[0] && Decode(regs[0x39]) == now[1] && Decode(regs[0x3a]) == now[2]
      ensures forall i :: 0 <= i < 3 ==> regs[0x38 + i] == if now[i] < 0 then now[i] + 64 else now[i]
      ensures Steady(read) && !incDark ==> AllBracketed(read) && AllSettled(read) && AllFound(read)
    {
      Start();
      scans := 0;
      ghost var budget := 15;
      assert Halvings(63) == 5;
      var adj := 1;
      while adj != 0
        invariant AllCentred()
        invariant scans + budget == 15 + (if adj == 0 then 1 else 0)
        invariant 0 <= TotalBudget() <= budget
        invariant Steady(read) && !incDark ==> AllBracketed(read)
        invariant Steady(read) && !incDark && adj == 0 ==> AllSettled(read)
        decreases budget, adj != 0
      {
        var r, g, b := read(scans, 0, now[0]), read(scans, 1, now[1]), read(scans, 2, now[2]);
        if Steady(read) && !incDark {
          assert r == read(0, 0, now[0]) && g == read(0, 1, now[1]) && b == read(0, 2, now[2]);
          BracketKept(Chan(0), Response(read, 0), r.zeros);
          BracketKept(Chan(1), Response(read, 1), g.zeros);
          BracketKept(Chan(2), Response(read, 2), b.zeros);
        }
        adj := AdjustAll(r, g, b);
        scans := scans + 1;
        if adj != 0 {
          budget := budget - 1;
        }
      }
      if Steady(read) && !incDark {
        FoundExactly(Chan(0), Response(read, 0));
        FoundExactly(Chan(1), Response(read, 1));
        FoundExactly(Chan(2), Response(read, 2));
      }
      RegisterRoundTrip(now[0]);
      RegisterRoundTrip(now[1]);
      RegisterRoundTrip(now[2]);
      regs[0x38], regs[0x39], regs[0x3a] := now[0] % 64, now[1] % 64, now[2] % 64;
    }

    /** Gray scans: one channel, at most six scans, all three registers alike. */
    method AdjustOffsetGray(read: (nat, nat, int) -> Reading) returns (scans: nat)
      requires Valid()
      modifies low, now, high, tweakOffset, regs
      ensures scans <= 6 && Centred(Chan(0))
      ensures Decode(regs[0x38]) == Decode(regs[0x39]) == Decode(regs[0x3a]) == now[0]
      ensures regs[0x38] == regs[0x39] == regs[0x3a] == if now[0] < 0 then now[0] + 64 else now[0]
      ensures Steady(read) && !incDark ==> Bracketed(Chan(0), Response(read, 0)) && Settled(Chan(0), Response(read, 0))
      ensures Steady(read) && !incDark ==> Found(Chan(0), Response(read, 0))
    {
      Start();
      scans := 0;
      ghost var budget := 5;
      assert Halvings(63) == 5;
      var adj := 1;
      while adj != 0
        invariant Centred(Chan(0))
        invariant scans + budget == 5 + (if adj == 0 then 1 else 0)
        invariant 0 <= Budget(Chan(0)) <= budget
        invariant Steady(read) && !incDark ==> Bracketed(Chan(0), Response(read, 0)) && tweakOffset[0]
        invariant Steady(read) && !incDark && adj == 0 ==> Settled(Chan(0), Response(read, 0))
        decreases budget, adj != 0
      {
        var w := read(scans, 0, now[0]);
        BudgetFalls(Chan(0), w.average, w.zeros, incDark);
        if Steady(read) && !incDark {
          assert w == read(0, 0, now[0]);
          BracketKept(Chan(0), Response(read, 0), w.zeros);
        }
        adj := GetNewOffset(0, w);
        regs[0x39] := regs[0x38];
        regs[0x3a] := regs[0x39];
        scans := scans + 1;
        if adj != 0 {
          budget := budget - 1;
        }
      }
      if Steady(read) && !incDark { FoundExactly(Chan(0), Response(read, 0)); }
      RegisterRoundTrip(now[0]);
      regs[0x38], regs[0x39], regs[0x3a] := now[0] % 64, now[0] % 64, now[0] % 64;
    }
  }
}
