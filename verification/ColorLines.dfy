// Colour-line registration on ASIC 98003. The three sensor rows see a picture line at
// different times; two readers put matching lines together: one discards early lines from
// the FIFOs of the ASIC, the other keeps lines in two rings of driver memory.

module ColorLines {
  import opened Arith
  import opened RingSlots

  datatype Channel = Red | Green | Blue
  /** Line `index` that the ASIC delivers for a channel, whatever its pixels are; or what is read from
      memory that does not belong to the driver. */
  datatype Line = Line(channel: Channel, index: nat) | Foreign
  datatype Triple = Triple(red: Line, green: Line, blue: Line)

  /** How many lines green and blue lag behind red (wGreenDiscard, wBlueDiscard). */
  datatype Lag = Lag(green: nat, blue: nat)

  /** What the application is promised as its k-th colour line. */
  function Aligned(k: nat, lag: Lag, bgr: bool): Triple {
    Ordered(Line(Red, k), Line(Green, k + lag.green), Line(Blue, k + lag.blue), bgr)
  }

  function Ordered(red: Line, green: Line, blue: Line, bgr: bool): Triple {
    if bgr then Triple(blue, green, red) else Triple(red, green, blue)
  }

  /** Colour by colour: without BGR order red is red and blue is blue, with it they are exchanged. */
  predicate Registered(t: Triple, k: nat, lag: Lag, bgr: bool) {
    && t.green == Line(Green, k + lag.green)
    && (!bgr ==> t.red == Line(Red, k) && t.blue == Line(Blue, k + lag.blue))
    && (bgr ==> t.red == Line(Blue, k + lag.blue) && t.blue == Line(Red, k))
  }

  lemma AlignedExactly(t: Triple, k: nat, lag: Lag, bgr: bool)
    ensures t == Aligned(k, lag, bgr) <==> Registered(t, k, lag, bgr)
  {
  }

  function AlignedStream(count: nat, lag: Lag, bgr: bool): (r: seq<Triple>)
    ensures |r| == count
  {
    seq(count, k requires 0 <= k < count => Aligned(k, lag, bgr))
  }

  function Minus(a: nat, b: nat): nat {
    if a < b then 0 else a - b
  }

  // ----- the reader that discards lines in the ASIC -----

  class FifoReader {
    const lag: Lag
    const bgr: bool
    var wGreenDiscard: nat
    var wBlueDiscard: nat
    // lines taken out of each FIFO
    var red: nat
    var green: nat
    var blue: nat
    var data: Triple
    ghost var calls: nat

    ghost predicate Valid()
      reads this
    {
      && lag.green <= lag.blue
      && wBlueDiscard == Minus(lag.blue, calls) && wGreenDiscard == Minus(lag.green, calls)
      && blue == calls && red == Minus(calls, lag.blue)
      && green == if calls <= lag.green then calls else lag.green + Minus(calls, lag.blue)
    }

    constructor (lag: Lag, bgr: bool)
      requires lag.green <= lag.blue
      ensures Valid() && calls == 0 && this.lag == lag && this.bgr == bgr
    {
      this.lag, this.bgr := lag, bgr;
      wGreenDiscard, wBlueDiscard := lag.green, lag.blue;
      red, green, blue, calls := 0, 0, 0, 0;
      data := Aligned(0, lag, bgr);
    }

    method ReadOutScanner() returns (ok: bool)
      requires Valid()
      modifies this
      ensures Valid() && calls == old(calls) + 1
      ensures ok == (old(calls) >= lag.blue)
      ensures ok ==> data == Aligned(old(calls) - lag.blue, lag, bgr)
      ensures ok ==> Registered(data, old(calls) - lag.blue, lag, bgr)
    {
      if wBlueDiscard > 0 {
        wBlueDiscard := wBlueDiscard - 1;
        blue := blue + 1;
        if wGreenDiscard > 0 {
          wGreenDiscard := wGreenDiscard - 1;
          green := green + 1;
        }
        ok := false;
      } else {
        data := Ordered(Line(Red, red), Line(Green, green), Line(Blue, blue), bgr);
        red, green, blue := red + 1, green + 1, blue + 1;
        ok := true;
      }
      calls := calls + 1;
    }

    /** The lines handed out by so many calls on a new reader. */
    method ReadMany(n: nat) returns (lines: seq<Triple>)
      requires Valid() && calls == 0
      modifies this
      ensures lines == AlignedStream(Minus(n, lag.blue), lag, bgr)
      ensures |lines| == (if n < lag.blue then 0 else n - lag.blue)
      ensures forall k :: 0 <= k < |lines| ==> Registered(lines[k], k, lag, bgr)
    {
      lines := [];
      for i := 0 to n
        invariant Valid() && calls == i && lines == AlignedStream(Minus(i, lag.blue), lag, bgr)
      {
        var ok := ReadOutScanner();
        if ok {
          lines := lines + [data];
        }
      }
    }
  }

  // ----- the reader that keeps lines in driver memory -----

  /** Ring boundaries and the blue slot, in units of one line of one channel. */
  datatype Layout = Layout(redBegin: nat, redSize: nat, greenBegin: nat, greenSize: nat, blue: nat)
  {
    /** The rings are disjoint and long enough for the lines they have to keep. */
    predicate Holds(lag: Lag) {
      && lag.green <= lag.blue
      && redSize > lag.blue && greenSize > lag.blue - lag.green
      && (redBegin + redSize <= greenBegin || greenBegin + greenSize <= redBegin)
    }

    predicate BlueApart() {
      && !(redBegin <= blue < redBegin + redSize)
      && !(greenBegin <= blue < greenBegin + greenSize)
    }

    function RedSlot(i: nat): nat
      requires redSize > 0
    {
      Slot(redBegin, redSize, i)
    }

    function GreenSlot(i: nat): nat
      requires greenSize > 0
    {
      Slot(greenBegin, greenSize, i)
    }

    /** What the blue slot holds after call n: within a call blue is read first, then green,
        then red, so a ring slot at the same address wins. */
    function Top(n: nat, lag: Lag): Line
      requires Holds(lag)
    {
      if RedSlot(n) == blue then Line(Red, n)
      else if GreenSlot(Minus(n, lag.green)) == blue then Line(Green, n)
      else Line(Blue, n)
    }

    /** The addresses that line k must not share with the blue slot. */
    predicate Collides(k: nat, lag: Lag)
      requires Holds(lag)
    {
      || RedSlot(k) == blue || RedSlot(k + lag.blue) == blue
      || GreenSlot(k) == blue || GreenSlot(k + lag.blue - lag.green) == blue
    }

    /** The slots of line k lie in a memory of so many slots. */
    predicate Inside(k: nat, slots: nat)
      requires redSize > 0 && greenSize > 0
    {
      RedSlot(k) < slots && GreenSlot(k) < slots && blue < slots
    }

    /** Line k is delivered as promised. */
    predicate Right(k: nat, lag: Lag, slots: nat)
      requires Holds(lag)
    {
      !Collides(k, lag) && Inside(k, slots)
    }
  }

  /** What an address holds. Nothing the driver may rely on lies behind its memory, and what it
      writes there is lost. */
  function At(mem: seq<Line>, slot: nat): Line {
    if slot < |mem| then mem[slot] else Foreign
  }

  function Put(mem: seq<Line>, slot: nat, line: Line): (r: seq<Line>)
    ensures |r| == |mem|
  {
    if slot < |mem| then mem[slot := line] else mem
  }

  /** The driver's ring variables and what the rings hold. */
  datatype Rings = Rings(mem: seq<Line>, putRed: nat, putGreen: nat, getRed: nat, getGreen: nat,
                         wRedKeep: nat, wGreenKeep: nat, calls: nat)

  ghost predicate Room(size: nat, layout: Layout) {
    && layout.redBegin + layout.redSize <= size && layout.greenBegin + layout.greenSize <= size
    && layout.blue < size
  }

  /** The pointers after so many calls, and the lines in the slots. */
  ghost predicate Kept(r: Rings, layout: Layout, lag: Lag) {
    && layout.Holds(lag)
    && r.putRed == layout.RedSlot(r.calls) && r.putGreen == layout.GreenSlot(Minus(r.calls, lag.green))
    && r.getRed == layout.RedSlot(Minus(r.calls, lag.blue)) && r.getGreen == layout.GreenSlot(Minus(r.calls, lag.blue))
    && r.wRedKeep == Minus(lag.blue, r.calls) && r.wGreenKeep == Minus(lag.green, r.calls)
    && Contents(r.mem, r.calls, layout, lag)
  }

  /** The three lines of a call, in the order they are read. */
  function AllPut(mem: seq<Line>, blue: nat, green: nat, red: nat, n: nat): (r: seq<Line>)
    ensures |r| == |mem|
  {
    Put(Put(Put(mem, blue, Line(Blue, n)), green, Line(Green, n)), red, Line(Red, n))
  }

  /** One call: three reads, two put pointers, and two get pointers when a line is due. */
  function Step(r: Rings, layout: Layout): Rings
  {
    var mem := AllPut(r.mem, layout.blue, r.putGreen, r.putRed, r.calls);
    var due := r.wRedKeep == 0;
    Rings(mem,
          Bump(r.putRed, layout.redBegin, layout.redSize),
          if r.wGreenKeep > 0 then r.putGreen else Bump(r.putGreen, layout.greenBegin, layout.greenSize),
          if due then Bump(r.getRed, layout.redBegin, layout.redSize) else r.getRed,
          if due then Bump(r.getGreen, layout.greenBegin, layout.greenSize) else r.getGreen,
          Minus(r.wRedKeep, 1), Minus(r.wGreenKeep, 1), r.calls + 1)
  }

  /** A pointer that waits for `wait` calls and then moves once per call. */
  lemma PointerStep(begin: nat, size: nat, calls: nat, wait: nat)
    requires size > 0
    ensures Slot(begin, size, Minus(calls + 1, wait)) ==
      if calls < wait then Slot(begin, size, Minus(calls, wait)) else Bump(Slot(begin, size, Minus(calls, wait)), begin, size)
  {
    if calls >= wait {
      Next(begin, size, calls - wait);
    }
  }

  lemma StepKeeps(r: Rings, layout: Layout, lag: Lag)
    requires Kept(r, layout, lag)
    ensures Kept(Step(r, layout), layout, lag)
  {
    PointerStep(layout.redBegin, layout.redSize, r.calls, 0);
    PointerStep(layout.redBegin, layout.redSize, r.calls, lag.blue);
    PointerStep(layout.greenBegin, layout.greenSize, r.calls, lag.green);
    PointerStep(layout.greenBegin, layout.greenSize, r.calls, lag.blue);
    ContentsStep(r.mem, Step(r, layout).mem, r.calls, layout, lag);
  }

  class RingReader {
    const bgr: bool
    const layout: Layout
    const mem: array<Line>
    var putRed: nat
    var putGreen: nat
    var getRed: nat
    var getGreen: nat
    var wRedKeep: nat
    var wGreenKeep: nat
    var calls: nat       // lines the ASIC has delivered on each channel
    var data: Triple

    ghost function Now(): Rings
      reads this, mem
    {
      Rings(mem[..], putRed, putGreen, getRed, getGreen, wRedKeep, wGreenKeep, calls)
    }

    ghost predicate Valid(lag: Lag)
      reads this, mem
    {
      Kept(Now(), layout, lag)
    }

    constructor (lag: Lag, bgr: bool, layout: Layout, slots: nat)
      requires layout.Holds(lag)
      ensures Valid(lag) && calls == 0 && fresh(mem) && mem.Length == slots
      ensures this.bgr == bgr && this.layout == layout
    {
      this.bgr, this.layout := bgr, layout;
      mem := new Line[slots];
      putRed, getRed, putGreen, getGreen := layout.redBegin, layout.redBegin, layout.greenBegin, layout.greenBegin;
      wRedKeep, wGreenKeep, calls := lag.blue, lag.green, 0;
      data := Aligned(0, lag, bgr);
    }

    method PutLine(slot: nat, line: Line)
      modifies mem
      ensures mem[..] == Put(old(mem[..]), slot, line)
    {
      if slot < mem.Length {
        mem[slot] := line;
        assert mem[..] == old(mem[..])[slot := line];
      }
    }

    /** The three reads of a call and the put pointers; green waits out its keep count. */
    method PutLines()
      modifies this`putRed, this`putGreen, this`wGreenKeep, mem
      ensures mem[..] == AllPut(old(mem[..]), layout.blue, old(putGreen), old(putRed), calls)
      ensures putRed == Bump(old(putRed), layout.redBegin, layout.redSize)
      ensures putGreen == if old(wGreenKeep) > 0 then old(putGreen)
                          else Bump(old(putGreen), layout.greenBegin, layout.greenSize)
      ensures wGreenKeep == Minus(old(wGreenKeep), 1)
    {
      PutLine(layout.blue, Line(Blue, calls));
      PutLine(putGreen, Line(Green, calls));
      if wGreenKeep > 0 {
        wGreenKeep := wGreenKeep - 1;
      } else {
        putGreen := putGreen + 1;
        if putGreen >= layout.greenBegin + layout.greenSize {
          putGreen := layout.greenBegin;
        }
      }
      PutLine(putRed, Line(Red, calls));
      putRed := putRed + 1;
      if putRed >= layout.redBegin + layout.redSize {
        putRed := layout.redBegin;
      }
    }

    /** The data pointers of a delivery, and the get pointers of the next one. */
    method GetLines()
      modifies this`getRed, this`getGreen, this`data
      ensures data == Ordered(At(mem[..], old(getRed)), At(mem[..], old(getGreen)), At(mem[..], layout.blue), bgr)
      ensures getRed == Bump(old(getRed), layout.redBegin, layout.redSize)
      ensures getGreen == Bump(old(getGreen), layout.greenBegin, layout.greenSize)
    {
      data := Ordered(At(mem[..], getRed), At(mem[..], getGreen), At(mem[..], layout.blue), bgr);
      getRed, getGreen := getRed + 1, getGreen + 1;
      if getRed >= layout.redBegin + layout.redSize {
        getRed := layout.redBegin;
      }
      if getGreen >= layout.greenBegin + layout.greenSize {
        getGreen := layout.greenBegin;
      }
    }

    /** Hands out a line once enough red lines are kept; it is the promised line exactly
        when none of its addresses is the blue slot's and all of them lie in the driver's memory. */
    method ReadToDriver(ghost lag: Lag) returns (ok: bool)
      requires Valid(lag)
      modifies this, mem
      ensures Valid(lag) && calls == old(calls) + 1
      ensures ok == (old(calls) >= lag.blue)
      ensures ok ==> var k := old(calls) - lag.blue;
        data == Aligned(k, lag, bgr) <==> layout.Right(k, lag, mem.Length)
      ensures ok ==> (Registered(data, old(calls) - lag.blue, lag, bgr)
                      <==> layout.Right(old(calls) - lag.blue, lag, mem.Length))
    {
      ghost var before := Now();
      StepKeeps(before, layout, lag);
      ok := wRedKeep == 0;
      if ok { StepDelivers(before, layout, lag, bgr); }
      PutLines();
      if ok {
        GetLines();
      } else {
        wRedKeep := wRedKeep - 1;
      }
      calls := calls + 1;
      assert Now() == Step(before, layout);
    }

    /** The lines handed out by so many calls on a new reader, blue apart from the rings and memory for
        all of them. */
    method ReadMany(n: nat, ghost lag: Lag) returns (lines: seq<Triple>)
      requires Valid(lag) && calls == 0 && layout.BlueApart() && Room(mem.Length, layout)
      modifies this, mem
      ensures lines == AlignedStream(Minus(n, lag.blue), lag, bgr)
      ensures |lines| == (if n < lag.blue then 0 else n - lag.blue)
      ensures forall k :: 0 <= k < |lines| ==> Registered(lines[k], k, lag, bgr)
    {
      lines := [];
      for i := 0 to n
        invariant Valid(lag) && calls == i
        invariant lines == AlignedStream(Minus(i, lag.blue), lag, bgr)
      {
        var ok := ReadToDriver(lag);
        if ok {
          NoCollision(i - lag.blue, layout, lag);
          lines := lines + [data];
        }
      }
    }
  }

  lemma NoCollision(k: nat, layout: Layout, lag: Lag)
    requires layout.Holds(lag) && layout.BlueApart()
    ensures !layout.Collides(k, lag)
  {
  }

  /** What lies in the slots of line k. */
  function Found(mem: seq<Line>, layout: Layout, k: nat, bgr: bool): Triple
    requires layout.redSize > 0 && layout.greenSize > 0
  {
    Ordered(At(mem, layout.RedSlot(k)), At(mem, layout.GreenSlot(k)), At(mem, layout.blue), bgr)
  }

  /** Marks j as a picture line, so that facts about all lines are only used where one is
      named. */
  predicate Picture(j: int) {
    true
  }

  /** A slot holds a line, if it is one of the driver's. */
  predicate Has(mem: seq<Line>, slot: nat, line: Line) {
    At(mem, slot) == if slot < |mem| then line else Foreign
  }

  /** Every line that the rings still have to hold is in its slot, except that the slot
      shared with blue holds what was written there last. */
  ghost predicate Contents(mem: seq<Line>, calls: nat, layout: Layout, lag: Lag)
    requires layout.Holds(lag)
  {
    && (calls > 0 ==> Has(mem, layout.blue, layout.Top(calls - 1, lag)))
    && (forall j {:trigger Picture(j)} :: Picture(j) && 0 <= j < calls < j + layout.redSize + 1 ==>
          Has(mem, layout.RedSlot(j),
              if layout.RedSlot(j) == layout.blue then layout.Top(calls - 1, lag) else Line(Red, j)))
    && (forall j {:trigger Picture(j)} :: Picture(j) && 0 <= j && j + lag.green < calls < j + lag.green + layout.greenSize + 1 ==>
          Has(mem, layout.GreenSlot(j),
              if layout.GreenSlot(j) == layout.blue then layout.Top(calls - 1, lag) else Line(Green, j + lag.green)))
  }

  /** What one call writes keeps the rings as described. */
  lemma ContentsStep(before: seq<Line>, after: seq<Line>, n: nat, layout: Layout, lag: Lag)
    requires layout.Holds(lag)
    requires Contents(before, n, layout, lag)
    requires after == AllPut(before, layout.blue, layout.GreenSlot(Minus(n, lag.green)), layout.RedSlot(n), n)
    ensures Contents(after, n + 1, layout, lag)
  {
    forall j {:trigger Picture(j)} | Picture(j) && 0 <= j < n + 1 < j + layout.redSize + 1
      ensures Has(after, layout.RedSlot(j),
                  if layout.RedSlot(j) == layout.blue then layout.Top(n, lag) else Line(Red, j))
    {
      if j < n {
        Distinct(layout.redBegin, layout.redSize, j, n);
      }
    }
    forall j {:trigger Picture(j)} | Picture(j) && 0 <= j && j + lag.green < n + 1 < j + lag.green + layout.greenSize + 1
      ensures Has(after, layout.GreenSlot(j),
                  if layout.GreenSlot(j) == layout.blue then layout.Top(n, lag) else Line(Green, j + lag.green))
    {
      if j + lag.green < n {
        Distinct(layout.greenBegin, layout.greenSize, j, n - lag.green);
      }
    }
  }

  /** The three lines found at delivery are the promised ones exactly without a collision and inside the
      memory. */
  lemma Delivered(mem: seq<Line>, k: nat, layout: Layout, lag: Lag, bgr: bool)
    requires layout.Holds(lag) && Contents(mem, k + lag.blue + 1, layout, lag)
    ensures Found(mem, layout, k, bgr) == Aligned(k, lag, bgr) <==> layout.Right(k, lag, |mem|)
  {
    assert Picture(k);
    if layout.Inside(k, |mem|) {
      assert mem[layout.RedSlot(k)] == Line(Red, k) <==> layout.RedSlot(k) != layout.blue || lag.blue == 0;
      assert layout.Collides(k, lag) <==>
        !(mem[layout.RedSlot(k)] == Line(Red, k) && mem[layout.GreenSlot(k)] == Line(Green, k + lag.green)
          && mem[layout.blue] == Line(Blue, k + lag.blue));
    }
  }

  /** What a call reads back from the get pointers. */
  lemma StepDelivers(r: Rings, layout: Layout, lag: Lag, bgr: bool)
    requires Kept(r, layout, lag) && Kept(Step(r, layout), layout, lag) && r.wRedKeep == 0
    ensures var k, mem := r.calls - lag.blue, Step(r, layout).mem;
      (Ordered(At(mem, r.getRed), At(mem, r.getGreen), At(mem, layout.blue), bgr) == Aligned(k, lag, bgr))
        <==> layout.Right(k, lag, |mem|)
  {
    Delivered(Step(r, layout).mem, r.calls - lag.blue, layout, lag, bgr);
  }

  // ----- the layout the driver sets up -----

  /** The rings are sized in whole colour lines of three planes, green follows red, and the
      blue slot lies two colour lines into the same buffer. */
  function SetupLayout(lag: Lag): Layout {
    Layout(0, 3 * (lag.blue + 1), 3 * (lag.blue + 1), 3 * (lag.green + 1), 6)
  }

  /** About the addresses, in memory large enough for the rings: with the usual lags (blue twice green)
      the blue slot lies inside the red ring, and line k is right exactly when neither it nor the line
      read with its blue part falls on slot 6. */
  lemma SetupIsRightExactly(k: nat, lag: Lag)
    requires lag.green >= 1 && lag.blue == 2 * lag.green
    ensures SetupLayout(lag).Holds(lag) && !SetupLayout(lag).BlueApart()
    ensures !SetupLayout(lag).Collides(k, lag) <==>
      k % (6 * lag.green + 3) != 6 && (k + 2 * lag.green) % (6 * lag.green + 3) != 6
  {
  }

  /** Without any lag no addresses collide. */
  lemma SetupWithoutLag(k: nat)
    ensures !SetupLayout(Lag(0, 0)).Collides(k, Lag(0, 0))
  {
    NoCollision(k, SetupLayout(Lag(0, 0)), Lag(0, 0));
  }

  /** About the addresses only, since lines of preview width never make the driver choose this reader:
      with the preview lags (blue one line late) the blue slot would be the first green slot, and only
      every third line would be right. */
  lemma SetupForPreview(k: nat)
    ensures !SetupLayout(Lag(0, 1)).Collides(k, Lag(0, 1)) <==> k % 3 == 1
  {
    var layout := SetupLayout(Lag(0, 1));
    assert layout == Layout(0, 6, 6, 3, 6);
    assert layout.RedSlot(k) == k % 6 && layout.RedSlot(k + 1) == (k + 1) % 6;
    assert layout.GreenSlot(k) == 6 + k % 3;
    assert layout.GreenSlot(k + 1) == 6 + (k + 1) % 3;
  }

  // ----- when the driver chooses the ring reader -----

  const RED_FIFO: int := 196608
  const GREEN_FIFO: int := 147456
  /** The driver memory of an ASIC 98003 device. */
  const DRIVER_MEMORY: int := 132000

  datatype Choice = DiscardInAsic | KeepInRings | NoResource

  /** The ring reader is taken when a FIFO keeps fewer than 16 lines in reserve, if the lines to be kept
      fit the driver memory. A line is counted there as one plane. */
  function Chosen(plane: nat, lag: Lag): Choice
    requires plane > 0
  {
    if RED_FIFO / plane - lag.blue < 16 || GREEN_FIFO / plane - lag.green < 16 then
      if (lag.blue + lag.green + 2) * plane > DRIVER_MEMORY then NoResource else KeepInRings
    else DiscardInAsic
  }

  /** The choice for every plane and lag. */
  lemma ChosenExactly(plane: nat, lag: Lag)
    requires plane > 0
    ensures Chosen(plane, lag) == DiscardInAsic <==>
      (16 + lag.blue) * plane <= 196608 && (16 + lag.green) * plane <= 147456
    ensures Chosen(plane, lag) == KeepInRings <==>
      && ((16 + lag.blue) * plane > 196608 || (16 + lag.green) * plane > 147456)
      && (lag.blue + lag.green + 2) * plane <= 132000
  {
    InReserve(RED_FIFO, plane, lag.blue);
    InReserve(GREEN_FIFO, plane, lag.green);
  }

  lemma InReserve(fifo: nat, plane: nat, kept: nat)
    requires plane > 0
    ensures fifo / plane - kept < 16 <==> (16 + kept) * plane > fifo
  {
    assert plane * (16 + kept) == (16 + kept) * plane;
    if (16 + kept) * plane > fifo {
      QuotientBelow(fifo, plane, 16 + kept);
    } else {
      QuotientAtLeast(fifo, plane, 16 + kept);
    }
  }

  /** At 600 dpi (green four lines late) the ring reader is chosen for exactly the planes of these sizes. */
  lemma ChosenAt600(plane: nat)
    requires plane > 0
    ensures Chosen(plane, Lag(4, 8)) == KeepInRings <==> 7373 <= plane <= 9428
  {
    ChosenExactly(plane, Lag(4, 8));
  }

  // ----- the rings are laid out in lines of three planes, and the memory is not asked for them -----

  /** Slots of the driver memory. */
  function OwnSlots(plane: nat): nat
    requires plane > 0
  {
    DRIVER_MEMORY / plane
  }

  lemma SlotsCounted(plane: nat, n: nat)
    requires plane > 0
    ensures n <= OwnSlots(plane) <==> n * plane <= DRIVER_MEMORY
  {
    assert plane * n == n * plane;
    if n * plane <= DRIVER_MEMORY {
      QuotientAtLeast(DRIVER_MEMORY, plane, n);
    } else {
      QuotientBelow(DRIVER_MEMORY, plane, n);
    }
  }

  /** When the rings fit the driver memory: three times the room that is asked for is needed. */
  lemma RingsFitExactly(plane: nat, lag: Lag)
    requires plane > 0 && lag.green <= lag.blue && lag.blue > 0
    ensures Room(OwnSlots(plane), SetupLayout(lag)) <==> 3 * (lag.blue + lag.green + 2) * plane <= DRIVER_MEMORY
  {
    SlotsCounted(plane, 3 * (lag.blue + lag.green + 2));
  }

  /** Where the ring reader is chosen, its rings fit for a green lag of one line only. */
  lemma ChosenRingsFitExactly(plane: nat, lag: Lag)
    requires plane > 0 && lag.green >= 1 && lag.blue == 2 * lag.green && Chosen(plane, lag) == KeepInRings
    ensures Room(OwnSlots(plane), SetupLayout(lag)) <==> lag.green == 1 && plane <= 8800
  {
    RingsFitExactly(plane, lag);
    var needed := 3 * (lag.blue + lag.green + 2);
    if lag.green >= 2 {
      ChosenExactly(plane, lag);
      ProductMonotone(16 + lag.green, needed, plane);
      ProductMonotone(16 + lag.blue, needed, plane);
    }
  }

  /** Where the ring reader is chosen at 600 dpi, all of the green ring lies behind the driver memory, so
      that no line is right. */
  lemma NothingIsRightAt600(plane: nat, k: nat)
    requires plane > 0 && Chosen(plane, Lag(4, 8)) == KeepInRings
    ensures var layout := SetupLayout(Lag(4, 8));
      layout.GreenSlot(k) * plane > DRIVER_MEMORY && !layout.Right(k, Lag(4, 8), OwnSlots(plane))
  {
    ChosenAt600(plane);
    var slot := SetupLayout(Lag(4, 8)).GreenSlot(k);
    ProductMonotone(27, slot, plane);
    SlotsCounted(plane, slot);
  }

  /** A scan of 7 inches in 48-bit colour at 600 dpi, with planes of 8400 bytes, is read through the
      rings. Its green lines are written to byte 226800 and up of 132000. */
  lemma SetupGoesWrong(plane: nat, lag: Lag, k: nat)
    requires plane == 8400 && lag == Lag(4, 8)
    ensures Chosen(plane, lag) == KeepInRings && SetupLayout(lag).GreenSlot(k) * plane >= 226800 > DRIVER_MEMORY
    ensures !SetupLayout(lag).Right(k, lag, OwnSlots(plane))
    ensures k == 6 ==> SetupLayout(lag).Collides(k, lag)
  {
    ChosenAt600(plane);
    NothingIsRightAt600(plane, k);
    SetupIsRightExactly(k, lag);
  }
}
