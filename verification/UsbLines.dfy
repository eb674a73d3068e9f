// Reading lines from the scan buffer of USB devices: three get pointers walk round one ring
// of raw lines, and lines are left out when the user wants fewer than the motor delivers.

module UsbLines {
  import opened Arith
  import opened LineSampling
  import opened RingSlots

  /** The scan buffer: `lines` raw lines of phyBytes each, and the first byte of every colour
      within a pixel. */
  datatype Buffer = Buffer(begin: nat, lines: nat, phyBytes: nat,
                           redShift: nat, greenShift: nat, blueShift: nat, oneChannel: bool)
  {
    predicate Valid() {
      && lines > 0 && redShift < phyBytes && greenShift < phyBytes && blueShift < phyBytes
    }

    function End(): nat {
      begin + lines * phyBytes
    }
  }

  datatype Pointers = Pointers(red: nat, green: nat, blue: nat)

  /** The address of raw line n for a colour: the law the get pointers should obey. */
  function Address(b: Buffer, shift: nat, n: nat): nat
    requires b.lines > 0
  {
    b.begin + shift + Slot(0, b.lines, n) * b.phyBytes
  }

  /** One pointer after one line. */
  function Moved(b: Buffer, p: nat, shift: nat): nat {
    if p + b.phyBytes >= b.End() then b.begin + shift else p + b.phyBytes
  }

  lemma MovedIsNext(b: Buffer, shift: nat, n: nat)
    requires b.Valid() && shift < b.phyBytes
    ensures Moved(b, Address(b, shift, n), shift) == Address(b, shift, n + 1)
    ensures b.begin <= Address(b, shift, n) < b.End()
    ensures Address(b, shift, n) + b.phyBytes >= b.End() <==> Slot(0, b.lines, n) == b.lines - 1
  {
    var s := Slot(0, b.lines, n);
    Next(0, b.lines, n);
    assert (s + 1) * b.phyBytes == s * b.phyBytes + b.phyBytes;
    ProductMonotone(s + 1, b.lines, b.phyBytes);
    if s + 1 < b.lines {
      ProductMonotone(s + 2, b.lines, b.phyBytes);
      assert (s + 2) * b.phyBytes == (s + 1) * b.phyBytes + b.phyBytes;
    }
  }

  // ----- setting up the pointers of a CCD scanner -----

  datatype SensorOrder = RGB | RBG | GBR | GRB | BRG | BGR

  /** The start lines of red, green and blue for a row distance of d lines. */
  function Rows(order: SensorOrder, d: nat): (nat, nat, nat) {
    match order
    case RGB => (0, d, 2 * d)
    case RBG => (0, 2 * d, d)
    case GBR => (2 * d, 0, d)
    case GRB => (d, 0, 2 * d)
    case BRG => (d, 2 * d, 0)
    case BGR => (2 * d, d, 0)
  }

  /** For a BGR picture the red and blue pointers are exchanged, shifts included. */
  function Starts(order: SensorOrder, d: nat, bgr: bool): (nat, nat, nat) {
    var (r, g, b) := Rows(order, d);
    if bgr then (b, g, r) else (r, g, b)
  }

  /** The colour that the sensor order names first starts at the beginning, the second one row distance and
      the third two row distances behind it. */
  predicate InOrder(order: SensorOrder, begin: int, row: int, red: int, green: int, blue: int) {
    && (order == RGB ==> red == begin && green == begin + row && blue == begin + 2 * row)
    && (order == RBG ==> red == begin && blue == begin + row && green == begin + 2 * row)
    && (order == GBR ==> green == begin && blue == begin + row && red == begin + 2 * row)
    && (order == GRB ==> green == begin && red == begin + row && blue == begin + 2 * row)
    && (order == BRG ==> blue == begin && red == begin + row && green == begin + 2 * row)
    && (order == BGR ==> blue == begin && green == begin + row && red == begin + 2 * row)
  }

  /** The same for the lines to start at; BGR order exchanges red and blue. */
  lemma StartsInOrder(order: SensorOrder, d: nat, bgr: bool)
    ensures var (red, green, blue) := Starts(order, d, bgr);
      InOrder(order, 0, d, if bgr then blue else red, green, if bgr then red else blue)
  {
  }

  method PlaceRows(begin: nat, phyBytes: nat, order: SensorOrder, d: nat) returns (red: nat, green: nat, blue: nat)
    ensures var (r, g, b) := Rows(order, d);
      red == begin + r * phyBytes && green == begin + g * phyBytes && blue == begin + b * phyBytes
    ensures InOrder(order, begin, d * phyBytes, red, green, blue)
  {
    red, green, blue := begin, begin, begin;
    var first, second := d * phyBytes, d * phyBytes * 2;
    assert 2 * d * phyBytes == second;
    match order {
      case RGB => green, blue := begin + first, begin + second;
      case RBG => blue, green := begin + first, begin + second;
      case GBR => blue, red := begin + first, begin + second;
      case GRB => red, blue := begin + first, begin + second;
      case BRG => red, green := begin + first, begin + second;
      case BGR => green, red := begin + first, begin + second;
    }
  }

  /** Row `start` of the buffer, wherever that is. */
  function RowAddress(b: Buffer, shift: nat, start: nat): nat {
    b.begin + shift + start * b.phyBytes
  }

  /** The three start pointers as they are set up. */
  function StartPointers(b: Buffer, order: SensorOrder, d: nat, bgr: bool): Pointers {
    var (red, green, blue) := Starts(order, d, bgr);
    Pointers(RowAddress(b, b.redShift, red), RowAddress(b, b.greenShift, green), RowAddress(b, b.blueShift, blue))
  }

  /** The start pointers for all sensor orders; nothing looks at the size of the buffer. */
  method Prepare(begin: nat, lines: nat, phyBytes: nat, order: SensorOrder, discard: nat, bitDepth: nat, bgr: bool)
    returns (buffer: Buffer, p: Pointers, linesDiscard: nat)
    ensures !buffer.oneChannel && linesDiscard == 2 * discard
    ensures buffer.begin == begin && buffer.lines == lines && buffer.phyBytes == phyBytes
    ensures buffer.greenShift == (7 + bitDepth) / 8
    ensures buffer.redShift == (if bgr then 2 * buffer.greenShift else 0)
    ensures buffer.blueShift == (if bgr then 0 else 2 * buffer.greenShift)
    ensures p == StartPointers(buffer, order, discard, bgr)
    ensures InOrder(order, begin, discard * phyBytes, if bgr then p.blue else p.red,
                    p.green - (7 + bitDepth) / 8, (if bgr then p.red else p.blue) - (7 + bitDepth) / 8 * 2)
  {
    var red, green, blue := PlaceRows(begin, phyBytes, order, discard);
    linesDiscard := discard * 2;
    var greenShift := (7 + bitDepth) / 8;
    green := green + greenShift;
    blue := blue + greenShift * 2;
    if bgr {
      var pb := blue;
      blue := red;
      red := pb;
      buffer := Buffer(begin, lines, phyBytes, greenShift * 2, greenShift, 0, false);
    } else {
      buffer := Buffer(begin, lines, phyBytes, 0, greenShift, greenShift * 2, false);
    }
    p := Pointers(red, green, blue);
  }

  /** A row is where the law has it exactly if it lies inside the buffer. */
  lemma RowIsAddress(b: Buffer, shift: nat, start: nat)
    requires b.lines > 0 && b.phyBytes > 0
    ensures RowAddress(b, shift, start) == Address(b, shift, start) <==> start < b.lines
  {
    if start < b.lines {
      StartSlot(b.lines, start);
    } else {
      var s := Slot(0, b.lines, start);
      ProductMonotone(s + 1, start, b.phyBytes);
      assert (s + 1) * b.phyBytes == s * b.phyBytes + b.phyBytes;
    }
  }

  /** The law holds from the start exactly if the buffer has more lines than the sensor rows are apart. */
  lemma StartsObeyLawExactly(b: Buffer, order: SensorOrder, d: nat, bgr: bool)
    requires b.lines > 0 && b.phyBytes > 0
    ensures var (red, green, blue) := Starts(order, d, bgr);
      (StartPointers(b, order, d, bgr) == Lawful(b, red, green, blue)) <==> 2 * d < b.lines
  {
    var (red, green, blue) := Starts(order, d, bgr);
    RowIsAddress(b, b.redShift, red);
    RowIsAddress(b, b.greenShift, green);
    RowIsAddress(b, b.blueShift, blue);
  }

  /** Three pointers into the lines the law names. */
  function Lawful(b: Buffer, red: nat, green: nat, blue: nat): Pointers
    requires b.lines > 0
  {
    Pointers(Address(b, b.redShift, red), Address(b, b.greenShift, green), Address(b, b.blueShift, blue))
  }

  lemma StartSlot(lines: nat, start: nat)
    requires start < lines
    ensures Slot(0, lines, start) == start
  {
    Quotient(start, lines, 0, start);
  }

  // ----- one line further -----

  /** The pointers after one line; in one-channel mode any wrap-around resets all three to
      their places in the order red, green, blue. */
  function Step(b: Buffer, p: Pointers, colour: bool): Pointers {
    if !colour then p.(green := Moved(b, p.green, b.greenShift))
    else if b.oneChannel && Wraps(b, p) then
      Pointers(b.begin, b.begin + b.phyBytes / 3, b.begin + b.phyBytes / 3 * 2)
    else Pointers(Moved(b, p.red, b.redShift), Moved(b, p.green, b.greenShift), Moved(b, p.blue, b.blueShift))
  }

  predicate Wraps(b: Buffer, p: Pointers) {
    p.red + b.phyBytes >= b.End() || p.green + b.phyBytes >= b.End() || p.blue + b.phyBytes >= b.End()
  }

  /** The pointers after n lines. */
  function After(b: Buffer, p: Pointers, colour: bool, n: nat): Pointers {
    if n == 0 then p else Step(b, After(b, p, colour, n - 1), colour)
  }

  /** Main result for CCD scanners: every pointer obeys the law at every line. */
  lemma {:induction false} PointersObeyLaw(b: Buffer, p: Pointers, r: nat, g: nat, bl: nat, n: nat)
    requires b.Valid() && !b.oneChannel && p == Lawful(b, r, g, bl)
    ensures After(b, p, true, n) == Lawful(b, r + n, g + n, bl + n)
  {
    if n > 0 {
      PointersObeyLaw(b, p, r, g, bl, n - 1);
      MovedIsNext(b, b.redShift, r + n - 1);
      MovedIsNext(b, b.greenShift, g + n - 1);
      MovedIsNext(b, b.blueShift, bl + n - 1);
    }
  }

  /** Gray lines have one pointer, which obeys the same law. */
  lemma {:induction false} GrayObeysLaw(b: Buffer, p: Pointers, g: nat, n: nat)
    requires b.Valid() && p.green == Address(b, b.greenShift, g)
    ensures After(b, p, false, n) == p.(green := b.begin + b.greenShift + (g + n) % b.lines * b.phyBytes)
  {
    if n > 0 {
      GrayObeysLaw(b, p, g, n - 1);
      MovedIsNext(b, b.greenShift, g + n - 1);
    }
  }

  /** What the law says in numbers. */
  lemma LawInNumbers(b: Buffer, red: nat, green: nat, blue: nat)
    requires b.lines > 0
    ensures Lawful(b, red, green, blue) ==
      Pointers(b.begin + b.redShift + red % b.lines * b.phyBytes, b.begin + b.greenShift + green % b.lines * b.phyBytes,
               b.begin + b.blueShift + blue % b.lines * b.phyBytes)
  {
  }

  // ----- one-channel colour of CIS scanners -----

  /** The thirds of a raw line that hold the three colours. */
  function Third(b: Buffer, i: nat): nat {
    b.phyBytes / 3 * i
  }

  predicate OneChannel(b: Buffer) {
    && b.oneChannel && b.lines > 0 && b.phyBytes >= 3
    && b.redShift == b.greenShift == b.blueShift == 0
  }

  /** A pointer into third i of raw line n. */
  function ThirdAddress(b: Buffer, i: nat, n: nat): nat
    requires b.lines > 0
  {
    Address(b, Third(b, i), n)
  }

  /** Before the first wrap-around the thirds follow the sensor order; from then on they are
      red, green, blue whatever the order was. */
  lemma {:induction false} OneChannelPointers(b: Buffer, i: nat, j: nat, k: nat, n: nat)
    requires OneChannel(b) && (i, j, k) in {(0, 1, 2), (2, 0, 1)}
    ensures var p := Pointers(ThirdAddress(b, i, 0), ThirdAddress(b, j, 0), ThirdAddress(b, k, 0));
      After(b, p, true, n) ==
        if n < b.lines then Pointers(ThirdAddress(b, i, n), ThirdAddress(b, j, n), ThirdAddress(b, k, n))
        else Pointers(ThirdAddress(b, 0, n), ThirdAddress(b, 1, n), ThirdAddress(b, 2, n))
  {
    if n > 0 {
      OneChannelPointers(b, i, j, k, n - 1);
      if n - 1 < b.lines {
        OneChannelStep(b, i, j, k, n - 1);
        StartSlot(b.lines, n - 1);
        if n == b.lines {
          Quotient(n, b.lines, 1, 0);
        }
      } else {
        OneChannelStep(b, 0, 1, 2, n - 1);
      }
    }
  }

  lemma OneChannelStep(b: Buffer, i: nat, j: nat, k: nat, n: nat)
    requires OneChannel(b) && (i, j, k) in {(0, 1, 2), (2, 0, 1)}
    ensures var p := Pointers(ThirdAddress(b, i, n), ThirdAddress(b, j, n), ThirdAddress(b, k, n));
      Step(b, p, true) ==
        if Slot(0, b.lines, n) == b.lines - 1
        then Pointers(ThirdAddress(b, 0, n + 1), ThirdAddress(b, 1, n + 1), ThirdAddress(b, 2, n + 1))
        else Pointers(ThirdAddress(b, i, n + 1), ThirdAddress(b, j, n + 1), ThirdAddress(b, k, n + 1))
  {
    Next(0, b.lines, n);
    MovedIsNext(b, Third(b, 0), n);
    MovedIsNext(b, Third(b, 1), n);
    MovedIsNext(b, Third(b, 2), n);
  }

  /** The law holds at line n if and only if the sensor order is red first or the buffer has
      not been walked through once. */
  lemma OneChannelLawExactly(b: Buffer, gbr: bool, n: nat)
    requires OneChannel(b)
    ensures var (i, j, k) := if gbr then (2, 0, 1) else (0, 1, 2);
      var p := Pointers(ThirdAddress(b, i, 0), ThirdAddress(b, j, 0), ThirdAddress(b, k, 0));
      (After(b, p, true, n) == Pointers(ThirdAddress(b, i, n), ThirdAddress(b, j, n), ThirdAddress(b, k, n)))
        == (!gbr || n < b.lines)
  {
    if gbr {
      OneChannelPointers(b, 2, 0, 1, n);
      assert ThirdAddress(b, 0, n) != ThirdAddress(b, 2, n);
    } else {
      OneChannelPointers(b, 0, 1, 2, n);
    }
  }

  // ----- leaving lines out -----

  /** The raw line that becomes user line u: every one, or ceil(u * phyDpi / userDpi). */
  function RawLine(u: nat, sampleY: bool, userDpi: nat, phyDpi: nat): nat
    requires userDpi > 0
  {
    if sampleY then CeilDiv(u * phyDpi, userDpi) else u
  }

  /** Where lines are left out, the sum of the two resolutions fits the 16-bit running sum. */
  predicate SumFits(userDpi: nat, phyDpi: nat) {
    userDpi < phyDpi ==> userDpi + phyDpi <= 0x1_0000
  }

  /** A raw line handed to the user, and the addresses it was taken from. */
  datatype Taken = Taken(raw: nat, at: Pointers)

  datatype Status = Done | Abort

  /** Range of an unsigned long. */
  const U64: int := 0x1_0000_0000_0000_0000

  class Reader {
    const buffer: Buffer
    const colour: bool
    const sampleY: bool
    const userDpi: nat
    const phyDpi: nat
    ghost const start: Pointers
    var p: Pointers
    var wSumY: int
    var linesUser: nat
    var linesToProcess: int
    var raw: nat                 // raw lines passed so far
    ghost var taken: seq<Taken>  // lines handed to the user so far
    ghost var supplied: nat      // raw lines read into the buffer so far
    ghost var starved: bool      // usb_ReadData has returned no lines

    ghost predicate Valid()
      reads this
    {
      && 0 < userDpi && sampleY == (userDpi < phyDpi) && SumFits(userDpi, phyDpi)
      && p == After(buffer, start, colour, raw)
      && Sampled(raw) && AllDue()
      && (!starved ==> 0 < linesToProcess < U64 && raw + linesToProcess == supplied)
    }

    /** The sampling state after n raw lines. */
    ghost predicate Sampled(n: nat)
      reads this
    {
      if sampleY then Sampling(wSumY, n, |taken|, userDpi, phyDpi) else |taken| == n
    }

    /** Every line handed to the user is the one the closed form names, from the addresses
        the pointer law names. */
    ghost predicate AllDue()
      reads this
      requires userDpi > 0
    {
      forall u :: 0 <= u < |taken| ==>
        && taken[u].raw == RawLine(u, sampleY, userDpi, phyDpi)
        && taken[u].at == After(buffer, start, colour, taken[u].raw)
    }

    constructor (buffer: Buffer, colour: bool, userDpi: nat, phyDpi: nat, p: Pointers, linesUser: nat, first: nat)
      requires 0 < userDpi && SumFits(userDpi, phyDpi) && 0 < first < U64
      ensures Valid() && raw == 0 && taken == [] && !starved && supplied == first
      ensures sampleY == (userDpi < phyDpi) && this.linesUser == linesUser
      ensures this.buffer == buffer && this.colour == colour && start == p
      ensures this.userDpi == userDpi && this.phyDpi == phyDpi
    {
      this.buffer, this.colour, this.userDpi, this.phyDpi := buffer, colour, userDpi, phyDpi;
      this.sampleY, this.linesUser, this.p, this.start := userDpi < phyDpi, linesUser, p, p;
      wSumY, linesToProcess := if userDpi < phyDpi then phyDpi - userDpi else 0, first;
      raw, taken, supplied, starved := 0, [], first, false;
    }

    /** The pointer updates after a line, with the reset of one-channel mode. */
    method AdjustPointers()
      modifies this`p
      ensures p == Step(buffer, old(p), colour)
    {
      var red, green, blue := p.red, p.green, p.blue;
      var wrap := false;
      if colour {
        red := red + buffer.phyBytes;
        if red >= buffer.End() {
          red := buffer.begin + buffer.redShift;
          wrap := true;
        }
        green := green + buffer.phyBytes;
        if green >= buffer.End() {
          green := buffer.begin + buffer.greenShift;
          wrap := true;
        }
        blue := blue + buffer.phyBytes;
        if blue >= buffer.End() {
          blue := buffer.begin + buffer.blueShift;
          wrap := true;
        }
      } else {
        green := green + buffer.phyBytes;
        if green >= buffer.End() {
          green := buffer.begin + buffer.greenShift;
        }
      }
      if wrap && buffer.oneChannel {
        var len := buffer.phyBytes / 3;
        red, green, blue := buffer.begin, buffer.begin + len, buffer.begin + len * 2;
      }
      p := Pointers(red, green, blue);
    }

    method TakeIfDue()
      requires Valid() && linesUser > 0
      modifies this`wSumY, this`taken, this`linesUser
      ensures Sampled(raw + 1) && AllDue() && old(taken) <= taken
      ensures |taken| + linesUser == |old(taken)| + old(linesUser)
      ensures linesUser == old(linesUser) || linesUser == old(linesUser) - 1
      ensures linesUser == old(linesUser) ==> sampleY && wSumY == old(wSumY) + userDpi
    {
      if !sampleY {
        taken := taken + [Taken(raw, p)];
        linesUser := linesUser - 1;
      } else {
        SampleStep(wSumY, raw, |taken|, userDpi, phyDpi);
        wSumY := (wSumY + userDpi) % 0x1_0000;
        if wSumY >= phyDpi {
          wSumY := wSumY - phyDpi;
          taken := taken + [Taken(raw, p)];
          linesUser := linesUser - 1;
        }
      }
    }

    method CountLine(refill: nat) returns (empty: bool)
      requires refill < U64
      modifies this`linesToProcess, this`supplied, this`starved
      ensures var left := (old(linesToProcess) - 1) % U64;
        if left == 0
        then linesToProcess == refill && supplied == old(supplied) + refill && empty == (refill == 0)
             && starved == (old(starved) || empty)
        else linesToProcess == left && supplied == old(supplied) && !empty && starved == old(starved)
    {
      linesToProcess := (linesToProcess - 1) % U64;
      empty := false;
      if linesToProcess == 0 {
        linesToProcess := refill;
        supplied := supplied + refill;
        empty := refill == 0;
        starved := starved || empty;
      }
    }

    /** One raw line: takes it if it is due, moves on, and refills the buffer when all its
        lines are used. An empty refill is not noticed here; the line counter then wraps. */
    method OneLine(refill: nat) returns (empty: bool)
      requires Valid() && linesUser > 0 && refill < U64
      modifies this
      ensures Valid() && raw == old(raw) + 1
      ensures old(taken) <= taken && |taken| + linesUser == |old(taken)| + old(linesUser)
      ensures linesUser == old(linesUser) || linesUser == old(linesUser) - 1
      ensures linesUser == old(linesUser) ==> sampleY && wSumY == old(wSumY) + userDpi
      ensures empty ==> starved
    {
      TakeIfDue();
      AdjustPointers();
      raw := raw + 1;
      empty := CountLine(refill);
    }

    /** Hands one line to the user, passing over raw lines as needed. esc(n) says whether
        the user has cancelled at raw line n, refill(n) how many lines the read after raw
        line n brings. */
    method ReadLine(esc: nat -> bool, refill: nat -> nat) returns (r: Status)
      requires Valid() && linesUser > 0 && (forall n :: refill(n) < U64)
      modifies this
      ensures Valid() && old(taken) <= taken && raw >= old(raw)
      ensures r == Done ==> |taken| == |old(taken)| + 1 && linesUser == old(linesUser) - 1
      ensures (r == Abort ==> esc(raw)) && forall n :: old(raw) <= n < raw ==> !esc(n)
    {
      var cur := linesUser;
      while cur == linesUser
        invariant Valid() && (linesUser == cur || linesUser == cur - 1) && cur > 0
        invariant |taken| + linesUser == |old(taken)| + cur && old(taken) <= taken && raw >= old(raw)
        invariant forall n :: old(raw) <= n < raw ==> !esc(n)
        decreases linesUser, phyDpi - wSumY
      {
        if esc(raw) {
          return Abort;
        }
        var n := raw;
        var empty := OneLine(refill(n));
        if empty && esc(raw) {
          return Abort;
        }
      }
      r := Done;
    }
  }

  // ----- a whole picture -----

  /** Main result: user line u is taken from the raw line the sampling law names, and every colour of it
      from the place in the ring the pointer law names. */
  lemma UserLineAddress(reader: Reader, order: SensorOrder, d: nat, bgr: bool, u: nat)
    requires reader.Valid() && reader.colour && u < |reader.taken|
    requires reader.buffer.Valid() && !reader.buffer.oneChannel && reader.buffer.phyBytes > 0
    requires 2 * d < reader.buffer.lines && reader.start == StartPointers(reader.buffer, order, d, bgr)
    ensures var n := RawLine(u, reader.userDpi < reader.phyDpi, reader.userDpi, reader.phyDpi);
      var (red, green, blue) := Starts(order, d, bgr);
      reader.taken[u] == Taken(n, Lawful(reader.buffer, red + n, green + n, blue + n))
  {
    var (red, green, blue) := Starts(order, d, bgr);
    StartsObeyLawExactly(reader.buffer, order, d, bgr);
    PointersObeyLaw(reader.buffer, reader.start, red, green, blue, reader.taken[u].raw);
  }

  /** From the set-up to so many lines for the user, unless the user cancels. */
  method ReadPicture(begin: nat, lines: nat, phyBytes: nat, order: SensorOrder, discard: nat, bitDepth: nat, bgr: bool,
                     userDpi: nat, phyDpi: nat, linesUser: nat, first: nat, esc: nat -> bool, refill: nat -> nat)
    returns (reader: Reader, r: Status)
    requires lines > 2 * discard && 2 * ((7 + bitDepth) / 8) < phyBytes
    requires 0 < userDpi && SumFits(userDpi, phyDpi) && 0 < first < U64 && forall n :: refill(n) < U64
    ensures reader.Valid() && (r == Done ==> |reader.taken| == linesUser)
    ensures (r == Abort ==> esc(reader.raw)) && forall n :: 0 <= n < reader.raw ==> !esc(n)
    ensures reader.buffer.lines == lines && reader.buffer.phyBytes == phyBytes && reader.buffer.begin == begin
    ensures forall u :: 0 <= u < |reader.taken| ==>
      var n := RawLine(u, userDpi < phyDpi, userDpi, phyDpi);
      var (red, green, blue) := Starts(order, discard, bgr);
      reader.taken[u] == Taken(n, Lawful(reader.buffer, red + n, green + n, blue + n))
  {
    var buffer, p, linesDiscard := Prepare(begin, lines, phyBytes, order, discard, bitDepth, bgr);
    reader := new Reader(buffer, true, userDpi, phyDpi, p, linesUser, first);
    r := Done;
    while r == Done && reader.linesUser > 0
      invariant fresh(reader) && reader.Valid() && reader.start == p && reader.colour
      invariant reader.buffer == buffer && reader.userDpi == userDpi && reader.phyDpi == phyDpi
      invariant r == Done ==> |reader.taken| + reader.linesUser == linesUser
      invariant (r == Abort ==> esc(reader.raw)) && forall n :: 0 <= n < reader.raw ==> !esc(n)
      decreases r == Done, reader.linesUser
    {
      r := reader.ReadLine(esc, refill);
    }
    forall u | 0 <= u < |reader.taken|
      ensures var n := RawLine(u, userDpi < phyDpi, userDpi, phyDpi);
        var (red, green, blue) := Starts(order, discard, bgr);
        reader.taken[u] == Taken(n, Lawful(reader.buffer, red + n, green + n, blue + n))
    {
      UserLineAddress(reader, order, discard, bgr, u);
    }
  }
}
