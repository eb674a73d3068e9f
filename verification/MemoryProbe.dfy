// Sizing the scanner's RAM: write a pattern bank by bank and see when bank 0 is hit again
// or a bank does not answer.

module MemoryProbe {
  const LONGS: nat := 512                  // _TEST_SZ / sizeof(ULong)
  const START_VAL: int := 0x12345678
  const BANK_SIZE_2K: nat := 0x40
  const BANKS: nat := 64
  const U32: int := 0x1_0000_0000

  /** The page of longs the driver writes for a bank. */
  function Pattern(adder: nat): (r: seq<int>)
    ensures |r| == LONGS
  {
    seq(LONGS, ul requires 0 <= ul < LONGS => (ul + adder + START_VAL) % U32)
  }

  /** Where the 64 bank numbers lead: a page of the RAM, or nothing. */
  datatype Cell = Page(index: nat) | Absent

  /** A bank that ends the probe: it does not answer, or it is bank 0 again. */
  predicate Stops(wiring: seq<Cell>, i: nat)
    requires i < |wiring| == BANKS
  {
    wiring[0].Absent? || wiring[i].Absent? || (i > 0 && wiring[i] == wiring[0])
  }

  /** The number of banks in front of the first one that ends the probe. */
  ghost predicate Counted(wiring: seq<Cell>, n: nat)
    requires |wiring| == BANKS
  {
    && n <= BANKS
    && (forall i :: 0 <= i < n ==> !Stops(wiring, i))
    && (n < BANKS ==> Stops(wiring, n))
  }

  lemma CountedOnce(wiring: seq<Cell>, m: nat, n: nat)
    requires |wiring| == BANKS && Counted(wiring, m) && Counted(wiring, n)
    ensures m == n
  {
  }

  /** RAM of size banks, mirrored over all bank numbers. */
  function Mirrored(size: nat): (r: seq<Cell>)
    requires size > 0
    ensures |r| == BANKS
  {
    seq(BANKS, i => Page(i % size))
  }

  /** Main result for mirrored RAM: the count is its size, found at the first wrap; the
      probe runs to 64 only when nothing is mirrored. */
  lemma MirroredIsCounted(size: nat, n: nat)
    requires 1 <= size <= BANKS
    ensures Counted(Mirrored(size), n) <==> n == size
  {
    var w := Mirrored(size);
    forall i | 0 <= i < size
      ensures !Stops(w, i)
    {
      OwnPage(size, i);
    }
    if size < BANKS {
      assert size % size == 0;
      assert Stops(w, size);
    }
    if Counted(w, n) {
      CountedOnce(w, n, size);
    }
  }

  lemma OwnPage(size: nat, i: nat)
    requires i < size <= BANKS
    ensures !Stops(Mirrored(size), i)
  {
    assert i % size == i && 0 % size == 0;
    assert Mirrored(size)[i] == Page(i) && Mirrored(size)[0] == Page(0);
  }

  /** The scanner's RAM behind its bank register; an absent bank reads as one value. */
  class Device {
    const wiring: seq<Cell>
    const openBus: int
    var pages: map<nat, seq<int>>
    var bank: nat

    ghost predicate Valid()
      reads this
    {
      && |wiring| == BANKS && bank < BANKS
      && (forall p :: p in pages ==> |pages[p]| == LONGS)
    }

    constructor (wiring: seq<Cell>, openBus: int)
      requires |wiring| == BANKS
      ensures Valid() && this.wiring == wiring && this.openBus == openBus
    {
      this.wiring, this.openBus := wiring, openBus;
      pages, bank := map[], 0;
    }

    /** What reading a bank would deliver now. */
    function Content(b: nat): (r: seq<int>)
      requires Valid() && b < BANKS
      reads this
      ensures |r| == LONGS
    {
      match wiring[b]
      case Absent => seq(LONGS, _ => openBus)
      case Page(p) => if p in pages then pages[p] else seq(LONGS, _ => 0)
    }

    /** Two bank numbers lead to the same RAM. */
    predicate SamePage(b: nat, c: nat)
      requires |wiring| == BANKS && b < BANKS && c < BANKS
    {
      !wiring[b].Absent? && wiring[b] == wiring[c]
    }

    method SetMemoryBankForProgram(bankAndSize: nat)
      requires Valid()
      modifies this`bank
      ensures Valid() && bank == bankAndSize % BANKS
    {
      bank := bankAndSize % BANKS;
    }

    method MoveDataToScanner(data: array<int>)
      requires Valid() && data.Length == LONGS
      modifies this`pages
      ensures Valid()
      ensures forall b :: 0 <= b < BANKS && SamePage(b, bank) ==> Content(b) == data[..]
      ensures forall b :: 0 <= b < BANKS && !SamePage(b, bank) ==> Content(b) == old(Content(b))
    {
      match wiring[bank]
      case Absent =>
      case Page(p) => pages := pages[p := data[..]];
    }

    method ReadScannerImageData(data: array<int>)
      requires Valid() && data.Length == LONGS
      modifies data
      ensures data[..] == Content(bank)
    {
      var c := Content(bank);
      forall i | 0 <= i < LONGS {
        data[i] := c[i];
      }
    }
  }

  method FillPattern(buffer: array<int>, adder: nat)
    requires buffer.Length == LONGS
    modifies buffer
    ensures buffer[..] == Pattern(adder)
  {
    for ul := 0 to LONGS
      invariant forall i :: 0 <= i < ul ==> buffer[i] == Pattern(adder)[i]
    {
      buffer[ul] := (ul + adder + START_VAL) % U32;
    }
  }

  method Matches(buffer: array<int>, adder: nat) returns (same: bool)
    requires buffer.Length == LONGS
    ensures same <==> buffer[..] == Pattern(adder)
  {
    var ul := 0;
    while ul < LONGS && buffer[ul] == (ul + adder + START_VAL) % U32
      invariant ul <= LONGS
      invariant forall i :: 0 <= i < ul ==> buffer[i] == Pattern(adder)[i]
    {
      ul := ul + 1;
    }
    same := ul == LONGS;
    if !same {
      assert buffer[..][ul] != Pattern(adder)[ul];
    }
  }

  lemma PatternsDiffer(m: nat, n: nat)
    requires m < n < 32768
    ensures Pattern(m) != Pattern(n)
  {
    assert Pattern(m)[0] != Pattern(n)[0];
  }

  /** An open bus never looks like a pattern: that would have to count up. */
  lemma OpenBusDiffers(value: int, adder: nat)
    requires adder < 32768
    ensures seq(LONGS, _ => value) != Pattern(adder)
  {
    var s := seq(LONGS, _ => value);
    assert s[0] == s[1] && Pattern(adder)[0] != Pattern(adder)[1];
  }

  /** The probe loop: the returned register value is 0x40 plus the number of banks. */
  method Probe(dev: Device) returns (cntr: nat)
    requires dev.Valid()
    modifies dev
    ensures dev.Valid() && cntr >= BANK_SIZE_2K && Counted(dev.wiring, cntr - BANK_SIZE_2K)
  {
    var buffer := new int[LONGS];
    var adder := 0;
    cntr := BANK_SIZE_2K;
    while cntr < BANK_SIZE_2K + BANKS
      invariant dev.Valid() && BANK_SIZE_2K <= cntr <= BANK_SIZE_2K + BANKS
      invariant adder == LONGS * (cntr - BANK_SIZE_2K)
      invariant forall i :: 0 <= i < cntr - BANK_SIZE_2K ==> !Stops(dev.wiring, i)
      invariant cntr > BANK_SIZE_2K ==> dev.Content(0) == Pattern(0) && !dev.wiring[0].Absent?
    {
      var stop := TestBank(dev, buffer, cntr, adder);
      if stop {
        break;
      }
      adder := adder + LONGS;
      cntr := cntr + 1;
    }
  }

  /** Selects a bank and writes its pattern. */
  method WriteBank(dev: Device, buffer: array<int>, cntr: nat, adder: nat)
    requires dev.Valid() && buffer.Length == LONGS && BANK_SIZE_2K <= cntr < BANK_SIZE_2K + BANKS
    modifies dev, buffer
    ensures dev.Valid()
    ensures var i := cntr - BANK_SIZE_2K;
      && (!dev.wiring[i].Absent? ==> dev.Content(i) == Pattern(adder))
      && (dev.SamePage(0, i) ==> dev.Content(0) == Pattern(adder))
      && (!dev.SamePage(0, i) ==> dev.Content(0) == old(dev.Content(0)))
  {
    dev.SetMemoryBankForProgram(cntr);
    FillPattern(buffer, adder);
    dev.MoveDataToScanner(buffer);
    assert dev.bank == cntr - BANK_SIZE_2K;
  }

  /** Selects a bank, reads it back and compares it with a pattern. */
  method CheckBank(dev: Device, buffer: array<int>, cntr: nat, adder: nat) returns (same: bool)
    requires dev.Valid() && buffer.Length == LONGS && BANK_SIZE_2K <= cntr < BANK_SIZE_2K + BANKS
    modifies dev`bank, buffer
    ensures dev.Valid()
    ensures same <==> old(dev.Content(cntr - BANK_SIZE_2K)) == Pattern(adder)
    ensures dev.Content(0) == old(dev.Content(0))
  {
    dev.SetMemoryBankForProgram(cntr);
    dev.ReadScannerImageData(buffer);
    same := Matches(buffer, adder);
  }

  /** One bank: write its pattern, check bank 0, check the bank itself. */
  method TestBank(dev: Device, buffer: array<int>, cntr: nat, adder: nat) returns (stop: bool)
    requires dev.Valid() && buffer.Length == LONGS
    requires BANK_SIZE_2K <= cntr < BANK_SIZE_2K + BANKS && adder == LONGS * (cntr - BANK_SIZE_2K)
    requires cntr > BANK_SIZE_2K ==> dev.Content(0) == Pattern(0) && !dev.wiring[0].Absent?
    modifies dev, buffer
    ensures dev.Valid() && stop == Stops(dev.wiring, cntr - BANK_SIZE_2K)
    ensures !stop ==> dev.Content(0) == Pattern(0)
  {
    ghost var i := cntr - BANK_SIZE_2K;
    WriteBank(dev, buffer, cntr, adder);
    OpenBusDiffers(dev.openBus, 0);
    OpenBusDiffers(dev.openBus, adder);
    if i > 0 {
      PatternsDiffer(0, adder);
    }
    var same := CheckBank(dev, buffer, BANK_SIZE_2K, 0);
    if !same {
      return true;
    }
    same := CheckBank(dev, buffer, cntr, adder);
    stop := !same;
  }

  // ----- what the count says about the model -----

  datatype Model = OpA3I | Op12000 | Op9630 | Op4830 | Op600 | Preset
  datatype Result = NoDevice | Found(model: Model)

  /** The decision after the probe, from the bank count and one register. */
  function Decide(banks: nat, asic96003: bool, reg: int, overrideA3I: bool): Result {
    if banks == 0 then NoDevice
    else if banks * 2048 == 0x2_0000 && asic96003 then
      if reg == 0x02 then (if overrideA3I then Found(OpA3I) else Found(Op12000)) else Found(Op9630)
    else if reg != 0x0f then
      if reg == 0x08 && banks * 2048 == 32768 then Found(Op4830) else Found(Op600)
    else Found(Preset)
  }

  /** The models by the number of banks of 2048 bytes and the register. */
  predicate Decided(r: Result, banks: nat, asic96003: bool, reg: int, overrideA3I: bool) {
    var large := banks == 64 && asic96003;
    && (banks == 0 ==> r == NoDevice)
    && (large && reg == 2 && overrideA3I ==> r == Found(OpA3I))
    && (large && reg == 2 && !overrideA3I ==> r == Found(Op12000))
    && (large && reg != 2 ==> r == Found(Op9630))
    && (banks > 0 && !large && reg == 15 ==> r == Found(Preset))
    && (banks == 16 && reg == 8 ==> r == Found(Op4830))
    && (banks > 0 && !large && reg != 15 && !(banks == 16 && reg == 8) ==> r == Found(Op600))
  }

  method DoTest(dev: Device, asic96003: bool, reg: int, overrideA3I: bool) returns (r: Result)
    requires dev.Valid()
    modifies dev
    ensures r.NoDevice? <==> dev.wiring[0].Absent?
    ensures forall n :: Counted(dev.wiring, n) ==> r == Decide(n, asic96003, reg, overrideA3I)
    ensures forall size :: 1 <= size <= BANKS && dev.wiring == Mirrored(size) ==>
      r == Decide(size, asic96003, reg, overrideA3I)
    ensures forall n :: Counted(dev.wiring, n) ==> Decided(r, n, asic96003, reg, overrideA3I)
  {
    var cntr := Probe(dev);
    ghost var n := cntr - BANK_SIZE_2K;
    assert n == 0 ==> Stops(dev.wiring, 0);
    assert n > 0 ==> !Stops(dev.wiring, 0);
    r := Decide(cntr - BANK_SIZE_2K, asic96003, reg, overrideA3I);
    forall m | Counted(dev.wiring, m)
      ensures m == n
    {
      CountedOnce(dev.wiring, m, n);
    }
    forall size | 1 <= size <= BANKS && dev.wiring == Mirrored(size)
      ensures n == size
    {
      MirroredIsCounted(size, n);
    }
  }
}
