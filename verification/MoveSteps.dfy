// The step tables around the 64-slot ring: which run-table entry each slot stands for,
// which colours it reads, and the packed nibbles the ASIC is given.

module MoveSteps {
  import opened Arith

  const SLOTS: nat := 64
  const WORD: int := 0x1_0000
  /** Number of colours in a three-bit colour set. */
  const COLOURS_SUM: seq<nat> := [0, 1, 1, 2, 1, 2, 2, 3]

  /** Slots from pos to t, walking forward: 1 for the next slot, 64 for pos itself. */
  function Distance(pos: nat, t: nat): nat
    requires pos < SLOTS && t < SLOTS
  {
    if t > pos then t - pos else t + SLOTS - pos
  }

  /** Slots from first to t: 0 for first itself. */
  function Ahead(first: nat, t: nat): nat
    requires first < SLOTS && t < SLOTS
  {
    if t >= first then t - first else t + SLOTS - first
  }

  /** Both ways of walking round the ring. */
  lemma Round(pos: nat, j: nat)
    requires pos < 64 && j <= 64
    ensures j > 0 ==> Distance(pos, (pos + j) % 64) == j
    ensures j < 64 ==> Ahead(pos, (pos + j) % 64) == j
  {
  }

  /** Entry at distance j from a slot that stands for run-table entry `index`. */
  function Planned(index: nat, j: nat, speed: nat): int
    requires speed > 0
  {
    if j % speed == 0 then (index + j / speed) % WORD else 0
  }

  /** A slot after the first `upto` distances have been filled. */
  function Refilled(was: int, index: nat, distance: nat, speed: nat, upto: int): int
    requires speed > 0
  {
    if distance <= upto then Planned(index, distance, speed) else was
  }

  /** The loop's counters before distance j: b slots to the next entry, and its index. */
  ghost predicate Counting(wIndex: nat, j: nat, speed: nat, b: int, index: int)
    requires speed > 0 && j >= 1
  {
    b == speed - (j - 1) % speed && index == (wIndex + (j - 1) / speed + 1) % WORD
  }

  lemma CountdownStart(wIndex: nat, speed: nat)
    requires speed > 0
    ensures Counting(wIndex, 1, speed, speed, (wIndex + 1) % WORD)
  {
    Quotient(0, speed, 0, 0);
  }

  lemma Countdown(wIndex: nat, j: nat, speed: nat, b: int, index: int)
    requires speed > 0 && j >= 1 && Counting(wIndex, j, speed, b, index)
    ensures Planned(wIndex, j, speed) == if b == 1 then index else 0
    ensures if b == 1 then Counting(wIndex, j + 1, speed, speed, (index + 1) % WORD)
            else Counting(wIndex, j + 1, speed, b - 1, index)
  {
    var q, r := (j - 1) / speed, (j - 1) % speed;
    assert j - 1 == speed * q + r;
    if b == 1 {
      assert speed * (q + 1) == speed * q + speed;
      Quotient(j, speed, q + 1, 0);
    } else {
      Quotient(j, speed, q, r + 1);
    }
  }

  /** Slot (pos + j) mod 64 before and after the table is filled. */
  ghost predicate SlotFilled(now: seq<int>, was: seq<int>, wIndex: nat, bStep: nat, pos: nat, speed: nat, j: nat)
    requires |now| == |was| == 64 && speed > 0
  {
    var t := (pos + j) % 64;
    now[t] == if j + bStep > 64 then was[t] else if j % speed == 0 then (wIndex + j / speed) % 0x1_0000 else 0
  }

  /** Slot (first + j) mod 64 before and after the colours are looked up. */
  ghost predicate SlotColoured(now: seq<bv8>, was: seq<bv8>, entries: seq<int>, runTable: seq<bv8>, first: nat,
                               steps: nat, j: nat)
    requires |now| == |was| == |entries| == 64
  {
    var t := (first + j) % 64;
    now[t] == if j < steps && 0 < entries[t] < |runTable| && runTable[entries[t]] & 7 != 0
              then runTable[entries[t]] & 7 else was[t]
  }

  // ----- packing -----

  function Nibble(ring: seq<bv8>, s: nat): bv8
    requires s / 2 < |ring|
  {
    if s % 2 == 0 then ring[s / 2] & 0x0f else ring[s / 2] >> 4
  }

  /** What the ASIC should see in a slot: its colour set, and the step bit. */
  function Wanted(colour: bv8, half: bool): bv8 {
    (colour & 7) | (if half then 8 else 0)
  }

  /** A byte of the ring: the even slot in the low nibble, three bits of colour and the step bit each. */
  predicate PackedByte(b: bv8, even: bv8, odd: bv8, evenStep: bool, oddStep: bool) {
    && b & 0x07 == even & 7 && (b & 0x08 != 0 <==> evenStep)
    && (b >> 4) & 0x07 == odd & 7 && (b & 0x80 != 0 <==> oddStep)
  }

  lemma NibblesPacked(b: bv8, even: bv8, odd: bv8, evenStep: bool, oddStep: bool)
    requires b & 0x0f == Wanted(even, evenStep) && b >> 4 == Wanted(odd, oddStep)
    ensures PackedByte(b, even, odd, evenStep, oddStep)
  {
  }

  lemma PackedNibbles(b: bv8, even: bv8, odd: bv8, evenStep: bool, oddStep: bool)
    requires PackedByte(b, even, odd, evenStep, oddStep)
    ensures b & 0x0f == Wanted(even, evenStep) && b >> 4 == Wanted(odd, oddStep)
  {
  }

  function Condensed(low: bv8, high: bv8): bv8 {
    (low & 7) + ((high & 7) << 4)
  }

  lemma Packed(low: bv8, high: bv8, halfLow: bool, halfHigh: bool)
    ensures var b := Condensed(low, high) | (if halfLow then 8 else 0) | (if halfHigh then 0x80 else 0);
      b & 0x0f == Wanted(low, halfLow) && b >> 4 == Wanted(high, halfHigh)
  {
  }

  lemma HasColour(b: bv8)
    ensures COLOURS_SUM[(b & 7) as nat] != 0 <==> b & 7 != 0
  {
  }

  class Tables {
    const moveStep: array<int>       // a_wMoveStepTable
    const halfStep: array<int>       // a_bHalfStepTable
    const colourByte: array<bv8>     // a_bColorByteTable
    const ring: array<bv8>           // a_nbNewAdrPointer
    const runTable: array<bv8>       // pColorRunTable, BufferForColorRunTable bytes

    ghost predicate Valid()
      reads this
    {
      && moveStep.Length == halfStep.Length == colourByte.Length == SLOTS && ring.Length == 32
      && moveStep != halfStep && colourByte != ring && colourByte != runTable && ring != runTable
      && moveStep as object != colourByte && moveStep as object != ring
      && halfStep as object != colourByte && halfStep as object != ring
    }

    constructor (entries: nat)
      ensures Valid() && runTable.Length == entries
    {
      moveStep := new int[SLOTS];
      halfStep := new int[SLOTS];
      colourByte := new bv8[SLOTS];
      ring := new bv8[32];
      runTable := new bv8[entries];
    }

    /** Refills the ring behind slot pos: entry wIndex + j / speed at every distance j that
        speed divides, nothing in between; slot pos keeps its entry if bStep is 1. */
    method FillMoveStepTable(wIndex: nat, bStep: nat, pos: nat, speed: nat)
      requires Valid() && pos < SLOTS && bStep <= SLOTS && speed > 0
      modifies moveStep
      ensures forall t :: 0 <= t < SLOTS ==>
        moveStep[t] == Refilled(old(moveStep[t]), wIndex, Distance(pos, t), speed, SLOTS - bStep)
      ensures forall j :: 1 <= j <= 64 ==> SlotFilled(moveStep[..], old(moveStep[..]), wIndex, bStep, pos, speed, j)
    {
      var pw := pos + 1;
      if pw >= SLOTS {
        pw := 0;
      }
      var index, b, w := (wIndex + 1) % WORD, speed, SLOTS - bStep;
      ghost var j := 1;
      CountdownStart(wIndex, speed);
      while w > 0
        invariant j + w == SLOTS - bStep + 1 && j >= 1
        invariant 0 <= w && 0 <= pw < SLOTS && (w > 0 ==> Distance(pos, pw) == j)
        invariant Counting(wIndex, j, speed, b, index)
        invariant forall t :: 0 <= t < SLOTS ==>
          moveStep[t] == Refilled(old(moveStep[t]), wIndex, Distance(pos, t), speed, j - 1)
      {
        b, index := FillSlot(pw, b, index, speed, wIndex, j);
        pw := pw + 1;
        if pw >= SLOTS {
          pw := 0;
        }
        w := w - 1;
        j := j + 1;
      }
      forall j | 1 <= j <= 64
        ensures SlotFilled(moveStep[..], old(moveStep[..]), wIndex, bStep, pos, speed, j)
      {
        Round(pos, j);
        assert moveStep[(pos + j) % 64] == Refilled(old(moveStep[..])[(pos + j) % 64], wIndex, j, speed, SLOTS - bStep);
      }
    }

    /** One slot of the filling loop: the countdown decides between an entry and a gap. */
    method FillSlot(pw: nat, b0: int, index0: int, speed: nat, ghost wIndex: nat, ghost j: nat)
      returns (b: int, index: int)
      requires Valid() && pw < SLOTS && speed > 0 && j >= 1 && Counting(wIndex, j, speed, b0, index0)
      modifies moveStep
      ensures forall t :: 0 <= t < SLOTS ==>
        moveStep[t] == if t == pw then Planned(wIndex, j, speed) else old(moveStep[t])
      ensures Counting(wIndex, j + 1, speed, b, index)
    {
      Countdown(wIndex, j, speed, b0, index0);
      if b0 == 1 {
        b := speed;
        moveStep[pw] := index0;
        index := (index0 + 1) % WORD;
      } else {
        b, index := b0 - 1, index0;
        moveStep[pw] := 0;
      }
    }

    /** The colour set of slot t after `upto` slots have been looked up. */
    function LookedUp(was: bv8, t: nat, ahead: nat, upto: nat): bv8
      requires Valid() && t < SLOTS
      reads this, moveStep, runTable
    {
      if ahead < upto && 0 < moveStep[t] < runTable.Length && runTable[moveStep[t]] & 7 != 0
      then runTable[moveStep[t]] & 7 else was
    }

    /** Looks up the colours of some slots from first on, then packs colours and step bits
        of the whole ring. */
    method FillDataToColorTable(first: nat, steps: nat)
      requires Valid() && first < SLOTS && steps <= SLOTS
      requires forall t :: 0 <= t < SLOTS ==> moveStep[t] >= 0
      modifies colourByte, ring
      ensures forall t :: 0 <= t < SLOTS ==>
        colourByte[t] == LookedUp(old(colourByte[t]), t, Ahead(first, t), steps)
      ensures forall s :: 0 <= s < SLOTS ==> Nibble(ring[..], s) == Wanted(colourByte[s], halfStep[s] != 0)
      ensures forall j :: 0 <= j < 64 ==>
        SlotColoured(colourByte[..], old(colourByte[..]), moveStep[..], runTable[..], first, steps, j)
      ensures forall i :: 0 <= i < 32 ==> BytePacked(ring[i], i)
    {
      LookUpColours(first, steps);
      Condense();
      AllColoured(old(colourByte[..]), first, steps);
    }

    /** The colours by the distance of their slots. */
    lemma AllColoured(was: seq<bv8>, first: nat, steps: nat)
      requires Valid() && first < SLOTS && |was| == SLOTS && forall t :: 0 <= t < SLOTS ==> moveStep[t] >= 0
      requires forall t :: 0 <= t < SLOTS ==> colourByte[t] == LookedUp(was[t], t, Ahead(first, t), steps)
      ensures forall j :: 0 <= j < 64 ==>
        SlotColoured(colourByte[..], was, moveStep[..], runTable[..], first, steps, j)
    {
      forall j | 0 <= j < 64
        ensures SlotColoured(colourByte[..], was, moveStep[..], runTable[..], first, steps, j)
      {
        var t := (first + j) % 64;
        Round(first, j);
        assert colourByte[t] == LookedUp(was[t], t, j, steps);
      }
    }

    method LookUpColours(first: nat, steps: nat)
      requires Valid() && first < SLOTS && steps <= SLOTS
      requires forall t :: 0 <= t < SLOTS ==> moveStep[t] >= 0
      modifies colourByte
      ensures forall t :: 0 <= t < SLOTS ==>
        colourByte[t] == LookedUp(old(colourByte[t]), t, Ahead(first, t), steps)
    {
      var p, dwSteps := first, steps;
      ghost var done := 0;
      while dwSteps > 0
        invariant done + dwSteps == steps
        invariant 0 <= dwSteps && 0 <= p < SLOTS && (dwSteps > 0 ==> Ahead(first, p) == done)
        invariant forall t :: 0 <= t < SLOTS ==>
          colourByte[t] == LookedUp(old(colourByte[t]), t, Ahead(first, t), done)
      {
        if moveStep[p] != 0 {
          if moveStep[p] < runTable.Length {
            var bColor := runTable[moveStep[p]];
            HasColour(bColor);
            if COLOURS_SUM[(bColor & 7) as nat] != 0 {
              colourByte[p] := bColor & 7;
            }
          }
        }
        p := p + 1;
        if p >= SLOTS {
          p := 0;
        }
        dwSteps := dwSteps - 1;
        done := done + 1;
      }
    }

    /** Byte i of the ring: the even slot in the low nibble, three bits of colour and the step bit each. */
    predicate BytePacked(b: bv8, i: nat)
      requires Valid() && i < 32
      reads this, colourByte, halfStep
    {
      PackedByte(b, colourByte[2 * i], colourByte[2 * i + 1], halfStep[2 * i] != 0, halfStep[2 * i + 1] != 0)
    }

    method Condense()
      requires Valid()
      modifies ring
      ensures forall s :: 0 <= s < SLOTS ==> Nibble(ring[..], s) == Wanted(colourByte[s], halfStep[s] != 0)
      ensures forall i :: 0 <= i < 32 ==> BytePacked(ring[i], i)
    {
      var w := 0;
      while w < 32
        invariant w <= 32
        invariant forall i :: 0 <= i < w ==> ring[i] == Condensed(colourByte[2 * i], colourByte[2 * i + 1])
      {
        ring[w] := (colourByte[2 * w] & 7) + ((colourByte[2 * w + 1] & 7) << 4);
        w := w + 1;
      }
      w := 0;
      while w < 32
        invariant w <= 32
        invariant forall i :: w <= i < 32 ==> ring[i] == Condensed(colourByte[2 * i], colourByte[2 * i + 1])
        invariant forall i :: 0 <= i < w ==> BytePacked(ring[i], i)
      {
        AddStepBits(w);
        w := w + 1;
      }
      forall s | 0 <= s < SLOTS
        ensures Nibble(ring[..], s) == Wanted(colourByte[s], halfStep[s] != 0)
      {
        var i := s / 2;
        assert BytePacked(ring[i], i);
        PackedNibbles(ring[i], colourByte[2 * i], colourByte[2 * i + 1], halfStep[2 * i] != 0, halfStep[2 * i + 1] != 0);
      }
    }

    /** The step bits of one byte. */
    method AddStepBits(w: nat)
      requires Valid() && w < 32 && ring[w] == Condensed(colourByte[2 * w], colourByte[2 * w + 1])
      modifies ring
      ensures forall i :: 0 <= i < 32 && i != w ==> ring[i] == old(ring[i])
      ensures BytePacked(ring[w], w)
    {
      ghost var b, even, odd := ring[w], halfStep[2 * w] != 0, halfStep[2 * w + 1] != 0;
      if halfStep[2 * w] != 0 {
        ring[w] := ring[w] | 8;
      }
      if halfStep[2 * w + 1] != 0 {
        ring[w] := ring[w] | 0x80;
      }
      OrBits(b, even, odd);
      Packed(colourByte[2 * w], colourByte[2 * w + 1], even, odd);
      NibblesPacked(ring[w], colourByte[2 * w], colourByte[2 * w + 1], even, odd);
    }
  }

  lemma OrBits(b: bv8, even: bool, odd: bool)
    ensures b | (if even then 8 else 0) | (if odd then 0x80 else 0) ==
      if even then if odd then b | 8 | 0x80 else b | 8 else if odd then b | 0x80 else b
  {
  }
}
