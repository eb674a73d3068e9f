// The colour run table of ASIC 98001: a DDA marks the motor states at which a picture line
// is exposed, once per colour with the distance of the sensor rows.

module RunTable {
  import opened Arith

  const WORD: int := 0x1_0000
  /** A quarter of the 64 scan states is left free in front. */
  const FIRST: nat := 16
  const RED: bv8 := 0x11
  const GREEN: bv8 := 0x22
  const BLUE: bv8 := 0x44

  /** A 16-bit word read as signed. */
  function Short(w: int): int {
    if w < 0x8000 then w else w - WORD
  }

  // ----- base resolution and row distances -----

  function BaseDpi(app: nat, minCmp: nat, colour: bool): nat {
    if colour && app <= minCmp then minCmp
    else if !colour && app <= 75 then 75
    else if app <= 150 then 150
    else if app <= 300 then 300
    else if app <= 600 then 600
    else 1200
  }

  /** The base never falls below a physical resolution, which is at most the one asked for and 1200 dpi. */
  lemma BaseCovers(phy: nat, app: nat, minCmp: nat, colour: bool)
    requires phy <= app && phy <= 1200 && minCmp < 0x4000
    ensures phy <= BaseDpi(app, minCmp, colour) < 0x4000
  {
  }

  /** The base is the least resolution of the table that is not below the one asked for, 1200 dpi if there
      is none; 75 dpi serves gray scans only, and a slow colour scan takes the device's own minimum. */
  lemma BaseIsLeast(app: nat, minCmp: nat, colour: bool, t: nat)
    ensures var base := BaseDpi(app, minCmp, colour);
      if colour && app <= minCmp then base == minCmp
      else
        && base in {75, 150, 300, 600, 1200} && (colour ==> base != 75)
        && (app <= 1200 ==> base >= app) && (app > 1200 ==> base == 1200)
        && (t in {75, 150, 300, 600, 1200} && t >= app && (colour ==> t != 75) ==> base <= t)
  {
  }

  /** Distance of the second and the third row, in states. */
  function Distances(base: nat, minCmp: nat, f0816: bool): (nat, nat) {
    if base == minCmp then (0, 1)
    else
      var d := match base
        case 150 => 1
        case 300 => 2
        case 600 => 4
        case _ => 8;
      if f0816 then (2 * d, 4 * d) else (d, 2 * d)
  }

  /** The rows lie as many states apart as the base is a multiple of 150 dpi, twice as many on devices with
      the wider sensor; at the device's own minimum they are taken together, or one state apart. */
  lemma DistancesAre(base: nat, minCmp: nat, f0816: bool)
    requires base in {150, 300, 600, 1200} || base == minCmp
    ensures base == minCmp ==> Distances(base, minCmp, f0816) == (0, 1)
    ensures base != minCmp ==>
      var unit := if f0816 then base / 75 else base / 150; Distances(base, minCmp, f0816) == (unit, 2 * unit)
  {
  }

  // ----- the marked states -----

  /** Lines marked in the first i states. */
  function Marks(i: nat, phy: nat, base: nat): nat
    requires base > 0
  {
    i * phy / base
  }

  /** State i is the one at which a further line is due. */
  predicate Hit(i: int, phy: nat, base: nat)
    requires base > 0
  {
    i >= 0 && Marks(i + 1, phy, base) > Marks(i, phy, base)
  }

  /** One DDA step: at most one line per state, and the test on the signed word finds it. */
  lemma StepMarks(i: nat, wDpi: nat, phy: nat, base: nat)
    requires 0 < phy <= base < 0x4000
    requires 0 < wDpi <= base && wDpi == base - i * phy + base * Marks(i, phy, base)
    ensures Hit(i, phy, base) <==> wDpi <= phy
    ensures Marks(i + 1, phy, base) == Marks(i, phy, base) + if wDpi <= phy then 1 else 0
  {
    var m := Marks(i, phy, base);
    assert (i + 1) * phy == i * phy + phy;
    if wDpi <= phy {
      Quotient((i + 1) * phy, base, m + 1, phy - wDpi);
    } else {
      Quotient((i + 1) * phy, base, m, base + phy - wDpi);
    }
  }

  /** Main result on spacing: line k (from 1) is marked at state ceil(k * base / phy) - 1. */
  lemma HitOfLine(k: nat, i: nat, phy: nat, base: nat)
    requires k >= 1 && 0 < phy <= base
    ensures (Hit(i, phy, base) && Marks(i + 1, phy, base) == k) <==> i == (k * base - 1) / phy
  {
    assert (i + 1) * phy == i * phy + phy;
    var c := (k * base - 1) / phy;
    assert k * base - 1 >= 0;
    QuotientBounds(k * base - 1, phy);
    QuotientBounds(i * phy, base);
    QuotientBounds((i + 1) * phy, base);
    var m, n := Marks(i, phy, base), Marks(i + 1, phy, base);
    if Hit(i, phy, base) && n == k {
      LineReached(i, k, phy, base);
      Quotient(k * base - 1, phy, i, k * base - 1 - phy * i);
    } else if i == c {
      LineDue(i, k, phy, base);
    }
  }

  lemma LineReached(i: nat, k: nat, phy: nat, base: nat)
    requires k >= 1 && 0 < phy <= base && Hit(i, phy, base) && Marks(i + 1, phy, base) == k
    ensures i * phy < k * base <= (i + 1) * phy
  {
    var m := Marks(i, phy, base);
    assert m + 1 <= k;
    assert base * (m + 1) <= base * k;
    assert i * phy < base * m + base;
  }

  lemma LineDue(i: nat, k: nat, phy: nat, base: nat)
    requires k >= 1 && 0 < phy <= base && i == (k * base - 1) / phy
    ensures Hit(i, phy, base) && Marks(i + 1, phy, base) == k
  {
    QuotientBounds(k * base - 1, phy);
    assert (i + 1) * phy == i * phy + phy && phy * i == i * phy && base * k == k * base;
    Quotient((i + 1) * phy, base, k, (i + 1) * phy - base * k);
    var m := Marks(i, phy, base);
    QuotientBounds(i * phy, base);
    if m >= k { ProductMonotone(k, m, base); }
  }

  /** State i, of so many, is the one at which a picture line is exposed: line k at (k * base - 1) / phy. */
  ghost predicate LineAt(i: int, states: nat, phy: nat, base: nat)
    requires phy > 0
  {
    0 <= i < states && exists k: nat :: k >= 1 && i == (k * base - 1) / phy
  }

  lemma WrittenIsLine(i: int, states: nat, phy: nat, base: nat)
    requires 0 < phy <= base
    ensures Written(i, states, phy, base) <==> LineAt(i, states, phy, base)
  {
    if Written(i, states, phy, base) {
      HitOfLine(Marks(i + 1, phy, base), i, phy, base);
    }
    if LineAt(i, states, phy, base) {
      var k: nat :| k >= 1 && i == (k * base - 1) / phy;
      HitOfLine(k, i, phy, base);
    }
  }

  // ----- the table -----

  /** The hit at state j has been written by the first n states. */
  predicate Written(j: int, n: nat, phy: nat, base: nat)
    requires base > 0
  {
    j < n && Hit(j, phy, base)
  }

  /** What entry q holds after n states: the first row's colour at the hit itself, green and
      red at the distances of their rows, together where they meet. */
  function Entry(q: int, n: nat, phy: nat, base: nat, d1: nat, d2: nat): bv8
    requires base > 0
  {
    (if Written(q - FIRST, n, phy, base) then BLUE else 0) |
    (if Written(q - FIRST - d1, n, phy, base) then GREEN else 0) |
    (if Written(q - FIRST - d2, n, phy, base) then RED else 0)
  }

  lemma OrColours(b: bool, g: bool, r: bool)
    ensures var e := (if b then BLUE else 0) | (if g then GREEN else 0) | (if r then RED else 0);
      && (e & BLUE == BLUE <==> b) && (e & GREEN == GREEN <==> g) && (e & RED == RED <==> r)
      && (e & BLUE == 0 <==> !b) && (e & GREEN == 0 <==> !g) && (e & RED == 0 <==> !r)
  {
  }

  /** An entry shows the three colours, in both nibbles, exactly where they are due. */
  ghost predicate ShowsColours(e: bv8, q: int, n: nat, phy: nat, base: nat, d1: nat, d2: nat)
    requires base > 0
  {
    && (e & BLUE == BLUE <==> Written(q - FIRST, n, phy, base)) && (e & BLUE == 0 || e & BLUE == BLUE)
    && (e & GREEN == GREEN <==> Written(q - FIRST - d1, n, phy, base)) && (e & GREEN == 0 || e & GREEN == GREEN)
    && (e & RED == RED <==> Written(q - FIRST - d2, n, phy, base)) && (e & RED == 0 || e & RED == RED)
  }

  lemma EntryBits(q: int, n: nat, phy: nat, base: nat, d1: nat, d2: nat)
    requires base > 0
    ensures ShowsColours(Entry(q, n, phy, base, d1, d2), q, n, phy, base, d1, d2)
  {
    OrColours(Written(q - FIRST, n, phy, base), Written(q - FIRST - d1, n, phy, base), Written(q - FIRST - d2, n, phy, base));
  }

  /** The entry by its bits: blue at the lines, green and red behind them, in both nibbles. */
  ghost predicate EntryInBits(e: bv8, q: int, states: nat, phy: nat, base: nat, d1: nat, d2: nat)
    requires phy > 0
  {
    && (e & 0x44 == if LineAt(q - 16, states, phy, base) then 0x44 else 0)
    && (e & 0x22 == if LineAt(q - 16 - d1, states, phy, base) then 0x22 else 0)
    && (e & 0x11 == if LineAt(q - 16 - d2, states, phy, base) then 0x11 else 0)
  }

  lemma ShownInBits(e: bv8, q: int, n: nat, phy: nat, base: nat, d1: nat, d2: nat)
    requires 0 < phy <= base && ShowsColours(e, q, n, phy, base, d1, d2)
    ensures EntryInBits(e, q, n, phy, base, d1, d2)
  {
    WrittenIsLine(q - 16, n, phy, base);
    WrittenIsLine(q - 16 - d1, n, phy, base);
    WrittenIsLine(q - 16 - d2, n, phy, base);
  }

  /** A hit at state i adds one colour at each of three entries. */
  lemma EntryStep(q: int, i: nat, phy: nat, base: nat, d1: nat, d2: nat)
    requires base > 0
    ensures Entry(q, i + 1, phy, base, d1, d2) == Entry(q, i, phy, base, d1, d2)
      | (if Hit(i, phy, base) && q == FIRST + i then BLUE else 0)
      | (if Hit(i, phy, base) && q == FIRST + i + d1 then GREEN else 0)
      | (if Hit(i, phy, base) && q == FIRST + i + d2 then RED else 0)
  {
    OrThree(Written(q - FIRST, i, phy, base), Written(q - FIRST - d1, i, phy, base), Written(q - FIRST - d2, i, phy, base),
            Hit(i, phy, base) && q == FIRST + i, Hit(i, phy, base) && q == FIRST + i + d1,
            Hit(i, phy, base) && q == FIRST + i + d2);
  }

  lemma OrThree(b: bool, g: bool, r: bool, b': bool, g': bool, r': bool)
    ensures ((if b || b' then BLUE else 0) | (if g || g' then GREEN else 0) | (if r || r' then RED else 0)) ==
      (((if b then BLUE else 0) | (if g then GREEN else 0) | (if r then RED else 0))
       | (if b' then BLUE else 0) | (if g' then GREEN else 0) | (if r' then RED else 0))
  {
  }

  /** The three marks of one line. */
  method MarkLine(table: array<bv8>, p: nat, d1: nat, d2: nat)
    requires p + d1 < table.Length && p + d2 < table.Length
    modifies table
    ensures forall q :: 0 <= q < table.Length ==>
      table[q] == old(table[q]) | (if q == p then BLUE else 0) | (if q == p + d1 then GREEN else 0)
                                | (if q == p + d2 then RED else 0)
  {
    table[p] := table[p] | BLUE;
    table[p + d1] := table[p + d1] | GREEN;
    table[p + d2] := table[p + d2] | RED;
  }

  /** The DDA word after i states. */
  ghost predicate OnTrack(wDpi: int, i: nat, phy: nat, base: nat)
    requires base > 0
  {
    0 < wDpi <= base && wDpi == base - i * phy + base * Marks(i, phy, base)
  }

  lemma SignedWord(w: int, phy: nat, base: nat)
    requires 0 < phy <= base < 0x4000 && 0 < w <= base
    ensures Short((w - phy) % WORD) <= 0 <==> w <= phy
    ensures w > phy ==> (w - phy) % WORD == w - phy
    ensures w <= phy ==> ((w - phy) % WORD + base) % WORD == w - phy + base
  {
  }

  /** One state of the DDA: subtract, test the signed word, add the base back. */
  method StepWord(w: int, ghost i: nat, phy: nat, base: nat) returns (wDpi: int, due: bool)
    requires 0 < phy <= base < 0x4000 && OnTrack(w, i, phy, base)
    ensures OnTrack(wDpi, i + 1, phy, base) && due == Hit(i, phy, base)
  {
    StepMarks(i, w, phy, base);
    SignedWord(w, phy, base);
    wDpi := (w - phy) % WORD;
    due := Short(wDpi) <= 0;
    if due {
      wDpi := (wDpi + base) % WORD;
    }
    NextSum(i, phy, base, Marks(i, phy, base), Marks(i + 1, phy, base));
  }

  /** The loop of a colour scan. */
  method MarkColour(table: array<bv8>, states: nat, phy: nat, base: nat, minCmp: nat, f0816: bool)
    requires 0 < phy <= base < 0x4000 && states + FIRST + 32 < table.Length
    modifies table
    ensures var (d1, d2) := Distances(base, minCmp, f0816);
      forall q :: 0 <= q < table.Length ==> table[q] == Entry(q, states, phy, base, d1, d2)
  {
    forall q | 0 <= q < table.Length {
      table[q] := 0;
    }
    var (d1, d2) := Distances(base, minCmp, f0816);
    var wDpi, i := base, 0;
    assert Marks(0, phy, base) == 0;
    while i < states
      invariant i <= states && OnTrack(wDpi, i, phy, base)
      invariant forall q :: 0 <= q < table.Length ==> table[q] == Entry(q, i, phy, base, d1, d2)
    {
      ghost var before := table[..];
      var due;
      wDpi, due := StepWord(wDpi, i, phy, base);
      if due {
        MarkLine(table, FIRST + i, d1, d2);
      }
      EntriesStep(before, table[..], i, phy, base, d1, d2);
      i := i + 1;
    }
  }

  /** Fills the table for a colour scan, with the base resolution taken from the one asked for. Every
      entry shows exactly the colours that are due, overlaps included, and the bit a colour scan waits
      for marks the lines. */
  method SetupColour(table: array<bv8>, states: nat, phy: nat, app: nat, minCmp: nat, f0816: bool)
    requires 0 < phy <= app && phy <= 1200 && minCmp < 0x4000 && states + FIRST + 32 < table.Length
    modifies table
    ensures var base := BaseDpi(app, minCmp, true);
      var (d1, d2) := Distances(base, minCmp, f0816);
      && phy <= base
      && (forall q :: 0 <= q < table.Length ==> ShowsColours(table[q], q, states, phy, base, d1, d2))
      && (forall q :: 0 <= q < table.Length ==> EntryInBits(table[q], q, states, phy, base, d1, d2))
      && Marked(table[..], 0x04, states, phy, base)
  {
    BaseCovers(phy, app, minCmp, true);
    var base := BaseDpi(app, minCmp, true);
    MarkColour(table, states, phy, base, minCmp, f0816);
    ghost var (d1, d2) := Distances(base, minCmp, f0816);
    ColourIsMarked(table[..], states, phy, base, d1, d2);
    forall q | 0 <= q < table.Length
      ensures ShowsColours(table[q], q, states, phy, base, d1, d2)
    {
      EntryBits(q, states, phy, base, d1, d2);
    }
    forall q | 0 <= q < table.Length
      ensures EntryInBits(table[q], q, states, phy, base, d1, d2)
    {
      ShownInBits(table[q], q, states, phy, base, d1, d2);
    }
  }

  lemma NextSum(i: nat, phy: nat, base: nat, m: nat, n: nat)
    ensures (i + 1) * phy == i * phy + phy
    ensures n == m + 1 ==> base * n == base * m + base
  {
  }

  lemma EntriesStep(before: seq<bv8>, after: seq<bv8>, i: nat, phy: nat, base: nat, d1: nat, d2: nat)
    requires base > 0 && |before| == |after|
    requires forall q :: 0 <= q < |before| ==> before[q] == Entry(q, i, phy, base, d1, d2)
    requires !Hit(i, phy, base) ==> after == before
    requires Hit(i, phy, base) ==> forall q :: 0 <= q < |after| ==>
      after[q] == before[q] | (if q == FIRST + i then BLUE else 0) | (if q == FIRST + i + d1 then GREEN else 0)
                            | (if q == FIRST + i + d2 then RED else 0)
    ensures forall q :: 0 <= q < |after| ==> after[q] == Entry(q, i + 1, phy, base, d1, d2)
  {
    forall q | 0 <= q < |after|
      ensures after[q] == Entry(q, i + 1, phy, base, d1, d2)
    {
      EntryStep(q, i, phy, base, d1, d2);
      OrZero(before[q]);
    }
  }

  lemma OrZero(b: bv8)
    ensures b | 0 | 0 | 0 == b
  {
  }

  /** The loop of a gray scan: a single mark per line. */
  method MarkGray(table: array<bv8>, states: nat, phy: nat, base: nat)
    requires 0 < phy <= base < 0x4000 && states + FIRST < table.Length
    modifies table
    ensures forall q :: 0 <= q < table.Length ==>
      table[q] == if Written(q - FIRST, states, phy, base) then GREEN else 0
  {
    forall q | 0 <= q < table.Length {
      table[q] := 0;
    }
    var wDpi, i := base, 0;
    assert Marks(0, phy, base) == 0;
    while i < states
      invariant i <= states && OnTrack(wDpi, i, phy, base)
      invariant forall q :: 0 <= q < table.Length ==>
        table[q] == if Written(q - FIRST, i, phy, base) then GREEN else 0
    {
      var due;
      wDpi, due := StepWord(wDpi, i, phy, base);
      if due {
        table[FIRST + i] := GREEN;
      }
      i := i + 1;
    }
  }

  /** Fills the table for a gray scan; the bit a gray scan waits for marks the lines. */
  method SetupGray(table: array<bv8>, states: nat, phy: nat, app: nat, minCmp: nat)
    requires 0 < phy <= app && phy <= 1200 && minCmp < 0x4000 && states + FIRST < table.Length
    modifies table
    ensures var base := BaseDpi(app, minCmp, false);
      && phy <= base
      && (forall q :: 0 <= q < table.Length ==>
            table[q] == if Written(q - FIRST, states, phy, base) then GREEN else 0)
      && (forall q :: 0 <= q < table.Length ==>
            table[q] == if LineAt(q - 16, states, phy, base) then 0x22 else 0)
      && Marked(table[..], 0x02, states, phy, base)
  {
    BaseCovers(phy, app, minCmp, false);
    var base := BaseDpi(app, minCmp, false);
    MarkGray(table, states, phy, base);
    GrayIsMarked(table[..], states, phy, base);
    forall q | 0 <= q < table.Length
      ensures table[q] == if LineAt(q - 16, states, phy, base) then 0x22 else 0
    {
      WrittenIsLine(q - 16, states, phy, base);
    }
  }

  // ----- reading the table back -----

  const GREEN_DATA_READY: bv8 := 0x02
  const BLUE_DATA_READY: bv8 := 0x04

  /** The table index of line k, counted from 1; 0 stands for the start of the search. */
  function LineIndex(k: nat, phy: nat, base: nat): nat
    requires phy > 0
  {
    if k == 0 || base == 0 then 0 else FIRST + (k * base - 1) / phy
  }

  /** The data bit of an entry is set exactly at the hits. */
  ghost predicate Marked(table: seq<bv8>, mask: bv8, states: nat, phy: nat, base: nat)
    requires base > 0
  {
    forall q :: 0 <= q < |table| ==> (table[q] & mask != 0 <==> Written(q - FIRST, states, phy, base))
  }

  lemma ColourIsMarked(table: seq<bv8>, states: nat, phy: nat, base: nat, d1: nat, d2: nat)
    requires base > 0
    requires forall q :: 0 <= q < |table| ==> table[q] == Entry(q, states, phy, base, d1, d2)
    ensures Marked(table, BLUE_DATA_READY, states, phy, base)
  {
    forall q | 0 <= q < |table|
      ensures table[q] & BLUE_DATA_READY != 0 <==> Written(q - FIRST, states, phy, base)
    {
      OrColours(Written(q - FIRST, states, phy, base), Written(q - FIRST - d1, states, phy, base),
                Written(q - FIRST - d2, states, phy, base));
      LowBit(table[q]);
      BlueReadyBit(Written(q - FIRST, states, phy, base), Written(q - FIRST - d1, states, phy, base),
                   Written(q - FIRST - d2, states, phy, base));
    }
  }

  lemma GrayIsMarked(table: seq<bv8>, states: nat, phy: nat, base: nat)
    requires base > 0
    requires forall q :: 0 <= q < |table| ==> table[q] == if Written(q - FIRST, states, phy, base) then GREEN else 0
    ensures Marked(table, GREEN_DATA_READY, states, phy, base)
  {
    GreenReadyBit();
  }

  lemma GreenReadyBit()
    ensures GREEN & GREEN_DATA_READY != 0 && 0 & GREEN_DATA_READY == 0
  {
  }

  lemma LowBit(b: bv8)
    ensures b & BLUE == BLUE ==> b & BLUE_DATA_READY != 0
  {
  }

  lemma BlueReadyBit(b: bool, g: bool, r: bool)
    ensures ((if b then BLUE else 0) | (if g then GREEN else 0) | (if r then RED else 0)) & BLUE_DATA_READY != 0 <==> b
  {
  }

  lemma NoHitBetween(k: nat, j: nat, phy: nat, base: nat)
    requires 0 < phy <= base && LineIndex(k, phy, base) < FIRST + j < LineIndex(k + 1, phy, base)
    ensures !Hit(j, phy, base)
  {
    if Hit(j, phy, base) {
      var n := Marks(j + 1, phy, base);
      assert n >= 1;
      HitOfLine(n, j, phy, base);
      if n <= k {
        IndexMonotone(n, k, phy, base);
      } else {
        IndexMonotone(k + 1, n, phy, base);
      }
      assert false;
    }
  }

  lemma IndexMonotone(m: nat, n: nat, phy: nat, base: nat)
    requires 1 <= m <= n && 0 < phy && 0 < base
    ensures LineIndex(m, phy, base) <= LineIndex(n, phy, base)
  {
    ProductMonotone(m, n, base);
    QuotientMonotone(m * base - 1, n * base - 1, phy);
  }

  lemma IndexIsHit(k: nat, phy: nat, base: nat)
    requires k >= 1 && 0 < phy <= base
    ensures var index := LineIndex(k, phy, base);
      index >= FIRST && Hit(index - FIRST, phy, base) && Marks(index - FIRST + 1, phy, base) == k
  {
    ProductMonotone(1, k, base);
    QuotientMonotone(0, k * base - 1, phy);
    HitOfLine(k, (k * base - 1) / phy, phy, base);
  }

  /** Line k + 1 is the first state with a hit after line k. */
  lemma LineAfter(k: nat, phy: nat, base: nat)
    requires 0 < phy <= base
    ensures LineIndex(k, phy, base) < LineIndex(k + 1, phy, base) && LineIndex(k + 1, phy, base) >= FIRST
    ensures Hit(LineIndex(k + 1, phy, base) - FIRST, phy, base)
  {
    IndexIsHit(k + 1, phy, base);
    if k > 0 {
      IndexIsHit(k, phy, base);
      IndexMonotone(k, k + 1, phy, base);
    }
  }

  predicate Ready(table: seq<bv8>, mask: bv8, q: nat)
    requires q < |table|
  {
    table[q] & mask != 0
  }

  /** The first entry after index with the awaited bit. */
  ghost predicate FirstAfter(table: seq<bv8>, index: nat, mask: bv8, r: nat) {
    index < r < |table| && Ready(table, mask, r) && forall q :: index < q < r ==> !Ready(table, mask, q)
  }

  /** The search for the next state with data. */
  method DataIsReady(table: array<bv8>, index: nat, mask: bv8) returns (r: nat)
    requires exists q :: index < q < table.Length && Ready(table[..], mask, q)
    ensures FirstAfter(table[..], index, mask, r)
  {
    ghost var t := table[..];
    ghost var p :| index < p < table.Length && Ready(t, mask, p);
    r := index + 1;
    while table[r] & mask == 0
      invariant index < r <= p
      invariant forall q :: index < q < r ==> !Ready(t, mask, q)
      decreases p - r
    {
      r := r + 1;
    }
  }

  /** Started at line k, the search stops at line k + 1. */
  lemma SearchFindsLine(table: seq<bv8>, mask: bv8, k: nat, states: nat, phy: nat, base: nat, r: nat)
    requires 0 < phy <= base && states + FIRST <= |table| && Marked(table, mask, states, phy, base)
    requires LineIndex(k + 1, phy, base) < states + FIRST
    requires FirstAfter(table, LineIndex(k, phy, base), mask, r)
    ensures r == LineIndex(k + 1, phy, base)
  {
    var next := LineIndex(k + 1, phy, base);
    LineAfter(k, phy, base);
    assert Ready(table, mask, next) by {
      assert Written(next - FIRST, states, phy, base);
    }
    if r < next {
      assert Written(r - FIRST, states, phy, base);
      NoHitBetween(k, r - FIRST, phy, base);
      assert false;
    }
  }

  /** Line k lies among the first states exactly if that many lines are marked there. */
  lemma LineFits(k: nat, states: nat, phy: nat, base: nat)
    requires k >= 1 && 0 < phy <= base
    ensures LineIndex(k, phy, base) < FIRST + states <==> k <= Marks(states, phy, base)
  {
    var i := LineIndex(k, phy, base) - FIRST;
    IndexIsHit(k, phy, base);
    if i < states {
      MarksMonotone(i + 1, states, phy, base);
    } else {
      MarksMonotone(states, i, phy, base);
    }
  }

  lemma MarksMonotone(m: nat, n: nat, phy: nat, base: nat)
    requires m <= n && base > 0
    ensures Marks(m, phy, base) <= Marks(n, phy, base)
  {
    ProductMonotone(m, n, phy);
    QuotientMonotone(m * phy, n * phy, base);
  }

  lemma NextLineMarked(table: seq<bv8>, mask: bv8, k: nat, states: nat, phy: nat, base: nat)
    requires 0 < phy <= base && states + FIRST <= |table| && Marked(table, mask, states, phy, base)
    requires k < Marks(states, phy, base)
    ensures var next := LineIndex(k + 1, phy, base);
      LineIndex(k, phy, base) < next < states + FIRST && Ready(table, mask, next)
  {
    LineAfter(k, phy, base);
    LineFits(k + 1, states, phy, base);
    assert Written(LineIndex(k + 1, phy, base) - FIRST, states, phy, base);
  }

  /** One search of a run. */
  method NextLine(table: array<bv8>, mask: bv8, index: nat, ghost k: nat, ghost states: nat, ghost phy: nat, ghost base: nat)
    returns (r: nat)
    requires 0 < phy <= base && states + FIRST <= table.Length && Marked(table[..], mask, states, phy, base)
    requires k < Marks(states, phy, base) && index == LineIndex(k, phy, base)
    ensures r == LineIndex(k + 1, phy, base)
  {
    NextLineMarked(table[..], mask, k, states, phy, base);
    assert Ready(table[..], mask, LineIndex(k + 1, phy, base));
    r := DataIsReady(table, index, mask);
    SearchFindsLine(table[..], mask, k, states, phy, base, r);
  }

  /** So many searches one after the other, from the start of a table: the n-th of them finds the n-th
      picture line, for as many lines as the table has. */
  method SearchLines(table: array<bv8>, mask: bv8, n: nat, ghost states: nat, ghost phy: nat, ghost base: nat)
    returns (index: nat)
    requires 0 < phy <= base && states + FIRST <= table.Length && Marked(table[..], mask, states, phy, base)
    requires n <= Marks(states, phy, base)
    ensures index == LineIndex(n, phy, base)
    ensures index == if n == 0 then 0 else 16 + (n * base - 1) / phy
  {
    index := 0;
    var k := 0;
    while k < n
      invariant k <= n && index == LineIndex(k, phy, base)
    {
      index := NextLine(table, mask, index, k, states, phy, base);
      k := k + 1;
    }
  }

  /** The marked entries among the first n. */
  ghost function Count(table: seq<bv8>, mask: bv8, n: nat): nat
    requires n <= |table|
  {
    if n == 0 then 0 else Count(table, mask, n - 1) + if table[n - 1] & mask != 0 then 1 else 0
  }

  /** A table carries floor(states * phy / base) lines. */
  lemma {:induction false} MarkedCount(table: seq<bv8>, mask: bv8, n: nat, states: nat, phy: nat, base: nat)
    requires 0 < phy <= base && n <= |table| && Marked(table, mask, states, phy, base)
    ensures n <= FIRST ==> Count(table, mask, n) == 0
    ensures FIRST <= n <= FIRST + states ==> Count(table, mask, n) == Marks(n - FIRST, phy, base)
    ensures n >= FIRST + states ==> Count(table, mask, n) == Marks(states, phy, base)
  {
    if n > 0 {
      MarkedCount(table, mask, n - 1, states, phy, base);
      assert table[n - 1] & mask != 0 <==> Written(n - 1 - FIRST, states, phy, base);
      if n > FIRST { OneMark(n - 1 - FIRST, phy, base); }
    }
  }

  /** At most one line is marked at a state. */
  lemma OneMark(i: nat, phy: nat, base: nat)
    requires 0 < phy <= base
    ensures Marks(0, phy, base) == 0
    ensures Marks(i + 1, phy, base) == Marks(i, phy, base) + if Hit(i, phy, base) then 1 else 0
  {
    MarksMonotone(i, i + 1, phy, base);
    var m := Marks(i, phy, base);
    assert (i + 1) * phy == i * phy + phy;
    QuotientBounds(i * phy, base);
    assert base * (m + 2) == base * m + base + base;
    QuotientBelow((i + 1) * phy, base, m + 2);
  }
}
