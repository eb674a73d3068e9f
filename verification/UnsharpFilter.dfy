/**
 * The ring of three lines behind the unsharp filter of gray scans (plustek-pp_image.c:518-604,
 * 623-664, plustek-pp_p9636.c:880-893).
 *
 * The first line is stored twice and left as it is.  Every later line is stored, and what takes its
 * place is the line before, filtered.  Gray scans read straight into the user's buffer; halftone
 * scans read into a buffer of their own, and every line but the first is then processed into the
 * user's buffer.  The counter of the lines still to come makes the source store a line twice once
 * more, at the line that follows the last one.  Nothing checks that a line fits its slot: longer
 * lines run into the next slot, and from the last slot into the memory behind the buffer.
 */
module UnsharpFilter {
  import opened UnsharpMask

  const SLOT: nat := 5120

  predicate IsSlot(p: nat) {
    p == 0 || p == SLOT || p == 2 * SLOT
  }

  function Next(p: nat): (q: nat)
    requires IsSlot(p)
    ensures IsSlot(q)
  {
    if p + SLOT >= 3 * SLOT then 0 else p + SLOT
  }

  // ---- the ring, with the numbers of the lines in its slots ----

  /** The line stored last in each slot; -1 before there is one. */
  datatype Held = Held(at0: int, at1: int, at2: int) {
    function At(p: nat): int {
      if p == 0 then at0 else if p == SLOT then at1 else at2
    }

    function Store(p: nat, line: int): (h: Held)
      ensures forall q: nat :: IsSlot(p) && IsSlot(q) ==> h.At(q) == if q == p then line else At(q)
    {
      if p == 0 then this.(at0 := line) else if p == SLOT then this.(at1 := line) else this.(at2 := line)
    }
  }

  datatype Ring = Ring(held: Held, put: nat, get1: nat, get2: nat, get3: nat, left: nat) {
    predicate Valid() {
      IsSlot(put) && IsSlot(get1) && IsSlot(get2) && IsSlot(get3) && left < 0x1_0000_0000
    }

    function Copied(line: int): Ring
      requires Valid()
    {
      this.(held := held.Store(put, line), put := Next(put))
    }

    function Counted(): Ring {
      this.(left := (left - 1) % 0x1_0000_0000)
    }

    function First(): Ring
      requires Valid()
    {
      Copied(0).Copied(0).Counted()
    }

    function Later(line: int): Ring
      requires Valid()
    {
      if left == 0 then Copied(line).Copied(line).Counted() else Copied(line).Counted()
    }

    function Rotated(): Ring {
      this.(get1 := get2, get2 := get3, get3 := get1)
    }
  }

  function Start(lines: nat): Ring {
    Ring(Held(-1, -1, -1), 0, 0, SLOT, 2 * SLOT, lines)
  }

  /** The ring after so many lines, when every line is filtered. */
  function Between(lines: nat, n: nat): (r: Ring)
    requires lines < 0x1_0000_0000
    ensures r.Valid()
  {
    if n == 0 then Start(lines)
    else if n == 1 then Between(lines, 0).First()
    else Between(lines, n - 1).Later(n - 1).Rotated()
  }

  /** The ring as the filter finds it at line n. */
  function AtFilter(lines: nat, n: nat): (r: Ring)
    requires n > 0 && lines < 0x1_0000_0000
    ensures r.Valid()
  {
    Between(lines, n).Later(n)
  }

  lemma BetweenNext(lines: nat, n: nat)
    requires lines < 0x1_0000_0000
    ensures n == 0 ==> Between(lines, n + 1) == Between(lines, n).First()
    ensures n > 0 ==> Between(lines, n + 1) == AtFilter(lines, n).Rotated()
  {
  }

  /** The line that is stored twice. */
  function Limit(lines: nat): nat {
    if lines == 0 then 0x1_0000_0000 else lines
  }

  ghost predicate Consecutive(r: Ring) {
    r.Valid() && r.get2 == Next(r.get1) && r.get3 == Next(r.get2)
  }

  /** The pointers name the previous, the current and the newest line. */
  ghost predicate Aligned(r: Ring, n: nat) {
    && r.held.At(r.get1) == (if n < 2 then 0 else n - 2)
    && r.held.At(r.get2) == n - 1
    && r.held.At(r.get3) == n
  }

  /** The ring at the filter, up to the end of the picture and after it. */
  ghost predicate AsExpected(r: Ring, lines: nat, n: nat)
    requires lines < 0x1_0000_0000
  {
    && Consecutive(r) && r.left == (lines - n - 1) % 0x1_0000_0000
    && (n < Limit(lines) ==> Aligned(r, n) && r.put == r.get1)
    && (n >= Limit(lines) ==> r.held.At(r.get1) == n && r.put == r.get2)
  }

  lemma NextAsExpected(r: Ring, lines: nat, n: nat)
    requires 0 < n && n + 1 < 0x1_0000_0000 && lines < 0x1_0000_0000 && AsExpected(r, lines, n)
    ensures AsExpected(r.Rotated().Later(n + 1), lines, n + 1)
  {
    LeftIsZero(lines, n + 1);
  }

  lemma {:induction false} RingState(lines: nat, n: nat)
    requires 0 < n < 0x1_0000_0000 && lines < 0x1_0000_0000
    ensures AsExpected(AtFilter(lines, n), lines, n)
  {
    BetweenNext(lines, n - 1);
    if n > 1 {
      RingState(lines, n - 1);
      NextAsExpected(AtFilter(lines, n - 1), lines, n - 1);
    } else {
      LeftIsZero(lines, n);
    }
  }

  lemma LeftIsZero(lines: nat, n: nat)
    requires 0 < n < 0x1_0000_0000 && lines < 0x1_0000_0000
    ensures (lines - n) % 0x1_0000_0000 == 0 <==> n == Limit(lines)
    ensures ((lines - n) % 0x1_0000_0000 - 1) % 0x1_0000_0000 == (lines - n - 1) % 0x1_0000_0000
  {
  }

  /** The filter sees the right lines exactly up to the last line of the picture. */
  lemma AlignedExactly(lines: nat, n: nat)
    requires 0 < n < 0x1_0000_0000 && lines < 0x1_0000_0000
    ensures Aligned(AtFilter(lines, n), n) <==> n < Limit(lines)
  {
    RingState(lines, n);
  }

  // ---- what is delivered ----

  /** The first pixels are filtered, each from the place one to the right; the others are as they were. */
  ghost predicate FilteredTo(count: nat, out: seq<int>, was: seq<int>, prev: seq<int>, current: seq<int>, next: seq<int>)
    requires count + 2 <= |was| == |prev| == |current| == |next|
  {
    |out| == |was| &&
    forall dw :: 0 <= dw < |out| ==>
                   (out[dw] == if dw < count then Pixel(prev, current, next, dw)
                               else was[dw])
  }

  lemma OnePixel(dw: nat, out: seq<int>, was: seq<int>, prev: seq<int>, current: seq<int>, next: seq<int>)
    requires dw + 2 < |was| == |prev| == |current| == |next|
    requires FilteredTo(dw, out, was, prev, current, next)
    ensures FilteredTo(dw + 1, out[dw := Pixel(prev, current, next, dw)],
                       was, prev, current, next)
  {
  }

  /** A filtered line ends with the last two pixels of the line that was read. */
  ghost predicate Filtered(out: seq<int>, was: seq<int>, prev: seq<int>, current: seq<int>, next: seq<int>)
    requires 2 <= |was| == |prev| == |current| == |next|
  {
    FilteredTo(|was| - 2, out, was, prev, current, next)
  }

  /** What should be delivered when line n has arrived. */
  ghost predicate Delivered(out: seq<int>, lines: seq<seq<int>>, n: nat, bytes: nat, sharp: bool)
    requires n < |lines| && 2 <= bytes && forall k :: 0 <= k < |lines| ==> |lines[k]| == bytes
  {
    if n == 0 || !sharp then out == lines[n]
    else Filtered(out, lines[n], lines[if n < 2 then 0 else n - 2], lines[n - 1], lines[n])
  }

  // ---- the buffer, with the memory behind it ----

  /** What the driver has for the three slots. */
  const PROCESS_BUFSIZE: nat := 5120 * 3

  ghost predicate Reaches(size: nat, bytes: nat) {
    size >= PROCESS_BUFSIZE && size >= 2 * SLOT + bytes
  }

  ghost function Line(content: seq<int>, bytes: nat, p: nat): (r: seq<int>)
    requires Reaches(|content|, bytes) && IsSlot(p)
    ensures |r| == bytes
  {
    content[p..p + bytes]
  }

  ghost function Stored(content: seq<int>, p: nat, line: seq<int>): (r: seq<int>)
    requires p + |line| <= |content|
    ensures |r| == |content|
  {
    seq(|content|, i requires 0 <= i < |content| => if p <= i < p + |line| then line[i - p] else content[i])
  }

  /** A line of a ring is stored once or twice. */
  ghost function StoredNext(content: seq<int>, ring: Ring, line: seq<int>, twice: bool): (r: seq<int>)
    requires Reaches(|content|, |line|) && ring.Valid()
    ensures |r| == |content|
  {
    var once := Stored(content, ring.put, line);
    if twice then Stored(once, Next(ring.put), line) else once
  }

  /** The buffer after these lines, whatever their length. */
  ghost function BufferAfter(start: seq<int>, lines: seq<seq<int>>, area: nat, bytes: nat): (r: seq<int>)
    requires Reaches(|start|, bytes) && Sizes(lines, bytes) && area < 0x1_0000_0000
    ensures |r| == |start|
  {
    if lines == [] then start
    else
      var n := |lines| - 1;
      var ring := Between(area, n);
      StoredNext(BufferAfter(start, lines[..n], area, bytes), ring, lines[n], n == 0 || ring.left == 0)
  }

  ghost predicate Sizes(lines: seq<seq<int>>, bytes: nat) {
    forall k :: 0 <= k < |lines| ==> |lines[k]| == bytes
  }

  lemma BufferStep(start: seq<int>, lines: seq<seq<int>>, line: seq<int>, area: nat, bytes: nat)
    requires Reaches(|start|, bytes) && Sizes(lines, bytes) && |line| == bytes && area < 0x1_0000_0000
    ensures var n := |lines|;
      BufferAfter(start, lines + [line], area, bytes)
      == StoredNext(BufferAfter(start, lines, area, bytes), Between(area, n), line, n == 0 || Between(area, n).left == 0)
  {
    assert (lines + [line])[..|lines|] == lines;
  }

  /** One more line in ring and buffer. */
  lemma NextBuffer(content: seq<int>, ring: Ring, start: seq<int>, lines: seq<seq<int>>, line: seq<int>, area: nat, bytes: nat)
    requires Reaches(|start|, bytes) && Sizes(lines, bytes) && |line| == bytes && area < 0x1_0000_0000
    requires content == BufferAfter(start, lines, area, bytes) && ring == Between(area, |lines|)
    ensures BufferAfter(start, lines + [line], area, bytes)
         == StoredNext(content, ring, line, |lines| == 0 || ring.left == 0)
    ensures |lines| == 0 ==> Between(area, 1) == ring.First()
    ensures |lines| > 0 ==> AtFilter(area, |lines|) == ring.Later(|lines|)
  {
    BufferStep(start, lines, line, area, bytes);
    BetweenNext(area, |lines|);
  }

  /** What is made of the newest line, from what the buffer holds then. */
  ghost predicate Answers(out: seq<int>, lines: seq<seq<int>>, start: seq<int>, area: nat, bytes: nat, sharp: bool)
    requires Reaches(|start|, bytes) && Sizes(lines, bytes) && bytes >= 2 && lines != []
    requires area < 0x1_0000_0000
  {
    var n := |lines| - 1;
    if n == 0 || !sharp then out == lines[n]
    else
      var c, r := BufferAfter(start, lines, area, bytes), AtFilter(area, n);
      Filtered(out, lines[n], Line(c, bytes, r.get1), Line(c, bytes, r.get2), Line(c, bytes, r.get3))
  }

  // ---- lines that fit their slots ----

  /** A slot holds the line it is said to hold. */
  ghost predicate Shows(content: seq<int>, bytes: nat, lines: seq<seq<int>>, line: int, p: nat)
    requires Reaches(|content|, bytes) && IsSlot(p)
  {
    line >= 0 ==> line < |lines| && Line(content, bytes, p) == lines[line]
  }

  ghost predicate Pictures(content: seq<int>, bytes: nat, lines: seq<seq<int>>, held: Held)
    requires Reaches(|content|, bytes)
  {
    && Shows(content, bytes, lines, held.at0, 0)
    && Shows(content, bytes, lines, held.at1, SLOT)
    && Shows(content, bytes, lines, held.at2, 2 * SLOT)
  }

  lemma StoredLine(content: seq<int>, p: nat, line: seq<int>, q: nat)
    requires Reaches(|content|, |line|) && IsSlot(p) && IsSlot(q) && (q == p || |line| <= SLOT)
    ensures Line(Stored(content, p, line), |line|, q) == if q == p then line else Line(content, |line|, q)
  {
    assert q == p || q + SLOT <= p || p + SLOT <= q;
    var stored := Stored(content, p, line);
    forall k | 0 <= k < |line|
      ensures Line(stored, |line|, q)[k] == if q == p then line[k] else Line(content, |line|, q)[k]
    {
      LineAt(stored, |line|, q, k);
      LineAt(content, |line|, q, k);
      assert stored[q + k] == if q == p then line[k] else content[q + k];
    }
  }

  lemma LineAt(content: seq<int>, bytes: nat, p: nat, k: nat)
    requires Reaches(|content|, bytes) && IsSlot(p) && k < bytes
    ensures Line(content, bytes, p)[k] == content[p + k]
  {
  }

  /** Storing a line leaves the other slots alone. */
  ghost predicate KeepsOthers(content: seq<int>, line: seq<int>)
    requires Reaches(|content|, |line|)
  {
    forall p: nat, q: nat :: IsSlot(p) && IsSlot(q) && p != q ==>
      Line(Stored(content, p, line), |line|, q) == Line(content, |line|, q)
  }

  /** The slots hold their lines, for all contents, exactly if a line is no longer than a slot; then, and
      only then, the last slot ends with the buffer. */
  lemma SlotsHoldExactly(size: nat, bytes: nat)
    requires Reaches(size, bytes)
    ensures (forall content: seq<int>, line: seq<int> | |content| == size && |line| == bytes :: KeepsOthers(content, line))
        <==> bytes <= SLOT
    ensures 2 * SLOT + bytes <= PROCESS_BUFSIZE <==> bytes <= SLOT
  {
    if bytes <= SLOT {
      forall content: seq<int>, line: seq<int> | |content| == size && |line| == bytes
        ensures KeepsOthers(content, line)
      {
        forall p: nat, q: nat | IsSlot(p) && IsSlot(q) && p != q
          ensures Line(Stored(content, p, line), bytes, q) == Line(content, bytes, q)
        {
          StoredLine(content, p, line, q);
        }
      }
    } else {
      var content, line := seq(size, _ => 0), seq(bytes, _ => 1);
      assert Line(Stored(content, SLOT, line), bytes, 0)[SLOT] == 1 && Line(content, bytes, 0)[SLOT] == 0;
      assert !KeepsOthers(content, line);
    }
  }

  lemma StoredPictures(content: seq<int>, lines: seq<seq<int>>, held: Held, p: nat, k: nat)
    requires k < |lines| && |lines[k]| <= SLOT && Reaches(|content|, |lines[k]|) && IsSlot(p)
    requires Pictures(content, |lines[k]|, lines, held)
    ensures Pictures(Stored(content, p, lines[k]), |lines[k]|, lines, held.Store(p, k))
  {
    StoredLine(content, p, lines[k], 0);
    StoredLine(content, p, lines[k], SLOT);
    StoredLine(content, p, lines[k], 2 * SLOT);
  }

  lemma MorePictures(content: seq<int>, bytes: nat, lines: seq<seq<int>>, held: Held, line: seq<int>)
    requires Reaches(|content|, bytes) && Pictures(content, bytes, lines, held)
    ensures Pictures(content, bytes, lines + [line], held)
  {
  }

  /** The ring of line numbers says what the buffer holds. */
  ghost predicate BufferShows(start: seq<int>, lines: seq<seq<int>>, area: nat, bytes: nat)
    requires Reaches(|start|, bytes) && Sizes(lines, bytes) && area < 0x1_0000_0000
  {
    Pictures(BufferAfter(start, lines, area, bytes), bytes, lines, Between(area, |lines|).held)
  }

  lemma {:induction false} BufferAlwaysShows(start: seq<int>, lines: seq<seq<int>>, area: nat, bytes: nat)
    requires Reaches(|start|, bytes) && Sizes(lines, bytes) && area < 0x1_0000_0000 && bytes <= SLOT
    ensures BufferShows(start, lines, area, bytes)
  {
    if lines != [] {
      var before, line := lines[..|lines| - 1], lines[|lines| - 1];
      assert before + [line] == lines;
      BufferAlwaysShows(start, before, area, bytes);
      BufferShowsNext(start, before, line, area, bytes);
    }
  }

  lemma BufferShowsNext(start: seq<int>, lines: seq<seq<int>>, line: seq<int>, area: nat, bytes: nat)
    requires Reaches(|start|, bytes) && Sizes(lines, bytes) && area < 0x1_0000_0000 && |line| == bytes <= SLOT
    requires BufferShows(start, lines, area, bytes)
    ensures BufferShows(start, lines + [line], area, bytes)
  {
    BufferStep(start, lines, line, area, bytes);
    NextShows(BufferAfter(start, lines, area, bytes), lines, line, area);
  }

  lemma NextShows(content: seq<int>, lines: seq<seq<int>>, line: seq<int>, area: nat)
    requires Reaches(|content|, |line|) && area < 0x1_0000_0000 && |line| <= SLOT
    requires Pictures(content, |line|, lines, Between(area, |lines|).held)
    ensures var n, ring := |lines|, Between(area, |lines|);
      Pictures(StoredNext(content, ring, line, n == 0 || ring.left == 0), |line|, lines + [line], Between(area, n + 1).held)
  {
    var n, ring := |lines|, Between(area, |lines|);
    MorePictures(content, |line|, lines, ring.held, line);
    StoredNextPictures(content, lines + [line], ring, n, n == 0 || ring.left == 0);
    HeldNext(area, n);
  }

  lemma HeldNext(area: nat, n: nat)
    requires area < 0x1_0000_0000
    ensures var ring := Between(area, n);
      Between(area, n + 1).held == if n == 0 || ring.left == 0 then ring.Copied(n).Copied(n).held else ring.Copied(n).held
  {
    BetweenNext(area, n);
  }

  lemma StoredNextPictures(content: seq<int>, lines: seq<seq<int>>, ring: Ring, k: nat, twice: bool)
    requires k < |lines| && |lines[k]| <= SLOT && Reaches(|content|, |lines[k]|) && ring.Valid()
    requires Pictures(content, |lines[k]|, lines, ring.held)
    ensures Pictures(StoredNext(content, ring, lines[k], twice), |lines[k]|, lines,
                     if twice then ring.Copied(k).Copied(k).held else ring.Copied(k).held)
  {
    StoredPictures(content, lines, ring.held, ring.put, k);
    if twice {
      StoredPictures(Stored(content, ring.put, lines[k]), lines, ring.Copied(k).held, Next(ring.put), k);
    }
  }

  /** The three lines at the pointers when line n is filtered. */
  lemma FilterSees(content: seq<int>, bytes: nat, lines: seq<seq<int>>, r: Ring, area: nat, n: nat)
    requires Reaches(|content|, bytes) && |lines| == n + 1 && area < 0x1_0000_0000
    requires 0 < n < 0x1_0000_0000 && r == AtFilter(area, n) && Pictures(content, bytes, lines, r.held)
    ensures n < Limit(area) ==>
              && Line(content, bytes, r.get1) == lines[if n < 2 then 0 else n - 2]
              && Line(content, bytes, r.get2) == lines[n - 1]
              && Line(content, bytes, r.get3) == lines[n]
  {
    AlignedExactly(area, n);
    Look(content, bytes, lines, r.held, r.get1);
    Look(content, bytes, lines, r.held, r.get2);
    Look(content, bytes, lines, r.held, r.get3);
  }

  lemma Look(content: seq<int>, bytes: nat, lines: seq<seq<int>>, held: Held, p: nat)
    requires Reaches(|content|, bytes) && Pictures(content, bytes, lines, held) && IsSlot(p)
    ensures Shows(content, bytes, lines, held.At(p), p)
  {
  }

  /** Up to the end of the picture, what is made of a line that fits its slot is what should be. */
  lemma AnswersRight(out: seq<int>, lines: seq<seq<int>>, start: seq<int>, area: nat, bytes: nat, sharp: bool)
    requires Reaches(|start|, bytes) && Widths(lines, bytes) && lines != [] && area < 0x1_0000_0000
    requires Answers(out, lines, start, area, bytes, sharp) && |lines| - 1 < Limit(area)
    requires bytes <= SLOT || |lines| == 1 || !sharp
    ensures Delivered(out, lines, |lines| - 1, bytes, sharp)
  {
    var n := |lines| - 1;
    if n > 0 && sharp {
      BufferAlwaysShows(start, lines, area, bytes);
      BetweenNext(area, n);
      FilterSees(BufferAfter(start, lines, area, bytes), bytes, lines, AtFilter(area, n), area, n);
    }
  }

  // ---- lines that do not ----

  /** The first filtered line is right, for all pictures, exactly if its lines fit their slots. */
  lemma FirstFilteredLineExactly(start: seq<int>, area: nat, bytes: nat)
    requires Reaches(|start|, bytes) && bytes >= 2 && 2 <= area < 0x1_0000_0000
    ensures (forall out: seq<int>, lines: seq<seq<int>> |
               |lines| == 2 && Widths(lines, bytes) && Answers(out, lines, start, area, bytes, true) ::
               Delivered(out, lines, 1, bytes, true))
        <==> bytes <= SLOT
  {
    if bytes <= SLOT {
      forall out: seq<int>, lines: seq<seq<int>> |
        |lines| == 2 && Widths(lines, bytes) && Answers(out, lines, start, area, bytes, true)
        ensures Delivered(out, lines, 1, bytes, true)
      {
        AnswersRight(out, lines, start, area, bytes, true);
      }
    } else {
      var lines := [seq(bytes, _ => 100), seq(bytes, i => if i == 0 then 255 else 100)];
      var out := FilteredLine(lines, start, area, bytes);
      LongLinesGoWrong(out, lines, start, area, bytes);
    }
  }

  /** What the filter makes of the newest line. */
  lemma FilteredLine(lines: seq<seq<int>>, start: seq<int>, area: nat, bytes: nat) returns (out: seq<int>)
    requires Reaches(|start|, bytes) && Widths(lines, bytes) && |lines| == 2 && area < 0x1_0000_0000
    ensures Answers(out, lines, start, area, bytes, true)
  {
    var c, r := BufferAfter(start, lines, area, bytes), AtFilter(area, 1);
    var prev, current, next := Line(c, bytes, r.get1), Line(c, bytes, r.get2), Line(c, bytes, r.get3);
    out := seq(bytes, i requires 0 <= i < bytes =>
      if i < bytes - 2 then Pixel(prev, current, next, i) else lines[1][i]);
  }

  /** Two gray lines that differ in one pixel. */
  ghost predicate OnePixelApart(lines: seq<seq<int>>, bytes: nat) {
    && |lines| == 2 && Widths(lines, bytes)
    && forall i :: 0 <= i < bytes ==> lines[0][i] == 100 && lines[1][i] == if i == 0 then 255 else 100
  }

  /** The first pixel of the second line, stored over the end of the first, shows up next to pixel 5119. */
  lemma LongLinesGoWrong(out: seq<int>, lines: seq<seq<int>>, start: seq<int>, area: nat, bytes: nat)
    requires Reaches(|start|, bytes) && bytes > SLOT && 2 <= area < 0x1_0000_0000 && OnePixelApart(lines, bytes)
    requires Answers(out, lines, start, area, bytes, true)
    ensures out[SLOT - 2] == 97 && !Delivered(out, lines, 1, bytes, true)
  {
    var c, r := BufferAfter(start, lines, area, bytes), AtFilter(area, 1);
    LongLinesInBuffer(lines, start, area, bytes, SLOT - 2);
    assert Around100(lines[0], lines[0], lines[1], SLOT - 2, 100);
    NextToEdge(lines[0], lines[0], lines[1], SLOT - 2, 100);
    NextToEdge(Line(c, bytes, r.get1), Line(c, bytes, r.get2), Line(c, bytes, r.get3), SLOT - 2, 255);
  }

  /** Pixels of 100 all round, but for the one on the right. */
  ghost predicate Around100(prev: seq<int>, current: seq<int>, next: seq<int>, dw: nat, right: int) {
    && dw + 2 < |prev| == |current| == |next|
    && prev[dw] == prev[dw + 1] == prev[dw + 2] == 100 && next[dw] == next[dw + 1] == next[dw + 2] == 100
    && current[dw] == current[dw + 1] == 100 && current[dw + 2] == right
  }

  lemma NextToEdge(prev: seq<int>, current: seq<int>, next: seq<int>, dw: nat, right: int)
    requires Around100(prev, current, next, dw, right)
    ensures right == 100 ==> Pixel(prev, current, next, dw) == 100
    ensures right == 255 ==> Pixel(prev, current, next, dw) == 97
  {
  }

  /** What the buffer holds of two such lines around pixel dw + 1. */
  lemma LongLinesInBuffer(lines: seq<seq<int>>, start: seq<int>, area: nat, bytes: nat, dw: nat)
    requires Reaches(|start|, bytes) && bytes > SLOT && 2 <= area < 0x1_0000_0000 && dw == SLOT - 2
    requires OnePixelApart(lines, bytes)
    ensures var c, r := BufferAfter(start, lines, area, bytes), AtFilter(area, 1);
      Around100(Line(c, bytes, r.get1), Line(c, bytes, r.get2), Line(c, bytes, r.get3), dw, 255)
  {
    var a, b := lines[0], lines[1];
    TwoLinesStored(start, lines, area, bytes);
    PixelsStored(start, a, b, dw);
    PixelsStored(start, a, b, dw + 1);
    PixelsStored(start, a, b, dw + 2);
  }

  /** The first line at the first two slots, the second one at the third. */
  ghost function TwoStored(start: seq<int>, a: seq<int>, b: seq<int>): seq<int>
    requires Reaches(|start|, |a|) && |a| == |b|
  {
    Stored(Stored(Stored(start, 0, a), SLOT, a), 2 * SLOT, b)
  }

  lemma TwoLinesStored(start: seq<int>, lines: seq<seq<int>>, area: nat, bytes: nat)
    requires Reaches(|start|, bytes) && 2 <= area < 0x1_0000_0000 && |lines| == 2 && Sizes(lines, bytes)
    ensures BufferAfter(start, lines, area, bytes) == TwoStored(start, lines[0], lines[1])
    ensures var r := AtFilter(area, 1); r.get1 == 0 && r.get2 == SLOT && r.get3 == 2 * SLOT
  {
    var first := lines[..1];
    assert first == [] + [lines[0]] && lines == first + [lines[1]];
    BufferStep(start, [], lines[0], area, bytes);
    BufferStep(start, first, lines[1], area, bytes);
    BetweenNext(area, 0);
  }

  lemma PixelsStored(start: seq<int>, a: seq<int>, b: seq<int>, i: nat)
    requires Reaches(|start|, |a|) && |a| == |b| && i <= SLOT < |a|
    ensures var c := TwoStored(start, a, b);
      && Line(c, |a|, 0)[i] == (if i < SLOT then a[i] else a[0])
      && Line(c, |a|, SLOT)[i] == (if i < SLOT then a[i] else b[0])
      && Line(c, |a|, 2 * SLOT)[i] == b[i]
  {
  }

  /** Bytes of a gray line of so many units of 1/300 inch. */
  function LineBytes(width: nat, dpi: nat): nat {
    width * dpi / 300
  }

  /** The full width of 8.5 inches fits the slots up to 600 dpi. At 1200 dpi a line takes two slots, and
      the last one ends 5080 bytes behind the buffer. */
  lemma FullWidthFitsExactly(width: nat, dpi: nat)
    requires width == 2550
    ensures LineBytes(width, dpi) <= SLOT <==> dpi <= 602
    ensures dpi == 1200 ==> LineBytes(width, dpi) == 10200 && 2 * SLOT + LineBytes(width, dpi) == PROCESS_BUFSIZE + 5080
  {
  }

  class Filter {
    const buffer: array<int>
    const bytes: nat
    /** The resolution asked for is at least 600 dpi. */
    const sharp: bool
    /** Lines are read into the user's buffer. */
    const direct: bool
    /** What the processing makes of a line, given the number of lines processed before. */
    const process: (nat, seq<int>) -> seq<int>
    var put: nat
    var get1: nat
    var get2: nat
    var get3: nat
    var first: bool
    var left: nat
    var div: int
    var processed: nat
    ghost var held: Held
    /** All lines so far. */
    ghost var lines: seq<seq<int>>

    constructor (bytes: nat, sharp: bool, direct: bool, process: (nat, seq<int>) -> seq<int>, area: nat)
      requires 2 <= bytes && area < 0x1_0000_0000
      ensures Sized() && fresh(buffer) && Running(buffer[..], area) && InStep() && lines == []
      ensures this.bytes == bytes && this.sharp == sharp && this.direct == direct && this.process == process
    {
      buffer := new int[if bytes <= SLOT then PROCESS_BUFSIZE else 2 * SLOT + bytes];
      this.bytes, this.sharp, this.direct, this.process := bytes, sharp, direct, process;
      put, get1, get2, get3 := 0, 0, SLOT, 2 * SLOT;
      first, left, div := true, area, MUL;
      processed := 0;
      held, lines := Held(-1, -1, -1), [];
    }

    ghost function Now(): Ring
      reads this
    {
      Ring(held, put, get1, get2, get3, left)
    }

    ghost predicate Sized()
      reads this
    {
      && Reaches(buffer.Length, bytes) && 2 <= bytes && Now().Valid() && Sizes(lines, bytes)
    }

    ghost function Slot(p: nat): seq<int>
      requires Reaches(buffer.Length, bytes) && IsSlot(p)
      reads buffer
    {
      Line(buffer[..], bytes, p)
    }

    method Copy(image: array<int>, to: nat)
      requires Reaches(buffer.Length, bytes) && IsSlot(to) && image != buffer && image.Length == bytes
      modifies buffer
      ensures buffer[..] == Stored(old(buffer[..]), to, image[..])
    {
      forall i | 0 <= i < bytes {
        buffer[to + i] := image[i];
      }
    }

    method DoCopyBuffer(image: array<int>, ghost line: nat)
      requires Sized() && image != buffer && image.Length == bytes
      modifies this`put, this`held, buffer
      ensures Now() == old(Now()).Copied(line)
      ensures buffer[..] == Stored(old(buffer[..]), old(put), image[..])
    {
      Copy(image, put);
      held := held.Store(put, line);
      put := put + SLOT;
      if put >= 3 * SLOT { put := 0; }
    }

    method CopyFirst(image: array<int>)
      requires Sized() && image != buffer && image.Length == bytes
      modifies this`put, this`held, this`left, buffer
      ensures Now() == old(Now()).First()
      ensures buffer[..] == StoredNext(old(buffer[..]), old(Now()), image[..], true)
    {
      DoCopyBuffer(image, 0);
      DoCopyBuffer(image, 0);
      left := (left - 1) % 0x1_0000_0000;
    }

    method CopyLater(image: array<int>, ghost line: nat)
      requires Sized() && image != buffer && image.Length == bytes
      modifies this`put, this`held, this`left, buffer
      ensures Now() == old(Now()).Later(line)
      ensures buffer[..] == StoredNext(old(buffer[..]), old(Now()), image[..], old(left) == 0)
    {
      DoCopyBuffer(image, line);
      var was := left;
      left := (left - 1) % 0x1_0000_0000;
      if was == 0 { DoCopyBuffer(image, line); }
    }

    method CopyToFilterBuffer(image: array<int>) returns (go: bool)
      requires Sized() && image != buffer && image.Length == bytes && |lines| > 0
      modifies this`put, this`held, this`left, buffer
      ensures Sized() && go == !first
      ensures Now() == if first then old(Now()).First() else old(Now()).Later(|lines| - 1)
      ensures buffer[..] == StoredNext(old(buffer[..]), old(Now()), image[..], first || old(left) == 0)
    {
      go := !first;
      if first {
        CopyFirst(image);
      } else {
        CopyLater(image, |lines| - 1);
      }
    }

    method UnSharpCompare(center: int, neighbour: int, value: int) returns (newValue: int)
      modifies this`div
      ensures newValue == value - Off(center, neighbour) && div == old(div) - One(center, neighbour)
    {
      newValue := value;
      var b := if center >= neighbour then center - neighbour else neighbour - center;
      if b > OFFSET {
        newValue := newValue - neighbour;
        div := div - 1;
      }
    }

    /** The three neighbours in the line before or after. */
    method CompareRow(c: int, get: nat, dw: nat, value: int, ghost row: seq<int>) returns (newValue: int)
      requires Sized() && IsSlot(get) && dw + 2 < bytes && row == Slot(get)
      modifies this`div
      ensures newValue == value - OffOfRow(c, row, dw) && div == old(div) - OneOfRow(c, row, dw)
    {
      newValue := UnSharpCompare(c, buffer[get + dw], value);
      newValue := UnSharpCompare(c, buffer[get + dw + 1], newValue);
      newValue := UnSharpCompare(c, buffer[get + dw + 2], newValue);
    }

    /** The two neighbours in the same line. */
    method CompareSides(c: int, get: nat, dw: nat, value: int, ghost row: seq<int>) returns (newValue: int)
      requires Sized() && IsSlot(get) && dw + 2 < bytes && row == Slot(get)
      modifies this`div
      ensures newValue == value - OffOfSides(c, row, dw) && div == old(div) - OneOfSides(c, row, dw)
    {
      newValue := UnSharpCompare(c, buffer[get + dw], value);
      newValue := UnSharpCompare(c, buffer[get + dw + 2], newValue);
    }

    method Divide(value: int) returns (pixel: int)
      requires div > 0
      ensures pixel == Cut(value, div)
    {
      if value > 0 {
        var newValue := value / div;
        pixel := if newValue < 255 then newValue else 255;
      } else {
        pixel := 0;
      }
    }

    /** One pixel, from three lines in the buffer. */
    method FilterPixel(dw: nat) returns (pixel: int)
      requires Sized() && dw + 2 < bytes
      modifies this`div
      ensures pixel == Pixel(Slot(get1), Slot(get2), Slot(get3), dw)
    {
      var c := buffer[get2 + dw + 1];
      ghost var prev, current, next := Slot(get1), Slot(get2), Slot(get3);
      assert c == current[dw + 1];
      div := MUL;
      var value := CompareRow(c, get1, dw, c * MUL, prev);
      value := CompareSides(c, get2, dw, value, current);
      value := CompareRow(c, get3, dw, value, next);
      pixel := Divide(value);
    }

    method DoFilter(image: array<int>)
      requires Sized() && image != buffer && image.Length == bytes
      modifies this`div, this`get1, this`get2, this`get3, image
      ensures Now() == if sharp then old(Now()).Rotated() else old(Now())
      ensures if sharp
              then Filtered(image[..], old(image[..]), old(Slot(get1)), old(Slot(get2)), old(Slot(get3)))
              else image[..] == old(image[..])
    {
      if sharp {
        ghost var was := image[..];
        var dw: nat := 0;
        while dw < bytes - 2
          invariant dw <= bytes - 2 && Sized() && buffer[..] == old(buffer[..]) && Now() == old(Now())
          invariant FilteredTo(dw, image[..], was, Slot(get1), Slot(get2), Slot(get3))
        {
          ghost var here := image[..];
          var pixel := FilterPixel(dw);
          image[dw] := pixel;
          OnePixel(dw, here, was, Slot(get1), Slot(get2), Slot(get3));
          assert image[..] == here[dw := pixel];
          dw := dw + 1;
        }
        var first := get1;
        get1 := get2;
        get2 := get3;
        get3 := first;
      }
    }

    /** Where ring and buffer stand between two lines of a picture of so many lines. */
    ghost predicate Running(start: seq<int>, area: nat)
      reads this, buffer
    {
      && Sized() && area < 0x1_0000_0000 && |start| == buffer.Length && (lines == [] <==> first)
      && (sharp ==> Now() == Between(area, |lines|) && buffer[..] == BufferAfter(start, lines, area, bytes))
    }

    /** Ring and buffer with the newest line in them, before the filter. */
    ghost predicate Stocked(start: seq<int>, area: nat)
      reads this, buffer
    {
      && Sized() && area < 0x1_0000_0000 && |start| == buffer.Length && 1 < |lines| && !first
      && (sharp ==> Now() == AtFilter(area, |lines| - 1) && buffer[..] == BufferAfter(start, lines, area, bytes))
    }

    method Take(image: array<int>) returns (go: bool)
      requires Sized() && image != buffer && image.Length == bytes
      modifies this`put, this`held, this`left, this`lines, buffer
      ensures Sized() && go == !first && lines == old(lines) + [image[..]]
      ensures Now() == if first then old(Now()).First() else old(Now()).Later(|lines| - 1)
      ensures buffer[..] == StoredNext(old(buffer[..]), old(Now()), image[..], first || old(left) == 0)
    {
      lines := lines + [image[..]];
      go := CopyToFilterBuffer(image);
    }

    method FirstLine(image: array<int>, ghost start: seq<int>, ghost area: nat)
      requires Running(start, area) && image != buffer && image.Length == bytes && first
      modifies this, buffer
      ensures Running(start, area) && lines == [image[..]] && processed == old(processed)
    {
      ghost var ring, content, line := Now(), buffer[..], image[..];
      if sharp { NextBuffer(content, ring, start, lines, line, area, bytes); }
      assert lines + [line] == [line];
      var go := Take(image);
      assert Now() == ring.First() && buffer[..] == StoredNext(content, ring, line, true);
      first := false;
    }

    method TakeLater(image: array<int>, ghost start: seq<int>, ghost area: nat)
      requires Running(start, area) && image != buffer && image.Length == bytes && !first
      modifies this`put, this`held, this`left, this`lines, buffer
      ensures Stocked(start, area) && lines == old(lines) + [image[..]]
    {
      ghost var was, ring, content, line := lines, Now(), buffer[..], image[..];
      var go := Take(image);
      NowStocked(was, ring, content, line, start, area);
    }

    /** What storing one more line comes to. */
    lemma NowStocked(was: seq<seq<int>>, ring: Ring, content: seq<int>, line: seq<int>, start: seq<int>, area: nat)
      requires Sized() && |start| == buffer.Length == |content| && area < 0x1_0000_0000 && !first && ring.Valid()
      requires was != [] && lines == was + [line] && Sizes(was, bytes) && |line| == bytes
      requires Now() == ring.Later(|was|) && buffer[..] == StoredNext(content, ring, line, ring.left == 0)
      requires sharp ==> ring == Between(area, |was|) && content == BufferAfter(start, was, area, bytes)
      ensures Stocked(start, area)
    {
      if sharp { NextBuffer(content, ring, start, was, line, area, bytes); }
    }

    /** The filter, given that the pointers stand where they should. */
    method FilterLine(image: array<int>, ghost start: seq<int>, ghost area: nat)
      requires Stocked(start, area) && image != buffer && image.Length == bytes
      requires image[..] == lines[|lines| - 1]
      modifies this`div, this`get1, this`get2, this`get3, image
      ensures Running(start, area) && Answers(image[..], lines, start, area, bytes, sharp)
    {
      BetweenNext(area, |lines| - 1);
      DoFilter(image);
    }

    method LaterLine(image: array<int>, ghost start: seq<int>, ghost area: nat)
      requires Running(start, area) && image != buffer && image.Length == bytes && !first
      modifies this, buffer, image
      ensures Running(start, area) && lines == old(lines) + [old(image[..])] && processed == old(processed)
      ensures Answers(image[..], lines, start, area, bytes, sharp)
    {
      TakeLater(image, start, area);
      FilterLine(image, start, area);
    }

    /** Every line but the first has been processed. */
    ghost predicate InStep()
      reads this
    {
      processed == if |lines| == 0 then 0 else |lines| - 1
    }

    /** The user's buffer is the image or takes what the processing makes of it. */
    ghost predicate Fits(image: array<int>, user: array<int>) {
      && image != buffer && user != buffer && image.Length == bytes && (direct <==> user == image)
      && (!direct ==> forall k: nat, s: seq<int> :: |s| == bytes ==> |process(k, s)| == user.Length)
    }

    /** Copying a line onto itself is what is left of the processing of a direct scan. */
    method DataProcess(user: array<int>, image: array<int>)
      requires Fits(image, user)
      modifies this`processed, user
      ensures processed == old(processed) + 1
      ensures user[..] == if direct then old(image[..]) else process(old(processed), old(image[..]))
    {
      if !direct {
        var line := process(processed, image[..]);
        forall i | 0 <= i < user.Length {
          user[i] := line[i];
        }
      }
      processed := processed + 1;
    }

    method ProcessedLine(image: array<int>, user: array<int>, ghost start: seq<int>, ghost area: nat)
      requires Running(start, area) && InStep() && Fits(image, user) && !first
      modifies this, buffer, image, user
      ensures Running(start, area) && InStep() && lines == old(lines) + [old(image[..])]
      ensures Answers(image[..], lines, start, area, bytes, sharp)
      ensures user[..] == Handed(|old(lines)|, image[..], old(user[..]), direct, process)
    {
      LaterLine(image, start, area);
      ghost var line := image[..];
      Process(image, user, start, area);
      assert image[..] == line;
    }

    /** A line has been read into the image.  The first one is not processed, so that only a
        direct scan hands it over. */
    method DataIsReady(image: array<int>, user: array<int>, ghost start: seq<int>, ghost area: nat)
      requires Running(start, area) && InStep() && Fits(image, user)
      modifies this, buffer, image, user
      ensures Running(start, area) && InStep() && lines == old(lines) + [old(image[..])]
      ensures Answers(image[..], lines, start, area, bytes, sharp)
      ensures user[..] == Handed(|old(lines)|, image[..], old(user[..]), direct, process)
    {
      if first {
        FirstLine(image, start, area);
      } else {
        ProcessedLine(image, user, start, area);
      }
    }

    /** The processing does not reach the ring. */
    method Process(image: array<int>, user: array<int>, ghost start: seq<int>, ghost area: nat)
      requires Running(start, area) && Fits(image, user)
      modifies this`processed, user
      ensures Running(start, area) && processed == old(processed) + 1 && image[..] == old(image[..])
      ensures user[..] == if direct then image[..] else process(old(processed), image[..])
    {
      DataProcess(user, image);
    }
  }

  /** What the user's buffer holds after line n. */
  function Handed(n: nat, image: seq<int>, was: seq<int>, direct: bool, process: (nat, seq<int>) -> seq<int>): seq<int> {
    if direct then image else if n == 0 then was else process(n - 1, image)
  }

  // ---- a whole picture ----

  ghost predicate Widths(lines: seq<seq<int>>, bytes: nat) {
    bytes >= 2 && forall k :: 0 <= k < |lines| ==> |lines[k]| == bytes
  }

  lemma DeliveredOfPrefix(out: seq<int>, lines: seq<seq<int>>, n: nat, bytes: nat, sharp: bool)
    requires n < |lines| && Widths(lines, bytes) && Delivered(out, lines[..n + 1], n, bytes, sharp)
    ensures Delivered(out, lines, n, bytes, sharp)
  {
  }

  /** Every pixel but the last two of a filtered line, in terms of its eight neighbours. */
  lemma DeliveredPixels(out: seq<int>, lines: seq<seq<int>>, n: nat, bytes: nat, dw: nat)
    requires 0 < n < |lines| && dw + 2 < bytes && Widths(lines, bytes)
    requires Delivered(out, lines, n, bytes, true)
    ensures var prev := lines[if n < 2 then 0 else n - 2];
            && |out| == bytes && out[dw] == Sharpened(lines[n - 1][dw + 1], Around(prev, lines[n - 1], lines[n], dw))
            && out[dw] == Masked(prev, lines[n - 1], lines[n], dw)
  {
    PixelIsSharpened(lines[if n < 2 then 0 else n - 2], lines[n - 1], lines[n], dw);
    PixelIsMasked(lines[if n < 2 then 0 else n - 2], lines[n - 1], lines[n], dw);
  }

  /** Line n as it is promised to be delivered, pixel by pixel. */
  ghost predicate LineMasked(out: seq<int>, lines: seq<seq<int>>, n: nat, bytes: nat)
    requires n < |lines| && Widths(lines, bytes)
  {
    && |out| == bytes && (n == 0 ==> out == lines[0])
    && (n > 0 ==>
          && (forall dw :: 0 <= dw < bytes - 2 ==>
                out[dw] == Masked(lines[if n < 2 then 0 else n - 2], lines[n - 1], lines[n], dw))
          && out[bytes - 2] == lines[n][bytes - 2] && out[bytes - 1] == lines[n][bytes - 1])
  }

  lemma DeliveredIsMasked(out: seq<int>, lines: seq<seq<int>>, n: nat, bytes: nat)
    requires n < |lines| && Widths(lines, bytes) && Delivered(out, lines, n, bytes, true)
    ensures LineMasked(out, lines, n, bytes)
  {
    if n > 0 {
      forall dw | 0 <= dw < bytes - 2
        ensures out[dw] == Masked(lines[if n < 2 then 0 else n - 2], lines[n - 1], lines[n], dw)
      {
        DeliveredPixels(out, lines, n, bytes, dw);
      }
    }
  }

  method Fill(image: array<int>, line: seq<int>)
    requires |line| == image.Length
    modifies image
    ensures image[..] == line
  {
    forall i | 0 <= i < |line| {
      image[i] := line[i];
    }
  }

  method ReadLine(filter: Filter, image: array<int>, user: array<int>, raw: seq<seq<int>>, n: nat,
                  ghost start: seq<int>, area: nat)
    requires filter.Running(start, area) && filter.InStep() && filter.Fits(image, user)
    requires n < |raw| && filter.lines == raw[..n] && Widths(raw, filter.bytes)
    modifies filter, filter.buffer, image, user
    ensures filter.Running(start, area) && filter.InStep() && filter.lines == raw[..n + 1]
    ensures Answers(image[..], raw[..n + 1], start, area, filter.bytes, filter.sharp)
    ensures user[..] == Handed(n, image[..], old(user[..]), filter.direct, filter.process)
  {
    Fill(image, raw[n]);
    assert raw[..n] + [raw[n]] == raw[..n + 1];
    filter.DataIsReady(image, user, start, area);
  }

  /** What is made of all lines of a picture. */
  ghost predicate AllAnswered(images: seq<seq<int>>, raw: seq<seq<int>>, start: seq<int>, area: nat, bytes: nat, sharp: bool)
    requires |images| <= |raw| && Reaches(|start|, bytes) && Widths(raw, bytes) && area < 0x1_0000_0000
  {
    forall n :: 0 <= n < |images| ==> Answers(images[n], raw[..n + 1], start, area, bytes, sharp)
  }

  ghost predicate AllDelivered(out: seq<seq<int>>, raw: seq<seq<int>>, bytes: nat, sharp: bool)
    requires |out| <= |raw| && Widths(raw, bytes)
  {
    forall n :: 0 <= n < |out| ==> Delivered(out[n], raw, n, bytes, sharp)
  }

  /** The driver reads no more lines than the picture has, so that the filter always sees the right ones,
      as long as they fit their slots. */
  lemma PictureRight(images: seq<seq<int>>, raw: seq<seq<int>>, start: seq<int>, area: nat, bytes: nat, sharp: bool)
    requires Reaches(|start|, bytes) && |images| == |raw| <= area < 0x1_0000_0000 && Widths(raw, bytes)
    requires AllAnswered(images, raw, start, area, bytes, sharp) && (bytes <= SLOT || !sharp)
    ensures AllDelivered(images, raw, bytes, sharp)
  {
    forall n | 0 <= n < |images|
      ensures Delivered(images[n], raw, n, bytes, sharp)
    {
      LineRight(images[n], raw, n, start, area, bytes, sharp);
    }
  }

  lemma LineRight(image: seq<int>, raw: seq<seq<int>>, n: nat, start: seq<int>, area: nat, bytes: nat, sharp: bool)
    requires n < |raw| <= area < 0x1_0000_0000 && Reaches(|start|, bytes) && Widths(raw, bytes) && (bytes <= SLOT || !sharp)
    requires Answers(image, raw[..n + 1], start, area, bytes, sharp)
    ensures Delivered(image, raw, n, bytes, sharp)
  {
    AnswersRight(image, raw[..n + 1], start, area, bytes, sharp);
    DeliveredOfPrefix(image, raw, n, bytes, sharp);
  }

  lemma PictureMasked(images: seq<seq<int>>, raw: seq<seq<int>>, bytes: nat, sharp: bool)
    requires |images| == |raw| && Widths(raw, bytes) && AllDelivered(images, raw, bytes, sharp)
    ensures !sharp ==> images == raw
    ensures sharp ==> forall n :: 0 <= n < |raw| ==> LineMasked(images[n], raw, n, bytes)
  {
    forall n | 0 <= n < |raw|
      ensures if sharp then LineMasked(images[n], raw, n, bytes) else images[n] == raw[n]
    {
      if sharp { DeliveredIsMasked(images[n], raw, n, bytes); }
    }
  }

  /** A direct scan hands over the images; a halftone scan nothing at first, then what is made of them. */
  lemma HandedExactly(out: seq<seq<int>>, images: seq<seq<int>>, was: seq<int>, filter: Filter)
    requires AllHanded(out, images, was, filter)
    ensures filter.direct ==> out == images
    ensures !filter.direct ==>
      |out| == |images| && (images != [] ==> out[0] == was) &&
      forall n :: 1 <= n < |images| ==> out[n] == filter.process(n - 1, images[n])
  {
  }

  /** What the user gets of them. */
  ghost predicate AllHanded(out: seq<seq<int>>, images: seq<seq<int>>, was: seq<int>, filter: Filter) {
    |out| == |images| && forall n :: 0 <= n < |out| ==> out[n] == Handed(n, images[n], was, filter.direct, filter.process)
  }

  lemma OneMoreAnswered(images: seq<seq<int>>, image: seq<int>, raw: seq<seq<int>>, start: seq<int>, area: nat,
                        bytes: nat, sharp: bool)
    requires |images| < |raw| && Reaches(|start|, bytes) && Widths(raw, bytes) && area < 0x1_0000_0000
    requires AllAnswered(images, raw, start, area, bytes, sharp)
    requires Answers(image, raw[..|images| + 1], start, area, bytes, sharp)
    ensures AllAnswered(images + [image], raw, start, area, bytes, sharp)
  {
  }

  lemma OneMoreHanded(out: seq<seq<int>>, images: seq<seq<int>>, image: seq<int>, was: seq<int>, before: seq<int>,
                      filter: Filter)
    requires AllHanded(out, images, was, filter) && (out == [] ==> before == was)
    ensures AllHanded(out + [Handed(|out|, image, before, filter.direct, filter.process)], images + [image], was, filter)
  {
  }

  method ReadNext(filter: Filter, image: array<int>, user: array<int>, raw: seq<seq<int>>, ghost start: seq<int>, area: nat,
                  out: seq<seq<int>>, ghost images: seq<seq<int>>, ghost was: seq<int>)
    returns (longer: seq<seq<int>>, ghost more: seq<seq<int>>)
    requires filter.Running(start, area) && filter.InStep() && filter.Fits(image, user)
    requires |out| < |raw| && filter.lines == raw[..|out|] && Widths(raw, filter.bytes)
    requires AllHanded(out, images, was, filter) && (out == [] ==> user[..] == was)
    requires AllAnswered(images, raw, start, area, filter.bytes, filter.sharp)
    modifies filter, filter.buffer, image, user
    ensures filter.Running(start, area) && filter.InStep()
    ensures |longer| == |out| + 1 && filter.lines == raw[..|longer|] && AllHanded(longer, more, was, filter)
    ensures AllAnswered(more, raw, start, area, filter.bytes, filter.sharp)
  {
    ghost var before := user[..];
    ReadLine(filter, image, user, raw, |out|, start, area);
    OneMoreAnswered(images, image[..], raw, start, area, filter.bytes, filter.sharp);
    OneMoreHanded(out, images, image[..], was, before, filter);
    longer, more := out + [user[..]], images + [image[..]];
  }

  /** A whole picture. The first line of a halftone scan is whatever the user's buffer held before. */
  method ReadPicture(filter: Filter, image: array<int>, user: array<int>, raw: seq<seq<int>>, area: nat)
    returns (out: seq<seq<int>>, ghost images: seq<seq<int>>)
    requires filter.Running(filter.buffer[..], area) && filter.InStep() && filter.Fits(image, user)
    requires filter.lines == [] && |raw| <= area && Widths(raw, filter.bytes)
    modifies filter, filter.buffer, image, user
    ensures |images| == |raw| && AllHanded(out, images, old(user[..]), filter)
    ensures AllAnswered(images, raw, old(filter.buffer[..]), area, filter.bytes, filter.sharp)
    ensures filter.bytes <= SLOT || !filter.sharp ==> AllDelivered(images, raw, filter.bytes, filter.sharp)
    ensures !filter.sharp ==> images == raw
    ensures filter.bytes <= 5120 && filter.sharp ==>
      forall n :: 0 <= n < |raw| ==> LineMasked(images[n], raw, n, filter.bytes)
    ensures filter.direct ==> out == images
    ensures !filter.direct ==>
      |out| == |raw| && (raw != [] ==> out[0] == old(user[..])) &&
      forall n :: 1 <= n < |raw| ==> out[n] == filter.process(n - 1, images[n])
  {
    out, images := [], [];
    ghost var start, was := filter.buffer[..], user[..];
    while |out| < |raw|
      invariant |out| == |images| <= |raw| && (out == [] ==> user[..] == was)
      invariant filter.Running(start, area) && filter.InStep() && filter.lines == raw[..|out|]
      invariant AllAnswered(images, raw, start, area, filter.bytes, filter.sharp)
      invariant AllHanded(out, images, was, filter)
    {
      out, images := ReadNext(filter, image, user, raw, start, area, out, images, was);
    }
    if filter.bytes <= SLOT || !filter.sharp {
      PictureRight(images, raw, start, area, filter.bytes, filter.sharp);
      PictureMasked(images, raw, filter.bytes, filter.sharp);
    }
    HandedExactly(out, images, was, filter);
  }
}
