// Horizontal scaling of one line with a digital differential analyzer: every output pixel
// is the input pixel that the closed form names, in bytes and in single bits.

module ScaleX {
  import opened Arith

  const UNIT: int := 1000

  /** Input pixel of output pixel k. */
  function Source(k: nat, izoom: nat): nat {
    k * izoom / UNIT
  }

  /** How many output pixels the first i input pixels produce. */
  function Produced(i: nat, izoom: nat): nat
    requires izoom > 0
  {
    (UNIT * i + izoom - 1) / izoom
  }

  /** The DDA after k output pixels while it works on input pixel i. */
  ghost predicate OnTrack(ddax: int, k: nat, i: nat, izoom: nat) {
    ddax == izoom * k - UNIT * i
  }

  lemma NextOutput(ddax: int, k: nat, i: nat, izoom: nat)
    requires OnTrack(ddax, k, i, izoom)
    ensures OnTrack(ddax + izoom, k + 1, i, izoom)
  {
    assert izoom * (k + 1) == izoom * k + izoom;
  }

  lemma NextInput(ddax: int, k: nat, i: nat, izoom: nat)
    requires OnTrack(ddax, k, i, izoom)
    ensures OnTrack(ddax - UNIT, k, i + 1, izoom)
  {
  }

  /** While ddax is negative after taking up pixel i, pixel i is the right source. */
  lemma SourceIsCurrent(ddax: int, k: nat, i: nat, izoom: nat)
    requires OnTrack(ddax, k, i + 1, izoom) && -UNIT <= ddax < 0
    ensures Source(k, izoom) == i
  {
    assert k * izoom == izoom * k;
  }

  /** Between input pixels 0 <= ddax < izoom, so the output count is the closed form. */
  lemma CountIsProduced(ddax: int, k: nat, i: nat, izoom: nat)
    requires OnTrack(ddax, k, i, izoom) && 0 <= ddax < izoom
    ensures Produced(i, izoom) == k
  {
    Quotient(UNIT * i + izoom - 1, izoom, k, izoom - 1 - ddax);
  }

  // ----- gray and colour: step bytes per pixel -----

  /** Byte j of pixel k. */
  function Byte(k: nat, j: nat, step: nat): nat {
    k * step + j
  }

  /** Bytes of an earlier pixel lie before those of a later one. */
  lemma ByteBefore(k: nat, j: nat, x: nat, step: nat)
    requires k < x && j < step
    ensures Byte(k, j, step) < Byte(x, 0, step)
  {
    assert (k + 1) * step <= x * step;
  }

  /** The first k output pixels, as far as they fit, are the pixels the closed form names. */
  ghost predicate Scaled(o: seq<bv8>, i: seq<bv8>, app: nat, k: nat, step: nat, izoom: nat) {
    forall q, j {:trigger Byte(q, j, step)} :: 0 <= q < k && 0 <= j < step && Byte(q, j, step) < app ==>
      && Byte(q, j, step) < |o| && Byte(Source(q, izoom), j, step) < |i|
      && o[Byte(q, j, step)] == i[Byte(Source(q, izoom), j, step)]
  }

  ghost predicate CopiedPixel(before: seq<bv8>, after: seq<bv8>, input: seq<bv8>, app: nat, x: nat, i: nat, step: nat)
    requires app <= |after| == |before| && i + step <= |input|
  {
    && (forall t :: 0 <= t < |after| && (t < x || t >= x + step || t >= app) ==> after[t] == before[t])
    && (forall t :: x <= t < x + step && t < app ==> after[t] == input[t - x + i])
  }

  /** Copies one pixel, byte by byte, as far as the output line reaches. */
  method CopyPixel(inBuf: array<bv8>, outBuf: array<bv8>, app: nat, step: nat, i: nat, x: nat)
    requires inBuf != outBuf && app <= outBuf.Length && i + step <= inBuf.Length
    modifies outBuf
    ensures CopiedPixel(old(outBuf[..]), outBuf[..], inBuf[..], app, x, i, step)
  {
    var j := 0;
    while j < step
      invariant j <= step
      invariant forall t :: 0 <= t < outBuf.Length && (t < x || t >= x + j || t >= app) ==> outBuf[t] == old(outBuf[t])
      invariant forall t :: x <= t < x + j && t < app ==> outBuf[t] == inBuf[t - x + i]
    {
      if x + j < app {
        outBuf[x + j] := inBuf[i + j];
      }
      j := j + 1;
    }
  }

  /** Copying pixel p to output position k adds one scaled pixel. */
  lemma ScaledNext(before: seq<bv8>, after: seq<bv8>, input: seq<bv8>, app: nat, k: nat, p: nat, step: nat, izoom: nat)
    requires app <= |before| == |after| && Source(k, izoom) == p && Byte(p, 0, step) + step <= |input|
    requires Scaled(before, input, app, k, step, izoom)
    requires CopiedPixel(before, after, input, app, Byte(k, 0, step), Byte(p, 0, step), step)
    ensures Scaled(after, input, app, k + 1, step, izoom)
  {
    forall q, b {:trigger Byte(q, b, step)} | 0 <= q < k + 1 && 0 <= b < step && Byte(q, b, step) < app
      ensures Byte(Source(q, izoom), b, step) < |input|
      ensures after[Byte(q, b, step)] == input[Byte(Source(q, izoom), b, step)]
    {
      ByteOffset(q, b, step);
      ByteOffset(Source(q, izoom), b, step);
      if q < k {
        ByteBefore(q, b, k, step);
      }
    }
  }

  lemma ByteOffset(k: nat, j: nat, step: nat)
    ensures Byte(k, j, step) == Byte(k, 0, step) + j
  {
  }

  /** The line scaled so far, and nothing else touched. */
  ghost predicate Partly(o: seq<bv8>, was: seq<bv8>, input: seq<bv8>, app: nat, k: nat, step: nat, izoom: nat) {
    && |o| == |was| && app <= |o|
    && Scaled(o, input, app, k, step, izoom)
    && (forall t :: Byte(k, 0, step) <= t < |o| || app <= t < |o| ==> o[t] == was[t])
  }

  lemma NextByte(k: nat, step: nat)
    ensures Byte(k + 1, 0, step) == Byte(k, 0, step) + step
  {
  }

  lemma PartlyNext(before: seq<bv8>, after: seq<bv8>, was: seq<bv8>, input: seq<bv8>, app: nat, k: nat, p: nat,
                   step: nat, izoom: nat)
    requires |after| == |before| && Source(k, izoom) == p && Byte(p, 0, step) + step <= |input|
    requires Partly(before, was, input, app, k, step, izoom)
    requires CopiedPixel(before, after, input, app, Byte(k, 0, step), Byte(p, 0, step), step)
    ensures Partly(after, was, input, app, k + 1, step, izoom)
  {
    ScaledNext(before, after, input, app, k, p, step, izoom);
    NextByte(k, step);
  }

  /** The inner loop: input pixel p goes to every output position it is the source of. */
  method RepeatPixel(inBuf: array<bv8>, outBuf: array<bv8>, app: nat, step: nat, i: nat, izoom: nat,
                     x0: nat, ddax0: int, ghost was: seq<bv8>, ghost p: nat, ghost k0: nat)
    returns (x: nat, ddax: int, ghost k: nat)
    requires inBuf != outBuf && izoom > 0 && step > 0
    requires i == Byte(p, 0, step) && i + step <= inBuf.Length && x0 == Byte(k0, 0, step)
    requires OnTrack(ddax0, k0, p + 1, izoom) && -UNIT <= ddax0 < izoom
    requires Partly(outBuf[..], was, inBuf[..], app, k0, step, izoom)
    modifies outBuf
    ensures x == Byte(k, 0, step) && OnTrack(ddax, k, p + 1, izoom) && 0 <= ddax < izoom
    ensures Partly(outBuf[..], was, inBuf[..], app, k, step, izoom)
  {
    x, ddax, k := x0, ddax0, k0;
    while ddax < 0
      invariant x == Byte(k, 0, step) && OnTrack(ddax, k, p + 1, izoom) && -UNIT <= ddax < izoom
      invariant Partly(outBuf[..], was, inBuf[..], app, k, step, izoom)
      decreases -ddax
    {
      SourceIsCurrent(ddax, k, p, izoom);
      ghost var before := outBuf[..];
      CopyPixel(inBuf, outBuf, app, step, i, x);
      PartlyNext(before, outBuf[..], was, inBuf[..], app, k, p, step, izoom);
      NextByte(k, step);
      NextOutput(ddax, k, p + 1, izoom);
      x, ddax, k := x + step, ddax + izoom, k + 1;
    }
  }

  /** Output pixel k is input pixel floor(k * izoom / 1000) for every k that is produced and
      fits; the rest of the output line stays as it was. */
  method ScaleBytes(inBuf: array<bv8>, outBuf: array<bv8>, pixels: nat, app: nat, step: nat, izoom: nat)
    requires inBuf != outBuf && app <= outBuf.Length && izoom > 0 && step > 0
    requires Byte(pixels, 0, step) <= inBuf.Length
    modifies outBuf
    ensures Partly(outBuf[..], old(outBuf[..]), inBuf[..], app, Produced(pixels, izoom), step, izoom)
  {
    var ddax, x, i := 0, 0, 0;
    ghost var k, p := 0, 0;
    while i < pixels * step
      invariant p <= pixels && i == Byte(p, 0, step) && x == Byte(k, 0, step)
      invariant OnTrack(ddax, k, p, izoom) && 0 <= ddax < izoom
      invariant Partly(outBuf[..], old(outBuf[..]), inBuf[..], app, k, step, izoom)
      decreases pixels - p
    {
      PixelFits(p, pixels, step);
      NextInput(ddax, k, p, izoom);
      ddax := ddax - UNIT;
      x, ddax, k := RepeatPixel(inBuf, outBuf, app, step, i, izoom, x, ddax, old(outBuf[..]), p, k);
      i := i + step;
      p := p + 1;
    }
    AllPixels(p, pixels, step);
    CountIsProduced(ddax, k, pixels, izoom);
  }

  lemma AllPixels(p: nat, pixels: nat, step: nat)
    requires step > 0 && p <= pixels && Byte(p, 0, step) >= pixels * step
    ensures p == pixels
  {
    assert (p + 1) * step == p * step + step;
    if p < pixels { ProductMonotone(p + 1, pixels, step); }
  }

  lemma PixelFits(p: nat, pixels: nat, step: nat)
    requires p * step < pixels * step
    ensures p < pixels && Byte(p, 0, step) + step == Byte(p + 1, 0, step) <= Byte(pixels, 0, step)
  {
    assert p >= pixels ==> p * step >= pixels * step;
    assert (p + 1) * step == p * step + step;
    assert p + 1 <= pixels ==> (p + 1) * step <= pixels * step;
  }

  // ----- black and white: one bit per pixel, most significant bit first -----

  /** 1 << ((~(x & 7)) & 7) for x & 7 == pos. */
  function Mask(pos: nat): bv8 {
    match pos
    case 0 => 0x80
    case 1 => 0x40
    case 2 => 0x20
    case 3 => 0x10
    case 4 => 0x08
    case 5 => 0x04
    case 6 => 0x02
    case _ => 0x01
  }

  predicate Bit(s: seq<bv8>, k: nat)
    requires k / 8 < |s|
  {
    s[k / 8] & Mask(k % 8) != 0
  }

  lemma MaskApart(b: bv8, p: nat, q: nat)
    requires p < 8 && q < 8
    ensures (b | Mask(p)) & Mask(q) != 0 <==> p == q || b & Mask(q) != 0
  {
  }

  lemma SetBit(s: seq<bv8>, k: nat)
    requires k / 8 < |s|
    ensures var r := s[k / 8 := s[k / 8] | Mask(k % 8)];
      forall q :: 0 <= q < 8 * |s| ==> (Bit(r, q) <==> q == k || Bit(s, q))
  {
    var r := s[k / 8 := s[k / 8] | Mask(k % 8)];
    forall q | 0 <= q < 8 * |s|
      ensures Bit(r, q) <==> q == k || Bit(s, q)
    {
      MaskApart(s[k / 8], k % 8, q % 8);
    }
  }

  /** The first k output bits are scaled, the other bits of the line are zero, and the
      bytes after the line are as they were. */
  ghost predicate BitsPartly(o: seq<bv8>, was: seq<bv8>, input: seq<bv8>, app: nat, k: nat, izoom: nat) {
    && |o| == |was| && app <= |o|
    && (forall q :: 0 <= q < 8 * app ==>
          (Bit(o, q) <==> q < k && Source(q, izoom) / 8 < |input| && Bit(input, Source(q, izoom))))
    && (forall t :: app <= t < |o| ==> o[t] == was[t])
  }

  lemma BitsNext(before: seq<bv8>, after: seq<bv8>, was: seq<bv8>, input: seq<bv8>, app: nat, x: nat, i: nat, izoom: nat)
    requires BitsPartly(before, was, input, app, x, izoom) && |after| == |before|
    requires i / 8 < |input| && Source(x, izoom) == i
    requires forall q :: 0 <= q < 8 * app ==> (Bit(after, q) <==> Bit(before, q) || (q == x && Bit(input, i)))
    requires forall t :: app <= t < |after| ==> after[t] == before[t]
    ensures BitsPartly(after, was, input, app, x + 1, izoom)
  {
  }

  method CopyBit(inBuf: array<bv8>, outBuf: array<bv8>, app: nat, i: nat, x: nat, izoom: nat, ghost was: seq<bv8>)
    requires inBuf != outBuf && i / 8 < inBuf.Length && Source(x, izoom) == i
    requires BitsPartly(outBuf[..], was, inBuf[..], app, x, izoom)
    modifies outBuf
    ensures BitsPartly(outBuf[..], was, inBuf[..], app, x + 1, izoom)
  {
    ghost var before := outBuf[..];
    OrBit(outBuf, app, inBuf[i / 8] & Mask(i % 8) != 0, x);
    BitsNext(before, outBuf[..], was, inBuf[..], app, x, i, izoom);
  }

  method OrBit(outBuf: array<bv8>, app: nat, bit: bool, x: nat)
    requires app <= outBuf.Length
    modifies outBuf
    ensures forall q :: 0 <= q < 8 * app ==> (Bit(outBuf[..], q) <==> Bit(old(outBuf[..]), q) || (q == x && bit))
    ensures forall t :: app <= t < outBuf.Length ==> outBuf[t] == old(outBuf[t])
  {
    if x / 8 < app && bit {
      SetBit(outBuf[..], x);
      outBuf[x / 8] := outBuf[x / 8] | Mask(x % 8);
      assert outBuf[..] == old(outBuf[..])[x / 8 := old(outBuf[x / 8]) | Mask(x % 8)];
    }
  }

  /** How many bytes from the start of the line on the loop over n input bits reads: up to the source
      of the last bit it produces. */
  function Reach(n: nat, izoom: nat): nat
    requires izoom > 0
  {
    var k := Produced(n, izoom);
    if k == 0 then 0 else Source(k - 1, izoom) / 8 + 1
  }

  /** Output bit k is input bit floor(k * izoom / 1000) for every k produced, rest zero. The loop is
      bounded by physBytes, whatever the length of the input line is: inBuf is the line with the
      memory behind it, and reach says how much of that is read. */
  method ScaleBits(inBuf: array<bv8>, outBuf: array<bv8>, physBytes: nat, app: nat, izoom: nat)
    returns (ghost reach: nat)
    requires inBuf != outBuf && app <= outBuf.Length && physBytes <= inBuf.Length && izoom > 0
    modifies outBuf
    ensures BitsPartly(outBuf[..], old(outBuf[..]), inBuf[..], app, Produced(8 * physBytes, izoom), izoom)
    ensures reach == Reach(8 * physBytes, izoom)
  {
    ghost var was := outBuf[..];
    ClearLine(outBuf, app);
    var ddax, x, i := 0, 0, 0;
    reach := 0;
    while i < physBytes * 8
      invariant i <= physBytes * 8 && OnTrack(ddax, x, i, izoom) && 0 <= ddax < izoom
      invariant BitsPartly(outBuf[..], was, inBuf[..], app, x, izoom)
      invariant reach == if x == 0 then 0 else Source(x - 1, izoom) / 8 + 1
    {
      ddax := ddax - UNIT;
      while ddax < 0
        invariant OnTrack(ddax, x, i + 1, izoom) && -UNIT <= ddax < izoom
        invariant BitsPartly(outBuf[..], was, inBuf[..], app, x, izoom)
        invariant reach == if x == 0 then 0 else Source(x - 1, izoom) / 8 + 1
        decreases -ddax
      {
        SourceIsCurrent(ddax, x, i, izoom);
        CopyBit(inBuf, outBuf, app, i, x, izoom, was);
        reach := i / 8 + 1;
        NextOutput(ddax, x, i + 1, izoom);
        x := x + 1;
        ddax := ddax + izoom;
      }
      i := i + 1;
    }
    CountIsProduced(ddax, x, i, izoom);
  }

  method ClearLine(outBuf: array<bv8>, app: nat)
    requires app <= outBuf.Length
    modifies outBuf
    ensures forall t :: 0 <= t < outBuf.Length ==> outBuf[t] == if t < app then 0 else old(outBuf[t])
    ensures forall q :: 0 <= q < 8 * app ==> !Bit(outBuf[..], q)
  {
    forall t | 0 <= t < app {
      outBuf[t] := 0;
    }
    forall q | 0 <= q < 8 * app
      ensures !Bit(outBuf[..], q)
    {
      assert outBuf[..][q / 8] == 0;
    }
  }

  // ----- what lies behind the input line -----

  /** Output bit q, from the line with the memory behind it. */
  predicate OutBit(input: seq<bv8>, q: nat, k: nat, izoom: nat) {
    q < k && Source(q, izoom) / 8 < |input| && Bit(input, Source(q, izoom))
  }

  /** The output line of app bytes, of which k bits are produced, is the same for all memory behind
      the input line. */
  ghost predicate TailIrrelevant(line: seq<bv8>, rest: nat, app: nat, k: nat, izoom: nat) {
    forall s: seq<bv8>, t: seq<bv8>, q :: |s| == rest && |t| == rest && 0 <= q < 8 * app ==>
      OutBit(line + s, q, k, izoom) == OutBit(line + t, q, k, izoom)
  }

  lemma SourceMonotone(m: nat, n: nat, izoom: nat)
    requires m <= n
    ensures Source(m, izoom) <= Source(n, izoom)
  {
    ProductMonotone(m, n, izoom);
  }

  lemma BitOfTail(line: seq<bv8>, s: seq<bv8>, p: nat)
    requires p / 8 < |line| + |s|
    ensures p / 8 < |line| ==> Bit(line + s, p) == Bit(line, p)
    ensures p / 8 >= |line| ==> Bit(line + s, p) == (s[p / 8 - |line|] & Mask(p % 8) != 0)
  {
  }

  lemma AllOrNothing(p: nat)
    requires p < 8
    ensures 0 as bv8 & Mask(p) == 0 && 0xff & Mask(p) != 0
  {
  }

  /** The output does not depend on the memory behind the line exactly if the source of the last bit
      that is produced and fits lies inside the line. */
  lemma TailIrrelevantExactly(line: seq<bv8>, rest: nat, app: nat, k: nat, izoom: nat)
    requires k > 0 ==> Source(k - 1, izoom) / 8 < |line| + rest
    ensures var used := if k < 8 * app then k else 8 * app;
      TailIrrelevant(line, rest, app, k, izoom) <==> used == 0 || Source(used - 1, izoom) / 8 < |line|
  {
    var used := if k < 8 * app then k else 8 * app;
    if used == 0 || Source(used - 1, izoom) / 8 < |line| {
      forall s: seq<bv8>, t: seq<bv8>, q | |s| == rest && |t| == rest && 0 <= q < 8 * app
        ensures OutBit(line + s, q, k, izoom) == OutBit(line + t, q, k, izoom)
      {
        if q < k {
          SourceMonotone(q, used - 1, izoom);
          BitOfTail(line, s, Source(q, izoom));
          BitOfTail(line, t, Source(q, izoom));
        }
      }
    } else {
      var q, p := used - 1, Source(used - 1, izoom);
      var s, t := seq(rest, _ => 0 as bv8), seq(rest, _ => 0xff as bv8);
      SourceMonotone(q, k - 1, izoom);
      BitOfTail(line, s, p);
      BitOfTail(line, t, p);
      AllOrNothing(p % 8);
      assert OutBit(line + s, q, k, izoom) != OutBit(line + t, q, k, izoom);
    }
  }

  /** The output lines of two runs agree if the memory behind the input line is irrelevant. */
  lemma SameOutput(o: seq<bv8>, o': seq<bv8>, was: seq<bv8>, line: seq<bv8>, s: seq<bv8>, t: seq<bv8>,
                   app: nat, k: nat, izoom: nat)
    requires |s| == |t| && TailIrrelevant(line, |s|, app, k, izoom)
    requires BitsPartly(o, was, line + s, app, k, izoom) && BitsPartly(o', was, line + t, app, k, izoom)
    ensures o == o'
  {
    forall q | 0 <= q < 8 * app ensures Bit(o, q) == Bit(o', q) {
      assert Bit(o, q) == OutBit(line + s, q, k, izoom);
      assert Bit(o', q) == OutBit(line + t, q, k, izoom);
    }
    forall i | 0 <= i < app ensures o[i] == o'[i] {
      forall b | 0 <= b < 8 ensures (o[i] & Mask(b) != 0) == (o'[i] & Mask(b) != 0) {
        assert Bit(o, 8 * i + b) == Bit(o', 8 * i + b);
        assert (8 * i + b) / 8 == i && (8 * i + b) % 8 == b;
      }
      SameByte(o[i], o'[i]);
    }
  }

  lemma SameByte(x: bv8, y: bv8)
    requires forall b :: 0 <= b < 8 ==> ((x & Mask(b) != 0) == (y & Mask(b) != 0))
    ensures x == y
  {
    assert (x & Mask(0) != 0) == (y & Mask(0) != 0) && (x & Mask(1) != 0) == (y & Mask(1) != 0);
    assert (x & Mask(2) != 0) == (y & Mask(2) != 0) && (x & Mask(3) != 0) == (y & Mask(3) != 0);
    assert (x & Mask(4) != 0) == (y & Mask(4) != 0) && (x & Mask(5) != 0) == (y & Mask(5) != 0);
    assert (x & Mask(6) != 0) == (y & Mask(6) != 0) && (x & Mask(7) != 0) == (y & Mask(7) != 0);
  }

  /** When lines are made wider, every bit of the loop is read: the loop reads outside the line exactly
      if it is told of more bytes than the line has, and what it delivers is right all the same. */
  lemma WideningReads(line: seq<bv8>, physBytes: nat, app: nat, izoom: nat)
    requires 0 < izoom <= UNIT && app <= |line|
    ensures Reach(8 * physBytes, izoom) == physBytes
    ensures Reach(8 * physBytes, izoom) > |line| <==> physBytes > |line|
    ensures physBytes >= |line| ==> TailIrrelevant(line, physBytes - |line|, app, Produced(8 * physBytes, izoom), izoom)
  {
    AllRead(physBytes, izoom);
    if physBytes >= |line| {
      WideningRight(line, physBytes - |line|, app, Produced(8 * physBytes, izoom), izoom);
    }
  }

  lemma AllRead(physBytes: nat, izoom: nat)
    requires 0 < izoom <= UNIT
    ensures Reach(8 * physBytes, izoom) == physBytes
    ensures var k := Produced(8 * physBytes, izoom); k > 0 ==> Source(k - 1, izoom) / 8 < physBytes
  {
    if physBytes > 0 {
      LastSource(8 * physBytes, izoom);
    } else {
      Quotient(izoom - 1, izoom, 0, izoom - 1);
    }
  }

  lemma WideningRight(line: seq<bv8>, rest: nat, app: nat, k: nat, izoom: nat)
    requires izoom <= UNIT && app <= |line|
    requires k > 0 ==> Source(k - 1, izoom) / 8 < |line| + rest
    ensures TailIrrelevant(line, rest, app, k, izoom)
  {
    TailIrrelevantExactly(line, rest, app, k, izoom);
    var used := if k < 8 * app then k else 8 * app;
    if used > 0 { SourceBelow(used - 1, izoom); }
  }

  lemma SourceBelow(k: nat, izoom: nat)
    requires izoom <= UNIT
    ensures Source(k, izoom) <= k
  {
    ProductMonotone(izoom, UNIT, k);
    QuotientMonotone(k * izoom, k * UNIT, UNIT);
    MultipleDivides(UNIT, k);
  }

  /** The last bit produced comes from the last bit of the input. */
  lemma LastSource(n: nat, izoom: nat)
    requires 0 < izoom <= UNIT && n > 0
    ensures Produced(n, izoom) > 0 && Source(Produced(n, izoom) - 1, izoom) == n - 1
  {
    var k := Produced(n, izoom);
    QuotientBounds(UNIT * n + izoom - 1, izoom);
    assert izoom * (k - 1) == izoom * k - izoom && (k - 1) * izoom == izoom * (k - 1);
    Quotient((k - 1) * izoom, UNIT, n - 1, (k - 1) * izoom - UNIT * (n - 1));
  }

  /** A call the driver makes: a one-bit line of 8.5 inches at 1200 dpi, which has 1275 bytes, from a
      sensor of 600 dpi, for which the loop is told of 5100. */
  lemma LineartReadsPast(line: seq<bv8>)
    requires |line| == 1275
    ensures Reach(8 * 5100, 1000000 / 2000) == 5100 > |line|
    ensures TailIrrelevant(line, 5100 - 1275, 1275, Produced(8 * 5100, 1000000 / 2000), 1000000 / 2000)
  {
    WideningReads(line, 5100, 1275, 500);
  }

  // ----- the entry point -----

  datatype DataType = BlackWhite | Halftone | Gray256 | True24 | True48 | Unsupported

  function Step(dataType: DataType): nat {
    match dataType
    case BlackWhite => 0
    case Halftone => 0
    case Gray256 => 1
    case True24 => 3
    case True48 => 6
    case Unsupported => 99
  }

  // ----- the result in numbers -----

  /** Byte t of the output, for pixels of so many bytes. */
  predicate ByteScaled(o: seq<bv8>, was: seq<bv8>, input: seq<bv8>, app: nat, phys: nat, step: nat, izoom: nat, t: nat)
    requires t < |o| == |was| && step > 0 && izoom > 0
  {
    var k, j := t / step, t % step;
    if t < app && k < (1000 * phys + izoom - 1) / izoom then
      var source := (k * izoom / 1000) * step + j;
      0 <= source < |input| && o[t] == input[source]
    else o[t] == was[t]
  }

  lemma ByteInNumbers(o: seq<bv8>, was: seq<bv8>, input: seq<bv8>, app: nat, phys: nat, step: nat, izoom: nat, t: nat)
    requires izoom > 0 && step > 0 && t < |o| && Partly(o, was, input, app, Produced(phys, izoom), step, izoom)
    ensures ByteScaled(o, was, input, app, phys, step, izoom, t)
  {
    var k, j := t / step, t % step;
    PlaceOfByte(t, step);
    SourceInNumbers(k, j, step, izoom);
    var count := Produced(phys, izoom);
    if t >= app {
      assert o[t] == was[t];
    } else if k < count {
      assert o[t] == input[Byte(Source(k, izoom), j, step)];
    } else {
      LaterByte(count, k, j, step);
    }
  }

  lemma PlaceOfByte(t: nat, step: nat)
    requires step > 0
    ensures Byte(t / step, t % step, step) == t
  {
    var k, j := t / step, t % step;
    assert t == step * k + j && k * step == step * k;
  }

  lemma SourceInNumbers(k: nat, j: nat, step: nat, izoom: nat)
    ensures Byte(Source(k, izoom), j, step) == k * izoom / 1000 * step + j
  {
  }

  lemma LaterByte(count: nat, k: nat, j: nat, step: nat)
    requires count <= k
    ensures Byte(count, 0, step) <= Byte(k, j, step)
  {
    ProductMonotone(count, k, step);
  }

  /** Bit q of a line, the most significant bit of a byte first. */
  predicate IsSet(s: seq<bv8>, q: nat)
    requires q / 8 < |s|
  {
    (s[q / 8] >> (7 - q % 8)) & 1 == 1
  }

  lemma IsSetExactly(s: seq<bv8>, q: nat)
    requires q / 8 < |s|
    ensures IsSet(s, q) <==> Bit(s, q)
  {
    ShiftIsMask(s[q / 8], q % 8);
  }

  lemma ShiftIsMask(b: bv8, pos: nat)
    requires pos < 8
    ensures (b >> (7 - pos)) & 1 == 1 <==> b & Mask(pos) != 0
  {
    match pos
    case 0 => assert (b >> 7) & 1 == 1 <==> b & 0x80 != 0;
    case 1 => assert (b >> 6) & 1 == 1 <==> b & 0x40 != 0;
    case 2 => assert (b >> 5) & 1 == 1 <==> b & 0x20 != 0;
    case 3 => assert (b >> 4) & 1 == 1 <==> b & 0x10 != 0;
    case 4 => assert (b >> 3) & 1 == 1 <==> b & 0x08 != 0;
    case 5 => assert (b >> 2) & 1 == 1 <==> b & 0x04 != 0;
    case 6 => assert (b >> 1) & 1 == 1 <==> b & 0x02 != 0;
    case _ => assert (b >> 0) & 1 == 1 <==> b & 0x01 != 0;
  }

  /** Bit q of the output, of a line and the memory behind it. */
  predicate BitScaled(o: seq<bv8>, input: seq<bv8>, phys: nat, izoom: nat, q: nat)
    requires q / 8 < |o| && izoom > 0
  {
    IsSet(o, q) <==>
      (q < (8000 * phys + izoom - 1) / izoom && q * izoom / 1000 / 8 < |input| && IsSet(input, q * izoom / 1000))
  }

  lemma BitInNumbers(o: seq<bv8>, was: seq<bv8>, input: seq<bv8>, app: nat, phys: nat, izoom: nat, q: nat)
    requires izoom > 0 && q < 8 * app && BitsPartly(o, was, input, app, Produced(8 * phys, izoom), izoom)
    ensures BitScaled(o, input, phys, izoom, q)
  {
    IsSetExactly(o, q);
    if Source(q, izoom) / 8 < |input| { IsSetExactly(input, Source(q, izoom)); }
  }

  /** What each data type promises: one, three or six bytes a pixel, or one bit. */
  ghost predicate LineScaled(o: seq<bv8>, was: seq<bv8>, input: seq<bv8>, dataType: DataType, app: nat, phys: nat, izoom: nat)
    requires |o| == |was| && app <= |o| && izoom > 0
  {
    match dataType
    case Gray256 => forall t :: 0 <= t < |o| ==> ByteScaled(o, was, input, app, phys, 1, izoom, t)
    case True24 => forall t :: 0 <= t < |o| ==> ByteScaled(o, was, input, app, phys, 3, izoom, t)
    case True48 => forall t :: 0 <= t < |o| ==> ByteScaled(o, was, input, app, phys, 6, izoom, t)
    case Unsupported => |input| >= app && o == input[..app] + was[app..]
    case _ => (forall q :: 0 <= q < 8 * app ==> BitScaled(o, input, phys, izoom, q)) && o[app..] == was[app..]
  }

  lemma BytesInNumbers(o: seq<bv8>, was: seq<bv8>, input: seq<bv8>, app: nat, phys: nat, step: nat, izoom: nat)
    requires izoom > 0 && step > 0 && Partly(o, was, input, app, Produced(phys, izoom), step, izoom)
    ensures forall t :: 0 <= t < |o| ==> ByteScaled(o, was, input, app, phys, step, izoom, t)
  {
    forall t | 0 <= t < |o|
      ensures ByteScaled(o, was, input, app, phys, step, izoom, t)
    {
      ByteInNumbers(o, was, input, app, phys, step, izoom, t);
    }
  }

  lemma BitsInNumbers(o: seq<bv8>, was: seq<bv8>, input: seq<bv8>, app: nat, phys: nat, izoom: nat)
    requires izoom > 0 && BitsPartly(o, was, input, app, Produced(8 * phys, izoom), izoom)
    ensures forall q :: 0 <= q < 8 * app ==> BitScaled(o, input, phys, izoom, q)
    ensures o[app..] == was[app..]
  {
    forall q | 0 <= q < 8 * app
      ensures BitScaled(o, input, phys, izoom, q)
    {
      BitInNumbers(o, was, input, app, phys, izoom, q);
    }
  }

  /** XYRatio is a thousand times the ratio of the resolutions; beyond a million the zoom
      factor rounds to zero and the loop would never end. Both buffers are taken with the memory
      behind their lines: inBuf as far as the loops go, outBuf as far as app. */
  method Scale(inBuf: array<bv8>, outBuf: array<bv8>, dataType: DataType, xyRatio: nat, phys: nat, app: nat)
    requires inBuf != outBuf && app <= outBuf.Length && 1 <= xyRatio <= 1000000
    requires Step(dataType) in {1, 3, 6} ==> Byte(phys, 0, Step(dataType)) <= inBuf.Length
    requires Step(dataType) == 0 ==> phys <= inBuf.Length
    requires Step(dataType) == 99 ==> app <= inBuf.Length
    modifies outBuf
    ensures var izoom := 1000000 / xyRatio;
      match Step(dataType)
      case 0 => BitsPartly(outBuf[..], old(outBuf[..]), inBuf[..], app, Produced(8 * phys, izoom), izoom)
      case 99 => outBuf[..] == inBuf[..app] + old(outBuf[app..])
      case step => Partly(outBuf[..], old(outBuf[..]), inBuf[..], app, Produced(phys, izoom), step, izoom)
    ensures 1000000 / xyRatio > 0 &&
      LineScaled(outBuf[..], old(outBuf[..]), inBuf[..], dataType, app, phys, 1000000 / xyRatio)
  {
    ghost var was := outBuf[..];
    var izoom := 1000000 / xyRatio;
    assert izoom >= 1 by {
      QuotientBounds(1000000, xyRatio);
    }
    var step := Step(dataType);
    if step == 99 {
      forall t | 0 <= t < app {
        outBuf[t] := inBuf[t];
      }
    } else if step == 0 {
      ghost var reach := ScaleBits(inBuf, outBuf, phys, app, izoom);
      BitsInNumbers(outBuf[..], was, inBuf[..], app, phys, izoom);
    } else {
      ScaleBytes(inBuf, outBuf, phys, app, step, izoom);
      BytesInNumbers(outBuf[..], was, inBuf[..], app, phys, step, izoom);
    }
  }
}
