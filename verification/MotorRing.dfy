// The 64-slot motor program ring of ASIC 98001: the ASIC walks the ring and makes a step
// on every slot whose step bit is set, while the driver refills it from a step table.

module StepBits {
  const SLOTS: nat := 64

  /** Two slots share a byte; the odd one uses the high nibble. */
  function StepMask(slot: nat): bv8 {
    if slot % 2 == 1 then 0x80 else 0x08
  }

  predicate StepBit(ring: seq<bv8>, slot: nat)
    requires slot < SLOTS && |ring| == 32
  {
    ring[slot / 2] & StepMask(slot) != 0
  }

  /** The colour bits of a byte: everything but the two step bits. */
  function Colours(b: bv8): bv8 {
    b & 0x77
  }

  predicate SameColours(r: seq<bv8>, ring: seq<bv8>)
    requires |r| == |ring| == 32
  {
    forall i :: 0 <= i < 32 ==> Colours(r[i]) == Colours(ring[i])
  }

  lemma ByteOps(b: bv8)
    ensures (b | 0x80) & 0x80 != 0 && (b | 0x80) & 0x08 == b & 0x08 && (b | 0x80) & 0x77 == b & 0x77
    ensures (b | 0x08) & 0x08 != 0 && (b | 0x08) & 0x80 == b & 0x80 && (b | 0x08) & 0x77 == b & 0x77
    ensures (b & 0x7f) & 0x80 == 0 && (b & 0x7f) & 0x08 == b & 0x08 && (b & 0x7f) & 0x77 == b & 0x77
    ensures (b & 0xf7) & 0x08 == 0 && (b & 0xf7) & 0x80 == b & 0x80 && (b & 0xf7) & 0x77 == b & 0x77
  {
  }

  /** Replacing the byte of one slot changes that slot only, given the byte facts. */
  lemma OneSlot(ring: seq<bv8>, slot: nat, b: bv8)
    requires slot < SLOTS && |ring| == 32
    requires Colours(b) == Colours(ring[slot / 2])
    requires slot % 2 == 1 ==> b & 0x08 == ring[slot / 2] & 0x08
    requires slot % 2 == 0 ==> b & 0x80 == ring[slot / 2] & 0x80
    ensures forall k :: 0 <= k < SLOTS && k != slot ==> (StepBit(ring[slot / 2 := b], k) <==> StepBit(ring, k))
    ensures StepBit(ring[slot / 2 := b], slot) <==> b & StepMask(slot) != 0
    ensures SameColours(ring[slot / 2 := b], ring)
  {
  }
}

module MotorRing {
  import opened StepBits

  const END_MARK: int := 0xff
  /** Passed states after which the 98001 driver refills. */
  const REFILL_AFTER: nat := 40

  /** One look at the scan state register: how far the ASIC went since the last look if it was not
      standing still, whether its stop flag is seen, and whether the driver's timer runs out then.
      Once its stop flag is seen the ASIC stands still until it is refilled. */
  datatype Poll = Poll(moves: nat, stopped: bool, expired: bool)

  /** How a move ended: the last step's slot was seen, the stop flag was seen with the whole
      rest of the table loaded, the timer ran out in that situation, or no poll is left. */
  datatype Outcome = Reached | Stopped | TimedOut | Unfinished

  /** How many of the next 64 states are before the end mark at index last. */
  function Left(from: nat, last: nat): nat
    requires from <= last + SLOTS
  {
    if from >= last then 0 else if last - from < SLOTS then last - from else SLOTS
  }

  /** How many slots t lies ahead of first, walking round the ring. */
  function Ahead(first: nat, t: nat): nat
    requires first < SLOTS && t < SLOTS
  {
    if t >= first then t - first else t + SLOTS - first
  }

  lemma WrapAdd(a: nat, b: nat)
    ensures Wrap(Wrap(a) + b) == Wrap(a + b)
  {
  }

  /** The slot before the first one past the end of the table. */
  lemma LastStepSlot(origin: nat, advances: nat, last: nat)
    requires advances <= last
    ensures Wrap(Wrap(Wrap(origin + advances) + 1) + (last - advances) + 63) == Wrap(origin + last)
  {
    WrapAdd(origin + advances, 1);
    WrapAdd(origin + advances + 1, last - advances + 63);
    assert Wrap(origin + last + SLOTS) == Wrap(origin + last);
  }

  lemma WrapNext(i: nat)
    ensures Wrap(i + 1) == if Wrap(i) + 1 == SLOTS then 0 else Wrap(i) + 1
  {
  }

  /** Slot j from first on, and its successor. */
  lemma SlotAhead(first: nat, j: nat)
    requires first < SLOTS && j < SLOTS
    ensures Ahead(first, Wrap(first + j)) == j
    ensures Wrap(first + j + 1) == if Wrap(first + j) + 1 == SLOTS then 0 else Wrap(first + j) + 1
    ensures Wrap(first + j + 63) == if Wrap(first + j) == 0 then SLOTS - 1 else Wrap(first + j) - 1
  {
  }

  /** How many states were passed, from the two slots read. */
  lemma PassedStates(origin: nat, refilled: nat, advances: nat)
    requires refilled <= advances < refilled + SLOTS
    ensures var s, o := Wrap(origin + advances), Wrap(origin + refilled);
      (if s < o then s + SLOTS else s) - o == advances - refilled
  {
  }

  /** One more set slot extends the run of set slots. */
  lemma SetForNext(before: seq<bv8>, after: seq<bv8>, first: nat, j: nat)
    requires |before| == |after| == 32 && first < SLOTS && j < SLOTS && SetFor(before, first, j)
    requires forall t :: 0 <= t < SLOTS ==> (StepBit(after, t) <==> t == Wrap(first + j) || StepBit(before, t))
    ensures SetFor(after, first, j + 1)
  {
    SlotAhead(first, j);
  }

  /** The slot entered by the next advance, seen from the first slot of the last refill. */
  lemma AheadOfRefill(origin: nat, refilled: nat, advances: nat)
    requires refilled <= advances
    ensures Ahead(Wrap(Wrap(origin + refilled) + 1), Wrap(origin + advances + 1)) == (advances - refilled) % SLOTS
    ensures Wrap(origin + advances + 1) ==
      if Wrap(origin + advances) + 1 == SLOTS then 0 else Wrap(origin + advances) + 1
  {
    var d := (advances - refilled) % SLOTS;
    var first := Wrap(Wrap(origin + refilled) + 1);
    WrapAdd(origin + refilled, 1);
    WrapAdd(origin + refilled + 1, advances - refilled);
    WrapAdd(advances - refilled, first);
    SlotAhead(first, d);
    WrapNext(origin + advances);
  }

  /** The first n slots from first on have their step bit set ... */
  ghost predicate SetFor(ring: seq<bv8>, first: nat, n: nat)
    requires |ring| == 32 && first < SLOTS
  {
    forall t :: 0 <= t < SLOTS && Ahead(first, t) < n ==> StepBit(ring, t)
  }

  /** ... and no others have it. */
  ghost predicate SetOnlyFor(ring: seq<bv8>, first: nat, n: nat)
    requires |ring| == 32 && first < SLOTS
  {
    forall t :: 0 <= t < SLOTS ==> (StepBit(ring, t) <==> Ahead(first, t) < n)
  }

  function Wrap(i: nat): nat {
    i % SLOTS
  }

  /** The move program loaded by GoFullStep: last entries of 1, then 64 end marks. */
  ghost predicate Loaded(table: array<int>, last: nat)
    reads table
  {
    && last + SLOTS <= table.Length
    && (forall i :: 0 <= i < last ==> table[i] == 1)
    && (forall i :: last <= i < last + SLOTS ==> table[i] == END_MARK)
  }

  /** The variables of driver and ASIC that the protocol is about. */
  datatype View = View(program: seq<bv8>, scanState: nat, scanStateCount: nat, oldStateCount: nat,
                       fullLength: bool, state: nat, advances: nat, refilled: nat, steps: nat)

  /** The protocol's invariant between refills. `origin` is the state read when the move
      was set up, `drift` how far the ASIC went before the first refill. The ASIC's
      program steps exactly on the entries that are left. While entries are still to be
      loaded the ASIC does not lap the driver; afterwards nothing holds it, and it makes
      the steps of the loaded program again on every lap. */
  ghost predicate Protocol(v: View, last: nat, origin: nat, drift: nat) {
    && |v.program| == 32 && origin < SLOTS && drift < SLOTS
    && drift <= v.refilled <= v.advances
    && (!v.fullLength ==> v.advances < v.refilled + SLOTS)
    && (v.refilled <= last || v.refilled == drift)
    && v.scanState == v.refilled
    && v.oldStateCount == Wrap(origin + v.refilled) && v.state == Wrap(origin + v.advances)
    && SetOnlyFor(v.program, Wrap(v.oldStateCount + 1), Left(v.refilled, last))
    && v.fullLength == (Left(v.refilled, last) < SLOTS)
    && (v.fullLength ==> v.scanStateCount == Wrap(origin + End(v.refilled, last)))
    && v.steps == StepsMade(v.refilled, last, drift) + StepsOfLaps(v.advances - v.refilled, Left(v.refilled, last))
  }

  /** The state the driver waits for, given the last refill. */
  function End(refilled: nat, last: nat): nat {
    if refilled >= last then refilled else last
  }

  /** A program that makes no step. */
  ghost predicate Idle(program: seq<bv8>)
    requires |program| == 32
  {
    forall t :: 0 <= t < SLOTS ==> !StepBit(program, t)
  }

  /** One advance of the ASIC. */
  function Advanced(v: View): View
    requires |v.program| == 32 && v.state < SLOTS
  {
    var next := if v.state + 1 == SLOTS then 0 else v.state + 1;
    v.(state := next, advances := v.advances + 1, steps := if StepBit(v.program, next) then v.steps + 1 else v.steps)
  }

  /** The slot the ASIC enters next, and whether it steps there. */
  lemma NextSlot(v: View, last: nat, origin: nat, drift: nat)
    requires Protocol(v, last, origin, drift)
    ensures var next := if v.state + 1 == SLOTS then 0 else v.state + 1;
      && next == Wrap(origin + v.advances + 1)
      && (StepBit(v.program, next) <==> (v.advances - v.refilled) % SLOTS < Left(v.refilled, last))
  {
    AheadOfRefill(origin, v.refilled, v.advances);
  }

  lemma AdvanceKeeps(v: View, last: nat, origin: nat, drift: nat)
    requires Protocol(v, last, origin, drift) && (v.fullLength || v.advances + 1 < v.refilled + SLOTS)
    ensures Protocol(Advanced(v), last, origin, drift)
  {
    NextSlot(v, last, origin, drift);
    OneMoreStep(v.advances - v.refilled, Left(v.refilled, last));
  }

  /** A refill at the current state, given what it leaves in the variables. */
  lemma RefillKeeps(v: View, w: View, last: nat, origin: nat, drift: nat)
    requires |w.program| == 32 && origin < SLOTS && drift < SLOTS && drift <= v.advances
    requires v.advances <= last || v.advances == drift
    requires v.state == Wrap(origin + v.advances) && v.steps == StepsMade(v.advances, last, drift)
    requires w.state == w.oldStateCount == v.state && w.scanState == v.advances
    requires w.advances == w.refilled == v.advances && w.steps == v.steps
    requires var n, first := Left(w.scanState, last), Wrap(w.state + 1);
      && w.fullLength == (n < SLOTS)
      && w.scanStateCount == (if n < SLOTS then Wrap(first + n + 63) else first)
      && SetOnlyFor(w.program, first, n)
    ensures Protocol(w, last, origin, drift)
  {
    LastStepSlot(origin, v.advances, End(v.advances, last));
  }

  // ----- the course of a move, as far as it depends on the looks at the state register -----

  /** States passed, states passed at the last refill, whether the ASIC stands still, and how the move
      ended. */
  datatype Course = Course(advances: nat, refilled: nat, halted: bool, outcome: Outcome)

  function Start(drift: nat): Course {
    Course(drift % SLOTS, drift % SLOTS, false, Unfinished)
  }

  /** The end mark is among the entries loaded. */
  predicate Whole(refilled: nat, last: nat) {
    refilled + SLOTS > last
  }

  /** A look once the whole table is loaded: the stop flag, then the slot, then the timer. */
  function Seen(poll: Poll, advances: nat, end: nat): Outcome {
    if poll.stopped then Stopped
    else if (advances - end) % SLOTS == 0 then Reached
    else if poll.expired then TimedOut
    else Unfinished
  }

  /** A look before that. */
  predicate Refills(poll: Poll, advances: nat, refilled: nat) {
    poll.stopped || advances - refilled >= REFILL_AFTER || poll.expired
  }

  /** One look; while entries are still to be loaded the ASIC is held before it laps the driver. */
  function Looked(c: Course, poll: Poll, last: nat): Course {
    var a := if c.halted then c.advances else c.advances + poll.moves;
    var halted := c.halted || poll.stopped;
    if Whole(c.refilled, last) then Course(a, c.refilled, halted, Seen(poll, a, End(c.refilled, last)))
    else
      var held := if a >= c.refilled + SLOTS then c.refilled + SLOTS - 1 else a;
      if Refills(poll, held, c.refilled) then Course(held, held, false, Unfinished)
      else Course(held, c.refilled, halted, Unfinished)
  }

  /** Look after look, until the move has ended. */
  function Watched(c: Course, polls: seq<Poll>, last: nat): Course
    decreases |polls|
  {
    if polls == [] || c.outcome != Unfinished then c else Watched(Looked(c, polls[0], last), polls[1..], last)
  }

  /** The steps made on the program of the move. */
  function StepsOf(c: Course, last: nat, drift: nat): int {
    if c.refilled <= c.advances && c.refilled <= last + SLOTS
    then StepsMade(c.refilled, last, drift) + StepsOfLaps(c.advances - c.refilled, Left(c.refilled, last))
    else 0
  }

  lemma SlotSeen(origin: nat, advances: nat, end: nat)
    ensures Wrap(origin + advances) == Wrap(origin + end) <==> (advances - end) % SLOTS == 0
  {
  }

  // ----- which looks lead to the steps asked for -----

  /** The move ended on the last step, with the steps asked for. */
  predicate Right(c: Course, last: nat, drift: nat) {
    c.outcome == Reached && StepsOf(c, last, drift) == last - drift
  }

  /** One of the looks falls on the state that lies so many states ahead, and none in the last 64 states
      before it ends the move. */
  predicate Falls(polls: seq<Poll>, ahead: nat)
    decreases |polls|
  {
    && polls != [] && (polls[0].stopped ==> ahead >= SLOTS)
    && (polls[0].moves == ahead
        || (polls[0].moves < ahead && (polls[0].expired ==> ahead >= SLOTS)
            && Falls(polls[1..], ahead - polls[0].moves)))
  }

  /** Once the whole table is loaded, for all looks: the move ends right exactly if a look falls on the
      last step on the first lap. */
  lemma {:induction false} LoadedEndsRightExactly(c: Course, polls: seq<Poll>, last: nat, drift: nat)
    requires drift <= c.refilled <= c.advances < last && Whole(c.refilled, last) && c.outcome == Unfinished
    requires !c.halted
    ensures Right(Watched(c, polls, last), last, drift) <==> Falls(polls, last - c.advances)
    decreases |polls|
  {
    if polls != [] {
      var next := Looked(c, polls[0], last);
      if next.advances < last {
        assert next.outcome != Reached;
        if next.outcome == Unfinished { LoadedEndsRightExactly(next, polls[1..], last, drift); }
      } else if next.advances == last {
        StepsWithinLap(c.refilled, last, last, drift);
      } else {
        PassedEndsWrong(next, polls[1..], last, drift);
      }
    }
  }

  /** Once the last step is passed, a move does not end right any more. */
  lemma {:induction false} PassedEndsWrong(c: Course, polls: seq<Poll>, last: nat, drift: nat)
    requires drift <= c.refilled < last < c.advances && Whole(c.refilled, last)
    requires c.outcome == Reached ==> (c.advances - last) % SLOTS == 0
    ensures !Right(Watched(c, polls, last), last, drift)
    decreases |polls|
  {
    if polls == [] || c.outcome != Unfinished {
      if c.outcome == Reached { MadeOnce(c.advances - c.refilled, last - c.refilled); }
    } else {
      PassedEndsWrong(Looked(c, polls[0], last), polls[1..], last, drift);
    }
  }

  /** Up to 24 states before the end the looks come at most 24 states apart, and in the last 64 of these
      states neither the stop flag nor the timer is seen. */
  predicate InTime(polls: seq<Poll>, ahead: nat)
    decreases |polls|
  {
    polls == [] || ahead <= 24 ||
    (&& polls[0].moves <= 24 && (polls[0].stopped || polls[0].expired ==> ahead >= SLOTS)
     && InTime(polls[1..], ahead - polls[0].moves))
  }

  /** The same for a whole move, from its start on. With such looks the ASIC never has to be held, and
      wherever it stands still it is set going again. */
  lemma {:induction false} EndsRightExactly(c: Course, polls: seq<Poll>, last: nat, drift: nat)
    requires drift <= c.refilled <= c.advances < last && c.outcome == Unfinished && !c.halted
    requires InTime(polls, last - c.advances)
    requires Whole(c.refilled, last) || c.advances < c.refilled + REFILL_AFTER
    ensures Right(Watched(c, polls, last), last, drift) <==> Falls(polls, last - c.advances)
    decreases |polls|
  {
    if Whole(c.refilled, last) {
      LoadedEndsRightExactly(c, polls, last, drift);
    } else if polls != [] {
      EndsRightExactly(Looked(c, polls[0], last), polls[1..], last, drift);
    }
  }

  /** States between the first and the last look. */
  function Total(polls: seq<Poll>): nat {
    if polls == [] then 0 else polls[0].moves + Total(polls[1..])
  }

  /** The looks come at most one state apart, and in the last 64 states before the end neither the stop flag
      nor the timer is seen. */
  predicate Close(polls: seq<Poll>, ahead: nat)
    decreases |polls|
  {
    polls == [] || ahead == 0 ||
    (&& polls[0].moves <= 1 && (polls[0].stopped || polls[0].expired ==> ahead >= 64)
     && Close(polls[1..], ahead - polls[0].moves))
  }

  /** Such looks miss nothing. */
  lemma {:induction false} EveryStateIsSeen(polls: seq<Poll>, ahead: nat)
    requires Close(polls, ahead) && 0 < ahead <= Total(polls)
    ensures Falls(polls, ahead) && InTime(polls, ahead)
    decreases |polls|
  {
    if polls[0].moves < ahead {
      EveryStateIsSeen(polls[1..], ahead - polls[0].moves);
    }
  }

  /** Looks one state apart, long enough: the move ends right, with steps for all of its dwStep - drift
      entries, however often the ASIC stops before the last 64 states. */
  lemma CloseLooksEndRight(polls: seq<Poll>, last: nat, drift: nat)
    requires drift % 64 < last <= drift % 64 + Total(polls) && Close(polls, last - drift % 64)
    ensures var c := Watched(Start(drift), polls, last);
      c.outcome == Reached && c.advances == last && StepsOf(c, last, drift % 64) == last - drift % 64
  {
    EveryStateIsSeen(polls, last - drift % SLOTS);
    EndsRightExactly(Start(drift), polls, last, drift % SLOTS);
    EndsOnLast(Start(drift), polls, last);
  }

  /** Where a look falls on the last step, the move ends there. */
  lemma {:induction false} EndsOnLast(c: Course, polls: seq<Poll>, last: nat)
    requires c.refilled <= c.advances < last && c.outcome == Unfinished && !c.halted
    requires InTime(polls, last - c.advances) && Falls(polls, last - c.advances)
    requires Whole(c.refilled, last) || c.advances < c.refilled + REFILL_AFTER
    ensures Watched(c, polls, last).advances == last
    decreases |polls|
  {
    var next := Looked(c, polls[0], last);
    if next.advances < last { EndsOnLast(next, polls[1..], last); }
  }

  /** A stop flag seen while entries are left to load costs nothing: the look refills, and the move goes on. */
  lemma StopIsHarmless(polls: seq<Poll>, last: nat)
    requires |polls| == 2 && last == 200 && polls[0] == Poll(10, true, false) && polls[1] == Poll(60, false, false)
    ensures var c := Watched(Start(0), polls, last);
      c.advances == c.refilled == 70 && c.outcome == Unfinished && !c.halted && StepsOf(c, last, 0) == 70
  {
    var c1 := Looked(Start(0), polls[0], last);
    assert c1 == Course(10, 10, false, Unfinished);
    WatchedStep(Start(0), polls, last);
    WatchedStep(c1, polls[1..], last);
    assert polls[1..][1..] == [];
  }

  /** A move of ten steps, looked at after 11, 32, 53 and 74 states: the first look misses the last step by
      one state, and the sensor makes twenty. */
  lemma WalkedTwice(polls: seq<Poll>, last: nat)
    requires |polls| == 4 && last == 10 && polls[0] == Poll(11, false, false)
    requires forall i :: 1 <= i < 4 ==> polls[i] == Poll(21, false, false)
    ensures var c := Watched(Start(0), polls, last);
      c.outcome == Reached && c.advances == 74 && StepsOf(c, last, 0) == 20
  {
    var c1 := Looked(Start(0), polls[0], last);
    var c2 := Looked(c1, polls[1], last);
    var c3 := Looked(c2, polls[2], last);
    var c4 := Looked(c3, polls[3], last);
    assert c1 == Course(11, 0, false, Unfinished) && c2 == Course(32, 0, false, Unfinished);
    assert c3 == Course(53, 0, false, Unfinished) && c4 == Course(74, 0, false, Reached);
    SecondLap(74, last);
    WatchedStep(Start(0), polls, last);
    WatchedStep(c1, polls[1..], last);
    WatchedStep(c2, polls[2..], last);
    WatchedStep(c3, polls[3..], last);
    assert polls[1..][1..] == polls[2..] && polls[2..][1..] == polls[3..] && polls[3..][1..] == [];
  }

  lemma WatchedStep(c: Course, polls: seq<Poll>, last: nat)
    requires polls != [] && c.outcome == Unfinished
    ensures Watched(c, polls, last) == Watched(Looked(c, polls[0], last), polls[1..], last)
  {
  }

  /** The steps of the second lap. */
  lemma {:induction false} SecondLap(states: nat, n: nat)
    requires SLOTS <= states <= 2 * SLOTS && n <= SLOTS
    ensures StepsOfLaps(states, n) == n + if states - SLOTS < n then states - SLOTS else n
  {
    if states == SLOTS {
      FirstLap(states, n);
    } else {
      SecondLap(states - 1, n);
    }
  }

  class Motor {
    // the driver's variables
    const ring: array<bv8>          // a_nbNewAdrPointer
    const table: array<int>         // pColorRunTable
    var scanState: nat              // pScanState, as an index into the table
    var scanStateCount: nat         // dwScanStateCount
    var oldStateCount: nat          // bOldStateCount
    var fullLength: bool            // fFullLength
    // the ASIC: its copy of the ring and its current state
    var program: seq<bv8>
    var state: nat
    var halted: bool
    // history since the driver read the state for the current move: states passed, states
    // passed at the last refill, steps the motor made on the program of this move, and steps
    // it made on the program before while this one was set up
    var advances: nat
    var refilled: nat
    var steps: nat
    var strays: nat

    ghost predicate Valid()
      reads this
    {
      && ring.Length == 32 && |program| == 32 && ring as object != table
      && scanStateCount < SLOTS && oldStateCount < SLOTS && state < SLOTS
    }

    constructor (entries: nat)
      ensures Valid() && fresh(ring) && fresh(table) && table.Length == entries
    {
      ring := new bv8[32];
      table := new int[entries];
      program := seq(32, _ => 0);
      scanState, scanStateCount, oldStateCount, state := 0, 0, 0, 0;
      fullLength, halted := false, false;
    }

    method SetSlot(dw: nat)
      requires Valid() && dw < SLOTS
      modifies ring
      ensures forall t :: 0 <= t < SLOTS ==> (StepBit(ring[..], t) <==> t == dw || StepBit(old(ring[..]), t))
      ensures SameColours(ring[..], old(ring[..]))
    {
      ByteOps(ring[dw / 2]);
      OneSlot(ring[..], dw, ring[dw / 2] | StepMask(dw));
      ring[dw / 2] := ring[dw / 2] | StepMask(dw);
      assert ring[..] == old(ring[..])[dw / 2 := old(ring[dw / 2]) | StepMask(dw)];
    }

    method ClearSlot(dw: nat)
      requires Valid() && dw < SLOTS
      modifies ring
      ensures forall t :: 0 <= t < SLOTS ==> (StepBit(ring[..], t) <==> t != dw && StepBit(old(ring[..]), t))
      ensures SameColours(ring[..], old(ring[..]))
    {
      var mask := if dw % 2 == 1 then 0x7f else 0xf7;
      ByteOps(ring[dw / 2]);
      OneSlot(ring[..], dw, ring[dw / 2] & mask);
      ring[dw / 2] := ring[dw / 2] & mask;
      assert ring[..] == old(ring[..])[dw / 2 := old(ring[dw / 2]) & mask];
    }

    /** Sets the step bit of slot scanStateCount and goes on to the next slot. */
    method SetCurrent(ghost first: nat, ghost j: nat)
      requires Valid() && first < SLOTS && j < SLOTS && scanStateCount == Wrap(first + j)
      requires SetFor(ring[..], first, j)
      modifies this`scanStateCount, ring
      ensures Valid() && scanStateCount == Wrap(first + j + 1)
      ensures SetFor(ring[..], first, j + 1)
      ensures SameColours(ring[..], old(ring[..]))
    {
      SetSlot(scanStateCount);
      SetForNext(old(ring[..]), ring[..], first, j);
      SlotAhead(first, j);
      scanStateCount := scanStateCount + 1;
      if scanStateCount == SLOTS {
        scanStateCount := 0;
      }
    }

    /** The next 64 slots step exactly on the entries before the end mark. */
    method FillBackLoop(ghost last: nat)
      requires Valid()
      requires scanState <= last + SLOTS && scanState + Left(scanState, last) < table.Length
      requires forall i :: scanState <= i < last && i < table.Length ==> table[i] != END_MARK
      requires Left(scanState, last) < SLOTS ==> table[scanState + Left(scanState, last)] == END_MARK
      modifies this`scanStateCount, this`fullLength, this`program, ring
      ensures Valid()
      ensures |program| == 32
      ensures var n, first := Left(scanState, last), old(scanStateCount);
        && fullLength == (n < SLOTS)
        && scanStateCount == (if n < SLOTS then Wrap(first + n + 63) else first)
        && SetOnlyFor(program, first, n)
      ensures SameColours(program, old(ring[..]))
      ensures forall i :: 0 <= i < 32 ==> program[i] & 0x77 == old(ring[i]) & 0x77
    {
      ghost var n, first := Left(scanState, last), scanStateCount;
      var p, dwStates := scanState, SLOTS;
      ghost var j := 0;
      fullLength := false;
      while dwStates > 0 && !fullLength
        invariant dwStates + j == SLOTS && j <= n && program == old(program)
        invariant p == scanState + j
        invariant !fullLength ==> scanStateCount == Wrap(first + j)
        invariant !fullLength ==> SetFor(ring[..], first, j)
        invariant fullLength ==> j == n && n < SLOTS && scanStateCount == Wrap(first + n + 63)
        invariant fullLength ==> SetOnlyFor(ring[..], first, n)
        invariant SameColours(ring[..], old(ring[..]))
        decreases dwStates, !fullLength
      {
        if table[p] == END_MARK {
          assert j == n;
          ClearRest(scanStateCount, dwStates, first, j);
          SlotAhead(first, j);
          if scanStateCount == 0 {
            scanStateCount := SLOTS;
          }
          scanStateCount := scanStateCount - 1;
          fullLength := true;
        } else {
          assert j < n;
          SetCurrent(first, j);
          p, dwStates := p + 1, dwStates - 1;
          j := j + 1;
        }
      }
      program := ring[..];
    }

    /** The inner loop at the end mark: the remaining slots lose their step bits. */
    method ClearRest(from: nat, states: nat, ghost first: nat, ghost done: nat)
      requires Valid() && first < SLOTS && states + done == SLOTS && 0 < states && from == Wrap(first + done)
      requires SetFor(ring[..], first, done)
      modifies ring
      ensures SetOnlyFor(ring[..], first, done)
      ensures SameColours(ring[..], old(ring[..]))
    {
      var dw, dwStates := from, states;
      ghost var j := done;
      while dwStates > 0
        invariant dwStates + j == SLOTS && dw == Wrap(first + j) && done <= j
        invariant forall t :: 0 <= t < SLOTS && Ahead(first, t) < j ==> (StepBit(ring[..], t) <==> Ahead(first, t) < done)
        invariant SameColours(ring[..], old(ring[..]))
      {
        SlotAhead(first, j);
        ClearSlot(dw);
        dw, dwStates := (dw + 1) % SLOTS, dwStates - 1;
        j := j + 1;
      }
    }

    ghost function Now(): View
      reads this
    {
      View(program, scanState, scanStateCount, oldStateCount, fullLength, state, advances, refilled, steps)
    }

    ghost predicate Running(last: nat, origin: nat, drift: nat)
      reads this, table
    {
      Valid() && Loaded(table, last) && Protocol(Now(), last, origin, drift)
    }

    /** The ASIC moves on by some states; while entries are still to be loaded it does not lap the driver. */
    method Walk(moves: nat, ghost last: nat, ghost origin: nat, ghost drift: nat)
      requires Running(last, origin, drift) && (fullLength || advances + moves < refilled + SLOTS)
      modifies this`state, this`advances, this`steps
      ensures Running(last, origin, drift) && advances == old(advances) + moves
    {
      var n := 0;
      while n < moves
        invariant n <= moves && advances == old(advances) + n
        invariant Running(last, origin, drift) && fullLength == old(fullLength) && refilled == old(refilled)
      {
        Advance(last, origin, drift);
        n := n + 1;
      }
    }

    method Advance(ghost last: nat, ghost origin: nat, ghost drift: nat)
      requires Running(last, origin, drift) && (fullLength || advances + 1 < refilled + SLOTS)
      modifies this`state, this`advances, this`steps
      ensures Running(last, origin, drift) && advances == old(advances) + 1
    {
      AdvanceKeeps(Now(), last, origin, drift);
      state := if state + 1 == SLOTS then 0 else state + 1;
      advances := advances + 1;
      if StepBit(program, state) {
        steps := steps + 1;
      }
      assert Now() == Advanced(old(Now()));
    }

    /** Counts the states passed since the last refill and refills from there. */
    method FillRunNewAdrPointer1(ghost last: nat, ghost origin: nat, ghost drift: nat)
      requires Running(last, origin, drift) && !fullLength
      modifies this`scanState, this`scanStateCount, this`oldStateCount, this`fullLength, this`program, this`halted, ring,
        this`refilled
      ensures Running(last, origin, drift)
      ensures refilled == advances <= last && !halted
      ensures SameColours(program, old(ring[..]))
    {
      ghost var v := Now();
      PassedStates(origin, refilled, advances);
      StepsWithinLap(refilled, advances, last, drift);
      Refill(last);
      refilled := advances;
      RefillKeeps(v, Now(), last, origin, drift);
    }

    method Refill(ghost last: nat)
      requires Valid() && Loaded(table, last)
      requires scanState + (if state < oldStateCount then state + SLOTS else state) - oldStateCount < last + SLOTS
      modifies this`scanState, this`scanStateCount, this`oldStateCount, this`fullLength, this`program, this`halted, ring
      ensures Valid()
      ensures oldStateCount == state && !halted
      ensures scanState == old(scanState)
        + (if state < old(oldStateCount) then state + SLOTS else state) - old(oldStateCount)
      ensures var n, first := Left(scanState, last), Wrap(state + 1);
        && fullLength == (n < SLOTS)
        && scanStateCount == (if n < SLOTS then Wrap(first + n + 63) else first)
        && SetOnlyFor(program, first, n)
      ensures SameColours(program, old(ring[..]))
    {
      var bStep := state;
      if bStep < oldStateCount {
        bStep := bStep + SLOTS;
      }
      bStep := bStep - oldStateCount;
      scanState := scanState + bStep;
      oldStateCount := state;
      scanStateCount := (state + 1) % SLOTS;
      FillBackLoop(last);
      halted := false;
    }

    method Load(dwStep: nat)
      requires Valid() && dwStep + SLOTS <= table.Length
      modifies table
      ensures Loaded(table, dwStep)
    {
      forall i | 0 <= i < dwStep {
        table[i] := 1;
      }
      forall i | dwStep <= i < dwStep + SLOTS {
        table[i] := END_MARK;
      }
    }

    /** The ASIC still walks the program it had before. */
    method Drift(moves: nat)
      requires Valid()
      modifies this`state, this`advances, this`steps, this`strays
      ensures Valid() && state == Wrap(old(state) + moves) && advances == moves && steps == 0
      ensures strays <= moves && (Idle(program) ==> strays == 0)
    {
      advances, steps, strays := 0, 0, 0;
      while advances < moves
        invariant strays <= advances <= moves && steps == 0
        invariant state < SLOTS && state == Wrap(old(state) + advances)
        invariant Idle(program) ==> strays == 0
      {
        WrapNext(old(state) + advances);
        state := if state + 1 == SLOTS then 0 else state + 1;
        if StepBit(program, state) {
          strays := strays + 1;
        }
        advances := advances + 1;
      }
    }

    /** The whole table is loaded, and the steps made are the ones asked for exactly if the ASIC has gone
        through the loaded rest once and not begun it again. */
    ghost predicate Ended(last: nat, drift: nat)
      reads this
    {
      && fullLength && refilled <= advances
      && (drift <= last ==> refilled <= last)
      && (drift <= last ==> (steps == last - drift <==> refilled == last || last <= advances <= refilled + SLOTS))
    }

    lemma EndedExactly(last: nat, origin: nat, drift: nat)
      requires Running(last, origin, drift) && fullLength
      ensures Ended(last, drift)
    {
      if drift <= last { MadeOnce(advances - refilled, Left(refilled, last)); }
    }

    /** The ASIC is in the slot of the last step: it made the steps asked for exactly if there was nothing
        left to do or it came here for the first time. */
    ghost predicate OnLastSlot(last: nat, drift: nat)
      reads this
    {
      drift <= last ==> (steps == last - drift <==> refilled == last || advances == last)
    }

    lemma LastSlotExactly(last: nat, origin: nat, drift: nat)
      requires Running(last, origin, drift) && fullLength && state == scanStateCount
      ensures OnLastSlot(last, drift)
    {
      EndedExactly(last, origin, drift);
      if drift <= last { SameSlot(origin, refilled, advances, last); }
    }

    /** What the driver has read and done so far, apart from slots and bits. */
    function Progress(outcome: Outcome): Course
      reads this
    {
      Course(advances, refilled, halted, outcome)
    }

    /** The look at the state register once the whole table is loaded. */
    method CheckEnd(poll: Poll, ghost last: nat, ghost origin: nat, ghost drift: nat) returns (outcome: Outcome)
      requires Running(last, origin, drift) && fullLength
      ensures Ended(last, drift) && (outcome == Reached ==> OnLastSlot(last, drift))
      ensures outcome == Seen(poll, advances, End(refilled, last))
      ensures outcome == Stopped <==> poll.stopped
      ensures outcome == Reached <==> !poll.stopped && state == scanStateCount
      ensures outcome == TimedOut <==> !poll.stopped && state != scanStateCount && poll.expired
    {
      EndedExactly(last, origin, drift);
      SlotSeen(origin, advances, End(refilled, last));
      if poll.stopped {
        return Stopped;
      }
      if state == scanStateCount {
        LastSlotExactly(last, origin, drift);
        return Reached;
      }
      if poll.expired {
        return TimedOut;
      }
      outcome := Unfinished;
    }

    /** Up to the refill, if there is one. */
    method CheckRefill(poll: Poll, ghost last: nat, ghost origin: nat, ghost drift: nat)
      requires Running(last, origin, drift) && !fullLength
      modifies this, ring
      ensures Running(last, origin, drift) && strays == old(strays) && advances == old(advances)
      ensures refilled == if Refills(poll, old(advances), old(refilled)) then old(advances) else old(refilled)
      ensures halted == if Refills(poll, old(advances), old(refilled)) then false else old(halted)
    {
      PassedStates(origin, refilled, advances);
      var passed := if state < oldStateCount then state + SLOTS - oldStateCount else state - oldStateCount;
      if poll.stopped || passed >= REFILL_AFTER || poll.expired {
        FillRunNewAdrPointer1(last, origin, drift);
      }
    }

    /** What the ASIC does before a look: it does not lap the driver while entries are still to be loaded. */
    method PassStates(poll: Poll, ghost last: nat, ghost origin: nat, ghost drift: nat)
      requires Running(last, origin, drift)
      modifies this`state, this`advances, this`steps, this`halted
      ensures Running(last, origin, drift) && halted == (old(halted) || poll.stopped)
      ensures advances == if old(halted) then old(advances)
                          else if fullLength || old(advances) + poll.moves < refilled + 64 then old(advances) + poll.moves
                          else refilled + 63
    {
      var moves := if halted then 0 else poll.moves;
      if !fullLength && advances + moves >= refilled + SLOTS {
        moves := refilled + SLOTS - 1 - advances;
      }
      Walk(moves, last, origin, drift);
      halted := halted || poll.stopped;
    }

    /** One look at the state register, and a refill if that look calls for one. */
    method CheckMotorPresetLength(poll: Poll, ghost last: nat, ghost origin: nat, ghost drift: nat)
      returns (outcome: Outcome)
      requires Running(last, origin, drift)
      modifies this, ring
      ensures Running(last, origin, drift) && strays == old(strays)
      ensures Progress(outcome) == Looked(old(Progress(Unfinished)), poll, last)
      ensures outcome != Unfinished ==> Ended(last, drift)
      ensures outcome == Reached ==> OnLastSlot(last, drift)
      // before the whole table is loaded: a refill on the stop flag, on the timer or after 40 states
      ensures !old(fullLength) ==> outcome == Unfinished
      ensures !old(fullLength) && (poll.stopped || poll.expired) ==> refilled == advances && !halted
      ensures !old(fullLength) && !poll.stopped && !poll.expired ==>
        (refilled == advances <==> advances - old(refilled) >= 40 || advances == old(refilled))
      // afterwards: the stop flag, then the slot, then the timer
      ensures old(fullLength) ==>
        && refilled == old(refilled) && (outcome == Stopped <==> poll.stopped)
        && (outcome == Reached <==> !poll.stopped && state == scanStateCount)
        && (outcome == TimedOut <==> !poll.stopped && state != scanStateCount && poll.expired)
    {
      PassStates(poll, last, origin, drift);
      if fullLength {
        outcome := CheckEnd(poll, last, origin, drift);
      } else {
        CheckRefill(poll, last, origin, drift);
        outcome := Unfinished;
      }
    }

    /** The driver reads how far the ASIC went modulo 64. */
    method DriftBeforeRefill(moves: nat)
      requires Valid()
      modifies this`state, this`advances, this`refilled, this`steps, this`strays
      ensures Valid() && advances == refilled == moves % SLOTS && steps == 0
      ensures state == Wrap(old(state) + advances)
      ensures strays <= moves && (Idle(program) ==> strays == 0)
    {
      Drift(moves);
      WrapAdd(moves, old(state));
      advances := advances % SLOTS;
      refilled := advances;
    }

    /** Loads the table and the first part of the program, while the ASIC goes on with the one before. */
    method SetUp(dwStep: nat, drift: nat)
      requires Valid() && dwStep + SLOTS <= table.Length
      modifies this, ring, table
      ensures Running(dwStep, old(state), drift % SLOTS) && advances == refilled == drift % SLOTS && !halted
      ensures strays <= drift && (Idle(old(program)) ==> strays == 0)
    {
      ghost var origin := state;
      Load(dwStep);
      oldStateCount, scanState := state, 0;
      DriftBeforeRefill(drift);
      forall i | 0 <= i < ring.Length {
        ring[i] := 0;
      }
      ghost var v := Now();
      Refill(dwStep);
      RefillKeeps(v, Now(), dwStep, origin, drift % SLOTS);
    }

    /** Moves the sensor by dwStep steps. `drift` states pass between reading the state and
        the first refill; polls are the later looks at the state register. Which polls lead to the
        steps asked for is the subject of the lemmas about Watched. */
    method GoFullStep(dwStep: nat, drift: nat, polls: seq<Poll>) returns (outcome: Outcome)
      requires Valid() && dwStep + SLOTS <= table.Length
      modifies this, ring, table
      ensures Running(dwStep, old(state), drift % SLOTS)
      ensures strays <= drift && (Idle(old(program)) ==> strays == 0)
      ensures Progress(outcome) == Watched(Start(drift), polls, dwStep)
      ensures steps == StepsOf(Progress(outcome), dwStep, drift % SLOTS)
      ensures outcome != Unfinished ==> Ended(dwStep, drift % SLOTS)
      ensures outcome == Reached ==> OnLastSlot(dwStep, drift % SLOTS)
      ensures outcome == Unfinished ==> !halted
    {
      ghost var origin := state;
      SetUp(dwStep, drift);
      var k := 0;
      outcome := Unfinished;
      while k < |polls| && outcome == Unfinished
        invariant k <= |polls| && Running(dwStep, origin, drift % SLOTS)
        invariant strays <= drift && (Idle(old(program)) ==> strays == 0)
        invariant Watched(Progress(outcome), polls[k..], dwStep) == Watched(Start(drift), polls, dwStep)
        invariant if outcome == Unfinished then !halted else Ended(dwStep, drift % SLOTS)
        invariant outcome == Reached ==> OnLastSlot(dwStep, drift % SLOTS)
        decreases |polls| - k
      {
        WatchedStep(Progress(Unfinished), polls[k..], dwStep);
        assert polls[k..][0] == polls[k] && polls[k..][1..] == polls[k + 1..];
        outcome := CheckMotorPresetLength(polls[k], dwStep, origin, drift % SLOTS);
        k := k + 1;
      }
    }
  }

  /** Positions that share a slot are whole laps apart. */
  lemma SameSlot(origin: nat, refilled: nat, advances: nat, last: nat)
    requires refilled <= advances && refilled <= last < refilled + SLOTS
    requires Wrap(origin + advances) == Wrap(origin + last)
    ensures (advances - refilled) % SLOTS == last - refilled
  {
  }

  /** The invariant slot by slot: after a refill at state s, slot s + 1 + j steps exactly when table entry
      refilled + j is before the end mark. Odd slots are the high nibbles. */
  lemma SlotByEntry(m: Motor, last: nat, origin: nat, drift: nat, j: nat)
    requires m.Running(last, origin, drift) && j < 64
    ensures var slot := (m.oldStateCount + 1 + j) % 64;
      (m.program[slot / 2] & (if slot % 2 == 1 then 0x80 else 0x08) != 0) <==> m.refilled + j < last
  {
    WrapAdd(m.oldStateCount + 1, j);
    SlotAhead(Wrap(m.oldStateCount + 1), j);
    assert StepBit(m.program, Wrap(m.oldStateCount + 1 + j)) <==> m.refilled + j < last;
  }

  /** The steps of a program of `last` entries after so many states, the first `drift` of
      which passed before the program was loaded. */
  function StepsMade(advances: nat, last: nat, drift: nat): int {
    if last <= drift then 0
    else if advances <= drift then 0
    else if advances < last then advances - drift
    else last - drift
  }

  /** The steps of so many states on a loaded program whose first n of 64 slots step. */
  function StepsOfLaps(states: nat, n: nat): nat {
    if states == 0 then 0 else StepsOfLaps(states - 1, n) + if (states - 1) % SLOTS < n then 1 else 0
  }

  lemma OneMoreStep(states: nat, n: nat)
    ensures StepsOfLaps(states + 1, n) == StepsOfLaps(states, n) + if states % SLOTS < n then 1 else 0
  {
  }

  lemma {:induction false} FirstLap(states: nat, n: nat)
    requires states <= SLOTS && n <= SLOTS
    ensures StepsOfLaps(states, n) == if states < n then states else n
  {
    if states > 0 { FirstLap(states - 1, n); }
  }

  lemma {:induction false} LaterLaps(states: nat, n: nat)
    requires states > SLOTS && 0 < n <= SLOTS
    ensures StepsOfLaps(states, n) > n
  {
    if states == SLOTS + 1 {
      FirstLap(states - 1, n);
    } else {
      LaterLaps(states - 1, n);
    }
  }

  lemma {:induction false} NoSteps(states: nat)
    ensures StepsOfLaps(states, 0) == 0
  {
    if states > 0 { NoSteps(states - 1); }
  }

  /** Before a lap is full, the steps are those the table asks for. */
  lemma StepsWithinLap(refilled: nat, advances: nat, last: nat, drift: nat)
    requires drift <= refilled <= advances < refilled + SLOTS && (refilled <= last || refilled == drift < SLOTS)
    ensures StepsMade(refilled, last, drift) + StepsOfLaps(advances - refilled, Left(refilled, last))
         == StepsMade(advances, last, drift)
  {
    FirstLap(advances - refilled, Left(refilled, last));
  }

  /** When the loaded rest of n steps has been made exactly once. */
  lemma MadeOnce(states: nat, n: nat)
    requires n < SLOTS
    ensures StepsOfLaps(states, n) == n <==> n == 0 || n <= states <= SLOTS
  {
    if n == 0 {
      NoSteps(states);
    } else if states <= SLOTS {
      FirstLap(states, n);
    } else {
      LaterLaps(states, n);
    }
  }
}
