// The calibration run of CIS devices: which strip the sensor is on and whether the lamp
// burns whenever a white or a dark reading is taken, for every pattern of hardware failures.
// A sheet-fed device has no home position: it feeds the paper forward from where it is, and
// only its first white reading is preceded by such a move.

module Calibration {
  datatype Kind = White | Dark
  datatype Position = Home | Shading | DarkStrip | Unknown
  /** A calibration reading and the circumstances it was taken in. */
  datatype Shot = Shot(kind: Kind, lamp: bool, position: Position)

  datatype Flag = SkipWhiteFine | SkipFine | BypassCalibration | OtherWorkaround

  const CLEARED: set<Flag> := {SkipWhiteFine, SkipFine, BypassCalibration}
  const DIVIDER: nat := 8
  const MIN_DPI: nat := 50

  predicate Safe(shot: Shot, sheetFed: bool) {
    match shot.kind
    case White => shot.lamp && (sheetFed || shot.position == Shading)
    case Dark => !shot.lamp || shot.position == DarkStrip
  }

  /** What decides which parts of a run are done. */
  datatype Options = Options(plustekMotor: bool, cacheCalData: bool, skipCoarse: bool,
                             fineFromFile: bool, calibrationMode: bool, bitDepth: nat)
  {
    /** A sheet-fed device does the fine part upon request only. */
    predicate SkipsFine(sheetFed: bool) {
      if calibrationMode then (cacheCalData || sheetFed) && bitDepth != 8
      else sheetFed || (cacheCalData && fineFromFile)
    }

    function IdxEnd(sheetFed: bool): nat {
      if (cacheCalData || sheetFed) && calibrationMode then DIVIDER + 1 else 2
    }

    /** No fine calibration was requested and none is on file. */
    function Bypassed(sheetFed: bool): set<Flag> {
      if sheetFed && !calibrationMode && !fineFromFile then {BypassCalibration} else {}
    }
  }

  function Kinds(shots: seq<Shot>): (r: seq<Kind>)
    ensures |r| == |shots| && forall i :: 0 <= i < |r| ==> r[i] == shots[i].kind
  {
    seq(|shots|, i requires 0 <= i < |shots| => shots[i].kind)
  }

  /** Readings of the fine part: dark and white for every resolution not too small. */
  function FineKinds(idx: nat, end: nat, mode: bool, res: nat -> nat): seq<Kind>
    decreases end - idx
  {
    if idx >= end then []
    else if mode && res(idx) < MIN_DPI then FineKinds(idx + 1, end, mode, res)
    else [Dark, White] + FineKinds(idx + 1, end, mode, res)
  }

  function CoarseKinds(skip: bool): seq<Kind> {
    if skip then [] else [White, Dark, White]
  }

  /** The readings of a successful run, in order. */
  function RunKinds(opt: Options, sheetFed: bool, res: nat -> nat): seq<Kind> {
    CoarseKinds(opt.skipCoarse) +
    (if opt.SkipsFine(sheetFed) then [] else FineKinds(1, opt.IdxEnd(sheetFed), opt.calibrationMode, res))
  }

  // ----- the same as a promise, case by case -----

  /** So many pairs of a dark and a white reading. */
  function Pairs(count: nat): (r: seq<Kind>)
    ensures |r| == 2 * count
  {
    seq(2 * count, i => if i % 2 == 0 then Dark else White)
  }

  /** The coarse triple stands in front exactly if it is not skipped; the fine pairs follow, according to
      the device, the cache, and what was asked for. */
  ghost predicate Promised(kinds: seq<Kind>, opt: Options, sheetFed: bool, res: nat -> nat) {
    var coarse := if opt.skipCoarse then [] else [White, Dark, White];
    && (!opt.calibrationMode && (sheetFed || (opt.cacheCalData && opt.fineFromFile)) ==> kinds == coarse)
    && (!opt.calibrationMode && !sheetFed && !(opt.cacheCalData && opt.fineFromFile) ==>
          kinds == coarse + [Dark, White])
    && (opt.calibrationMode && (opt.cacheCalData || sheetFed) && opt.bitDepth != 8 ==> kinds == coarse)
    && (opt.calibrationMode && (opt.cacheCalData || sheetFed) && opt.bitDepth == 8 ==>
          kinds == coarse + Pairs(|set i: nat | 1 <= i <= 8 && res(i) >= 50|))
    && (opt.calibrationMode && !opt.cacheCalData && !sheetFed ==>
          kinds == coarse + if res(1) >= 50 then [Dark, White] else [])
  }

  lemma RunIsPromised(opt: Options, sheetFed: bool, res: nat -> nat)
    ensures Promised(RunKinds(opt, sheetFed, res), opt, sheetFed, res)
  {
    var end := opt.IdxEnd(sheetFed);
    FineKindsArePairs(1, end, opt.calibrationMode, res);
    if end == 9 {
      assert Taken(1, end, opt.calibrationMode, res) == set i: nat | 1 <= i <= 8 && res(i) >= 50;
    } else {
      OnePair(opt.calibrationMode, res);
    }
  }

  /** The resolutions that are not left out. */
  ghost function Taken(idx: nat, end: nat, mode: bool, res: nat -> nat): set<nat> {
    set i: nat | idx <= i < end && (!mode || res(i) >= 50)
  }

  lemma {:induction false} FineKindsArePairs(idx: nat, end: nat, mode: bool, res: nat -> nat)
    ensures FineKinds(idx, end, mode, res) == Pairs(|Taken(idx, end, mode, res)|)
    decreases end - idx
  {
    if idx >= end {
      assert Taken(idx, end, mode, res) == {};
    } else {
      FineKindsArePairs(idx + 1, end, mode, res);
      TakenNext(idx, end, mode, res);
      OneMorePair(|Taken(idx + 1, end, mode, res)|);
    }
  }

  lemma TakenNext(idx: nat, end: nat, mode: bool, res: nat -> nat)
    requires idx < end
    ensures |Taken(idx, end, mode, res)|
         == |Taken(idx + 1, end, mode, res)| + if mode && res(idx) < 50 then 0 else 1
  {
    var rest := Taken(idx + 1, end, mode, res);
    if mode && res(idx) < 50 {
      assert Taken(idx, end, mode, res) == rest;
    } else {
      assert Taken(idx, end, mode, res) == rest + {idx} && idx !in rest;
    }
  }

  lemma OneMorePair(count: nat)
    ensures [Dark, White] + Pairs(count) == Pairs(count + 1)
  {
  }

  lemma OnePair(mode: bool, res: nat -> nat)
    ensures FineKinds(1, 2, mode, res) == if mode && res(1) < 50 then [] else [Dark, White]
  {
    assert FineKinds(2, 2, mode, res) == [];
  }

  /** ok(n) says whether the n-th hardware call that can fail succeeds. */
  class Scanner {
    const ok: nat -> bool
    const hasDarkStrip: bool
    const sheetFed: bool
    var calls: nat
    var stripState: nat      // 0 not ready, 1 white with lamp on, 2 lamp off
    var lamp: bool
    var position: Position
    var workarounds: set<Flag>
    var calibrated: bool
    var shots: seq<Shot>

    constructor (ok: nat -> bool, hasDarkStrip: bool, sheetFed: bool, workarounds: set<Flag>)
      ensures this.ok == ok && this.hasDarkStrip == hasDarkStrip && this.sheetFed == sheetFed
      ensures this.workarounds == workarounds
      ensures calls == 0 && stripState == 0 && lamp && !calibrated && shots == []
    {
      this.ok, this.hasDarkStrip, this.sheetFed, this.workarounds := ok, hasDarkStrip, sheetFed, workarounds;
      calls, stripState, lamp, position := 0, 0, true, Unknown;
      calibrated, shots := false, [];
    }

    /** The lamp is only ever off in strip state 2. */
    predicate Valid()
      reads this
    {
      stripState <= 2 && (lamp || stripState == 2)
    }

    /** All hardware calls from the given one to the last one made have succeeded. */
    ghost predicate AllOk(from: nat)
      reads this
    {
      forall n :: from <= n < calls ==> ok(n)
    }

    predicate DarkReady()
      reads this
    {
      !lamp || position == DarkStrip
    }

    // ----- the calls into the hardware -----

    method ModuleToHome() returns (r: bool)
      modifies this`calls, this`position
      ensures calls == old(calls) + 1 && r == ok(old(calls))
      ensures position == if r then Home else Unknown
    {
      r := ok(calls);
      calls := calls + 1;
      position := if r then Home else Unknown;
    }

    /** A forward move that does not fail ends at its strip if it started at home; a sheet-fed
        device has no home and counts from where the paper is. */
    method ModuleMove(target: Position) returns (r: bool)
      modifies this`calls, this`position
      ensures calls == old(calls) + 1 && r == ok(old(calls))
      ensures position == if r && (sheetFed || old(position) == Home) then target else Unknown
    {
      r := ok(calls);
      calls := calls + 1;
      position := if r && (sheetFed || position == Home) then target else Unknown;
    }

    method SwitchLamp(on: bool)
      modifies this`lamp
      ensures lamp == on
    {
      lamp := on;
    }

    method WriteReg() returns (r: bool)
      modifies this`calls
      ensures calls == old(calls) + 1 && r == ok(old(calls))
    {
      r := ok(calls);
      calls := calls + 1;
    }

    /** One of the four Adjust functions: takes its readings, then may still fail. */
    method Read(kind: Kind) returns (r: bool)
      modifies this`calls, this`shots
      ensures calls == old(calls) + 1 && r == ok(old(calls))
      ensures shots == old(shots) + [Shot(kind, lamp, position)]
    {
      shots := shots + [Shot(kind, lamp, position)];
      r := ok(calls);
      calls := calls + 1;
    }

    /** Waits for paper; a flatbed has nothing to wait for. */
    method Wait4ScanSample() returns (r: bool)
      modifies this`calls
      ensures calls >= old(calls) && r == AllOk(old(calls)) && (r || sheetFed)
    {
      r := true;
      if sheetFed {
        r := ok(calls);
        calls := calls + 1;
        assert r == ok(old(calls));
      }
    }

    /** The speed test may leave the sensor anywhere; its result is ignored. */
    method SpeedTest()
      modifies this`position
      ensures position == Unknown
    {
      position := Unknown;
    }

    // ----- preparing a reading; false is the source's error return -----

    method PrepareToReadWhiteCal(mv2shadingPos: bool) returns (r: bool)
      requires Valid()
      modifies this`calls, this`position, this`lamp, this`stripState
      ensures Valid() && calls >= old(calls)
      ensures r ==> lamp && stripState == 1
      ensures r && old(stripState) == 0 && (mv2shadingPos || !sheetFed) ==> position == Shading
      ensures old(stripState) != 0 || (sheetFed && !mv2shadingPos) ==> position == old(position)
      ensures r == AllOk(old(calls))
      ensures !r && old(stripState) == 0 ==> stripState == 0 && lamp && position == Unknown && (sheetFed ==> mv2shadingPos)
    {
      if stripState == 0 {
        r := GotoShading(mv2shadingPos);
        if !r {
          return;
        }
      } else if stripState == 2 {
        SwitchLamp(true);
        var written := WriteReg();
        if !written {
          assert !ok(old(calls));
          return false;
        }
      }
      stripState := 1;
      r := true;
    }

    /** The moves in front of the first white reading. */
    method GotoShading(mv2shadingPos: bool) returns (r: bool)
      modifies this`calls, this`position
      ensures calls >= old(calls) && r == AllOk(old(calls))
      ensures r && (mv2shadingPos || !sheetFed) ==> position == Shading
      ensures sheetFed && !mv2shadingPos ==> r && position == old(position)
      ensures !r ==> position == Unknown
    {
      var gotoShadingPos := true;
      if !sheetFed {
        var home := ModuleToHome();
        if !home {
          assert !ok(old(calls));
          return false;
        }
      } else {
        gotoShadingPos := mv2shadingPos;
      }
      if gotoShadingPos {
        var moved := ModuleMove(Shading);
        if !moved {
          assert !ok(calls - 1);
          return false;
        }
      }
      r := true;
    }

    /** Always reports success, whatever happened: its one error exit returns SANE_FALSE,
        which is the success code here. The sensor is ready for a dark reading if and only
        if no motor call failed on the way. */
    method PrepareToReadBlackCal() returns (r: bool)
      requires Valid() && (stripState == 2 ==> !lamp)
      modifies this`calls, this`position, this`lamp, this`stripState
      ensures Valid() && calls >= old(calls) && r
      ensures stripState == 2 ==> !lamp
      ensures DarkReady() <==> AllOk(old(calls))
      ensures old(stripState) == 1 ==> stripState != 1
      ensures old(stripState) == 1 && stripState == 2 ==> position == old(position)
    {
      if stripState == 0 {
        var white := PrepareToReadWhiteCal(false);
        if !white {
          return true;
        }
      }
      if stripState != 2 {
        if hasDarkStrip {
          GotoDarkStrip();
          stripState := 0;
        } else {
          SwitchLamp(false);
          stripState := 2;
        }
      }
      r := true;
    }

    /** The results of both moves are ignored. */
    method GotoDarkStrip()
      modifies this`calls, this`position
      ensures calls >= old(calls) && (position == DarkStrip <==> AllOk(old(calls)))
    {
      ghost var before := calls;
      if !sheetFed {
        var home := ModuleToHome();
        assert home == ok(before) && calls == before + 1;
      }
      var moved := ModuleMove(DarkStrip);
      assert moved == ok(calls - 1);
    }

    /** Returns false if the register write fails, but the lamp is switched before. */
    method LampOnAfterCalibration() returns (r: bool)
      requires Valid()
      modifies this`calls, this`lamp, this`stripState
      ensures lamp && calls >= old(calls)
    {
      if stripState == 2 {
        SwitchLamp(true);
        var written := WriteReg();
        if !written {
          return false;
        }
        stripState := 1;
      }
      r := true;
    }

    // ----- the run -----

    /** White readings so far were safe; all were if no hardware call has failed. */
    ghost predicate Careful(fromShot: nat, fromCall: nat)
      reads this
    {
      && fromShot <= |shots|
      && (forall i :: fromShot <= i < |shots| && shots[i].kind == White ==> Safe(shots[i], sheetFed))
      && (AllOk(fromCall) ==> forall i :: fromShot <= i < |shots| ==> Safe(shots[i], sheetFed))
    }

    method Coarse(ghost fromShot: nat, ghost fromCall: nat) returns (r: bool)
      requires stripState == 0 && lamp && fromCall <= calls && fromShot == |shots|
      modifies this`calls, this`position, this`lamp, this`stripState, this`shots
      ensures Valid() && calls >= old(calls) && old(shots) <= shots
      ensures Careful(fromShot, fromCall)
      ensures r ==> stripState == 1 && Kinds(shots) == Kinds(old(shots)) + CoarseKinds(false)
      ensures AllOk(old(calls)) ==> r
    {
      r := Wait4ScanSample();
      if !r {
        return;
      }
      r := CoarseWhite(true, fromShot, fromCall);
      if !r {
        return;
      }
      r := TakeDark(fromShot, fromCall);
      if !r {
        return;
      }
      r := CoarseWhite(false, fromShot, fromCall);
    }

    method CoarseWhite(mv2shadingPos: bool, ghost fromShot: nat, ghost fromCall: nat) returns (r: bool)
      requires Valid() && fromCall <= calls && Careful(fromShot, fromCall)
      requires stripState == 0 || sheetFed || position == Shading
      modifies this`calls, this`position, this`lamp, this`stripState, this`shots
      ensures Valid() && calls >= old(calls) && Careful(fromShot, fromCall) && old(shots) <= shots
      ensures r ==> stripState == 1 && Kinds(shots) == Kinds(old(shots)) + [White]
      ensures r ==> sheetFed || position == Shading
      ensures AllOk(old(calls)) ==> r
    {
      r := PrepareToReadWhiteCal(mv2shadingPos);
      if !r {
        return;
      }
      r := Read(White);
    }

    method TakeDark(ghost fromShot: nat, ghost fromCall: nat) returns (r: bool)
      requires Valid() && stripState != 2 && fromCall <= calls && Careful(fromShot, fromCall)
      modifies this`calls, this`position, this`lamp, this`stripState, this`shots
      ensures Valid() && calls >= old(calls) && Careful(fromShot, fromCall)
      ensures old(shots) <= shots && Kinds(shots) == Kinds(old(shots)) + [Dark]
      ensures old(stripState) == 1 ==> stripState == 0 || (stripState == 2 && position == old(position))
      ensures calls > old(calls) && r == ok(calls - 1)
    {
      r := PrepareToReadBlackCal();
      if !r {
        assert false;
      }
      r := Read(Dark);
    }

    /** The moves in front of the white reading of the fine part. */
    method BackToShading() returns (r: bool)
      modifies this`calls, this`position
      ensures calls >= old(calls) && r == AllOk(old(calls)) && (r ==> sheetFed || position == Shading)
    {
      if sheetFed {
        return true;
      }
      r := ModuleToHome();
      if !r {
        assert !ok(old(calls));
        return;
      }
      r := ModuleMove(Shading);
      assert r == ok(calls - 1);
    }

    method FineWhite(ghost fromShot: nat, ghost fromCall: nat) returns (r: bool)
      requires Valid() && fromCall <= calls && Careful(fromShot, fromCall)
      modifies this`calls, this`position, this`lamp, this`stripState, this`shots
      ensures Valid() && calls >= old(calls) && Careful(fromShot, fromCall) && old(shots) <= shots
      ensures r ==> stripState == 0 && Kinds(shots) == Kinds(old(shots)) + [White]
      ensures r == AllOk(old(calls))
    {
      r := PrepareToReadWhiteCal(false);
      if !r {
        return;
      }
      r := BackToShading();
      if !r {
        return;
      }
      r := Read(White);
      if !r {
        return;
      }
      stripState := 0;
    }

    /** Dark and white for one resolution. */
    method FineStep(ghost fromShot: nat, ghost fromCall: nat) returns (r: bool)
      requires Valid() && stripState != 2 && fromCall <= calls && Careful(fromShot, fromCall)
      modifies this`calls, this`position, this`lamp, this`stripState, this`shots
      ensures Valid() && calls >= old(calls) && old(shots) <= shots
      ensures Careful(fromShot, fromCall)
      ensures r ==> stripState == 0 && Kinds(shots) == Kinds(old(shots)) + [Dark, White]
      ensures AllOk(old(calls)) ==> r
    {
      r := TakeDark(fromShot, fromCall);
      if !r {
        return;
      }
      r := FineWhite(fromShot, fromCall);
    }

    method Fine(mode: bool, idxEnd: nat, res: nat -> nat, ghost fromShot: nat, ghost fromCall: nat)
      returns (r: bool)
      requires Valid() && stripState != 2 && fromCall <= calls && Careful(fromShot, fromCall)
      modifies this`calls, this`position, this`lamp, this`stripState, this`shots
      ensures Valid() && calls >= old(calls) && old(shots) <= shots
      ensures Careful(fromShot, fromCall)
      ensures r ==> stripState != 2 && Kinds(shots) == Kinds(old(shots)) + FineKinds(1, idxEnd, mode, res)
      ensures AllOk(old(calls)) ==> r
    {
      var idx := 1;
      while idx < idxEnd
        invariant Valid() && stripState != 2 && calls >= old(calls) && old(shots) <= shots
        invariant Careful(fromShot, fromCall)
        invariant Kinds(shots) + FineKinds(idx, idxEnd, mode, res) == Kinds(old(shots)) + FineKinds(1, idxEnd, mode, res)
      {
        if !(mode && res(idx) < MIN_DPI) {
          r := FineStep(fromShot, fromCall);
          if !r {
            return;
          }
        }
        idx := idx + 1;
      }
      assert FineKinds(idx, idxEnd, mode, res) == [];
      r := true;
    }

    /** The whole run of a device whose lamp is on. Every white reading is taken with the lamp
        on, and on a flatbed at the shading strip, whatever fails; every dark reading is taken
        without light or at the dark strip if no hardware call fails. A successful run takes
        its readings in the promised order and ends with the lamp on, strip state 0, all
        workaround flags back (and one more if a sheet-fed device did not do the fine part) and,
        on a flatbed whose last motor call succeeded, the sensor at home. A run that fails after
        the flags were cleared leaves them cleared. */
    method DoCalibration(opt: Options, res: nat -> nat) returns (r: bool)
      requires lamp
      modifies this
      ensures !old(calibrated) ==> Careful(|old(shots)|, old(calls)) && old(shots) <= shots
      ensures !old(calibrated) ==> forall i :: |old(shots)| <= i < |shots| && shots[i].kind == White ==>
        shots[i].lamp && (sheetFed || shots[i].position == Shading)
      ensures !old(calibrated) && AllOk(old(calls)) ==> forall i :: |old(shots)| <= i < |shots| && shots[i].kind == Dark ==>
        !shots[i].lamp || shots[i].position == DarkStrip
      ensures r && !old(calibrated) ==>
        && lamp && stripState == 0 && calibrated && (AllOk(old(calls)) && !sheetFed ==> position == Home)
        && Kinds(shots) == Kinds(old(shots)) + RunKinds(opt, sheetFed, res)
        && Promised(Kinds(shots)[|old(shots)|..], opt, sheetFed, res)
        && workarounds == old(workarounds) +
             (if sheetFed && !opt.calibrationMode && !opt.fineFromFile then {BypassCalibration} else {})
      ensures !r ==> !calibrated && workarounds == if opt.plustekMotor then old(workarounds)
                                                   else old(workarounds) - {SkipWhiteFine, SkipFine, BypassCalibration}
      ensures AllOk(old(calls)) && !opt.plustekMotor ==> r
      ensures old(calibrated) ==> r && shots == old(shots) && calls == old(calls)
    {
      if calibrated {
        return true;
      }
      if opt.plustekMotor {
        return false;
      }
      var saveWaf := workarounds;
      workarounds := workarounds - CLEARED;
      if !opt.cacheCalData && !sheetFed {
        SpeedTest();
      }
      r := WarmAndRead(opt, res);
      if !r {
        return;
      }
      RunIsPromised(opt, sheetFed, res);
      assert Kinds(shots)[|old(shots)|..] == RunKinds(opt, sheetFed, res);
      workarounds := workarounds + opt.Bypassed(sheetFed);
      Finish();
      calibrated := true;
      workarounds := workarounds + saveWaf;
      r := true;
    }

    method WarmAndRead(opt: Options, res: nat -> nat) returns (r: bool)
      requires lamp
      modifies this`calls, this`position, this`lamp, this`stripState, this`shots
      ensures calls >= old(calls) && Careful(|old(shots)|, old(calls)) && old(shots) <= shots
      ensures r ==> Valid() && Kinds(shots) == Kinds(old(shots)) + RunKinds(opt, sheetFed, res)
      ensures AllOk(old(calls)) ==> r
    {
      r := Warmup();
      if !r {
        return;
      }
      r := Readings(opt, res, old(calls));
    }

    /** The results of the lamp switch and of the last move are ignored. */
    method Finish()
      requires Valid()
      modifies this`calls, this`position, this`lamp, this`stripState
      ensures lamp && stripState == 0 && calls >= old(calls)
      ensures AllOk(old(calls)) && !sheetFed ==> position == Home
    {
      var lampOn := LampOnAfterCalibration();
      stripState := 0;
      if !sheetFed {
        var home := ModuleToHome();
        assert home == ok(calls - 1);
      }
    }

    /** The coarse and the fine part, or what stands for them when they are skipped. */
    method Readings(opt: Options, res: nat -> nat, ghost fromCall: nat) returns (r: bool)
      requires lamp && fromCall <= calls
      modifies this`calls, this`position, this`lamp, this`stripState, this`shots
      ensures stripState <= 2 && (lamp || stripState == 2) && calls >= old(calls) && old(shots) <= shots
      ensures Careful(|old(shots)|, fromCall)
      ensures r ==> Kinds(shots) == Kinds(old(shots)) + RunKinds(opt, sheetFed, res)
      ensures AllOk(old(calls)) ==> r
    {
      ghost var fromShot, was := |shots|, Kinds(shots);
      r := CoarsePart(opt.skipCoarse, fromShot, fromCall);
      if !r {
        return;
      }
      if opt.SkipsFine(sheetFed) {
        stripState := 2;
      } else {
        r := Fine(opt.calibrationMode, opt.IdxEnd(sheetFed), res, fromShot, fromCall);
      }
      assert r ==> Kinds(shots) == was + RunKinds(opt, sheetFed, res);
    }

    method CoarsePart(skip: bool, ghost fromShot: nat, ghost fromCall: nat) returns (r: bool)
      requires lamp && fromCall <= calls && fromShot == |shots|
      modifies this`calls, this`position, this`lamp, this`stripState, this`shots
      ensures Valid() && calls >= old(calls) && old(shots) <= shots && Careful(fromShot, fromCall)
      ensures r ==> stripState == 1 && Kinds(shots) == Kinds(old(shots)) + CoarseKinds(skip)
      ensures AllOk(old(calls)) ==> r
    {
      stripState := 0;
      if skip {
        stripState := 1;
        r := true;
      } else {
        r := Coarse(fromShot, fromCall);
      }
    }

    /** The warmup may leave the sensor anywhere. */
    method Warmup() returns (r: bool)
      modifies this`calls, this`position
      ensures calls == old(calls) + 1 && r == ok(old(calls))
    {
      r := ok(calls);
      calls := calls + 1;
      position := Unknown;
    }
  }
}
