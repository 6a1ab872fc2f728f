/** The JTAG test access port: the sixteen-state controller of section 6.1 of IEEE Std
    1149.1-2001 and a target device behind it. */
module Tap {
  datatype TapState =
    | TestLogicReset | RunTestIdle
    | SelectDrScan | CaptureDr | ShiftDr | Exit1Dr | PauseDr | Exit2Dr | UpdateDr
    | SelectIrScan | CaptureIr | ShiftIr | Exit1Ir | PauseIr | Exit2Ir | UpdateIr

  function NextState(s: TapState, tmsHigh: bool): TapState
  {
    match s
    case TestLogicReset => if tmsHigh then TestLogicReset else RunTestIdle
    case RunTestIdle => if tmsHigh then SelectDrScan else RunTestIdle
    case SelectDrScan => if tmsHigh then SelectIrScan else CaptureDr
    case CaptureDr => if tmsHigh then Exit1Dr else ShiftDr
    case ShiftDr => if tmsHigh then Exit1Dr else ShiftDr
    case Exit1Dr => if tmsHigh then UpdateDr else PauseDr
    case PauseDr => if tmsHigh then Exit2Dr else PauseDr
    case Exit2Dr => if tmsHigh then UpdateDr else ShiftDr
    case UpdateDr => if tmsHigh then SelectDrScan else RunTestIdle
    case SelectIrScan => if tmsHigh then TestLogicReset else CaptureIr
    case CaptureIr => if tmsHigh then Exit1Ir else ShiftIr
    case ShiftIr => if tmsHigh then Exit1Ir else ShiftIr
    case Exit1Ir => if tmsHigh then UpdateIr else PauseIr
    case PauseIr => if tmsHigh then Exit2Ir else PauseIr
    case Exit2Ir => if tmsHigh then UpdateIr else ShiftIr
    case UpdateIr => if tmsHigh then SelectDrScan else RunTestIdle
  }

  predicate IsShift(s: TapState)
  {
    s == ShiftDr || s == ShiftIr
  }

  /** The shift states are those that follow the capture states with TMS low. */
  lemma ShiftStates(s: TapState)
    ensures IsShift(s) <==> s in {NextState(CaptureDr, false), NextState(CaptureIr, false)}
  {
  }

  /** One TCK period: the levels of TMS and TDI at the rising edge. */
  datatype Pulse = Pulse(tms: bool, tdi: bool)

  /** What one clock can tell a device: outside the shift states TDI is not looked at. */
  datatype Observation = Moved(tms: bool) | Shifted(tms: bool, tdi: bool)

  /** A device is given by the TDO level it answers for each history of observations, the
      latest included.  Every deterministic register file behind a TAP is of this kind
      (`RegistersFollowHistory`), so equal histories mean equal registers. */
  type Device = seq<Observation> -> bool

  datatype Tap = Tap(state: TapState, seen: seq<Observation>)

  datatype Clocked = Clocked(tap: Tap, tdo: seq<bool>)

  function Observed(s: TapState, p: Pulse): Observation
  {
    if IsShift(s) then Shifted(p.tms, p.tdi) else Moved(p.tms)
  }

  function Tick(t: Tap, p: Pulse): Tap
  {
    Tap(NextState(t.state, p.tms), t.seen + [Observed(t.state, p)])
  }

  /** The level of TDO during a clock; the pin is driven in the shift states only. */
  predicate TdoDuring(dev: Device, t: Tap, p: Pulse)
  {
    IsShift(t.state) && dev(Tick(t, p).seen)
  }

  /** Clocking pulses one by one. */
  function Clock(dev: Device, t: Tap, ps: seq<Pulse>): (r: Clocked)
    ensures |r.tdo| == |ps|
  {
    if ps == [] then Clocked(t, [])
    else
      var p := ps[|ps| - 1];
      var r := Clock(dev, t, ps[..|ps| - 1]);
      Clocked(Tick(r.tap, p), r.tdo + [TdoDuring(dev, r.tap, p)])
  }

  lemma ClockNothing(dev: Device, t: Tap)
    ensures Clock(dev, t, []) == Clocked(t, [])
  {
  }

  /** Every pulse is one clock for the device. */
  lemma {:induction false} ClockCounts(dev: Device, t: Tap, ps: seq<Pulse>)
    ensures |Clock(dev, t, ps).tap.seen| == |t.seen| + |ps|
  {
    if ps != [] {
      ClockCounts(dev, t, ps[..|ps| - 1]);
    }
  }

  /** Clocking in two steps is clocking at once. */
  lemma {:induction false} ClockConcat(dev: Device, t: Tap, ps: seq<Pulse>, qs: seq<Pulse>)
    ensures Clock(dev, t, ps + qs).tap == Clock(dev, Clock(dev, t, ps).tap, qs).tap
    ensures Clock(dev, t, ps + qs).tdo == Clock(dev, t, ps).tdo + Clock(dev, Clock(dev, t, ps).tap, qs).tdo
  {
    if qs == [] {
      assert ps + qs == ps;
    } else {
      var qs' := qs[..|qs| - 1];
      assert (ps + qs)[..|ps + qs| - 1] == ps + qs';
      ClockConcat(dev, t, ps, qs');
    }
  }

  function StateAfter(s: TapState, ps: seq<Pulse>): TapState
  {
    if ps == [] then s else NextState(StateAfter(s, ps[..|ps| - 1]), ps[|ps| - 1].tms)
  }

  lemma {:induction false} ClockState(dev: Device, t: Tap, ps: seq<Pulse>)
    ensures Clock(dev, t, ps).tap.state == StateAfter(t.state, ps)
  {
    if ps != [] {
      ClockState(dev, t, ps[..|ps| - 1]);
    }
  }

  /** The trains agree on TMS everywhere, and on TDI wherever the controller is in a shift state. */
  predicate Alike(s: TapState, ps: seq<Pulse>, qs: seq<Pulse>)
    requires |ps| == |qs|
  {
    ps == [] ||
    var n := |ps| - 1;
    && Alike(s, ps[..n], qs[..n])
    && ps[n].tms == qs[n].tms
    && (IsShift(StateAfter(s, ps[..n])) ==> ps[n].tdi == qs[n].tdi)
  }

  /** Pulse trains that are alike cannot be told apart by any device. */
  lemma {:induction false} TdiMattersOnlyInShift(dev: Device, t: Tap, ps: seq<Pulse>, qs: seq<Pulse>)
    requires |ps| == |qs| && Alike(t.state, ps, qs)
    ensures Clock(dev, t, ps) == Clock(dev, t, qs)
  {
    if ps != [] {
      var n := |ps| - 1;
      TdiMattersOnlyInShift(dev, t, ps[..n], qs[..n]);
      ClockState(dev, t, ps[..n]);
    }
  }

  /** How many clocks with TMS high lead to Test-Logic-Reset. */
  function ClocksToReset(s: TapState): (n: nat)
    ensures n <= 5
    ensures n == 0 <==> s == TestLogicReset
  {
    match s
    case TestLogicReset => 0
    case SelectIrScan => 1
    case SelectDrScan => 2
    case RunTestIdle | UpdateDr | UpdateIr => 3
    case Exit1Dr | Exit1Ir | Exit2Dr | Exit2Ir => 4
    case _ => 5
  }

  /** Five clocks with TMS high reach Test-Logic-Reset from every state, and stay there. */
  lemma {:induction false} HighsReset(dev: Device, t: Tap, ps: seq<Pulse>)
    requires forall i :: 0 <= i < |ps| ==> ps[i].tms
    ensures ClocksToReset(Clock(dev, t, ps).tap.state)
         == if |ps| <= ClocksToReset(t.state) then ClocksToReset(t.state) - |ps| else 0
  {
    if ps != [] {
      HighsReset(dev, t, ps[..|ps| - 1]);
    }
  }

  // ---------------------------------------------------------------- scans

  /** Where a word of TMS levels leads, for any notion of a next state. */
  function WalkBy(next: (TapState, bool) -> TapState, s: TapState, word: seq<bool>): TapState
  {
    if word == [] then s else next(WalkBy(next, s, word[..|word| - 1]), word[|word| - 1])
  }

  predicate Leads(next: (TapState, bool) -> TapState, s: TapState, word: seq<bool>, t: TapState)
  {
    WalkBy(next, s, word) == t
  }

  /** Clocks with TMS low, and with TMS high. */
  function Lows(k: nat): (w: seq<bool>)
    ensures |w| == k
  {
    seq(k, i => false)
  }

  function Highs(k: nat): (w: seq<bool>)
    ensures |w| == k
  {
    seq(k, i => true)
  }

  /** The states of a scan of the data registers or of the instruction register. */
  datatype Column = Column(capture: TapState, shift: TapState, exit1: TapState, pause: TapState, exit2: TapState,
                           update: TapState)

  const DR := Column(CaptureDr, ShiftDr, Exit1Dr, PauseDr, Exit2Dr, UpdateDr)
  const IR := Column(CaptureIr, ShiftIr, Exit1Ir, PauseIr, Exit2Ir, UpdateIr)

  /** A scan that is selected by a word goes through its column as the standard has it: it starts in
      Run-Test/Idle, may stay in the shift state and in the pause state for any number of clocks, may go
      back from the pause to the shift state, and ends by way of the update state in Run-Test/Idle or in
      the selection of the next scan. */
  ghost predicate ScansColumn(next: (TapState, bool) -> TapState, select: seq<bool>, c: Column)
  {
    && Leads(next, RunTestIdle, select + [false], c.capture)
    && Leads(next, RunTestIdle, select + [false, true], c.exit1)
    && (forall k: nat :: Leads(next, RunTestIdle, select + [false, false] + Lows(k), c.shift))
    && (forall k: nat :: Leads(next, c.shift, Lows(k), c.shift))
    && Leads(next, c.shift, [true], c.exit1)
    && Leads(next, c.shift, [true, true], c.update)
    && (forall k: nat :: Leads(next, c.shift, [true, false] + Lows(k), c.pause))
    && (forall k: nat :: Leads(next, c.shift, [true, false] + Lows(k) + [true], c.exit2))
    && (forall k: nat :: Leads(next, c.shift, [true, false] + Lows(k) + [true, false], c.shift))
    && (forall k: nat :: Leads(next, c.shift, [true, false] + Lows(k) + [true, true], c.update))
    && Leads(next, c.update, [false], RunTestIdle)
    && Leads(next, c.update, [true], SelectDrScan)
  }

  /** What the standard says about the controller. */
  ghost predicate IsController(next: (TapState, bool) -> TapState)
  {
    && ScansColumn(next, [true], DR) && ScansColumn(next, [true, true], IR)
    && (forall k: nat :: Leads(next, RunTestIdle, Lows(k), RunTestIdle))
    && Leads(next, RunTestIdle, [true], SelectDrScan) && Leads(next, RunTestIdle, [true, true], SelectIrScan)
    && Leads(next, RunTestIdle, [true, true, true], TestLogicReset)
    && (forall k: nat :: Leads(next, TestLogicReset, Highs(k), TestLogicReset))
    && (forall k: nat :: Leads(next, TestLogicReset, [false] + Lows(k), RunTestIdle))
    && (forall s, b :: next(s, b) == TestLogicReset ==> b && (s == TestLogicReset || s == SelectIrScan))
  }

  lemma WalkNothing(next: (TapState, bool) -> TapState, s: TapState)
    ensures WalkBy(next, s, []) == s
  {
  }

  lemma WalkOneMore(next: (TapState, bool) -> TapState, s: TapState, word: seq<bool>, b: bool)
    ensures WalkBy(next, s, word + [b]) == next(WalkBy(next, s, word), b)
  {
    assert (word + [b])[..|word|] == word;
  }

  lemma {:induction false} WalkOn(next: (TapState, bool) -> TapState, s: TapState, a: seq<bool>, b: seq<bool>)
    ensures WalkBy(next, s, a + b) == WalkBy(next, WalkBy(next, s, a), b)
  {
    if b == [] {
      assert a + b == a;
    } else {
      var b' := b[..|b| - 1];
      WalkOn(next, s, a, b');
      assert a + b == (a + b') + [b[|b| - 1]] && b == b' + [b[|b| - 1]];
      WalkOneMore(next, s, a + b', b[|b| - 1]);
      WalkOneMore(next, WalkBy(next, s, a), b', b[|b| - 1]);
    }
  }

  lemma Walk1(next: (TapState, bool) -> TapState, s: TapState, x: bool)
    ensures WalkBy(next, s, [x]) == next(s, x)
  {
    WalkOneMore(next, s, [], x);
    assert [] + [x] == [x];
  }

  lemma Walk2(next: (TapState, bool) -> TapState, s: TapState, x: bool, y: bool)
    ensures WalkBy(next, s, [x, y]) == next(next(s, x), y)
  {
    Walk1(next, s, x);
    WalkOneMore(next, s, [x], y);
    assert [x] + [y] == [x, y];
  }

  lemma {:induction false} Rests(next: (TapState, bool) -> TapState, s: TapState, k: nat)
    requires next(s, false) == s
    ensures Leads(next, s, Lows(k), s)
  {
    if k > 0 {
      Rests(next, s, k - 1);
      assert Lows(k) == Lows(k - 1) + [false];
      WalkOneMore(next, s, Lows(k - 1), false);
    }
  }

  lemma {:induction false} RestsHigh(next: (TapState, bool) -> TapState, s: TapState, k: nat)
    requires next(s, true) == s
    ensures Leads(next, s, Highs(k), s)
  {
    if k > 0 {
      RestsHigh(next, s, k - 1);
      assert Highs(k) == Highs(k - 1) + [true];
      WalkOneMore(next, s, Highs(k - 1), true);
    }
  }

  /** The single steps inside a column, and from its end. */
  predicate ColumnSteps(next: (TapState, bool) -> TapState, c: Column)
  {
    && next(c.capture, false) == next(c.shift, false) == next(c.exit2, false) == c.shift
    && next(c.capture, true) == next(c.shift, true) == c.exit1
    && next(c.exit1, false) == next(c.pause, false) == c.pause && next(c.pause, true) == c.exit2
    && next(c.exit1, true) == next(c.exit2, true) == c.update
    && next(c.update, false) == RunTestIdle && next(c.update, true) == SelectDrScan
  }

  /** The single steps outside the columns. */
  predicate OuterSteps(next: (TapState, bool) -> TapState)
  {
    && next(RunTestIdle, true) == SelectDrScan && next(SelectDrScan, true) == SelectIrScan
    && next(SelectDrScan, false) == CaptureDr && next(SelectIrScan, false) == CaptureIr
    && next(SelectIrScan, true) == next(TestLogicReset, true) == TestLogicReset
    && next(TestLogicReset, false) == next(RunTestIdle, false) == RunTestIdle
  }

  lemma AllSteps(next: (TapState, bool) -> TapState, s: TapState, b: bool)
    requires OuterSteps(next) && ColumnSteps(next, DR) && ColumnSteps(next, IR)
    ensures next(s, b) == NextState(s, b)
  {
    match s {
      case TestLogicReset | RunTestIdle | SelectDrScan | SelectIrScan =>
      case CaptureDr | ShiftDr | Exit1Dr | PauseDr | Exit2Dr | UpdateDr =>
      case CaptureIr | ShiftIr | Exit1Ir | PauseIr | Exit2Ir | UpdateIr =>
    }
  }

  /** A column is scanned right if its single steps are right. */
  lemma StepsScan(next: (TapState, bool) -> TapState, select: seq<bool>, c: Column)
    requires WalkBy(next, RunTestIdle, select + [false]) == c.capture
    requires ColumnSteps(next, c)
    ensures ScansColumn(next, select, c)
  {
    hide WalkBy;
    assert select + [false, true] == (select + [false]) + [true];
    WalkOneMore(next, RunTestIdle, select + [false], true);
    forall k: nat
      ensures Leads(next, RunTestIdle, select + [false, false] + Lows(k), c.shift)
    {
      assert select + [false, false] == (select + [false]) + [false];
      WalkOneMore(next, RunTestIdle, select + [false], false);
      WalkOn(next, RunTestIdle, select + [false, false], Lows(k));
      Rests(next, c.shift, k);
    }
    forall k: nat
      ensures Leads(next, c.shift, Lows(k), c.shift)
    {
      Rests(next, c.shift, k);
    }
    Walk1(next, c.shift, true);
    Walk2(next, c.shift, true, true);
    forall k: nat
      ensures Leads(next, c.shift, [true, false] + Lows(k), c.pause)
      ensures Leads(next, c.shift, [true, false] + Lows(k) + [true], c.exit2)
      ensures Leads(next, c.shift, [true, false] + Lows(k) + [true, false], c.shift)
      ensures Leads(next, c.shift, [true, false] + Lows(k) + [true, true], c.update)
    {
      var w := [true, false] + Lows(k);
      Walk2(next, c.shift, true, false);
      WalkOn(next, c.shift, [true, false], Lows(k));
      Rests(next, c.pause, k);
      WalkOneMore(next, c.shift, w, true);
      assert w + [true, false] == (w + [true]) + [false] && w + [true, true] == (w + [true]) + [true];
      WalkOneMore(next, c.shift, w + [true], false);
      WalkOneMore(next, c.shift, w + [true], true);
    }
    Walk1(next, c.update, false);
    Walk1(next, c.update, true);
  }

  /** The single steps of a column that is scanned right. */
  lemma ScanSteps(next: (TapState, bool) -> TapState, select: seq<bool>, c: Column)
    requires ScansColumn(next, select, c)
    ensures WalkBy(next, RunTestIdle, select + [false]) == c.capture
    ensures ColumnSteps(next, c)
  {
    hide WalkBy;
    var s, w := RunTestIdle, select + [false];
    assert select + [false, true] == w + [true] && select + [false, false] + Lows(0) == w + [false];
    assert Leads(next, s, select + [false, false] + Lows(0), c.shift);
    WalkOneMore(next, s, w, true);
    WalkOneMore(next, s, w, false);
    assert Lows(1) == [false];
    assert Leads(next, c.shift, Lows(1), c.shift);
    Walk1(next, c.shift, false);
    Walk1(next, c.shift, true);
    Walk2(next, c.shift, true, true);
    var p := [true, false];
    assert p + Lows(0) == p;
    assert Leads(next, c.shift, p + Lows(0), c.pause) && Leads(next, c.shift, p + Lows(1), c.pause);
    Walk2(next, c.shift, true, false);
    WalkOneMore(next, c.shift, p, false);
    assert Leads(next, c.shift, p + Lows(0) + [true], c.exit2);
    WalkOneMore(next, c.shift, p, true);
    assert Leads(next, c.shift, p + Lows(0) + [true, false], c.shift);
    assert Leads(next, c.shift, p + Lows(0) + [true, true], c.update);
    assert p + [true, false] == (p + [true]) + [false] && p + [true, true] == (p + [true]) + [true];
    WalkOneMore(next, c.shift, p + [true], false);
    WalkOneMore(next, c.shift, p + [true], true);
    Walk1(next, c.update, false);
    Walk1(next, c.update, true);
  }

  lemma SelectWords(next: (TapState, bool) -> TapState)
    ensures var s1 := next(RunTestIdle, true);
            var s2 := next(s1, true);
            && WalkBy(next, RunTestIdle, [true]) == s1 && WalkBy(next, RunTestIdle, [true, true]) == s2
            && WalkBy(next, RunTestIdle, [true] + [false]) == next(s1, false)
            && WalkBy(next, RunTestIdle, [true, true] + [false]) == next(s2, false)
            && WalkBy(next, RunTestIdle, [true, true, true]) == next(s2, true)
  {
    hide WalkBy;
    Walk1(next, RunTestIdle, true);
    Walk2(next, RunTestIdle, true, true);
    WalkOneMore(next, RunTestIdle, [true], false);
    WalkOneMore(next, RunTestIdle, [true, true], false);
    WalkOneMore(next, RunTestIdle, [true, true], true);
    assert [true, true] + [true] == [true, true, true];
  }

  lemma Few()
    ensures Lows(1) == [false] && Highs(1) == [true] && [false] + Lows(0) == [false]
  {
  }

  lemma OuterScans(next: (TapState, bool) -> TapState)
    requires IsController(next)
    ensures OuterSteps(next)
  {
    hide WalkBy, Lows, Highs;
    SelectWords(next);
    Few();
    assert Leads(next, RunTestIdle, Lows(1), RunTestIdle) && Leads(next, TestLogicReset, Highs(1), TestLogicReset);
    assert Leads(next, TestLogicReset, [false] + Lows(0), RunTestIdle);
    Walk1(next, RunTestIdle, false);
    Walk1(next, TestLogicReset, false);
    Walk1(next, TestLogicReset, true);
  }

  lemma StepsAreController(next: (TapState, bool) -> TapState)
    requires OuterSteps(next) && ColumnSteps(next, DR) && ColumnSteps(next, IR)
    requires forall s, b :: next(s, b) == TestLogicReset ==> b && (s == TestLogicReset || s == SelectIrScan)
    ensures IsController(next)
  {
    hide WalkBy, ScansColumn, ColumnSteps, Lows, Highs;
    SelectWords(next);
    StepsScan(next, [true], DR);
    StepsScan(next, [true, true], IR);
    forall k: nat
      ensures Leads(next, RunTestIdle, Lows(k), RunTestIdle)
      ensures Leads(next, TestLogicReset, Highs(k), TestLogicReset)
      ensures Leads(next, TestLogicReset, [false] + Lows(k), RunTestIdle)
    {
      Rests(next, RunTestIdle, k);
      RestsHigh(next, TestLogicReset, k);
      Walk1(next, TestLogicReset, false);
      WalkOn(next, TestLogicReset, [false], Lows(k));
    }
  }

  lemma ResetEntered(s: TapState, b: bool)
    ensures NextState(s, b) == TestLogicReset ==> b && (s == TestLogicReset || s == SelectIrScan)
  {
  }

  lemma OwnOuterSteps()
    ensures OuterSteps(NextState)
  {
  }

  lemma OwnColumnSteps(c: Column)
    requires c == DR || c == IR
    ensures ColumnSteps(NextState, c)
  {
    if c == DR {
      assert NextState(CaptureDr, false) == NextState(ShiftDr, false) == NextState(Exit2Dr, false) == ShiftDr;
    } else {
      assert NextState(CaptureIr, false) == NextState(ShiftIr, false) == NextState(Exit2Ir, false) == ShiftIr;
    }
  }

  lemma SameSteps(next: (TapState, bool) -> TapState)
    requires forall s, b :: next(s, b) == NextState(s, b)
    ensures OuterSteps(next) && ColumnSteps(next, DR) && ColumnSteps(next, IR)
    ensures forall s, b :: next(s, b) == TestLogicReset ==> b && (s == TestLogicReset || s == SelectIrScan)
  {
    hide NextState;
    OwnOuterSteps();
    OwnColumnSteps(DR);
    OwnColumnSteps(IR);
    forall s, b
      ensures next(s, b) == TestLogicReset ==> b && (s == TestLogicReset || s == SelectIrScan)
    {
      ResetEntered(s, b);
    }
  }

  /** There is no other controller: what is said about scans fixes all 32 transitions. */
  lemma OneController(next: (TapState, bool) -> TapState)
    ensures IsController(next) <==> forall s, b :: next(s, b) == NextState(s, b)
  {
    hide WalkBy, ScansColumn, Leads, Lows, Highs, ColumnSteps, OuterSteps, NextState;
    if IsController(next) {
      OuterScans(next);
      ScanSteps(next, [true], DR);
      ScanSteps(next, [true, true], IR);
      forall s, b
        ensures next(s, b) == NextState(s, b)
      {
        AllSteps(next, s, b);
      }
    }
    if forall s, b :: next(s, b) == NextState(s, b) {
      SameSteps(next);
      StepsAreController(next);
    }
  }

  /** The controller here is the one of the standard. */
  lemma NextStateIsController()
    ensures IsController(NextState)
  {
    OneController(NextState);
  }

  // ---------------------------------------------------------------- register machines

  /** A register file: how a clock outside and inside the shift states changes it, and the TDO
      level it drives after a shift clock was taken into account. */
  datatype Machine<!R> = Machine(move: (R, bool) -> R, shift: (R, bool, bool) -> R, out: R -> bool)

  datatype MachineRun<R> = MachineRun(state: TapState, regs: R, tdo: seq<bool>)

  function Latch<R>(m: Machine<R>, r: R, o: Observation): R
  {
    match o
    case Moved(tms) => m.move(r, tms)
    case Shifted(tms, tdi) => m.shift(r, tms, tdi)
  }

  function Replay<R>(m: Machine<R>, r: R, seen: seq<Observation>): R
  {
    if seen == [] then r else Latch(m, Replay(m, r, seen[..|seen| - 1]), seen[|seen| - 1])
  }

  /** Clocking a register file directly. */
  function RunMachine<R>(m: Machine<R>, s: TapState, r: R, ps: seq<Pulse>): MachineRun<R>
  {
    if ps == [] then MachineRun(s, r, [])
    else
      var p := ps[|ps| - 1];
      var before := RunMachine(m, s, r, ps[..|ps| - 1]);
      var regs := if IsShift(before.state) then m.shift(before.regs, p.tms, p.tdi) else m.move(before.regs, p.tms);
      MachineRun(NextState(before.state, p.tms), regs, before.tdo + [IsShift(before.state) && m.out(regs)])
  }

  /** Every register machine is the device that replays the history: same controller state, same
      TDO levels, and the registers are a function of the history alone. */
  lemma {:induction false} RegistersFollowHistory<R>(m: Machine<R>, s: TapState, r: R, ps: seq<Pulse>)
    ensures var c := Clock((h: seq<Observation>) => m.out(Replay(m, r, h)), Tap(s, []), ps);
            RunMachine(m, s, r, ps) == MachineRun(c.tap.state, Replay(m, r, c.tap.seen), c.tdo)
  {
    if ps != [] {
      var dev := (h: seq<Observation>) => m.out(Replay(m, r, h));
      var p := ps[|ps| - 1];
      var c := Clock(dev, Tap(s, []), ps[..|ps| - 1]);
      RegistersFollowHistory(m, s, r, ps[..|ps| - 1]);
      var seen := c.tap.seen + [Observed(c.tap.state, p)];
      assert seen[..|seen| - 1] == c.tap.seen;
    }
  }
}
