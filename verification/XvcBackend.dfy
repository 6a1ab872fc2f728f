/** What the XVC server talks to: any driver, or the driver of an FTDI chip with its target. */
module XvcBackend {
  import opened Octets
  import opened Tap
  import opened Mpsse
  import opened Splitting
  import opened Meaning
  import opened Wrappers
  import opened XvcProtocol
  import F = Driver
  import J = JtagSplitter
  import T = TckPeriod

  // ---------------------------------------------------------------- commands at the target

  /** The call a command leads to is within the range of a C int in all its steps. */
  predicate Defined(c: Command)
  {
    match c
    case GetInfo => true
    case SetTck(t) => T.ProductFits(true, t)
    case Shift(n, tms, tdi) => n <= J.MAX_NUM_BITS && |tms| == |tdi| == VectorBytes(n)
  }

  predicate AllDefined(cs: seq<Command>)
  {
    forall i :: 0 <= i < |cs| ==> Defined(cs[i])
  }

  lemma VectorBits(n: nat)
    ensures n <= 8 * VectorBytes(n) < n + 8
  {
  }

  function VectorsOf(c: Command): (v: J.Vectors)
    requires Defined(c) && c.Shift?
    ensures J.Whole(v)
  {
    VectorBits(c.numBits);
    J.Vectors(c.numBits, c.tms, c.tdi)
  }

  /** The shifts among some commands. */
  function Shifts(cs: seq<Command>): (calls: seq<J.Vectors>)
    requires AllDefined(cs)
    ensures J.AllWhole(calls)
  {
    if cs == [] then []
    else
      var before, c := Shifts(cs[..|cs| - 1]), cs[|cs| - 1];
      if c.Shift? then before + [VectorsOf(c)] else before
  }

  /** The target once it has been clocked with the bits of all shifts. */
  ghost function TargetAfter(dev: Device, t: Tap, cs: seq<Command>): Tap
    requires AllDefined(cs)
  {
    F.TapAfter(dev, t, Shifts(cs))
  }

  /** The bytes hold the TDO levels of the vectors' bits clocked in a shift state. */
  ghost predicate HoldsTdo(dev: Device, t: Tap, v: J.Vectors, bytes: seq<byte>)
    requires J.Whole(v)
  {
    && |bytes| == VectorBytes(v.numBits) && v.numBits <= 8 * |bytes|
    && var levels := Clock(dev, t, Pulses(v.tms, v.tdi, 0, v.numBits)).tdo;
       forall j: nat :: j < v.numBits && IsShift(StateAt(t.state, v.tms, j)) ==> VecBit(bytes, j) == levels[j]
  }

  /** The driver can take the `i`-th command: its values are in range, its extras fit, and it is not
      the period 0. */
  ghost predicate Takes(dev: Device, t: Tap, cs: seq<Command>, i: nat)
    requires i < |cs| && AllDefined(cs[..i])
  {
    && Defined(cs[i])
    && (cs[i].SetTck? ==> cs[i].periodNs > 0)
    && (cs[i].Shift? ==>
          var v := VectorsOf(cs[i]);
          F.EventsFit(TargetAfter(dev, t, cs[..i]).state, v.tms, v.tdi, v.numBits))
  }

  /** The driver can take the `i`-th command, and the answer is right: eight bits for every byte of the
      chip's buffer, the period of the divider chosen, or what this target says, once clocked with all
      bits before. */
  ghost predicate AnswerOfTarget(dev: Device, t: Tap, size: nat, cs: seq<Command>, i: nat, a: Answer)
    requires AllDefined(cs) && i < |cs|
  {
    && Takes(dev, t, cs, i)
    && (cs[i].GetInfo? ==> a == Answer.MaxVectorBits(8 * size))
    && (cs[i].SetTck? ==> a == Answer.TckPeriod(T.ReportedPeriod(true, cs[i].periodNs)))
    && (cs[i].Shift? ==> a.Tdo? && HoldsTdo(dev, TargetAfter(dev, t, cs[..i]), VectorsOf(cs[i]), a.bytes))
  }

  ghost predicate AnswersOfTarget(dev: Device, t: Tap, size: nat, cs: seq<Command>, answers: seq<Answer>)
    requires AllDefined(cs)
  {
    |answers| == |cs| && forall i :: 0 <= i < |cs| ==> AnswerOfTarget(dev, t, size, cs, i, answers[i])
  }

  /** The period that the client has asked for last. */
  function LatestPeriod(cs: seq<Command>): Option<nat>
  {
    if cs == [] then None
    else if cs[|cs| - 1].SetTck? then Some(cs[|cs| - 1].periodNs)
    else LatestPeriod(cs[..|cs| - 1])
  }

  /** The chip's clock has the period that was answered last, or is as before if there was none. */
  ghost predicate ClockAfter(cs: seq<Command>, before: Settings, now: Settings)
  {
    match LatestPeriod(cs)
    case None => F.SameClock(now, before)
    case Some(p) => p > 0 && T.ChipPeriod(now) == T.ReportedPeriod(true, p)
  }

  lemma ClockOneMore(cs: seq<Command>, c: Command, s0: Settings, s: Settings, s': Settings)
    requires ClockAfter(cs, s0, s)
    requires if c.SetTck? then c.periodNs > 0 && T.ChipPeriod(s') == T.ReportedPeriod(true, c.periodNs) else s' == s
    ensures ClockAfter(cs + [c], s0, s')
  {
    hide T.ChipPeriod, T.ReportedPeriod;
    assert (cs + [c])[..|cs|] == cs;
  }

  lemma NoCommands(dev: Device, t: Tap, size: nat, s: Settings)
    ensures AllDefined([]) && Shifts([]) == [] && TargetAfter(dev, t, []) == t
    ensures AnswersOfTarget(dev, t, size, [], []) && ClockAfter([], s, s)
  {
    F.NoCalls(dev, t);
  }

  /** One more command. */
  lemma OneCommandMore(dev: Device, t: Tap, cs: seq<Command>, c: Command)
    requires AllDefined(cs) && Defined(c)
    ensures AllDefined(cs + [c])
    ensures TargetAfter(dev, t, cs + [c])
            == if c.Shift? then Clock(dev, TargetAfter(dev, t, cs), Pulses(c.tms, c.tdi, 0, c.numBits)).tap
               else TargetAfter(dev, t, cs)
  {
    hide Clock, Pulses;
    assert (cs + [c])[..|cs|] == cs;
    if c.Shift? {
      var calls := Shifts(cs) + [VectorsOf(c)];
      F.OneCallMore(dev, t, calls, |calls| - 1);
      assert calls[..|calls| - 1] == Shifts(cs) && calls[..|calls|] == calls;
    }
  }

  lemma OneAnswerOfTarget(dev: Device, t: Tap, size: nat, cs: seq<Command>, answers: seq<Answer>, c: Command, a: Answer)
    requires AllDefined(cs) && Defined(c) && AnswersOfTarget(dev, t, size, cs, answers)
    requires c.GetInfo? ==> a == Answer.MaxVectorBits(8 * size)
    requires c.SetTck? ==> c.periodNs > 0 && a == Answer.TckPeriod(T.ReportedPeriod(true, c.periodNs))
    requires c.Shift? ==>
      && F.EventsFit(TargetAfter(dev, t, cs).state, c.tms, c.tdi, c.numBits)
      && a.Tdo? && HoldsTdo(dev, TargetAfter(dev, t, cs), VectorsOf(c), a.bytes)
    ensures AllDefined(cs + [c]) && AnswersOfTarget(dev, t, size, cs + [c], answers + [a])
  {
    hide HoldsTdo, TargetAfter, Defined, F.EventsFit, T.ReportedPeriod;
    forall i | 0 <= i < |cs| + 1
      ensures AnswerOfTarget(dev, t, size, cs + [c], i, (answers + [a])[i])
    {
      if i < |cs| {
        assert (cs + [c])[..i] == cs[..i];
        assert AnswerOfTarget(dev, t, size, cs, i, answers[i]);
      } else {
        assert (cs + [c])[..i] == cs;
      }
    }
  }

  /** The front of the TDO vector holds the levels captured. */
  lemma CapturedHeld(dev: Device, t: Tap, v: J.Vectors, before: seq<byte>, now: seq<byte>)
    requires J.Whole(v) && VectorBytes(v.numBits) <= |now|
    requires Captured(before, now, t.state, v.tms, v.numBits, Clock(dev, t, Pulses(v.tms, v.tdi, 0, v.numBits)).tdo)
    ensures HoldsTdo(dev, t, v, now[..VectorBytes(v.numBits)])
  {
    hide Clock, StateAt, Bit;
    VectorBits(v.numBits);
    var bytes := now[..VectorBytes(v.numBits)];
    forall j: nat | j < v.numBits
      ensures VecBit(bytes, j) == VecBit(now, j)
    {
    }
  }

  // ---------------------------------------------------------------- the driver

  /** A command that the driver cannot take has overstrained it. */
  lemma NotTaken(dev: Device, t: Tap, cs: seq<Command>, c: Command)
    requires AllDefined(cs)
    requires !Defined(c) || c == SetTck(0)
             || (c.Shift? && !F.EventsFit(TargetAfter(dev, t, cs).state, c.tms, c.tdi, c.numBits))
    ensures var all := cs + [c]; all[..|all| - 1] == cs && !Takes(dev, t, all, |all| - 1)
  {
    hide TargetAfter, F.EventsFit, AllDefined;
    assert (cs + [c])[..|cs|] == cs;
  }

  /** A driver, which records what it is asked and what it has answered.  Without `ftdi` it is any
      driver; with it, the calls are made on that driver.  `lost` says that a call has failed. */
  class XvcDriver {
    const reliable: bool
    const ftdi: F.Driver?
    const spare: array<byte>
    ghost const cb: J.Callback?
    ghost const parts: set<object>
    ghost const start: Tap
    ghost const initial: Settings
    ghost const linkReliable: bool
    var calls: seq<Command>
    var answers: seq<Answer>
    var lost: bool

    constructor (reliable: bool)
      ensures this.reliable == reliable && calls == [] && answers == [] && Synced() && !lost && parts == {}
    {
      this.reliable, ftdi, spare, cb, parts, start := reliable, null, new byte[0], null, {}, Tap(TestLogicReset, []);
      initial, linkReliable := Settings(0, false, 0, 0), reliable;
      calls, answers, lost := [], [], false;
    }

    /** The driver of a chip whose target is in whatever state. */
    constructor Attach(ftdi: F.Driver, ghost tdo: array<byte>)
      requires ftdi.Idle(tdo) && ftdi.highSpeedCapable
      ensures !reliable && this.ftdi == ftdi && start == ftdi.Chip().tap && calls == [] && answers == []
      ensures linkReliable == ftdi.cmdBuffer.ftChip.reliable && initial == ftdi.Chip().settings
      ensures Synced() && !lost && fresh(spare)
      ensures parts == {spare, ftdi, ftdi.cmdBuffer, ftdi.cmdBuffer.ftChip, ftdi.cmdBuffer.pool, ftdi.pool,
                        ftdi.jtagSplitter, ftdi.jtagSplitter.cb}
    {
      var none := new byte[0];
      reliable, this.ftdi, spare, cb := false, ftdi, none, ftdi.jtagSplitter.cb;
      parts := {none, ftdi, ftdi.cmdBuffer, ftdi.cmdBuffer.ftChip, ftdi.cmdBuffer.pool, ftdi.pool, ftdi.jtagSplitter,
                ftdi.jtagSplitter.cb};
      start, initial, linkReliable := ftdi.Chip().tap, ftdi.Chip().settings, ftdi.cmdBuffer.ftChip.reliable;
      calls, answers, lost := [], [], false;
      new;
      ftdi.QuietForAny(tdo, spare);
      NoCommands(Dev(), start, ftdi.chipBufferBytes, initial);
    }

    ghost function Dev(): Device
      requires ftdi != null
    {
      ftdi.cmdBuffer.ftChip.env.dev
    }

    ghost predicate Attached()
    {
      && !reliable && ftdi != null && cb != null && ftdi.cmdBuffer.extras == ftdi.pool && ftdi.highSpeedCapable
      && (ftdi.chipBufferBytes == 1024 || ftdi.chipBufferBytes == 4096)
      && parts == {spare, ftdi, ftdi.cmdBuffer, ftdi.cmdBuffer.ftChip, ftdi.cmdBuffer.pool, ftdi.pool,
                   ftdi.jtagSplitter, cb}
    }

    /** While no call has failed, the target has been clocked with the bits of all shifts, and all
        answers are its own, to commands that the driver can take; a call fails only on a bad link or if
        the driver cannot take it. */
    ghost predicate Synced()
      reads this, parts
    {
      if ftdi == null then parts == {}
      else
        && Attached() && ftdi.jtagSplitter.cb == cb && ftdi.cmdBuffer.ftChip.reliable == linkReliable
        && (!lost ==>
              && AllDefined(calls) && ftdi.Idle(spare)
              && ftdi.Chip().tap == TargetAfter(Dev(), start, calls)
              && AnswersOfTarget(Dev(), start, ftdi.chipBufferBytes, calls, answers)
              && ClockAfter(calls, initial, ftdi.Chip().settings) && F.SamePins(ftdi.Chip().settings, initial))
        && (lost ==> !linkReliable || Overstrained())
    }

    /** The latest command is one that the driver cannot take. */
    ghost predicate Overstrained()
      reads this
      requires ftdi != null
    {
      && calls != [] && AllDefined(calls[..|calls| - 1])
      && !Takes(Dev(), start, calls, |calls| - 1)
    }

    /** What the driver's state says about its target. */
    lemma AtTarget()
      requires Synced() && ftdi != null
      ensures !lost ==>
        && AllDefined(calls) && ftdi.Chip().tap == TargetAfter(Dev(), start, calls)
        && AnswersOfTarget(Dev(), start, ftdi.chipBufferBytes, calls, answers)
        && ClockAfter(calls, initial, ftdi.Chip().settings) && F.SamePins(ftdi.Chip().settings, initial)
      ensures lost && linkReliable ==> Overstrained()
    {
    }

    method MaxVectorBits() returns (n: int)
      requires Synced() && !lost
      modifies this
      ensures calls == old(calls) + [Command.GetInfo] && answers == old(answers) + [Answer.MaxVectorBits(n)]
      ensures reliable ==> n > 0
      ensures Synced() && (lost <==> n <= 0)
    {
      if ftdi == null {
        n := *;
        n := if reliable && n <= 0 then 1 else n;
      } else {
        n := F.MaxVectorBits(ftdi.chipBufferBytes);
        OneCommandMore(Dev(), start, calls, Command.GetInfo);
        OneAnswerOfTarget(Dev(), start, ftdi.chipBufferBytes, calls, answers, Command.GetInfo, Answer.MaxVectorBits(n));
        ClockOneMore(calls, Command.GetInfo, initial, ftdi.Chip().settings, ftdi.Chip().settings);
      }
      lost := n <= 0;
      calls, answers := calls + [Command.GetInfo], answers + [Answer.MaxVectorBits(n)];
    }

    method SetTckPeriod(periodNs: nat) returns (actualNs: int)
      requires Synced() && !lost
      modifies this, parts
      ensures calls == old(calls) + [SetTck(periodNs)] && answers == old(answers) + [Answer.TckPeriod(actualNs)]
      ensures actualNs < 0x8000_0000 && (reliable ==> actualNs > 0)
      ensures Synced() && (lost <==> actualNs <= 0)
    {
      hide TargetAfter, AnswersOfTarget, AllDefined, T.ProductFits, T.ReportedPeriod, T.ChipPeriod, Takes,
           F.Driver.Idle, ClockAfter;
      ghost var before := calls;
      var c := SetTck(periodNs);
      if ftdi == null {
        actualNs := *;
        actualNs := if actualNs >= 0x8000_0000 || (reliable && actualNs <= 0) then 1 else actualNs;
      } else if !T.ProductFits(true, periodNs) {
        actualNs := -1;
        NotTaken(Dev(), start, before, c);
      } else {
        var res;
        res, actualNs := ftdi.SetTckPeriod(periodNs, spare);
        if res == F.GaveUp {
          actualNs := -1;
          NotTaken(Dev(), start, before, c);
        } else if res == F.Done {
          OneCommandMore(Dev(), start, before, c);
          OneAnswerOfTarget(Dev(), start, ftdi.chipBufferBytes, before, answers, c, Answer.TckPeriod(actualNs));
          ClockOneMore(before, c, initial, old(ftdi.Chip().settings), ftdi.Chip().settings);
        }
      }
      lost := actualNs <= 0;
      calls, answers := calls + [c], answers + [Answer.TckPeriod(actualNs)];
    }

    /** A shift on the real driver; more bits than it can count are a failure. */
    method ShiftAtTarget(numBits: nat, tms: seq<byte>, tdi: seq<byte>, tdo: array<byte>) returns (ok: bool)
      requires ftdi != null && Attached() && ftdi.jtagSplitter.cb == cb && ftdi.Idle(spare)
      requires |tms| == |tdi| == VectorBytes(numBits) <= tdo.Length && tdo !in parts
      modifies parts, tdo
      ensures ftdi.jtagSplitter.cb == cb && ftdi.cmdBuffer.ftChip.reliable == old(ftdi.cmdBuffer.ftChip.reliable)
      ensures ok ==>
        var c, t := Shift(numBits, tms, tdi), old(ftdi.Chip().tap);
        && Defined(c) && ftdi.Idle(spare) && ftdi.Chip().tap == Clock(Dev(), t, Pulses(tms, tdi, 0, numBits)).tap
        && HoldsTdo(Dev(), t, VectorsOf(c), tdo[..VectorBytes(numBits)])
        && F.EventsFit(t.state, tms, tdi, numBits) && ftdi.Chip().settings == old(ftdi.Chip().settings)
      ensures !ok && ftdi.cmdBuffer.ftChip.reliable ==>
        numBits > J.MAX_NUM_BITS || !F.EventsFit(old(ftdi.Chip().tap.state), tms, tdi, numBits)
    {
      hide Clock, Pulses, HoldsTdo, StateAt, F.EventsFit, Captured, IsShift;
      VectorBits(numBits);
      if numBits > J.MAX_NUM_BITS {
        return false;
      }
      ghost var t, before := ftdi.Chip().tap, tdo[..];
      ftdi.QuietForAny(spare, tdo);
      var res := ftdi.ShiftBits(numBits, tms, tdi, tdo);
      ok := res == F.Done;
      if ok {
        ftdi.QuietForAny(tdo, spare);
        CapturedHeld(Dev(), t, J.Vectors(numBits, tms, tdi), before, tdo[..]);
        assert tdo[..][..VectorBytes(numBits)] == tdo[..VectorBytes(numBits)];
      }
    }

    method ShiftBits(numBits: nat, tms: array<byte>, tdi: array<byte>, tdo: array<byte>) returns (ok: bool)
      requires Synced() && !lost
      requires VectorBytes(numBits) <= tms.Length && VectorBytes(numBits) <= tdi.Length
      requires VectorBytes(numBits) <= tdo.Length
      requires tdo != tms && tdo != tdi && tms !in parts && tdi !in parts && tdo !in parts
      modifies this, parts, tdo
      ensures calls == old(calls) + [Shift(numBits, tms[..VectorBytes(numBits)], tdi[..VectorBytes(numBits)])]
      ensures answers == old(answers) + [Tdo(tdo[..VectorBytes(numBits)])]
      ensures reliable ==> ok
      ensures Synced() && (lost <==> !ok)
    {
      hide TargetAfter, AnswersOfTarget, AllDefined, Clock, Pulses, HoldsTdo, StateAt, F.EventsFit, Takes,
           F.Driver.Idle, ClockAfter;
      var m := VectorBytes(numBits);
      var c := Shift(numBits, tms[..m], tdi[..m]);
      VectorBits(numBits);
      ghost var before := calls;
      if ftdi == null {
        for i := 0 to m
          invariant calls == old(calls) && answers == old(answers) && !lost && Synced()
        {
          tdo[i] := *;
        }
        var fault: bool := *;
        ok := reliable || !fault;
      } else {
        ok := ShiftAtTarget(numBits, tms[..m], tdi[..m], tdo);
        if ok {
          OneCommandMore(Dev(), start, before, c);
          OneAnswerOfTarget(Dev(), start, ftdi.chipBufferBytes, before, answers, c, Tdo(tdo[..m]));
          ClockOneMore(before, c, initial, old(ftdi.Chip().settings), ftdi.Chip().settings);
        } else if linkReliable {
          NotTaken(Dev(), start, before, c);
        }
      }
      lost := !ok;
      calls, answers := calls + [c], answers + [Tdo(tdo[..m])];
    }
  }
}
