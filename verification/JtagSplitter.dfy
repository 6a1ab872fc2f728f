/** The splitter's state and its loop, with a callback that may fail at any event. */
module JtagSplitter {
  import opened Octets
  import opened Tap
  import opened Splitting

  /** The controller state after an accepted event. */
  function AfterEvent(s: TapState, e: Event): TapState
    requires EventInRange(e)
  {
    StateAfter(s, Train(e, false))
  }

  function AfterEvents(s: TapState, es: seq<Event>): TapState
    requires AllInRange(es)
  {
    if es == [] then s else AfterEvent(AfterEvents(s, es[..|es| - 1]), es[|es| - 1])
  }

  /** An event handed to the callback, and the answer. */
  datatype Handed = Handed(event: Event, accepted: bool)

  /** How a callback behaves: whether it accepts the events handed to it, counted from 0, and in which
      state it leaves the TAP when it refuses one. */
  datatype Script = Script(answers: nat -> bool, taps: nat -> TapState)

  ghost predicate AcceptsAll(script: Script)
  {
    forall i: nat :: script.answers(i)
  }

  /** The receiver of events together with the TAP it drives.  Any behaviour is the script of some
      callback. */
  class Callback {
    const script: Script
    var log: seq<Handed>
    var tap: TapState

    constructor (script: Script, tap: TapState)
      ensures this.script == script && log == [] && this.tap == tap && Follows()
    {
      this.script, log, this.tap := script, [], tap;
    }

    /** The answers are those of the script. */
    ghost predicate Follows()
      reads this
    {
      forall i :: 0 <= i < |log| ==> log[i].accepted == script.answers(i)
    }

    method Call(e: Event) returns (ok: bool)
      requires EventInRange(e)
      modifies this
      ensures log == old(log) + [Handed(e, ok)]
      ensures AcceptsAll(script) ==> ok
      ensures old(Follows()) ==> Follows()
      ensures tap == if ok then AfterEvent(old(tap), e) else script.taps(|old(log)|)
    {
      ok := script.answers(|log|);
      tap := if ok then AfterEvent(tap, e) else script.taps(|log|);
      log := log + [Handed(e, ok)];
    }
  }

  /** The log of a stretch of events that are all accepted. */
  function Accepted(es: seq<Event>): (log: seq<Handed>)
    ensures |log| == |es|
  {
    seq(|es|, i requires 0 <= i < |es| => Handed(es[i], true))
  }

  lemma AcceptedOneMore(es: seq<Event>, e: Event)
    ensures Accepted(es + [e]) == Accepted(es) + [Handed(e, true)]
  {
  }

  const RESET_EVENT := ShiftTms([0x1f], 0, 5)

  /** What is handed over when the TAP is reset, and whether the reset was accepted. */
  predicate IsReset(log: seq<Handed>, ok: bool)
  {
    || (log == [Handed(RESET_EVENT, false)] && !ok)
    || log == [Handed(RESET_EVENT, true), Handed(FlushAll, ok)]
  }

  lemma ResetLevels(i: nat)
    requires i < 5
    ensures Bit(0x1f, i)
  {
    assert Bit(31, 0) && Bit(15, 0) && Bit(7, 0) && Bit(3, 0) && Bit(1, 0);
    assert Bit(31, 1) == Bit(15, 0) && Bit(31, 2) == Bit(7, 0);
  }

  /** The reset event leads from every state to Test-Logic-Reset. */
  lemma ResetResets(s: TapState)
    ensures EventInRange(RESET_EVENT) && AfterEvent(s, RESET_EVENT) == TestLogicReset
  {
    var ps := Train(RESET_EVENT, false);
    forall i | 0 <= i < |ps|
      ensures ps[i].tms
    {
      ResetLevels(i);
    }
    var dev := (h: seq<Observation>) => false;
    HighsReset(dev, Tap(s, []), ps);
    ClockState(dev, Tap(s, []), ps);
  }

  /** From every state a stretch takes the TAP where the TMS bits do. */
  lemma StretchMoves(e: Event, s: TapState, t: TapState, tms: seq<byte>, tdi: seq<byte>, n: nat)
    requires n <= 8 * |tms| && n <= 8 * |tdi|
    requires IsStretch(e, s, tms, tdi, n)
    ensures EventInRange(e) && AfterEvent(StateAt(t, tms, e.from), e) == StateAt(t, tms, e.to)
  {
    hide IsStretch, StateAt, Train, VecBit;
    StretchNotEmpty(e, s, tms, tdi, n);
    TrainLevels(e, s, tms, tdi, n, false, 0);
    var ps := Train(e, false);
    forall i | 0 <= i < |ps|
      ensures ps[i].tms == VecBit(tms, e.from + i)
    {
      TrainLevels(e, s, tms, tdi, n, false, i);
    }
    StateAfterPulses(t, tms, e.from, ps);
  }

  lemma FlushStays(s: TapState)
    ensures AfterEvent(s, FlushAll) == s
  {
  }

  /** A tiling takes the TAP where the TMS bits do, from every state of the TAP, and not only from the
      state that it was made for. */
  lemma {:induction false} TilesMove(es: seq<Event>, s: TapState, t: TapState, tms: seq<byte>, tdi: seq<byte>, n: nat,
                                     to: nat)
    requires n <= 8 * |tms| && n <= 8 * |tdi| && Tiles(es, s, tms, tdi, n, to)
    ensures AllInRange(es) && to <= n && AfterEvents(t, es) == StateAt(t, tms, to)
  {
    hide IsStretch, StateAt, AfterEvent;
    if es == [] {
      StateAtStart(t, tms);
    } else {
      var e := es[|es| - 1];
      StretchNotEmpty(e, s, tms, tdi, n);
      TilesMove(es[..|es| - 1], s, t, tms, tdi, n, e.from);
      StretchMoves(e, s, t, tms, tdi, n);
      assert es == es[..|es| - 1] + [e];
    }
  }

  // ---------------------------------------------------------------- the range of a C int

  const INT_MAX := 0x7fff_ffff

  /** The greatest length whose loop stays within the range of a C int. */
  const MAX_NUM_BITS := 0x7fff_fff8

  /** The loop computes `bitIdx + 8` at the start of every octet.  This is defined for all of them
      exactly up to 2147483640 bits; for the seven greater lengths the last sum overflows. */
  lemma OctetEndsFit(numBits: nat)
    ensures numBits <= MAX_NUM_BITS <==>
      forall bitIdx: nat | bitIdx < numBits && bitIdx % 8 == 0 :: bitIdx + 8 <= INT_MAX
  {
    if numBits > MAX_NUM_BITS {
      var last: nat := MAX_NUM_BITS;
      assert last % 8 == 0 && last + 8 > INT_MAX;
    }
  }

  /** The refused event is the one that follows the accepted ones in the tiling, or the flush at its end. */
  ghost predicate IsRefused(es: seq<Event>, refused: Event, s: TapState, tms: seq<byte>, tdi: seq<byte>, n: nat)
    requires n <= 8 * |tms|
  {
    if refused.FlushAll? then Tiles(es, s, tms, tdi, n, n)
    else IsStretch(refused, s, tms, tdi, n) && Tiles(es, s, tms, tdi, n, refused.from)
  }

  /** What is handed over in a failed call. */
  ghost predicate IsFailure(log: seq<Handed>, es: seq<Event>, refused: Event, recovered: bool)
  {
    var k := |es| + 1;
    && |log| >= k && log[..k] == Accepted(es) + [Handed(refused, false)]
    && IsReset(log[k..], recovered)
  }

  lemma FailureLog(before: seq<Handed>, mid: seq<Handed>, after: seq<Handed>, es: seq<Event>, refused: Event,
                   recovered: bool)
    requires mid == before + Accepted(es) + [Handed(refused, false)]
    requires |after| >= |mid| && after[..|mid|] == mid && IsReset(after[|mid|..], recovered)
    ensures |after| >= |before| && after[..|before|] == before
    ensures IsFailure(after[|before|..], es, refused, recovered)
  {
    var k := |es| + 1;
    assert after[..|before|] == mid[..|before|];
    assert after[|before|..][..k] == mid[|before|..];
    assert after[|before|..][k..] == after[|mid|..];
  }

  lemma NoEventsYet(s: TapState)
    ensures AfterEvents(s, []) == s && Accepted([]) == []
  {
  }

  // ---------------------------------------------------------------- the loop

  /** What the loop knows when it looks at bit `bitIdx`. */
  ghost predicate Progress(s: TapState, tms: seq<byte>, tdi: seq<byte>, n: nat, es: seq<Event>, first: nat, bitIdx: nat,
                           jtagState: TapState)
    requires n <= 8 * |tms|
  {
    && first <= bitIdx <= n
    && jtagState == StateAt(s, tms, bitIdx)
    && Tiles(es, s, tms, tdi, n, first)
    && AllShift(s, tms, first, bitIdx, IsShift(jtagState))
    && (bitIdx == n ==> first == n)
  }

  lemma EventHanded(s: TapState, tms: seq<byte>, tdi: seq<byte>, n: nat, es: seq<Event>, first: nat, bitIdx: nat,
                    jtagState: TapState, e: Event, tap: TapState)
    requires n <= 8 * |tms| && n <= 8 * |tdi| && AllInRange(es)
    requires Progress(s, tms, tdi, n, es, first, bitIdx, jtagState)
    requires IsStretch(e, s, tms, tdi, n) && e.from == first
    ensures EventInRange(e) && AllInRange(es + [e]) && IsRefused(es, e, s, tms, tdi, n)
    ensures AfterEvents(tap, es + [e]) == AfterEvent(AfterEvents(tap, es), e)
  {
    hide AfterEvent, StateAt;
    assert (es + [e])[..|es|] == es;
  }

  lemma FlushRefused(es: seq<Event>, s: TapState, tms: seq<byte>, tdi: seq<byte>, n: nat)
    requires n <= 8 * |tms| && Tiles(es, s, tms, tdi, n, n)
    ensures IsRefused(es, FlushAll, s, tms, tdi, n)
  {
  }

  lemma ProgressStarts(s: TapState, tms: seq<byte>, tdi: seq<byte>, n: nat)
    requires n <= 8 * |tms|
    ensures Progress(s, tms, tdi, n, [], 0, 0, s) && StateAt(s, tms, 0) == s
  {
  }

  lemma ProgressEnds(s: TapState, tms: seq<byte>, tdi: seq<byte>, n: nat, es: seq<Event>, first: nat,
                     jtagState: TapState)
    requires n <= 8 * |tms| && Progress(s, tms, tdi, n, es, first, n, jtagState)
    ensures first == n && Tiles(es, s, tms, tdi, n, n) && jtagState == StateAt(s, tms, n)
  {
  }

  lemma StateAfterBit(s: TapState, tms: seq<byte>, bitIdx: nat)
    requires bitIdx < 8 * |tms|
    ensures StateAt(s, tms, bitIdx + 1) == NextState(StateAt(s, tms, bitIdx), VecBit(tms, bitIdx))
  {
  }

  lemma EventIsStretch(s: TapState, tms: seq<byte>, tdi: seq<byte>, n: nat, first: nat, bitIdx: nat,
                       jtagState: TapState, e: Event)
    requires first <= bitIdx < n <= 8 * |tms|
    requires jtagState == StateAt(s, tms, bitIdx) && AllShift(s, tms, first, bitIdx, IsShift(jtagState))
    requires var next := StateAt(s, tms, bitIdx + 1);
             && (bitIdx == n - 1 || IsShift(jtagState) != IsShift(next))
             && e == if IsShift(jtagState) then ShiftTdi(tdi, first, bitIdx + 1, IsShift(next))
                     else ShiftTms(tms, first, bitIdx + 1)
    ensures IsStretch(e, s, tms, tdi, n)
  {
    hide StateAt;
  }

  lemma EventEmitted(s: TapState, tms: seq<byte>, tdi: seq<byte>, n: nat, es: seq<Event>, first: nat, bitIdx: nat,
                     jtagState: TapState, e: Event)
    requires bitIdx < n <= 8 * |tms|
    requires Progress(s, tms, tdi, n, es, first, bitIdx, jtagState)
    requires var next := NextState(jtagState, VecBit(tms, bitIdx));
             && (bitIdx == n - 1 || IsShift(jtagState) != IsShift(next))
             && e == if IsShift(jtagState) then ShiftTdi(tdi, first, bitIdx + 1, IsShift(next))
                     else ShiftTms(tms, first, bitIdx + 1)
    ensures IsStretch(e, s, tms, tdi, n) && e.from == first && e.to == bitIdx + 1
    ensures Progress(s, tms, tdi, n, es + [e], bitIdx + 1, bitIdx + 1, NextState(jtagState, VecBit(tms, bitIdx)))
  {
    hide VecBit, NextState, IsStretch, StateAt;
    StateAfterBit(s, tms, bitIdx);
    EventIsStretch(s, tms, tdi, n, first, bitIdx, jtagState, e);
    assert (es + [e])[..|es|] == es;
  }

  lemma NoEvent(s: TapState, tms: seq<byte>, tdi: seq<byte>, n: nat, es: seq<Event>, first: nat, bitIdx: nat,
                jtagState: TapState)
    requires bitIdx + 1 < n <= 8 * |tms|
    requires Progress(s, tms, tdi, n, es, first, bitIdx, jtagState)
    requires IsShift(jtagState) == IsShift(NextState(jtagState, VecBit(tms, bitIdx)))
    ensures Progress(s, tms, tdi, n, es, first, bitIdx + 1, NextState(jtagState, VecBit(tms, bitIdx)))
  {
    hide VecBit, NextState, Tiles;
  }

  lemma FirstBit(tms: seq<byte>, start: nat)
    requires start < 8 * |tms|
    ensures ShiftRight(tms[start / 8], 0) == tms[start / 8]
  {
  }

  /** Shifting the TMS octet right brings its bits to the bottom one by one. */
  lemma NextBit(tms: seq<byte>, start: nat, bitIdx: nat)
    requires start % 8 == 0 && start <= bitIdx < start + 8 && bitIdx < 8 * |tms|
    ensures (ShiftRight(tms[start / 8], bitIdx - start) % 2 == 1) == VecBit(tms, bitIdx)
    ensures ShiftRight(tms[start / 8], bitIdx - start + 1) == ShiftRight(tms[start / 8], bitIdx - start) / 2
  {
    var b := tms[start / 8];
    BitOfShiftRight(b, bitIdx - start, 0);
    ShiftRightOnce(b, bitIdx - start);
    assert bitIdx / 8 == start / 8 && bitIdx % 8 == bitIdx - start;
  }

  // ---------------------------------------------------------------- the splitter

  class JtagSplitter {
    var state: TapState
    var cb: Callback?

    /** The saved state is the state of the TAP. */
    ghost predicate Agrees()
      reads this, cb
    {
      cb != null && state == cb.tap
    }

    /** tapReset() */
    static method TapReset(cb: Callback) returns (ok: bool)
      modifies cb
      ensures AcceptsAll(cb.script) ==> ok
      ensures |cb.log| > |old(cb.log)| && cb.log[..|old(cb.log)|] == old(cb.log)
      ensures IsReset(cb.log[|old(cb.log)|..], ok) && (old(cb.Follows()) ==> cb.Follows())
      ensures cb.tap == if ok then TestLogicReset else cb.script.taps(|cb.log| - 1)
    {
      ResetResets(cb.tap);
      ok := cb.Call(RESET_EVENT);
      if ok {
        ok := cb.Call(FlushAll);
      }
    }

    /** The object before txvc_jtag_splitter_init() has succeeded. */
    constructor ()
      ensures cb == null
    {
      cb, state := null, TestLogicReset;
    }

    /** txvc_jtag_splitter_init() */
    method Init(cb: Callback) returns (ok: bool)
      modifies this, cb
      ensures AcceptsAll(cb.script) ==> ok
      ensures |cb.log| > |old(cb.log)| && cb.log[..|old(cb.log)|] == old(cb.log)
      ensures IsReset(cb.log[|old(cb.log)|..], ok) && (old(cb.Follows()) ==> cb.Follows())
      ensures ok ==> this.cb == cb && state == TestLogicReset && Agrees()
      ensures !ok ==> this.cb == old(this.cb) && state == old(state)
    {
      ok := TapReset(cb);
      if !ok {
        return;
      }
      state := TestLogicReset;
      this.cb := cb;
    }

    /** txvc_jtag_splitter_deinit() */
    method Deinit() returns (ok: bool)
      requires cb != null
      modifies this, cb
      ensures AcceptsAll(old(cb).script) ==> ok
      ensures var log := old(cb).log; |log| >= |old(cb.log)| && log[..|old(cb.log)|] == old(cb.log)
      ensures IsReset(old(cb).log[|old(cb.log)|..], ok)
      ensures if ok then cb == null && state == TestLogicReset == old(cb).tap else state == old(state) && cb == old(cb)
    {
      ok := TapReset(cb);
      if !ok {
        return;
      }
      state := TestLogicReset;
      cb := null;
    }

    /** On success the callback has been handed the tiling of the vectors and one flush, and nothing
        else; wherever the TAP was, the TMS bits have led it on, so that the states agree if and only
        if the bits lead the saved state and the TAP's to the same one.  On failure the callback has
        been handed the tiling up to the event it refused, and then the reset, and the states agree if
        and only if this was accepted or has left the TAP reset all the same. */
    method Process(numBits: nat, tms: seq<byte>, tdi: seq<byte>)
      returns (ok: bool, ghost es: seq<Event>, ghost refused: Event, ghost recovered: bool)
      requires cb != null && numBits <= 8 * |tms| && numBits <= 8 * |tdi| && numBits <= MAX_NUM_BITS
      modifies this`state, cb
      ensures AcceptsAll(cb.script) ==> ok
      ensures |cb.log| > |old(cb.log)| && cb.log[..|old(cb.log)|] == old(cb.log)
      ensures old(cb.Follows()) ==> cb.Follows()
      ensures ok ==> Tiles(es, old(state), tms, tdi, numBits, numBits) && AllInRange(es)
      ensures ok ==> cb.log[|old(cb.log)|..] == Accepted(es) + [Handed(FlushAll, true)]
      ensures ok ==> state == StateAt(old(state), tms, numBits) && cb.tap == StateAt(old(cb.tap), tms, numBits)
      ensures ok ==> (Agrees() <==> StateAt(old(state), tms, numBits) == StateAt(old(cb.tap), tms, numBits))
      ensures !ok ==> IsRefused(es, refused, old(state), tms, tdi, numBits)
      ensures !ok ==> IsFailure(cb.log[|old(cb.log)|..], es, refused, recovered)
      ensures !ok ==> state == TestLogicReset
      ensures !ok ==> cb.tap == if recovered then TestLogicReset else cb.script.taps(|cb.log| - 1)
    {
      hide StateAt, IsStretch, IsRefused;
      recovered := false;
      ok, es, refused := Split(numBits, tms, tdi);
      if ok {
        return;
      }
      ghost var log := cb.log;
      recovered := TapReset(cb);
      state := TestLogicReset;
      FailureLog(old(cb.log), log, cb.log, es, refused, recovered);
    }

    /** The loop over the vectors; leaves the clean-up after a refused event to its caller. */
    method Split(numBits: nat, tms: seq<byte>, tdi: seq<byte>)
      returns (ok: bool, ghost es: seq<Event>, ghost refused: Event)
      requires cb != null && numBits <= 8 * |tms| && numBits <= 8 * |tdi| && numBits <= MAX_NUM_BITS
      modifies this`state, cb
      ensures AcceptsAll(cb.script) ==> ok
      ensures old(cb.Follows()) ==> cb.Follows()
      ensures ok ==> Tiles(es, old(state), tms, tdi, numBits, numBits) && AllInRange(es)
      ensures ok ==> cb.log == old(cb.log) + Accepted(es) + [Handed(FlushAll, true)]
      ensures ok ==> state == StateAt(old(state), tms, numBits) && cb.tap == StateAt(old(cb.tap), tms, numBits)
      ensures !ok ==> IsRefused(es, refused, old(state), tms, tdi, numBits)
      ensures !ok ==> cb.log == old(cb.log) + Accepted(es) + [Handed(refused, false)]
    {
      hide IsStretch, VecBit, Train, Bit, ShiftRight, Progress, Tiles, AfterEvent, StateAt, IsRefused, AfterEvents;
      es, refused := [], FlushAll;
      ghost var s := state;
      var firstPendingBitIdx := 0;
      var jtagState := state;
      var bitIdx := 0;
      ProgressStarts(s, tms, tdi, numBits);
      NoEventsYet(cb.tap);
      OctetEndsFit(numBits);
      while bitIdx < numBits
        invariant bitIdx <= numBits && (bitIdx % 8 == 0 || bitIdx == numBits)
        invariant Progress(s, tms, tdi, numBits, es, firstPendingBitIdx, bitIdx, jtagState)
        invariant firstPendingBitIdx <= bitIdx && AllInRange(es)
        invariant state == s && cb.log == old(cb.log) + Accepted(es) && cb.tap == AfterEvents(old(cb.tap), es)
        invariant old(cb.Follows()) ==> cb.Follows()
      {
        var tmsByte := tms[bitIdx / 8];
        assert bitIdx + 8 <= INT_MAX;
        var thisRoundEndBitIdx := if bitIdx + 8 > numBits then numBits else bitIdx + 8;
        ghost var start := bitIdx;
        FirstBit(tms, start);
        while bitIdx < thisRoundEndBitIdx
          invariant start <= bitIdx <= thisRoundEndBitIdx
          invariant tmsByte == ShiftRight(tms[start / 8], bitIdx - start)
          invariant Progress(s, tms, tdi, numBits, es, firstPendingBitIdx, bitIdx, jtagState)
          invariant firstPendingBitIdx <= bitIdx && AllInRange(es)
          invariant state == s && cb.log == old(cb.log) + Accepted(es) && cb.tap == AfterEvents(old(cb.tap), es)
          invariant old(cb.Follows()) ==> cb.Follows()
        {
          var tmsBit := tmsByte % 2 == 1;
          NextBit(tms, start, bitIdx);
          assert tmsBit == VecBit(tms, bitIdx);
          var nextJtagState := NextState(jtagState, tmsBit);
          var isShift := IsShift(jtagState);
          var nextIsShift := IsShift(nextJtagState);
          var enteringShift := !isShift && nextIsShift;
          assert enteringShift ==> !tmsBit;
          var leavingShift := isShift && !nextIsShift;
          assert leavingShift ==> tmsBit;
          var endOfVector := bitIdx == numBits - 1;
          if endOfVector || enteringShift || leavingShift {
            var nextPendingBitIdx := bitIdx + 1;
            var e := if isShift then ShiftTdi(tdi, firstPendingBitIdx, nextPendingBitIdx, !leavingShift)
                     else ShiftTms(tms, firstPendingBitIdx, nextPendingBitIdx);
            EventEmitted(s, tms, tdi, numBits, es, firstPendingBitIdx, bitIdx, jtagState, e);
            EventHanded(s, tms, tdi, numBits, es, firstPendingBitIdx, bitIdx, jtagState, e, old(cb.tap));
            ok := cb.Call(e);
            if !ok {
              refused := e;
              return;
            }
            AcceptedOneMore(es, e);
            es := es + [e];
            firstPendingBitIdx := nextPendingBitIdx;
          } else {
            NoEvent(s, tms, tdi, numBits, es, firstPendingBitIdx, bitIdx, jtagState);
          }
          tmsByte := tmsByte / 2;
          bitIdx := bitIdx + 1;
          jtagState := nextJtagState;
        }
      }
      ProgressEnds(s, tms, tdi, numBits, es, firstPendingBitIdx, jtagState);
      FlushRefused(es, s, tms, tdi, numBits);
      TilesMove(es, s, old(cb.tap), tms, tdi, numBits, numBits);
      FlushStays(cb.tap);
      ok := cb.Call(FlushAll);
      if !ok {
        return;
      }
      state := jtagState;
    }
  }

  // ---------------------------------------------------------------- runs

  /** The vectors of one call. */
  datatype Vectors = Vectors(numBits: nat, tms: seq<byte>, tdi: seq<byte>)

  predicate Whole(v: Vectors)
  {
    v.numBits <= 8 * |v.tms| && v.numBits <= 8 * |v.tdi| && v.numBits <= MAX_NUM_BITS
  }

  /** Every call of a run is one the splitter can be asked for. */
  predicate AllWhole(calls: seq<Vectors>)
  {
    forall i :: 0 <= i < |calls| ==> Whole(calls[i])
  }

  /** How a call ends: it succeeds, or it fails and the reset is accepted, or refused. */
  datatype Ending = Succeeded | Recovered | Lost

  /** What a call hands over, with the answers, when the state saved before is `s`. */
  ghost predicate IsCallLog(log: seq<Handed>, s: TapState, v: Vectors, e: Ending)
    requires Whole(v)
  {
    if e == Succeeded
    then exists es :: Tiles(es, s, v.tms, v.tdi, v.numBits, v.numBits) && log == Accepted(es) + [Handed(FlushAll, true)]
    else exists es, refused :: IsRefused(es, refused, s, v.tms, v.tdi, v.numBits)
                               && IsFailure(log, es, refused, e == Recovered)
  }

  /** The saved state after some calls that started with a reset TAP. */
  function SavedAfter(calls: seq<Vectors>, endings: seq<Ending>): TapState
    requires |calls| == |endings| && AllWhole(calls)
  {
    if calls == [] then TestLogicReset
    else
      var k := |calls| - 1;
      if endings[k] == Succeeded then StateAt(SavedAfter(calls[..k], endings[..k]), calls[k].tms, calls[k].numBits)
      else TestLogicReset
  }

  /** The state of the TAP then, if the latest refused reset has left it in the state `lost`. */
  function TapReached(calls: seq<Vectors>, endings: seq<Ending>, lost: TapState): TapState
    requires |calls| == |endings| && AllWhole(calls)
  {
    if calls == [] then TestLogicReset
    else
      var k := |calls| - 1;
      match endings[k]
      case Succeeded => StateAt(TapReached(calls[..k], endings[..k], lost), calls[k].tms, calls[k].numBits)
      case Recovered => TestLogicReset
      case Lost => lost
  }

  /** The calls since the latest refused reset lead the TAP from all sixteen states to the saved one.
      This can be computed from the vectors and from how the calls have ended. */
  ghost predicate InStep(calls: seq<Vectors>, endings: seq<Ending>)
    requires |calls| == |endings| && AllWhole(calls)
  {
    forall lost :: TapReached(calls, endings, lost) == SavedAfter(calls, endings)
  }

  /** The logs of some calls. */
  ghost predicate RunLogs(calls: seq<Vectors>, endings: seq<Ending>, logs: seq<seq<Handed>>)
  {
    && |calls| == |endings| == |logs| && AllWhole(calls)
    && (calls != [] ==>
          var k := |calls| - 1;
          && IsCallLog(logs[k], SavedAfter(calls[..k], endings[..k]), calls[k], endings[k])
          && RunLogs(calls[..k], endings[..k], logs[..k]))
  }

  function Flat(logs: seq<seq<Handed>>): seq<Handed>
  {
    if logs == [] then [] else Flat(logs[..|logs| - 1]) + logs[|logs| - 1]
  }

  predicate AllEventsInRange(log: seq<Handed>)
  {
    forall i :: 0 <= i < |log| ==> EventInRange(log[i].event)
  }

  /** The TAP behind a callback that has answered as logged from its call number `at` on. */
  function Play(t: TapState, log: seq<Handed>, taps: nat -> TapState, at: nat): TapState
    requires AllEventsInRange(log)
  {
    if log == [] then t
    else
      var h := log[|log| - 1];
      if h.accepted then AfterEvent(Play(t, log[..|log| - 1], taps, at), h.event) else taps(at + |log| - 1)
  }

  lemma PlayNothing(t: TapState, taps: nat -> TapState, at: nat)
    ensures Play(t, [], taps, at) == t
  {
  }

  lemma PlayOneMore(t: TapState, log: seq<Handed>, h: Handed, taps: nat -> TapState, at: nat)
    requires AllEventsInRange(log) && EventInRange(h.event)
    ensures AllEventsInRange(log + [h])
    ensures Play(t, log + [h], taps, at)
            == if h.accepted then AfterEvent(Play(t, log, taps, at), h.event) else taps(at + |log|)
  {
    hide AfterEvent;
    assert (log + [h])[..|log|] == log;
  }

  lemma {:induction false} PlayConcat(t: TapState, a: seq<Handed>, b: seq<Handed>, taps: nat -> TapState, at: nat)
    requires AllEventsInRange(a) && AllEventsInRange(b)
    ensures AllEventsInRange(a + b)
    ensures Play(t, a + b, taps, at) == Play(Play(t, a, taps, at), b, taps, at + |a|)
  {
    hide AfterEvent;
    if b == [] {
      assert a + b == a;
    } else {
      var b', h := b[..|b| - 1], b[|b| - 1];
      PlayConcat(t, a, b', taps, at);
      assert b == b' + [h] && a + b == (a + b') + [h];
      PlayOneMore(t, a + b', h, taps, at);
      PlayOneMore(Play(t, a, taps, at), b', h, taps, at + |a|);
    }
  }

  lemma {:induction false} PlayAccepted(t: TapState, es: seq<Event>, taps: nat -> TapState, at: nat)
    requires AllInRange(es)
    ensures AllEventsInRange(Accepted(es)) && Play(t, Accepted(es), taps, at) == AfterEvents(t, es)
  {
    hide AfterEvent;
    if es != [] {
      var es', e := es[..|es| - 1], es[|es| - 1];
      PlayAccepted(t, es', taps, at);
      assert Accepted(es) == Accepted(es') + [Handed(e, true)];
      PlayOneMore(t, Accepted(es'), Handed(e, true), taps, at);
    }
  }

  lemma PlaySuccess(t: TapState, log: seq<Handed>, es: seq<Event>, taps: nat -> TapState, at: nat)
    requires AllInRange(es) && log == Accepted(es) + [Handed(FlushAll, true)]
    ensures log != [] && AllEventsInRange(log) && Play(t, log, taps, at) == AfterEvents(t, es)
  {
    hide AfterEvent, AfterEvents, Accepted, Play, AllEventsInRange;
    PlayAccepted(t, es, taps, at);
    PlayOneMore(t, Accepted(es), Handed(FlushAll, true), taps, at);
    FlushStays(AfterEvents(t, es));
  }

  lemma PlayReset(t: TapState, log: seq<Handed>, ok: bool, taps: nat -> TapState, at: nat)
    requires IsReset(log, ok)
    ensures log != [] && AllEventsInRange(log)
    ensures Play(t, log, taps, at) == if ok then TestLogicReset else taps(at + |log| - 1)
  {
    hide AfterEvent;
    ResetResets(t);
    FlushStays(TestLogicReset);
    PlayNothing(t, taps, at);
    PlayOneMore(t, [], log[0], taps, at);
    assert [] + [log[0]] == [log[0]];
    if |log| == 2 {
      PlayOneMore(t, [log[0]], log[1], taps, at);
      assert log == [log[0]] + [log[1]];
    }
  }

  lemma PlayFailure(t: TapState, log: seq<Handed>, es: seq<Event>, refused: Event, recovered: bool,
                    taps: nat -> TapState, at: nat)
    requires AllInRange(es) && EventInRange(refused) && IsFailure(log, es, refused, recovered)
    ensures log != [] && AllEventsInRange(log)
    ensures Play(t, log, taps, at) == if recovered then TestLogicReset else taps(at + |log| - 1)
  {
    hide AfterEvent, AfterEvents, Accepted, Play, AllEventsInRange, IsReset;
    var k := |es| + 1;
    PlayAccepted(t, es, taps, at);
    PlayOneMore(t, Accepted(es), Handed(refused, false), taps, at);
    PlayReset(Play(t, log[..k], taps, at), log[k..], recovered, taps, at + k);
    PlayConcat(t, log[..k], log[k..], taps, at);
    assert log == log[..k] + log[k..];
  }

  lemma RefusedInRange(es: seq<Event>, refused: Event, s: TapState, v: Vectors)
    requires Whole(v) && IsRefused(es, refused, s, v.tms, v.tdi, v.numBits)
    ensures AllInRange(es) && EventInRange(refused)
  {
    hide StateAt, IsStretch;
    var to := if refused.FlushAll? then v.numBits else refused.from;
    TilesMove(es, s, s, v.tms, v.tdi, v.numBits, to);
    if !refused.FlushAll? {
      StretchNotEmpty(refused, s, v.tms, v.tdi, v.numBits);
    }
  }

  /** Where one call leaves the TAP. */
  lemma PlayCall(t: TapState, log: seq<Handed>, s: TapState, v: Vectors, e: Ending, taps: nat -> TapState, at: nat)
    requires Whole(v) && IsCallLog(log, s, v, e)
    ensures log != [] && AllEventsInRange(log)
    ensures Play(t, log, taps, at)
            == match e
               case Succeeded => StateAt(t, v.tms, v.numBits)
               case Recovered => TestLogicReset
               case Lost => taps(at + |log| - 1)
  {
    hide AfterEvent, StateAt, Tiles, IsStretch, AfterEvents, Accepted, Play, AllEventsInRange, IsRefused, IsFailure;
    if e == Succeeded {
      var es :| Tiles(es, s, v.tms, v.tdi, v.numBits, v.numBits) && log == Accepted(es) + [Handed(FlushAll, true)];
      TilesMove(es, s, t, v.tms, v.tdi, v.numBits, v.numBits);
      PlaySuccess(t, log, es, taps, at);
    } else {
      var es, refused :| IsRefused(es, refused, s, v.tms, v.tdi, v.numBits)
                         && IsFailure(log, es, refused, e == Recovered);
      RefusedInRange(es, refused, s, v);
      PlayFailure(t, log, es, refused, e == Recovered, taps, at);
    }
  }

  /** In which state the latest refused reset has left the TAP; any, if there is none. */
  function LostState(endings: seq<Ending>, logs: seq<seq<Handed>>, taps: nat -> TapState, at: nat): TapState
    requires |endings| == |logs|
  {
    if endings == [] then taps(at)
    else
      var k := |endings| - 1;
      if endings[k] == Lost && Flat(logs) != [] then taps(at + |Flat(logs)| - 1)
      else LostState(endings[..k], logs[..k], taps, at)
  }

  lemma NothingPlayed(taps: nat -> TapState, at: nat)
    ensures AllEventsInRange([]) && Play(TestLogicReset, [], taps, at) == TestLogicReset
  {
  }

  /** What the answers alone say about the TAP after some calls. */
  lemma {:induction false} RunReaches(calls: seq<Vectors>, endings: seq<Ending>, logs: seq<seq<Handed>>,
                                      taps: nat -> TapState, at: nat)
    requires RunLogs(calls, endings, logs)
    ensures AllEventsInRange(Flat(logs))
    ensures Play(TestLogicReset, Flat(logs), taps, at) == TapReached(calls, endings, LostState(endings, logs, taps, at))
  {
    hide IsCallLog, StateAt, Play, AllEventsInRange, SavedAfter;
    if calls == [] {
      NothingPlayed(taps, at);
      PlayNothing(TestLogicReset, taps, at);
    } else {
      var k := |calls| - 1;
      var before := Flat(logs[..k]);
      RunReaches(calls[..k], endings[..k], logs[..k], taps, at);
      var t := Play(TestLogicReset, before, taps, at);
      PlayCall(t, logs[k], SavedAfter(calls[..k], endings[..k]), calls[k], endings[k], taps, at + |before|);
      PlayConcat(TestLogicReset, before, logs[k], taps, at);
    }
  }

  lemma {:induction false} LostConstant(endings: seq<Ending>, logs: seq<seq<Handed>>, lost: TapState,
                                        taps: nat -> TapState, at: nat)
    requires |endings| == |logs| && forall i: nat :: taps(i) == lost
    ensures LostState(endings, logs, taps, at) == lost
  {
    if endings != [] {
      LostConstant(endings[..|endings| - 1], logs[..|logs| - 1], lost, taps, at);
    }
  }

  /** The saved state is the TAP's in whatever states the callback may have left the TAP, if and only
      if the calls have brought all states in step. */
  lemma AgreementExact(calls: seq<Vectors>, endings: seq<Ending>, logs: seq<seq<Handed>>, at: nat)
    requires RunLogs(calls, endings, logs)
    ensures AllEventsInRange(Flat(logs))
    ensures InStep(calls, endings)
            <==> forall taps: nat -> TapState ::
                   Play(TestLogicReset, Flat(logs), taps, at) == SavedAfter(calls, endings)
  {
    hide TapReached, SavedAfter, IsCallLog, Play, Flat;
    RunReaches(calls, endings, logs, i => TestLogicReset, at);
    if InStep(calls, endings) {
      forall taps: nat -> TapState
        ensures Play(TestLogicReset, Flat(logs), taps, at) == SavedAfter(calls, endings)
      {
        RunReaches(calls, endings, logs, taps, at);
      }
    } else {
      var lost :| TapReached(calls, endings, lost) != SavedAfter(calls, endings);
      var taps: nat -> TapState := i => lost;
      RunReaches(calls, endings, logs, taps, at);
      LostConstant(endings, logs, lost, taps, at);
    }
  }

  /** From every state the TMS bits of a call lead to where they lead from Test-Logic-Reset. */
  ghost predicate Settles(v: Vectors)
    requires Whole(v)
  {
    forall t :: StateAt(t, v.tms, v.numBits) == StateAt(TestLogicReset, v.tms, v.numBits)
  }

  /** After a refused reset the first successful call makes up for it if and only if its vectors do. */
  lemma OneCallSettles(calls: seq<Vectors>, endings: seq<Ending>, v: Vectors)
    requires |calls| == |endings| > 0 && AllWhole(calls) && Whole(v) && endings[|endings| - 1] == Lost
    ensures InStep(calls + [v], endings + [Succeeded]) <==> Settles(v)
  {
    hide StateAt;
    assert (calls + [v])[..|calls|] == calls && (endings + [Succeeded])[..|endings|] == endings;
    assert forall lost :: TapReached(calls + [v], endings + [Succeeded], lost) == StateAt(lost, v.tms, v.numBits);
  }

  lemma {:induction false} HighBits(t: TapState, tms: seq<byte>, k: nat, j: nat)
    requires k + j <= 8 * |tms| && forall i :: k <= i < k + j ==> VecBit(tms, i)
    ensures ClocksToReset(StateAt(t, tms, k + j)) <= if j < 5 then 5 - j else 0
  {
    hide VecBit;
    if j > 0 {
      HighBits(t, tms, k, j - 1);
    }
  }

  lemma {:induction false} SameFrom(s: TapState, t: TapState, tms: seq<byte>, lo: nat, hi: nat)
    requires lo <= hi <= 8 * |tms| && StateAt(s, tms, lo) == StateAt(t, tms, lo)
    ensures StateAt(s, tms, hi) == StateAt(t, tms, hi)
    decreases hi
  {
    hide VecBit, NextState;
    if lo < hi {
      SameFrom(s, t, tms, lo, hi - 1);
    }
  }

  /** Five TMS-high bits in a row do, wherever they stand. */
  lemma FiveHighsSettle(v: Vectors, k: nat)
    requires Whole(v) && k + 5 <= v.numBits
    requires forall i :: k <= i < k + 5 ==> VecBit(v.tms, i)
    ensures Settles(v)
  {
    hide StateAt, VecBit;
    forall t
      ensures StateAt(t, v.tms, v.numBits) == StateAt(TestLogicReset, v.tms, v.numBits)
    {
      HighBits(t, v.tms, k, 5);
      HighBits(TestLogicReset, v.tms, k, 5);
      SameFrom(t, TestLogicReset, v.tms, k + 5, v.numBits);
    }
  }

  /** One more call in step keeps the run in step, and so does one that settles. */
  lemma StepsStay(calls: seq<Vectors>, endings: seq<Ending>, v: Vectors)
    requires |calls| == |endings| && AllWhole(calls) && Whole(v)
    ensures InStep(calls, endings) || Settles(v) ==> InStep(calls + [v], endings + [Succeeded])
    ensures InStep(calls + [v], endings + [Recovered])
  {
    hide StateAt;
    assert (calls + [v])[..|calls|] == calls;
    assert (endings + [Succeeded])[..|endings|] == endings && (endings + [Recovered])[..|endings|] == endings;
    if InStep(calls, endings) || Settles(v) {
      forall lost
        ensures TapReached(calls + [v], endings + [Succeeded], lost) == SavedAfter(calls + [v], endings + [Succeeded])
      {
        assert InStep(calls, endings) ==> TapReached(calls, endings, lost) == SavedAfter(calls, endings);
      }
    }
  }

  predicate AllSucceeded(endings: seq<Ending>)
  {
    forall i :: 0 <= i < |endings| ==> endings[i] == Succeeded
  }

  lemma NothingFailed()
    ensures RunLogs([], [], []) && Flat([]) == [] && SavedAfter([], []) == TestLogicReset && AllSucceeded([])
  {
  }

  lemma OneCallMore(calls: seq<Vectors>, endings: seq<Ending>, logs: seq<seq<Handed>>, v: Vectors, e: Ending,
                    log: seq<Handed>)
    requires RunLogs(calls, endings, logs) && Whole(v) && IsCallLog(log, SavedAfter(calls, endings), v, e)
    ensures RunLogs(calls + [v], endings + [e], logs + [log]) && Flat(logs + [log]) == Flat(logs) + log
    ensures var s := SavedAfter(calls, endings);
            SavedAfter(calls + [v], endings + [e])
            == if e == Succeeded then StateAt(s, v.tms, v.numBits) else TestLogicReset
    ensures AllSucceeded(endings + [e]) <==> AllSucceeded(endings) && e == Succeeded
  {
    hide IsCallLog, StateAt;
    assert (calls + [v])[..|calls|] == calls && (endings + [e])[..|endings|] == endings;
    assert (logs + [log])[..|logs|] == logs;
  }

  lemma StepsAgree(calls: seq<Vectors>, endings: seq<Ending>, lost: TapState)
    requires |calls| == |endings| && AllWhole(calls)
    ensures InStep(calls, endings) ==> TapReached(calls, endings, lost) == SavedAfter(calls, endings)
  {
  }

  lemma CallLogged(log: seq<Handed>, s: TapState, v: Vectors, e: Ending, es: seq<Event>, refused: Event)
    requires Whole(v)
    requires if e == Succeeded
             then Tiles(es, s, v.tms, v.tdi, v.numBits, v.numBits) && log == Accepted(es) + [Handed(FlushAll, true)]
             else IsRefused(es, refused, s, v.tms, v.tdi, v.numBits) && IsFailure(log, es, refused, e == Recovered)
    ensures IsCallLog(log, s, v, e)
  {
    hide Tiles, IsRefused, IsFailure, Accepted;
  }

  /** A run from any state of the TAP: init and any calls, each of which may fail.  The log says how
      every call has ended; the saved state follows from the vectors and the endings, and the TAP's
      from them and from where the latest refused reset has left it. */
  method Session(cb: Callback, calls: seq<Vectors>)
    returns (sp: JtagSplitter, ok: bool, ghost reset: seq<Handed>, ghost endings: seq<Ending>,
             ghost logs: seq<seq<Handed>>)
    requires AllWhole(calls)
    modifies cb
    ensures cb.log == old(cb.log) + reset + Flat(logs)
    ensures IsReset(reset, true) || (IsReset(reset, false) && !ok && logs == [])
    ensures AcceptsAll(cb.script) ==> ok
    ensures IsReset(reset, true) ==>
      && RunLogs(calls, endings, logs) && AllEventsInRange(Flat(logs))
      && (ok <==> AllSucceeded(endings))
      && var at := |old(cb.log)| + |reset|;
         && sp.cb == cb && sp.state == SavedAfter(calls, endings)
         && cb.tap == Play(TestLogicReset, Flat(logs), cb.script.taps, at)
         && cb.tap == TapReached(calls, endings, LostState(endings, logs, cb.script.taps, at))
         && (InStep(calls, endings) ==> sp.Agrees())
  {
    hide StateAt, Tiles, AfterEvent, IsCallLog, IsRefused, IsFailure, Accepted, Flat, RunLogs, SavedAfter, TapReached,
         Play, InStep, LostState, AllEventsInRange, AllSucceeded;
    ghost var before := cb.log;
    sp := new JtagSplitter();
    ok := sp.Init(cb);
    reset, logs, endings := cb.log[|before|..], [], [];
    NothingFailed();
    assert cb.log == before + reset + Flat(logs);
    if !ok {
      return;
    }
    ghost var at := |before| + |reset|;
    NothingPlayed(cb.script.taps, at);
    assert calls[..0] == [];
    for i := 0 to |calls|
      invariant sp.cb == cb && fresh(sp) && (AcceptsAll(cb.script) ==> ok) && |logs| == |endings| == i
      invariant cb.log == before + reset + Flat(logs)
      invariant RunLogs(calls[..i], endings, logs) && sp.state == SavedAfter(calls[..i], endings)
      invariant ok <==> AllSucceeded(endings)
      invariant AllEventsInRange(Flat(logs)) && cb.tap == Play(TestLogicReset, Flat(logs), cb.script.taps, at)
    {
      ghost var start, s, tap := cb.log, sp.state, cb.tap;
      var done;
      ghost var es, refused, recovered;
      done, es, refused, recovered := sp.Process(calls[i].numBits, calls[i].tms, calls[i].tdi);
      ghost var log := cb.log[|start|..];
      assert cb.log == start + log;
      ghost var e := if done then Succeeded else if recovered then Recovered else Lost;
      CallLogged(log, s, calls[i], e, es, refused);
      PlayCall(tap, log, s, calls[i], e, cb.script.taps, at + |Flat(logs)|);
      PlayConcat(TestLogicReset, Flat(logs), log, cb.script.taps, at);
      OneCallMore(calls[..i], endings, logs, calls[i], e, log);
      assert calls[..i + 1] == calls[..i] + [calls[i]];
      logs, endings := logs + [log], endings + [e];
      ok := ok && done;
    }
    assert calls[..|calls|] == calls;
    RunReaches(calls, endings, logs, cb.script.taps, at);
    StepsAgree(calls, endings, LostState(endings, logs, cb.script.taps, at));
  }

  lemma OneLowBit()
    ensures StateAt(TestLogicReset, [0], 1) == RunTestIdle && StateAt(ShiftDr, [0], 1) == ShiftDr
  {
    assert !VecBit([0], 0);
    assert StateAt(TestLogicReset, [0], 0) == TestLogicReset && StateAt(ShiftDr, [0], 0) == ShiftDr;
  }

  lemma FirstAnswer(es: seq<Event>, refused: Event)
    ensures (Accepted(es) + [Handed(FlushAll, true)])[0].accepted
    ensures (Accepted(es) + [Handed(refused, false)])[0].accepted <==> es != []
  {
  }

  /** If the first event of a call and the reset are refused, nothing else is handed over. */
  lemma FirstRefused(log: seq<Handed>, ok: bool, es: seq<Event>, refused: Event, recovered: bool)
    requires forall i :: 0 <= i < |log| && i < 2 ==> !log[i].accepted
    requires if ok then log == Accepted(es) + [Handed(FlushAll, true)] else IsFailure(log, es, refused, recovered)
    ensures !ok && !recovered && |log| == 2
  {
    FirstAnswer(es, refused);
    if !ok {
      assert log[0] == log[..|es| + 1][0];
      assert log[1] == log[1..][0];
    }
  }

  lemma NothingRefused(log: seq<Handed>, ok: bool, es: seq<Event>, refused: Event, recovered: bool)
    requires forall i :: 0 <= i < |log| ==> log[i].accepted
    requires if ok then log == Accepted(es) + [Handed(FlushAll, true)] else IsFailure(log, es, refused, recovered)
    ensures ok
  {
    var k := |es|;
    assert k < |log| ==> log[..k + 1][k] == log[k];
  }

  /** A run of this kind that ends with a wrong saved state although its latest call has succeeded: the
      first call is refused and so is the reset, which leaves the TAP in Shift-DR, and the second call
      clocks one TMS-low bit. */
  method LostRun() returns (sp: JtagSplitter, ok1: bool, ok2: bool)
    ensures fresh(sp) && fresh(sp.cb) && !ok1 && ok2 && !sp.Agrees()
    ensures sp.state == RunTestIdle && sp.cb.tap == ShiftDr
  {
    hide AfterEvent, AfterEvents;
    var cb := new Callback(Script(i => i < 2 || i >= 4, i => ShiftDr), TestLogicReset);
    sp := new JtagSplitter();
    var ok := sp.Init(cb);
    assert cb.log[0].accepted && (|cb.log| > 1 ==> cb.log[1].accepted);
    assert ok && |cb.log| == 2;
    ghost var es, refused, recovered;
    ok1, es, refused, recovered := sp.Process(1, [0], [0]);
    OneLowBit();
    FirstRefused(cb.log[2..], ok1, es, refused, recovered);
    ok2, es, refused, recovered := sp.Process(1, [0], [0]);
    NothingRefused(cb.log[4..], ok2, es, refused, recovered);
  }

  // ---------------------------------------------------------------- the tiling of given vectors

  lemma {:induction false} ProgressReaches(s: TapState, tms: seq<byte>, tdi: seq<byte>, n: nat, bitIdx: nat)
    returns (es: seq<Event>, first: nat)
    requires bitIdx <= n <= 8 * |tms|
    ensures Progress(s, tms, tdi, n, es, first, bitIdx, StateAt(s, tms, bitIdx))
    decreases bitIdx
  {
    hide VecBit, Progress, NextState;
    if bitIdx == 0 {
      ProgressStarts(s, tms, tdi, n);
      es, first := [], 0;
    } else {
      es, first := ProgressReaches(s, tms, tdi, n, bitIdx - 1);
      var now, next := StateAt(s, tms, bitIdx - 1), StateAt(s, tms, bitIdx);
      if bitIdx == n || IsShift(now) != IsShift(next) {
        var e := if IsShift(now) then ShiftTdi(tdi, first, bitIdx, IsShift(next)) else ShiftTms(tms, first, bitIdx);
        EventEmitted(s, tms, tdi, n, es, first, bitIdx - 1, now, e);
        es, first := es + [e], bitIdx;
      } else {
        NoEvent(s, tms, tdi, n, es, first, bitIdx - 1, now);
      }
    }
  }

  lemma TilesExist(s: TapState, tms: seq<byte>, tdi: seq<byte>, n: nat)
    requires n <= 8 * |tms|
    ensures exists es :: Tiles(es, s, tms, tdi, n, n)
  {
    hide Tiles, StateAt;
    var es, first := ProgressReaches(s, tms, tdi, n, n);
    ProgressEnds(s, tms, tdi, n, es, first, StateAt(s, tms, n));
  }

  /** The one tiling there is. */
  ghost function TilesOf(s: TapState, tms: seq<byte>, tdi: seq<byte>, n: nat): (es: seq<Event>)
    requires n <= 8 * |tms|
    ensures Tiles(es, s, tms, tdi, n, n)
  {
    TilesExist(s, tms, tdi, n);
    var es :| Tiles(es, s, tms, tdi, n, n);
    es
  }
}
