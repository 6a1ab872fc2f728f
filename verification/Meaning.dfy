/** What a call of the splitter does to the target: clocks and TDO bits. */
module Meaning {
  import opened Octets
  import opened Tap
  import opened Mpsse
  import opened Pending
  import opened Encoding
  import opened Splitting

  // ---------------------------------------------------------------- clocks and TDO bits

  /** `now` holds the TDO levels of the bits below `to` that were clocked in a shift state, and is
      otherwise as `before`. */
  ghost predicate Captured(before: seq<byte>, now: seq<byte>, s: TapState, tms: seq<byte>, to: nat, levels: seq<bool>)
    requires to <= 8 * |tms|
  {
    && |now| == |before| && to <= 8 * |before| && |levels| == to
    && forall j: nat :: j < 8 * |before| ==>
         VecBit(now, j) == if j < to && IsShift(StateAt(s, tms, j)) then levels[j] else VecBit(before, j)
  }

  /** World `w` is what clocking the first `to` bits one by one makes of world `w0`. */
  ghost predicate ClockedBits(env: Env, w0: World, w: World, tms: seq<byte>, tdi: seq<byte>, to: nat)
    requires to <= 8 * |tms| && to <= 8 * |tdi|
  {
    var direct := Clock(env.dev, w0.chip.tap, Pulses(tms, tdi, 0, to));
    && w.chip.tap == direct.tap
    && w.chip.tap.state == StateAt(w0.chip.tap.state, tms, to)
    && Captured(w0.tdo, w.tdo, w0.chip.tap.state, tms, to, direct.tdo)
  }

  /** Between commands, TMS low whenever the TAP is in a shift state. */
  predicate AtRest(c: Chip)
  {
    c.mode == Opcode && (IsShift(c.tap.state) ==> !c.tms)
  }

  /** What the driver makes of one event. */
  ghost predicate CarriedOut(env: Env, w0: World, w: World, e: Event, held: bool)
    requires EventInRange(e)
  {
    match e
    case ShiftTms(tms, from, to) => MovedTo(env, w0, w, tms, from, to, held)
    case ShiftTdi(tdi, from, to, incomplete) => ShiftDone(env, w0, w, tdi, from, to, !incomplete)
    case FlushAll => w == w0
  }

  lemma NothingClocked(env: Env, w: World, tms: seq<byte>, tdi: seq<byte>)
    ensures ClockedBits(env, w, w, tms, tdi, 0)
  {
    ClockNothing(env.dev, w.chip.tap);
    assert Pulses(tms, tdi, 0, 0) == [];
  }

  lemma EventCaptures(before: seq<byte>, mid: seq<byte>, now: seq<byte>, e: Event, s: TapState, tms: seq<byte>,
                      tdi: seq<byte>, n: nat, a: seq<bool>, b: seq<bool>)
    requires n <= 8 * |tms| && n <= 8 * |before|
    requires IsStretch(e, s, tms, tdi, n) && EventInRange(e)
    requires Captured(before, mid, s, tms, e.from, a) && |b| == e.to - e.from
    requires if e.ShiftTms? then now == mid else Received(mid, now, e.from, e.to, b)
    ensures Captured(before, now, s, tms, e.to, a + b)
  {
    hide VecBit, StateAt, IsStretch;
    StretchNotEmpty(e, s, tms, tdi, n);
    forall j | e.from <= j < e.to
      ensures IsShift(StateAt(s, tms, j)) == e.ShiftTdi?
    {
      StretchKind(e, s, tms, tdi, n, j);
    }
  }

  /** A stretch that ends in a shift state has ended with TMS low. */
  lemma LastLevel(e: Event, s: TapState, tms: seq<byte>, tdi: seq<byte>, n: nat)
    requires n <= 8 * |tms|
    requires IsStretch(e, s, tms, tdi, n) && EventInRange(e)
    ensures IsShift(StateAt(s, tms, e.to)) ==> !VecBit(tms, e.to - 1)
    ensures e.ShiftTdi? ==> IsShift(StateAt(s, tms, e.to)) == e.incomplete
  {
    hide VecBit;
    assert StateAt(s, tms, e.to) == NextState(StateAt(s, tms, e.to - 1), VecBit(tms, e.to - 1));
  }

  /** Carrying out the events of a tiling one after the other clocks the bits of the vectors. */
  lemma EventClocksBits(env: Env, w0: World, w: World, w': World, e: Event, tms: seq<byte>, tdi: seq<byte>, n: nat,
                        held: bool)
    requires n <= 8 * |tms| && n <= 8 * |tdi| && n <= 8 * |w0.tdo|
    requires IsStretch(e, w0.chip.tap.state, tms, tdi, n) && EventInRange(e)
    requires ClockedBits(env, w0, w, tms, tdi, e.from) && AtRest(w.chip)
    requires CarriedOut(env, w, w', e, held)
    ensures ClockedBits(env, w0, w', tms, tdi, e.to) && AtRest(w'.chip)
  {
    hide Clock, StateAt, VecBit, IsStretch, Captured, Pulses, HeldPulses, EventPulses, Received;
    StretchNotEmpty(e, w0.chip.tap.state, tms, tdi, n);
    var s := w0.chip.tap.state;
    EventMeansBits(env.dev, w.chip.tap, e, s, tms, tdi, n, held);
    PulsesConcat(tms, tdi, 0, e.from, e.to);
    ClockConcat(env.dev, w0.chip.tap, Pulses(tms, tdi, 0, e.from), Pulses(tms, tdi, e.from, e.to));
    var a := Clock(env.dev, w0.chip.tap, Pulses(tms, tdi, 0, e.from)).tdo;
    var b := Clock(env.dev, w.chip.tap, Pulses(tms, tdi, e.from, e.to)).tdo;
    EventCaptures(w0.tdo, w.tdo, w'.tdo, e, s, tms, tdi, n, a, b);
    LastLevel(e, s, tms, tdi, n);
  }

  // ---------------------------------------------------------------- the pins

  /** The level of TDI once `j` bits have been clocked: that of the last bit clocked in a shift state. */
  function TdiLevel(s: TapState, tms: seq<byte>, tdi: seq<byte>, held: bool, j: nat): bool
    requires j <= 8 * |tms| && j <= 8 * |tdi|
  {
    if j == 0 then held
    else if IsShift(StateAt(s, tms, j - 1)) then VecBit(tdi, j - 1)
    else TdiLevel(s, tms, tdi, held, j - 1)
  }

  /** The levels of TMS and TDI at each of `n` clocks.  TMS is as the vector says throughout; TDI
      follows its vector in the shift states and keeps its level elsewhere. */
  function WirePulses(s: TapState, tms: seq<byte>, tdi: seq<byte>, n: nat, held: bool): (ps: seq<Pulse>)
    requires n <= 8 * |tms| && n <= 8 * |tdi|
    ensures |ps| == n
  {
    seq(n, j requires 0 <= j < n => Pulse(VecBit(tms, j), TdiLevel(s, tms, tdi, held, j + 1)))
  }

  /** From chip `c0` to chip `c` the pins have had the levels of the first `to` bits, and the settings
      are as they were. */
  ghost predicate Wired(c0: Chip, c: Chip, tms: seq<byte>, tdi: seq<byte>, to: nat, held: bool)
    requires to <= 8 * |tms| && to <= 8 * |tdi|
  {
    && c.wire == c0.wire + WirePulses(c0.tap.state, tms, tdi, to, held)
    && c.settings == c0.settings
  }

  lemma NothingWired(c: Chip, tms: seq<byte>, tdi: seq<byte>, held: bool)
    ensures Wired(c, c, tms, tdi, 0, held) && TdiLevel(c.tap.state, tms, tdi, held, 0) == held
  {
  }

  lemma {:induction false} TdiKept(s: TapState, tms: seq<byte>, tdi: seq<byte>, held: bool, lo: nat, hi: nat)
    requires lo <= hi <= 8 * |tms| && hi <= 8 * |tdi| && AllShift(s, tms, lo, hi, false)
    ensures TdiLevel(s, tms, tdi, held, hi) == TdiLevel(s, tms, tdi, held, lo)
    decreases hi
  {
    hide VecBit, StateAt;
    if lo < hi {
      TdiKept(s, tms, tdi, held, lo, hi - 1);
    }
  }

  lemma TrainHeld(e: Event, level: bool, i: nat)
    requires EventInRange(e) && e.ShiftTms? && i < e.to - e.from
    ensures |Train(e, level)| == e.to - e.from && Train(e, level)[i].tdi == level
  {
  }

  lemma NotShifting(e: Event, s: TapState, tms: seq<byte>, tdi: seq<byte>, n: nat, i: nat)
    requires n <= 8 * |tms| && IsStretch(e, s, tms, tdi, n) && e.ShiftTms? && e.from + i < e.to
    ensures e.to <= n && AllShift(s, tms, e.from, e.from + i + 1, false)
  {
    hide StateAt;
  }

  lemma LevelInEvent(e: Event, s: TapState, tms: seq<byte>, tdi: seq<byte>, n: nat, held: bool, i: nat)
    requires n <= 8 * |tms| && n <= 8 * |tdi| && IsStretch(e, s, tms, tdi, n) && e.from + i < e.to
    ensures EventInRange(e) && e.to <= n
    ensures var level := TdiLevel(s, tms, tdi, held, e.from);
            && TdiLevel(s, tms, tdi, held, e.from + i + 1) == (if e.ShiftTdi? then VecBit(tdi, e.from + i) else level)
            && |Train(e, level)| == e.to - e.from
            && Train(e, level)[i].tdi == TdiLevel(s, tms, tdi, held, e.from + i + 1)
  {
    hide VecBit, StateAt, IsStretch, Train;
    StretchNotEmpty(e, s, tms, tdi, n);
    StretchKind(e, s, tms, tdi, n, e.from + i);
    TrainLevels(e, s, tms, tdi, n, TdiLevel(s, tms, tdi, held, e.from), i);
    if e.ShiftTms? {
      TrainHeld(e, TdiLevel(s, tms, tdi, held, e.from), i);
      NotShifting(e, s, tms, tdi, n, i);
      TdiKept(s, tms, tdi, held, e.from, e.from + i + 1);
    }
  }

  /** The pulses of the next event, with TDI at its level before, are those of the vectors' pins. */
  lemma EventWires(e: Event, s: TapState, tms: seq<byte>, tdi: seq<byte>, n: nat, held: bool)
    requires n <= 8 * |tms| && n <= 8 * |tdi| && IsStretch(e, s, tms, tdi, n)
    ensures EventInRange(e) && !e.FlushAll? && e.from < e.to <= n
    ensures var level := TdiLevel(s, tms, tdi, held, e.from);
            && WirePulses(s, tms, tdi, e.to, held) == WirePulses(s, tms, tdi, e.from, held) + Train(e, level)
            && TdiLevel(s, tms, tdi, held, e.to) == if e.ShiftTdi? then VecBit(tdi, e.to - 1) else level
  {
    hide VecBit, StateAt, Train, IsStretch, TdiLevel;
    StretchNotEmpty(e, s, tms, tdi, n);
    var level := TdiLevel(s, tms, tdi, held, e.from);
    TrainLevels(e, s, tms, tdi, n, level, 0);
    forall i | 0 <= i < e.to - e.from
      ensures Train(e, level)[i] == Pulse(VecBit(tms, e.from + i), TdiLevel(s, tms, tdi, held, e.from + i + 1))
    {
      TrainLevels(e, s, tms, tdi, n, level, i);
      LevelInEvent(e, s, tms, tdi, n, held, i);
    }
    LevelInEvent(e, s, tms, tdi, n, held, e.to - e.from - 1);
  }

  /** Carrying out the next event extends the levels that the pins have had. */
  lemma EventWired(env: Env, c0: Chip, w: World, w': World, e: Event, tms: seq<byte>, tdi: seq<byte>, n: nat,
                   held: bool)
    requires n <= 8 * |tms| && n <= 8 * |tdi|
    requires IsStretch(e, c0.tap.state, tms, tdi, n) && EventInRange(e) && e.from <= n
    requires Wired(c0, w.chip, tms, tdi, e.from, held)
    requires CarriedOut(env, w, w', e, TdiLevel(c0.tap.state, tms, tdi, held, e.from))
    ensures e.to <= n && Wired(c0, w'.chip, tms, tdi, e.to, held)
    ensures w'.chip.tdi == TdiLevel(c0.tap.state, tms, tdi, held, e.to)
  {
    hide VecBit, StateAt, IsStretch, TdiLevel, WirePulses, Clock, Received, HeldPulses, EventPulses;
    EventWires(e, c0.tap.state, tms, tdi, n, held);
    StretchNotEmpty(e, c0.tap.state, tms, tdi, n);
  }

  lemma {:induction false} SameLevels(s: TapState, tms: seq<byte>, tdi: seq<byte>, held: bool, part: seq<byte>,
                                      tdiPart: seq<byte>, at: nat, n: nat, level: bool)
    requires at + n <= 8 * |tms| && at + n <= 8 * |tdi| && n <= 8 * |part| && n <= 8 * |tdiPart|
    requires forall i: nat :: i < n ==> VecBit(tdiPart, i) == VecBit(tdi, at + i)
    requires forall j: nat :: j <= n ==> StateAt(StateAt(s, tms, at), part, j) == StateAt(s, tms, at + j)
    requires level == TdiLevel(s, tms, tdi, held, at)
    ensures forall j: nat :: j <= n ==>
      TdiLevel(StateAt(s, tms, at), part, tdiPart, level, j) == TdiLevel(s, tms, tdi, held, at + j)
  {
    hide VecBit, StateAt;
    if n > 0 {
      SameLevels(s, tms, tdi, held, part, tdiPart, at, n - 1, level);
      assert StateAt(StateAt(s, tms, at), part, n - 1) == StateAt(s, tms, at + (n - 1));
      assert TdiLevel(StateAt(s, tms, at), part, tdiPart, level, n - 1) == TdiLevel(s, tms, tdi, held, at + (n - 1));
      assert TdiLevel(StateAt(s, tms, at), part, tdiPart, level, n) == TdiLevel(s, tms, tdi, held, at + n);
    }
  }

  // ---------------------------------------------------------------- two calls

  /** The same levels lead through the same states. */
  lemma {:induction false} SameStates(s: TapState, tms: seq<byte>, part: seq<byte>, at: nat, n: nat)
    requires at + n <= 8 * |tms| && n <= 8 * |part|
    requires forall i: nat :: i < n ==> VecBit(part, i) == VecBit(tms, at + i)
    ensures forall j: nat :: j <= n ==> StateAt(StateAt(s, tms, at), part, j) == StateAt(s, tms, at + j)
  {
    hide VecBit;
    if n > 0 {
      SameStates(s, tms, part, at, n - 1);
      assert StateAt(StateAt(s, tms, at), part, n) == StateAt(s, tms, at + n);
    }
  }

  lemma WiresOfPart(s: TapState, tms: seq<byte>, tdi: seq<byte>, held: bool, part: seq<byte>, tdiPart: seq<byte>,
                    at: nat, n: nat, level: bool)
    requires at + n <= 8 * |tms| && at + n <= 8 * |tdi| && n <= 8 * |part| && n <= 8 * |tdiPart|
    requires forall i: nat :: i < n ==>
      VecBit(part, i) == VecBit(tms, at + i) && VecBit(tdiPart, i) == VecBit(tdi, at + i)
    requires level == TdiLevel(s, tms, tdi, held, at)
    ensures WirePulses(StateAt(s, tms, at), part, tdiPart, n, level) == WirePulses(s, tms, tdi, at + n, held)[at..]
    ensures WirePulses(s, tms, tdi, at, held) == WirePulses(s, tms, tdi, at + n, held)[..at]
    ensures TdiLevel(StateAt(s, tms, at), part, tdiPart, level, n) == TdiLevel(s, tms, tdi, held, at + n)
  {
    hide VecBit, StateAt, TdiLevel;
    SameStates(s, tms, part, at, n);
    SameLevels(s, tms, tdi, held, part, tdiPart, at, n, level);
    forall i | 0 <= i < n
      ensures WirePulses(StateAt(s, tms, at), part, tdiPart, n, level)[i]
              == WirePulses(s, tms, tdi, at + n, held)[at + i]
    {
      assert TdiLevel(StateAt(s, tms, at), part, tdiPart, level, i + 1) == TdiLevel(s, tms, tdi, held, at + (i + 1));
    }
  }

  lemma LevelsStart(s: TapState, tms: seq<byte>, tdi: seq<byte>, tms1: seq<byte>, tdi1: seq<byte>, held: bool)
    ensures TdiLevel(s, tms, tdi, held, 0) == held == TdiLevel(s, tms1, tdi1, held, 0)
  {
  }

  /** Cutting vectors in two calls cannot be seen at the pins either. */
  lemma WiresJoin(s: TapState, tms: seq<byte>, tdi: seq<byte>, tms1: seq<byte>, tdi1: seq<byte>, tms2: seq<byte>,
                  tdi2: seq<byte>, n1: nat, n2: nat, held: bool)
    requires n1 + n2 <= 8 * |tms| && n1 + n2 <= 8 * |tdi|
    requires n1 <= 8 * |tms1| && n1 <= 8 * |tdi1| && n2 <= 8 * |tms2| && n2 <= 8 * |tdi2|
    requires forall i: nat :: i < n1 ==> VecBit(tms1, i) == VecBit(tms, i) && VecBit(tdi1, i) == VecBit(tdi, i)
    requires forall i: nat :: i < n2 ==>
      VecBit(tms2, i) == VecBit(tms, n1 + i) && VecBit(tdi2, i) == VecBit(tdi, n1 + i)
    ensures var s1, held1 := StateAt(s, tms1, n1), TdiLevel(s, tms1, tdi1, held, n1);
            && WirePulses(s, tms, tdi, n1 + n2, held)
               == WirePulses(s, tms1, tdi1, n1, held) + WirePulses(s1, tms2, tdi2, n2, held1)
            && TdiLevel(s1, tms2, tdi2, held1, n2) == TdiLevel(s, tms, tdi, held, n1 + n2)
  {
    hide VecBit, StateAt, TdiLevel, WirePulses;
    StateAtStart(s, tms);
    LevelsStart(s, tms, tdi, tms1, tdi1, held);
    SameStates(s, tms, tms1, 0, n1);
    WiresOfPart(s, tms, tdi, held, tms1, tdi1, 0, n1, held);
    WiresOfPart(s, tms, tdi, held, tms2, tdi2, n1, n2, TdiLevel(s, tms1, tdi1, held, n1));
    var ps := WirePulses(s, tms, tdi, n1 + n2, held);
    assert ps == ps[..n1] + ps[n1..];
  }

  /** A TDO vector holds the levels of the `n` bits from bit `at` of a whole that were clocked in a
      shift state, and is otherwise as before. */
  ghost predicate PartCaptured(before: seq<byte>, now: seq<byte>, s: TapState, tms: seq<byte>, at: nat, n: nat,
                               levels: seq<bool>)
    requires at + n <= 8 * |tms| && at + n <= |levels|
  {
    && |now| == |before|
    && forall j: nat :: j < 8 * |before| ==>
         VecBit(now, j) == if j < n && IsShift(StateAt(s, tms, at + j)) then levels[at + j] else VecBit(before, j)
  }

  lemma PartOfWhole(before: seq<byte>, now: seq<byte>, s: TapState, tms: seq<byte>, part: seq<byte>, at: nat, n: nat,
                    levels: seq<bool>, whole: seq<bool>)
    requires at + n <= 8 * |tms| && n <= 8 * |part| && at + n <= |whole|
    requires forall j: nat :: j <= n ==> StateAt(StateAt(s, tms, at), part, j) == StateAt(s, tms, at + j)
    requires Captured(before, now, StateAt(s, tms, at), part, n, levels)
    requires levels == whole[at..at + n]
    ensures PartCaptured(before, now, s, tms, at, n, whole)
  {
    hide VecBit, StateAt;
  }

  /** Cutting vectors in two calls is invisible: the second call starts where the first one ended,
      and its vectors hold the remaining bits from bit 0 on. */
  lemma ChunksJoin(env: Env, w0: World, w1: World, w1': World, w2: World, tms: seq<byte>, tdi: seq<byte>,
                   tms1: seq<byte>, tdi1: seq<byte>, tms2: seq<byte>, tdi2: seq<byte>, n1: nat, n2: nat)
    requires n1 + n2 <= 8 * |tms| && n1 + n2 <= 8 * |tdi|
    requires n1 <= 8 * |tms1| && n1 <= 8 * |tdi1| && n2 <= 8 * |tms2| && n2 <= 8 * |tdi2|
    requires forall i: nat :: i < n1 ==> VecBit(tms1, i) == VecBit(tms, i) && VecBit(tdi1, i) == VecBit(tdi, i)
    requires forall i: nat :: i < n2 ==>
      VecBit(tms2, i) == VecBit(tms, n1 + i) && VecBit(tdi2, i) == VecBit(tdi, n1 + i)
    requires ClockedBits(env, w0, w1, tms1, tdi1, n1) && w1'.chip == w1.chip
    requires ClockedBits(env, w1', w2, tms2, tdi2, n2)
    ensures var whole := Clock(env.dev, w0.chip.tap, Pulses(tms, tdi, 0, n1 + n2));
            && w2.chip.tap == whole.tap
            && PartCaptured(w0.tdo, w1.tdo, w0.chip.tap.state, tms, 0, n1, whole.tdo)
            && PartCaptured(w1'.tdo, w2.tdo, w0.chip.tap.state, tms, n1, n2, whole.tdo)
  {
    hide VecBit, Clock, Captured, StateAt, PartCaptured;
    assert Pulses(tms1, tdi1, 0, n1) == Pulses(tms, tdi, 0, n1);
    assert Pulses(tms2, tdi2, 0, n2) == Pulses(tms, tdi, n1, n1 + n2);
    PulsesConcat(tms, tdi, 0, n1, n1 + n2);
    ClockConcat(env.dev, w0.chip.tap, Pulses(tms, tdi, 0, n1), Pulses(tms, tdi, n1, n1 + n2));
    var s := w0.chip.tap.state;
    StateAtStart(s, tms);
    SameStates(s, tms, tms1, 0, n1);
    SameStates(s, tms, tms2, n1, n2);
    var whole := Clock(env.dev, w0.chip.tap, Pulses(tms, tdi, 0, n1 + n2)).tdo;
    PartOfWhole(w0.tdo, w1.tdo, s, tms, tms1, 0, n1, Clock(env.dev, w0.chip.tap, Pulses(tms, tdi, 0, n1)).tdo, whole);
    PartOfWhole(w1'.tdo, w2.tdo, s, tms, tms2, n1, n2,
                Clock(env.dev, w1.chip.tap, Pulses(tms, tdi, n1, n1 + n2)).tdo, whole);
  }

  // ---------------------------------------------------------------- how a TDI shift is cut

  function Min(a: int, b: int): int
  {
    if a < b then a else b
  }

  /** The ranges a TDI shift is cut into; indices are -1 when there is no range past the leading one. */
  datatype Ranges = Ranges(numLeadingBits: int, leadingOnly: bool, innerBeginIdx: int, innerEndIdx: int,
                           numTrailingBits: int)

  function CutRanges(fromBitIdx: nat, toBitIdx: nat): Ranges
    requires fromBitIdx < toBitIdx
  {
    var lastBitIdx := toBitIdx - 1;
    var numRegularBits := lastBitIdx - fromBitIdx;
    var numFirstOctetBits := 8 - fromBitIdx % 8;
    var numLeadingBits := Min(if numFirstOctetBits == 8 then 0 else numFirstOctetBits, numRegularBits);
    var leadingOnly := numLeadingBits == numRegularBits;
    Ranges(numLeadingBits, leadingOnly,
           if leadingOnly then -1 else fromBitIdx + numLeadingBits,
           if leadingOnly then -1 else lastBitIdx - lastBitIdx % 8,
           if leadingOnly then 0 else lastBitIdx % 8)
  }

  /** Leading, inner, trailing and last bits partition the shift; the inner range is made of whole
      octets of the vectors. */
  lemma RangesPartition(from: nat, to: nat)
    requires from < to
    ensures var r := CutRanges(from, to);
            && 0 <= r.numLeadingBits <= 7 && 0 <= r.numTrailingBits <= 7
            && from % 8 + r.numLeadingBits <= 8
            && (r.leadingOnly ==> from + r.numLeadingBits + 1 == to && r.numTrailingBits == 0)
            && (!r.leadingOnly ==>
                  && from + r.numLeadingBits == r.innerBeginIdx <= r.innerEndIdx
                  && r.innerBeginIdx % 8 == 0 && r.innerEndIdx % 8 == 0
                  && r.innerEndIdx + r.numTrailingBits + 1 == to
                  && r.innerBeginIdx < to - 1)
  {
  }
}
