/** How much of the driver's arena one call of the splitter takes. */
module PoolSpace {
  import opened Octets
  import opened Tap
  import opened Splitting
  import opened Meaning

  const DRIVER_POOL_BYTES := 64 * 1024
  const BIT_EXTRA_SIZE := 24

  /** Bit copier extras taken by a shift: one for each range that is not made of octets. */
  function ShiftExtras(from: nat, to: nat): nat
    requires from < to
  {
    var r := CutRanges(from, to);
    (if r.numLeadingBits > 0 then 1 else 0) + (if r.numTrailingBits > 0 then 1 else 0) + 1
  }

  function Extras(e: Event): nat
    requires EventInRange(e)
  {
    if e.ShiftTdi? then ShiftExtras(e.from, e.to) else 0
  }

  ghost function TotalExtras(es: seq<Event>): nat
    requires AllInRange(es)
  {
    if es == [] then 0 else TotalExtras(es[..|es| - 1]) + Extras(es[|es| - 1])
  }

  /** At most three bits of a shift are sent by commands of their own kind, and no more than there are. */
  lemma ExtrasBound(e: Event)
    requires EventInRange(e) && e.ShiftTdi?
    ensures 1 <= Extras(e) <= Min(e.to - e.from, 3)
  {
    RangesPartition(e.from, e.to);
  }

  /** How many clocks lead to a shift state at least; counted to three. */
  function ClocksToShift(s: TapState): (d: nat)
    ensures d <= 3
    ensures d == 0 <==> IsShift(s)
  {
    match s
    case ShiftDr | ShiftIr => 0
    case CaptureDr | CaptureIr | Exit2Dr | Exit2Ir => 1
    case PauseDr | PauseIr | SelectDrScan | SelectIrScan => 2
    case _ => 3
  }

  lemma {:induction false} MovingTakesClocks(s: TapState, tms: seq<byte>, lo: nat, hi: nat)
    requires lo <= hi <= 8 * |tms| && AllShift(s, tms, lo, hi, false)
    ensures ClocksToShift(StateAt(s, tms, lo)) <= hi - lo + ClocksToShift(StateAt(s, tms, hi))
    decreases hi
  {
    hide VecBit;
    if lo < hi {
      MovingTakesClocks(s, tms, lo, hi - 1);
      assert !IsShift(StateAt(s, tms, hi - 1));
    }
  }

  lemma {:induction false} TotalExtrasGrows(es: seq<Event>, k: nat)
    requires AllInRange(es) && k <= |es|
    ensures AllInRange(es[..k]) && TotalExtras(es[..k]) <= TotalExtras(es)
    ensures k < |es| ==> AllInRange(es[..k + 1]) && TotalExtras(es[..k + 1]) == TotalExtras(es[..k]) + Extras(es[k])
  {
    hide Extras;
    if k == |es| {
      assert es[..k] == es;
    } else {
      assert es[..k + 1][..k] == es[..k];
      TotalExtrasGrows(es[..|es| - 1], k);
      assert es[..|es| - 1][..k] == es[..k];
      if k + 1 == |es| {
        assert es[..k + 1] == es;
      }
    }
  }

  lemma TilesInRange(es: seq<Event>, s: TapState, tms: seq<byte>, tdi: seq<byte>, n: nat, to: nat)
    requires n <= 8 * |tms| && n <= 8 * |tdi| && Tiles(es, s, tms, tdi, n, to)
    ensures AllInRange(es)
  {
    hide StateAt, Tiles;
    forall i | 0 <= i < |es|
      ensures EventInRange(es[i])
    {
      TilesPrefix(es, s, tms, tdi, n, to, i);
    }
  }

  /** Allowances for a shift that starts, or may have ended, at a bit of this octet position, in
      sixteenths of an extra; they come on top of seven sixteenths for every bit. */
  function StartAllowance(octetPos: nat): int
    requires octetPos < 8
  {
    [0, -7, -6, -13, -12, -3, -10, -9][octetPos]
  }

  function EndAllowance(octetPos: nat): int
    requires octetPos < 8
  {
    [8, 9, 18, 11, 12, 5, 6, 15][octetPos]
  }

  lemma PositionAfter(from: nat, k: nat)
    ensures k < 8 ==> (from + k) % 8 == if from % 8 + k < 8 then from % 8 + k else from % 8 + k - 8
  {
  }

  /** Three extras need a shift that starts inside an octet and reaches into the one after the next
      boundary; everything else takes fewer. */
  lemma ShiftAllowance(e: Event)
    requires EventInRange(e) && e.ShiftTdi?
    ensures StartAllowance(e.from % 8) + 16 * Extras(e) <= 7 * (e.to - e.from) + EndAllowance(e.to % 8)
  {
    var k, r := e.to - e.from, e.from % 8;
    var c := CutRanges(e.from, e.to);
    RangesPartition(e.from, e.to);
    ExtrasBound(e);
    if Extras(e) == 3 {
      assert c.innerBeginIdx == e.from + (8 - r) && c.innerEndIdx >= c.innerBeginIdx;
      assert r + k >= 10;
    }
    PositionAfter(e.from, k);
  }

  lemma MoveAllowance(from: nat, k: nat)
    ensures k >= 1 ==> EndAllowance(from % 8) <= 7 * k + EndAllowance((from + k) % 8)
    ensures k >= 3 ==> EndAllowance(from % 8) <= 7 * k + StartAllowance((from + k) % 8)
    ensures StartAllowance(from % 8) <= EndAllowance(from % 8)
    ensures 0 <= 7 * from + StartAllowance(from % 8)
  {
    PositionAfter(from, k);
  }

  lemma NoExtras(e: Event)
    requires EventInRange(e) && !e.ShiftTdi?
    ensures Extras(e) == 0
  {
  }

  /** A call on `n` bits takes about 7/16 of an extra for every bit: coming back to a shift state
      takes three TMS bits, and only shifts across an octet boundary take three extras. */
  lemma {:induction false} ExtrasOfTiles(es: seq<Event>, s: TapState, tms: seq<byte>, tdi: seq<byte>, n: nat, to: nat)
    requires n <= 8 * |tms| && n <= 8 * |tdi| && to <= 8 * |tms| && Tiles(es, s, tms, tdi, n, to)
    ensures AllInRange(es)
    ensures 16 * TotalExtras(es) <= 7 * to + EndAllowance(to % 8)
    ensures to < n && IsShift(StateAt(s, tms, to)) ==> 16 * TotalExtras(es) <= 7 * to + StartAllowance(to % 8)
    ensures TotalExtras(es) > 0 && to < n && !IsShift(StateAt(s, tms, to)) ==> ClocksToShift(StateAt(s, tms, to)) == 3
  {
    hide VecBit, Extras, CutRanges, StartAllowance, EndAllowance;
    TilesInRange(es, s, tms, tdi, n, to);
    MoveAllowance(to, 0);
    if es != [] {
      var e := es[|es| - 1];
      ExtrasOfTiles(es[..|es| - 1], s, tms, tdi, n, e.from);
      if e.ShiftTdi? {
        ShiftAllowance(e);
        assert IsShift(StateAt(s, tms, e.from)) && IsShift(StateAt(s, tms, to - 1));
      } else {
        NoExtras(e);
        MovingTakesClocks(s, tms, e.from, to);
        MoveAllowance(e.from, to - e.from);
      }
    }
  }

  /** Vectors of up to 6240 bits fit in the driver's arena. */
  lemma ShortVectorsFit(es: seq<Event>, s: TapState, tms: seq<byte>, tdi: seq<byte>, n: nat)
    requires n <= 8 * |tms| && n <= 8 * |tdi| && Tiles(es, s, tms, tdi, n, n)
    ensures AllInRange(es) && 2 * TotalExtras(es) <= n + 3
    ensures n <= 6240 ==> BIT_EXTRA_SIZE * TotalExtras(es) <= DRIVER_POOL_BYTES
  {
    ExtrasOfTiles(es, s, tms, tdi, n, n);
    assert n < 6240 || n == 6240 ==> n % 8 == 0 || n < 6240;
  }

  // ---------------------------------------------------------------- vectors that do not fit

  /** TMS levels that go through shifts of two, two and three bits by the shortest way, over and
      over, so that the long ones cross octet boundaries. */
  predicate BusyLevel(i: nat)
  {
    i % 16 in {1, 3, 6, 8, 11, 13}
  }

  function BusyState(pos: nat): TapState
  {
    if pos in {15, 0, 1, 5, 6, 10, 11} then ShiftDr
    else if pos in {2, 7, 12} then Exit1Dr
    else if pos in {3, 8, 13} then PauseDr
    else Exit2Dr
  }

  predicate IsBusy(tms: seq<byte>)
  {
    forall i: nat :: i < 8 * |tms| ==> VecBit(tms, i) == BusyLevel(i)
  }

  function BusyVector(size: nat): (v: seq<byte>)
    ensures |v| == size
  {
    seq(size, j requires 0 <= j => PackOctet(seq(8, k requires 0 <= k => BusyLevel(8 * j + k))))
  }

  lemma BusyVectorIsBusy(size: nat)
    ensures IsBusy(BusyVector(size))
  {
    hide Bit, Pack;
    var v := BusyVector(size);
    forall i: nat | i < 8 * size
      ensures VecBit(v, i) == BusyLevel(i)
    {
      BitOfPack(seq(8, k requires 0 <= k => BusyLevel(8 * (i / 8) + k)), i % 8);
    }
  }

  lemma Position16(from: nat, k: nat)
    requires k <= 3
    ensures (from + k) % 16 == if from % 16 + k < 16 then from % 16 + k else from % 16 + k - 16
  {
  }

  lemma {:induction false} BusyStates(tms: seq<byte>, i: nat)
    requires IsBusy(tms) && i <= 8 * |tms|
    ensures StateAt(ShiftDr, tms, i) == BusyState(i % 16)
  {
    hide VecBit;
    if i > 0 {
      BusyStates(tms, i - 1);
      assert VecBit(tms, i - 1) == BusyLevel(i - 1);
      Position16(i - 1, 1);
    }
  }

  /** Sixteenths of an extra beyond seven for every bit, by the position of the end. */
  function BusyExcess(pos: nat): int
    requires pos < 16
  {
    [0, 9, 18, 11, 4, -3, 6, 15, 8, 1, -6, 3, 12, 5, -2, -9][pos]
  }

  lemma NoExcess()
    ensures BusyExcess(0) == 0
  {
  }

  /** Where the stretches of a busy vector end. */
  function BusyEnd(from: nat): nat
  {
    match from % 16
    case 15 => from + 3
    case 5 | 10 | 0 => from + 2
    case _ => from + 3
  }

  /** From the start of a stretch to its end the state is of one kind, and at the end of the other. */
  lemma BusyRun(from: nat, k: nat)
    requires from == 0 || from % 16 in {2, 5, 7, 10, 12, 15}
    requires k <= BusyEnd(from) - from
    ensures IsShift(BusyState((from + k) % 16)) == ((k < BusyEnd(from) - from) == (from % 16 in {15, 0, 5, 10}))
  {
    Position16(from, k);
  }

  lemma BusyStretch(e: Event, tms: seq<byte>, tdi: seq<byte>, n: nat)
    requires n <= 8 * |tms| && n <= 8 * |tdi| && IsBusy(tms)
    requires IsStretch(e, ShiftDr, tms, tdi, n) && EventInRange(e)
    requires e.from == 0 || e.from % 16 in {2, 5, 7, 10, 12, 15}
    ensures e.ShiftTdi? <==> e.from % 16 in {15, 0, 5, 10}
    ensures e.to <= BusyEnd(e.from) && (e.to < n ==> e.to == BusyEnd(e.from))
  {
    hide VecBit, StateAt, IsBusy, BusyState;
    var end := BusyEnd(e.from);
    BusyRun(e.from, 0);
    BusyStates(tms, e.from);
    assert IsShift(StateAt(ShiftDr, tms, e.from)) == e.ShiftTdi?;
    if e.to > end {
      BusyRun(e.from, end - e.from);
      BusyStates(tms, end);
    } else if e.to < n {
      BusyRun(e.from, e.to - e.from);
      BusyStates(tms, e.to);
      assert IsShift(StateAt(ShiftDr, tms, e.to)) != e.ShiftTdi?;
    }
  }

  /** Shifts of one, two, and of three bits across an octet boundary take as many extras as bits. */
  lemma FewExtras(e: Event)
    requires EventInRange(e) && e.ShiftTdi?
    requires e.to <= e.from + 2 || (e.to == e.from + 3 && e.from % 16 == 15)
    ensures Extras(e) == e.to - e.from
  {
    RangesPartition(e.from, e.to);
  }

  lemma BusyExtras(e: Event)
    requires EventInRange(e) && !e.FlushAll?
    requires e.from == 0 || e.from % 16 in {2, 5, 7, 10, 12, 15}
    requires e.ShiftTdi? <==> e.from % 16 in {15, 0, 5, 10}
    requires e.to <= BusyEnd(e.from)
    ensures BusyExcess(e.from % 16) + 16 * Extras(e) == 7 * (e.to - e.from) + BusyExcess(e.to % 16)
  {
    hide Extras;
    Position16(e.from, e.to - e.from);
    if e.ShiftTdi? {
      FewExtras(e);
    } else {
      NoExtras(e);
    }
  }

  lemma {:induction false} BusyTiles(es: seq<Event>, tms: seq<byte>, tdi: seq<byte>, n: nat, to: nat)
    requires n <= 8 * |tms| && n <= 8 * |tdi| && IsBusy(tms)
    requires Tiles(es, ShiftDr, tms, tdi, n, to)
    ensures AllInRange(es) && to <= n
    ensures 16 * TotalExtras(es) == 7 * to + BusyExcess(to % 16)
    ensures to < n ==> to == 0 || to % 16 in {2, 5, 7, 10, 12, 15}
  {
    hide VecBit, Extras, StateAt, BusyExcess;
    TilesInRange(es, ShiftDr, tms, tdi, n, to);
    if es != [] {
      var e := es[|es| - 1];
      StretchNotEmpty(e, ShiftDr, tms, tdi, n);
      BusyTiles(es[..|es| - 1], tms, tdi, n, e.from);
      BusyStretch(e, tms, tdi, n);
      BusyExtras(e);
    } else {
      NoExcess();
    }
  }

  lemma ManyExtras(n: nat)
    requires n > 6240
    ensures 7 * n + BusyExcess(n % 16) >= 16 * 2731
  {
    if n < 6244 {
      assert n % 16 == n - 6240;
    }
  }

  /** The driver offers vectors of up to eight bits for every byte of its chip's buffer, 8192 or
      32768 bits.  Not all of them fit: for every length above 6240 there is a vector whose extras
      exceed the arena, and the program gives up. */
  lemma LongVectorsMayNotFit(n: nat, es: seq<Event>, tdi: seq<byte>)
    requires n > 6240 && n <= 8 * |tdi|
    requires Tiles(es, ShiftDr, BusyVector(n / 8 + 1), tdi, n, n)
    ensures AllInRange(es) && BIT_EXTRA_SIZE * TotalExtras(es) > DRIVER_POOL_BYTES
  {
    hide IsBusy, BusyExcess, BusyVector;
    BusyVectorIsBusy(n / 8 + 1);
    BusyTiles(es, BusyVector(n / 8 + 1), tdi, n, n);
    ManyExtras(n);
  }
}
