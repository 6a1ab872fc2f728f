/** The choice of the TCK divider. */
module TckPeriod {
  import opened Octets
  import opened Opcodes
  import opened Mpsse
  import opened Wrappers

  const MAX_DIVIDER := 0xffff

  /** Half the clock the divider starts from: TCK runs at this frequency with divider 0. */
  function MaxFreqMHz(highSpeed: bool): int
  {
    if highSpeed then 30 else 6
  }

  /** TCK takes (1 + divider) * 1000 / maxFreqMHz nanoseconds; this says that it is not shorter
      than `periodNs`, without rounding. */
  predicate SlowEnough(highSpeed: bool, divider: int, periodNs: int)
  {
    (1 + divider) * 1000 >= MaxFreqMHz(highSpeed) * periodNs
  }

  function ChooseDivider(highSpeed: bool, periodNs: int): int
    requires periodNs > 0
  {
    var cycles := MaxFreqMHz(highSpeed) * periodNs;
    var divider := cycles / 1000 - (if cycles % 1000 == 0 then 1 else 0);
    if divider > MAX_DIVIDER then MAX_DIVIDER else divider
  }

  /** The period of a divider as reported, in whole nanoseconds. */
  function PeriodOf(highSpeed: bool, divider: int): int
  {
    (1 + divider) * 1000 / MaxFreqMHz(highSpeed)
  }

  function ReportedPeriod(highSpeed: bool, periodNs: int): int
    requires periodNs > 0
  {
    PeriodOf(highSpeed, ChooseDivider(highSpeed, periodNs))
  }

  /** The divider is the least one that is slow enough, if there is any; else it is the largest. */
  lemma DividerIsLeast(highSpeed: bool, periodNs: int)
    requires periodNs > 0
    ensures var d := ChooseDivider(highSpeed, periodNs);
            && 0 <= d <= MAX_DIVIDER
            && (forall other :: 0 <= other < d ==> !SlowEnough(highSpeed, other, periodNs))
            && (SlowEnough(highSpeed, d, periodNs) <==> SlowEnough(highSpeed, MAX_DIVIDER, periodNs))
            && (!SlowEnough(highSpeed, d, periodNs) ==> d == MAX_DIVIDER)
  {
  }

  /** The reported period is not shorter than the one asked for exactly when some divider is slow
      enough. */
  lemma ReportedNotShorter(highSpeed: bool, periodNs: int)
    requires periodNs > 0
    ensures ReportedPeriod(highSpeed, periodNs) >= periodNs <==> SlowEnough(highSpeed, MAX_DIVIDER, periodNs)
    ensures ReportedPeriod(highSpeed, periodNs) > 0
  {
  }

  lemma ReportedMonotone(highSpeed: bool, a: int, b: int)
    requires 0 < a <= b
    ensures ReportedPeriod(highSpeed, a) <= ReportedPeriod(highSpeed, b)
  {
  }

  /** A divider is chosen again for the period it is reported with. */
  lemma DividerFromPeriod(highSpeed: bool, divider: int)
    requires 0 <= divider <= MAX_DIVIDER
    ensures PeriodOf(highSpeed, divider) > 0
    ensures ChooseDivider(highSpeed, PeriodOf(highSpeed, divider)) == divider
  {
  }

  /** Every divider of two bytes is chosen for some period, and no other is. */
  lemma EveryDividerIsUsed(highSpeed: bool, divider: int)
    ensures 0 <= divider < 65536 <==> exists p :: p > 0 && ChooseDivider(highSpeed, p) == divider
  {
    hide ChooseDivider, PeriodOf;
    if 0 <= divider < 65536 {
      DividerFromPeriod(highSpeed, divider);
      assert ChooseDivider(highSpeed, PeriodOf(highSpeed, divider)) == divider;
    }
    if p :| p > 0 && ChooseDivider(highSpeed, p) == divider {
      DividerIsLeast(highSpeed, p);
    }
  }

  /** Asking for a reported period reports it again; the periods reported as they were asked for
      are exactly those of the dividers. */
  lemma ReportedIsFixedPoint(highSpeed: bool, periodNs: int)
    requires periodNs > 0
    ensures ReportedPeriod(highSpeed, periodNs) > 0
    ensures ReportedPeriod(highSpeed, ReportedPeriod(highSpeed, periodNs)) == ReportedPeriod(highSpeed, periodNs)
    ensures ReportedPeriod(highSpeed, periodNs) == periodNs <==>
            exists d :: 0 <= d <= MAX_DIVIDER && PeriodOf(highSpeed, d) == periodNs
  {
    hide ChooseDivider, PeriodOf;
    var d := ChooseDivider(highSpeed, periodNs);
    DividerIsLeast(highSpeed, periodNs);
    DividerFromPeriod(highSpeed, d);
    if d' :| 0 <= d' <= MAX_DIVIDER && PeriodOf(highSpeed, d') == periodNs {
      DividerFromPeriod(highSpeed, d');
    }
  }

  /** The period that a chip's setting gives its TCK, in whole nanoseconds. */
  function ChipPeriod(t: Settings): int
  {
    (1 + t.divisor) * 1000 / (if t.divideBy5 then 6 else 30)
  }

  /** The clock, of 60 MHz or 12 MHz, is divided by twice the divider plus one. */
  lemma ChipPeriodIsOfClock(t: Settings)
    ensures var mhz := if t.divideBy5 then 12 else 60;
            mhz * ChipPeriod(t) <= 2000 * (1 + t.divisor) < mhz * (ChipPeriod(t) + 1)
  {
  }

  /** With the chosen divider the chip's TCK has the period that is reported. */
  lemma PeriodIsReported(highSpeed: bool, periodNs: int, t: Settings)
    requires periodNs > 0 && t.divisor == ChooseDivider(highSpeed, periodNs) && t.divideBy5 == !highSpeed
    ensures ChipPeriod(t) == ReportedPeriod(highSpeed, periodNs)
  {
  }

  /** What the divider is computed from stays within the range of a C int. */
  predicate ProductFits(highSpeed: bool, periodNs: nat)
  {
    MaxFreqMHz(highSpeed) * periodNs <= 0x7fff_ffff
  }

  /** Periods above 71582788 ns overflow, or above 357913941 ns without high speed. */
  lemma LongPeriodsOverflow(highSpeed: bool, periodNs: nat)
    ensures ProductFits(highSpeed, periodNs) <==> periodNs <= if highSpeed then 71582788 else 357913941
  {
  }

  lemma HighByte(d: nat)
    requires d < 65536
    ensures d / 256 % 256 == d / 256
  {
  }

  /** set_tck_period() up to the transfer: the commands for the chip and the period to report, or
      none for the period 0, on which the program stops.  All intermediate values are within the
      range of a C int. */
  method DivisorCommand(highSpeed: bool, tckPeriodNs: int) returns (cmd: Option<seq<byte>>, actualPeriodNs: int)
    requires tckPeriodNs >= 0 && ProductFits(highSpeed, tckPeriodNs)
    ensures cmd.None? <==> tckPeriodNs == 0
    ensures tckPeriodNs > 0 ==>
      var d := ChooseDivider(highSpeed, tckPeriodNs);
      && 0 <= d < 65536
      && cmd == Some([OP_SET_TCK_DIVISOR, d % 256, d / 256] + if highSpeed then [OP_DISABLE_CLK_DIVIDE_BY_5] else [])
    ensures tckPeriodNs > 0 ==>
      actualPeriodNs == ReportedPeriod(highSpeed, tckPeriodNs) && 0 < actualPeriodNs < 0x8000_0000
  {
    var maxFreqMHz := if highSpeed then 30 else 6;
    var divider := (maxFreqMHz * tckPeriodNs) / 1000 - (if (maxFreqMHz * tckPeriodNs) % 1000 == 0 then 1 else 0);
    if divider < 0 {
      return None, 0;
    }
    DividerIsLeast(highSpeed, tckPeriodNs);
    ReportedNotShorter(highSpeed, tckPeriodNs);
    if divider > 0xffff {
      divider := 0xffff;
    }
    assert divider == ChooseDivider(highSpeed, tckPeriodNs);
    HighByte(divider);
    actualPeriodNs := (1 + divider) * 1000 / maxFreqMHz;
    var setDivisor: seq<byte> := [OP_SET_TCK_DIVISOR, divider % 256, divider / 256 % 256];
    cmd := Some(setDivisor + if highSpeed then [OP_DISABLE_CLK_DIVIDE_BY_5] else []);
  }
}
