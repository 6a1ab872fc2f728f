/** The FTDI driver: it compiles the splitter's events to chip commands. */
module Driver {
  import opened Octets
  import opened Opcodes
  import opened Tap
  import opened Mpsse
  import opened Pending
  import opened Encoding
  import opened Splitting
  import opened Meaning
  import opened PoolSpace
  import opened Mempool
  import opened FtBuffer
  import opened JtagSplitter
  import opened TckPeriod

  /** What a pin beside those of JTAG is used for. */
  datatype PinRole = DriverHigh | DriverLow | Ignored

  /** How a step of the driver ends.  It is refused when a transfer fails; when the arena is full the
      whole program gives up. */
  datatype Result = Done | Refused | GaveUp

  /** The events in front of the flush. */
  function EventsOf(log: seq<Handed>): seq<Event>
    requires log != []
  {
    seq(|log| - 1, i requires 0 <= i < |log| - 1 => log[i].event)
  }

  lemma EventsHanded(log: seq<Handed>, es: seq<Event>)
    requires log == Accepted(es) + [Handed(FlushAll, true)]
    ensures EventsOf(log) == es
  {
  }

  lemma MoveStarts(env: Env, w: World, tms: seq<byte>, from: nat, held: bool)
    requires from <= 8 * |tms| && w.chip.mode == Opcode && w.chip.tdi == held
    ensures MovedTo(env, w, w, tms, from, from, held)
  {
    assert HeldPulses(tms, from, from, held) == [];
    ClockNothing(env.dev, w.chip.tap);
  }

  /** Shifted right, the first octet starts with the leading bits. */
  lemma LeadingData(tdi: seq<byte>, from: nat, n: nat)
    requires from < 8 * |tdi| && from % 8 + n <= 8 && from + n <= 8 * |tdi|
    ensures forall i: nat :: i < n ==> Bit(ShiftRight(tdi[from / 8], from % 8), i) == VecBit(tdi, from + i)
  {
    forall i: nat | i < n
      ensures Bit(ShiftRight(tdi[from / 8], from % 8), i) == VecBit(tdi, from + i)
    {
      BitOfShiftRight(tdi[from / 8], from % 8, i);
      assert (from + i) / 8 == from / 8 && (from + i) % 8 == from % 8 + i;
    }
  }

  lemma SpaceForShift(from: nat, to: nat)
    requires from < to
    ensures var r := CutRanges(from, to);
            BIT_EXTRA_SIZE * ShiftExtras(from, to)
            == (if r.numLeadingBits > 0 then BIT_EXTRA_SIZE else 0)
               + (if r.numTrailingBits > 0 then BIT_EXTRA_SIZE else 0) + BIT_EXTRA_SIZE
  {
  }

  lemma TrailingData(tdi: seq<byte>, from: nat, n: nat)
    requires from % 8 == 0 && 0 < n <= 7 && from + n <= 8 * |tdi|
    ensures forall i: nat :: i < n ==> Bit(tdi[from / 8], i) == VecBit(tdi, from + i)
  {
    hide Bit;
  }

  lemma WholeOctets(at: nat, n: nat)
    requires at % 8 == 0
    ensures (at + 8 * n) % 8 == 0
  {
  }

  lemma OctetsFit(at: nat, end: nat, limit: nat)
    requires at % 8 == 0 && end % 8 == 0 && at < end && limit > 0
    ensures var n := Min((end - at) / 8, limit);
            && 1 <= n <= limit && at + 8 * n <= end && (at + 8 * n) % 8 == 0
            && (at + 8 * n < end ==> n == limit)
  {
    var k := (end - at) / 8;
    assert end - at == 8 * k;
    WholeOctets(at, Min(k, limit));
  }

  /** The bit copier extras of a call fit in the driver's arena. */
  ghost predicate EventsFit(s: TapState, tms: seq<byte>, tdi: seq<byte>, n: nat)
    requires n <= 8 * |tms| && n <= 8 * |tdi|
  {
    var es := TilesOf(s, tms, tdi, n);
    AllInRange(es) && BIT_EXTRA_SIZE * TotalExtras(es) <= DRIVER_POOL_BYTES
  }

  /** Five TMS-high clocks, whatever the level of TDI. */
  lemma ResetClocks(dev: Device, t: Tap, held: bool)
    ensures EventInRange(RESET_EVENT) && Clock(dev, t, HeldPulses([0x1f], 0, 5, held)).tap.state == TestLogicReset
  {
    var ps := HeldPulses([0x1f], 0, 5, held);
    forall i | 0 <= i < |ps|
      ensures ps[i].tms
    {
      ResetLevels(i);
    }
    HighsReset(dev, t, ps);
  }

  // ---------------------------------------------------------------- walking through a tiling

  function Reached(es: seq<Event>, k: nat): nat
    requires k <= |es|
  {
    if k == 0 || es[k - 1].FlushAll? then 0 else es[k - 1].to
  }

  lemma EventFollows(es: seq<Event>, s: TapState, tms: seq<byte>, tdi: seq<byte>, n: nat, k: nat)
    requires n <= 8 * |tms| && n <= 8 * |tdi| && k < |es|
    requires Tiles(es, s, tms, tdi, n, n)
    ensures IsStretch(es[k], s, tms, tdi, n) && EventInRange(es[k]) && !es[k].FlushAll?
    ensures es[k].from == Reached(es, k) && es[k].to == Reached(es, k + 1) <= n
    ensures k > 0 ==> es[k - 1].ShiftTms? != es[k].ShiftTms? && !es[k - 1].FlushAll?
  {
    hide StateAt;
    TilesPrefix(es, s, tms, tdi, n, n, k);
    if k > 0 {
      TilesMeet(es, s, tms, tdi, n, n, k - 1);
    }
  }

  lemma TilesEnd(es: seq<Event>, s: TapState, tms: seq<byte>, tdi: seq<byte>, n: nat)
    requires n <= 8 * |tms| && Tiles(es, s, tms, tdi, n, n)
    ensures Reached(es, |es|) == n
  {
    hide StateAt;
  }

  lemma NoEventsNoExtras(es: seq<Event>)
    ensures AllInRange(es[..0]) && TotalExtras(es[..0]) == 0
  {
  }

  /** A shift starts with TMS low. */
  lemma PinsForEvent(env: Env, w0: World, w: World, e: Event, tms: seq<byte>, tdi: seq<byte>, n: nat)
    requires n <= 8 * |tms| && n <= 8 * |tdi|
    requires IsStretch(e, w0.chip.tap.state, tms, tdi, n) && EventInRange(e)
    requires ClockedBits(env, w0, w, tms, tdi, e.from) && AtRest(w.chip)
    ensures e.ShiftTdi? ==> !w.chip.tms
  {
    hide StateAt, Clock, Captured;
    assert e.ShiftTdi? ==> IsShift(StateAt(w0.chip.tap.state, tms, e.from));
  }

  lemma FlushKeeps(env: Env, w0: World, w: World, held: bool)
    ensures CarriedOut(env, w0, w, FlushAll, held) ==> w == w0
  {
  }

  // ---------------------------------------------------------------- setting up pins

  lemma SetHigh(b: byte, i: nat)
    requires i < 8
    ensures SetBit(b, i, true) < 256
    ensures forall k: nat :: Bit(SetBit(b, i, true), k) == if k == i then true else Bit(b, k)
  {
    assert Pow2(8) == 256;
    SetBitBound(b, i, true, 8);
    forall k: nat
      ensures Bit(SetBit(b, i, true), k) == if k == i then true else Bit(b, k)
    {
      BitOfSetBit(b, i, true, k);
    }
  }

  lemma {:induction false} NoBits(k: nat)
    ensures !Bit(0, k)
  {
    if k > 0 {
      NoBits(k - 1);
    }
  }

  lemma JtagPins()
    ensures forall k: nat :: k < 8 ==> Bit(0x08, k) == (k == 3)
    ensures forall k: nat :: k < 8 ==> Bit(0x0b, k) == (k < 4 && k != 2)
  {
    forall k: nat | k < 8
      ensures Bit(0x08, k) == (k == 3) && Bit(0x0b, k) == (k < 4 && k != 2)
    {
      if k >= 4 {
        assert Bit(0x08, k) == Bit(0x04, k - 1) == Bit(0x02, k - 2) == Bit(0x01, k - 3) == Bit(0, k - 4);
        assert Bit(0x0b, k) == Bit(0x05, k - 1) == Bit(0x02, k - 2) == Bit(0x01, k - 3) == Bit(0, k - 4);
        NoBits(k - 4);
      } else if k == 3 {
        assert Bit(0x08, 3) == Bit(0x04, 2) == Bit(0x02, 1) == Bit(0x01, 0);
        assert Bit(0x0b, 3) == Bit(0x05, 2) == Bit(0x02, 1) == Bit(0x01, 0);
      } else if k == 2 {
        assert Bit(0x08, 2) == Bit(0x04, 1) == Bit(0x02, 0);
        assert Bit(0x0b, 2) == Bit(0x05, 1) == Bit(0x02, 0);
      } else if k == 1 {
        assert Bit(0x08, 1) == Bit(0x04, 0);
        assert Bit(0x0b, 1) == Bit(0x05, 0);
      }
    }
  }

  /** TCK and TDI low and TMS high, TDO an input and these three outputs; the other four pins as chosen. */
  predicate PinsSetUp(levels: byte, directions: byte, pins: seq<PinRole>)
    requires |pins| == 4
  {
    && (forall i: nat :: i < 4 ==> Bit(levels, i) == (i == 3) && Bit(directions, i) == (i != 2))
    && (forall i: nat :: i < 4 ==> Bit(levels, 4 + i) == pins[i].DriverHigh?)
    && (forall i: nat :: i < 4 ==> Bit(directions, 4 + i) == !pins[i].Ignored?)
  }

  /** What the chip has been told last is that. */
  predicate PinsAsChosen(s: Settings, pins: seq<PinRole>)
    requires |pins| == 4
  {
    PinsSetUp(s.levels, s.directions, pins)
  }

  predicate SamePins(s: Settings, t: Settings)
  {
    s.levels == t.levels && s.directions == t.directions
  }

  predicate SameClock(s: Settings, t: Settings)
  {
    s.divisor == t.divisor && s.divideBy5 == t.divideBy5
  }

  /** The command that sets the pins up: TCK and TDI low and TMS high, TDO an input, and the other four
      pins as the user has chosen. */
  method PinSetup(pins: seq<PinRole>) returns (setupCmds: seq<byte>)
    requires |pins| == 4
    ensures |setupCmds| == 3 && setupCmds[0] == OP_SET_DBUS_LOBYTE
    ensures PinsSetUp(setupCmds[1], setupCmds[2], pins)
  {
    hide Bit, SetBit;
    var levels: byte, directions: byte := 0x08, 0x0b;
    JtagPins();
    for i := 4 to 8
      invariant forall k: nat :: k < 8 ==>
        Bit(levels, k) == if k < 4 then k == 3 else k < i && pins[k - 4].DriverHigh?
      invariant forall k: nat :: k < 8 ==>
        Bit(directions, k) == if k < 4 then k != 2 else k < i && !pins[k - 4].Ignored?
    {
      SetHigh(levels, i);
      SetHigh(directions, i);
      match pins[i - 4]
      case DriverHigh =>
        levels := SetBit(levels, i, true);
        directions := SetBit(directions, i, true);
      case DriverLow =>
        directions := SetBit(directions, i, true);
      case Ignored =>
    }
    setupCmds := [OP_SET_DBUS_LOBYTE, levels, directions];
  }

  /** Whether a reply is the chip's complaint about an opcode. */
  method IsComplaint(resp: array<byte>, opcode: byte) returns (r: bool)
    requires resp.Length == 2
    ensures r <==> resp[..] == [0xFA, opcode]
  {
    r := resp[0] == OP_BAD_COMMANDS && resp[1] == opcode;
  }

  // ---------------------------------------------------------------- the driver

  class Driver {
    const chipBufferBytes: nat
    const highSpeedCapable: bool
    const cmdBuffer: FtBuffer
    const pool: Mempool<BitExtra>
    const jtagSplitter: JtagSplitter
    var lastTdi: bool

    /** The driver's objects. */
    ghost predicate Linked()
    {
      && cmdBuffer.extras == pool && cmdBuffer.maxRxBufferBytes == chipBufferBytes
      && pool.start % 8 == 0 && pool.end == pool.start + DRIVER_POOL_BYTES
    }

    /** Between events: the buffer is valid, and once everything pending has been carried out the
        chip awaits a command and its TDI pin has the level the driver remembers. */
    ghost predicate Valid(tdo: array<byte>)
      reads this, cmdBuffer, cmdBuffer.pool, cmdBuffer.extras, cmdBuffer.ftChip, tdo
    {
      && Linked() && pool.head % 8 == 0
      && cmdBuffer.Valid(tdo)
      && cmdBuffer.Promise(tdo).chip.mode == Opcode && cmdBuffer.Promise(tdo).chip.tdi == lastTdi
    }

    /** Space taken in the driver's arena. */
    ghost function Used(): int
      reads pool
    {
      pool.head - pool.start
    }

    constructor (cmdBuffer: FtBuffer, pool: Mempool<BitExtra>, jtagSplitter: JtagSplitter, chipBufferBytes: nat,
                 highSpeedCapable: bool)
      ensures this.cmdBuffer == cmdBuffer && this.pool == pool && this.jtagSplitter == jtagSplitter
      ensures this.chipBufferBytes == chipBufferBytes && this.highSpeedCapable == highSpeedCapable && lastTdi == false
    {
      this.cmdBuffer, this.pool, this.jtagSplitter := cmdBuffer, pool, jtagSplitter;
      this.chipBufferBytes, this.highSpeedCapable, lastTdi := chipBufferBytes, highSpeedCapable, false;
    }

    /** append_tms_shift_to_transaction() */
    method AppendTmsShift(tms: seq<byte>, fromBitIdx: nat, toBitIdx: nat, tdo: array<byte>) returns (ok: bool)
      requires Valid(tdo) && fromBitIdx < toBitIdx <= 8 * |tms|
      requires cmdBuffer.Slack() <= 49
      modifies cmdBuffer, cmdBuffer.ftChip`chip, cmdBuffer.ftChip`unread, cmdBuffer.pool, tdo
      ensures cmdBuffer.ftChip.reliable ==> ok
      ensures ok ==> cmdBuffer.Valid(tdo) && cmdBuffer.Slack() <= 22
      ensures ok ==>
        MovedTo(cmdBuffer.ftChip.env, old(cmdBuffer.Promise(tdo)), cmdBuffer.Promise(tdo), tms, fromBitIdx, toBitIdx,
                lastTdi)
    {
      hide Run, TmsData, HeldPulses, Clock, VecBit, Accounted, Outcome, ListStored, Laid, Perform;
      var maxTmsBitsPerCommand := 6;
      ghost var env, w0 := cmdBuffer.ftChip.env, cmdBuffer.Promise(tdo);
      MoveStarts(env, w0, tms, fromBitIdx, lastTdi);
      var curIdx := fromBitIdx;
      while curIdx < toBitIdx
        invariant fromBitIdx <= curIdx <= toBitIdx
        invariant cmdBuffer.Valid(tdo) && MovedTo(env, w0, cmdBuffer.Promise(tdo), tms, fromBitIdx, curIdx, lastTdi)
        invariant cmdBuffer.Slack() <= if curIdx == fromBitIdx then 49 else 22
      {
        var bitsToTransfer := Min(toBitIdx - curIdx, maxTmsBitsPerCommand);
        var data := BuildTmsData(tms, curIdx, bitsToTransfer, lastTdi);
        TmsShift(env, w0, cmdBuffer.Promise(tdo), tms, fromBitIdx, curIdx, bitsToTransfer, lastTdi);
        ok := cmdBuffer.Add([OP_TMS, bitsToTransfer - 1, data], tdo);
        if !ok {
          return;
        }
        curIdx := curIdx + bitsToTransfer;
      }
      return true;
    }

    /** A bit copier's extra in the driver's arena, or null if this is full; nothing that is pending is
        disturbed. */
    method NewBitExtra(fromBit: nat, toBit: nat, numBits: nat, tdo: array<byte>) returns (p: nat)
      requires Linked() && pool.head % 8 == 0 && cmdBuffer.Valid(tdo)
      modifies pool
      ensures p != 0 <==> old(Used()) + BIT_EXTRA_SIZE <= DRIVER_POOL_BYTES
      ensures pool.head % 8 == 0 && Used() == old(Used()) + if p != 0 then BIT_EXTRA_SIZE else 0
      ensures cmdBuffer.Valid(tdo) && cmdBuffer.Promise(tdo) == old(cmdBuffer.Promise(tdo))
      ensures p != 0 ==> p in pool.objects && pool.objects[p] == BitExtra(fromBit, tdo, toBit, numBits)
    {
      hide Accounted, Outcome, ListStored, Laid;
      var e := BitExtra(fromBit, tdo, toBit, numBits);
      KeepsAlignment(pool.head, BIT_EXTRA_SIZE);
      p := pool.AllocObject(BIT_EXTRA_SIZE, OBJECT_ALIGN, e);
      if p != 0 {
        ListOutlivesBits(cmdBuffer.pool.objects, old(pool.objects), cmdBuffer.rxBuffer, cmdBuffer.queue,
                         cmdBuffer.observers, tdo, p, e);
      }
    }

    /** A three-byte command whose one-octet reply is copied to `numBits` bits from `toBit` on. */
    method SendBitCommand(cmd: seq<byte>, toBit: nat, numBits: nat, tdo: array<byte>) returns (res: Result)
      requires Linked() && pool.head % 8 == 0 && cmdBuffer.Valid(tdo)
      requires |cmd| == 3 && 1 <= numBits <= 8 && toBit + numBits <= 8 * tdo.Length
      requires cmdBuffer.Slack() <= 49
      requires |Run(cmdBuffer.ftChip.env, cmdBuffer.Promise(tdo).chip, cmd).out| == 1
      modifies cmdBuffer, cmdBuffer.ftChip`chip, cmdBuffer.ftChip`unread, cmdBuffer.pool, pool, tdo
      ensures cmdBuffer.ftChip.reliable ==> res != Refused
      ensures res == GaveUp <==> old(Used()) + BIT_EXTRA_SIZE > DRIVER_POOL_BYTES
      ensures res == Done ==> pool.head % 8 == 0 && Used() == old(Used()) + BIT_EXTRA_SIZE
      ensures res == Done ==> cmdBuffer.Valid(tdo) && cmdBuffer.Slack() <= Max(0, old(cmdBuffer.Slack())) + 5
      ensures res == Done ==>
        cmdBuffer.Promise(tdo)
        == Perform(cmdBuffer.ftChip.env, old(cmdBuffer.Promise(tdo)), cmd, TakeBits(8 - numBits, toBit, numBits))
      ensures res == Done ==> BitCopierLast()
    {
      hide Run, Accounted, Outcome, ListStored, Laid, Perform;
      var e := NewBitExtra(8 - numBits, toBit, numBits, tdo);
      if e == 0 {
        return GaveUp;
      }
      var ok := cmdBuffer.AddWithReadback(cmd, BitCopier, e, 1, TakeBits(8 - numBits, toBit, numBits), tdo);
      res := if ok then Done else Refused;
    }

    /** Leading and trailing bits. */
    method SendBits(tdi: seq<byte>, data: byte, curIdx: nat, numBits: nat, tdo: array<byte>,
                    ghost w0: World, ghost from: nat)
      returns (res: Result)
      requires Linked() && pool.head % 8 == 0 && cmdBuffer.Valid(tdo)
      requires 1 <= numBits <= 7 && from <= curIdx
      requires curIdx + numBits <= 8 * |tdi| && curIdx + numBits <= 8 * tdo.Length
      requires forall i: nat :: i < numBits ==> Bit(data, i) == VecBit(tdi, curIdx + i)
      requires ShiftedTo(cmdBuffer.ftChip.env, w0, cmdBuffer.Promise(tdo), tdi, from, curIdx)
      requires cmdBuffer.Slack() <= 49
      modifies cmdBuffer, cmdBuffer.ftChip`chip, cmdBuffer.ftChip`unread, cmdBuffer.pool, pool, tdo
      ensures cmdBuffer.ftChip.reliable ==> res != Refused
      ensures res == GaveUp <==> old(Used()) + BIT_EXTRA_SIZE > DRIVER_POOL_BYTES
      ensures res == Done ==> pool.head % 8 == 0 && Used() == old(Used()) + BIT_EXTRA_SIZE
      ensures res == Done ==> cmdBuffer.Valid(tdo) && cmdBuffer.Slack() <= Max(0, old(cmdBuffer.Slack())) + 5
      ensures res == Done ==> ShiftedTo(cmdBuffer.ftChip.env, w0, cmdBuffer.Promise(tdo), tdi, from, curIdx + numBits)
    {
      hide Run, Accounted, Outcome, ListStored, Laid, Perform, Received, Clock, TdiPulses, Bit, VecBit;
      ghost var env, w := cmdBuffer.ftChip.env, cmdBuffer.Promise(tdo);
      BitsShift(env, w, tdi, curIdx, numBits, data);
      res := SendBitCommand([OP_BITS_READ, numBits - 1, data], curIdx, numBits, tdo);
      if res == Done {
        ShiftExtends(env, w0, w, cmdBuffer.Promise(tdo), tdi, from, curIdx, curIdx + numBits);
      }
    }

    /** Whole octets; header and payload are queued apart. */
    method SendOctets(tdi: seq<byte>, curIdx: nat, numOctets: nat, tdo: array<byte>, ghost w0: World, ghost from: nat)
      returns (ok: bool)
      requires Linked() && cmdBuffer.Valid(tdo)
      requires curIdx % 8 == 0 && 1 <= numOctets <= chipBufferBytes
      requires from <= curIdx && curIdx + 8 * numOctets <= 8 * |tdi| && curIdx + 8 * numOctets <= 8 * tdo.Length
      requires ShiftedTo(cmdBuffer.ftChip.env, w0, cmdBuffer.Promise(tdo), tdi, from, curIdx)
      requires cmdBuffer.Slack() <= 27
      modifies cmdBuffer, cmdBuffer.ftChip`chip, cmdBuffer.ftChip`unread, cmdBuffer.pool, tdo
      ensures cmdBuffer.ftChip.reliable ==> ok
      ensures ok ==> cmdBuffer.Valid(tdo) && cmdBuffer.Slack() <= 48 - 9 * numOctets
      ensures ok ==> ShiftedTo(cmdBuffer.ftChip.env, w0, cmdBuffer.Promise(tdo), tdi, from, curIdx + 8 * numOctets)
    {
      hide Run, Accounted, Outcome, ListStored, Laid, Perform, Received, Clock, TdiPulses;
      ghost var env, w := cmdBuffer.ftChip.env, cmdBuffer.Promise(tdo);
      var at := curIdx / 8;
      OctetsShift(env, w, tdi, at, numOctets);
      ok := cmdBuffer.Add([OP_OCTETS_READ, (numOctets - 1) % 256, (numOctets - 1) / 256], tdo);
      if !ok {
        return;
      }
      ok := cmdBuffer.AddWithReadbackSimple(tdi[at..at + numOctets], at, numOctets, tdo);
      if ok {
        ShiftExtends(env, w0, w, cmdBuffer.Promise(tdo), tdi, from, curIdx, curIdx + 8 * numOctets);
      }
    }

    /** The last bit goes out with a TMS command. */
    method SendLastBit(tdi: seq<byte>, lastBitIdx: nat, lastTmsBitHigh: bool, tdo: array<byte>,
                       ghost w0: World, ghost from: nat)
      returns (res: Result)
      requires Linked() && pool.head % 8 == 0 && cmdBuffer.Valid(tdo)
      requires from <= lastBitIdx < 8 * |tdi| && lastBitIdx < 8 * tdo.Length && |w0.tdo| == tdo.Length
      requires ShiftedTo(cmdBuffer.ftChip.env, w0, cmdBuffer.Promise(tdo), tdi, from, lastBitIdx)
      requires cmdBuffer.Slack() <= 44
      modifies this`lastTdi, cmdBuffer, cmdBuffer.ftChip`chip, cmdBuffer.ftChip`unread, cmdBuffer.pool, pool, tdo
      ensures cmdBuffer.ftChip.reliable ==> res != Refused
      ensures res == GaveUp <==> old(Used()) + BIT_EXTRA_SIZE > DRIVER_POOL_BYTES
      ensures res == Done ==> pool.head % 8 == 0 && Used() == old(Used()) + BIT_EXTRA_SIZE
      ensures res == Done ==> cmdBuffer.Valid(tdo) && cmdBuffer.Slack() <= 49 && lastTdi == VecBit(tdi, lastBitIdx)
      ensures res == Done ==>
        ShiftDone(cmdBuffer.ftChip.env, w0, cmdBuffer.Promise(tdo), tdi, from, lastBitIdx + 1, lastTmsBitHigh)
      ensures res == Done ==> BitCopierLast()
    {
      hide Run, Accounted, Outcome, ListStored, Laid, Perform, Received, Clock, TdiPulses, Bit, VecBit, ShiftDone,
           ShiftedTo;
      var lastTdiBit := VecBit(tdi, lastBitIdx);
      LastBitShift(cmdBuffer.ftChip.env, w0, cmdBuffer.Promise(tdo), tdi, from, lastBitIdx + 1, lastTmsBitHigh);
      res := SendBitCommand(LastBitCommand(lastTdiBit, lastTmsBitHigh), lastBitIdx, 1, tdo);
      if res == Done {
        lastTdi := lastTdiBit;
      }
    }

    /** As many inner octets as the chip's buffer can answer, and the trailing bits once all inner
        octets are sent. */
    method SendInnerAndTrailing(tdi: seq<byte>, curIdx: nat, r: Ranges, lastBitIdx: nat, tdo: array<byte>,
                                ghost w0: World, ghost from: nat)
      returns (res: Result, nextIdx: nat)
      requires Linked() && pool.head % 8 == 0 && cmdBuffer.Valid(tdo)
      requires from <= curIdx < lastBitIdx < 8 * |tdi| && lastBitIdx < 8 * tdo.Length
      requires curIdx % 8 == 0 && r.innerEndIdx % 8 == 0 && curIdx <= r.innerEndIdx
      requires 0 <= r.numTrailingBits <= 7 && r.innerEndIdx + r.numTrailingBits == lastBitIdx
      requires ShiftedTo(cmdBuffer.ftChip.env, w0, cmdBuffer.Promise(tdo), tdi, from, curIdx)
      requires cmdBuffer.Slack() <= 27
      modifies cmdBuffer, cmdBuffer.ftChip`chip, cmdBuffer.ftChip`unread, cmdBuffer.pool, pool, tdo
      ensures cmdBuffer.ftChip.reliable ==> res != Refused
      ensures res == GaveUp ==> r.numTrailingBits > 0 && old(Used()) + BIT_EXTRA_SIZE > DRIVER_POOL_BYTES
      ensures res == Done ==> pool.head % 8 == 0 && curIdx < nextIdx <= lastBitIdx && cmdBuffer.Valid(tdo)
      ensures res == Done ==> ShiftedTo(cmdBuffer.ftChip.env, w0, cmdBuffer.Promise(tdo), tdi, from, nextIdx)
      ensures res == Done && nextIdx == lastBitIdx ==>
        cmdBuffer.Slack() <= 44 && Used() == old(Used()) + if r.numTrailingBits > 0 then BIT_EXTRA_SIZE else 0
      ensures res == Done && nextIdx < lastBitIdx ==>
        nextIdx % 8 == 0 && nextIdx < r.innerEndIdx && cmdBuffer.Slack() <= 0 && Used() == old(Used())
    {
      hide Run, Accounted, Outcome, ListStored, Laid, Perform, ShiftedTo, Bit, VecBit;
      nextIdx := curIdx;
      if nextIdx < r.innerEndIdx {
        var innerOctetsToSend := Min((r.innerEndIdx - nextIdx) / 8, chipBufferBytes);
        OctetsFit(nextIdx, r.innerEndIdx, chipBufferBytes);
        var ok := SendOctets(tdi, nextIdx, innerOctetsToSend, tdo, w0, from);
        if !ok {
          return Refused, nextIdx;
        }
        nextIdx := nextIdx + innerOctetsToSend * 8;
      }
      if nextIdx == r.innerEndIdx && r.numTrailingBits > 0 {
        TrailingData(tdi, r.innerEndIdx, r.numTrailingBits);
        res := SendBits(tdi, tdi[r.innerEndIdx / 8], r.innerEndIdx, r.numTrailingBits, tdo, w0, from);
        if res != Done {
          return;
        }
        nextIdx := nextIdx + r.numTrailingBits;
      }
      res := Done;
    }

    /** append_tdi_shift_to_transaction() */
    method AppendTdiShift(tdi: seq<byte>, tdo: array<byte>, fromBitIdx: nat, toBitIdx: nat, lastTmsBitHigh: bool)
      returns (res: Result)
      requires Linked() && pool.head % 8 == 0 && cmdBuffer.Valid(tdo)
      requires cmdBuffer.Promise(tdo).chip.mode == Opcode && !cmdBuffer.Promise(tdo).chip.tms
      requires fromBitIdx < toBitIdx <= 8 * |tdi| && toBitIdx <= 8 * tdo.Length
      requires cmdBuffer.Slack() <= 22
      modifies this`lastTdi, cmdBuffer, cmdBuffer.ftChip`chip, cmdBuffer.ftChip`unread, cmdBuffer.pool, pool, tdo
      ensures cmdBuffer.ftChip.reliable ==> res != Refused
      ensures res == GaveUp ==> old(Used()) + BIT_EXTRA_SIZE * ShiftExtras(fromBitIdx, toBitIdx) > DRIVER_POOL_BYTES
      ensures res == Done ==> pool.head % 8 == 0
      ensures res == Done ==> Used() == old(Used()) + BIT_EXTRA_SIZE * ShiftExtras(fromBitIdx, toBitIdx)
      ensures res == Done ==> cmdBuffer.Valid(tdo) && cmdBuffer.Slack() <= 49 && lastTdi == VecBit(tdi, toBitIdx - 1)
      ensures res == Done ==>
        ShiftDone(cmdBuffer.ftChip.env, old(cmdBuffer.Promise(tdo)), cmdBuffer.Promise(tdo), tdi, fromBitIdx, toBitIdx,
                  lastTmsBitHigh)
      ensures res == Done ==> BitCopierLast()
    {
      hide Run, Accounted, Outcome, ListStored, Laid, Perform, ShiftDone, ShiftedTo, CutRanges, Bit, VecBit,
           ShiftExtras, ShiftRight;
      ghost var env, w0, used := cmdBuffer.ftChip.env, cmdBuffer.Promise(tdo), Used();
      var lastBitIdx := toBitIdx - 1;
      var r := CutRanges(fromBitIdx, toBitIdx);
      RangesPartition(fromBitIdx, toBitIdx);
      SpaceForShift(fromBitIdx, toBitIdx);
      ShiftStarts(env, w0, tdi, fromBitIdx);
      var curIdx := fromBitIdx;
      while curIdx < toBitIdx
        invariant fromBitIdx <= curIdx <= toBitIdx && pool.head % 8 == 0 && |w0.tdo| == tdo.Length
        invariant curIdx < toBitIdx ==>
          cmdBuffer.Valid(tdo) && ShiftedTo(env, w0, cmdBuffer.Promise(tdo), tdi, fromBitIdx, curIdx)
        invariant curIdx == fromBitIdx ==> cmdBuffer.Slack() <= 22 && Used() == used
        invariant fromBitIdx < curIdx < toBitIdx ==>
          && cmdBuffer.Slack() <= 0 && Used() == used + (if r.numLeadingBits > 0 then BIT_EXTRA_SIZE else 0)
          && !r.leadingOnly && curIdx % 8 == 0 && r.innerBeginIdx <= curIdx < r.innerEndIdx
        invariant curIdx == toBitIdx ==>
          && cmdBuffer.Valid(tdo) && cmdBuffer.Slack() <= 49 && lastTdi == VecBit(tdi, lastBitIdx)
          && ShiftDone(env, w0, cmdBuffer.Promise(tdo), tdi, fromBitIdx, toBitIdx, lastTmsBitHigh)
          && Used() == used + BIT_EXTRA_SIZE * ShiftExtras(fromBitIdx, toBitIdx) && BitCopierLast()
      {
        if curIdx == fromBitIdx && r.numLeadingBits > 0 {
          var data := ShiftRight(tdi[fromBitIdx / 8], fromBitIdx % 8);
          LeadingData(tdi, fromBitIdx, r.numLeadingBits);
          res := SendBits(tdi, data, fromBitIdx, r.numLeadingBits, tdo, w0, fromBitIdx);
          if res != Done {
            return;
          }
          curIdx := curIdx + r.numLeadingBits;
        }
        if curIdx < lastBitIdx {
          res, curIdx := SendInnerAndTrailing(tdi, curIdx, r, lastBitIdx, tdo, w0, fromBitIdx);
          if res != Done {
            return;
          }
        }
        if curIdx == lastBitIdx {
          res := SendLastBit(tdi, lastBitIdx, lastTmsBitHigh, tdo, w0, fromBitIdx);
          if res != Done {
            return;
          }
          curIdx := curIdx + 1;
        }
      }
      return Done;
    }

    /** jtag_splitter_callback().  A refused flush reclaims the driver's arena under the observers that
        stay queued: they remain live if and only if no bit copier is among them. */
    method JtagSplitterCallback(e: Event, tdo: array<byte>) returns (res: Result)
      requires Valid(tdo) && CanTake(e, tdo)
      modifies this`lastTdi, cmdBuffer, cmdBuffer.ftChip`chip, cmdBuffer.ftChip`unread, cmdBuffer.pool, pool, tdo
      ensures cmdBuffer.ftChip.reliable ==> res != Refused
      ensures res == GaveUp ==> old(Used()) + BIT_EXTRA_SIZE * Extras(e) > DRIVER_POOL_BYTES
      ensures res == Done ==> Valid(tdo)
      ensures res == Done ==>
        CarriedOut(cmdBuffer.ftChip.env, old(cmdBuffer.Promise(tdo)), cmdBuffer.Promise(tdo), e, old(lastTdi))
      ensures res == Done && e.ShiftTms? ==> cmdBuffer.Slack() <= 22 && Used() == old(Used())
      ensures res == Done && e.ShiftTdi? ==>
        cmdBuffer.Slack() <= 49 && Used() == old(Used()) + BIT_EXTRA_SIZE * Extras(e)
      ensures res == Done && e.ShiftTdi? ==> BitCopierQueued()
      ensures e.FlushAll? ==> res != GaveUp
      ensures res == Done && e.FlushAll? ==> Used() == 0 && cmdBuffer.Slack() == 0
      ensures res == Done && e.FlushAll? ==> cmdBuffer.Pending() == Queue(cmdBuffer.ftChip.chip, [], 0, [])
      ensures res == Refused && e.FlushAll? ==> cmdBuffer.observers == old(cmdBuffer.observers)
      ensures res == Refused && e.FlushAll? ==> (ObserversLive(tdo) <==> !BitCopierQueued())
      ensures old(cmdBuffer.ftChip.unplugged && BitCopierQueued()) && !cmdBuffer.ftChip.reliable && e.FlushAll? ==>
        res == Refused
    {
      hide Run, Accounted, Outcome, ListStored, Laid, CutRanges, Clock, TdiPulses, HeldPulses, EventPulses, Received,
           VecBit;
      match e
      case ShiftTms(tms, from, to) =>
        var ok := AppendTmsShift(tms, from, to, tdo);
        res := if ok then Done else Refused;
      case ShiftTdi(tdi, from, to, incomplete) =>
        res := AppendTdiShift(tdi, tdo, from, to, !incomplete);
      case FlushAll =>
        var ok := cmdBuffer.Flush(tdo);
        pool.ReclaimAll();
        if ok {
          ListOfNone(cmdBuffer.pool.objects, pool.objects, cmdBuffer.rxBuffer, tdo);
        } else {
          ExtrasGone(cmdBuffer.pool.objects, old(pool.objects), cmdBuffer.rxBuffer, cmdBuffer.queue,
                     cmdBuffer.observers, tdo);
        }
        res := if ok then Done else Refused;
    }

    /** All queued observers find what they need in the arenas. */
    ghost predicate ObserversLive(tdo: array<byte>)
      reads cmdBuffer, cmdBuffer.pool, pool
    {
      ListStored(cmdBuffer.pool.objects, pool.objects, cmdBuffer.rxBuffer, cmdBuffer.queue, cmdBuffer.observers, tdo)
    }

    ghost predicate BitCopierLast()
      reads cmdBuffer
    {
      cmdBuffer.observers != [] && cmdBuffer.observers[|cmdBuffer.observers| - 1].action.TakeBits?
    }

    ghost predicate BitCopierQueued()
      reads cmdBuffer
    {
      exists i :: 0 <= i < |cmdBuffer.observers| && cmdBuffer.observers[i].action.TakeBits?
    }

    /** The buffer's arena has room for the event, and TMS is low for a TDI event. */
    ghost predicate CanTake(e: Event, tdo: array<byte>)
      requires Valid(tdo)
      reads this, cmdBuffer, cmdBuffer.pool, cmdBuffer.extras, cmdBuffer.ftChip, pool, tdo
    {
      && EventInRange(e)
      && (e.ShiftTms? ==> cmdBuffer.Slack() <= 49)
      && (e.ShiftTdi? ==>
            && e.to <= 8 * tdo.Length && !cmdBuffer.Promise(tdo).chip.tms
            && cmdBuffer.Slack() <= 22)
    }

    /** Between calls nothing is pending and both arenas are empty. */
    ghost predicate Quiet(tdo: array<byte>)
      reads this, cmdBuffer, cmdBuffer.pool, cmdBuffer.extras, cmdBuffer.ftChip, pool, tdo
    {
      && Valid(tdo) && AtRest(Chip())
      && cmdBuffer.Pending() == Queue(Chip(), [], 0, []) && Used() == 0 && cmdBuffer.Slack() == 0
    }

    /** Besides, the splitter knows the state of the TAP. */
    ghost predicate Idle(tdo: array<byte>)
      reads this, cmdBuffer, cmdBuffer.pool, cmdBuffer.extras, cmdBuffer.ftChip, pool, tdo, jtagSplitter,
        jtagSplitter.cb
    {
      && Quiet(tdo)
      && jtagSplitter.Agrees() && jtagSplitter.state == Chip().tap.state
      && (cmdBuffer.ftChip.reliable ==> AcceptsAll(jtagSplitter.cb.script))
    }

    ghost function Chip(): Chip
      reads cmdBuffer, cmdBuffer.ftChip
    {
      cmdBuffer.ftChip.chip
    }

    /** A quiet driver has no business with any TDO vector yet. */
    lemma QuietForAny(tdo: array<byte>, other: array<byte>)
      requires Quiet(tdo)
      ensures Quiet(other) && cmdBuffer.Promise(other) == World(Chip(), other[..])
    {
      hide Run, Accounted, Outcome, ListStored, Laid;
      NothingPending(cmdBuffer.ftChip.env, Chip(), tdo[..]);
      cmdBuffer.ValidForAny(tdo, other);
    }

    /** check_device_in_sync(): a bad opcode is answered by a complaint about it, once everything
        pending has been carried out. */
    method CheckDeviceInSync(ghost tdo: array<byte>) returns (ok: bool)
      requires cmdBuffer.Valid(tdo) && cmdBuffer.observers == [] && cmdBuffer.Slack() <= 16
      requires cmdBuffer.Promise(tdo).chip.mode == Opcode
      modifies cmdBuffer, cmdBuffer.ftChip`chip, cmdBuffer.ftChip`unread, cmdBuffer.pool
      ensures cmdBuffer.ftChip.reliable ==> ok
      ensures ok ==> cmdBuffer.Valid(tdo) && cmdBuffer.Slack() == 0
      ensures ok ==> cmdBuffer.Pending() == Queue(Chip(), [], 0, [])
      ensures ok ==> var c := old(cmdBuffer.Promise(tdo).chip); Chip() == c.(replies := c.replies + 2)
    {
      hide Run, Accounted, Outcome, ListStored, Laid;
      var resp := new byte[2];
      cmdBuffer.ValidForAny(tdo, resp);
      RunBadOpcode(cmdBuffer.ftChip.env, cmdBuffer.Promise(resp).chip);
      ok := cmdBuffer.AddWithReadbackSimple([BAD_OPCODE], 0, 2, resp);
      if !ok {
        return;
      }
      ok := cmdBuffer.Flush(resp);
      if !ok {
        return;
      }
      NothingPending(cmdBuffer.ftChip.env, Chip(), resp[..]);
      cmdBuffer.ValidForAny(resp, tdo);
      assert resp[..] == [OP_BAD_COMMANDS, BAD_OPCODE];
      assert resp[0] == resp[..][0] && resp[1] == resp[..][1];
      ok := IsComplaint(resp, BAD_OPCODE);
    }

    /** A command that is neither answered nor clocks, carried out before the chip is found in sync. */
    method ConfigureChip(cmd: seq<byte>, ghost tdo: array<byte>) returns (ok: bool)
      requires cmdBuffer.Valid(tdo) && cmdBuffer.Slack() <= 0
      requires cmdBuffer.Pending() == Queue(Chip(), [], 0, []) && 3 <= |cmd| <= 4
      requires var r := Run(cmdBuffer.ftChip.env, Chip(), cmd); r.out == [] && r.chip.mode == Opcode
      modifies cmdBuffer, cmdBuffer.ftChip`chip, cmdBuffer.ftChip`unread, cmdBuffer.pool
      ensures cmdBuffer.ftChip.reliable ==> ok
      ensures ok ==> cmdBuffer.Valid(tdo) && cmdBuffer.Slack() == 0
      ensures ok ==> cmdBuffer.Pending() == Queue(Chip(), [], 0, [])
      ensures ok ==> cmdBuffer.Promise(tdo) == World(Chip(), tdo[..])
      ensures ok ==>
        var c := Run(cmdBuffer.ftChip.env, old(Chip()), cmd).chip;
        Chip() == c.(replies := c.replies + 2)
    {
      hide Run, Accounted, Outcome, ListStored, Laid;
      var none := new byte[0];
      NothingPending(cmdBuffer.ftChip.env, Chip(), tdo[..]);
      cmdBuffer.ValidForAny(tdo, none);
      ok := cmdBuffer.Add(cmd, none);
      if !ok {
        return;
      }
      ok := CheckDeviceInSync(none);
      if ok {
        NothingPending(cmdBuffer.ftChip.env, Chip(), []);
        cmdBuffer.ValidForAny(none, tdo);
      }
    }

    /** The pins are set up, and the chip is found in sync. */
    method SetUpChip(pins: seq<PinRole>, ghost tdo: array<byte>) returns (ok: bool)
      requires Linked() && pool.head % 8 == 0 && cmdBuffer.Valid(tdo) && cmdBuffer.Slack() <= 0 && !lastTdi
      requires cmdBuffer.Pending() == Queue(Chip(), [], 0, []) && Chip().mode == Opcode && |pins| == 4
      modifies cmdBuffer, cmdBuffer.ftChip`chip, cmdBuffer.ftChip`unread, cmdBuffer.pool
      ensures cmdBuffer.ftChip.reliable ==> ok
      ensures ok ==> Valid(tdo) && cmdBuffer.Slack() == 0 && cmdBuffer.Promise(tdo) == World(Chip(), tdo[..])
      ensures ok ==> Chip().tap == old(Chip().tap) && Chip().tms && !Chip().tdi && Chip().wire == old(Chip().wire)
      ensures ok ==> PinsAsChosen(Chip().settings, pins) && SameClock(Chip().settings, old(Chip().settings))
    {
      hide Run, Accounted, Outcome, ListStored, Laid, Bit;
      var setupCmds := PinSetup(pins);
      assert setupCmds == [OP_SET_DBUS_LOBYTE, setupCmds[1], setupCmds[2]];
      RunSetPins(cmdBuffer.ftChip.env, Chip(), setupCmds[1], setupCmds[2]);
      ok := ConfigureChip(setupCmds, tdo);
    }

    /** set_tck_period(): the TCK of the chip gets the period that is reported; -1 stands for a failed
        transfer.  The program stops on the period 0.  Neither the TAP nor any TDO vector notices. */
    method SetTckPeriod(tckPeriodNs: int, ghost tdo: array<byte>) returns (res: Result, actualPeriodNs: int)
      requires Idle(tdo) && tckPeriodNs >= 0 && ProductFits(highSpeedCapable, tckPeriodNs)
      modifies cmdBuffer, cmdBuffer.ftChip`chip, cmdBuffer.ftChip`unread, cmdBuffer.pool
      ensures res == GaveUp <==> tckPeriodNs == 0
      ensures res == Refused ==> actualPeriodNs == -1 && !cmdBuffer.ftChip.reliable
      ensures res == Done ==> Idle(tdo) && actualPeriodNs == ReportedPeriod(highSpeedCapable, tckPeriodNs)
      ensures res == Done ==> 0 < actualPeriodNs < 0x8000_0000
      ensures res == Done ==> Chip().tap == old(Chip().tap) && Chip().wire == old(Chip().wire)
      ensures res == Done ==> SamePins(Chip().settings, old(Chip().settings))
      ensures res == Done && (highSpeedCapable || old(Chip().settings.divideBy5)) ==>
        ChipPeriod(Chip().settings) == actualPeriodNs
    {
      hide Run, Accounted, Outcome, ListStored, Laid, ChooseDivider, ReportedPeriod, ChipPeriod, ProductFits, IsShift;
      var cmd;
      cmd, actualPeriodNs := DivisorCommand(highSpeedCapable, tckPeriodNs);
      if cmd.None? {
        return GaveUp, 0;
      }
      NothingPending(cmdBuffer.ftChip.env, Chip(), tdo[..]);
      RunSetDivisor(cmdBuffer.ftChip.env, Chip(), ChooseDivider(highSpeedCapable, tckPeriodNs), highSpeedCapable);
      var ok := ConfigureChip(cmd.value, tdo);
      if !ok {
        return Refused, -1;
      }
      if highSpeedCapable || old(Chip().settings.divideBy5) {
        PeriodIsReported(highSpeedCapable, tckPeriodNs, Chip().settings);
      }
      res := Done;
    }

    /** The events of a tiling and the final flush, one after the other. */
    method HandleEvents(es: seq<Event>, numBits: nat, tms: seq<byte>, tdi: seq<byte>, tdo: array<byte>)
      returns (res: Result)
      requires Quiet(tdo) && numBits <= 8 * |tms| && numBits <= 8 * |tdi| && numBits <= 8 * tdo.Length
      requires Tiles(es, Chip().tap.state, tms, tdi, numBits, numBits) && AllInRange(es)
      modifies this`lastTdi, cmdBuffer, cmdBuffer.ftChip`chip, cmdBuffer.ftChip`unread, cmdBuffer.pool, pool, tdo
      ensures cmdBuffer.ftChip.reliable ==> res != Refused
      ensures res == GaveUp ==> BIT_EXTRA_SIZE * TotalExtras(es) > DRIVER_POOL_BYTES
      ensures res == Done ==> Quiet(tdo) && BIT_EXTRA_SIZE * TotalExtras(es) <= DRIVER_POOL_BYTES
      ensures res == Done ==>
        ClockedBits(cmdBuffer.ftChip.env, World(old(Chip()), old(tdo[..])), World(Chip(), tdo[..]), tms, tdi, numBits)
      ensures res == Done ==> Wired(old(Chip()), Chip(), tms, tdi, numBits, old(lastTdi))
      ensures res == Done ==> lastTdi == TdiLevel(old(Chip().tap.state), tms, tdi, old(lastTdi), numBits)
    {
      hide Run, Accounted, Outcome, ListStored, Laid, Clock, TdiPulses, HeldPulses, EventPulses, Received, VecBit,
           StateAt, Extras, TotalExtras, Tiles, IsStretch, Captured, CarriedOut, ClockedBits, Wired, TdiLevel;
      ghost var env, s := cmdBuffer.ftChip.env, Chip().tap.state;
      QuietForAny(tdo, tdo);
      ghost var w0 := cmdBuffer.Promise(tdo);
      NothingClocked(env, w0, tms, tdi);
      NothingWired(w0.chip, tms, tdi, lastTdi);
      NoEventsNoExtras(es);
      var k := 0;
      while k < |es|
        invariant 0 <= k <= |es| && Valid(tdo) && AtRest(cmdBuffer.Promise(tdo).chip)
        invariant Reached(es, k) <= 8 * |tms| && Reached(es, k) <= 8 * |tdi|
        invariant ClockedBits(env, w0, cmdBuffer.Promise(tdo), tms, tdi, Reached(es, k))
        invariant Wired(w0.chip, cmdBuffer.Promise(tdo).chip, tms, tdi, Reached(es, k), old(lastTdi))
        invariant lastTdi == TdiLevel(s, tms, tdi, old(lastTdi), Reached(es, k))
        invariant cmdBuffer.Slack() <= if k > 0 && es[k - 1].ShiftTdi? then 49 else 22
        invariant AllInRange(es[..k]) && Used() == BIT_EXTRA_SIZE * TotalExtras(es[..k])
      {
        ghost var w, held := cmdBuffer.Promise(tdo), lastTdi;
        EventFollows(es, s, tms, tdi, numBits, k);
        TotalExtrasGrows(es, k + 1);
        TotalExtrasGrows(es, k);
        PinsForEvent(env, w0, w, es[k], tms, tdi, numBits);
        if es[k].ShiftTms? {
          NoExtras(es[k]);
        }
        res := JtagSplitterCallback(es[k], tdo);
        if res != Done {
          return;
        }
        EventClocksBits(env, w0, w, cmdBuffer.Promise(tdo), es[k], tms, tdi, numBits, held);
        EventWired(env, w0.chip, w, cmdBuffer.Promise(tdo), es[k], tms, tdi, numBits, old(lastTdi));
        k := k + 1;
      }
      TilesEnd(es, s, tms, tdi, numBits);
      assert es[..k] == es;
      assert Used() <= DRIVER_POOL_BYTES;
      ghost var w, held := cmdBuffer.Promise(tdo), lastTdi;
      res := JtagSplitterCallback(FlushAll, tdo);
      if res == Done {
        FlushKeeps(env, w, cmdBuffer.Promise(tdo), held);
        NothingPending(env, Chip(), tdo[..]);
      }
    }

    /** The last step of activate(): the splitter is set up, which clocks the TAP five times with TMS
        high, and no more. */
    method Init(cb: Callback, tdo: array<byte>) returns (ok: bool)
      requires Valid(tdo) && cmdBuffer.Slack() <= 49
      requires cmdBuffer.ftChip.reliable ==> AcceptsAll(cb.script)
      modifies this`lastTdi, jtagSplitter, cb
      modifies cmdBuffer, cmdBuffer.ftChip`chip, cmdBuffer.ftChip`unread, cmdBuffer.pool, pool, tdo
      ensures cmdBuffer.ftChip.reliable ==> ok
      ensures ok ==> Idle(tdo) && jtagSplitter.cb == cb && Chip().tap.state == TestLogicReset
      ensures ok ==> tdo[..] == old(cmdBuffer.Promise(tdo).tdo)
      ensures ok ==>
        Chip().tap == Clock(cmdBuffer.ftChip.env.dev, old(cmdBuffer.Promise(tdo).chip.tap),
                            HeldPulses([0x1f], 0, 5, old(lastTdi))).tap
      ensures ok ==>
        && Chip().wire == old(cmdBuffer.Promise(tdo).chip.wire) + HeldPulses([0x1f], 0, 5, old(lastTdi))
        && lastTdi == old(lastTdi) && Chip().settings == old(cmdBuffer.Promise(tdo).chip.settings)
    {
      hide Run, Accounted, Outcome, ListStored, Laid, Clock, TdiPulses, HeldPulses, EventPulses, Received, VecBit,
           ClocksToReset, Train, AfterEvent;
      ok := jtagSplitter.Init(cb);
      if !ok {
        return;
      }
      ghost var w, held := cmdBuffer.Promise(tdo), lastTdi;
      ResetClocks(cmdBuffer.ftChip.env.dev, w.chip.tap, held);
      var res := JtagSplitterCallback(RESET_EVENT, tdo);
      if res != Done {
        return false;
      }
      res := JtagSplitterCallback(FlushAll, tdo);
      ok := res == Done;
      if ok {
        NothingPending(cmdBuffer.ftChip.env, Chip(), tdo[..]);
      }
    }

    /** shift_bits(): the splitter's events for these vectors are handed to the driver's callback.

        The target is clocked `numBits` times as the vectors say, each bit clocked in a shift state
        leaves the level of TDO in the TDO vector, and nothing else of that vector changes.  The
        program gives up exactly if the extras do not fit and no transfer fails before. */
    method ShiftBits(numBits: nat, tms: seq<byte>, tdi: seq<byte>, tdo: array<byte>) returns (res: Result)
      requires Idle(tdo) && numBits <= MAX_NUM_BITS
      requires numBits <= 8 * |tms| && numBits <= 8 * |tdi| && numBits <= 8 * tdo.Length
      modifies this`lastTdi, jtagSplitter`state, jtagSplitter.cb
      modifies cmdBuffer, cmdBuffer.ftChip`chip, cmdBuffer.ftChip`unread, cmdBuffer.pool, pool, tdo
      ensures cmdBuffer.ftChip.reliable ==> res != Refused
      ensures res == GaveUp ==> !EventsFit(old(Chip().tap.state), tms, tdi, numBits)
      ensures res == Done ==> Idle(tdo) && EventsFit(old(Chip().tap.state), tms, tdi, numBits)
      ensures res == Refused ==> jtagSplitter.state == TestLogicReset
      ensures cmdBuffer.ftChip.reliable ==> (res == GaveUp <==> !EventsFit(old(Chip().tap.state), tms, tdi, numBits))
      ensures res == Done ==>
        ClockedBits(cmdBuffer.ftChip.env, World(old(Chip()), old(tdo[..])), World(Chip(), tdo[..]), tms, tdi, numBits)
      ensures res == Done ==> Wired(old(Chip()), Chip(), tms, tdi, numBits, old(lastTdi))
      ensures res == Done ==> lastTdi == TdiLevel(old(Chip().tap.state), tms, tdi, old(lastTdi), numBits)
    {
      hide Run, Accounted, Outcome, ListStored, Laid, Clock, Received, VecBit, StateAt, Extras, TotalExtras, Tiles,
           IsStretch, Captured, IsRefused, IsFailure, AfterEvents, Wired, TdiLevel;
      ghost var s := Chip().tap.state;
      var before := |jtagSplitter.cb.log|;
      var ok;
      ghost var es, refused, recovered;
      ok, es, refused, recovered := jtagSplitter.Process(numBits, tms, tdi);
      if !ok {
        return Refused;
      }
      TilesUnique(es, TilesOf(s, tms, tdi, numBits), s, tms, tdi, numBits, numBits);
      EventsHanded(jtagSplitter.cb.log[before..], es);
      res := HandleEvents(EventsOf(jtagSplitter.cb.log[before..]), numBits, tms, tdi, tdo);
      if res == Refused {
        jtagSplitter.state := TestLogicReset;
      }
    }

    /** The data byte of a TMS command is put together in place. */
    static method BuildTmsData(tms: seq<byte>, from: nat, n: nat, held: bool) returns (data: byte)
      requires 1 <= n <= 6 && from + n <= 8 * |tms|
      ensures data == TmsData(tms, from, n, held)
    {
      hide CopiedBits;
      var cmd := new byte[1];
      cmd[0] := if held then 128 else 0;
      assert cmd[..] == [if held then 128 else 0];
      CopyBits(tms, from, cmd, 0, n, true);
      data := cmd[0];
      assert data == cmd[..][0];
    }
  }

  // ---------------------------------------------------------------- which calls fit

  lemma BusyDoesNotFit(n: nat)
    requires n > 6240
    ensures var tms := BusyVector(n / 8 + 1);
            |tms| == n / 8 + 1 && n <= 8 * |tms| && !EventsFit(ShiftDr, tms, tms, n)
  {
    hide TotalExtras, Tiles, BusyVector;
    var tms := BusyVector(n / 8 + 1);
    LongVectorsMayNotFit(n, TilesOf(ShiftDr, tms, tms, n), tms);
  }

  /** Whether all vectors of a length fit is decided by the length alone. */
  lemma EventsFitIffShort(n: nat)
    ensures n <= 6240 <==>
      forall s, tms, tdi | n <= 8 * |tms| && n <= 8 * |tdi| :: EventsFit(s, tms, tdi, n)
  {
    hide Extras, TotalExtras, Tiles, BusyVector;
    if n <= 6240 {
      forall s, tms, tdi | n <= 8 * |tms| && n <= 8 * |tdi|
        ensures EventsFit(s, tms, tdi, n)
      {
        ShortVectorsFit(TilesOf(s, tms, tdi, n), s, tms, tdi, n);
      }
    } else {
      var tms := BusyVector(n / 8 + 1);
      BusyDoesNotFit(n);
      assert !EventsFit(ShiftDr, tms, tms, n);
    }
  }

  /** max_vector_bits() */
  function MaxVectorBits(chipBufferBytes: nat): nat
  {
    chipBufferBytes * 8
  }

  /** For both chips there are vectors of the length offered whose extras do not fit. */
  lemma OfferedVectorsMayNotFit(chipBufferBytes: nat)
    requires chipBufferBytes == 1024 || chipBufferBytes == 4096
    ensures var n := MaxVectorBits(chipBufferBytes);
            exists s, tms, tdi :: n <= 8 * |tms| && n <= 8 * |tdi| && !EventsFit(s, tms, tdi, n)
  {
    EventsFitIffShort(MaxVectorBits(chipBufferBytes));
  }

  // ---------------------------------------------------------------- two calls

  lemma StateReached(env: Env, w0: World, w: World, tms: seq<byte>, tdi: seq<byte>, n: nat)
    requires n <= 8 * |tms| && n <= 8 * |tdi| && ClockedBits(env, w0, w, tms, tdi, n)
    ensures w.chip.tap.state == StateAt(w0.chip.tap.state, tms, n)
  {
  }

  /** Two calls on the parts of a vector do what one call on the whole would: the target is clocked
      with all the bits, and the TDO bits of both parts are the levels the whole would have given.
      Both calls may fill the same TDO vector; `part1` is what the first call has left in it. */
  method ShiftInTwoCalls(d: Driver, ghost tms: seq<byte>, ghost tdi: seq<byte>,
                         n1: nat, tms1: seq<byte>, tdi1: seq<byte>, tdo1: array<byte>,
                         n2: nat, tms2: seq<byte>, tdi2: seq<byte>, tdo2: array<byte>)
    returns (res: Result, ghost part1: seq<byte>)
    requires d.Idle(tdo1)
    requires n1 + n2 <= 8 * |tms| && n1 + n2 <= 8 * |tdi| && n1 <= MAX_NUM_BITS && n2 <= MAX_NUM_BITS
    requires n1 <= 8 * |tms1| && n1 <= 8 * |tdi1| && n1 <= 8 * tdo1.Length
    requires n2 <= 8 * |tms2| && n2 <= 8 * |tdi2| && n2 <= 8 * tdo2.Length
    requires forall i: nat :: i < n1 ==> VecBit(tms1, i) == VecBit(tms, i) && VecBit(tdi1, i) == VecBit(tdi, i)
    requires forall i: nat :: i < n2 ==>
      VecBit(tms2, i) == VecBit(tms, n1 + i) && VecBit(tdi2, i) == VecBit(tdi, n1 + i)
    modifies d`lastTdi, d.jtagSplitter`state, d.jtagSplitter.cb
    modifies d.cmdBuffer, d.cmdBuffer.ftChip`chip, d.cmdBuffer.ftChip`unread, d.cmdBuffer.pool, d.pool, tdo1, tdo2
    ensures d.cmdBuffer.ftChip.reliable ==> res != Refused
    ensures var s := old(d.Chip().tap.state);
            var fit := EventsFit(s, tms1, tdi1, n1) && EventsFit(StateAt(s, tms1, n1), tms2, tdi2, n2);
            (res == GaveUp ==> !fit) && (res == Done ==> fit)
    ensures res == Done ==> d.Idle(tdo2) && |part1| == tdo1.Length
    ensures res == Done ==>
      var whole := Clock(d.cmdBuffer.ftChip.env.dev, old(d.Chip().tap), Pulses(tms, tdi, 0, n1 + n2));
      && d.Chip().tap == whole.tap
      && PartCaptured(old(tdo1[..]), part1, old(d.Chip().tap.state), tms, 0, n1, whole.tdo)
      && PartCaptured(if tdo1 == tdo2 then part1 else old(tdo2[..]), tdo2[..], old(d.Chip().tap.state), tms, n1, n2,
                      whole.tdo)
    ensures res == Done && tdo1 != tdo2 ==> tdo1[..] == part1
    ensures res == Done ==> Wired(old(d.Chip()), d.Chip(), tms, tdi, n1 + n2, old(d.lastTdi))
    ensures res == Done ==> d.lastTdi == TdiLevel(old(d.Chip().tap.state), tms, tdi, old(d.lastTdi), n1 + n2)
  {
    hide Run, Accounted, Outcome, ListStored, Laid, Clock, VecBit, StateAt, TilesOf, ClockedBits, PartCaptured,
         EventsFit, TdiLevel, WirePulses;
    ghost var env, w0 := d.cmdBuffer.ftChip.env, World(d.Chip(), tdo1[..]);
    res := d.ShiftBits(n1, tms1, tdi1, tdo1);
    part1 := tdo1[..];
    if res != Done {
      return;
    }
    ghost var w1, w1' := World(d.Chip(), part1), World(d.Chip(), tdo2[..]);
    d.QuietForAny(tdo1, tdo2);
    StateReached(env, w0, w1, tms1, tdi1, n1);
    res := d.ShiftBits(n2, tms2, tdi2, tdo2);
    if res != Done {
      return;
    }
    ChunksJoin(env, w0, w1, w1', World(d.Chip(), tdo2[..]), tms, tdi, tms1, tdi1, tms2, tdi2, n1, n2);
    WiresJoin(w0.chip.tap.state, tms, tdi, tms1, tdi1, tms2, tdi2, n1, n2, old(d.lastTdi));
  }

  // ---------------------------------------------------------------- a failed flush

  /** After any shift event the observers lose their extras when the link fails before the flush. */
  method FlushUnplugged(d: Driver, e: Event, tdo: array<byte>) returns (shifted: Result, flushed: Result)
    requires d.Valid(tdo) && e.ShiftTdi? && d.CanTake(e, tdo)
    modifies d.cmdBuffer.ftChip`reliable, d.cmdBuffer.ftChip`unplugged
    modifies d`lastTdi, d.cmdBuffer, d.cmdBuffer.ftChip`chip, d.cmdBuffer.ftChip`unread, d.cmdBuffer.pool, d.pool, tdo
    ensures old(d.cmdBuffer.ftChip.reliable) ==> shifted != Refused
    ensures shifted == GaveUp ==> old(d.Used()) + BIT_EXTRA_SIZE * Extras(e) > DRIVER_POOL_BYTES
    ensures shifted == Done ==> flushed == Refused && d.cmdBuffer.observers != [] && !d.ObserversLive(tdo)
  {
    hide Run, Accounted, Outcome, ListStored, Laid, CarriedOut;
    shifted := d.JtagSplitterCallback(e, tdo);
    flushed := shifted;
    if shifted == Done {
      d.cmdBuffer.ftChip.Unplug();
      flushed := d.JtagSplitterCallback(FlushAll, tdo);
    }
  }

  // ---------------------------------------------------------------- runs

  /** The bits of all calls of a run, one after the other. */
  ghost function AllPulses(calls: seq<Vectors>): seq<Pulse>
    requires AllWhole(calls)
  {
    if calls == [] then []
    else
      var v := calls[|calls| - 1];
      AllPulses(calls[..|calls| - 1]) + Pulses(v.tms, v.tdi, 0, v.numBits)
  }

  ghost function TapAfter(dev: Device, t: Tap, calls: seq<Vectors>): Tap
    requires AllWhole(calls)
  {
    Clock(dev, t, AllPulses(calls)).tap
  }

  ghost function StateOfRun(s: TapState, calls: seq<Vectors>): TapState
    requires AllWhole(calls)
  {
    if calls == [] then s
    else StateAt(StateOfRun(s, calls[..|calls| - 1]), calls[|calls| - 1].tms, calls[|calls| - 1].numBits)
  }

  ghost function LevelOfRun(s: TapState, calls: seq<Vectors>, held: bool): bool
    requires AllWhole(calls)
  {
    if calls == [] then held
    else
      var k, v := |calls| - 1, calls[|calls| - 1];
      TdiLevel(StateOfRun(s, calls[..k]), v.tms, v.tdi, LevelOfRun(s, calls[..k], held), v.numBits)
  }

  /** The levels of the pins at all clocks of a run that starts in state `s` with TDI at the level `held`. */
  ghost function AllWires(s: TapState, calls: seq<Vectors>, held: bool): seq<Pulse>
    requires AllWhole(calls)
  {
    if calls == [] then []
    else
      var k, v := |calls| - 1, calls[|calls| - 1];
      AllWires(s, calls[..k], held)
      + WirePulses(StateOfRun(s, calls[..k]), v.tms, v.tdi, v.numBits, LevelOfRun(s, calls[..k], held))
  }

  /** The extras of call `i` of a run fit. */
  ghost predicate CallFits(dev: Device, t: Tap, calls: seq<Vectors>, i: nat)
    requires AllWhole(calls) && i < |calls|
  {
    EventsFit(TapAfter(dev, t, calls[..i]).state, calls[i].tms, calls[i].tdi, calls[i].numBits)
  }

  /** Call `i` of a run turns `before` into `now`: it stores the levels that the device gives for its
      bits once it has been clocked with the bits of all calls before, and changes nothing else. */
  ghost predicate CallCaptured(dev: Device, t: Tap, calls: seq<Vectors>, i: nat, before: seq<byte>, now: seq<byte>)
    requires AllWhole(calls) && i < |calls|
  {
    var t', v := TapAfter(dev, t, calls[..i]), calls[i];
    Captured(before, now, t'.state, v.tms, v.numBits, Clock(dev, t', Pulses(v.tms, v.tdi, 0, v.numBits)).tdo)
  }

  lemma OneCallMore(dev: Device, t: Tap, calls: seq<Vectors>, i: nat)
    requires AllWhole(calls) && i < |calls|
    ensures var v := calls[i];
            TapAfter(dev, t, calls[..i + 1])
            == Clock(dev, TapAfter(dev, t, calls[..i]), Pulses(v.tms, v.tdi, 0, v.numBits)).tap
  {
    hide Clock, Pulses;
    assert calls[..i + 1][..i] == calls[..i];
    ClockConcat(dev, t, AllPulses(calls[..i]), Pulses(calls[i].tms, calls[i].tdi, 0, calls[i].numBits));
  }

  lemma NoCalls(dev: Device, t: Tap)
    ensures TapAfter(dev, t, []) == t
  {
    ClockNothing(dev, t);
  }

  lemma NoWires(s: TapState, held: bool)
    ensures AllWires(s, [], held) == [] && StateOfRun(s, []) == s && LevelOfRun(s, [], held) == held
  {
  }

  /** The pins in one more call of a run. */
  lemma WiresOfCall(s: TapState, calls: seq<Vectors>, i: nat, held: bool)
    requires AllWhole(calls) && i < |calls|
    ensures var v, s', level := calls[i], StateOfRun(s, calls[..i]), LevelOfRun(s, calls[..i], held);
            && AllWires(s, calls[..i + 1], held)
               == AllWires(s, calls[..i], held) + WirePulses(s', v.tms, v.tdi, v.numBits, level)
            && StateOfRun(s, calls[..i + 1]) == StateAt(s', v.tms, v.numBits)
            && LevelOfRun(s, calls[..i + 1], held) == TdiLevel(s', v.tms, v.tdi, level, v.numBits)
  {
    hide StateAt, TdiLevel, WirePulses;
    assert calls[..i + 1][..i] == calls[..i];
  }

  /** A call of a run in the terms of the run. */
  lemma CallOfRun(env: Env, t: Tap, calls: seq<Vectors>, i: nat, w0: World, w: World)
    requires AllWhole(calls) && i < |calls| && w0.chip.tap == TapAfter(env.dev, t, calls[..i])
    requires ClockedBits(env, w0, w, calls[i].tms, calls[i].tdi, calls[i].numBits)
    ensures w.chip.tap == TapAfter(env.dev, t, calls[..i + 1])
    ensures CallCaptured(env.dev, t, calls, i, w0.tdo, w.tdo)
  {
    hide Clock, Pulses, Captured, TapAfter, StateAt;
    OneCallMore(env.dev, t, calls, i);
  }

  lemma RunClocks(dev: Device, t: Tap, calls: seq<Vectors>)
    requires AllWhole(calls)
    ensures TapAfter(dev, t, calls) == Clock(dev, t, AllPulses(calls)).tap
  {
  }

  /** Any run of calls: the target is clocked with the bits of all calls one after the other, and
      every call has stored its TDO levels.  `contents` are the TDO vector's contents before the
      first call and after each.  With a reliable link the program gives up exactly if the extras of
      one of the calls do not fit. */
  method ShiftMany(d: Driver, calls: seq<Vectors>, tdo: array<byte>)
    returns (res: Result, ghost contents: seq<seq<byte>>)
    requires d.Idle(tdo) && AllWhole(calls)
    requires forall i :: 0 <= i < |calls| ==> calls[i].numBits <= 8 * tdo.Length
    modifies d`lastTdi, d.jtagSplitter`state, d.jtagSplitter.cb
    modifies d.cmdBuffer, d.cmdBuffer.ftChip`chip, d.cmdBuffer.ftChip`unread, d.cmdBuffer.pool, d.pool, tdo
    ensures d.cmdBuffer.ftChip.reliable ==> res != Refused
    ensures var dev, t := d.cmdBuffer.ftChip.env.dev, old(d.Chip().tap);
            && (res == GaveUp ==> exists i :: 0 <= i < |calls| && !CallFits(dev, t, calls, i))
            && (res == Done ==> forall i :: 0 <= i < |calls| ==> CallFits(dev, t, calls, i))
    ensures res == Done ==> d.Idle(tdo)
    ensures res == Done ==>
      d.Chip().tap == Clock(d.cmdBuffer.ftChip.env.dev, old(d.Chip().tap), AllPulses(calls)).tap
    ensures res == Done ==> |contents| == |calls| + 1 && contents[0] == old(tdo[..]) && contents[|calls|] == tdo[..]
    ensures res == Done ==> forall i :: 0 <= i < |calls| ==>
      CallCaptured(d.cmdBuffer.ftChip.env.dev, old(d.Chip().tap), calls, i, contents[i], contents[i + 1])
    ensures res == Done ==>
      && d.Chip().wire == old(d.Chip().wire) + AllWires(old(d.Chip().tap.state), calls, old(d.lastTdi))
      && d.Chip().settings == old(d.Chip().settings)
  {
    hide Run, Accounted, Outcome, ListStored, Laid, Clock, VecBit, StateAt, TilesOf, ClockedBits, EventsFit, AllPulses,
         CallCaptured, TapAfter, AllWires, StateOfRun, LevelOfRun, TdiLevel, WirePulses;
    ghost var env, t := d.cmdBuffer.ftChip.env, d.Chip().tap;
    res, contents := Done, [tdo[..]];
    NoCalls(env.dev, t);
    NoWires(t.state, d.lastTdi);
    assert calls[..0] == [];
    for i := 0 to |calls|
      invariant d.Idle(tdo) && d.Chip().tap == TapAfter(env.dev, t, calls[..i]) && res == Done
      invariant d.Chip().wire == old(d.Chip().wire) + AllWires(t.state, calls[..i], old(d.lastTdi))
      invariant d.Chip().tap.state == StateOfRun(t.state, calls[..i]) && d.Chip().settings == old(d.Chip().settings)
      invariant d.lastTdi == LevelOfRun(t.state, calls[..i], old(d.lastTdi))
      invariant |contents| == i + 1 && contents[0] == old(tdo[..]) && contents[i] == tdo[..]
      invariant forall j :: 0 <= j < i ==> CallFits(env.dev, t, calls, j)
      invariant forall j :: 0 <= j < i ==> CallCaptured(env.dev, t, calls, j, contents[j], contents[j + 1])
    {
      ghost var w := World(d.Chip(), tdo[..]);
      res := d.ShiftBits(calls[i].numBits, calls[i].tms, calls[i].tdi, tdo);
      if res != Done {
        assert res == GaveUp ==> !CallFits(env.dev, t, calls, i);
        return;
      }
      CallOfRun(env, t, calls, i, w, World(d.Chip(), tdo[..]));
      WiresOfCall(t.state, calls, i, old(d.lastTdi));
      StateReached(env, w, World(d.Chip(), tdo[..]), calls[i].tms, calls[i].tdi, calls[i].numBits);
      contents := contents + [tdo[..]];
    }
    assert calls[..|calls|] == calls;
    RunClocks(env.dev, t, calls);
  }

  // ---------------------------------------------------------------- activation

  lemma AlignedEnough(base: nat)
    requires base % 16 == 0
    ensures base % 8 == 0
  {
  }

  /** The driver's objects, as they are before anything is sent. */
  method Make(env: Env, reliable: bool, chip: Chip, chipBufferBytes: nat, base1: nat, base2: nat,
              ghost tdo: array<byte>)
    returns (d: Driver)
    requires chipBufferBytes == 1024 || chipBufferBytes == 4096
    requires base1 > 0 && base1 % 16 == 0 && base2 > 0 && base2 % 16 == 0
    ensures d.Linked() && d.pool.head % 8 == 0 && !d.lastTdi && d.chipBufferBytes == chipBufferBytes
    ensures d.highSpeedCapable
    ensures d.cmdBuffer.Valid(tdo) && d.cmdBuffer.Slack() <= 0
    ensures d.cmdBuffer.Pending() == Queue(chip, [], 0, []) && d.Chip() == chip
    ensures d.cmdBuffer.ftChip.env == env && d.cmdBuffer.ftChip.reliable == reliable
    ensures fresh(d) && fresh(d.jtagSplitter) && fresh(d.cmdBuffer) && fresh(d.cmdBuffer.ftChip)
    ensures fresh(d.cmdBuffer.pool) && fresh(d.pool)
  {
    hide Run, Accounted, Outcome, ListStored, Laid;
    AlignedEnough(base1);
    AlignedEnough(base2);
    var pool := new Mempool<BitExtra>(base1, DRIVER_POOL_BYTES);
    var ftChip := new FtChip(env, reliable, chip);
    var cmdPool := new Mempool<Record>(base2, 128 * 1024);
    var cmdBuffer := new FtBuffer(ftChip, cmdPool, pool, chipBufferBytes, tdo);
    var splitter := new JtagSplitter();
    d := new Driver(cmdBuffer, pool, splitter, chipBufferBytes, true);
  }

  /** activate() from the point where the chip has been opened: the arenas, the buffer and the splitter
      are made, the pins are set up, the chip is found in sync, and the TAP, in whatever state it is,
      is reset by five clocks.  Nothing is known of the chip but that it awaits a command. */
  method Activate(env: Env, reliable: bool, chip: Chip, chipBufferBytes: nat, pins: seq<PinRole>, base1: nat,
                  base2: nat, tdo: array<byte>)
    returns (ok: bool, d: Driver)
    requires chip.mode == Opcode
    requires (chipBufferBytes == 1024 || chipBufferBytes == 4096) && |pins| == 4
    requires base1 > 0 && base1 % 16 == 0 && base2 > 0 && base2 % 16 == 0
    modifies tdo
    ensures reliable ==> ok
    ensures ok ==> d.Idle(tdo) && d.Chip().tap.state == TestLogicReset && d.cmdBuffer.ftChip.env == env
    ensures ok ==> d.Chip().tap == Clock(env.dev, chip.tap, HeldPulses([0x1f], 0, 5, false)).tap
    ensures ok ==> d.Chip().wire == chip.wire + HeldPulses([0x1f], 0, 5, false) && !d.lastTdi
    ensures ok ==> PinsAsChosen(d.Chip().settings, pins) && SameClock(d.Chip().settings, chip.settings)
    ensures ok ==> d.chipBufferBytes == chipBufferBytes && d.cmdBuffer.ftChip.reliable == reliable && d.highSpeedCapable
    ensures ok ==> tdo[..] == old(tdo[..])
    ensures fresh(d) && fresh(d.jtagSplitter) && fresh(d.cmdBuffer) && fresh(d.cmdBuffer.ftChip)
    ensures fresh(d.cmdBuffer.pool) && fresh(d.pool) && (ok ==> fresh(d.jtagSplitter.cb))
  {
    hide Run, Accounted, Outcome, ListStored, Laid, Clock, HeldPulses, IsShift;
    d := Make(env, reliable, chip, chipBufferBytes, base1, base2, tdo);
    ok := d.SetUpChip(pins, tdo);
    if !ok {
      return;
    }
    var cb := new Callback(Script(i => true, i => TestLogicReset), chip.tap.state);
    ok := d.Init(cb, tdo);
  }

  /** Activation and any run of calls: whatever state the TAP was in, it has been clocked five times
      with TMS high and then with the bits of all calls. */
  method ShiftFromActivation(env: Env, reliable: bool, chip: Chip, chipBufferBytes: nat, pins: seq<PinRole>, base1: nat,
                             base2: nat, calls: seq<Vectors>, tdo: array<byte>)
    returns (res: Result, d: Driver, ghost contents: seq<seq<byte>>)
    requires chip.mode == Opcode
    requires (chipBufferBytes == 1024 || chipBufferBytes == 4096) && |pins| == 4
    requires base1 > 0 && base1 % 16 == 0 && base2 > 0 && base2 % 16 == 0
    requires AllWhole(calls)
    requires forall i :: 0 <= i < |calls| ==> calls[i].numBits <= 8 * tdo.Length
    modifies tdo
    ensures reliable ==> res != Refused
    ensures var t := Clock(env.dev, chip.tap, HeldPulses([0x1f], 0, 5, false)).tap;
            && (res == GaveUp ==> exists i :: 0 <= i < |calls| && !CallFits(env.dev, t, calls, i))
            && (res == Done ==> forall i :: 0 <= i < |calls| ==> CallFits(env.dev, t, calls, i))
            && (res == Done ==>
                  |contents| == |calls| + 1 && contents[0] == old(tdo[..]) && contents[|calls|] == tdo[..])
            && (res == Done ==> forall i :: 0 <= i < |calls| ==>
                  CallCaptured(env.dev, t, calls, i, contents[i], contents[i + 1]))
    ensures res == Done ==>
      d.Idle(tdo) && d.Chip().tap == Clock(env.dev, chip.tap, HeldPulses([0x1f], 0, 5, false) + AllPulses(calls)).tap
    ensures res == Done ==>
      d.Chip().wire == chip.wire + HeldPulses([0x1f], 0, 5, false) + AllWires(TestLogicReset, calls, false)
  {
    hide Run, Accounted, Outcome, ListStored, Laid, Clock, HeldPulses, AllPulses, CallFits, CallCaptured, IsShift,
         AllWires;
    var ok;
    ok, d := Activate(env, reliable, chip, chipBufferBytes, pins, base1, base2, tdo);
    contents := [];
    if !ok {
      return Refused, d, contents;
    }
    res, contents := ShiftMany(d, calls, tdo);
    ClockConcat(env.dev, chip.tap, HeldPulses([0x1f], 0, 5, false), AllPulses(calls));
  }

  lemma FourBitsFit()
    ensures EventsFit(TestLogicReset, [2], [0], 4)
  {
    hide EventsFit;
    EventsFitIffShort(4);
  }

  /** Four bits with TMS 0, 1, 0, 0. */
  lemma ToShiftDr()
    ensures StateAt(TestLogicReset, [2], 4) == ShiftDr && !VecBit([2], 3)
  {
    assert !VecBit([2], 0) && VecBit([2], 1) && !VecBit([2], 2) && !VecBit([2], 3);
    assert StateAt(TestLogicReset, [2], 1) == RunTestIdle;
    assert StateAt(TestLogicReset, [2], 2) == SelectDrScan;
    assert StateAt(TestLogicReset, [2], 3) == CaptureDr;
  }

  /** The program gives up on vectors it offers to take: for every length above 6240 bits there is a
      run from activation, over a reliable link, that ends so. */
  method GivesUp(env: Env, chip: Chip, chipBufferBytes: nat, pins: seq<PinRole>, base1: nat, base2: nat, n: nat,
                 tdo: array<byte>)
    returns (res: Result)
    requires chip.mode == Opcode
    requires (chipBufferBytes == 1024 || chipBufferBytes == 4096) && |pins| == 4
    requires base1 > 0 && base1 % 16 == 0 && base2 > 0 && base2 % 16 == 0
    requires 6240 < n <= MAX_NUM_BITS && n <= 8 * tdo.Length
    modifies tdo
    ensures res == GaveUp
  {
    hide Run, Accounted, Outcome, ListStored, Laid, Clock, VecBit, StateAt, TilesOf, ClockedBits, EventsFit, BusyVector,
         HeldPulses, IsShift;
    var ok, d := Activate(env, true, chip, chipBufferBytes, pins, base1, base2, tdo);
    ghost var w := World(d.Chip(), tdo[..]);
    FourBitsFit();
    res := d.ShiftBits(4, [2], [0], tdo);
    StateReached(env, w, World(d.Chip(), tdo[..]), [2], [0], 4);
    ToShiftDr();
    BusyDoesNotFit(n);
    var tms := BusyVector(n / 8 + 1);
    res := d.ShiftBits(n, tms, tms, tdo);
  }

  /** A run from activation that loses observers: over a reliable link the TAP is led to Shift-DR and one
      bit is shifted, and the cable is pulled out before the flush. */
  method LosesObservers(env: Env, chip: Chip, chipBufferBytes: nat, pins: seq<PinRole>, base1: nat, base2: nat,
                        tdo: array<byte>)
    returns (d: Driver, flushed: Result)
    requires chip.mode == Opcode && tdo.Length > 0
    requires (chipBufferBytes == 1024 || chipBufferBytes == 4096) && |pins| == 4
    requires base1 > 0 && base1 % 16 == 0 && base2 > 0 && base2 % 16 == 0
    modifies tdo
    ensures flushed == Refused && d.cmdBuffer.observers != [] && !d.ObserversLive(tdo)
  {
    hide Run, Accounted, Outcome, ListStored, Laid, Clock, HeldPulses, IsShift, Extras;
    var ok, moved, shifted;
    ok, d := Activate(env, true, chip, chipBufferBytes, pins, base1, base2, tdo);
    ToShiftDr();
    NoExtras(ShiftTms([2], 0, 4));
    moved := d.JtagSplitterCallback(ShiftTms([2], 0, 4), tdo);
    ExtrasBound(ShiftTdi([0], 0, 1, true));
    shifted, flushed := FlushUnplugged(d, ShiftTdi([0], 0, 1, true), tdo);
  }
}
