/** The MPSSE engine of an FTDI chip as an interpreter of its command byte stream (FTDI
    application note AN_108), driving the TAP of a target device.  The chip knows opcodes by their bits
    and values only; what the driver calls them is in another module. */
module Mpsse {
  import opened Octets
  import opened Opcodes
  import opened Tap

  /** What the byte stream does not determine: the device, the unused bits of a reply, and
      whether a TMS command leaves TMS at the last clocked bit or at the bit after it. */
  datatype Env = Env(dev: Device, noise: (nat, nat) -> bool, tmsRunsAhead: bool)

  /** What the next byte of the stream means. */
  datatype Mode =
    | Opcode
    | BitLength(op: byte)
    | BitData(op: byte, n: nat)
    | LengthLow(op: byte)
    | LengthHigh(op: byte, low: byte)
    | Payload(op: byte, left: nat)
    | PinLevels
    | PinDirections(levels: byte)
    | DivisorLow
    | DivisorHigh(low: byte)
    | Halted

  /** What TCK is made of, and the levels and directions last set for the eight pins. */
  datatype Settings = Settings(divisor: nat, divideBy5: bool, levels: byte, directions: byte)

  /** `replies` counts the bytes the chip has produced so far; `wire` are the levels that the TMS and
      TDI pins have had at each clock so far. */
  datatype Chip = Chip(tap: Tap, tms: bool, tdi: bool, settings: Settings, mode: Mode, replies: nat, wire: seq<Pulse>)

  datatype Ran = Ran(chip: Chip, out: seq<byte>)

  /** The pulses of a data command: TMS keeps its level. */
  function DataPulses(tms: bool, data: byte, n: nat): (ps: seq<Pulse>)
    ensures |ps| == n
  {
    seq(n, i requires 0 <= i => Pulse(tms, Bit(data, i)))
  }

  /** The pulses of a TMS command: TDI is bit 7 of the data byte throughout. */
  function TmsPulses(data: byte, n: nat): (ps: seq<Pulse>)
    ensures |ps| == n
  {
    seq(n, i requires 0 <= i => Pulse(Bit(data, i), Bit(data, 7)))
  }

  /** The reply to an `n`-bit read: TDO levels are shifted in from the top, so they occupy the
      positions 8-n..7, and the rest of the byte is arbitrary. */
  function Reply(env: Env, replies: nat, tdo: seq<bool>): byte
    requires |tdo| <= 8
  {
    PackOctet(seq(8 - |tdo|, i requires 0 <= i => env.noise(replies, i)) + tdo)
  }

  /** An octet read from its other end. */
  function Turned(b: byte): byte
  {
    PackOctet(seq(8, i requires 0 <= i < 8 => Bit(b, 7 - i)))
  }

  /** Opcodes below 0x80 clock data, and their bits say how.

      Bit 6: bits are clocked out at TMS, while TDI has the level of bit 7 of the data.
      Bit 5: TDO is read.
      Bit 4: bits are clocked out at TDI.
      Bit 3: the lowest bit of an octet comes first, else the highest.
      Bit 2: TDO is read on the falling edge of TCK, else on the rising one.
      Bit 1: a number of bits is clocked, else of octets.
      Bit 0: TMS and TDI change on the falling edge, else on the rising one.

      Commands that change pins when the TAP looks at them, or read TDO when it changes, and commands
      that clock nothing out are of no use here and end in `Halted`. */
  function StartClocking(c: Chip, op: byte): Ran
  {
    if !Bit(op, 0) || Bit(op, 2) then Ran(c.(mode := Halted), [])
    else if Bit(op, 6) then
      Ran(c.(mode := if Bit(op, 1) && Bit(op, 3) && !Bit(op, 4) then BitLength(op) else Halted), [])
    else if Bit(op, 4) then Ran(c.(mode := if Bit(op, 1) then BitLength(op) else LengthLow(op)), [])
    else Ran(c.(mode := Halted), [])
  }

  function Answered(env: Env, c: Chip, op: byte, tdo: seq<bool>): seq<byte>
    requires |tdo| <= 8
  {
    if !Bit(op, 5) then []
    else if Bit(op, 3) then [Reply(env, c.replies, tdo)]
    else [Turned(Reply(env, c.replies, tdo))]
  }

  function Execute(env: Env, c: Chip, op: byte, n: nat, data: byte): Ran
    requires n <= 8
  {
    if Bit(op, 6) then
      var ps := TmsPulses(data, n);
      var r := Clock(env.dev, c.tap, ps);
      var tms := if env.tmsRunsAhead then Bit(data, n) else if n == 0 then c.tms else Bit(data, n - 1);
      var out := Answered(env, c, op, r.tdo);
      Ran(Chip(r.tap, tms, Bit(data, 7), c.settings, Opcode, c.replies + |out|, c.wire + ps), out)
    else
      var bits := if Bit(op, 3) then data else Turned(data);
      var ps := DataPulses(c.tms, bits, n);
      var r := Clock(env.dev, c.tap, ps);
      var tdi := if n == 0 then c.tdi else Bit(bits, n - 1);
      var out := Answered(env, c, op, r.tdo);
      Ran(Chip(r.tap, c.tms, tdi, c.settings, Opcode, c.replies + |out|, c.wire + ps), out)
  }

  function ShiftOctet(env: Env, c: Chip, op: byte, data: byte, left: nat): Ran
  {
    var r := Execute(env, c, op, 8, data);
    Ran(r.chip.(mode := if left <= 1 then Opcode else Payload(op, left - 1)), r.out)
  }

  /** What an opcode does; those of no use here end in `Halted`. */
  function Start(c: Chip, b: byte): Ran
  {
    if b < 0x80 then StartClocking(c, b)
    else if b == 0x80 then Ran(c.(mode := PinLevels), [])
    else if b == 0x86 then Ran(c.(mode := DivisorLow), [])
    else if b == 0x8A then Ran(c.(settings := c.settings.(divideBy5 := false)), [])
    else if b == 0xAB then Ran(c.(replies := c.replies + 2), [0xFA, 0xAB])
    else Ran(c.(mode := Halted), [])
  }

  /** Pins 1 and 3 are TDI and TMS; they change level if they are outputs. */
  function SetPins(c: Chip, levels: byte, directions: byte): Chip
  {
    c.(tms := if Bit(directions, 3) then Bit(levels, 3) else c.tms,
       tdi := if Bit(directions, 1) then Bit(levels, 1) else c.tdi,
       settings := c.settings.(levels := levels, directions := directions),
       mode := Opcode)
  }

  function Step(env: Env, c: Chip, b: byte): Ran
  {
    match c.mode
    case Opcode => Start(c, b)
    case BitLength(op) =>
      if b < 7 || (b == 7 && !Bit(op, 6)) then Ran(c.(mode := BitData(op, b + 1)), [])
      else Ran(c.(mode := Halted), [])
    case BitData(op, n) =>
      if n <= 8 then Execute(env, c, op, n, b) else Ran(c.(mode := Halted), [])
    case LengthLow(op) => Ran(c.(mode := LengthHigh(op, b)), [])
    case LengthHigh(op, low) => Ran(c.(mode := Payload(op, low + 256 * b + 1)), [])
    case Payload(op, left) => ShiftOctet(env, c, op, b, left)
    case PinLevels => Ran(c.(mode := PinDirections(b)), [])
    case PinDirections(levels) => Ran(SetPins(c, levels, b), [])
    case DivisorLow => Ran(c.(mode := DivisorHigh(b)), [])
    case DivisorHigh(low) => Ran(c.(settings := c.settings.(divisor := low + 256 * b), mode := Opcode), [])
    case Halted => Ran(c, [])
  }

  function Run(env: Env, c: Chip, bs: seq<byte>): Ran
  {
    if bs == [] then Ran(c, [])
    else
      var r := Run(env, c, bs[..|bs| - 1]);
      var s := Step(env, r.chip, bs[|bs| - 1]);
      Ran(s.chip, r.out + s.out)
  }

  /** The stream may be cut anywhere, even inside a command. */
  lemma {:induction false} RunConcat(env: Env, c: Chip, a: seq<byte>, b: seq<byte>)
    ensures Run(env, c, a + b).chip == Run(env, Run(env, c, a).chip, b).chip
    ensures Run(env, c, a + b).out == Run(env, c, a).out + Run(env, Run(env, c, a).chip, b).out
  {
    hide Step;
    if b == [] {
      assert a + b == a;
    } else {
      var b' := b[..|b| - 1];
      assert (a + b)[..|a + b| - 1] == a + b';
      RunConcat(env, c, a, b');
    }
  }

  lemma RunThree(env: Env, c: Chip, x: byte, y: byte, z: byte)
    ensures var s1 := Step(env, c, x);
            var s2 := Step(env, s1.chip, y);
            var s3 := Step(env, s2.chip, z);
            Run(env, c, [x, y, z]) == Ran(s3.chip, s1.out + s2.out + s3.out)
  {
    hide Step;
    assert [x, y, z][..2] == [x, y] && [x, y][..1] == [x] && [x][..0] == [];
    assert Run(env, c, []) == Ran(c, []);
    assert Run(env, c, [x]) == Step(env, c, x);
  }

  /** A bit command runs as soon as its third byte arrives. */
  lemma RunBitCommand(env: Env, c: Chip, op: byte, n: nat, data: byte)
    requires c.mode == Opcode && 1 <= n <= 7
    requires op in {OP_TMS, OP_TMS_READ, OP_BITS_READ}
    ensures Run(env, c, [op, n - 1, data]) == Execute(env, c, op, n, data)
  {
    hide Reply, Clock, TmsPulses, DataPulses, Run, Bit, Turned;
    OpcodeFlags();
    RunThree(env, c, op, n - 1, data);
    var r := Execute(env, c, op, n, data);
    var c2 := c.(mode := BitData(op, n));
    assert Execute(env, c2, op, n, data) == r;
    assert [] + [] + r.out == r.out;
  }

  /** The command for TDI bits: they go out with the lowest first and TMS as it is, and are answered. */
  lemma RunBits(env: Env, c: Chip, n: nat, data: byte)
    requires c.mode == Opcode && 1 <= n <= 7
    ensures var ps := DataPulses(c.tms, data, n);
            var r := Clock(env.dev, c.tap, ps);
            Run(env, c, [OP_BITS_READ, n - 1, data])
            == Ran(c.(tap := r.tap, tdi := Bit(data, n - 1), replies := c.replies + 1, wire := c.wire + ps),
                   [Reply(env, c.replies, r.tdo)])
  {
    hide Reply, Clock, TmsPulses, DataPulses, Run, Bit, Turned;
    OpcodeFlags();
    RunBitCommand(env, c, OP_BITS_READ, n, data);
  }

  /** The commands for TMS bits: they go out with the lowest first and TDI as bit 7 says, and are
      answered on request. */
  lemma RunTms(env: Env, c: Chip, read: bool, n: nat, data: byte)
    requires c.mode == Opcode && 1 <= n <= 7
    ensures var ps := TmsPulses(data, n);
            var r := Clock(env.dev, c.tap, ps);
            var out := if read then [Reply(env, c.replies, r.tdo)] else [];
            var tms := if env.tmsRunsAhead then Bit(data, n) else Bit(data, n - 1);
            Run(env, c, [if read then OP_TMS_READ else OP_TMS, n - 1, data])
            == Ran(c.(tap := r.tap, tms := tms, tdi := Bit(data, 7), replies := c.replies + |out|, wire := c.wire + ps),
                   out)
  {
    hide Reply, Clock, TmsPulses, DataPulses, Run, Bit, Turned;
    OpcodeFlags();
    RunBitCommand(env, c, if read then OP_TMS_READ else OP_TMS, n, data);
  }

  /** An octet command announces how many octets follow; nothing is clocked yet. */
  lemma RunOctetHeader(env: Env, c: Chip, n: nat)
    requires c.mode == Opcode && 1 <= n <= 65536
    ensures Run(env, c, [OP_OCTETS_READ, (n - 1) % 256, (n - 1) / 256])
            == Ran(c.(mode := Payload(OP_OCTETS_READ, n)), [])
  {
    hide Bit, Run;
    OpcodeFlags();
    RunThree(env, c, OP_OCTETS_READ, (n - 1) % 256, (n - 1) / 256);
    assert (n - 1) % 256 + 256 * ((n - 1) / 256) + 1 == n;
  }

  lemma SetPinsMode(c: Chip, levels: byte, directions: byte)
    ensures SetPins(c.(mode := PinDirections(levels)), levels, directions) == SetPins(c, levels, directions)
  {
  }

  /** Setting pins neither clocks nor answers. */
  lemma RunSetPins(env: Env, c: Chip, levels: byte, directions: byte)
    requires c.mode == Opcode
    ensures Run(env, c, [OP_SET_DBUS_LOBYTE, levels, directions]) == Ran(SetPins(c, levels, directions), [])
  {
    hide SetPins;
    RunThree(env, c, OP_SET_DBUS_LOBYTE, levels, directions);
    assert SetPins(c.(mode := PinDirections(levels)), levels, directions) == SetPins(c, levels, directions) by {
      SetPinsMode(c, levels, directions);
    }
  }

  lemma RunDivisor(env: Env, c: Chip, divisor: nat)
    requires c.mode == Opcode && divisor < 65536
    ensures Run(env, c, [OP_SET_TCK_DIVISOR, divisor % 256, divisor / 256])
            == Ran(c.(settings := c.settings.(divisor := divisor)), [])
  {
    hide Run;
    RunThree(env, c, OP_SET_TCK_DIVISOR, divisor % 256, divisor / 256);
  }

  lemma RunFullSpeed(env: Env, c: Chip)
    requires c.mode == Opcode
    ensures Run(env, c, [OP_DISABLE_CLK_DIVIDE_BY_5]) == Ran(c.(settings := c.settings.(divideBy5 := false)), [])
  {
    assert [OP_DISABLE_CLK_DIVIDE_BY_5][..0] == [];
    assert Run(env, c, []) == Ran(c, []);
  }

  /** Neither does a new divisor, nor full speed. */
  lemma RunSetDivisor(env: Env, c: Chip, divisor: nat, fullSpeed: bool)
    requires c.mode == Opcode && divisor < 65536
    ensures var cmd := [OP_SET_TCK_DIVISOR, divisor % 256, divisor / 256];
            Run(env, c, cmd + if fullSpeed then [OP_DISABLE_CLK_DIVIDE_BY_5] else [])
            == Ran(c.(settings := c.settings.(divisor := divisor, divideBy5 := !fullSpeed && c.settings.divideBy5)), [])
  {
    hide Run, Step;
    var cmd: seq<byte> := [OP_SET_TCK_DIVISOR, divisor % 256, divisor / 256];
    RunDivisor(env, c, divisor);
    assert cmd + [] == cmd;
    RunFullSpeed(env, c.(settings := c.settings.(divisor := divisor)));
    RunConcat(env, c, cmd, [OP_DISABLE_CLK_DIVIDE_BY_5]);
  }

  /** A bad opcode is answered, and nothing else happens. */
  lemma RunBadOpcode(env: Env, c: Chip)
    requires c.mode == Opcode
    ensures Run(env, c, [BAD_OPCODE]) == Ran(c.(replies := c.replies + 2), [OP_BAD_COMMANDS, BAD_OPCODE])
  {
    assert [BAD_OPCODE][..0] == [];
    assert Run(env, c, []) == Ran(c, []);
  }

  /** The pulses of a run of TDI bits `from..to` with TMS low. */
  function TdiPulses(tdi: seq<byte>, from: nat, to: nat): (ps: seq<Pulse>)
    requires from <= to <= 8 * |tdi|
    ensures |ps| == to - from
  {
    seq(to - from, i requires 0 <= i < to - from => Pulse(false, VecBit(tdi, from + i)))
  }

  lemma StepPayload(env: Env, c: Chip, data: byte, left: nat)
    requires c.mode == Payload(OP_OCTETS_READ, left) && !c.tms
    ensures var r := Step(env, c, data);
            var d := Clock(env.dev, c.tap, DataPulses(false, data, 8));
            && r.out == [PackOctet(d.tdo)]
            && r.chip.tap == d.tap && !r.chip.tms && r.chip.wire == c.wire + DataPulses(false, data, 8)
            && r.chip.settings == c.settings
            && r.chip.mode == (if left <= 1 then Opcode else Payload(OP_OCTETS_READ, left - 1))
  {
    hide Clock, DataPulses, PackOctet, Bit, Turned;
    OpcodeFlags();
    var tdo := Clock(env.dev, c.tap, DataPulses(false, data, 8)).tdo;
    assert seq(8 - |tdo|, i requires 0 <= i => env.noise(c.replies, i)) + tdo == tdo;
  }

  lemma ReplyBits(out: seq<byte>, tdo: seq<bool>, last: seq<bool>)
    requires |last| == 8 && |tdo| == 8 * |out|
    requires forall j: nat :: j < 8 * |out| ==> VecBit(out, j) == tdo[j]
    ensures forall j: nat :: j < 8 * |out| + 8 ==> VecBit(out + [PackOctet(last)], j) == (tdo + last)[j]
  {
    hide Bit, Pack;
    forall j: nat | j < 8 * |out| + 8
      ensures VecBit(out + [PackOctet(last)], j) == (tdo + last)[j]
    {
      if j >= 8 * |out| {
        BitOfPack(last, j - 8 * |out|);
      } else {
        assert VecBit(out, j) == tdo[j];
      }
    }
  }

  lemma PulsesSplit(data: seq<byte>, k: nat)
    requires 0 < k <= |data|
    ensures TdiPulses(data, 0, 8 * k) == TdiPulses(data, 0, 8 * (k - 1)) + DataPulses(false, data[k - 1], 8)
  {
    hide Bit;
    var all := TdiPulses(data, 0, 8 * k);
    var two := TdiPulses(data, 0, 8 * (k - 1)) + DataPulses(false, data[k - 1], 8);
    forall i | 0 <= i < 8 * k
      ensures all[i] == two[i]
    {
    }
  }

  /** Payload octets clock the bits they carry and answer one octet each, bit for bit. */
  lemma {:induction false} RunPayload(env: Env, c: Chip, data: seq<byte>, k: nat)
    requires k <= |data| && 1 <= |data|
    requires c.mode == Payload(OP_OCTETS_READ, |data|) && !c.tms
    ensures var r := Run(env, c, data[..k]);
            var d := Clock(env.dev, c.tap, TdiPulses(data, 0, 8 * k));
            && r.chip.tap == d.tap && r.chip.wire == c.wire + TdiPulses(data, 0, 8 * k)
            && !r.chip.tms
            && r.chip.settings == c.settings
            && r.chip.mode == (if k == |data| then Opcode else Payload(OP_OCTETS_READ, |data| - k))
            && |r.out| == k
            && forall j: nat :: j < 8 * k ==> VecBit(r.out, j) == d.tdo[j]
    decreases k
  {
    hide VecBit, PackOctet, TdiPulses, DataPulses, Step, Clock;
    if k > 0 {
      RunPayload(env, c, data, k - 1);
      assert data[..k][..k - 1] == data[..k - 1];
      var before := Run(env, c, data[..k - 1]);
      var ps := TdiPulses(data, 0, 8 * (k - 1));
      var qs := DataPulses(false, data[k - 1], 8);
      PulsesSplit(data, k);
      ClockConcat(env.dev, c.tap, ps, qs);
      var last := Clock(env.dev, before.chip.tap, qs).tdo;
      StepPayload(env, before.chip, data[k - 1], |data| - (k - 1));
      ReplyBits(before.out, Clock(env.dev, c.tap, ps).tdo, last);
    } else {
      assert data[..k] == [] && TdiPulses(data, 0, 8 * k) == [];
      ClockNothing(env.dev, c.tap);
    }
  }
}
