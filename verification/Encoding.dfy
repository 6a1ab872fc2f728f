/** What single MPSSE commands mean for a shift that is under way, in terms of clocks at the TAP
    and of bits of the TDO vector. */
module Encoding {
  import opened Octets
  import opened Opcodes
  import opened Tap
  import opened Mpsse
  import opened Pending

  // ---------------------------------------------------------------- TDI shifts

  /** `now` differs from `before` exactly in the bits `from..to`, which hold `levels`. */
  ghost predicate Received(before: seq<byte>, now: seq<byte>, from: nat, to: nat, levels: seq<bool>)
  {
    && |now| == |before|
    && from <= to <= 8 * |before| && |levels| == to - from
    && forall j: nat :: j < 8 * |before| ==>
         VecBit(now, j) == if from <= j < to then levels[j - from] else VecBit(before, j)
  }

  /** A shift of the TDI bits `from..` with TMS low has got as far as `cur`. */
  ghost predicate ShiftedTo(env: Env, w0: World, w: World, tdi: seq<byte>, from: nat, cur: nat)
    requires from <= cur <= 8 * |tdi|
  {
    var d := Clock(env.dev, w0.chip.tap, TdiPulses(tdi, from, cur));
    && w.chip.tap == d.tap && w.chip.wire == w0.chip.wire + TdiPulses(tdi, from, cur)
    && w.chip.mode == Opcode && !w.chip.tms && w.chip.settings == w0.chip.settings
    && |w.tdo| == |w0.tdo|
    && Received(w0.tdo, w.tdo, from, cur, d.tdo)
  }

  lemma ShiftStarts(env: Env, w: World, tdi: seq<byte>, from: nat)
    requires from <= 8 * |tdi| && from <= 8 * |w.tdo|
    requires w.chip.mode == Opcode && !w.chip.tms
    ensures ShiftedTo(env, w, w, tdi, from, from)
  {
    assert TdiPulses(tdi, from, from) == [];
    ClockNothing(env.dev, w.chip.tap);
  }

  lemma ReceivedMore(a: seq<byte>, b: seq<byte>, c: seq<byte>, from: nat, mid: nat, to: nat, x: seq<bool>, y: seq<bool>)
    requires Received(a, b, from, mid, x) && Received(b, c, mid, to, y)
    ensures Received(a, c, from, to, x + y)
  {
    hide VecBit;
  }

  lemma TdiPulsesConcat(tdi: seq<byte>, from: nat, cur: nat, to: nat)
    requires from <= cur <= to <= 8 * |tdi|
    ensures TdiPulses(tdi, from, to) == TdiPulses(tdi, from, cur) + TdiPulses(tdi, cur, to)
  {
    hide VecBit;
  }

  /** One more stretch of clocks extends a shift. */
  lemma ShiftExtends(env: Env, w0: World, w: World, w': World, tdi: seq<byte>, from: nat, cur: nat, to: nat)
    requires from <= cur <= to <= 8 * |tdi|
    requires ShiftedTo(env, w0, w, tdi, from, cur)
    requires ShiftedTo(env, w, w', tdi, cur, to)
    ensures ShiftedTo(env, w0, w', tdi, from, to)
  {
    hide Received, TdiPulses, Clock;
    TdiPulsesConcat(tdi, from, cur, to);
    ClockConcat(env.dev, w0.chip.tap, TdiPulses(tdi, from, cur), TdiPulses(tdi, cur, to));
    ReceivedMore(w0.tdo, w.tdo, w'.tdo, from, cur, to,
                 Clock(env.dev, w0.chip.tap, TdiPulses(tdi, from, cur)).tdo,
                 Clock(env.dev, w.chip.tap, TdiPulses(tdi, cur, to)).tdo);
  }

  /** The bits of an `n`-bit reply sit at the top of the octet. */
  lemma ReplyTop(env: Env, replies: nat, tdo: seq<bool>, i: nat)
    requires i < |tdo| <= 8
    ensures VecBit([Reply(env, replies, tdo)], 8 - |tdo| + i) == tdo[i]
  {
    hide Pack, Bit;
    var bits := seq(8 - |tdo|, i requires 0 <= i => env.noise(replies, i)) + tdo;
    BitOfPack(bits, 8 - |tdo| + i);
  }

  /** Copying the top `n` bits of a reply puts the TDO levels where they belong. */
  lemma ReplyReceived(env: Env, replies: nat, levels: seq<bool>, tdo: seq<byte>, to: nat)
    requires 1 <= |levels| <= 8 && to + |levels| <= 8 * |tdo|
    ensures var r := CopiedBits([Reply(env, replies, levels)], 8 - |levels|, tdo, to, |levels|);
            Received(tdo, r, to, to + |levels|, levels)
  {
    hide VecBit, Reply, CopiedBits;
    var reply := [Reply(env, replies, levels)];
    var r := CopiedBits(reply, 8 - |levels|, tdo, to, |levels|);
    forall j: nat | j < 8 * |tdo|
      ensures VecBit(r, j) == if to <= j < to + |levels| then levels[j - to] else VecBit(tdo, j)
    {
      CopiedBitsEffect(reply, 8 - |levels|, tdo, to, |levels|, j);
      if to <= j < to + |levels| {
        ReplyTop(env, replies, levels, j - to);
      }
    }
  }

  function BitsCommand(n: nat, data: byte): seq<byte>
    requires 1 <= n <= 7
  {
    [OP_BITS_READ, n - 1, data]
  }

  /** A data command of `n` bits, its reply copied to the same place of the TDO vector. */
  lemma BitsShift(env: Env, w: World, tdi: seq<byte>, cur: nat, n: nat, data: byte)
    requires 1 <= n <= 7 && cur + n <= 8 * |tdi| && cur + n <= 8 * |w.tdo|
    requires w.chip.mode == Opcode && !w.chip.tms
    requires forall i: nat :: i < n ==> Bit(data, i) == VecBit(tdi, cur + i)
    ensures |Run(env, w.chip, BitsCommand(n, data)).out| == 1
    ensures ShiftedTo(env, w, Perform(env, w, BitsCommand(n, data), TakeBits(8 - n, cur, n)), tdi, cur, cur + n)
  {
    hide Run, Reply, CopiedBits, Clock, Received, Bit, VecBit;
    RunBits(env, w.chip, n, data);
    assert DataPulses(false, data, n) == TdiPulses(tdi, cur, cur + n);
    var d := Clock(env.dev, w.chip.tap, TdiPulses(tdi, cur, cur + n));
    ReplyReceived(env, w.chip.replies, d.tdo, w.tdo, cur);
  }

  function OctetsHeader(n: nat): seq<byte>
    requires 1 <= n <= 65536
  {
    [OP_OCTETS_READ, (n - 1) % 256, (n - 1) / 256]
  }

  lemma SlicePulses(tdi: seq<byte>, at: nat, n: nat)
    requires at + n <= |tdi|
    ensures TdiPulses(tdi[at..at + n], 0, 8 * n) == TdiPulses(tdi, 8 * at, 8 * (at + n))
  {
    hide Bit;
    var data := tdi[at..at + n];
    forall i: nat | i < 8 * n
      ensures VecBit(data, i) == VecBit(tdi, 8 * at + i)
    {
      assert (8 * at + i) / 8 == at + i / 8;
    }
  }

  lemma OctetsReceived(out: seq<byte>, tdo: seq<byte>, at: nat, levels: seq<bool>)
    requires at + |out| <= |tdo| && |levels| == 8 * |out|
    requires forall j: nat :: j < 8 * |out| ==> VecBit(out, j) == levels[j]
    ensures Received(tdo, CopiedOctets(out, tdo, at), 8 * at, 8 * (at + |out|), levels)
  {
    hide VecBit, CopiedOctets;
    forall j: nat | j < 8 * |tdo|
      ensures VecBit(CopiedOctets(out, tdo, at), j)
           == if 8 * at <= j < 8 * (at + |out|) then levels[j - 8 * at] else VecBit(tdo, j)
    {
      CopiedOctetsEffect(out, tdo, at, j);
    }
  }

  /** An octet command: header and payload may be sent apart. */
  lemma OctetsShift(env: Env, w: World, tdi: seq<byte>, at: nat, n: nat)
    requires 1 <= n <= 65536 && at + n <= |tdi| && at + n <= |w.tdo|
    requires w.chip.mode == Opcode && !w.chip.tms
    ensures |Run(env, w.chip, OctetsHeader(n)).out| == 0
    ensures var w1 := Perform(env, w, OctetsHeader(n), Ignore);
            && |Run(env, w1.chip, tdi[at..at + n]).out| == n
            && ShiftedTo(env, w, Perform(env, w1, tdi[at..at + n], TakeOctets(at)), tdi, 8 * at, 8 * (at + n))
  {
    hide Run, Clock, VecBit, CopiedOctets, TdiPulses;
    RunOctetHeader(env, w.chip, n);
    var w1 := Perform(env, w, OctetsHeader(n), Ignore);
    var data := tdi[at..at + n];
    RunPayload(env, w1.chip, data, n);
    assert data[..n] == data;
    SlicePulses(tdi, at, n);
    var d := Clock(env.dev, w.chip.tap, TdiPulses(tdi, 8 * at, 8 * (at + n)));
    OctetsReceived(Run(env, w1.chip, data).out, w.tdo, at, d.tdo);
  }

  /** The pulses of a whole TDI event: TMS is low but for the last bit. */
  function EventPulses(tdi: seq<byte>, from: nat, to: nat, lastTms: bool): (ps: seq<Pulse>)
    requires from < to <= 8 * |tdi|
    ensures |ps| == to - from
  {
    TdiPulses(tdi, from, to - 1) + [Pulse(lastTms, VecBit(tdi, to - 1))]
  }

  /** A TDI event has been carried out; both pins rest at the last levels clocked. */
  ghost predicate ShiftDone(env: Env, w0: World, w: World, tdi: seq<byte>, from: nat, to: nat, lastTms: bool)
    requires from < to <= 8 * |tdi|
  {
    var d := Clock(env.dev, w0.chip.tap, EventPulses(tdi, from, to, lastTms));
    && w.chip.tap == d.tap && w.chip.wire == w0.chip.wire + EventPulses(tdi, from, to, lastTms)
    && w.chip.mode == Opcode && w.chip.tms == lastTms && w.chip.tdi == VecBit(tdi, to - 1)
    && w.chip.settings == w0.chip.settings
    && Received(w0.tdo, w.tdo, from, to, d.tdo)
  }

  /** The data byte of the command that clocks the last bit of a TDI event. */
  function LastBitData(tdi: bool, tms: bool): (b: byte)
    ensures Bit(b, 0) == tms && Bit(b, 1) == tms && Bit(b, 7) == tdi
  {
    (if tdi then 128 else 0) + (if tms then 2 else 0) + (if tms then 1 else 0)
  }

  function LastBitCommand(tdi: bool, tms: bool): seq<byte>
  {
    [OP_TMS_READ, 0, LastBitData(tdi, tms)]
  }

  lemma LastBitShift(env: Env, w0: World, w: World, tdi: seq<byte>, from: nat, to: nat, lastTms: bool)
    requires from < to <= 8 * |tdi| && to <= 8 * |w0.tdo|
    requires ShiftedTo(env, w0, w, tdi, from, to - 1)
    ensures |Run(env, w.chip, LastBitCommand(VecBit(tdi, to - 1), lastTms)).out| == 1
    ensures ShiftDone(env, w0, Perform(env, w, LastBitCommand(VecBit(tdi, to - 1), lastTms), TakeBits(7, to - 1, 1)),
                      tdi, from, to, lastTms)
  {
    hide Run, Reply, CopiedBits, Clock, Received, Bit, VecBit, TdiPulses, LastBitData;
    var tdiBit := VecBit(tdi, to - 1);
    var data := LastBitData(tdiBit, lastTms);
    RunTms(env, w.chip, true, 1, data);
    var p := [Pulse(lastTms, tdiBit)];
    assert TmsPulses(data, 1) == p;
    var ps := TdiPulses(tdi, from, to - 1);
    ClockConcat(env.dev, w0.chip.tap, ps, p);
    var d := Clock(env.dev, w.chip.tap, p);
    ReplyReceived(env, w.chip.replies, d.tdo, w.tdo, to - 1);
    var w' := Perform(env, w, LastBitCommand(tdiBit, lastTms), TakeBits(7, to - 1, 1));
    ReceivedMore(w0.tdo, w.tdo, w'.tdo, from, to - 1, to, Clock(env.dev, w0.chip.tap, ps).tdo, d.tdo);
  }

  // ---------------------------------------------------------------- TMS shifts

  /** The pulses of TMS bits with TDI held at one level. */
  function HeldPulses(tms: seq<byte>, from: nat, to: nat, held: bool): (ps: seq<Pulse>)
    requires from <= to <= 8 * |tms|
    ensures |ps| == to - from
  {
    seq(to - from, i requires 0 <= i < to - from => Pulse(VecBit(tms, from + i), held))
  }

  /** A TMS shift has got as far as `cur`; TMS rests at the last level clocked, whatever the chip
      does after a command, and TDI has kept its level. */
  ghost predicate MovedTo(env: Env, w0: World, w: World, tms: seq<byte>, from: nat, cur: nat, held: bool)
    requires from <= cur <= 8 * |tms|
  {
    && w.tdo == w0.tdo
    && w.chip.tap == Clock(env.dev, w0.chip.tap, HeldPulses(tms, from, cur, held)).tap
    && w.chip.wire == w0.chip.wire + HeldPulses(tms, from, cur, held)
    && w.chip.mode == Opcode && w.chip.tdi == held && w.chip.settings == w0.chip.settings
    && w.chip.tms == if from == cur then w0.chip.tms else VecBit(tms, cur - 1)
  }

  /** The data byte of a TMS command: `n` bits, the last one once more, and the level of TDI. */
  function TmsData(tms: seq<byte>, from: nat, n: nat, held: bool): byte
    requires 1 <= n <= 6 && from + n <= 8 * |tms|
  {
    CopiedBits(tms, from + n - 1, CopiedBits(tms, from, [if held then 128 else 0], 0, n), n, 1)[0]
  }

  lemma TmsDataBit(tms: seq<byte>, from: nat, n: nat, held: bool, i: nat)
    requires 1 <= n <= 6 && from + n <= 8 * |tms| && i < 8
    ensures var b := TmsData(tms, from, n, held);
            && (i < n ==> Bit(b, i) == VecBit(tms, from + i))
            && (i == n ==> Bit(b, i) == VecBit(tms, from + n - 1))
            && (i == 7 ==> Bit(b, i) == held)
  {
    hide CopiedBits;
    var v: seq<byte> := [if held then 128 else 0];
    var a := CopiedBits(tms, from, v, 0, n);
    var b := CopiedBits(tms, from + n - 1, a, n, 1);
    CopiedBitsEffect(tms, from, v, 0, n, i);
    CopiedBitsEffect(tms, from + n - 1, a, n, 1, i);
    assert VecBit(b, i) == Bit(b[0], i);
    assert i == 7 ==> VecBit(v, i) == Bit(v[0], 7) == held;
  }

  function TmsCommand(tms: seq<byte>, from: nat, n: nat, held: bool): seq<byte>
    requires 1 <= n <= 6 && from + n <= 8 * |tms|
  {
    [OP_TMS, n - 1, TmsData(tms, from, n, held)]
  }

  lemma TmsPulsesHeld(tms: seq<byte>, from: nat, n: nat, held: bool)
    requires 1 <= n <= 6 && from + n <= 8 * |tms|
    ensures TmsPulses(TmsData(tms, from, n, held), n) == HeldPulses(tms, from, from + n, held)
  {
    hide Bit, VecBit, TmsData;
    forall i: nat | i < n
      ensures Bit(TmsData(tms, from, n, held), i) == VecBit(tms, from + i)
    {
      TmsDataBit(tms, from, n, held, i);
    }
    TmsDataBit(tms, from, n, held, 7);
  }

  lemma HeldPulsesConcat(tms: seq<byte>, from: nat, cur: nat, to: nat, held: bool)
    requires from <= cur <= to <= 8 * |tms|
    ensures HeldPulses(tms, from, to, held) == HeldPulses(tms, from, cur, held) + HeldPulses(tms, cur, to, held)
  {
    hide VecBit;
  }

  lemma TmsShift(env: Env, w0: World, w: World, tms: seq<byte>, from: nat, cur: nat, n: nat, held: bool)
    requires from <= cur && 1 <= n <= 6 && cur + n <= 8 * |tms|
    requires MovedTo(env, w0, w, tms, from, cur, held)
    ensures |Run(env, w.chip, TmsCommand(tms, cur, n, held)).out| == 0
    ensures MovedTo(env, w0, Perform(env, w, TmsCommand(tms, cur, n, held), Ignore), tms, from, cur + n, held)
  {
    hide Run, Clock, Bit, VecBit, TmsData, HeldPulses;
    var data := TmsData(tms, cur, n, held);
    RunTms(env, w.chip, false, n, data);
    TmsPulsesHeld(tms, cur, n, held);
    TmsDataBit(tms, cur, n, held, n - 1);
    TmsDataBit(tms, cur, n, held, n);
    TmsDataBit(tms, cur, n, held, 7);
    var ps := HeldPulses(tms, from, cur, held);
    var qs := HeldPulses(tms, cur, cur + n, held);
    HeldPulsesConcat(tms, from, cur, cur + n, held);
    ClockConcat(env.dev, w0.chip.tap, ps, qs);
  }
}
