/** From the bytes of a client to the clocks of the target and back. */
module EndToEnd {
  import opened Octets
  import opened Tap
  import opened Mpsse
  import opened Encoding
  import opened XvcProtocol
  import opened XvcBackend
  import opened XvcServer
  import F = Driver

  lemma TakesOfPrefix(dev: Device, t: Tap, cs: seq<Command>, m: nat)
    requires 0 < m <= |cs| && AllDefined(cs[..m][..m - 1]) && !Takes(dev, t, cs[..m], m - 1)
    ensures AllDefined(cs[..m - 1]) && !Takes(dev, t, cs, m - 1)
  {
    assert cs[..m][..m - 1] == cs[..m - 1];
  }

  lemma ClockFromStart(cs: seq<Command>, s0: Settings, s1: Settings, s: Settings)
    requires ClockAfter(cs, s0, s) && F.SameClock(s0, s1)
    ensures ClockAfter(cs, s1, s)
  {
  }

  /** The connection's part of it. */
  method ServeAttached(conn: Connection, ghost sent: seq<Command>, rounds: nat)
    returns (v: Verdict, ghost k: nat, ghost answers: seq<Answer>)
    requires conn.Valid() && conn.driver.ftdi != null && !conn.driver.lost
    requires conn.driver.calls == [] && conn.driver.answers == []
    requires AllWellFormed(sent) && conn.socket.input == EncodeAll(sent)
    modifies conn, conn.socket, conn.driver, conn.driver.parts, conn.tmsVector, conn.tdiVector, conn.tdoVector
    ensures v != Failed ==>
      var dev, t := conn.driver.Dev(), conn.driver.start;
      && k <= |sent| && AllDefined(sent[..k])
      && conn.driver.ftdi.Chip().tap == TargetAfter(dev, t, sent[..k])
      && AnswersOfTarget(dev, t, conn.driver.ftdi.chipBufferBytes, sent[..k], answers)
      && ClockAfter(sent[..k], conn.driver.initial, conn.driver.ftdi.Chip().settings)
      && F.SamePins(conn.driver.ftdi.Chip().settings, conn.driver.initial)
    ensures v != Failed ==>
      && k <= |sent| && conn.socket.input == EncodeAll(sent[k..])
      && AllAnswered(answers, sent[..k]) && conn.socket.output == old(conn.socket.output) + Responses(answers)
    ensures |conn.socket.looks| >= |old(conn.socket.looks)|
    ensures v == Terminated ==>
      && |conn.socket.looks| == |old(conn.socket.looks)| + rounds
      && k >= BigLooks(conn.socket.looks[|old(conn.socket.looks)|..])
    ensures v == ClosedByPeer || v == NotRecognized ==> k == |sent|
    ensures v == Interrupted ==> !conn.socket.reliable
    ensures v == Failed && conn.driver.linkReliable && conn.socket.reliable ==>
      exists i :: 0 <= i < |sent| && AllDefined(sent[..i]) && !Takes(conn.driver.Dev(), conn.driver.start, sent, i)
  {
    hide Run, Clock, HeldPulses, EncodeAll, AfterLooks, BigLooks, Responses, AllAnswered, AllUsable, TargetAfter,
         AnswersOfTarget, AllDefined, Takes, WellFormed, Encode, ClockAfter, XvcDriver.Synced, Next;
    ghost var cs;
    v, cs, answers := conn.RunConnection(rounds);
    LooksServe(sent, conn.socket.looks[|old(conn.socket.looks)|..]);
    k := |cs|;
    conn.driver.AtTarget();
    assert [] + answers == answers;
    ghost var m := |conn.driver.calls|;
    assert conn.driver.calls == sent[..m];
    if v == Failed {
      if conn.driver.linkReliable && conn.socket.reliable {
        TakesOfPrefix(conn.driver.Dev(), conn.driver.start, sent, m);
      }
    } else {
      StreamEnds(sent[k..]);
    }
  }

  /** A target on an activated driver and a client that has sent a well-formed stream.

      However the network cuts the stream, and wherever the command buffer flushes, the target has been
      clocked with the reset and then with exactly the bits of the shifts among the commands served, one
      by one; these are the first commands sent; and the bytes sent back are the responses to them, in
      which every shift is answered by the target's own TDO levels.  The chip's clock has the period that
      was answered last, and its other pins are as chosen.  Nothing fails unless a link does or
      the driver cannot take one of the commands. */
  method ServeTarget(env: Env, reliable: bool, chip: Chip, chipBufferBytes: nat, pins: seq<F.PinRole>, base1: nat,
                     base2: nat, socket: Socket, ghost sent: seq<Command>, rounds: nat)
    returns (ok: bool, v: Verdict, d: F.Driver, ghost k: nat, ghost answers: seq<Answer>)
    requires chip.mode == Opcode
    requires (chipBufferBytes == 1024 || chipBufferBytes == 4096) && |pins| == 4
    requires base1 > 0 && base1 % 16 == 0 && base2 > 0 && base2 % 16 == 0
    requires AllWellFormed(sent) && socket.input == EncodeAll(sent)
    modifies socket
    ensures reliable ==> ok
    ensures ok && v != Failed ==>
      var t := Clock(env.dev, chip.tap, HeldPulses([0x1f], 0, 5, false)).tap;
      && k <= |sent| && AllDefined(sent[..k])
      && d.Chip().tap == TargetAfter(env.dev, t, sent[..k])
      && AnswersOfTarget(env.dev, t, chipBufferBytes, sent[..k], answers)
    ensures ok && v != Failed ==>
      k <= |sent| && ClockAfter(sent[..k], chip.settings, d.Chip().settings) && F.PinsAsChosen(d.Chip().settings, pins)
    ensures ok && v != Failed ==>
      && k <= |sent| && socket.input == EncodeAll(sent[k..])
      && AllAnswered(answers, sent[..k]) && socket.output == old(socket.output) + Responses(answers)
    ensures ok ==> |socket.looks| >= |old(socket.looks)|
    ensures ok && v == Terminated ==>
      |socket.looks| == |old(socket.looks)| + rounds && k >= BigLooks(socket.looks[|old(socket.looks)|..])
    ensures ok && (v == ClosedByPeer || v == NotRecognized) ==> k == |sent|
    ensures ok && v == Interrupted ==> !socket.reliable
    ensures ok && v == Failed && reliable && socket.reliable ==>
      var t := Clock(env.dev, chip.tap, HeldPulses([0x1f], 0, 5, false)).tap;
      exists i :: 0 <= i < |sent| && AllDefined(sent[..i]) && !Takes(env.dev, t, sent, i)
  {
    hide Run, Clock, HeldPulses, EncodeAll, AfterLooks, BigLooks, Responses, AllAnswered, AllUsable, TargetAfter,
         AnswersOfTarget, AllDefined, Takes, WellFormed, Encode, ClockAfter, XvcDriver.Synced, F.Driver.Idle;
    var none := new byte[0];
    v, k, answers := Terminated, 0, [];
    ok, d := F.Activate(env, reliable, chip, chipBufferBytes, pins, base1, base2, none);
    if !ok {
      return;
    }
    var driver := new XvcDriver.Attach(d, none);
    var conn := new Connection(socket, driver);
    v, k, answers := ServeAttached(conn, sent, rounds);
    if v != Failed {
      ClockFromStart(sent[..k], driver.initial, chip.settings, d.Chip().settings);
    }
  }
}
