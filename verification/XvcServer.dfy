/** The XVC server's side of a connection. */
module XvcServer {
  import opened Octets
  import opened XvcProtocol
  import opened XvcBackend
  import opened Wrappers

  const COMMAND_SIZE := 16  // bytes of a look at the socket

  /** A connected socket: `input` is what the peer sends and has not been taken off yet.  How much
      of it has arrived when the server looks is up to the network. */
  class Socket {
    const reliable: bool
    var input: seq<byte>
    var output: seq<byte>
    ghost var looks: seq<int>  // how many bytes were at hand at each look, negative if it failed

    constructor (reliable: bool, input: seq<byte>)
      ensures this.reliable == reliable && this.input == input && output == [] && looks == []
    {
      this.reliable, this.input, output, looks := reliable, input, [], [];
    }

    /** recv() with MSG_PEEK into the command buffer: some of the bytes, none only if the peer has closed.
        The call may fail unless the link is reliable. */
    method Peek() returns (res: int, data: seq<byte>)
      modifies this`looks
      ensures res < 0 ==> !reliable && data == []
      ensures res >= 0 ==> res == |data| <= COMMAND_SIZE && |data| <= |input| && data == input[..|data|]
      ensures res == 0 <==> res >= 0 && input == []
      ensures looks == old(looks) + [res]
    {
      var fault: bool, arrived: int := *, *;
      if fault && !reliable {
        res, data := -1, [];
      } else {
        var limit := if |input| < COMMAND_SIZE then |input| else COMMAND_SIZE;
        data := input[..if 0 < arrived < limit then arrived else limit];
        res := |data|;
      }
      looks := looks + [res];
    }

    /** recv() with MSG_WAITALL: all bytes asked for unless the peer closes before. */
    method Receive(n: nat) returns (data: seq<byte>)
      modifies this`input
      ensures if n <= |old(input)| then data == old(input)[..n] && input == old(input)[n..]
              else data == old(input) && input == []
    {
      var k := if n <= |input| then n else |input|;
      data, input := input[..k], input[k..];
      assert data + input == old(input);
    }

    method Send(data: seq<byte>) returns (ok: bool)
      modifies this`output
      ensures ok ==> output == old(output) + data
      ensures reliable ==> ok
    {
      var fault: bool := *;
      ok := reliable || !fault;
      if ok {
        output := output + data;
      } else {
        output := *;
      }
    }
  }

  lemma Associative<T>(a: seq<T>, b: seq<T>, c: seq<T>)
    ensures a + b + c == a + (b + c)
  {
  }

  lemma OneLookLogged(earlier: seq<int>, looks: seq<int>, arrived: int, log: seq<int>) returns (more: seq<int>)
    requires |log| == |earlier| + |looks| + 1 && log[..|log| - 1] == earlier + looks && log[|log| - 1] == arrived
    ensures more == looks + [arrived] && log == earlier + more && log[|earlier|..] == more
    ensures log[..|earlier|] == earlier
  {
    more := looks + [arrived];
  }

  const PREFIXES: seq<seq<byte>> := [GETINFO, SETTCK, SHIFT]

  /** Two vectors behind four bytes. */
  lemma VectorSlices(s: seq<byte>, m: nat)
    requires 4 + 2 * m <= |s|
    ensures s[4..][..m] == s[4..4 + m] && s[4..][m..2 * m] == s[4 + m..4 + 2 * m] && s[4..][2 * m..] == s[4 + 2 * m..]
  {
  }

  /** A look is long enough for every prefix, and for the eight bytes that tell them apart. */
  lemma LookSuffices(i: nat)
    requires i < 3
    ensures |PREFIXES[i]| <= 8 <= COMMAND_SIZE <= 16
  {
  }

  lemma PrefixShown(i: nat, s: seq<byte>, arrived: int)
    requires i < 3 && StartsWith(s, PREFIXES[i]) && |PREFIXES[i]| <= arrived
    ensures ShowsPrefix(s, arrived) && s == PREFIXES[i] + s[|PREFIXES[i]|..]
  {
  }

  lemma SeenPrefix(s: seq<byte>, command: seq<byte>, prefix: seq<byte>)
    requires |command| <= |s| && command == s[..|command|]
    ensures |prefix| <= |command| ==> (StartsWith(s, prefix) <==> command[..|prefix|] == prefix)
  {
    assert |prefix| <= |command| ==> command[..|prefix|] == s[..|prefix|];
  }

  lemma NoPrefixShown(s: seq<byte>, arrived: int)
    requires forall j :: 0 <= j < 3 ==> !(|PREFIXES[j]| <= arrived && StartsWith(s, PREFIXES[j]))
    ensures !ShowsPrefix(s, arrived)
  {
    assert !(|PREFIXES[0]| <= arrived && StartsWith(s, PREFIXES[0]));
    assert !(|PREFIXES[1]| <= arrived && StartsWith(s, PREFIXES[1]));
    assert !(|PREFIXES[2]| <= arrived && StartsWith(s, PREFIXES[2]));
  }

  lemma NoLooks(s: seq<byte>)
    ensures AfterLooks(s, []) == Served([], s, Terminated)
  {
  }

  /** A look does not depend on what was served before. */
  lemma LookAdds(cs: seq<Command>, s: seq<byte>, arrived: int)
    ensures var a, b := Look(Served(cs, s, Terminated), arrived), Look(Served([], s, Terminated), arrived);
            a.cs == cs + b.cs && a.rest == b.rest && a.verdict == b.verdict
    ensures var b := Look(Served([], s, Terminated), arrived);
            && (b.verdict == ClosedByPeer <==> arrived == 0) && (b.verdict == Interrupted <==> arrived < 0)
            && (b.verdict != Terminated ==> b.cs == [])
            && (b.cs != [] ==> Next(s).Some? && b.cs == [Next(s).value.command])
  {
    hide Next, ShowsPrefix;
  }

  lemma EncodeNone()
    ensures AllWellFormed([]) && EncodeAll([]) == []
  {
  }

  class Connection {
    const socket: Socket
    const driver: XvcDriver
    var vectorNumBytes: nat
    var tmsVector: array<byte>
    var tdiVector: array<byte>
    var tdoVector: array<byte>

    ghost predicate Valid()
      reads this, driver, driver.parts
    {
      && tmsVector.Length == tdiVector.Length == tdoVector.Length == vectorNumBytes
      && tmsVector != tdiVector && tdoVector != tmsVector && tdoVector != tdiVector
      && Apart() && driver.Synced()
    }

    /** The connection has nothing in common with the driver's inner parts. */
    ghost predicate Apart()
      reads this
    {
      && this !in driver.parts && socket !in driver.parts && driver !in driver.parts
      && tmsVector !in driver.parts && tdiVector !in driver.parts && tdoVector !in driver.parts
    }

    ghost predicate Reliable()
    {
      socket.reliable && driver.reliable
    }

    constructor (socket: Socket, driver: XvcDriver)
      requires driver.Synced() && socket !in driver.parts && driver !in driver.parts
      ensures Valid() && this.socket == socket && this.driver == driver
      ensures fresh(tmsVector) && fresh(tdiVector) && fresh(tdoVector)
    {
      this.socket, this.driver := socket, driver;
      vectorNumBytes := 0;
      tmsVector, tdiVector, tdoVector := new byte[0], new byte[0], new byte[0];
      new;
      hide XvcDriver.Synced;
    }

    method AllocateVectors(numBytes: nat)
      requires Valid()
      modifies this
      ensures Valid() && vectorNumBytes == numBytes
      ensures fresh(tmsVector) && fresh(tdiVector) && fresh(tdoVector)
    {
      hide XvcDriver.Synced;
      tmsVector, tdiVector, tdoVector := new byte[numBytes], new byte[numBytes], new byte[numBytes];
      vectorNumBytes := numBytes;
    }

    twostate predicate FreshOrSame()
      reads this
    {
      && (tmsVector == old(tmsVector) || fresh(tmsVector))
      && (tdiVector == old(tdiVector) || fresh(tdiVector))
      && (tdoVector == old(tdoVector) || fresh(tdoVector))
    }

    /** recv_data() into the first octets of a vector. */
    method ReceiveInto(vector: array<byte>, n: nat) returns (ok: bool)
      requires n <= vector.Length
      modifies socket`input, vector
      ensures ok <==> n <= |old(socket.input)|
      ensures ok ==> vector[..n] == old(socket.input)[..n] && socket.input == old(socket.input)[n..]
    {
      var data := socket.Receive(n);
      forall i | 0 <= i < |data| {
        vector[i] := data[i];
      }
      ok := |data| == n;
      assert ok ==> vector[..n] == data;
    }

    /** recv_xvc_int() */
    method ReceiveInt() returns (v: int)
      modifies socket`input
      ensures |old(socket.input)| >= 4 ==>
        v == FromLe32(old(socket.input)[..4]) && socket.input == old(socket.input)[4..]
      ensures |old(socket.input)| < 4 ==> v == -1
    {
      var payload := socket.Receive(4);
      return if |payload| == 4 then FromLe32(payload) else -1;
    }

    /** The command `c` has been taken off the input, given to the driver, and its answer sent. */
    twostate predicate Handled(c: Command, rest: seq<byte>)
      reads socket, driver
    {
      && socket.input == rest
      && driver.calls == old(driver.calls) + [c]
      && |driver.answers| > 0 && driver.answers == old(driver.answers) + [driver.answers[|driver.answers| - 1]]
      && var a := driver.answers[|driver.answers| - 1];
         && Usable(a) && Answers(a, c)
         && socket.output == old(socket.output) + Response(a)
    }

    method CmdGetInfo() returns (ok: bool)
      requires Valid() && !driver.lost
      modifies socket`output, driver, driver.parts
      ensures Valid() && (if ok then !driver.lost else driver.lost || !socket.reliable)
      ensures ok ==> Handled(Command.GetInfo, old(socket.input))
      ensures driver.calls == old(driver.calls) + [Command.GetInfo]
      ensures Reliable() ==> ok
    {
      hide XvcDriver.Synced;
      var maxVectorBits := driver.MaxVectorBits();
      if maxVectorBits <= 0 {
        return false;
      }
      ok := socket.Send(BANNER + Decimal(maxVectorBits) + [0x0a]);
    }

    method CmdSetTck() returns (ok: bool)
      requires Valid() && !driver.lost
      modifies socket`input, socket`output, driver, driver.parts
      ensures Valid() && (ok ==> !driver.lost)
      ensures var s := old(socket.input);
              if |s| >= 4 && FromLe32(s[..4]) >= 0
              then (ok ==> Handled(SetTck(FromLe32(s[..4])), s[4..]))
                   && driver.calls == old(driver.calls) + [SetTck(FromLe32(s[..4]))]
                   && (Reliable() ==> ok) && (!ok ==> driver.lost || !socket.reliable)
              else !ok && driver.calls == old(driver.calls)
    {
      hide FromLe32, XvcDriver.Synced;
      var suggestedTckPeriod := ReceiveInt();
      if suggestedTckPeriod < 0 {
        return false;
      }
      var tckPeriod := driver.SetTckPeriod(suggestedTckPeriod);
      if tckPeriod <= 0 {
        return false;
      }
      ok := socket.Send(ToLe32(tckPeriod));
    }

    /** Both vectors of a shift, into vectors that are made longer if they are too short. */
    method ReceiveVectors(bytesPerVector: nat) returns (ok: bool)
      requires Valid()
      modifies this, socket`input, tmsVector, tdiVector
      ensures Valid() && FreshOrSame() && bytesPerVector <= vectorNumBytes
      ensures ok <==> 2 * bytesPerVector <= |old(socket.input)|
      ensures ok ==>
        var s := old(socket.input);
        && tmsVector[..bytesPerVector] == s[..bytesPerVector]
        && tdiVector[..bytesPerVector] == s[bytesPerVector..2 * bytesPerVector]
        && socket.input == s[2 * bytesPerVector..]
    {
      hide XvcDriver.Synced;
      if bytesPerVector > vectorNumBytes {
        AllocateVectors(bytesPerVector);
      }
      ghost var s := old(socket.input);
      ok := ReceiveInto(tmsVector, bytesPerVector);
      if ok {
        ok := ReceiveInto(tdiVector, bytesPerVector);
      }
      if ok {
        TailSlice(s, bytesPerVector, bytesPerVector);
      }
    }

    method CmdShift() returns (ok: bool)
      requires Valid() && !driver.lost
      modifies this, socket`input, socket`output, driver, driver.parts, tmsVector, tdiVector, tdoVector
      ensures Valid() && FreshOrSame() && (ok ==> !driver.lost)
      ensures var s := old(socket.input);
              if |s| >= 4 && FromLe32(s[..4]) > 0 && |s| >= 4 + 2 * VectorBytes(FromLe32(s[..4]))
              then var n: nat := FromLe32(s[..4]);
                   var m := VectorBytes(n);
                   var c := Shift(n, s[4..4 + m], s[4 + m..4 + 2 * m]);
                   (ok ==> Handled(c, s[4 + 2 * m..])) && driver.calls == old(driver.calls) + [c]
                   && (Reliable() ==> ok) && (!ok ==> driver.lost || !socket.reliable)
              else !ok && driver.calls == old(driver.calls)
    {
      hide FromLe32, ToLe32, Decimal, VectorBytes, XvcDriver.Synced;
      var numBits := ReceiveInt();
      if numBits <= 0 {
        return false;
      }
      var bytesPerVector := VectorBytes(numBits);
      ghost var s := old(socket.input);
      ok := ReceiveVectors(bytesPerVector);
      if !ok {
        return;
      }
      VectorSlices(s, bytesPerVector);
      ok := driver.ShiftBits(numBits, tmsVector, tdiVector, tdoVector);
      if !ok {
        return;
      }
      ok := socket.Send(tdoVector[..bytesPerVector]);
    }

    /** The handler of the `i`-th command, called with the prefix taken off. */
    method Handle(i: nat) returns (ok: bool)
      requires Valid() && !driver.lost && i < 3
      modifies this, socket`input, socket`output, driver, driver.parts, tmsVector, tdiVector, tdoVector
      ensures Valid() && FreshOrSame() && (ok ==> !driver.lost)
      ensures match Next(PREFIXES[i] + old(socket.input))
              case Some(p) => (ok ==> Handled(p.command, p.rest)) && driver.calls == old(driver.calls) + [p.command]
                              && (Reliable() ==> ok) && (!ok ==> driver.lost || !socket.reliable)
              case None => !ok && driver.calls == old(driver.calls)
    {
      hide FromLe32, VectorBytes, Response, Usable, Answers, XvcDriver.Synced;
      ghost var s := socket.input;
      NextAfterPrefix(PREFIXES[i], s);
      if i == 0 {
        ok := CmdGetInfo();
      } else if i == 1 {
        ok := CmdSetTck();
      } else {
        ok := CmdShift();
      }
    }

    /** One look at the socket and what follows from it: what `Look` says, if all handlers succeed. */
    method Round() returns (v: Verdict, done: bool)
      requires Valid() && !driver.lost
      modifies this, socket, driver, driver.parts, tmsVector, tdiVector, tdoVector
      ensures Valid() && FreshOrSame() && (v != Failed ==> !driver.lost)
      ensures |socket.looks| == |old(socket.looks)| + 1 && socket.looks[..|old(socket.looks)|] == old(socket.looks)
      ensures var s, arrived := old(socket.input), socket.looks[|old(socket.looks)|];
              var after := Look(Served([], s, Terminated), arrived);
              && (v != Failed ==> after.rest == socket.input && after.verdict == v && (done <==> after.cs != []))
              && (v == Failed ==> !done && driver.calls == old(driver.calls) + after.cs)
              && (v == Failed ==> after.verdict == Failed || (!Reliable() && after.cs != []))
              && (v == Failed ==> after.verdict == Failed || driver.lost || !socket.reliable)
      ensures var arrived := socket.looks[|old(socket.looks)|];
              (arrived < 0 ==> !socket.reliable) && (arrived == 0 <==> arrived >= 0 && old(socket.input) == [])
      ensures !done && v != Failed ==> driver.calls == old(driver.calls) && driver.answers == old(driver.answers)
      ensures !done && v != Failed ==> socket.output == old(socket.output) && socket.input == old(socket.input)
      ensures done ==> Next(old(socket.input)).Some?
      ensures done ==> Handled(Next(old(socket.input)).value.command, Next(old(socket.input)).value.rest)
    {
      hide FromLe32, VectorBytes, Response, Usable, Answers, ShowsPrefix, Next, StartsWith, XvcDriver.Synced;
      done := false;
      var sockRes, command := socket.Peek();
      if sockRes == 0 {
        return ClosedByPeer, done;
      }
      if sockRes < 0 {
        return Interrupted, done;
      }
      var shouldContinue := false;
      var i := 0;
      ghost var s := socket.input;
      while i < 3
        invariant 0 <= i <= 3 && Valid() && FreshOrSame() && socket.input == s == old(socket.input)
        invariant driver.calls == old(driver.calls) && driver.answers == old(driver.answers)
        invariant socket.output == old(socket.output) && socket.looks == old(socket.looks) + [|command|]
        invariant !done && command == s[..|command|] && |command| <= |s|
        invariant shouldContinue <==> i > 0 && |command| < 8
        invariant forall j :: 0 <= j < i ==> !(|PREFIXES[j]| <= |command| && StartsWith(s, PREFIXES[j]))
        invariant !driver.lost
        invariant tmsVector == old(tmsVector) && tdiVector == old(tdiVector) && tdoVector == old(tdoVector)
      {
        var prefix := PREFIXES[i];
        SeenPrefix(s, command, prefix);
        if |command| < |prefix| {
          shouldContinue := true;
        } else if command[..|prefix|] == prefix {
          PrefixShown(i, s, |command|);
          var taken := socket.Receive(|prefix|);
          if |taken| != |prefix| {
            return Failed, done;
          }
          var ok := Handle(i);
          if !ok {
            return Failed, done;
          }
          done := true;
          return Terminated, done;
        }
        i := i + 1;
      }
      NoPrefixShown(s, |command|);
      if !shouldContinue {
        return NotRecognized, done;
      }
      return Terminated, done;
    }

    /** run_connectin(); the flag to terminate is found set after some number of rounds.

        Whatever arrives when, the driver is called for the commands that the looks at the socket
        show, in order and with their own arguments; each is answered; and nothing beyond them is
        taken. */
    method RunConnection(rounds: nat) returns (v: Verdict, ghost cs: seq<Command>, ghost answers: seq<Answer>)
      requires Valid() && !driver.lost
      modifies this, socket, driver, driver.parts, tmsVector, tdiVector, tdoVector
      ensures Valid() && (v != Failed ==> !driver.lost && driver.answers == old(driver.answers) + answers)
      ensures |socket.looks| >= |old(socket.looks)| && socket.looks[..|old(socket.looks)|] == old(socket.looks)
      ensures v == Terminated ==> |socket.looks| == |old(socket.looks)| + rounds
      ensures var after := AfterLooks(old(socket.input), socket.looks[|old(socket.looks)|..]);
              && (v != Failed ==> Served(cs, socket.input, v) == after)
              && driver.calls == old(driver.calls) + after.cs
              && (v == Failed ==> cs <= after.cs)
              && (v == Failed ==> (after.verdict == Failed && cs == after.cs) || (!Reliable() && cs != after.cs))
              && (v == Failed ==> after.verdict == Failed || driver.lost || !socket.reliable)
      ensures v == ClosedByPeer ==> socket.input == []
      ensures v == Interrupted ==> !socket.reliable
      ensures v == NotRecognized ==> socket.input != []
      ensures AllWellFormed(cs) && AllAnswered(answers, cs)
      ensures v != Failed ==> old(socket.input) == EncodeAll(cs) + socket.input
      ensures v != Failed ==> socket.output == old(socket.output) + Responses(answers)
    {
      hide FromLe32, VectorBytes, Response, Usable, Answers, Next, Encode, WellFormed, EncodeAll, ShowsPrefix, Look,
           AfterLooks, BigLooks, AllWellFormed, AllAnswered, AllUsable, Responses,
           XvcDriver.Synced, Connection.Apart, StartsWith, HasPrefix;
      cs, answers := [], [];
      ghost var start, earlier, looks := socket.input, socket.looks, [];
      EncodeNone();
      NoAnswers();
      NoLooks(start);
      assert start == EncodeAll([]) + start;
      var r := 0;
      while r < rounds
        invariant 0 <= r <= rounds && Valid() && FreshOrSame()
        invariant socket.looks == earlier + looks && |looks| == r
        invariant AfterLooks(start, looks) == Served(cs, socket.input, Terminated)
        invariant AllWellFormed(cs) && AllAnswered(answers, cs) && AllUsable(answers)
        invariant !driver.lost && driver.answers == old(driver.answers) + answers
        invariant driver.calls == old(driver.calls) + cs && start == EncodeAll(cs) + socket.input
        invariant socket.output == old(socket.output) + Responses(answers)
      {
        ghost var input := socket.input;
        var done;
        label Before:
        v, done := Round();
        ghost var arrived := socket.looks[|earlier| + |looks|];
        OneLookMore(start, looks, arrived);
        LookAdds(cs, input, arrived);
        looks := OneLookLogged(earlier, looks, arrived, socket.looks);
        if done {
          ghost var p := Next(input).value;
          NextIsEncoded(input);
          EncodeAllConcat(cs, p.command);
          assert Handled@Before(p.command, p.rest);
          ghost var a := driver.answers[|driver.answers| - 1];
          OneAnswerMore(answers, cs, a, p.command);
          Associative(old(driver.calls), cs, [p.command]);
          Associative(old(driver.answers), answers, [a]);
          Associative(old(socket.output), Responses(answers), Response(a));
          Associative(EncodeAll(cs), Encode(p.command), p.rest);
          cs, answers := cs + [p.command], answers + [a];
        } else if v != Terminated {
          assert cs + [] == cs;
          return;
        }
        r := r + 1;
      }
      assert socket.looks[|earlier|..] == looks;
      v := Terminated;
    }
  }

  lemma StreamEnds(cs: seq<Command>)
    requires AllWellFormed(cs)
    ensures EncodeAll(cs) == [] <==> cs == []
  {
    if cs != [] {
      EncodedIsNext(cs[0], EncodeAll(cs[1..]));
    }
  }

  /** A well-formed stream, cut by the network in any way: the commands handled are the first ones
      sent, none is refused, at least one is handled for every look that finds eight bytes, and what
      is left is the encoding of the others. */
  method ServeWellFormed(conn: Connection, ghost sent: seq<Command>, rounds: nat) returns (v: Verdict, ghost k: nat)
    requires conn.Valid() && conn.Reliable() && !conn.driver.lost
    requires AllWellFormed(sent) && conn.socket.input == EncodeAll(sent)
    modifies conn, conn.socket, conn.driver, conn.driver.parts, conn.tmsVector, conn.tdiVector, conn.tdoVector
    ensures k <= |sent| && conn.driver.calls == old(conn.driver.calls) + sent[..k]
    ensures conn.socket.input == EncodeAll(sent[k..])
    ensures v == Terminated || (v == ClosedByPeer && k == |sent|)
    ensures |conn.socket.looks| >= |old(conn.socket.looks)|
    ensures v == Terminated ==> |conn.socket.looks| == |old(conn.socket.looks)| + rounds
    ensures v == Terminated ==> k >= BigLooks(conn.socket.looks[|old(conn.socket.looks)|..])
  {
    hide FromLe32, VectorBytes, Encode, WellFormed, EncodeAll, Next, AfterLooks, BigLooks;
    ghost var cs, answers;
    v, cs, answers := conn.RunConnection(rounds);
    k := |cs|;
    LooksServe(sent, conn.socket.looks[|old(conn.socket.looks)|..]);
    StreamEnds(sent[k..]);
    assert sent[k..] == [] ==> k == |sent|;
  }
}
