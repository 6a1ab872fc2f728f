/** Whole runs of the command buffer: it does not matter where it flushes. */
module FlushPoints {
  import opened Octets
  import opened Mpsse
  import opened Pending

  datatype Op = Send(tx: seq<byte>, action: Action, rxSize: nat) | Flush

  /** A queue and the TDO vector its observers write to. */
  datatype Buffered = Buffered(queue: Queue, tdo: seq<byte>)

  /** The sizes of replies given with the commands are right, and the actions fit. */
  ghost predicate Declared(env: Env, w: World, ops: seq<Op>)
    decreases |ops|
  {
    ops == [] ||
    match ops[0]
    case Flush => Declared(env, w, ops[1..])
    case Send(tx, a, rxSize) =>
      && |Run(env, w.chip, tx).out| == rxSize && ActionFits(a, rxSize, |w.tdo|) && (rxSize == 0 ==> a == Ignore)
      && Declared(env, Perform(env, w, tx, a), ops[1..])
  }

  /** Sending every command at once and acting on its reply immediately. */
  ghost function Immediately(env: Env, w: World, ops: seq<Op>): World
    requires Declared(env, w, ops)
    decreases |ops|
  {
    if ops == [] then w
    else
      match ops[0]
      case Flush => Immediately(env, w, ops[1..])
      case Send(tx, a, _) => Immediately(env, Perform(env, w, tx, a), ops[1..])
  }

  /** One step of the buffer. */
  ghost function BufferStep(env: Env, b: Buffered, op: Op): Buffered
    requires Accounted(env, b.queue, |b.tdo|)
  {
    match op
    case Flush =>
      Buffered(Flushed(env, b.queue), ObserveAll(b.queue.observers, Run(env, b.queue.chip, b.queue.tx).out, b.tdo))
    case Send(tx, a, rxSize) => Buffered(Appended(b.queue, tx, a, rxSize), b.tdo)
  }

  lemma OutcomeSize(env: Env, q: Queue, tdo: seq<byte>)
    requires Accounted(env, q, |tdo|)
    ensures |Outcome(env, q, tdo).tdo| == |tdo|
  {
  }

  lemma StepAgrees(env: Env, b: Buffered, ops: seq<Op>)
    requires ops != [] && Accounted(env, b.queue, |b.tdo|) && Declared(env, Outcome(env, b.queue, b.tdo), ops)
    ensures var b' := BufferStep(env, b, ops[0]);
            && Accounted(env, b'.queue, |b'.tdo|)
            && Declared(env, Outcome(env, b'.queue, b'.tdo), ops[1..])
            && Immediately(env, Outcome(env, b'.queue, b'.tdo), ops[1..])
                 == Immediately(env, Outcome(env, b.queue, b.tdo), ops)
  {
    hide Accounted, Outcome, Run, Appended, Flushed, ObserveAll, Perform;
    match ops[0]
    case Flush =>
      FlushInvisible(env, b.queue, b.tdo);
    case Send(tx, a, rxSize) =>
      OutcomeSize(env, b.queue, b.tdo);
      AppendPerforms(env, b.queue, b.tdo, tx, a, rxSize);
  }

  /** The buffer after a run of operations. */
  ghost function RunOps(env: Env, b: Buffered, ops: seq<Op>): Buffered
    requires Accounted(env, b.queue, |b.tdo|) && Declared(env, Outcome(env, b.queue, b.tdo), ops)
    decreases |ops|
  {
    if ops == [] then b
    else
      StepAgrees(env, b, ops);
      RunOps(env, BufferStep(env, b, ops[0]), ops[1..])
  }

  /** Whatever is queued and wherever it is flushed, the outcome is that of immediate execution, and
      the replies expected are always those the chip will produce. */
  lemma {:induction false} RunIsImmediate(env: Env, b: Buffered, ops: seq<Op>)
    requires Accounted(env, b.queue, |b.tdo|) && Declared(env, Outcome(env, b.queue, b.tdo), ops)
    ensures var r := RunOps(env, b, ops);
            && Accounted(env, r.queue, |r.tdo|)
            && Outcome(env, r.queue, r.tdo) == Immediately(env, Outcome(env, b.queue, b.tdo), ops)
    decreases |ops|
  {
    hide Accounted, Outcome, BufferStep;
    if ops != [] {
      StepAgrees(env, b, ops);
      RunIsImmediate(env, BufferStep(env, b, ops[0]), ops[1..]);
    }
  }

  /** The commands of a run, without its flushes. */
  function Commands(ops: seq<Op>): seq<Op>
  {
    if ops == [] then []
    else if ops[0].Flush? then Commands(ops[1..])
    else [ops[0]] + Commands(ops[1..])
  }

  lemma {:induction false} FlushesDoNotCount(env: Env, w: World, ops: seq<Op>)
    requires Declared(env, w, ops)
    ensures Declared(env, w, Commands(ops)) && Immediately(env, w, Commands(ops)) == Immediately(env, w, ops)
    decreases |ops|
  {
    hide Run, Perform;
    if ops != [] {
      match ops[0]
      case Flush => FlushesDoNotCount(env, w, ops[1..]);
      case Send(tx, a, _) =>
        FlushesDoNotCount(env, Perform(env, w, tx, a), ops[1..]);
        assert ([ops[0]] + Commands(ops[1..]))[1..] == Commands(ops[1..]);
    }
  }

  /** Two runs of the same commands with flushes at different places, both flushed at the end, leave
      the same chip and the same TDO vector. */
  lemma FlushPointsInvisible(env: Env, b: Buffered, ops1: seq<Op>, ops2: seq<Op>)
    requires Accounted(env, b.queue, |b.tdo|) && Commands(ops1) == Commands(ops2)
    requires Declared(env, Outcome(env, b.queue, b.tdo), ops1) && Declared(env, Outcome(env, b.queue, b.tdo), ops2)
    ensures var r1 := RunOps(env, b, ops1);
            var r2 := RunOps(env, b, ops2);
            && Accounted(env, r1.queue, |r1.tdo|) && Accounted(env, r2.queue, |r2.tdo|)
            && BufferStep(env, r1, Flush) == BufferStep(env, r2, Flush)
  {
    hide Run, Step, ObserveAll;
    var w := Outcome(env, b.queue, b.tdo);
    RunIsImmediate(env, b, ops1);
    RunIsImmediate(env, b, ops2);
    FlushesDoNotCount(env, w, ops1);
    FlushesDoNotCount(env, w, ops2);
  }
}
