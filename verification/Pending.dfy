/** The command buffer as a value: bytes not yet written to the chip and observers not yet run.
    Everything the buffer is for is said by `Outcome`: what chip and TDO vector will be once
    everything pending has been carried out. */
module Pending {
  import opened Octets
  import opened Mpsse

  /** What is done with a reply: bits or whole octets of it are copied into the TDO vector. */
  datatype Action =
    | Ignore
    | TakeBits(fromBit: nat, toBit: nat, numBits: nat)
    | TakeOctets(toOctet: nat)

  /** An action waiting for the reply bytes `offset..offset+size` of the next read. */
  datatype Observer = Observer(offset: nat, size: nat, action: Action)

  /** `rxSize` is the number of reply bytes the next flush will ask for. */
  datatype Queue = Queue(chip: Chip, tx: seq<byte>, rxSize: nat, observers: seq<Observer>)

  /** A chip with nothing unread, and the TDO vector. */
  datatype World = World(chip: Chip, tdo: seq<byte>)

  predicate ActionFits(a: Action, size: nat, tdoSize: nat)
  {
    match a
    case Ignore => true
    case TakeBits(from, to, n) => from + n <= 8 * size && to + n <= 8 * tdoSize
    case TakeOctets(to) => to + size <= tdoSize
  }

  function Act(a: Action, reply: seq<byte>, tdo: seq<byte>): (r: seq<byte>)
    requires ActionFits(a, |reply|, |tdo|)
    ensures |r| == |tdo|
  {
    match a
    case Ignore => tdo
    case TakeBits(from, to, n) => CopiedBits(reply, from, tdo, to, n)
    case TakeOctets(to) => CopiedOctets(reply, tdo, to)
  }

  predicate ObserversFit(os: seq<Observer>, rxSize: nat, tdoSize: nat)
  {
    forall i :: 0 <= i < |os| ==>
      os[i].offset + os[i].size <= rxSize && ActionFits(os[i].action, os[i].size, tdoSize)
  }

  /** Runs all observers, first queued first. */
  function ObserveAll(os: seq<Observer>, rx: seq<byte>, tdo: seq<byte>): (r: seq<byte>)
    requires ObserversFit(os, |rx|, |tdo|)
    ensures |r| == |tdo|
  {
    if os == [] then tdo
    else
      var o := os[|os| - 1];
      Act(o.action, rx[o.offset..o.offset + o.size], ObserveAll(os[..|os| - 1], rx, tdo))
  }

  /** The reply bytes expected are exactly those the chip will produce. */
  ghost predicate Accounted(env: Env, q: Queue, tdoSize: nat)
  {
    |Run(env, q.chip, q.tx).out| == q.rxSize && ObserversFit(q.observers, q.rxSize, tdoSize)
  }

  /** Chip and TDO vector once everything pending has been carried out. */
  ghost function Outcome(env: Env, q: Queue, tdo: seq<byte>): (w: World)
    requires Accounted(env, q, |tdo|)
    ensures |w.tdo| == |tdo|
  {
    var r := Run(env, q.chip, q.tx);
    World(r.chip, ObserveAll(q.observers, r.out, tdo))
  }

  /** Sending a command at once and acting on its reply immediately. */
  ghost function Perform(env: Env, w: World, tx: seq<byte>, a: Action): World
    requires ActionFits(a, |Run(env, w.chip, tx).out|, |w.tdo|)
  {
    var r := Run(env, w.chip, tx);
    World(r.chip, Act(a, r.out, w.tdo))
  }

  function Appended(q: Queue, tx: seq<byte>, a: Action, rxSize: nat): Queue
  {
    Queue(q.chip, q.tx + tx, q.rxSize + rxSize,
          if rxSize == 0 || a == Ignore then q.observers else q.observers + [Observer(q.rxSize, rxSize, a)])
  }

  function Flushed(env: Env, q: Queue): Queue
  {
    Queue(Run(env, q.chip, q.tx).chip, [], 0, [])
  }

  lemma NothingPending(env: Env, c: Chip, tdo: seq<byte>)
    ensures Run(env, c, []) == Ran(c, [])
    ensures Accounted(env, Queue(c, [], 0, []), |tdo|) && Outcome(env, Queue(c, [], 0, []), tdo) == World(c, tdo)
  {
    hide Step;
  }

  /** An observer needs replies to look at. */
  lemma NothingObserved(os: seq<Observer>, rx: seq<byte>, tdo: seq<byte>)
    requires ObserversFit(os, |rx|, |tdo|)
    requires os == []
    ensures ObserveAll(os, rx, tdo) == tdo
  {
  }

  lemma ObserveOneMore(os: seq<Observer>, k: nat, rx: seq<byte>, tdo: seq<byte>)
    requires ObserversFit(os, |rx|, |tdo|) && k < |os|
    ensures os[k].offset + os[k].size <= |rx| && ActionFits(os[k].action, os[k].size, |tdo|)
    ensures ObserversFit(os[..k], |rx|, |tdo|) && ObserversFit(os[..k + 1], |rx|, |tdo|)
    ensures ObserveAll(os[..k + 1], rx, tdo)
         == Act(os[k].action, rx[os[k].offset..os[k].offset + os[k].size], ObserveAll(os[..k], rx, tdo))
  {
    hide Act, ActionFits;
    assert os[..k + 1][..k] == os[..k];
  }

  /** Flushing is invisible: the outcome is the same before and after. */
  lemma FlushInvisible(env: Env, q: Queue, tdo: seq<byte>)
    requires Accounted(env, q, |tdo|)
    ensures var tdo' := ObserveAll(q.observers, Run(env, q.chip, q.tx).out, tdo);
            Accounted(env, Flushed(env, q), |tdo'|) && Outcome(env, Flushed(env, q), tdo') == Outcome(env, q, tdo)
    ensures |Run(env, q.chip, q.tx).out| == q.rxSize && ObserversFit(q.observers, q.rxSize, |tdo|)
  {
    hide Step;
    var r := Run(env, q.chip, q.tx);
    assert Run(env, r.chip, []).out == [];
  }

  /** Observers look at their own slice of the replies only, so later replies do not disturb them. */
  lemma {:induction false} ObserveAllStable(os: seq<Observer>, rx: seq<byte>, more: seq<byte>, tdo: seq<byte>)
    requires ObserversFit(os, |rx|, |tdo|)
    ensures ObserversFit(os, |rx + more|, |tdo|)
    ensures ObserveAll(os, rx + more, tdo) == ObserveAll(os, rx, tdo)
  {
    hide Act;
    if os != [] {
      ObserveAllStable(os[..|os| - 1], rx, more, tdo);
      var o := os[|os| - 1];
      assert (rx + more)[o.offset..o.offset + o.size] == rx[o.offset..o.offset + o.size];
    }
  }

  /** A new observer gets exactly the replies that came last. */
  lemma ObserveNew(os: seq<Observer>, rx: seq<byte>, more: seq<byte>, tdo: seq<byte>, a: Action)
    requires ObserversFit(os, |rx|, |tdo|) && ActionFits(a, |more|, |tdo|)
    ensures var os' := os + [Observer(|rx|, |more|, a)];
            && ObserversFit(os', |rx + more|, |tdo|)
            && ObserveAll(os', rx + more, tdo) == Act(a, more, ObserveAll(os, rx, tdo))
  {
    hide Act, ActionFits;
    ObserveAllStable(os, rx, more, tdo);
    var o := Observer(|rx|, |more|, a);
    var os' := os + [o];
    assert os'[..|os'| - 1] == os;
    assert (rx + more)[o.offset..o.offset + o.size] == more;
  }

  /** Queueing a command is, for the outcome, the same as performing it at once. */
  lemma AppendPerforms(env: Env, q: Queue, tdo: seq<byte>, tx: seq<byte>, a: Action, rxSize: nat)
    requires Accounted(env, q, |tdo|)
    requires |Run(env, Outcome(env, q, tdo).chip, tx).out| == rxSize
    requires ActionFits(a, rxSize, |tdo|)
    requires rxSize == 0 ==> a == Ignore
    ensures Accounted(env, Appended(q, tx, a, rxSize), |tdo|)
    ensures Outcome(env, Appended(q, tx, a, rxSize), tdo) == Perform(env, Outcome(env, q, tdo), tx, a)
  {
    hide Step, Run, ObserveAll, CopiedBits, CopiedOctets;
    RunConcat(env, q.chip, q.tx, tx);
    var rx := Run(env, q.chip, q.tx).out;
    var more := Run(env, Outcome(env, q, tdo).chip, tx).out;
    ObserveAllStable(q.observers, rx, more, tdo);
    ObserveNew(q.observers, rx, more, tdo, a);
  }
}
