/** What the JTAG splitter is for: it follows the TAP state through a TMS vector and cuts the
    vectors into stretches clocked outside and inside the shift states. */
module Splitting {
  import opened Octets
  import opened Tap
  import opened Encoding

  datatype Event =
    | ShiftTms(tms: seq<byte>, from: nat, to: nat)
    | ShiftTdi(tdi: seq<byte>, from: nat, to: nat, incomplete: bool)
    | FlushAll

  // ---------------------------------------------------------------- what a splitting is

  /** The state before bit `i` of a TMS vector. */
  function StateAt(s: TapState, tms: seq<byte>, i: nat): TapState
    requires i <= 8 * |tms|
  {
    if i == 0 then s else NextState(StateAt(s, tms, i - 1), VecBit(tms, i - 1))
  }

  lemma StateAtStart(s: TapState, tms: seq<byte>)
    ensures StateAt(s, tms, 0) == s
  {
  }

  ghost predicate AllShift(s: TapState, tms: seq<byte>, from: nat, to: nat, shifting: bool)
    requires from <= to <= 8 * |tms|
  {
    forall i :: from <= i < to ==> IsShift(StateAt(s, tms, i)) == shifting
  }

  /** An event that covers a maximal stretch of bits clocked outside, or inside, the shift states
      of vectors of `n` bits. */
  ghost predicate IsStretch(e: Event, s: TapState, tms: seq<byte>, tdi: seq<byte>, n: nat)
    requires n <= 8 * |tms|
  {
    match e
    case ShiftTms(v, from, to) =>
      && v == tms && from < to <= n
      && AllShift(s, tms, from, to, false)
      && (to < n ==> IsShift(StateAt(s, tms, to)))
    case ShiftTdi(v, from, to, incomplete) =>
      && v == tdi && from < to <= n
      && AllShift(s, tms, from, to, true)
      && (to < n ==> !incomplete)
      && (incomplete <==> IsShift(StateAt(s, tms, to)))
    case FlushAll => false
  }

  /** The events tile the bits up to `to`, in order. */
  ghost predicate Tiles(es: seq<Event>, s: TapState, tms: seq<byte>, tdi: seq<byte>, n: nat, to: nat)
    requires n <= 8 * |tms|
  {
    if es == [] then to == 0
    else
      var e := es[|es| - 1];
      && IsStretch(e, s, tms, tdi, n) && e.to == to
      && Tiles(es[..|es| - 1], s, tms, tdi, n, e.from)
  }

  /** Stretches that end at the same bit are of the same kind. */
  lemma SameKind(e: Event, f: Event, s: TapState, tms: seq<byte>, tdi: seq<byte>, n: nat)
    requires n <= 8 * |tms|
    requires IsStretch(e, s, tms, tdi, n) && IsStretch(f, s, tms, tdi, n) && e.to == f.to
    ensures e.ShiftTms? == f.ShiftTms?
    ensures e.from == f.from ==> e == f
  {
    hide StateAt;
    var last := e.to - 1;
    assert e.ShiftTdi? <==> IsShift(StateAt(s, tms, last));
    assert f.ShiftTdi? <==> IsShift(StateAt(s, tms, last));
  }

  /** Where a tile starts, but for the first one, the TAP has just entered or left a shift state. */
  lemma KindChanges(es: seq<Event>, s: TapState, tms: seq<byte>, tdi: seq<byte>, n: nat, to: nat)
    requires n <= 8 * |tms| && es != []
    requires Tiles(es, s, tms, tdi, n, to)
    ensures var mid := es[|es| - 1].from;
            mid > 0 ==> IsShift(StateAt(s, tms, mid - 1)) != IsShift(StateAt(s, tms, mid))
  {
    hide StateAt;
    var before, mid := es[..|es| - 1], es[|es| - 1].from;
    if mid > 0 {
      var g := before[|before| - 1];
      assert IsStretch(g, s, tms, tdi, n) && g.to == mid;
      assert IsShift(StateAt(s, tms, mid - 1)) == g.ShiftTdi?;
    }
  }

  /** No stretch reaches across the start of another one. */
  lemma StretchesMaximal(e: Event, f: Event, s: TapState, tms: seq<byte>, tdi: seq<byte>, n: nat)
    requires n <= 8 * |tms|
    requires IsStretch(e, s, tms, tdi, n) && IsStretch(f, s, tms, tdi, n) && e.to == f.to
    requires e.from > 0 ==> IsShift(StateAt(s, tms, e.from - 1)) != IsShift(StateAt(s, tms, e.from))
    requires f.from > 0 ==> IsShift(StateAt(s, tms, f.from - 1)) != IsShift(StateAt(s, tms, f.from))
    ensures e.from == f.from
  {
    hide StateAt;
  }

  /** There is only one way to tile. */
  lemma {:induction false} TilesUnique(a: seq<Event>, b: seq<Event>, s: TapState, tms: seq<byte>, tdi: seq<byte>,
                                       n: nat, to: nat)
    requires n <= 8 * |tms|
    requires Tiles(a, s, tms, tdi, n, to) && Tiles(b, s, tms, tdi, n, to)
    ensures a == b
  {
    hide AllShift, StateAt, IsShift;
    if a != [] && b != [] {
      var e, f := a[|a| - 1], b[|b| - 1];
      SameKind(e, f, s, tms, tdi, n);
      KindChanges(a, s, tms, tdi, n, to);
      KindChanges(b, s, tms, tdi, n, to);
      StretchesMaximal(e, f, s, tms, tdi, n);
      TilesUnique(a[..|a| - 1], b[..|b| - 1], s, tms, tdi, n, e.from);
      assert a == a[..|a| - 1] + [e] && b == b[..|b| - 1] + [f];
    }
  }

  lemma StretchNotEmpty(e: Event, s: TapState, tms: seq<byte>, tdi: seq<byte>, n: nat)
    requires n <= 8 * |tms| && IsStretch(e, s, tms, tdi, n)
    ensures !e.FlushAll? && e.from < e.to <= n
    ensures if e.ShiftTms? then e.tms == tms else e.tdi == tdi
  {
  }

  /** Every beginning of a tiling is a tiling. */
  lemma {:induction false} TilesPrefix(es: seq<Event>, s: TapState, tms: seq<byte>, tdi: seq<byte>, n: nat, to: nat,
                                       k: nat)
    requires n <= 8 * |tms| && k < |es|
    requires Tiles(es, s, tms, tdi, n, to)
    ensures IsStretch(es[k], s, tms, tdi, n) && Tiles(es[..k], s, tms, tdi, n, es[k].from)
    ensures es[k].to <= to
  {
    hide IsStretch;
    var m := |es| - 1;
    assert es[m].from < es[m].to by { StretchNotEmpty(es[m], s, tms, tdi, n); }
    if k < m {
      TilesPrefix(es[..m], s, tms, tdi, n, es[m].from, k);
      assert es[..m][..k] == es[..k];
    }
  }

  lemma StretchKind(e: Event, s: TapState, tms: seq<byte>, tdi: seq<byte>, n: nat, i: nat)
    requires n <= 8 * |tms| && IsStretch(e, s, tms, tdi, n) && e.from <= i < e.to
    ensures IsShift(StateAt(s, tms, i)) == e.ShiftTdi?
  {
    hide StateAt;
  }

  /** Between tiles the kind changes: a tile ends where the next one starts. */
  lemma TilesMeet(es: seq<Event>, s: TapState, tms: seq<byte>, tdi: seq<byte>, n: nat, to: nat, k: nat)
    requires n <= 8 * |tms| && k + 1 < |es|
    requires Tiles(es, s, tms, tdi, n, to)
    ensures IsStretch(es[k], s, tms, tdi, n) && IsStretch(es[k + 1], s, tms, tdi, n)
    ensures es[k].to == es[k + 1].from && es[k].ShiftTms? != es[k + 1].ShiftTms?
  {
    hide StateAt;
    TilesPrefix(es, s, tms, tdi, n, to, k);
    TilesPrefix(es, s, tms, tdi, n, to, k + 1);
    assert es[..k + 1][k] == es[k];
    var mid := es[k].to;
    assert IsShift(StateAt(s, tms, mid)) == es[k + 1].ShiftTdi?;
  }

  // ---------------------------------------------------------------- what events mean

  predicate EventInRange(e: Event)
  {
    match e
    case ShiftTms(tms, from, to) => from < to <= 8 * |tms|
    case ShiftTdi(tdi, from, to, _) => from < to <= 8 * |tdi|
    case FlushAll => true
  }

  /** The pulses an event asks for; TDI is held at some level during a TMS event. */
  function Train(e: Event, held: bool): seq<Pulse>
    requires EventInRange(e)
  {
    match e
    case ShiftTms(tms, from, to) => HeldPulses(tms, from, to, held)
    case ShiftTdi(tdi, from, to, incomplete) => EventPulses(tdi, from, to, !incomplete)
    case FlushAll => []
  }

  predicate AllInRange(es: seq<Event>)
  {
    forall i :: 0 <= i < |es| ==> EventInRange(es[i])
  }

  /** The pulses of the vectors themselves. */
  function Pulses(tms: seq<byte>, tdi: seq<byte>, from: nat, to: nat): (ps: seq<Pulse>)
    requires from <= to <= 8 * |tms| && to <= 8 * |tdi|
    ensures |ps| == to - from
  {
    seq(to - from, i requires 0 <= i < to - from => Pulse(VecBit(tms, from + i), VecBit(tdi, from + i)))
  }

  lemma PulsesConcat(tms: seq<byte>, tdi: seq<byte>, from: nat, mid: nat, to: nat)
    requires from <= mid <= to <= 8 * |tms| && to <= 8 * |tdi|
    ensures Pulses(tms, tdi, from, to) == Pulses(tms, tdi, from, mid) + Pulses(tms, tdi, mid, to)
  {
    hide VecBit;
  }

  lemma {:induction false} StateAfterPulses(s: TapState, tms: seq<byte>, from: nat, ps: seq<Pulse>)
    requires from + |ps| <= 8 * |tms|
    requires forall i :: 0 <= i < |ps| ==> ps[i].tms == VecBit(tms, from + i)
    ensures StateAfter(StateAt(s, tms, from), ps) == StateAt(s, tms, from + |ps|)
  {
    hide VecBit;
    if ps != [] {
      StateAfterPulses(s, tms, from, ps[..|ps| - 1]);
    }
  }

  /** A stay in the shift states keeps TMS low until the bit that leaves them. */
  lemma ShiftLevels(e: Event, s: TapState, tms: seq<byte>, tdi: seq<byte>, n: nat, i: nat)
    requires n <= 8 * |tms|
    requires IsStretch(e, s, tms, tdi, n) && e.ShiftTdi? && e.from <= i < e.to
    ensures VecBit(tms, i) == (i == e.to - 1 && !e.incomplete)
  {
    hide VecBit;
    assert IsShift(StateAt(s, tms, i));
    assert i + 1 < e.to ==> IsShift(StateAt(s, tms, i + 1));
  }

  /** The TMS levels of an event are those of the vector. */
  lemma TrainLevels(e: Event, s: TapState, tms: seq<byte>, tdi: seq<byte>, n: nat, held: bool, i: nat)
    requires n <= 8 * |tms| && n <= 8 * |tdi|
    requires IsStretch(e, s, tms, tdi, n) && i < e.to - e.from
    ensures EventInRange(e) && |Train(e, held)| == e.to - e.from
    ensures Train(e, held)[i].tms == VecBit(tms, e.from + i)
    ensures e.ShiftTdi? ==> Train(e, held)[i].tdi == VecBit(tdi, e.from + i)
  {
    hide VecBit, StateAt;
    if e.ShiftTdi? {
      ShiftLevels(e, s, tms, tdi, n, e.from + i);
    }
  }

  lemma AlikeNone(s: TapState, ps: seq<Pulse>, qs: seq<Pulse>)
    ensures Alike(s, ps[..0], qs[..0])
  {
  }

  lemma AlikeExtends(s: TapState, ps: seq<Pulse>, qs: seq<Pulse>, k: nat)
    requires 0 < k <= |ps| == |qs| && Alike(s, ps[..k - 1], qs[..k - 1])
    requires ps[k - 1].tms == qs[k - 1].tms
    requires IsShift(StateAfter(s, ps[..k - 1])) ==> ps[k - 1].tdi == qs[k - 1].tdi
    ensures Alike(s, ps[..k], qs[..k])
  {
    assert ps[..k][..k - 1] == ps[..k - 1] && qs[..k][..k - 1] == qs[..k - 1];
  }

  lemma {:induction false} TrainAlike(e: Event, s: TapState, tms: seq<byte>, tdi: seq<byte>, n: nat, held: bool, k: nat)
    requires n <= 8 * |tms| && n <= 8 * |tdi|
    requires IsStretch(e, s, tms, tdi, n) && k <= e.to - e.from
    ensures EventInRange(e) && |Train(e, held)| == e.to - e.from
    ensures Alike(StateAt(s, tms, e.from), Train(e, held)[..k], Pulses(tms, tdi, e.from, e.to)[..k])
    decreases k
  {
    hide VecBit, StateAt, Train, IsStretch, AllShift, Alike;
    StretchNotEmpty(e, s, tms, tdi, n);
    TrainLevels(e, s, tms, tdi, n, held, 0);
    if k == 0 {
      AlikeNone(StateAt(s, tms, e.from), Train(e, held), Pulses(tms, tdi, e.from, e.to));
    } else {
      var ps, qs := Train(e, held), Pulses(tms, tdi, e.from, e.to);
      TrainAlike(e, s, tms, tdi, n, held, k - 1);
      TrainLevels(e, s, tms, tdi, n, held, k - 1);
      forall i | 0 <= i < k - 1
        ensures ps[i].tms == VecBit(tms, e.from + i)
      {
        TrainLevels(e, s, tms, tdi, n, held, i);
      }
      var before := ps[..k - 1];
      StateAfterPulses(s, tms, e.from, before);
      StretchKind(e, s, tms, tdi, n, e.from + (k - 1));
      AlikeExtends(StateAt(s, tms, e.from), ps, qs, k);
    }
  }

  /** Clocking an event cannot be told from clocking the vectors. */
  lemma EventMeansBits(dev: Device, t: Tap, e: Event, s: TapState, tms: seq<byte>, tdi: seq<byte>, n: nat, held: bool)
    requires n <= 8 * |tms| && n <= 8 * |tdi|
    requires IsStretch(e, s, tms, tdi, n) && t.state == StateAt(s, tms, e.from)
    ensures EventInRange(e) && Clock(dev, t, Train(e, held)) == Clock(dev, t, Pulses(tms, tdi, e.from, e.to))
    ensures Clock(dev, t, Train(e, held)).tap.state == StateAt(s, tms, e.to)
  {
    hide VecBit, StateAt, Train, Pulses;
    StretchNotEmpty(e, s, tms, tdi, n);
    TrainLevels(e, s, tms, tdi, n, held, 0);
    var ps, qs := Train(e, held), Pulses(tms, tdi, e.from, e.to);
    assert ps[..|ps|] == ps && qs[..|ps|] == qs;
    TrainAlike(e, s, tms, tdi, n, held, |ps|);
    TdiMattersOnlyInShift(dev, t, ps, qs);
    ClockState(dev, t, ps);
    forall i | 0 <= i < |ps|
      ensures ps[i].tms == VecBit(tms, e.from + i)
    {
      TrainLevels(e, s, tms, tdi, n, held, i);
    }
    StateAfterPulses(s, tms, e.from, ps);
  }

  // ---------------------------------------------------------------- scans

  /** The TMS levels of bits `lo..hi`. */
  function Levels(tms: seq<byte>, lo: nat, hi: nat): (w: seq<bool>)
    requires lo <= hi <= 8 * |tms|
    ensures |w| == hi - lo
  {
    seq(hi - lo, i requires 0 <= i < hi - lo => VecBit(tms, lo + i))
  }

  /** Following a vector is walking the word of its levels, so all that is said about scans holds for
      vectors, from any bit on. */
  lemma {:induction false} StateAtWalks(s: TapState, tms: seq<byte>, lo: nat, hi: nat)
    requires lo <= hi <= 8 * |tms|
    ensures StateAt(s, tms, hi) == WalkBy(NextState, StateAt(s, tms, lo), Levels(tms, lo, hi))
    decreases hi
  {
    hide VecBit, NextState;
    if lo < hi {
      StateAtWalks(s, tms, lo, hi - 1);
      assert Levels(tms, lo, hi) == Levels(tms, lo, hi - 1) + [VecBit(tms, hi - 1)];
      WalkOneMore(NextState, StateAt(s, tms, lo), Levels(tms, lo, hi - 1), VecBit(tms, hi - 1));
    } else {
      WalkNothing(NextState, StateAt(s, tms, lo));
    }
  }

  /** The word of a scan of `k` bits, from Run-Test/Idle and back. */
  function ScanWord(select: seq<bool>, k: nat): seq<bool>
    requires k > 0
  {
    select + [false, false] + Lows(k - 1) + [true, true, false]
  }

  lemma OneBit(s: TapState, tms: seq<byte>, i: nat)
    requires i < 8 * |tms|
    ensures StateAt(s, tms, i + 1) == NextState(StateAt(s, tms, i), VecBit(tms, i))
  {
  }

  lemma {:induction false} StaysInShift(c: Column, tms: seq<byte>, lo: nat, hi: nat)
    requires (c == DR || c == IR) && lo <= hi <= 8 * |tms| && StateAt(RunTestIdle, tms, lo) == c.shift
    requires forall i :: lo <= i < hi ==> !VecBit(tms, i)
    ensures forall i :: lo <= i <= hi ==> StateAt(RunTestIdle, tms, i) == c.shift
    decreases hi
  {
    hide VecBit, StateAt, NextState;
    if lo < hi {
      StaysInShift(c, tms, lo, hi - 1);
      OneBit(RunTestIdle, tms, hi - 1);
      OwnColumnSteps(c);
    }
  }

  lemma ScanBits(c: Column, tms: seq<byte>, k: nat)
    requires c == DR || c == IR
    requires k > 0
    requires var word := ScanWord(if c == DR then [true] else [true, true], k);
             |word| <= 8 * |tms| && Levels(tms, 0, |word|) == word
    ensures var p := if c == DR then 3 else 4;
            && p + k + 2 <= 8 * |tms|
            && (forall i :: 0 <= i < p ==> VecBit(tms, i) == (i < p - 2))
            && (forall i :: p <= i < p + k - 1 ==> !VecBit(tms, i))
            && VecBit(tms, p + k - 1) && VecBit(tms, p + k) && !VecBit(tms, p + k + 1)
  {
    hide VecBit;
    var p := if c == DR then 3 else 4;
    var word := ScanWord(if c == DR then [true] else [true, true], k);
    forall i | 0 <= i < |word|
      ensures VecBit(tms, i) == word[i]
    {
      assert VecBit(tms, i) == Levels(tms, 0, |word|)[i];
    }
    assert |word| == p + k + 2;
  }

  lemma WayToShift(c: Column, tms: seq<byte>)
    requires c == DR || c == IR
    requires var p := if c == DR then 3 else 4;
             p < 8 * |tms| && forall i :: 0 <= i < p ==> VecBit(tms, i) == (i < p - 2)
    ensures var p := if c == DR then 3 else 4;
            && StateAt(RunTestIdle, tms, p) == c.shift
            && forall i :: 0 <= i < p ==> !IsShift(StateAt(RunTestIdle, tms, i))
  {
    hide VecBit, StateAt, NextState;
    StateAtStart(RunTestIdle, tms);
    OneBit(RunTestIdle, tms, 0);
    OneBit(RunTestIdle, tms, 1);
    OneBit(RunTestIdle, tms, 2);
    if c == IR {
      OneBit(RunTestIdle, tms, 3);
    }
    OwnOuterSteps();
    OwnColumnSteps(c);
  }

  lemma ScanStates(c: Column, tms: seq<byte>, k: nat)
    requires c == DR || c == IR
    requires k > 0
    requires var word := ScanWord(if c == DR then [true] else [true, true], k);
             |word| <= 8 * |tms| && Levels(tms, 0, |word|) == word
    ensures var p := if c == DR then 3 else 4;
            && (forall i :: 0 <= i < p ==> !IsShift(StateAt(RunTestIdle, tms, i)))
            && (forall i :: p <= i < p + k ==> StateAt(RunTestIdle, tms, i) == c.shift)
            && StateAt(RunTestIdle, tms, p + k) == c.exit1 && StateAt(RunTestIdle, tms, p + k + 1) == c.update
            && StateAt(RunTestIdle, tms, p + k + 2) == RunTestIdle
  {
    hide VecBit, StateAt, NextState, IsShift;
    var p := if c == DR then 3 else 4;
    ScanBits(c, tms, k);
    WayToShift(c, tms);
    StaysInShift(c, tms, p, p + k - 1);
    OwnColumnSteps(c);
    OneBit(RunTestIdle, tms, p + k - 1);
    OneBit(RunTestIdle, tms, p + k);
    OneBit(RunTestIdle, tms, p + k + 1);
  }

  /** A scan of `k` bits is split into the way to the shift state, one shift of exactly these `k` bits,
      which is complete, and the way back. */
  lemma ScanIsSplit(c: Column, tms: seq<byte>, tdi: seq<byte>, k: nat)
    requires c == DR || c == IR
    requires k > 0
    requires var word := ScanWord(if c == DR then [true] else [true, true], k);
             |word| <= 8 * |tms| && |word| <= 8 * |tdi| && Levels(tms, 0, |word|) == word
    ensures var p := if c == DR then 3 else 4;
            var es := [ShiftTms(tms, 0, p), ShiftTdi(tdi, p, p + k, false), ShiftTms(tms, p + k, p + k + 2)];
            && Tiles(es, RunTestIdle, tms, tdi, p + k + 2, p + k + 2)
            && StateAt(RunTestIdle, tms, p + k + 2) == RunTestIdle
            && forall i :: p <= i < p + k ==> StateAt(RunTestIdle, tms, i) == c.shift
  {
    hide VecBit, StateAt;
    var p := if c == DR then 3 else 4;
    ScanStates(c, tms, k);
    var first, mid, last := ShiftTms(tms, 0, p), ShiftTdi(tdi, p, p + k, false), ShiftTms(tms, p + k, p + k + 2);
    var n := p + k + 2;
    assert IsStretch(first, RunTestIdle, tms, tdi, n);
    assert IsStretch(mid, RunTestIdle, tms, tdi, n);
    assert IsStretch(last, RunTestIdle, tms, tdi, n);
    assert [first][..0] == [] && Tiles([first], RunTestIdle, tms, tdi, n, p);
    assert [first, mid][..1] == [first] && Tiles([first, mid], RunTestIdle, tms, tdi, n, p + k);
    assert [first, mid, last][..2] == [first, mid];
  }
}
