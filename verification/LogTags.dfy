/** Log tags: which are enabled is said by a specification such as `all+foo-`, and every tag
    remembers the answer until the configuration changes. */
module LogTags {
  import opened Wrappers

  const CONFIG_IDS := 0x1_0000_0000  // values of an unsigned int

  // ---------------------------------------------------------------- what a specification says

  datatype Entry = Entry(name: string, on: bool)

  predicate IsSign(c: char)
  {
    c == '+' || c == '-'
  }

  /** The position of the first sign, or the length. */
  function FindSign(s: string): (i: nat)
    ensures i <= |s| && (forall j :: 0 <= j < i ==> !IsSign(s[j])) && (i < |s| ==> IsSign(s[i]))
  {
    if s == "" || IsSign(s[0]) then 0 else 1 + FindSign(s[1..])
  }

  function Entries(s: string): seq<Entry>
    decreases |s|
  {
    var i := FindSign(s);
    if i == |s| then [] else [Entry(s[..i], s[i] == '+')] + Entries(s[i + 1..])
  }

  /** What follows the last sign; empty in a well-formed specification. */
  function Tail(s: string): string
    decreases |s|
  {
    var i := FindSign(s);
    if i == |s| then s else Tail(s[i + 1..])
  }

  /** An entry applies to a tag, or to all tags, if its name begins the tag's name, or `all`. */
  predicate Applies(e: Entry, tag: string)
  {
    e.name != "" && (e.name <= tag || e.name <= "all")
  }

  /** The last entry that applies decides. */
  function Resolve(es: seq<Entry>, tag: string): Option<bool>
  {
    if es == [] then None
    else
      var e := es[|es| - 1];
      if Applies(e, tag) then Some(e.on) else Resolve(es[..|es| - 1], tag)
  }

  lemma {:induction false} LastMatchWins(es: seq<Entry>, tag: string, k: nat)
    requires k < |es| && Applies(es[k], tag)
    requires forall j :: k < j < |es| ==> !Applies(es[j], tag)
    ensures Resolve(es, tag) == Some(es[k].on)
    decreases |es|
  {
    if k + 1 < |es| {
      assert !Applies(es[|es| - 1], tag);
      LastMatchWins(es[..|es| - 1], tag, k);
    }
  }

  lemma {:induction false} NoMatchNoAnswer(es: seq<Entry>, tag: string)
    ensures Resolve(es, tag) == None <==> forall j :: 0 <= j < |es| ==> !Applies(es[j], tag)
  {
    if es != [] {
      NoMatchNoAnswer(es[..|es| - 1], tag);
    }
  }

  /** The answer of a scan: none if the specification is malformed or silent about the tag. */
  function Answer(spec: string, tag: string): Option<bool>
  {
    if Tail(spec) == "" then Resolve(Entries(spec), tag) else None
  }

  // ---------------------------------------------------------------- what specifications are

  predicate Unsigned(name: string)
  {
    '+' !in name && '-' !in name
  }

  ghost predicate AllUnsigned(es: seq<Entry>)
  {
    forall i :: 0 <= i < |es| ==> Unsigned(es[i].name)
  }

  /** Entries as they are written: each is a name and its sign. */
  function Written(es: seq<Entry>): string
  {
    if es == [] then "" else es[0].name + (if es[0].on then "+" else "-") + Written(es[1..])
  }

  lemma SignIs(s: string, i: nat)
    requires i <= |s| && (forall j :: 0 <= j < i ==> !IsSign(s[j])) && (i < |s| ==> IsSign(s[i]))
    ensures FindSign(s) == i
  {
    var f := FindSign(s);
    assert f < |s| ==> IsSign(s[f]);
    assert i < |s| ==> IsSign(s[i]);
  }

  /** One entry is taken off a specification. */
  lemma FirstEntry(name: string, on: bool, rest: string)
    requires Unsigned(name)
    ensures var s := name + (if on then "+" else "-") + rest;
            Entries(s) == [Entry(name, on)] + Entries(rest) && Tail(s) == Tail(rest)
  {
    var s, i := name + (if on then "+" else "-") + rest, |name|;
    assert forall j :: 0 <= j < i ==> s[j] == name[j] && name[j] in name;
    SignIs(s, i);
    assert s[..i] == name && s[i + 1..] == rest;
  }

  lemma NoEntry(s: string)
    ensures Unsigned(s) <==> FindSign(s) == |s|
    ensures Unsigned(s) ==> Entries(s) == [] && Tail(s) == s
  {
    if Unsigned(s) {
      assert forall j :: 0 <= j < |s| ==> s[j] in s;
      SignIs(s, |s|);
    }
  }

  /** What is written as entries, with or without something behind the last sign, is read back. */
  lemma {:induction false} WrittenIsRead(es: seq<Entry>, tail: string)
    requires AllUnsigned(es) && Unsigned(tail)
    ensures Entries(Written(es) + tail) == es && Tail(Written(es) + tail) == tail
  {
    hide Unsigned, Entries, Tail;
    if es == [] {
      NoEntry(tail);
      assert Written(es) + tail == tail;
    } else {
      var e, rest := es[0], Written(es[1..]) + tail;
      FirstEntry(e.name, e.on, rest);
      assert Written(es) + tail == e.name + (if e.on then "+" else "-") + rest;
      WrittenIsRead(es[1..], tail);
      assert es == [e] + es[1..];
    }
  }

  lemma CutAtSign(spec: string) returns (e: Entry, rest: string)
    requires FindSign(spec) < |spec|
    ensures Unsigned(e.name) && spec == e.name + (if e.on then "+" else "-") + rest && |rest| < |spec|
  {
    var i := FindSign(spec);
    e, rest := Entry(spec[..i], spec[i] == '+'), spec[i + 1..];
    assert spec == spec[..i] + [spec[i]] + spec[i + 1..];
  }

  lemma OneWrittenMore(e: Entry, es: seq<Entry>, tail: string)
    ensures Written([e] + es) + tail == e.name + (if e.on then "+" else "-") + (Written(es) + tail)
  {
    assert ([e] + es)[1..] == es;
  }

  lemma NothingWritten(tail: string)
    ensures Written([]) + tail == tail
  {
  }

  /** Every specification is written entries with something, or nothing, behind them. */
  lemma {:induction false} EverySpec(spec: string)
    ensures AllUnsigned(Entries(spec)) && Unsigned(Tail(spec))
    ensures spec == Written(Entries(spec)) + Tail(spec)
    decreases |spec|
  {
    hide FindSign, Unsigned, Entries, Tail, Written;
    NoEntry(spec);
    if Unsigned(spec) {
      NothingWritten(spec);
    } else {
      var e, rest := CutAtSign(spec);
      FirstEntry(e.name, e.on, rest);
      EverySpec(rest);
      OneWrittenMore(e, Entries(rest), Tail(rest));
    }
  }

  /** A written specification is answered by its last entry that applies, and not at all if anything
      follows the last sign. */
  lemma WrittenIsAnswered(es: seq<Entry>, tail: string, tag: string)
    requires AllUnsigned(es) && Unsigned(tail)
    ensures Answer(Written(es) + tail, tag) == if tail == "" then Resolve(es, tag) else None
  {
    hide Unsigned, AllUnsigned, Entries, Tail, Written, Resolve;
    WrittenIsRead(es, tail);
  }

  /** An entry applies if its name is not empty and each of its characters is the tag's at that place;
      `a`, `al` and `all` apply to all tags. */
  lemma AppliesTo(e: Entry, tag: string)
    ensures Applies(e, tag) <==>
              || e.name in ["a", "al", "all"]
              || (0 < |e.name| <= |tag| && forall i :: 0 <= i < |e.name| ==> e.name[i] == tag[i])
  {
    if 0 < |e.name| && e.name <= "all" {
      assert "all"[..1] == "a" && "all"[..2] == "al" && "all"[..3] == "all";
      assert e.name == "all"[..|e.name|];
    }
  }

  // ---------------------------------------------------------------- the logger and its tags

  datatype Checker = Unresolved | TagEnabled | TagDisabled

  class LogTag {
    const str: string
    var isEnabled: Checker
    var curConfigId: nat
    ghost var resolvedAt: nat  // how many times the logger had been configured at the last scan

    constructor (str: string)
      ensures this.str == str && isEnabled == Unresolved
    {
      this.str, isEnabled, curConfigId, resolvedAt := str, Unresolved, 0, 0;
    }

    /** A resolved tag holds the answer of the specification it was resolved with. */
    ghost predicate Valid(specs: seq<string>)
      reads this
    {
      isEnabled != Unresolved ==>
        && 1 <= resolvedAt <= |specs| && curConfigId == resolvedAt % CONFIG_IDS
        && Answer(specs[resolvedAt - 1], str) == Some(isEnabled == TagEnabled)
    }

    /** The configuration counter has come back to the value it had when the tag was resolved. */
    ghost predicate Stale(specs: seq<string>)
      reads this
    {
      isEnabled != Unresolved && resolvedAt < |specs| && curConfigId == |specs| % CONFIG_IDS
    }
  }

  lemma Increment(n: nat)
    ensures (n % CONFIG_IDS + 1) % CONFIG_IDS == (n + 1) % CONFIG_IDS
  {
  }

  /** strpbrk() for the signs; -1 stands for the null pointer. */
  method FindSignFrom(s: string, from: nat) returns (r: int)
    requires from <= |s|
    ensures var i := FindSign(s[from..]); r == if i < |s| - from then from + i else -1
  {
    var i := from;
    while i < |s| && !IsSign(s[i])
      invariant from <= i <= |s| && forall j :: from <= j < i ==> !IsSign(s[j])
    {
      i := i + 1;
    }
    SignIs(s[from..], i - from);
    r := if i < |s| then i else -1;
  }

  lemma ResolveNothing(tag: string)
    ensures Resolve([], tag) == None
  {
  }

  lemma OneEntryMore(spec: string, name: nat, sign: nat)
    requires name <= sign < |spec| && FindSign(spec[name..]) == sign - name
    ensures Entries(spec[name..]) == [Entry(spec[name..sign], spec[sign] == '+')] + Entries(spec[sign + 1..])
    ensures Tail(spec[name..]) == Tail(spec[sign + 1..])
  {
    var s, i := spec[name..], sign - name;
    assert s[..i] == spec[name..sign] && s[i + 1..] == spec[sign + 1..];
  }

  lemma ResolveOneMore(es: seq<Entry>, e: Entry, tag: string)
    ensures Resolve(es + [e], tag)
            == if e.name != "" && (e.name <= tag || e.name <= "all") then Some(e.on) else Resolve(es, tag)
  {
    assert (es + [e])[..|es|] == es;
  }

  lemma LastEntry(s: string)
    requires FindSign(s) == |s|
    ensures Entries(s) == [] && Tail(s) == s
  {
  }

  /** The scan of a specification. */
  method Scan(spec: string, tag: string) returns (enabled: Option<bool>)
    ensures enabled == Answer(spec, tag)
  {
    hide FindSign, Applies, Resolve, Tail, Entries;
    enabled := None;
    var name := 0;
    ghost var seen: seq<Entry> := [];
    assert spec[0..] == spec;
    ResolveNothing(tag);
    var sign := FindSignFrom(spec, 0);
    while sign != -1
      invariant 0 <= name <= |spec| && enabled == Resolve(seen, tag)
      invariant Entries(spec) == seen + Entries(spec[name..]) && Tail(spec) == Tail(spec[name..])
      invariant sign == -1 || name <= sign < |spec|
      invariant var i := FindSign(spec[name..]); sign == if i < |spec| - name then name + i else -1
      decreases if sign == -1 then 0 else |spec| - name + 1
    {
      var e := Entry(spec[name..sign], spec[sign] == '+');
      OneEntryMore(spec, name, sign);
      if |e.name| > 0 && (e.name <= tag || e.name <= "all") {
        enabled := Some(e.on);
      }
      ResolveOneMore(seen, e, tag);
      seen := seen + [e];
      name := sign + 1;
      sign := FindSignFrom(spec, name);
    }
    LastEntry(spec[name..]);
    assert seen + [] == seen;
    if name < |spec| {
      enabled := None;
    }
  }

  class Logger {
    var gTagSpec: string
    var gCurConfigId: nat
    ghost var specs: seq<string>  // all configurations, the current one last

    constructor ()
      ensures Valid() && specs == []
    {
      gTagSpec, gCurConfigId, specs := "", 0, [];
    }

    ghost predicate Valid()
      reads this
    {
      gCurConfigId == |specs| % CONFIG_IDS && (specs != [] ==> gTagSpec == specs[|specs| - 1])
    }

    /** txvc_log_configure() */
    method Configure(tagSpec: string)
      requires Valid()
      modifies this
      ensures Valid() && specs == old(specs) + [tagSpec]
    {
      Increment(|specs|);
      gTagSpec := tagSpec;
      gCurConfigId := (gCurConfigId + 1) % CONFIG_IDS;
      specs := specs + [tagSpec];
    }

    /** txvc_log_tag_enabled(); without an answer the program gives up.  The answer is that of a
        scan of the latest specification, unless the tag is stale. */
    method TagEnabled(tag: LogTag) returns (enabled: Option<bool>)
      requires Valid() && specs != [] && tag.Valid(specs)
      modifies tag
      ensures tag.Valid(specs)
      ensures !old(tag.Stale(specs)) ==> enabled == Answer(gTagSpec, tag.str)
      ensures old(tag.Stale(specs)) ==> enabled == Answer(specs[old(tag.resolvedAt) - 1], tag.str)
      ensures enabled.Some? ==> tag.isEnabled != Unresolved
      ensures enabled.Some? ==> tag.resolvedAt == if old(tag.Stale(specs)) then old(tag.resolvedAt) else |specs|
    {
      if tag.curConfigId == gCurConfigId && tag.isEnabled != Unresolved {
        return Some(tag.isEnabled == Checker.TagEnabled);
      }
      enabled := Scan(gTagSpec, tag.str);
      if enabled.None? {
        return;
      }
      tag.curConfigId := gCurConfigId;
      tag.resolvedAt := |specs|;
      tag.isEnabled := if enabled.value then Checker.TagEnabled else TagDisabled;
    }
  }

  // ---------------------------------------------------------------- runs

  datatype Request = Configure(spec: string) | Query(tag: nat)

  predicate InRange(rs: seq<Request>, n: nat)
  {
    forall i :: 0 <= i < |rs| && rs[i].Query? ==> rs[i].tag < n
  }

  /** The answers a run calls for: each query is answered by a scan of the configuration in force,
      and the run ends where there is no answer. */
  function Expected(rs: seq<Request>, names: seq<string>, spec: string): seq<Option<bool>>
    requires InRange(rs, |names|)
  {
    if rs == [] then []
    else
      match rs[0]
      case Configure(s) => Expected(rs[1..], names, s)
      case Query(t) =>
        var a := Answer(spec, names[t]);
        if a.None? then [a] else [a] + Expected(rs[1..], names, spec)
  }

  /** A tag resolved after `at` configurations (0 if never) is queried after `now` of them: the
      number in between is a positive multiple of the counter's range. */
  predicate Wrapped(at: nat, now: nat)
  {
    0 < at < now && (now - at) % CONFIG_IDS == 0
  }

  /** When tags can have been resolved. */
  ghost predicate AtInRange(at: seq<nat>, now: nat)
  {
    forall t :: 0 <= t < |at| ==> at[t] <= now
  }

  /** When the tags have been resolved, after another query. */
  ghost function NowResolved(at: seq<nat>, t: nat, now: nat): (r: seq<nat>)
    requires t < |at|
    ensures |r| == |at| && (AtInRange(at, now) ==> AtInRange(r, now))
  {
    if Wrapped(at[t], now) then at else at[t := now]
  }

  /** The answers a run gets: a query after a wrap is answered by the configuration that the tag was
      resolved with, all others by a scan of the configuration in force, which resolves the tag. */
  ghost function Given(rs: seq<Request>, names: seq<string>, specs: seq<string>, at: seq<nat>): seq<Option<bool>>
    requires InRange(rs, |names|) && |at| == |names| && specs != []
    requires AtInRange(at, |specs|)
  {
    if rs == [] then []
    else
      match rs[0]
      case Configure(s) => Given(rs[1..], names, specs + [s], at)
      case Query(t) =>
        var a := Answer(specs[if Wrapped(at[t], |specs|) then at[t] - 1 else |specs| - 1], names[t]);
        if a.None? then [a] else [a] + Given(rs[1..], names, specs, NowResolved(at, t, |specs|))
  }

  /** No query of a run comes after a wrap.  This depends on the requests alone: on the numbers of
      configurations between the resolutions of a tag and its later queries. */
  ghost predicate NoWrap(rs: seq<Request>, now: nat, at: seq<nat>)
    requires InRange(rs, |at|)
  {
    rs == [] ||
    match rs[0]
    case Configure(_) => NoWrap(rs[1..], now + 1, at)
    case Query(t) => !Wrapped(at[t], now) && NoWrap(rs[1..], now, at[t := now])
  }

  /** Without a query after a wrap, remembering answers makes no difference. */
  lemma {:induction false} GivenIsExpected(rs: seq<Request>, names: seq<string>, specs: seq<string>, at: seq<nat>)
    requires InRange(rs, |names|) && |at| == |names| && specs != []
    requires AtInRange(at, |specs|)
    requires NoWrap(rs, |specs|, at)
    ensures Given(rs, names, specs, at) == Expected(rs, names, specs[|specs| - 1])
    decreases |rs|
  {
    hide Answer, Wrapped;
    if rs != [] {
      match rs[0]
      case Configure(s) => GivenIsExpected(rs[1..], names, specs + [s], at);
      case Query(t) => GivenIsExpected(rs[1..], names, specs, at[t := |specs|]);
    }
  }

  /** Below 2^32 configurations in all there is no wrap. */
  lemma {:induction false} FewNoWrap(rs: seq<Request>, now: nat, at: seq<nat>)
    requires InRange(rs, |at|) && now + |rs| <= 0x1_0000_0000
    requires AtInRange(at, now)
    ensures NoWrap(rs, now, at)
    decreases |rs|
  {
    if rs != [] {
      match rs[0]
      case Configure(_) => FewNoWrap(rs[1..], now + 1, at);
      case Query(t) => FewNoWrap(rs[1..], now, at[t := now]);
    }
  }

  ghost function ResolvedAt(tag: LogTag): nat
    reads tag
  {
    if tag.isEnabled == Unresolved then 0 else tag.resolvedAt
  }

  ghost predicate AllValid(tags: seq<LogTag>, specs: seq<string>)
    reads tags
  {
    forall i :: 0 <= i < |tags| ==> tags[i].Valid(specs)
  }

  ghost predicate AllAt(tags: seq<LogTag>, at: seq<nat>)
    reads tags
  {
    |at| == |tags| && forall i :: 0 <= i < |tags| ==> at[i] == ResolvedAt(tags[i])
  }

  lemma FirstRequest(rs: seq<Request>, k: nat)
    requires k < |rs|
    ensures rs[k..] != [] && rs[k..][0] == rs[k] && rs[k..][1..] == rs[k + 1..]
  {
  }

  lemma ResolvedInRange(tags: seq<LogTag>, specs: seq<string>, at: seq<nat>)
    requires AllValid(tags, specs) && AllAt(tags, at)
    ensures |at| == |tags| && AtInRange(at, |specs|)
  {
  }

  /** Another configuration leaves the tags valid. */
  lemma ConfiguredOnceMore(tags: seq<LogTag>, specs: seq<string>, s: string, at: seq<nat>)
    requires AllValid(tags, specs) && AtInRange(at, |specs|)
    ensures AllValid(tags, specs + [s]) && AtInRange(at, |specs + [s]|)
  {
  }

  ghost function Names(tags: seq<LogTag>): (names: seq<string>)
    ensures |names| == |tags| && forall i :: 0 <= i < |tags| ==> names[i] == tags[i].str
  {
    seq(|tags|, i requires 0 <= i < |tags| => tags[i].str)
  }

  lemma NoRequests(names: seq<string>, specs: seq<string>, at: seq<nat>)
    requires |at| == |names| && specs != [] && AtInRange(at, |specs|)
    ensures Given([], names, specs, at) == []
  {
  }

  /** A tag is stale exactly after a wrap. */
  lemma WrappedIsStale(tag: LogTag, specs: seq<string>)
    requires tag.Valid(specs)
    ensures tag.Stale(specs) <==> Wrapped(ResolvedAt(tag), |specs|)
  {
  }

  /** One query of one of the tags. */
  method Ask(logger: Logger, tags: seq<LogTag>, t: nat, ghost at: seq<nat>) returns (a: Option<bool>)
    requires logger.Valid() && logger.specs != [] && t < |tags|
    requires forall i, j :: 0 <= i < j < |tags| ==> tags[i] != tags[j]
    requires AllValid(tags, logger.specs) && AllAt(tags, at) && AtInRange(at, |logger.specs|)
    modifies tags[t]
    ensures AllValid(tags, logger.specs) && |at| == |tags| && t < |at|
    ensures var n := |logger.specs|;
            && a == Answer(logger.specs[if Wrapped(at[t], n) then at[t] - 1 else n - 1], tags[t].str)
            && (a.Some? ==> AllAt(tags, NowResolved(at, t, n)) && AtInRange(NowResolved(at, t, n), n))
  {
    hide Answer;
    WrappedIsStale(tags[t], logger.specs);
    a := logger.TagEnabled(tags[t]);
  }

  /** The steps of `Given`. */
  lemma ConfigureStep(rs: seq<Request>, names: seq<string>, specs: seq<string>, at: seq<nat>)
    requires rs != [] && rs[0].Configure? && InRange(rs, |names|)
    requires |at| == |names| && specs != [] && AtInRange(at, |specs|)
    ensures InRange(rs[1..], |names|) && AtInRange(at, |specs + [rs[0].spec]|)
    ensures Given(rs, names, specs, at) == Given(rs[1..], names, specs + [rs[0].spec], at)
  {
    hide Answer, Wrapped;
  }

  lemma QueryStep(rs: seq<Request>, names: seq<string>, specs: seq<string>, at: seq<nat>)
    requires rs != [] && rs[0].Query? && InRange(rs, |names|)
    requires |at| == |names| && specs != [] && AtInRange(at, |specs|)
    ensures InRange(rs[1..], |names|) && rs[0].tag < |names|
    ensures var t, n := rs[0].tag, |specs|;
            var a := Answer(specs[if Wrapped(at[t], n) then at[t] - 1 else n - 1], names[t]);
            && AtInRange(NowResolved(at, t, n), n)
            && Given(rs, names, specs, at)
               == if a.None? then [a] else [a] + Given(rs[1..], names, specs, NowResolved(at, t, n))
  {
    hide Answer, NowResolved, AtInRange;
  }

  lemma Associative(a: seq<Option<bool>>, b: seq<Option<bool>>, c: seq<Option<bool>>)
    ensures a + (b + c) == (a + b) + c
  {
  }

  /** Configurations and queries in any order, on any number of tags, up to the first query without
      an answer. */
  method RunRequests(logger: Logger, tags: seq<LogTag>, rs: seq<Request>, ghost at: seq<nat>)
    returns (answers: seq<Option<bool>>)
    requires logger.Valid() && logger.specs != []
    requires InRange(rs, |tags|)
    requires forall i, j :: 0 <= i < j < |tags| ==> tags[i] != tags[j]
    requires AllValid(tags, logger.specs) && AllAt(tags, at)
    modifies logger, tags
    ensures AtInRange(at, |old(logger.specs)|)
    ensures answers == Given(rs, Names(tags), old(logger.specs), at)
    ensures NoWrap(rs, |old(logger.specs)|, at) ==> answers == Expected(rs, Names(tags), old(logger.gTagSpec))
  {
    hide Answer, Given, Expected, NoWrap, Wrapped, AllValid, AllAt, AtInRange, InRange, NowResolved;
    ghost var names, now, rest := Names(tags), at, rs;
    ResolvedInRange(tags, logger.specs, at);
    ghost var all := Given(rs, names, logger.specs, at);
    if NoWrap(rs, |logger.specs|, at) {
      GivenIsExpected(rs, names, logger.specs, at);
    }
    answers := [];
    var k := 0;
    while k < |rs|
      invariant 0 <= k <= |rs| && rest == rs[k..] && logger.Valid() && logger.specs != [] && InRange(rest, |tags|)
      invariant AllValid(tags, logger.specs) && AllAt(tags, now) && |now| == |tags| && AtInRange(now, |logger.specs|)
      invariant all == answers + Given(rest, names, logger.specs, now)
    {
      FirstRequest(rs, k);
      match rs[k] {
        case Configure(s) =>
          ConfigureStep(rest, names, logger.specs, now);
          ConfiguredOnceMore(tags, logger.specs, s, now);
          logger.Configure(s);
        case Query(t) =>
          QueryStep(rest, names, logger.specs, now);
          var a := Ask(logger, tags, t, now);
          if a.None? {
            answers := answers + [a];
            return;
          }
          now := NowResolved(now, t, |logger.specs|);
          Associative(answers, [a], Given(rest[1..], names, logger.specs, now));
          answers := answers + [a];
      }
      k, rest := k + 1, rest[1..];
    }
    NoRequests(names, logger.specs, now);
  }

  // ---------------------------------------------------------------- a wrong answer

  lemma FooAnswers()
    ensures Answer("foo+", "foo") == Some(true) && Answer("foo-", "foo") == Some(false)
  {
    assert "foo+"[..3] == "foo" && "foo-"[..3] == "foo" && "foo+"[4..] == "" && "foo-"[4..] == "";
    SignIs("foo+", 3);
    SignIs("foo-", 3);
    SignIs("", 0);
    assert Entries("foo+") == [Entry("foo", true)] && Entries("foo-") == [Entry("foo", false)];
    LastMatchWins([Entry("foo", true)], "foo", 0);
    LastMatchWins([Entry("foo", false)], "foo", 0);
  }

  /** A run that ends with a wrong answer: the tag `foo` is resolved while it is enabled, and 2^32
      configurations later, in all of which it is disabled, it is still reported as enabled. */
  method StaleRun() returns (logger: Logger, tag: LogTag, answer: Option<bool>)
    ensures fresh(logger) && fresh(tag) && logger.Valid() && tag.Valid(logger.specs)
    ensures |logger.specs| == 0x1_0000_0001 && tag.Stale(logger.specs)
    ensures logger.gTagSpec == "foo-" && tag.str == "foo"
    ensures answer == Some(true) && Answer(logger.gTagSpec, tag.str) == Some(false)
  {
    hide Answer;
    FooAnswers();
    logger := new Logger();
    tag := new LogTag("foo");
    logger.Configure("foo+");
    answer := logger.TagEnabled(tag);
    for i := 0 to CONFIG_IDS
      invariant logger.Valid() && |logger.specs| == i + 1 && logger.specs[0] == "foo+"
      invariant i > 0 ==> logger.gTagSpec == "foo-"
      invariant tag.isEnabled == Checker.TagEnabled && tag.resolvedAt == 1 && tag.curConfigId == 1
    {
      logger.Configure("foo-");
    }
    WrappedIsStale(tag, logger.specs);
    answer := logger.TagEnabled(tag);
  }
}
