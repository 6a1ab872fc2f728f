/** Backend profiles: `<driver>:<key>=<value>,<key>=<value>,...`. */
module Profile {
  import opened Wrappers

  const NUL: char := '\0'
  const MAX_ARGS := 32
  const SCRATCHPAD_SIZE := 1024

  datatype Arg = Arg(key: string, value: string)
  datatype Profile = Profile(driver: string, args: seq<Arg>)

  // ---------------------------------------------------------------- what parsing means

  /** The position of the first `c`, or the length. */
  function Find(s: string, c: char): (i: nat)
    ensures i <= |s| && c !in s[..i] && (i < |s| ==> s[i] == c)
  {
    if s == "" || s[0] == c then 0 else 1 + Find(s[1..], c)
  }

  lemma NotBefore(s: string, c: char, i: nat)
    requires i <= |s| && c !in s[..i]
    ensures forall j :: 0 <= j < i ==> s[j] != c
  {
    forall j | 0 <= j < i
      ensures s[j] != c
    {
      assert s[..i][j] in s[..i];
    }
  }

  /** A string with `c` at a position, and not before, is cut there. */
  lemma FindIs(s: string, c: char, i: nat)
    requires i <= |s| && c !in s[..i] && (i < |s| ==> s[i] == c)
    ensures Find(s, c) == i
  {
    NotBefore(s, c, i);
    NotBefore(s, c, Find(s, c));
  }

  function CutArg(s: string): Arg
  {
    var i := Find(s, '=');
    Arg(s[..i], if i < |s| then s[i + 1..] else "")
  }

  function CutArgs(s: string): seq<Arg>
    decreases |s|
  {
    if s == "" then []
    else
      var i := Find(s, ',');
      [CutArg(s[..i])] + CutArgs(if i < |s| then s[i + 1..] else "")
  }

  /** Arguments behind the first colon if there is one. */
  function ArgsOf(s: string): seq<Arg>
  {
    var i := Find(s, ':');
    if i < |s| then CutArgs(s[i + 1..]) else []
  }

  function Parse(s: string): Option<Profile>
  {
    if |s| > SCRATCHPAD_SIZE - 1 || |ArgsOf(s)| > MAX_ARGS then None
    else Some(Profile(s[..Find(s, ':')], ArgsOf(s)))
  }

  // ---------------------------------------------------------------- round trip

  predicate ArgPrintable(a: Arg)
  {
    ',' !in a.key && '=' !in a.key && ',' !in a.value
  }

  predicate Printable(p: Profile)
  {
    ':' !in p.driver && forall i :: 0 <= i < |p.args| ==> ArgPrintable(p.args[i])
  }

  function PrintArgs(args: seq<Arg>): string
  {
    if args == [] then ""
    else args[0].key + "=" + args[0].value + (if |args| == 1 then "" else "," + PrintArgs(args[1..]))
  }

  function Print(p: Profile): string
  {
    p.driver + ":" + PrintArgs(p.args)
  }

  lemma ArgRoundTrip(a: Arg)
    requires '=' !in a.key
    ensures CutArg(a.key + "=" + a.value) == a
  {
    var s := a.key + "=" + a.value;
    assert s[..|a.key|] == a.key && s[|a.key|] == '=' && s[|a.key| + 1..] == a.value;
    FindIs(s, '=', |a.key|);
  }

  /** The first argument ends at the first comma. */
  lemma CutFirst(first: string, more: string)
    requires ',' !in first
    ensures first != "" ==> CutArgs(first) == [CutArg(first)]
    ensures CutArgs(first + "," + more) == [CutArg(first)] + CutArgs(more)
  {
    hide CutArg, Find;
    FindIs(first, ',', |first|);
    assert first[..|first|] == first;
    var s := first + "," + more;
    assert s[..|first|] == first && s[|first|] == ',' && s[|first| + 1..] == more;
    FindIs(s, ',', |first|);
  }

  lemma CutNothing()
    ensures CutArgs("") == []
  {
  }

  lemma {:induction false} ArgsRoundTrip(args: seq<Arg>)
    requires Printable(Profile("", args))
    ensures CutArgs(PrintArgs(args)) == args
  {
    hide CutArg, Find, CutArgs;
    if args == [] {
      CutNothing();
    } else {
      var first := args[0].key + "=" + args[0].value;
      ArgRoundTrip(args[0]);
      if |args| > 1 {
        assert Printable(Profile("", args[1..]));
        CutFirst(first, PrintArgs(args[1..]));
        ArgsRoundTrip(args[1..]);
        assert PrintArgs(args) == first + "," + PrintArgs(args[1..]);
      } else {
        CutFirst(first, "");
        assert PrintArgs(args) == first;
      }
    }
  }

  lemma ArgIsPrintable(s: string)
    requires ',' !in s
    ensures ArgPrintable(CutArg(s))
  {
    hide Find;
    var a := CutArg(s);
    assert forall c :: c in a.key || c in a.value ==> c in s;
  }

  /** Parsing yields printable profiles only. */
  lemma {:induction false} CutIsPrintable(s: string)
    ensures Printable(Profile("", CutArgs(s)))
    decreases |s|
  {
    hide Find, ArgPrintable, CutArg;
    if s != "" {
      var i := Find(s, ',');
      var rest := if i < |s| then s[i + 1..] else "";
      CutIsPrintable(rest);
      ArgIsPrintable(s[..i]);
      assert CutArgs(s) == [CutArg(s[..i])] + CutArgs(rest);
    }
  }

  lemma ParsedIsPrintable(s: string)
    requires Parse(s).Some?
    ensures Printable(Parse(s).value)
  {
    hide Find, CutArgs;
    var i := Find(s, ':');
    if i < |s| {
      CutIsPrintable(s[i + 1..]);
    }
  }

  /** A printed profile is parsed back if it is short enough and has few enough arguments, and
      otherwise it is refused. */
  lemma PrintableRoundTrip(p: Profile)
    requires Printable(p)
    ensures Parse(Print(p)) == if |Print(p)| <= 1023 && |p.args| <= 32 then Some(p) else None
  {
    hide Find, CutArgs, PrintArgs;
    var s := Print(p);
    assert s[..|p.driver|] == p.driver && s[|p.driver|] == ':' && s[|p.driver| + 1..] == PrintArgs(p.args);
    FindIs(s, ':', |p.driver|);
    ArgsRoundTrip(p.args);
  }

  /** The profiles that survive printing and parsing are exactly the printable ones that are short
      enough and have few enough arguments. */
  lemma RoundTrip(p: Profile)
    ensures Parse(Print(p)) == Some(p) <==> Printable(p) && |Print(p)| <= 1023 && |p.args| <= 32
  {
    hide Parse, Print, Printable;
    if Parse(Print(p)) == Some(p) {
      ParsedIsPrintable(Print(p));
    }
    if Printable(p) {
      PrintableRoundTrip(p);
    }
  }

  // ---------------------------------------------------------------- what strings mean

  /** An argument is written as a key alone, whose value is then empty, or as key, equals sign and value. */
  predicate Writes(seg: string, a: Arg)
  {
    '=' !in a.key && ((seg == a.key && a.value == "") || seg == a.key + "=" + a.value)
  }

  lemma ArgIsWritten(seg: string, a: Arg)
    requires Writes(seg, a)
    ensures CutArg(seg) == a
  {
    FindIs(seg, '=', |a.key|);
  }

  /** Segments, each followed by a comma; the last comma may be left out. */
  function Joined(segs: seq<string>): string
  {
    if segs == [] then "" else segs[0] + "," + Joined(segs[1..])
  }

  function Written(segs: seq<string>, lastComma: bool): string
  {
    if segs == [] || lastComma then Joined(segs) else Joined(segs[..|segs| - 1]) + segs[|segs| - 1]
  }

  ghost predicate AllWrite(segs: seq<string>, args: seq<Arg>)
  {
    |segs| == |args| && forall i :: 0 <= i < |segs| ==> ',' !in segs[i] && Writes(segs[i], args[i])
  }

  lemma FirstOfMany(segs: seq<string>, lastComma: bool)
    requires |segs| > 1 || (|segs| == 1 && lastComma)
    ensures Written(segs, lastComma) == segs[0] + "," + Written(segs[1..], lastComma)
  {
    if !lastComma {
      var k := |segs| - 1;
      assert segs[..k][0] == segs[0] && segs[..k][1..] == segs[1..][..k - 1] && segs[1..][k - 1] == segs[k];
    }
  }

  lemma OneSegment(seg: string, a: Arg)
    requires ',' !in seg && Writes(seg, a)
    ensures AllWrite([seg], [a]) && Written([seg], false) == seg
  {
    hide Writes;
    assert [seg][..0] == [] && Joined([]) == "";
  }

  lemma NoSegments()
    ensures AllWrite([], []) && Written([], false) == "" == Written([], true)
  {
  }

  /** Without its last comma the last segment must not be empty, or there would be no telling. */
  lemma {:induction false} ArgsAreWritten(segs: seq<string>, args: seq<Arg>, lastComma: bool)
    requires AllWrite(segs, args)
    requires segs != [] && !lastComma ==> segs[|segs| - 1] != ""
    ensures CutArgs(Written(segs, lastComma)) == args
  {
    hide Find, CutArg, CutArgs, Writes, Joined;
    if segs == [] {
      CutNothing();
      NoSegments();
    } else {
      ArgIsWritten(segs[0], args[0]);
      if |segs| == 1 && !lastComma {
        OneSegment(segs[0], args[0]);
        CutFirst(segs[0], "");
        assert segs == [segs[0]] && args == [args[0]];
      } else {
        hide Written;
        FirstOfMany(segs, lastComma);
        CutFirst(segs[0], Written(segs[1..], lastComma));
        ArgsAreWritten(segs[1..], args[1..], lastComma);
        assert args == [args[0]] + args[1..];
      }
    }
  }

  /** A string without a colon names a driver. */
  lemma DriverAlone(s: string)
    requires ':' !in s
    ensures Parse(s) == if |s| <= 1023 then Some(Profile(s, [])) else None
  {
    FindIs(s, ':', |s|);
    assert s[..|s|] == s;
  }

  /** A string with a colon names a driver and gives it arguments; it is accepted if and only if it has
      at most 1023 characters and 32 arguments. */
  lemma DriverWithArgs(driver: string, segs: seq<string>, args: seq<Arg>, lastComma: bool)
    requires ':' !in driver && AllWrite(segs, args)
    requires segs != [] && !lastComma ==> segs[|segs| - 1] != ""
    ensures var s := driver + ":" + Written(segs, lastComma);
            Parse(s) == if |s| <= 1023 && |args| <= 32 then Some(Profile(driver, args)) else None
  {
    hide Find, CutArgs, Written;
    var tail := Written(segs, lastComma);
    var s := driver + ":" + tail;
    FindIs(s, ':', |driver|);
    assert s[..|driver|] == driver && s[|driver| + 1..] == tail;
    ArgsAreWritten(segs, args, lastComma);
  }

  lemma OneSegmentMore(seg: string, a: Arg, segs: seq<string>, args: seq<Arg>, lastComma: bool)
    requires ',' !in seg && Writes(seg, a) && AllWrite(segs, args) && (segs == [] ==> lastComma)
    ensures AllWrite([seg] + segs, [a] + args)
    ensures Written([seg] + segs, lastComma) == seg + "," + Written(segs, lastComma)
  {
    hide Writes, Joined, Written;
    assert ([seg] + segs)[1..] == segs && ([seg] + segs)[0] == seg;
    FirstOfMany([seg] + segs, lastComma);
  }

  lemma EveryArg(seg: string) returns (a: Arg)
    ensures Writes(seg, a)
  {
    var i := Find(seg, '=');
    if i < |seg| {
      a := Arg(seg[..i], seg[i + 1..]);
      assert seg == seg[..i] + "=" + seg[i + 1..];
    } else {
      a := Arg(seg, "");
      assert seg[..i] == seg;
    }
  }

  lemma {:induction false} EveryTail(t: string) returns (segs: seq<string>, args: seq<Arg>, lastComma: bool)
    ensures AllWrite(segs, args) && (segs != [] && !lastComma ==> segs[|segs| - 1] != "")
    ensures t == Written(segs, lastComma)
    ensures segs == [] <==> t == ""
    decreases |t|
  {
    hide Find, Writes, Written, AllWrite;
    if t == "" {
      NoSegments();
      segs, args, lastComma := [], [], false;
    } else {
      var i := Find(t, ',');
      var a := EveryArg(t[..i]);
      if i == |t| {
        OneSegment(t[..i], a);
        segs, args, lastComma := [t[..i]], [a], false;
      } else {
        segs, args, lastComma := EveryTail(t[i + 1..]);
        if segs == [] {
          NoSegments();
          lastComma := true;
        }
        OneSegmentMore(t[..i], a, segs, args, lastComma);
        assert t == t[..i] + "," + t[i + 1..];
        segs, args := [t[..i]] + segs, [a] + args;
      }
    }
  }

  /** Every string is of one of the two kinds, in one way. */
  lemma EveryString(s: string) returns (driver: string, segs: seq<string>, args: seq<Arg>, lastComma: bool)
    requires ':' in s
    ensures ':' !in driver && AllWrite(segs, args) && (segs != [] && !lastComma ==> segs[|segs| - 1] != "")
    ensures s == driver + ":" + Written(segs, lastComma)
  {
    hide Written, AllWrite;
    var i := Find(s, ':');
    driver := s[..i];
    assert s[..|s|] == s;
    segs, args, lastComma := EveryTail(s[i + 1..]);
    assert s == s[..i] + ":" + s[i + 1..];
  }

  // ---------------------------------------------------------------- parsing in place

  /** At `p` there is a C string `t`, its terminator included, that ends before `limit`. */
  ghost predicate Holds(mem: seq<char>, p: int, t: string, limit: nat)
  {
    && 0 <= p && p + |t| < limit <= |mem|
    && mem[p..p + |t|] == t && mem[p + |t|] == NUL && NUL !in t
  }

  /** A pointer into the scratchpad, or -1 for the empty string constant. */
  ghost predicate Points(mem: seq<char>, p: int, t: string, limit: nat)
  {
    if p == -1 then t == "" else Holds(mem, p, t, limit)
  }

  /** The keys and values parsed so far are `args`. */
  ghost predicate Stored(mem: seq<char>, keys: seq<int>, values: seq<int>, args: seq<Arg>, limit: nat)
  {
    && |args| <= |keys| && |args| <= |values|
    && forall i :: 0 <= i < |args| ==>
         Holds(mem, keys[i], args[i].key, limit) && Points(mem, values[i], args[i].value, limit)
  }

  lemma HoldsStays(mem: seq<char>, mem': seq<char>, p: int, t: string, limit: nat, limit': nat)
    requires Holds(mem, p, t, limit)
    requires |mem'| == |mem| && limit <= limit' <= |mem| && mem[..limit] == mem'[..limit]
    ensures Holds(mem', p, t, limit')
  {
    assert mem'[p..p + |t|] == mem[..limit][p..p + |t|];
    assert mem'[p + |t|] == mem'[..limit][p + |t|];
  }

  /** Strings are not disturbed by writes behind them. */
  lemma StoredStays(mem: seq<char>, mem': seq<char>, keys: seq<int>, values: seq<int>, args: seq<Arg>, limit: nat,
                    limit': nat)
    requires Stored(mem, keys, values, args, limit)
    requires |mem'| == |mem| && limit <= limit' <= |mem| && mem[..limit] == mem'[..limit]
    ensures Stored(mem', keys, values, args, limit')
  {
    forall i | 0 <= i < |args|
      ensures Holds(mem', keys[i], args[i].key, limit') && Points(mem', values[i], args[i].value, limit')
    {
      HoldsStays(mem, mem', keys[i], args[i].key, limit, limit');
      if values[i] != -1 {
        HoldsStays(mem, mem', values[i], args[i].value, limit, limit');
      }
    }
  }

  lemma StoredWidens(mem: seq<char>, keys: seq<int>, values: seq<int>, args: seq<Arg>, limit: nat, limit': nat)
    requires Stored(mem, keys, values, args, limit) && limit <= limit' <= |mem|
    ensures Stored(mem, keys, values, args, limit')
  {
    StoredStays(mem, mem, keys, values, args, limit, limit');
  }

  lemma HoldsAt(mem: seq<char>, p: int, t: string, limit: nat)
    requires Holds(mem, p, t, limit)
    ensures forall k :: 0 <= k < |t| ==> mem[p + k] == t[k] && t[k] != NUL
    ensures mem[p] == NUL <==> t == ""
  {
    assert |t| > 0 ==> mem[p..p + |t|][0] == t[0] && t[0] in t;
    forall k | 0 <= k < |t|
      ensures mem[p + k] == t[k] && t[k] != NUL
    {
      assert mem[p..p + |t|][k] == t[k] && t[k] in t;
    }
  }

  // ---------------------------------------------------------------- steps of the parser

  lemma NothingStored(mem: seq<char>, keys: seq<int>, values: seq<int>)
    ensures Stored(mem, keys, values, [], 0) && Stored(mem, keys, values, [], SCRATCHPAD_SIZE)
  {
  }

  lemma CutHolds(mem: seq<char>, p: int, t: string, i: nat, limit: nat)
    requires Holds(mem, p, t, limit) && i <= |t|
    ensures var mem' := if i < |t| then mem[p + i := NUL] else mem;
            && Holds(mem', p, t[..i], p + i + 1)
            && (i < |t| ==> Holds(mem', p + i + 1, t[i + 1..], limit))
  {
    var mem' := if i < |t| then mem[p + i := NUL] else mem;
    assert mem'[p..p + i] == mem[p..p + |t|][..i];
    if i < |t| {
      assert mem'[p + i + 1..p + |t|] == mem[p..p + |t|][i + 1..];
    }
  }

  lemma CutsKeep(mem: seq<char>, mem1: seq<char>, mem2: seq<char>, cur: nat, rest: string, i: nat, q: nat)
    requires cur + |rest| < |mem| && q <= i <= |rest|
    requires mem1 == if i < |rest| then mem[cur + i := NUL] else mem
    requires mem2 == if q < i then mem1[cur + q := NUL] else mem1
    ensures |mem2| == |mem| && mem[..cur] == mem2[..cur] && mem1[cur + i..] == mem2[cur + i..]
    ensures i < |rest| ==> mem1[cur + i + 1..] == mem2[cur + i + 1..]
  {
  }

  /** After the second cut, key and value of the argument are where the pointers lead. */
  lemma ArgPoints(mem: seq<char>, cur: nat, seg: string, limit: nat, value: int)
    requires var q := Find(seg, '=');
             && Holds(mem, cur, seg[..q], cur + q + 1)
             && value == (if q < |seg| then cur + q + 1 else -1)
             && (value != -1 ==> Holds(mem, value, seg[q + 1..], limit))
    requires cur + |seg| < limit <= |mem|
    ensures Holds(mem, cur, CutArg(seg).key, limit) && Points(mem, value, CutArg(seg).value, limit)
  {
    hide Find, Holds;
    var q := Find(seg, '=');
    HoldsStays(mem, mem, cur, seg[..q], cur + q + 1, limit);
  }

  lemma HoldsBounds(mem: seq<char>, p: int, t: string, limit: nat)
    requires Holds(mem, p, t, limit)
    ensures 0 <= p && p + |t| < limit <= |mem|
  {
  }

  /** A string behind a change is not disturbed. */
  lemma HoldsShifted(mem: seq<char>, mem': seq<char>, p: int, t: string, limit: nat)
    requires Holds(mem, p, t, limit) && |mem'| == |mem| && 0 <= p <= |mem| && mem'[p..] == mem[p..]
    ensures Holds(mem', p, t, limit)
  {
    assert mem'[p..p + |t|] == mem'[p..][..|t|];
    assert mem[p..p + |t|] == mem[p..][..|t|];
    assert mem'[p + |t|] == mem'[p..][|t|];
  }

  lemma ArgStored(mem: seq<char>, mem2: seq<char>, keys: seq<int>, values: seq<int>, done: seq<Arg>, a: Arg, key: int,
                  value: int, limit: nat, limit2: nat)
    requires Stored(mem, keys, values, done, limit) && |done| < |keys| && |done| < |values|
    requires |mem2| == |mem| && limit <= limit2 <= |mem| && mem[..limit] == mem2[..limit]
    requires Holds(mem2, key, a.key, limit2) && Points(mem2, value, a.value, limit2)
    ensures Stored(mem2, keys[|done| := key], values[|done| := value], done + [a], limit2)
  {
    hide Holds, Points;
    StoredStays(mem, mem2, keys, values, done, limit, limit2);
  }

  lemma HoldsNotEmpty(mem: seq<char>, p: int, t: string)
    requires Holds(mem, p, t, SCRATCHPAD_SIZE) && mem[p] != NUL
    ensures t != ""
  {
  }

  lemma HoldsEmpty(mem: seq<char>, p: int, t: string)
    requires Holds(mem, p, t, SCRATCHPAD_SIZE) && mem[p] == NUL
    ensures t == "" && CutArgs(t) == []
  {
    HoldsAt(mem, p, t, SCRATCHPAD_SIZE);
  }

  lemma OneArgMore(rest: string)
    requires rest != ""
    ensures var i := Find(rest, ',');
            CutArgs(rest) == [CutArg(rest[..i])] + CutArgs(if i < |rest| then rest[i + 1..] else "")
    ensures CutArgs("") == []
  {
  }

  // ---------------------------------------------------------------- the parser

  class BackendProfile {
    var driverName: nat
    var numArg: nat
    const argKeys: array<int>
    const argValues: array<int>
    const privateScratchpad: array<char>

    constructor ()
      ensures Shaped() && fresh(argKeys) && fresh(argValues) && fresh(privateScratchpad)
    {
      argKeys, argValues := new int[MAX_ARGS], new int[MAX_ARGS];
      privateScratchpad := new char[SCRATCHPAD_SIZE];
      driverName, numArg := 0, 0;
    }

    ghost predicate Shaped()
    {
      && argKeys.Length == argValues.Length == MAX_ARGS && argKeys != argValues
      && privateScratchpad.Length == SCRATCHPAD_SIZE
    }

    /** The object's pointers lead to the strings of profile `p`. */
    ghost predicate Represents(p: Profile)
      reads this, argKeys, argValues, privateScratchpad
    {
      && Shaped()
      && Holds(privateScratchpad[..], driverName, p.driver, SCRATCHPAD_SIZE)
      && numArg == |p.args|
      && Stored(privateScratchpad[..], argKeys[..], argValues[..], p.args, SCRATCHPAD_SIZE)
    }

    /** strchr(); -1 stands for the null pointer. */
    method StrChr(p: nat, c: char, ghost t: string) returns (r: int)
      requires Holds(privateScratchpad[..], p, t, privateScratchpad.Length) && c != NUL
      ensures r == if Find(t, c) < |t| then p + Find(t, c) else -1
    {
      ghost var mem := privateScratchpad[..];
      HoldsAt(mem, p, t, privateScratchpad.Length);
      var i := p;
      while privateScratchpad[i] != NUL
        invariant p <= i <= p + |t| && c !in t[..i - p]
        invariant privateScratchpad[..] == mem
        decreases p + |t| - i
      {
        if privateScratchpad[i] == c {
          FindIs(t, c, i - p);
          return i;
        }
        i := i + 1;
      }
      assert t[..i - p] == t;
      FindIs(t, c, |t|);
      return -1;
    }

    /** The string at `p` is cut at the first `c`, if there is one; the result points behind it. */
    method CutAt(p: nat, c: char, ghost t: string, ghost limit: nat) returns (next: int)
      requires Holds(privateScratchpad[..], p, t, limit) && c != NUL
      modifies privateScratchpad
      ensures var i := Find(t, c);
              && Holds(privateScratchpad[..], p, t[..i], p + i + 1)
              && next == (if i < |t| then p + i + 1 else -1)
              && (next != -1 ==> Holds(privateScratchpad[..], next, t[i + 1..], limit))
              && privateScratchpad[..]
                 == if i < |t| then old(privateScratchpad[..])[p + i := NUL] else old(privateScratchpad[..])
    {
      hide Find;
      ghost var mem := privateScratchpad[..];
      CutHolds(mem, p, t, Find(t, c), limit);
      HoldsStays(mem, mem, p, t, limit, |mem|);
      next := StrChr(p, c, t);
      if next != -1 {
        privateScratchpad[next] := NUL;
        next := next + 1;
      }
    }

    /** The first argument of the string at `cur` is cut off and into key and value. */
    method CutOut(cur: nat, ghost rest: string) returns (next: int, value: int)
      requires Holds(privateScratchpad[..], cur, rest, SCRATCHPAD_SIZE)
      modifies privateScratchpad
      ensures var i := Find(rest, ',');
              var a := CutArg(rest[..i]);
              && Holds(privateScratchpad[..], cur, a.key, cur + i + 1)
              && Points(privateScratchpad[..], value, a.value, cur + i + 1)
              && (next == if i < |rest| then cur + i + 1 else -1)
              && (next != -1 ==> Holds(privateScratchpad[..], next, rest[i + 1..], SCRATCHPAD_SIZE))
              && cur + i < SCRATCHPAD_SIZE <= privateScratchpad.Length
      ensures privateScratchpad[..cur] == old(privateScratchpad[..cur])
    {
      hide Find, Holds, Points, CutArg;
      ghost var mem, i := privateScratchpad[..], Find(rest, ',');
      HoldsBounds(mem, cur, rest, SCRATCHPAD_SIZE);
      ghost var seg := rest[..i];
      next := CutAt(cur, ',', rest, SCRATCHPAD_SIZE);
      ghost var mem1 := privateScratchpad[..];
      value := CutAt(cur, '=', seg, cur + i + 1);
      ghost var mem2 := privateScratchpad[..];
      CutsKeep(mem, mem1, mem2, cur, rest, i, Find(seg, '='));
      ArgPoints(mem2, cur, seg, cur + i + 1, value);
      if next != -1 {
        HoldsShifted(mem1, mem2, next, rest[i + 1..], SCRATCHPAD_SIZE);
      }
    }

    /** One argument is cut off in place; `rest` is the string at `cur`. */
    method TakeArg(cur: nat, ghost rest: string, ghost done: seq<Arg>) returns (next: int)
      requires Shaped() && rest != "" && numArg == |done| < MAX_ARGS
      requires Holds(privateScratchpad[..], cur, rest, SCRATCHPAD_SIZE)
      requires Stored(privateScratchpad[..], argKeys[..], argValues[..], done, cur)
      modifies this`numArg, argKeys, argValues, privateScratchpad
      ensures var i := Find(rest, ',');
              && numArg == |done| + 1
              && Stored(privateScratchpad[..], argKeys[..], argValues[..], done + [CutArg(rest[..i])], cur + i + 1)
              && (next == if i < |rest| then cur + i + 1 else -1)
              && (next != -1 ==> Holds(privateScratchpad[..], next, rest[i + 1..], SCRATCHPAD_SIZE))
      ensures privateScratchpad[..cur] == old(privateScratchpad[..cur])
    {
      hide Find, Stored, Holds, Points, CutArg;
      ghost var mem, keys, values := privateScratchpad[..], argKeys[..], argValues[..];
      ghost var i := Find(rest, ',');
      HoldsBounds(mem, cur, rest, SCRATCHPAD_SIZE);
      var value;
      next, value := CutOut(cur, rest);
      argKeys[numArg] := cur;
      argValues[numArg] := value;
      assert argKeys[..] == keys[numArg := cur] && argValues[..] == values[numArg := value];
      ArgStored(mem, privateScratchpad[..], keys, values, done, CutArg(rest[..i]), cur, value, cur, cur + i + 1);
      numArg := numArg + 1;
    }

    /** txvc_backend_profile_parse() */
    method ParseInPlace(profileStr: string) returns (ok: bool)
      requires Shaped() && NUL !in profileStr
      modifies this, argKeys, argValues, privateScratchpad
      ensures match Parse(profileStr)
              case None => !ok
              case Some(p) => ok && Represents(p)
    {
      hide Find, CutArg, Stored, CutArgs, Holds;
      var len := |profileStr|;
      if len > privateScratchpad.Length - 1 {
        return false;
      }
      CopyIn(profileStr);
      driverName, numArg := 0, 0;
      ghost var colon := Find(profileStr, ':');
      var cur := CutAt(0, ':', profileStr, SCRATCHPAD_SIZE);
      label Cut:
      NothingStored(privateScratchpad[..], argKeys[..], argValues[..]);
      HoldsStays(privateScratchpad[..], privateScratchpad[..], 0, profileStr[..colon], colon + 1, SCRATCHPAD_SIZE);
      if cur != -1 {
        ok := ParseArgs(cur, profileStr[colon + 1..]);
        HoldsStays(old@Cut(privateScratchpad[..]), privateScratchpad[..], 0, profileStr[..colon], colon + 1,
                   SCRATCHPAD_SIZE);
        return;
      }
      return true;
    }

    /** The loop over the arguments; `s` is the string at `start`. */
    method ParseArgs(start: nat, ghost s: string) returns (ok: bool)
      requires Shaped() && numArg == 0
      requires Holds(privateScratchpad[..], start, s, SCRATCHPAD_SIZE)
      modifies this`numArg, argKeys, argValues, privateScratchpad
      ensures ok <==> |CutArgs(s)| <= MAX_ARGS
      ensures ok ==> numArg == |CutArgs(s)|
      ensures ok ==> Stored(privateScratchpad[..], argKeys[..], argValues[..], CutArgs(s), SCRATCHPAD_SIZE)
      ensures privateScratchpad[..start] == old(privateScratchpad[..start])
    {
      hide Find, CutArg, Stored, CutArgs, Holds;
      var cur: int := start;
      ghost var rest, done: seq<Arg> := s, [];
      NothingStored(privateScratchpad[..], argKeys[..], argValues[..]);
      HoldsBounds(privateScratchpad[..], start, s, SCRATCHPAD_SIZE);
      StoredWidens(privateScratchpad[..], argKeys[..], argValues[..], done, 0, start);
      CutNothing();
      while cur != -1 && privateScratchpad[cur] != NUL
        invariant numArg == |done| <= MAX_ARGS
        invariant cur == -1 || start <= cur < SCRATCHPAD_SIZE
        invariant Stored(privateScratchpad[..], argKeys[..], argValues[..], done,
                         if cur == -1 then SCRATCHPAD_SIZE else cur)
        invariant cur != -1 ==> Holds(privateScratchpad[..], cur, rest, SCRATCHPAD_SIZE)
        invariant CutArgs(s) == done + CutArgs(if cur == -1 then "" else rest)
        invariant privateScratchpad[..start] == old(privateScratchpad[..start])
        decreases if cur == -1 then 0 else SCRATCHPAD_SIZE - cur
      {
        HoldsNotEmpty(privateScratchpad[..], cur, rest);
        HoldsBounds(privateScratchpad[..], cur, rest, SCRATCHPAD_SIZE);
        OneArgMore(rest);
        if numArg >= argKeys.Length {
          return false;
        }
        ghost var i, arg := Find(rest, ','), cur;
        ghost var before := privateScratchpad[..cur];
        cur := TakeArg(cur, rest, done);
        assert privateScratchpad[..start] == privateScratchpad[..arg][..start] == before[..start];
        done := done + [CutArg(rest[..i])];
        if cur == -1 {
          StoredWidens(privateScratchpad[..], argKeys[..], argValues[..], done, arg + i + 1, SCRATCHPAD_SIZE);
        } else {
          rest := rest[i + 1..];
          HoldsBounds(privateScratchpad[..], cur, rest, SCRATCHPAD_SIZE);
        }
      }
      if cur != -1 {
        HoldsEmpty(privateScratchpad[..], cur, rest);
        StoredWidens(privateScratchpad[..], argKeys[..], argValues[..], done, cur, SCRATCHPAD_SIZE);
      }
      assert CutArgs(s) == done + [] == done;
      return true;
    }

    method CopyIn(profileStr: string)
      requires Shaped() && NUL !in profileStr && |profileStr| < SCRATCHPAD_SIZE
      modifies privateScratchpad
      ensures Holds(privateScratchpad[..], 0, profileStr, SCRATCHPAD_SIZE)
    {
      forall i | 0 <= i < |profileStr| {
        privateScratchpad[i] := profileStr[i];
      }
      privateScratchpad[|profileStr|] := NUL;
      assert privateScratchpad[..][0..|profileStr|] == profileStr;
    }
  }
}
