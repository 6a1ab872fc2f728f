/** The commands of the XVC 1.0 protocol and their encoding as a byte stream. */
module XvcProtocol {
  import opened Octets
  import opened Wrappers

  datatype Command =
    | GetInfo
    | SetTck(periodNs: nat)
    | Shift(numBits: nat, tms: seq<byte>, tdi: seq<byte>)

  /** A command and the bytes that follow it. */
  datatype Parsed = Parsed(command: Command, rest: seq<byte>)

  const GETINFO: seq<byte> := [0x67, 0x65, 0x74, 0x69, 0x6e, 0x66, 0x6f, 0x3a]  // getinfo:
  const SETTCK: seq<byte> := [0x73, 0x65, 0x74, 0x74, 0x63, 0x6b, 0x3a]         // settck:
  const SHIFT: seq<byte> := [0x73, 0x68, 0x69, 0x66, 0x74, 0x3a]                // shift:

  function VectorBytes(numBits: nat): nat
  {
    numBits / 8 + (if numBits % 8 != 0 then 1 else 0)
  }

  predicate WellFormed(c: Command)
  {
    match c
    case GetInfo => true
    case SetTck(t) => t < 0x8000_0000
    case Shift(n, tms, tdi) => 0 < n < 0x8000_0000 && |tms| == |tdi| == VectorBytes(n)
  }

  function ToLe32(v: nat): (r: seq<byte>)
    requires v < 0x1_0000_0000
    ensures |r| == 4
  {
    [v % 256, v / 256 % 256, v / 65536 % 256, v / 16777216]
  }

  /** Four bytes as a C int: the top bit is the sign. */
  function FromLe32(b: seq<byte>): int
    requires |b| == 4
  {
    var v := b[0] as int + 256 * b[1] as int + 65536 * b[2] as int + 16777216 * b[3] as int;
    if v < 0x8000_0000 then v else v - 0x1_0000_0000
  }

  lemma Le32RoundTrip(v: nat)
    requires v < 0x8000_0000
    ensures FromLe32(ToLe32(v)) == v
  {
    var a := v / 256;
    var b := a / 256;
    var c := b / 256;
    assert v / 65536 == b && v / 16777216 == c;
    assert v == v % 256 + 256 * (a % 256) + 65536 * (b % 256) + 16777216 * c;
  }

  lemma Le32Unique(b: seq<byte>)
    requires |b| == 4 && FromLe32(b) >= 0
    ensures FromLe32(b) < 0x8000_0000 && ToLe32(FromLe32(b)) == b
  {
    var b0, b1, b2, b3 := b[0] as int, b[1] as int, b[2] as int, b[3] as int;
    var v := FromLe32(b);
    assert v / 256 == b1 + 256 * b2 + 65536 * b3;
    assert v / 65536 == b2 + 256 * b3;
    assert v / 16777216 == b3;
  }

  function Encode(c: Command): seq<byte>
    requires WellFormed(c)
  {
    match c
    case GetInfo => GETINFO
    case SetTck(t) => SETTCK + ToLe32(t)
    case Shift(n, tms, tdi) => SHIFT + ToLe32(n) + tms + tdi
  }

  predicate AllWellFormed(cs: seq<Command>)
  {
    forall i :: 0 <= i < |cs| ==> WellFormed(cs[i])
  }

  function EncodeAll(cs: seq<Command>): seq<byte>
    requires AllWellFormed(cs)
  {
    if cs == [] then [] else Encode(cs[0]) + EncodeAll(cs[1..])
  }

  predicate StartsWith(s: seq<byte>, prefix: seq<byte>)
  {
    |prefix| <= |s| && s[..|prefix|] == prefix
  }

  /** The first command of a stream, if it is complete and well-formed. */
  function Next(s: seq<byte>): Option<Parsed>
  {
    if StartsWith(s, GETINFO) then Some(Parsed(GetInfo, s[8..]))
    else if StartsWith(s, SETTCK) then
      if |s| < 11 || FromLe32(s[7..11]) < 0 then None
      else Some(Parsed(SetTck(FromLe32(s[7..11])), s[11..]))
    else if StartsWith(s, SHIFT) then
      if |s| < 10 || FromLe32(s[6..10]) <= 0 then None
      else
        var n: nat := FromLe32(s[6..10]);
        var m := VectorBytes(n);
        if |s| < 10 + 2 * m then None
        else Some(Parsed(Shift(n, s[10..10 + m], s[10 + m..10 + 2 * m]), s[10 + 2 * m..]))
    else None
  }

  /** What parsing takes off a stream is an encoded command, no more and no less. */
  lemma NextIsEncoded(s: seq<byte>)
    requires Next(s).Some?
    ensures var p := Next(s).value; WellFormed(p.command) && s == Encode(p.command) + p.rest
  {
    hide FromLe32, ToLe32, VectorBytes;
    if StartsWith(s, GETINFO) {
      assert s == GETINFO + s[8..];
    } else if StartsWith(s, SETTCK) {
      Le32Unique(s[7..11]);
      assert s == SETTCK + s[7..11] + s[11..];
    } else {
      Le32Unique(s[6..10]);
      var m := VectorBytes(FromLe32(s[6..10]));
      assert s == SHIFT + s[6..10] + s[10..10 + m] + s[10 + m..10 + 2 * m] + s[10 + 2 * m..];
    }
  }

  lemma Joined(a: seq<byte>, b: seq<byte>)
    ensures (a + b)[..|a|] == a && (a + b)[|a|..] == b
  {
  }

  lemma SliceBehind(prefix: seq<byte>, s: seq<byte>, i: nat, j: nat)
    requires i <= j <= |s|
    ensures (prefix + s)[|prefix| + i..|prefix| + j] == s[i..j]
    ensures (prefix + s)[|prefix| + j..] == s[j..]
  {
  }

  /** The prefix of a command is followed by its arguments; no prefix is mistaken for another. */
  lemma NextAfterPrefix(prefix: seq<byte>, s: seq<byte>)
    requires prefix == GETINFO || prefix == SETTCK || prefix == SHIFT
    ensures Next(prefix + s) ==
      if prefix == GETINFO then Some(Parsed(GetInfo, s))
      else if prefix == SETTCK then
        if |s| < 4 || FromLe32(s[..4]) < 0 then None else Some(Parsed(SetTck(FromLe32(s[..4])), s[4..]))
      else if |s| < 4 || FromLe32(s[..4]) <= 0 then None
      else
        var m := VectorBytes(FromLe32(s[..4]));
        if |s| < 4 + 2 * m then None
        else Some(Parsed(Shift(FromLe32(s[..4]), s[4..4 + m], s[4 + m..4 + 2 * m]), s[4 + 2 * m..]))
  {
    hide FromLe32, VectorBytes;
    var t := prefix + s;
    Joined(prefix, s);
    assert t[0] == prefix[0] && t[1] == prefix[1];
    assert prefix != GETINFO ==> !StartsWith(t, GETINFO);
    assert prefix == SHIFT ==> !StartsWith(t, SETTCK);
    if |s| >= 4 && prefix != GETINFO {
      var n := |prefix|;
      SliceBehind(prefix, s, 0, 4);
      if prefix == SHIFT && FromLe32(s[..4]) > 0 && |s| >= 4 + 2 * VectorBytes(FromLe32(s[..4])) {
        var m := VectorBytes(FromLe32(s[..4]));
        SliceBehind(prefix, s, 4, 4 + m);
        SliceBehind(prefix, s, 4 + m, 4 + 2 * m);
      }
    }
  }

  lemma FourParts(a: seq<byte>, b: seq<byte>, c: seq<byte>, d: seq<byte>)
    ensures var s := a + b + c + d;
            var i, j := |a| + |b|, |a| + |b| + |c|;
            s[..|a|] == a && s[|a|..i] == b && s[i..j] == c && s[j..] == d
  {
  }

  lemma Regroup(p: seq<byte>, a: seq<byte>, b: seq<byte>, c: seq<byte>, d: seq<byte>)
    ensures p + a + b + c + d == p + (a + b + c + d)
  {
  }

  lemma TailSlice(s: seq<byte>, i: nat, m: nat)
    requires i + m <= |s|
    ensures s[i..][..m] == s[i..i + m] && s[i..][m..] == s[i + m..]
  {
  }

  /** An encoded command is parsed back, whatever follows it. */
  lemma EncodedIsNext(c: Command, more: seq<byte>)
    requires WellFormed(c)
    ensures Next(Encode(c) + more) == Some(Parsed(c, more))
  {
    hide FromLe32, ToLe32, VectorBytes, Next;
    match c
    case GetInfo =>
      NextAfterPrefix(GETINFO, more);
    case SetTck(t) =>
      Le32RoundTrip(t);
      Joined(ToLe32(t), more);
      NextAfterPrefix(SETTCK, ToLe32(t) + more);
      assert Encode(c) + more == SETTCK + (ToLe32(t) + more);
    case Shift(n, tms, tdi) =>
      Le32RoundTrip(n);
      var s := ToLe32(n) + tms + tdi + more;
      FourParts(ToLe32(n), tms, tdi, more);
      NextAfterPrefix(SHIFT, s);
      Regroup(SHIFT, ToLe32(n), tms, tdi, more);
  }

  lemma EncodeAllConcat(a: seq<Command>, c: Command)
    requires AllWellFormed(a) && WellFormed(c)
    ensures AllWellFormed(a + [c]) && EncodeAll(a + [c]) == EncodeAll(a) + Encode(c)
  {
    hide Encode, WellFormed;
    if a == [] {
      assert EncodeAll([c]) == Encode(c) + EncodeAll([]);
    } else {
      EncodeAllConcat(a[1..], c);
      assert (a + [c])[1..] == a[1..] + [c];
    }
  }

  lemma NoNext()
    ensures Next([]) == None
  {
  }

  /** Commands taken off a stream of encoded commands are the first of them, in order, and what is
      left is the encoding of the others. */
  lemma {:induction false} TakenAreFirst(cs: seq<Command>, taken: seq<Command>, rest: seq<byte>)
    requires AllWellFormed(cs) && AllWellFormed(taken)
    requires EncodeAll(cs) == EncodeAll(taken) + rest
    ensures |taken| <= |cs| && taken == cs[..|taken|] && rest == EncodeAll(cs[|taken|..])
  {
    hide Encode, WellFormed, Next;
    if taken == [] {
      assert cs[0..] == cs && EncodeAll(taken) + rest == rest;
    } else {
      var s := EncodeAll(cs);
      assert s == Encode(taken[0]) + (EncodeAll(taken[1..]) + rest);
      EncodedIsNext(taken[0], EncodeAll(taken[1..]) + rest);
      if cs == [] {
        NoNext();
      } else {
        EncodedIsNext(cs[0], EncodeAll(cs[1..]));
        TakenAreFirst(cs[1..], taken[1..], rest);
        assert cs[|taken|..] == cs[1..][|taken| - 1..];
        assert taken == [taken[0]] + taken[1..] && cs[..|taken|] == [cs[0]] + cs[1..][..|taken| - 1];
      }
    }
  }

  // ---------------------------------------------------------------- dispatch

  datatype Verdict = Terminated | ClosedByPeer | Interrupted | Failed | NotRecognized

  predicate HasPrefix(s: seq<byte>)
  {
    StartsWith(s, GETINFO) || StartsWith(s, SETTCK) || StartsWith(s, SHIFT)
  }

  /** A look at the first `arrived` bytes shows a whole prefix. */
  predicate ShowsPrefix(s: seq<byte>, arrived: int)
  {
    || (arrived >= |GETINFO| && StartsWith(s, GETINFO))
    || (arrived >= |SETTCK| && StartsWith(s, SETTCK))
    || (arrived >= |SHIFT| && StartsWith(s, SHIFT))
  }

  /** What a connection has come to: the commands served, what is left of the stream, and whether
      it goes on, which is so while the verdict is `Terminated`. */
  datatype Served = Served(cs: seq<Command>, rest: seq<byte>, verdict: Verdict)

  /** One look at the stream, at which `arrived` bytes were at hand, or which has failed if `arrived`
      is negative, and what follows from it if all handlers succeed. */
  function Look(b: Served, arrived: int): Served
  {
    if arrived < 0 then b.(verdict := Interrupted)
    else if arrived == 0 then b.(verdict := ClosedByPeer)
    else if ShowsPrefix(b.rest, arrived) then
      match Next(b.rest)
      case Some(p) => Served(b.cs + [p.command], p.rest, Terminated)
      case None => b.(verdict := Failed)
    else if arrived >= |GETINFO| then b.(verdict := NotRecognized)
    else b
  }

  /** Looks at a stream in turn. */
  function AfterLooks(s: seq<byte>, looks: seq<int>): Served
  {
    if looks == [] then Served([], s, Terminated)
    else
      var b := AfterLooks(s, looks[..|looks| - 1]);
      if b.verdict != Terminated then b else Look(b, looks[|looks| - 1])
  }

  /** Looks that found at least eight bytes, as many as the longest prefix has. */
  function BigLooks(looks: seq<int>): nat
  {
    if looks == [] then 0
    else BigLooks(looks[..|looks| - 1]) + (if looks[|looks| - 1] >= 8 then 1 else 0)
  }

  lemma OneLookMore(s: seq<byte>, looks: seq<int>, arrived: int)
    ensures AfterLooks(s, looks + [arrived])
         == if AfterLooks(s, looks).verdict != Terminated then AfterLooks(s, looks)
           else Look(AfterLooks(s, looks), arrived)
    ensures BigLooks(looks + [arrived]) == BigLooks(looks) + (if arrived >= 8 then 1 else 0)
  {
    hide Look;
    assert (looks + [arrived])[..|looks|] == looks;
  }

  lemma EightBytesShow(c: Command, more: seq<byte>, arrived: int)
    requires WellFormed(c)
    ensures HasPrefix(Encode(c) + more) && (arrived >= 8 ==> ShowsPrefix(Encode(c) + more, arrived))
  {
    hide ToLe32;
  }

  lemma NothingShows(arrived: int)
    ensures !ShowsPrefix([], arrived)
  {
  }

  lemma LookServes(cs: seq<Command>, b: Served, arrived: int)
    requires AllWellFormed(cs) && b.verdict == Terminated
    requires |b.cs| <= |cs| && b.cs == cs[..|b.cs|] && b.rest == EncodeAll(cs[|b.cs|..])
    ensures var r := Look(b, arrived);
            && |b.cs| <= |r.cs| <= |cs| && r.cs == cs[..|r.cs|] && r.rest == EncodeAll(cs[|r.cs|..])
            && r.verdict != Failed && (r.verdict == Interrupted <==> arrived < 0)
            && (r.verdict == NotRecognized ==> |r.cs| == |cs|)
            && (r.verdict == Terminated && arrived >= 8 ==> |r.cs| == |b.cs| + 1)
  {
    hide Encode, WellFormed, Next, ShowsPrefix;
    var k := |b.cs|;
    if k < |cs| {
      EncodedIsNext(cs[k], EncodeAll(cs[k + 1..]));
      assert cs[k..][0] == cs[k] && cs[k..][1..] == cs[k + 1..];
      EightBytesShow(cs[k], EncodeAll(cs[k + 1..]), arrived);
      assert cs[..k] + [cs[k]] == cs[..k + 1];
    } else {
      assert cs[k..] == [];
      NothingShows(arrived);
    }
  }

  /** On a stream of encoded commands no look is wrong: it serves one command or changes nothing, and
      it serves one if it found eight bytes. */
  lemma {:induction false} LooksServe(cs: seq<Command>, looks: seq<int>)
    requires AllWellFormed(cs)
    ensures var b := AfterLooks(EncodeAll(cs), looks);
            && |b.cs| <= |cs| && b.cs == cs[..|b.cs|] && b.rest == EncodeAll(cs[|b.cs|..])
            && b.verdict != Failed && (b.verdict == Interrupted ==> exists i :: 0 <= i < |looks| && looks[i] < 0)
            && (b.verdict == NotRecognized ==> |b.cs| == |cs|)
            && (b.verdict == Terminated ==> |b.cs| >= BigLooks(looks))
  {
    hide Encode, WellFormed, Next, ShowsPrefix;
    if looks == [] {
      assert cs[0..] == cs;
    } else {
      var before := looks[..|looks| - 1];
      LooksServe(cs, before);
      var b := AfterLooks(EncodeAll(cs), before);
      if b.verdict == Terminated {
        LookServes(cs, b, looks[|looks| - 1]);
        assert looks[|looks| - 1] in looks;
      }
    }
  }

  // ---------------------------------------------------------------- replies

  /** What a driver answers to a command. */
  datatype Answer = MaxVectorBits(n: int) | TckPeriod(ns: int) | Tdo(bytes: seq<byte>)

  const BANNER: seq<byte> :=
    [0x78, 0x76, 0x63, 0x53, 0x65, 0x72, 0x76, 0x65, 0x72, 0x5f, 0x76, 0x31, 0x2e, 0x30, 0x3a]  // xvcServer_v1.0:

  function Decimal(n: nat): seq<byte>
  {
    (if n < 10 then [] else Decimal(n / 10)) + [0x30 + n % 10]
  }

  predicate Usable(a: Answer)
  {
    match a
    case MaxVectorBits(n) => n > 0
    case TckPeriod(ns) => 0 < ns < 0x8000_0000
    case Tdo(_) => true
  }

  function Response(a: Answer): seq<byte>
    requires Usable(a)
  {
    match a
    case MaxVectorBits(n) => BANNER + Decimal(n) + [0x0a]
    case TckPeriod(ns) => ToLe32(ns)
    case Tdo(bytes) => bytes
  }

  /** The kind of answer a command calls for. */
  predicate Answers(a: Answer, c: Command)
  {
    match c
    case GetInfo => a.MaxVectorBits?
    case SetTck(_) => a.TckPeriod?
    case Shift(n, _, _) => a.Tdo? && |a.bytes| == VectorBytes(n)
  }

  ghost predicate AllAnswered(answers: seq<Answer>, cs: seq<Command>)
  {
    |answers| == |cs| && forall i :: 0 <= i < |cs| ==> Usable(answers[i]) && Answers(answers[i], cs[i])
  }

  ghost predicate AllUsable(answers: seq<Answer>)
  {
    forall i :: 0 <= i < |answers| ==> Usable(answers[i])
  }

  ghost function Responses(answers: seq<Answer>): seq<byte>
    requires AllUsable(answers)
  {
    if answers == [] then [] else Responses(answers[..|answers| - 1]) + Response(answers[|answers| - 1])
  }

  lemma NoAnswers()
    ensures AllAnswered([], []) && AllUsable([]) && Responses([]) == []
  {
  }

  lemma OneAnswerMore(answers: seq<Answer>, cs: seq<Command>, a: Answer, c: Command)
    requires AllAnswered(answers, cs) && AllUsable(answers) && Usable(a) && Answers(a, c)
    ensures AllAnswered(answers + [a], cs + [c]) && AllUsable(answers + [a])
    ensures Responses(answers + [a]) == Responses(answers) + Response(a)
  {
    hide Usable, Answers, Response;
    assert (answers + [a])[..|answers|] == answers;
  }

  // ---------------------------------------------------------------- what a client reads

  /** The codes of a text. */
  function Ascii(text: string): seq<byte>
    requires forall i :: 0 <= i < |text| ==> text[i] < 128 as char
  {
    seq(|text|, i requires 0 <= i < |text| => text[i] as int)
  }

  /** The words of the protocol. */
  lemma Words()
    ensures GETINFO == Ascii("getinfo:") && SETTCK == Ascii("settck:") && SHIFT == Ascii("shift:")
    ensures BANNER == Ascii("xvcServer_v1.0:")
  {
  }

  /** The number that digits denote, read from the left. */
  function ReadDecimal(text: seq<byte>): nat
    requires forall i :: 0 <= i < |text| ==> 0x30 <= text[i] <= 0x39
  {
    if text == [] then 0 else 10 * ReadDecimal(text[..|text| - 1]) + (text[|text| - 1] - 0x30)
  }

  lemma {:induction false} DecimalIsRead(n: nat)
    ensures Decimal(n) != [] && forall i :: 0 <= i < |Decimal(n)| ==> 0x30 <= Decimal(n)[i] <= 0x39
    ensures ReadDecimal(Decimal(n)) == n
    ensures n > 0 ==> Decimal(n)[0] != 0x30
  {
    if n >= 10 {
      DecimalIsRead(n / 10);
    }
    var d := Decimal(n);
    assert d[..|d| - 1] == if n < 10 then [] else Decimal(n / 10);
  }

  /** Where the first line ends. */
  function FirstLine(bytes: seq<byte>): (k: nat)
    ensures k <= |bytes| && (forall i :: 0 <= i < k ==> bytes[i] != 0x0a) && (k < |bytes| ==> bytes[k] == 0x0a)
  {
    if bytes == [] || bytes[0] == 0x0a then 0 else 1 + FirstLine(bytes[1..])
  }

  /** A client reads the first line of what it gets: the name and version, and a number. */
  function ReadInfo(bytes: seq<byte>): Option<nat>
  {
    var line := bytes[..FirstLine(bytes)];
    if !StartsWith(line, Ascii("xvcServer_v1.0:")) then None
    else
      var digits := line[15..];
      if digits != [] && forall i :: 0 <= i < |digits| ==> 0x30 <= digits[i] <= 0x39
      then Some(ReadDecimal(digits)) else None
  }

  /** The client reads the number that the driver has given, whatever comes next. */
  lemma InfoIsRead(n: nat, more: seq<byte>)
    requires n > 0
    ensures ReadInfo(Response(MaxVectorBits(n)) + more) == Some(n)
  {
    hide Decimal, ReadDecimal;
    DecimalIsRead(n);
    Words();
    var line := BANNER + Decimal(n);
    var bytes := Response(MaxVectorBits(n)) + more;
    assert bytes == line + ([0x0a] + more);
    var k := FirstLine(bytes);
    assert k == |line| by {
      assert bytes[|line|] == 0x0a;
      forall i | 0 <= i < |line|
        ensures bytes[i] != 0x0a
      {
        assert bytes[i] == line[i];
      }
    }
    assert bytes[..k] == line && line[15..] == Decimal(n);
  }

  /** Four bytes as a number, the lowest first. */
  function LittleEndian(b: seq<byte>): nat
  {
    if b == [] then 0 else b[0] + 256 * LittleEndian(b[1..])
  }

  lemma FourBytes(b: seq<byte>)
    requires |b| == 4
    ensures LittleEndian(b) == b[0] as int + 256 * (b[1] as int + 256 * (b[2] as int + 256 * b[3] as int))
  {
    assert LittleEndian(b[4..]) == 0;
    assert b[3..][1..] == b[4..] && b[2..][1..] == b[3..] && b[1..][1..] == b[2..];
    assert LittleEndian(b[3..]) == b[3];
    assert LittleEndian(b[2..]) == b[2] + 256 * LittleEndian(b[3..]);
    assert LittleEndian(b[1..]) == b[1] + 256 * LittleEndian(b[2..]);
  }

  /** The integers of the protocol are little-endian, in two's complement. */
  lemma IntsAreLittleEndian(b: seq<byte>, v: nat)
    requires |b| == 4 && v < 0x1_0000_0000
    ensures LittleEndian(b) < 0x1_0000_0000
    ensures FromLe32(b) == if LittleEndian(b) < 0x8000_0000 then LittleEndian(b) else LittleEndian(b) - 0x1_0000_0000
    ensures LittleEndian(ToLe32(v)) == v
  {
    FourBytes(b);
    FourBytes(ToLe32(v));
    var a := v / 256;
    var b' := a / 256;
    assert v / 65536 == b' && v / 16777216 == b' / 256;
  }

  /** The client reads the period that the driver has given. */
  lemma PeriodIsRead(ns: nat)
    requires 0 < ns < 0x8000_0000
    ensures |Response(TckPeriod(ns))| == 4 && FromLe32(Response(TckPeriod(ns))) == ns
    ensures LittleEndian(Response(TckPeriod(ns))) == ns
  {
    hide ToLe32, FromLe32;
    Le32RoundTrip(ns);
    IntsAreLittleEndian(ToLe32(ns), ns);
  }

  /** A shift is asked for by its word, its length, the TMS bits and the TDI bits, in this order. */
  lemma ShiftIsRead(n: nat, tms: seq<byte>, tdi: seq<byte>, more: seq<byte>)
    requires 0 < n < 0x8000_0000 && |tms| == |tdi| == VectorBytes(n)
    ensures n <= 8 * |tms| < n + 8
    ensures Next(Ascii("shift:") + ToLe32(n) + tms + tdi + more) == Some(Parsed(Shift(n, tms, tdi), more))
  {
    hide ToLe32, FromLe32, Next, EncodeAll;
    Words();
    EncodedIsNext(Shift(n, tms, tdi), more);
  }

  /** So is a period. */
  lemma PeriodIsAskedFor(t: nat, more: seq<byte>)
    requires t < 0x8000_0000
    ensures Next(Ascii("settck:") + ToLe32(t) + more) == Some(Parsed(SetTck(t), more))
    ensures Next(Ascii("getinfo:") + more) == Some(Parsed(GetInfo, more))
  {
    hide ToLe32, FromLe32, Next, EncodeAll;
    Words();
    EncodedIsNext(SetTck(t), more);
    EncodedIsNext(GetInfo, more);
  }

  // ---------------------------------------------------------------- giving up

  /** What is at hand can still become the start of a command. */
  ghost predicate MayBecomeCommand(seen: seq<byte>)
  {
    exists c, more :: WellFormed(c) && |seen| <= |Encode(c) + more| && seen == (Encode(c) + more)[..|seen|]
  }

  lemma StartsAs(s: seq<byte>, c: Command)
    requires |s| == 8 && WellFormed(c) && |Encode(c)| >= 8 && Encode(c)[..8] == s
    ensures MayBecomeCommand(s)
  {
    hide WellFormed, Encode;
    assert Encode(c) + [] == Encode(c);
    assert s == (Encode(c) + [])[..|s|];
  }

  /** Eight bytes that start with a word can become a command. */
  lemma WordsBecomeCommands(s: seq<byte>)
    requires |s| == 8 && HasPrefix(s)
    ensures MayBecomeCommand(s)
  {
    hide MayBecomeCommand;
    if StartsWith(s, GETINFO) {
      StartsAs(s, GetInfo);
    } else if StartsWith(s, SETTCK) {
      var c := SetTck(s[7]);
      assert Encode(c)[..8] == SETTCK + [s[7]] == s;
      StartsAs(s, c);
    } else {
      var low: nat := s[6] as int + 256 * s[7] as int;
      var n := if low == 0 then 65536 else low;
      var zeros: seq<byte> := seq(VectorBytes(n), i => 0);
      var c := Shift(n, zeros, zeros);
      assert ToLe32(n)[0] == s[6] && ToLe32(n)[1] == s[7];
      assert Encode(c)[..8] == SHIFT + ToLe32(n)[..2] == s;
      StartsAs(s, c);
    }
  }

  lemma EightBytesDecide(s: seq<byte>)
    requires |s| >= 8
    ensures HasPrefix(s) <==> MayBecomeCommand(s[..8])
  {
    hide WellFormed, Encode;
    if HasPrefix(s) {
      assert forall p | p in {GETINFO, SETTCK, SHIFT} :: s[..8][..|p|] == s[..|p|];
      WordsBecomeCommands(s[..8]);
    }
    if MayBecomeCommand(s[..8]) {
      var c, more :| WellFormed(c) && 8 <= |Encode(c) + more| && s[..8] == (Encode(c) + more)[..8];
      EightBytesShow(c, more, 8);
      var t := Encode(c) + more;
      assert forall p | p in {GETINFO, SETTCK, SHIFT} :: s[..|p|] == s[..8][..|p|] == t[..8][..|p|] == t[..|p|];
    }
  }

  /** A stream is given up as not recognized if and only if the look has found at least eight bytes and
      these cannot become the start of any command; with fewer bytes the server waits. */
  lemma GivenUpExactly(s: seq<byte>, arrived: nat)
    requires 0 < arrived <= |s| && arrived <= 16
    ensures Look(Served([], s, Terminated), arrived).verdict == NotRecognized
            <==> arrived >= 8 && !MayBecomeCommand(s[..8])
  {
    hide Next, ToLe32, WellFormed, Encode, StartsWith, MayBecomeCommand;
    if arrived >= 8 {
      EightBytesDecide(s);
    }
  }
}
