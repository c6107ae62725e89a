/** What a sender writes, a receiver reads back: the port, the multicast address and the source of
    every stream (base/src/sdp.cpp). Addresses at the end of a line come back with the carriage return. */
module SdpRoundTrip {
  import opened Containers
  import opened Text
  import opened Json
  import Params = TransportParams
  import opened SdpReader
  import opened SdpWriter
  import TaiTime

  // ---------- Fields of a line ----------

  predicate Word(w: string, c: char) {
    w != "" && c !in w
  }

  lemma {:induction false} NonEmptyCons(s: string, ss: seq<string>)
    requires s != ""
    ensures NonEmpty([s] + ss) == [s] + NonEmpty(ss)
  {
    if ss == [] {
      assert [s] + ss == [] + [s];
      NonEmptyNext([], s);
    } else {
      var front, last := ss[..|ss| - 1], ss[|ss| - 1];
      assert [s] + ss == ([s] + front) + [last] && ss == front + [last];
      NonEmptyNext([s] + front, last);
      NonEmptyNext(front, last);
      NonEmptyCons(s, front);
    }
  }

  lemma SplitWord(w: string, c: char)
    requires Word(w, c)
    ensures Split(w, c) == [w]
  {
    LastLine(w, c);
    NonEmptyCons(w, []);
    assert [w] + [] == [w];
  }

  // An empty field is skipped.
  lemma SplitStep(w: string, rest: string, c: char)
    requires c !in w
    ensures Split(w + [c] + rest, c) == (if w == "" then [] else [w]) + Split(rest, c)
  {
    LineThenRest(w, rest, c);
    if w == "" {
      EmptyIsDropped(Lines(rest, c));
    } else {
      NonEmptyCons(w, Lines(rest, c));
    }
  }

  lemma {:induction false} EmptyIsDropped(ss: seq<string>)
    ensures NonEmpty([""] + ss) == NonEmpty(ss)
  {
    if ss == [] {
      assert [""] + ss == [] + [""];
      NonEmptyNext([], "");
    } else {
      var front, last := ss[..|ss| - 1], ss[|ss| - 1];
      assert [""] + ss == ([""] + front) + [last] && ss == front + [last];
      NonEmptyNext([""] + front, last);
      NonEmptyNext(front, last);
      EmptyIsDropped(front);
    }
  }

  // ---------- Addresses ----------

  // An address without the characters that end fields, and that does not end in a dot.
  predicate Plain(a: string) {
    a != "" && ' ' !in a && '\n' !in a && '/' !in a && a[|a| - 1] != '.'
  }

  // The fields, the last one followed by a carriage return.
  function Returned(v: seq<string>): (r: seq<string>)
    requires v != []
  {
    v[..|v| - 1] + [v[|v| - 1] + "\r"]
  }

  lemma {:induction false} SplitBeforeReturn(a: string, c: char)
    requires a != "" && c != '\r' && a[|a| - 1] != c
    ensures Split(a, c) != [] && Split(a + "\r", c) == Returned(Split(a, c))
    decreases |a|
  {
    hide Split;
    var k := UpTo(a, c);
    if k == |a| {
      SplitWord(a, c);
      SplitWord(a + "\r", c);
    } else {
      var w, rest := a[..k], a[k + 1..];
      assert rest[|rest| - 1] == a[|a| - 1];
      SplitBeforeReturn(rest, c);
      assert a == w + [c] + rest && a + "\r" == w + [c] + (rest + "\r");
      SplitStep(w, rest, c);
      SplitStep(w, rest + "\r", c);
      var v := Split(rest, c);
      assert ([w] + v)[..|v|] == [w] + v[..|v| - 1];
    }
  }

  lemma ParsePartIgnoresReturn(p: string)
    requires p != ""
    ensures ParsePart(p + "\r") == ParsePart(p)
  {
    StolIgnoresReturn(p, 8);
    StolIgnoresReturn(p, 10);
    StolIgnoresReturn(p, 16);
    if |p| == 1 && p[0] == '0' {
      ZeroReturn();
      assert p == "0";
    }
  }

  lemma ZeroReturn()
    ensures Stol("0\r", 8) == Number(0) && Stol("0", 10) == Number(0)
  {
  }

  predicate NoneEmpty(v: seq<string>) {
    forall i :: 0 <= i < |v| ==> v[i] != ""
  }

  lemma {:induction false} CheckPartsIgnoresReturn(v: seq<string>)
    requires v != [] && NoneEmpty(v)
    ensures CheckParts(Returned(v)) == CheckParts(v) && ParsePart(Returned(v)[0]) == ParsePart(v[0])
  {
    hide ParsePart;
    ParsePartIgnoresReturn(v[|v| - 1]);
    if |v| == 1 {
      assert Returned(v)[1..] == [] && v[1..] == [];
    } else {
      assert Returned(v)[1..] == Returned(v[1..]);
      CheckPartsIgnoresReturn(v[1..]);
    }
  }

  lemma {:induction false} FieldsAreNotEmpty(ss: seq<string>)
    ensures NoneEmpty(NonEmpty(ss))
  {
    if ss != [] {
      FieldsAreNotEmpty(ss[..|ss| - 1]);
    }
  }

  // The carriage return at the end of a line does not change what an address is.
  lemma AddressIgnoresReturn(a: string)
    requires a != "" && a[|a| - 1] != '.'
    ensures ValidateIp4Address(a + "\r") == ValidateIp4Address(a)
  {
    SplitBeforeReturn(a, '.');
    FieldsAreNotEmpty(Lines(a, '.'));
    hide Split, CheckParts, ParsePart;
    CheckPartsIgnoresReturn(Split(a, '.'));
  }

  // A dot at the end is accepted when the address is written, and refused when it is read.
  lemma TrailingDotIsRefused(a: string)
    requires a != "" && a[|a| - 1] == '.' && (ValidateIp4Address(a) == IP4_UNI || ValidateIp4Address(a) == IP4_MULTI)
    ensures ValidateIp4Address(a + "\r") == IP_INVALID
  {
    DotThenReturn(a);
  }

  lemma {:induction false} DotThenReturn(a: string)
    requires a != "" && a[|a| - 1] == '.'
    ensures Split(a + "\r", '.') == Split(a, '.') + ["\r"]
    decreases |a|
  {
    hide Split;
    var k := UpTo(a, '.');
    var w, rest := a[..k], a[k + 1..];
    assert a == w + ['.'] + rest && a + "\r" == w + ['.'] + (rest + "\r");
    SplitStep(w, rest, '.');
    SplitStep(w, rest + "\r", '.');
    if rest == "" {
      assert rest + "\r" == "\r";
      SplitWord("\r", '.');
      EmptyText('.');
    } else {
      assert rest[|rest| - 1] == a[|a| - 1];
      DotThenReturn(rest);
    }
  }

  lemma EmptyText(c: char)
    ensures Split("", c) == []
  {
  }

  // Dotted decimal, the form of RFC 4566 section 9, is plain and means what it should.
  function Dotted(a: nat, b: nat, c: nat, d: nat): string {
    Dec(a) + "." + (Dec(b) + "." + (Dec(c) + "." + Dec(d)))
  }

  lemma DecIsParsed(n: nat)
    requires n < 0x8000_0000_0000_0000
    ensures ParsePart(Dec(n)) == Number(n)
  {
    StolReadsDec(n, "");
    assert DecInt(n) + "" == Dec(n);
    DecHasNoLeadingZero(n);
  }

  lemma {:induction false} DecHasNoLeadingZero(n: nat)
    ensures n > 0 ==> Dec(n)[0] != '0'
    ensures n == 0 ==> Dec(n) == "0"
  {
    if n >= 10 {
      DecHasNoLeadingZero(n / 10);
    }
  }

  lemma DottedSplits(a: nat, b: nat, c: nat, d: nat)
    ensures Split(Dotted(a, b, c, d), '.') == [Dec(a), Dec(b), Dec(c), Dec(d)]
  {
    hide Dec, Split;
    SplitWord(Dec(d), '.');
    SplitStep(Dec(c), Dec(d), '.');
    SplitStep(Dec(b), Dec(c) + "." + Dec(d), '.');
    SplitStep(Dec(a), Dec(b) + "." + (Dec(c) + "." + Dec(d)), '.');
  }

  lemma DottedParts(a: nat, b: nat, c: nat, d: nat)
    requires a <= 255 && b <= 255 && c <= 255 && d <= 255
    ensures CheckParts([Dec(a), Dec(b), Dec(c), Dec(d)]) == Yes && ParsePart(Dec(a)) == Number(a)
  {
    DecIsParsed(a);
    DecIsParsed(b);
    DecIsParsed(c);
    DecIsParsed(d);
    hide Dec, ParsePart;
    var v := [Dec(a), Dec(b), Dec(c), Dec(d)];
    assert v[1..] == [Dec(b), Dec(c), Dec(d)] && v[1..][1..] == [Dec(c), Dec(d)] && v[1..][1..][1..] == [Dec(d)] && v[1..][1..][1..][1..] == [];
    assert CheckParts([Dec(d)]) == Yes;
    assert CheckParts([Dec(c), Dec(d)]) == Yes;
    assert CheckParts(v[1..]) == Yes;
  }

  lemma DottedIsPlain(a: nat, b: nat, c: nat, d: nat)
    ensures Plain(Dotted(a, b, c, d))
  {
  }

  lemma DottedIsAnAddress(a: nat, b: nat, c: nat, d: nat)
    requires a <= 255 && b <= 255 && c <= 255 && d <= 255
    ensures Plain(Dotted(a, b, c, d))
    ensures ValidateIp4Address(Dotted(a, b, c, d)) == if 224 <= a <= 239 then IP4_MULTI else IP4_UNI
  {
    DottedSplits(a, b, c, d);
    DottedParts(a, b, c, d);
    DottedIsPlain(a, b, c, d);
    hide Dec, ParsePart, Split, CheckParts, Dotted, Plain;
  }

  // ---------- Lines ----------

  // Reading the lines one by one, each with the carriage return that was written after it.
  function Follow(lines: seq<string>, rs: seq<Object>, n: int): Progress {
    if lines == [] || n >= |rs| then Progress(Yes, rs)
    else
      var (p, n') := ReadLine(lines[0] + "\r", rs, n);
      if p.verdict == Yes then Follow(lines[1..], p.rs, n') else p
  }

  predicate OneLine(s: string) {
    '\n' !in s
  }

  predicate AllOneLine(lines: seq<string>) {
    forall i :: 0 <= i < |lines| ==> OneLine(lines[i])
  }

  lemma {:induction false} TextIsFollowed(lines: seq<string>, rs: seq<Object>, n: int)
    requires AllOneLine(lines)
    ensures ReadText(TextOf(lines), rs, n) == Follow(lines, rs, n)
  {
    hide ReadLine;
    if lines != [] {
      var line, rest := lines[0] + "\r", TextOf(lines[1..]);
      assert OneLine(lines[0]);
      assert TextOf(lines) == line + ['\n'] + rest;
      LineThenRest(line, rest, '\n');
      if n < |rs| {
        var (p, n') := ReadLine(line, rs, n);
        TextIsFollowed(lines[1..], p.rs, n');
      }
    }
  }

  lemma FollowStep(line: string, rest: seq<string>, rs: seq<Object>, n: int, p: Progress, n': int)
    requires n < |rs| && ReadLine(line + "\r", rs, n) == (p, n') && p.verdict == Yes
    ensures Follow([line] + rest, rs, n) == Follow(rest, p.rs, n')
  {
  }

  // A line the reader skips.
  ghost predicate Skipped(line: string) {
    forall rs: seq<Object>, n: int :: ReadLine(line + "\r", rs, n) == (Progress(Yes, rs), n)
  }

  ghost predicate AllSkipped(lines: seq<string>) {
    forall i :: 0 <= i < |lines| ==> Skipped(lines[i])
  }

  lemma {:induction false} FollowSkips(lines: seq<string>, rest: seq<string>, rs: seq<Object>, n: int)
    requires AllSkipped(lines)
    ensures Follow(lines + rest, rs, n) == Follow(rest, rs, n)
  {
    hide ReadLine, Skipped;
    if lines == [] {
      assert lines + rest == rest;
    } else if n < |rs| {
      assert Skipped(lines[0]);
      SkippedMeans(lines[0], rs, n);
      FollowStep(lines[0], lines[1..] + rest, rs, n, Progress(Yes, rs), n);
      FollowSkips(lines[1..], rest, rs, n);
      assert lines + rest == [lines[0]] + (lines[1..] + rest);
    }
  }

  lemma SkippedMeans(line: string, rs: seq<Object>, n: int)
    requires Skipped(line)
    ensures ReadLine(line + "\r", rs, n) == (Progress(Yes, rs), n)
  {
  }

  // An attribute whose only "a=" is the one it starts with holds neither of the two names the reader
  // looks for, unless it starts with one of them.
  predicate OneStart(head: string) {
    forall k :: 0 < k < |head| - 1 && head[k] == 'a' ==> head[k + 1] != '='
  }

  lemma {:induction false} NotFoundLater(line: string, k: nat, t: string)
    requires |t| > 1 && t[0] == 'a' && t[1] == '=' && 0 < k <= |line| && OneStart(line)
    ensures After(line[k..], t) == None
    decreases |line| - k
  {
    if k < |line| {
      NotFoundLater(line, k + 1, t);
      assert line[k..][1..] == line[k + 1..];
    }
  }

  lemma NotFound(line: string, j: nat, t: string)
    requires |t| > 1 && t[0] == 'a' && t[1] == '=' && OneStart(line) && j < |line| && j < |t| && line[j] != t[j]
    ensures After(line, t) == None
  {
    NotFoundLater(line, 1, t);
  }

  lemma AttributeIsSkipped(head: string, tail: string, i: nat, j: nat)
    requires head != "" && head[0] == 'a' && OneStart(head) && '=' !in tail
    requires i < |head| && i < |STR_FILTER| && head[i] != STR_FILTER[i]
    requires j < |head| && j < |STR_RTCP| && head[j] != STR_RTCP[j]
    ensures Skipped(head + tail)
  {
    var line := head + tail + "\r";
    assert forall k :: 0 <= k < |head| ==> line[k] == head[k];
    assert forall k :: |head| <= k < |line| ==> line[k] != '=';
    NotFound(line, i, STR_FILTER);
    NotFound(line, j, STR_RTCP);
  }

  // ---------- The lines a sender writes ----------

  lemma RtpMapIsSkipped(tail: string)
    requires '=' !in tail
    ensures Skipped("a=rtpmap:96 L" + tail)
  {
    hide Skipped;
    AttributeIsSkipped("a=rtpmap:96 L", tail, 2, 4);
  }

  lemma PacketTimeIsSkipped(tail: string)
    requires '=' !in tail
    ensures Skipped("a=ptime:" + tail)
  {
    hide Skipped;
    AttributeIsSkipped("a=ptime:", tail, 2, 2);
  }

  lemma MediaClockIsSkipped(tail: string)
    requires '=' !in tail
    ensures Skipped("a=mediaclk:direct=" + tail)
  {
    hide Skipped;
    AttributeIsSkipped("a=mediaclk:direct=", tail, 2, 2);
  }

  lemma MidIsSkipped(tail: string)
    requires '=' !in tail
    ensures Skipped("a=mid:S" + tail)
  {
    hide Skipped;
    AttributeIsSkipped("a=mid:S", tail, 2, 2);
  }

  lemma GroupIsSkipped(tail: string)
    requires '=' !in tail
    ensures Skipped("a=group:DUP " + tail)
  {
    hide Skipped;
    AttributeIsSkipped("a=group:DUP ", tail, 2, 2);
  }

  // The texts of a clock have no line feed and no equals sign.
  predicate PlainClock(c: Clock) {
    match c
    case Ptp(version, gmid) => OneLine(version) && OneLine(gmid) && '=' !in version && '=' !in gmid
    case Mac(port) => OneLine(port) && '=' !in port
    case _ => true
  }

  lemma ReferenceIsSkipped(tail: string)
    requires '=' !in tail && OneLine(tail)
    ensures Skipped("a=ts-refclk:ptp=" + tail) && OneLine("a=ts-refclk:ptp=" + tail)
  {
    hide Skipped;
    AttributeIsSkipped("a=ts-refclk:ptp=", tail, 2, 2);
  }

  lemma ClockIsSkipped(c: Clock)
    requires PlainClock(c)
    ensures Skipped(ClockLine(c)) && OneLine(ClockLine(c))
  {
    match c
    case Local =>
      hide Skipped;
      AttributeIsSkipped("a=ts-refclk:local", "", 2, 2);
      assert "a=ts-refclk:local" + "" == "a=ts-refclk:local";
    case Traceable =>
      hide Skipped;
      ReferenceIsSkipped("traceable");
      assert "a=ts-refclk:ptp=" + "traceable" == "a=ts-refclk:ptp=traceable";
    case Ptp(version, gmid) =>
      hide Skipped;
      ReferenceIsSkipped(version + ":" + gmid);
      assert "a=ts-refclk:ptp=" + (version + ":" + gmid) == ClockLine(c);
    case Mac(port) =>
      hide Skipped;
      AttributeIsSkipped("a=ts-refclk:localmac=", port, 2, 2);
  }

  predicate Quiet(s: string) {
    OneLine(s) && '=' !in s
  }

  lemma {:induction false} GroupIsQuiet(n: nat)
    ensures Quiet(Group(n))
  {
    if n > 1 {
      GroupIsQuiet(n - 1);
    }
  }

  // The printed seconds are a word of one line.
  lemma SecondsAreAWord(tp: TaiTime.int64)
    ensures var s := TaiTime.ConvertTimeToString(tp, false); Word(s, ' ') && OneLine(s)
  {
  }

  lemma OriginIsWritten(m: Object, start: TaiTime.int64, now: TaiTime.int64)
    requires ValidateIp4Address(GetSourceIp(m)) == IP4_UNI && Plain(GetSourceIp(m))
    ensures var line := OriginLine(m, start, now);
      && line.Some? && OneLine(line.value)
      && line.value[0] == 'o'
      && Split(line.value + "\r", ' ')
         == ["o=-", TaiTime.ConvertTimeToString(start, false), TaiTime.ConvertTimeToString(now, false), "IN", "IP4", GetSourceIp(m) + "\r"]
  {
    var ip, t, u := GetSourceIp(m), TaiTime.ConvertTimeToString(start, false), TaiTime.ConvertTimeToString(now, false);
    SecondsAreAWord(start);
    SecondsAreAWord(now);
    OriginFields(t, u, ip);
    hide ValidateIp4Address, Split, TaiTime.ConvertTimeToString, GetSourceIp;
  }

  lemma OriginIsRead(m: Object, start: TaiTime.int64, now: TaiTime.int64, rs: seq<Object>, n: int)
    requires ValidateIp4Address(GetSourceIp(m)) == IP4_UNI && Plain(GetSourceIp(m))
    ensures var line := OriginLine(m, start, now);
      line.Some? && OneLine(line.value)
      && ReadLine(line.value + "\r", rs, n) == (Progress(Yes, AllSources(rs, GetSourceIp(m) + "\r")), n)
  {
    OriginIsWritten(m, start, now);
    AddressIgnoresReturn(GetSourceIp(m));
    hide ValidateIp4Address, Split, TaiTime.ConvertTimeToString, AllSources, GetSourceIp, OriginLine, OneLine;
  }

  lemma OriginFields(t: string, u: string, ip: string)
    requires Word(t, ' ') && Word(u, ' ') && Word(ip, ' ')
    ensures Split("o=- " + t + " " + u + " IN IP4 " + ip + "\r", ' ') == ["o=-", t, u, "IN", "IP4", ip + "\r"]
  {
    hide Split;
    var last := ip + "\r";
    SplitWord(last, ' ');
    SplitStep("IP4", last, ' ');
    var four := "IP4" + " " + last;
    SplitStep("IN", four, ' ');
    var three := "IN" + " " + four;
    SplitStep(u, three, ' ');
    SplitStep(t, u + " " + three, ' ');
    SplitStep("o=-", t + " " + (u + " " + three), ' ');
    assert "o=- " + t + " " + u + " IN IP4 " + ip + "\r" == "o=-" + " " + (t + " " + (u + " " + three));
  }

  lemma MediaIsRead(port: nat, rs: seq<Object>, n: int)
    requires 0 < port < 65536
    ensures OneLine(MediaLine(port))
    ensures -1 <= n < |rs| - 1 ==>
      ReadLine(MediaLine(port) + "\r", rs, n) == (Progress(Yes, rs[n + 1 := SetPort(rs[n + 1], DESTINATION_PORT, port)]), n + 1)
    ensures n + 1 >= |rs| ==> ReadLine(MediaLine(port) + "\r", rs, n) == (Progress(Yes, rs), n + 1)
  {
    hide Dec, Split, Stol, SetPort;
    PortIsRead(port);
    MediaFields(port);
    assert MediaLine(port)[0] == 'm';
  }

  lemma PortIsRead(port: nat)
    requires port < 65536
    ensures Stol(Dec(port), 10) == Number(port)
  {
    StolReadsDec(port, "");
    assert DecInt(port) + "" == Dec(port);
  }

  lemma MediaFields(port: nat)
    ensures Split(MediaLine(port) + "\r", ' ') == ["m=audio", Dec(port), "RTP/AVP", "96\r"]
  {
    hide Split, Dec;
    var d := Dec(port);
    SplitWord("96\r", ' ');
    SplitStep("RTP/AVP", "96\r", ' ');
    var two := "RTP/AVP" + " " + "96\r";
    SplitStep(d, two, ' ');
    SplitStep("m=audio", d + " " + two, ' ');
    assert MediaLine(port) + "\r" == "m=audio" + " " + (d + " " + two);
  }

  // "c=IN IP4 " and one word.
  lemma ConnectionFields(last: string)
    requires Word(last, ' ')
    ensures Split("c=IN IP4 " + last, ' ') == ["c=IN", "IP4", last]
  {
    hide Split;
    SplitWord(last, ' ');
    SplitStep("IP4", last, ' ');
    SplitStep("c=IN", "IP4" + " " + last, ' ');
    assert "c=IN IP4 " + last == "c=IN" + " " + ("IP4" + " " + last);
  }

  lemma ConnectionIsParsed(last: string, rs: seq<Object>, n: int)
    requires Word(last, ' ') && 0 <= n < |rs|
    ensures var a := last[..UpTo(last, '/')];
      && (ValidateIp4Address(a) == IP4_UNI ==>
            ReadLine("c=IN IP4 " + last, rs, n) == (Progress(Yes, rs[n := SetMulticastIp(rs[n], "")]), n))
      && (ValidateIp4Address(a) == IP4_MULTI ==>
            ReadLine("c=IN IP4 " + last, rs, n) == (Progress(Yes, rs[n := SetMulticastIp(rs[n], a)]), n))
  {
    ConnectionFields(last);
    hide Split, UpTo, ValidateIp4Address, SetMulticastIp;
  }

  lemma UnicastIsRead(ip: string, rs: seq<Object>, n: int)
    requires Plain(ip) && ValidateIp4Address(ip) == IP4_UNI && 0 <= n < |rs|
    ensures OneLine("c=IN IP4 " + ip)
    ensures ReadLine("c=IN IP4 " + ip + "\r", rs, n) == (Progress(Yes, rs[n := SetMulticastIp(rs[n], "")]), n)
  {
    var last := ip + "\r";
    UpToNone(last, '/');
    AddressIgnoresReturn(ip);
    ConnectionIsParsed(last, rs, n);
    hide UpTo, ValidateIp4Address, SetMulticastIp, ReadLine;
    assert last[..|last|] == last;
    assert "c=IN IP4 " + ip + "\r" == "c=IN IP4 " + last;
  }

  lemma BeforeSlash(ip: string)
    requires '/' !in ip
    ensures var last := ip + "/32" + "\r"; last[..UpTo(last, '/')] == ip
  {
    UpToAppend(ip, "32\r", '/');
    assert ip + ['/'] + "32\r" == ip + "/32" + "\r";
  }

  lemma Regroup(p: string, a: string, b: string, c: string)
    ensures p + a + b + c == p + (a + b + c)
  {
  }

  lemma MulticastIsRead(ip: string, rs: seq<Object>, n: int)
    requires Plain(ip) && ValidateIp4Address(ip) == IP4_MULTI && 0 <= n < |rs|
    ensures OneLine("c=IN IP4 " + ip + "/32")
    ensures ReadLine("c=IN IP4 " + ip + "/32" + "\r", rs, n) == (Progress(Yes, rs[n := SetMulticastIp(rs[n], ip)]), n)
  {
    var last := ip + "/32" + "\r";
    BeforeSlash(ip);
    ConnectionIsParsed(last, rs, n);
    hide UpTo, ValidateIp4Address, SetMulticastIp, ReadLine;
    Regroup("c=IN IP4 ", ip, "/32", "\r");
  }

  lemma FilterFields(ip: string, last: string)
    requires Word(ip, ' ') && Word(last, ' ')
    ensures Split(" incl IN IP4 " + (ip + " " + last), ' ') == ["incl", "IN", "IP4", ip, last]
  {
    hide Split;
    SplitWord(last, ' ');
    SplitStep(ip, last, ' ');
    var two := ip + " " + last;
    SplitStep("IP4", two, ' ');
    SplitStep("IN", "IP4" + " " + two, ' ');
    var four := "IN" + " " + ("IP4" + " " + two);
    SplitStep("incl", four, ' ');
    SplitStep("", "incl" + " " + four, ' ');
    assert " incl IN IP4 " + two == "" + " " + ("incl" + " " + four);
  }

  lemma FilterText(two: string)
    ensures "a=source-filter: incl IN IP4 " + two == STR_FILTER + (" incl IN IP4 " + two)
  {
  }

  lemma FilterIsOneLine(ip: string, source: string)
    requires OneLine(ip) && OneLine(source)
    ensures OneLine("a=source-filter: incl IN IP4 " + ip + " " + source)
  {
  }

  lemma FilterIsParsed(rest: string, ip: string, last: string, rs: seq<Object>, n: int)
    requires Split(rest, ' ') == ["incl", "IN", "IP4", ip, last] && 0 <= n < |rs|
    requires ValidateIp4Address(ip) == IP4_MULTI && ValidateIp4Address(last) == IP4_UNI
    ensures ParseSourceFilter(rest, rs, n) == Progress(Yes, rs[n := SetSourceIp(rs[n], last)])
  {
  }

  lemma FilterIsDispatched(line: string, rest: string, rs: seq<Object>, n: int)
    requires line == STR_FILTER + rest
    ensures ReadLine(line, rs, n) == (ParseSourceFilter(rest, rs, n), n)
  {
  }

  lemma FilterIsRead(ip: string, source: string, rs: seq<Object>, n: int)
    requires Plain(ip) && ValidateIp4Address(ip) == IP4_MULTI && Plain(source) && ValidateIp4Address(source) == IP4_UNI && 0 <= n < |rs|
    ensures ReadLine("a=source-filter: incl IN IP4 " + ip + " " + source + "\r", rs, n)
         == (Progress(Yes, rs[n := SetSourceIp(rs[n], source + "\r")]), n)
  {
    var last := source + "\r";
    var two := ip + " " + last;
    var rest := " incl IN IP4 " + two;
    FilterFields(ip, last);
    AddressIgnoresReturn(source);
    FilterText(two);
    hide Split, ParseSourceFilter, ReadLine, ValidateIp4Address, SetSourceIp;
    FilterIsParsed(rest, ip, last, rs, n);
    FilterIsDispatched("a=source-filter: incl IN IP4 " + two, rest, rs, n);
    RegroupTwo("a=source-filter: incl IN IP4 ", ip, " ", source, "\r");
  }

  lemma RegroupTwo(p: string, a: string, b: string, c: string, d: string)
    ensures p + a + b + c + d == p + (a + b + (c + d))
  {
  }

  // ---------- Streams ----------

  function Destination(m: Object): string
    requires GetDestinationIp(m).Some?
  {
    GetDestinationIp(m).value
  }

  predicate Multicast(m: Object)
    requires GetDestinationIp(m).Some?
  {
    ValidateIp4Address(Destination(m)) == IP4_MULTI
  }

  predicate Unicast(a: string) {
    Plain(a) && ValidateIp4Address(a) == IP4_UNI
  }

  // An IPv4 destination, a unicast source where the description prints it, and RTCP off.
  predicate Describable(m: Object) {
    && GetDestinationPort(m).Some? && GetDestinationIp(m).Some? && Plain(Destination(m)) && !Params.Enabled(m, RTCP_ENABLED)
    && (Unicast(Destination(m)) || (Multicast(m) && Unicast(GetSourceIp(m))))
  }

  // The port on the media line.
  function PrintedPort(m: Object): (p: nat)
    requires GetDestinationPort(m).Some?
    ensures 0 < p < 65536
  {
    if GetDestinationPort(m).value == 0 then 5004 else GetDestinationPort(m).value
  }

  function AfterConnection(m: Object, r: Object): Object
    requires Describable(m)
  {
    if Multicast(m) then SetSourceIp(SetMulticastIp(r, Destination(m)), GetSourceIp(m) + "\r") else SetMulticastIp(r, "")
  }

  lemma FollowTwo(a: string, b: string, rest: seq<string>, rs: seq<Object>, once: seq<Object>, twice: seq<Object>, n: int)
    requires n < |rs| && |once| == |rs|
    requires ReadLine(a + "\r", rs, n) == (Progress(Yes, once), n) && ReadLine(b + "\r", once, n) == (Progress(Yes, twice), n)
    ensures Follow([a, b] + rest, rs, n) == Follow(rest, twice, n)
  {
  }

  lemma MulticastConnectionIsRead(ip: string, source: string, rest: seq<string>, rs: seq<Object>, n: int)
    requires Plain(ip) && ValidateIp4Address(ip) == IP4_MULTI && Unicast(source) && 0 <= n < |rs|
    ensures Follow(["c=IN IP4 " + ip + "/32", "a=source-filter: incl IN IP4 " + ip + " " + source] + rest, rs, n)
         == Follow(rest, rs[n := SetSourceIp(SetMulticastIp(rs[n], ip), source + "\r")], n)
  {
    var once := rs[n := SetMulticastIp(rs[n], ip)];
    MulticastIsRead(ip, rs, n);
    FilterIsRead(ip, source, once, n);
    hide *;
    var twice := once[n := SetSourceIp(once[n], source + "\r")];
    FollowTwo("c=IN IP4 " + ip + "/32", "a=source-filter: incl IN IP4 " + ip + " " + source, rest, rs, once, twice, n);
    assert twice == rs[n := SetSourceIp(SetMulticastIp(rs[n], ip), source + "\r")];
  }

  lemma UnicastConnectionIsRead(ip: string, rest: seq<string>, rs: seq<Object>, n: int)
    requires Unicast(ip) && 0 <= n < |rs|
    ensures Follow(["c=IN IP4 " + ip] + rest, rs, n) == Follow(rest, rs[n := SetMulticastIp(rs[n], "")], n)
  {
    UnicastIsRead(ip, rs, n);
    hide *;
    FollowStep("c=IN IP4 " + ip, rest, rs, n, Progress(Yes, rs[n := SetMulticastIp(rs[n], "")]), n);
  }

  lemma ConnectionIsRead(m: Object, rest: seq<string>, rs: seq<Object>, n: int)
    requires Describable(m) && 0 <= n < |rs|
    ensures ConnectionLines(m).Some?
    ensures Follow(ConnectionLines(m).value + rest, rs, n) == Follow(rest, rs[n := AfterConnection(m, rs[n])], n)
  {
    if Multicast(m) {
      MulticastConnectionIsRead(Destination(m), GetSourceIp(m), rest, rs, n);
    } else {
      UnicastConnectionIsRead(Destination(m), rest, rs, n);
    }
    hide Follow, GetSourceIp, Plain, ValidateIp4Address, SetMulticastIp, SetSourceIp;
  }

  lemma ConnectionIsOneLineEach(m: Object)
    requires Describable(m)
    ensures ConnectionLines(m).Some? && AllOneLine(ConnectionLines(m).value)
  {
    hide ValidateIp4Address, GetDestinationPort, Params.Enabled;
    if Multicast(m) {
      FilterIsOneLine(Destination(m), GetSourceIp(m));
    }
  }

  // What follows the connection lines of a stream.
  function Details(f: Flow, c: Clock, i: nat, n: nat): seq<string> {
    [ClockLine(c)] + AttributeLines(f) + [] + MidLines(i, n)
  }

  lemma AttributesAreSkipped(f: Flow)
    ensures AllSkipped(AttributeLines(f)) && AllOneLine(AttributeLines(f))
  {
    var tail := FormatName(f.format) + "/" + Dec(f.rate) + "/" + Dec(f.channels);
    hide Dec, Skipped;
    assert Quiet(tail);
    RtpMapIsSkipped(tail);
    PacketTimeIsSkipped(PacketTimeName(f.packetTime));
    MediaClockIsSkipped(Dec(f.offset));
  }

  lemma DetailsAreSkipped(f: Flow, c: Clock, i: nat, n: nat)
    requires PlainClock(c)
    ensures AllSkipped(Details(f, c, i, n)) && AllOneLine(Details(f, c, i, n))
  {
    AttributesAreSkipped(f);
    ClockIsSkipped(c);
    MidIsSkipped(Dec(i + 1));
    hide Dec, Skipped, ClockLine, AttributeLines, PlainClock;
  }

  function StreamLines(m: Object, f: Flow, c: Clock, i: nat, n: nat): seq<string>
    requires Describable(m) && ConnectionLines(m).Some?
  {
    [MediaLine(PrintedPort(m))] + ConnectionLines(m).value + Details(f, c, i, n)
  }

  lemma StreamIsWritten(m: Object, f: Flow, c: Clock, i: nat, n: nat)
    requires Describable(m) && PlainClock(c)
    ensures ConnectionLines(m).Some? && Stream(m, f, c, i, n) == Some(StreamLines(m, f, c, i, n))
    ensures AllOneLine(StreamLines(m, f, c, i, n))
  {
    hide ConnectionLines, ClockLine, AttributeLines, MidLines, OneLine, MediaLine, PlainClock, Details, AllOneLine, PrintedPort, Unicast, Multicast,
      Params.Enabled;
    ConnectionIsOneLineEach(m);
    DetailsAreSkipped(f, c, i, n);
    MediaIsRead(PrintedPort(m), [], 0);
    StreamIsLines(m, f, c, i, n);
    OneIsOneLine(MediaLine(PrintedPort(m)));
    AllOneLineAppend([MediaLine(PrintedPort(m))], ConnectionLines(m).value);
    AllOneLineAppend([MediaLine(PrintedPort(m))] + ConnectionLines(m).value, Details(f, c, i, n));
  }

  lemma OneIsOneLine(a: string)
    requires OneLine(a)
    ensures AllOneLine([a])
  {
  }

  lemma StreamIsLines(m: Object, f: Flow, c: Clock, i: nat, n: nat)
    requires Describable(m) && ConnectionLines(m).Some?
    ensures Stream(m, f, c, i, n) == Some(StreamLines(m, f, c, i, n))
  {
    hide ConnectionLines, ClockLine, AttributeLines, MidLines, MediaLine, ValidateIp4Address, Params.Enabled;
  }

  // What receiver r becomes when stream m is read into it.
  function AfterStream(m: Object, r: Object): Object
    requires Describable(m)
  {
    AfterConnection(m, SetPort(r, DESTINATION_PORT, PrintedPort(m)))
  }

  lemma FollowStream(media: string, connection: seq<string>, details: seq<string>, rest: seq<string>,
                     rs: seq<Object>, once: seq<Object>, after: seq<Object>, i: nat)
    requires i < |rs| && ReadLine(media + "\r", rs, i - 1) == (Progress(Yes, once), i)
    requires Follow(connection + (details + rest), once, i) == Follow(details + rest, after, i)
    requires AllSkipped(details)
    ensures Follow([media] + connection + details + rest, rs, i - 1) == Follow(rest, after, i)
  {
    hide *;
    assert [media] + connection + details + rest == [media] + (connection + (details + rest));
    FollowStep(media, connection + (details + rest), rs, i - 1, Progress(Yes, once), i);
    FollowSkips(details, rest, after, i);
  }

  // The media line of a stream that has no receiver is the last one looked at.
  lemma NoReceiverLeft(media: string, rest: seq<string>, rs: seq<Object>, i: nat)
    requires i >= |rs|
    requires i == |rs| ==> ReadLine(media + "\r", rs, i - 1) == (Progress(Yes, rs), i)
    ensures Follow([media] + rest, rs, i - 1) == Progress(Yes, rs)
  {
  }

  lemma StreamIsRead(m: Object, f: Flow, c: Clock, i: nat, n: nat, rest: seq<string>, rs: seq<Object>)
    requires Describable(m) && PlainClock(c) && ConnectionLines(m).Some?
    ensures Follow(StreamLines(m, f, c, i, n) + rest, rs, i - 1)
         == if i < |rs| then Follow(rest, rs[i := AfterStream(m, rs[i])], i) else Progress(Yes, rs)
  {
    PortedStreamIsRead(m, f, c, i, n, PrintedPort(m), rest, rs);
  }

  lemma PortedStreamIsRead(m: Object, f: Flow, c: Clock, i: nat, n: nat, port: nat, rest: seq<string>, rs: seq<Object>)
    requires Describable(m) && PlainClock(c) && ConnectionLines(m).Some? && port == PrintedPort(m) && 0 < port < 65536
    ensures Follow(StreamLines(m, f, c, i, n) + rest, rs, i - 1)
         == if i < |rs| then Follow(rest, rs[i := AfterStream(m, rs[i])], i) else Progress(Yes, rs)
  {
    hide Describable, PlainClock, ConnectionLines, PrintedPort, Details, MediaLine, Follow, ReadLine, SetPort, AfterConnection, AllSkipped;
    var media, connection, details := MediaLine(port), ConnectionLines(m).value, Details(f, c, i, n);
    MediaIsRead(port, rs, i - 1);
    if i < |rs| {
      var once := rs[i := SetPort(rs[i], DESTINATION_PORT, port)];
      DetailsAreSkipped(f, c, i, n);
      ConnectionIsRead(m, details + rest, once, i);
      var after := once[i := AfterConnection(m, once[i])];
      FollowStream(media, connection, details, rest, rs, once, after, i);
      assert after == rs[i := AfterStream(m, rs[i])];
    } else {
      assert [media] + connection + details + rest == [media] + (connection + details + rest);
      NoReceiverLeft(media, connection + details + rest, rs, i);
    }
  }

  predicate AllDescribable(ms: seq<Object>, clocks: seq<Clock>) {
    |ms| == |clocks| && (forall i :: 0 <= i < |ms| ==> Describable(ms[i])) && forall i :: 0 <= i < |ms| ==> PlainClock(clocks[i])
  }

  // The receivers after the streams from i on.
  function AfterStreams(ms: seq<Object>, rs: seq<Object>, i: nat): (r: seq<Object>)
    requires forall j :: 0 <= j < |ms| ==> Describable(ms[j])
  {
    seq(|rs|, j requires 0 <= j < |rs| => if i <= j < |ms| then AfterStream(ms[j], rs[j]) else rs[j])
  }

  lemma StreamsFrom(ms: seq<Object>, f: Flow, clocks: seq<Clock>, i: nat)
    requires AllDescribable(ms, clocks) && i < |ms| && ConnectionLines(ms[i]).Some?
    requires Stream(ms[i], f, clocks[i], i, |ms|) == Some(StreamLines(ms[i], f, clocks[i], i, |ms|))
    ensures var rest := Streams(ms, f, clocks, i + 1);
      Streams(ms, f, clocks, i) == if rest.Some? then Some(StreamLines(ms[i], f, clocks[i], i, |ms|) + rest.value) else None
  {
  }

  lemma AfterStreamsNext(ms: seq<Object>, rs: seq<Object>, i: nat)
    requires i < |ms| && forall j :: 0 <= j < |ms| ==> Describable(ms[j])
    ensures AfterStreams(ms, rs, i) == if i < |rs| then AfterStreams(ms, rs[i := AfterStream(ms[i], rs[i])], i + 1) else rs
  {
  }

  lemma AllOneLineAppend(a: seq<string>, b: seq<string>)
    requires AllOneLine(a) && AllOneLine(b)
    ensures AllOneLine(a + b)
  {
  }

  lemma NoStreamLeft(ms: seq<Object>, f: Flow, clocks: seq<Clock>, rs: seq<Object>)
    requires AllDescribable(ms, clocks)
    ensures Streams(ms, f, clocks, |ms|) == Some([]) && AllOneLine([])
    ensures Follow([], rs, |ms| - 1) == Progress(Yes, AfterStreams(ms, rs, |ms|))
  {
  }

  lemma {:induction false} StreamsAreRead(ms: seq<Object>, f: Flow, clocks: seq<Clock>, i: nat, rs: seq<Object>)
    requires AllDescribable(ms, clocks) && i <= |ms|
    ensures Streams(ms, f, clocks, i).Some?
    ensures AllOneLine(Streams(ms, f, clocks, i).value)
    ensures Follow(Streams(ms, f, clocks, i).value, rs, i - 1) == Progress(Yes, AfterStreams(ms, rs, i))
    decreases |ms| - i
  {
    hide Describable, PlainClock, AfterStream, AfterStreams, Streams, Follow, StreamLines, OneLine, Stream, PrintedPort, AllOneLine, ConnectionLines;
    if i == |ms| {
      NoStreamLeft(ms, f, clocks, rs);
    } else {
      var next := if i < |rs| then rs[i := AfterStream(ms[i], rs[i])] else rs;
      AfterStreamsNext(ms, rs, i);
      StreamIsWritten(ms[i], f, clocks[i], i, |ms|);
      StreamsAreRead(ms, f, clocks, i + 1, next);
      StreamsFrom(ms, f, clocks, i);
      var lines, rest := StreamLines(ms[i], f, clocks[i], i, |ms|), Streams(ms, f, clocks, i + 1).value;
      AllOneLineAppend(lines, rest);
      StreamIsRead(ms[i], f, clocks[i], i, |ms|, rest, rs);
    }
  }

  // ---------- The round trip ----------

  // The receiver at j after reading: it is enabled, its source is the one of its stream, or of stream
  // 0 when that is unicast or missing, and it has the port and the multicast address of its stream.
  function Expected(ms: seq<Object>, r: Object, j: nat): Object
    requires |ms| > 0 && forall i :: 0 <= i < |ms| ==> Describable(ms[i])
  {
    if j < |ms| then ExpectedStream(ms[j], r, GetSourceIp(ms[0])) else Sourced(r, GetSourceIp(ms[0]))
  }

  function Sourced(r: Object, source: string): Object {
    r[RTP_ENABLED := Bool(true)][SOURCE_IP := Str(source + "\r")]
  }

  function Ported(m: Object, r: Object, port: nat): Object {
    if DESTINATION_PORT in r then m[DESTINATION_PORT := Int(port)] else m
  }

  function ExpectedStream(m: Object, r: Object, first: string): Object
    requires Describable(m)
  {
    var addressed := if Multicast(m) then Sourced(r, GetSourceIp(m))[MULTICAST_IP := Str(Destination(m))]
                     else Sourced(r, first)[MULTICAST_IP := Null];
    Ported(addressed, r, PrintedPort(m))
  }

  lemma FollowHeader(v: string, origin: string, s: string, t: string, group: seq<string>, rest: seq<string>,
                     rs: seq<Object>, after: seq<Object>)
    requires Skipped(v) && Skipped(s) && Skipped(t) && AllSkipped(group)
    requires ReadLine(origin + "\r", rs, -1) == (Progress(Yes, after), -1)
    ensures Follow([v, origin, s, t] + group + rest, rs, -1) == Follow(rest, after, -1)
  {
    hide Skipped, ReadLine, Follow;
    var later := [s, t] + group;
    assert AllSkipped([v]) && AllSkipped(later);
    FollowSkips([v], [origin] + (later + rest), rs, -1);
    FollowStep(origin, later + rest, rs, -1, Progress(Yes, after), -1);
    FollowSkips(later, rest, after, -1);
    assert [v, origin, s, t] + group + rest == [v] + ([origin] + (later + rest));
  }

  lemma GroupLinesAreSkipped(n: nat)
    ensures AllSkipped(GroupLines(n)) && AllOneLine(GroupLines(n))
  {
    GroupIsQuiet(n);
    hide Group, Skipped;
    GroupIsSkipped(Group(n));
  }

  lemma SessionLinesAreSkipped(name: string)
    requires OneLine(name)
    ensures Skipped("v=0") && Skipped("s=" + name) && Skipped("t=0 0 ")
    ensures OneLine("v=0") && OneLine("s=" + name) && OneLine("t=0 0 ")
  {
  }

  lemma HeaderIsRead(ms: seq<Object>, name: string, start: TaiTime.int64, now: TaiTime.int64, rest: seq<string>, rs: seq<Object>)
    requires |ms| > 0 && Unicast(GetSourceIp(ms[0])) && OneLine(name)
    ensures var origin := OriginLine(ms[0], start, now);
      && origin.Some?
      && var header := ["v=0", origin.value, "s=" + name, "t=0 0 "] + GroupLines(|ms|);
      && AllOneLine(header)
      && Follow(header + rest, rs, -1) == Follow(rest, AllSources(rs, GetSourceIp(ms[0]) + "\r"), -1)
  {
    OriginIsRead(ms[0], start, now, rs, -1);
    GroupLinesAreSkipped(|ms|);
    SessionLinesAreSkipped(name);
    hide *;
    FollowHeader("v=0", OriginLine(ms[0], start, now).value, "s=" + name, "t=0 0 ", GroupLines(|ms|), rest, rs,
                 AllSources(rs, GetSourceIp(ms[0]) + "\r"));
  }

  lemma UpdatesCommute(r: Object, first: string, source: string, ip: string, port: nat)
    requires ip != "" && port > 0
    ensures var ported := SetPort(SetSourceIp(EnableRtp(r, false), first + "\r"), DESTINATION_PORT, port);
      && EnableRtp(SetMulticastIp(ported, ""), true)
         == Ported(Sourced(r, first)[MULTICAST_IP := Null], r, port)
      && EnableRtp(SetSourceIp(SetMulticastIp(ported, ip), source + "\r"), true)
         == Ported(Sourced(r, source)[MULTICAST_IP := Str(ip)], r, port)
  {
  }

  lemma ConnectionIsAsExpected(m: Object, r: Object, first: string, port: nat)
    requires Describable(m) && port == PrintedPort(m)
    ensures var sourced := SetSourceIp(EnableRtp(r, false), first + "\r");
      EnableRtp(AfterConnection(m, SetPort(sourced, DESTINATION_PORT, port)), true) == ExpectedStream(m, r, first)
  {
    assert Destination(m) != "" && port > 0;
    UpdatesCommute(r, first, GetSourceIp(m), Destination(m), port);
    hide Describable, GetSourceIp, ValidateIp4Address, Multicast, Destination, PrintedPort;
    hide SetPort, SetSourceIp, SetMulticastIp, EnableRtp, Ported, Sourced;
  }

  lemma ReceiverIsAsExpected(ms: seq<Object>, r: Object, j: nat)
    requires |ms| > 0 && Unicast(GetSourceIp(ms[0])) && forall i :: 0 <= i < |ms| ==> Describable(ms[i])
    ensures var sourced := SetSourceIp(EnableRtp(r, false), GetSourceIp(ms[0]) + "\r");
      EnableRtp(if j < |ms| then AfterStream(ms[j], sourced) else sourced, true) == Expected(ms, r, j)
  {
    if j < |ms| {
      assert Describable(ms[j]);
      ConnectionIsAsExpected(ms[j], r, GetSourceIp(ms[0]), PrintedPort(ms[j]));
      hide Describable, GetSourceIp, PrintedPort, AfterConnection, ExpectedStream, SetSourceIp, SetPort;
    } else {
      hide Describable, GetSourceIp;
    }
  }

  lemma HeadAndStreams(ms: seq<Object>, name: string, f: Flow, clocks: seq<Clock>, start: TaiTime.int64, now: TaiTime.int64, rs: seq<Object>)
    requires |ms| > 0 && AllDescribable(ms, clocks) && Unicast(GetSourceIp(ms[0])) && OneLine(name)
    ensures LinesOf(ms, name, f, clocks, start, now).Some?
    ensures var lines := LinesOf(ms, name, f, clocks, start, now).value;
      && AllOneLine(lines)
      && Follow(lines, rs, -1) == Progress(Yes, AfterStreams(ms, AllSources(rs, GetSourceIp(ms[0]) + "\r"), 0))
  {
    hide Follow, Unicast, OneLine, Streams, OriginLine, AfterStreams, GetSourceIp, GroupLines, AllSources, Describable, PlainClock;
    var sourced := AllSources(rs, GetSourceIp(ms[0]) + "\r");
    StreamsAreRead(ms, f, clocks, 0, sourced);
    HeaderIsRead(ms, name, start, now, Streams(ms, f, clocks, 0).value, rs);
  }

  // Whatever the number of receivers: the written text is accepted and gives each what was written.
  lemma WrittenIsRead(ms: seq<Object>, name: string, f: Flow, clocks: seq<Clock>, start: TaiTime.int64, now: TaiTime.int64, rs: seq<Object>)
    requires |ms| > 0 && AllDescribable(ms, clocks) && Unicast(GetSourceIp(ms[0])) && OneLine(name)
    ensures var text := TransportParamsToSdp(ms, name, f, clocks, start, now);
      && text.Some?
      && Read(text.value, rs) == Progress(Yes, seq(|rs|, j requires 0 <= j < |rs| => Expected(ms, rs[j], j)))
  {
    var disabled := EnableAll(rs, false);
    var sourced := AllSources(disabled, GetSourceIp(ms[0]) + "\r");
    var read := AfterStreams(ms, sourced, 0);
    forall j | 0 <= j < |rs| ensures EnableRtp(read[j], true) == Expected(ms, rs[j], j) {
      ReceiverIsAsExpected(ms, rs[j], j);
      hide Describable, GetSourceIp, AfterStream, Expected, SetSourceIp, Unicast;
    }
    assert EnableAll(read, true) == seq(|rs|, j requires 0 <= j < |rs| => Expected(ms, rs[j], j)) by {
      hide Describable, GetSourceIp, AfterStreams, Expected, Unicast;
    }
    HeadAndStreams(ms, name, f, clocks, start, now, disabled);
    var lines := LinesOf(ms, name, f, clocks, start, now).value;
    TextIsFollowed(lines, disabled, -1);
    hide AllDescribable, LinesOf, Follow, Describable, OneLine, Streams, OriginLine, AfterStreams, Expected, GetSourceIp, EnableAll, ReadText, TextOf;
  }

  // ---------- The round trip, on the parameters alone ----------

  // The port a stream is sent to: the number at destination_port as 16 bits, where 0 means 5004, as do
  // "auto" and a missing one. None for anything else.
  function PortSent(m: Object): Option<nat> {
    if DESTINATION_PORT !in m then Some(5004) else
    match m[DESTINATION_PORT]
    case Str(s) => if s == "auto" then Some(5004) else None
    case Int(n) => if 0 <= n < 0x1_0000_0000 then Some(if n % 65536 == 0 then 5004 else n % 65536) else None
    case Bool(b) => Some(if b then 1 else 5004)
    case Null => Some(5004)
    case _ => None
  }

  function SourceSent(m: Object): string {
    if SOURCE_IP in m && m[SOURCE_IP].Str? then m[SOURCE_IP].s else ""
  }

  // A port, a destination that is a unicast address, or a multicast one with a unicast source, and
  // RTCP off.
  predicate Sendable(m: Object) {
    && PortSent(m).Some? && DESTINATION_IP in m && m[DESTINATION_IP].Str? && !Params.Enabled(m, RTCP_ENABLED)
    && var ip := m[DESTINATION_IP].s;
    Unicast(ip) || (Plain(ip) && ValidateIp4Address(ip) == IP4_MULTI && Unicast(SourceSent(m)))
  }

  // The receiver q is r with the media enabled and the source followed by a carriage return. Of its
  // stream, if there is one, it has the port, when it has one at all, and the multicast address.
  ghost predicate Receives(q: Object, r: Object, source: string, stream: Option<Object>) {
    && RTP_ENABLED in q && q[RTP_ENABLED] == Bool(true) && SOURCE_IP in q && q[SOURCE_IP] == Str(source + "\r")
    && (forall k :: k !in {RTP_ENABLED, SOURCE_IP, MULTICAST_IP, DESTINATION_PORT} ==>
          (k in q <==> k in r) && (k in r ==> q[k] == r[k]))
    && (DESTINATION_PORT in q <==> DESTINATION_PORT in r)
    && match stream
       case None => (forall k :: k in {MULTICAST_IP, DESTINATION_PORT} ==> (k in q <==> k in r) && (k in r ==> q[k] == r[k]))
       case Some(m) =>
         && Sendable(m) && (DESTINATION_PORT in q ==> q[DESTINATION_PORT] == Int(PortSent(m).value))
         && MULTICAST_IP in q && q[MULTICAST_IP] == if Unicast(m[DESTINATION_IP].s) then Null else m[DESTINATION_IP]
  }

  // The source of receiver j: that of its stream when it is multicast, and otherwise that of stream 0.
  function SourceFor(ms: seq<Object>, j: nat): string
    requires |ms| > 0
  {
    if j < |ms| && Sendable(ms[j]) && !Unicast(ms[j][DESTINATION_IP].s) then SourceSent(ms[j]) else SourceSent(ms[0])
  }

  lemma SendableIsDescribable(m: Object)
    requires Sendable(m)
    ensures Describable(m) && PrintedPort(m) == PortSent(m).value && GetSourceIp(m) == SourceSent(m)
    ensures Destination(m) == m[DESTINATION_IP].s && (Multicast(m) <==> !Unicast(m[DESTINATION_IP].s))
  {
    hide ValidateIp4Address, Params.Enabled;
  }

  lemma StreamIsReceived(m: Object, r: Object, first: string)
    requires Sendable(m) && Describable(m)
    ensures Receives(ExpectedStream(m, r, first), r, if Unicast(m[DESTINATION_IP].s) then first else SourceSent(m), Some(m))
  {
    SendableIsDescribable(m);
    var port := PortSent(m).value;
    hide Describable, Sendable, GetSourceIp, SourceSent, Unicast, PortSent, PrintedPort, Destination, Multicast, Params.Enabled;
  }

  lemma NoStreamIsReceived(r: Object, first: string)
    ensures Receives(Sourced(r, first), r, first, None)
  {
  }

  lemma ExpectedIsReceived(ms: seq<Object>, r: Object, j: nat)
    requires |ms| > 0 && (forall i :: 0 <= i < |ms| ==> Describable(ms[i]) && Sendable(ms[i]))
    ensures Receives(Expected(ms, r, j), r, SourceFor(ms, j), if j < |ms| then Some(ms[j]) else None)
  {
    hide Describable, GetSourceIp, SourceSent, Unicast, PortSent, PrintedPort, ExpectedStream, Sourced, Receives;
    SendableIsDescribable(ms[0]);
    if j < |ms| {
      StreamIsReceived(ms[j], r, SourceSent(ms[0]));
    } else {
      NoStreamIsReceived(r, SourceSent(ms[0]));
    }
  }

  // For every sender with such parameters and any number of receivers: the text is written, its reading
  // succeeds, and each receiver has the port, the address and the source of its own stream.
  lemma SdpRoundTrip(ms: seq<Object>, name: string, f: Flow, clocks: seq<Clock>, start: TaiTime.int64, now: TaiTime.int64, rs: seq<Object>)
      returns (text: string, qs: seq<Object>)
    requires |ms| > 0 && |clocks| == |ms| && OneLine(name) && Unicast(SourceSent(ms[0]))
    requires forall i :: 0 <= i < |ms| ==> Sendable(ms[i]) && PlainClock(clocks[i])
    ensures TransportParamsToSdp(ms, name, f, clocks, start, now) == Some(text)
    ensures Read(text, rs) == Progress(Yes, qs) && |qs| == |rs|
    ensures forall j :: 0 <= j < |rs| ==> Receives(qs[j], rs[j], SourceFor(ms, j), if j < |ms| then Some(ms[j]) else None)
  {
    hide Sendable, Describable, PlainClock, Unicast, OneLine, Expected, Receives, SourceFor, Read, TransportParamsToSdp, SourceSent;
    hide GetSourceIp;
    forall i | 0 <= i < |ms| ensures Describable(ms[i]) && GetSourceIp(ms[i]) == SourceSent(ms[i]) {
      SendableIsDescribable(ms[i]);
    }
    WrittenIsRead(ms, name, f, clocks, start, now, rs);
    text := TransportParamsToSdp(ms, name, f, clocks, start, now).value;
    qs := seq(|rs|, j requires 0 <= j < |rs| => Expected(ms, rs[j], j));
    forall j | 0 <= j < |rs| ensures Receives(qs[j], rs[j], SourceFor(ms, j), if j < |ms| then Some(ms[j]) else None) {
      ExpectedIsReceived(ms, rs[j], j);
    }
  }

  // ---------- The lines, word for word ----------

  function BitsText(f: Format): string {
    match f case L24 => "24" case L20 => "20" case L16 => "16" case L8 => "8"
  }

  function TimeText(p: PacketTime): string {
    match p case US_125 => "0.125" case US_250 => "0.250" case US_333 => "0.333" case US_1000 => "1" case US_4000 => "4"
  }

  function ClockText(c: Clock): string {
    match c
    case Local => "a=ts-refclk:local"
    case Traceable => "a=ts-refclk:ptp=traceable"
    case Ptp(version, gmid) => "a=ts-refclk:ptp=" + version + ":" + gmid
    case Mac(port) => "a=ts-refclk:localmac=" + port
  }

  lemma DetailsAreSpelled(f: Flow, c: Clock)
    ensures [ClockLine(c)] + AttributeLines(f) ==
      [ClockText(c), "a=rtpmap:96 L" + (BitsText(f.format) + "/" + Dec(f.rate) + "/" + Dec(f.channels)),
       "a=ptime:" + TimeText(f.packetTime), "a=mediaclk:direct=" + Dec(f.offset)]
  {
    hide Dec;
    assert FormatName(f.format) == BitsText(f.format) && PacketTimeName(f.packetTime) == TimeText(f.packetTime);
    assert ClockLine(c) == ClockText(c);
  }

  lemma ConnectionIsSpelled(m: Object)
    requires Sendable(m)
    ensures
      var ip := m[DESTINATION_IP].s;
      ConnectionLines(m) == Some(
        if Unicast(ip) then ["c=IN IP4 " + ip]
        else ["c=IN IP4 " + ip + "/32", "a=source-filter: incl IN IP4 " + ip + " " + SourceSent(m)])
  {
    hide ValidateIp4Address, Params.Enabled;
    SendableIsDescribable(m);
  }

  // What is written of a stream that is sendable: its media and connection lines, those of the clock
  // and the format, and its label when there are several.
  lemma StreamIsSpelled(m: Object, f: Flow, c: Clock, i: nat, n: nat)
    requires Sendable(m)
    ensures
      var ip := m[DESTINATION_IP].s;
      Stream(m, f, c, i, n) == Some(
        ["m=audio " + Dec(PortSent(m).value) + " RTP/AVP 96"]
        + (if Unicast(ip) then ["c=IN IP4 " + ip]
           else ["c=IN IP4 " + ip + "/32", "a=source-filter: incl IN IP4 " + ip + " " + SourceSent(m)])
        + ([ClockText(c), "a=rtpmap:96 L" + (BitsText(f.format) + "/" + Dec(f.rate) + "/" + Dec(f.channels)),
            "a=ptime:" + TimeText(f.packetTime), "a=mediaclk:direct=" + Dec(f.offset)]
           + if n > 1 then ["a=mid:S" + Dec(i + 1)] else []))
  {
    DetailsAreSpelled(f, c);
    ConnectionIsSpelled(m);
    SendableIsDescribable(m);
    hide Dec, ClockLine, AttributeLines, ConnectionLines, Sendable, PortSent, Unicast, SourceSent, ClockText, BitsText, TimeText;
    hide Describable, Multicast, Destination;
    var some := [ClockLine(c)] + AttributeLines(f);
    assert RtcpLines(m) == Some([]) by { NoRtcpLines(m); }
    assert some + [] == some;
  }

  // The lines before the streams.
  lemma HeaderIsSpelled(ms: seq<Object>, name: string, f: Flow, clocks: seq<Clock>, start: TaiTime.int64, now: TaiTime.int64)
    requires |ms| > 0 && |clocks| == |ms| && Unicast(SourceSent(ms[0])) && Streams(ms, f, clocks, 0).Some?
    ensures
      var seconds := (t: TaiTime.int64) => DecInt(TaiTime.Quotient(t, 1_000_000_000));
      LinesOf(ms, name, f, clocks, start, now) == Some(
        ["v=0", "o=- " + seconds(start) + " " + seconds(now) + " IN IP4 " + SourceSent(ms[0]), "s=" + name, "t=0 0 "]
        + (if |ms| > 1 then ["a=group:DUP " + Group(|ms|)] else []) + Streams(ms, f, clocks, 0).value)
  {
    hide DecInt, ValidateIp4Address, Streams, Group, TaiTime.Quotient;
    assert SourceSent(ms[0]) == GetSourceIp(ms[0]);
  }

  lemma NoRtcpLines(m: Object)
    requires Sendable(m)
    ensures RtcpLines(m) == Some([])
  {
  }

  // A last field.
  lemma {:induction false} SplitAtEnd(s: string, w: string, c: char)
    requires Word(w, c)
    ensures Split(s + [c] + w, c) == Split(s, c) + [w]
    decreases |s|
  {
    hide Split, UpTo;
    if c !in s {
      SplitStep(s, w, c);
      SplitWord(w, c);
      if s != "" {
        SplitWord(s, c);
      } else {
        assert Split(s, c) == [] by { NothingSplits(c); }
      }
    } else {
      var i := UpTo(s, c);
      var a, rest := s[..i], s[i + 1..];
      assert s == a + [c] + rest;
      Regrouped(a, [c], rest, w);
      SplitStep(a, rest, c);
      SplitStep(a, rest + [c] + w, c);
      SplitAtEnd(rest, w, c);
      var first := if a == "" then [] else [a];
      assert first + (Split(rest, c) + [w]) == first + Split(rest, c) + [w];
    }
  }

  lemma Regrouped(a: string, c: string, rest: string, w: string)
    ensures a + c + rest + c + w == a + c + (rest + c + w)
  {
  }

  lemma NothingSplits(c: char)
    ensures Split("", c) == []
  {
  }

  lemma LabelIsAWord(k: nat)
    ensures Word("S" + Dec(k), ' ')
  {
  }

  // The group names every stream, in order, by the label of its own line.
  lemma {:induction false} GroupIsSpelled(n: nat)
    ensures Split(Group(n), ' ') == seq(n, i requires 0 <= i < n => "S" + Dec(i + 1))
    decreases n
  {
    hide Dec, Split;
    if n == 0 {
      NothingSplits(' ');
    } else if n == 1 {
      OneDigit();
      LabelIsAWord(1);
      SplitWord("S1", ' ');
    } else {
      GroupIsSpelled(n - 1);
      LabelIsAWord(n);
      SplitAtEnd(Group(n - 1), "S" + Dec(n), ' ');
      assert Group(n) == Group(n - 1) + [' '] + ("S" + Dec(n));
    }
  }

  lemma OneDigit()
    ensures "S" + Dec(1) == "S1"
  {
  }
}
