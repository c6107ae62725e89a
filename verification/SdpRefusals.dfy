/** What the reader refuses (base/src/sdp.cpp, lines 17-370), the lines that the writer itself makes of
    some senders among it. */
module SdpRefusals {
  import opened Containers
  import opened Text
  import opened Json
  import Params = TransportParams
  import opened SdpReader
  import opened SdpWriter
  import opened SdpRoundTrip
  import TaiTime

  // ---------- Addresses ----------

  lemma {:induction false} PartsAreCheckedExactly(v: seq<nat>)
    requires forall i :: 0 <= i < |v| ==> v[i] < 0x8000_0000_0000_0000
    ensures CheckParts(seq(|v|, i requires 0 <= i < |v| => Dec(v[i])))
         == if forall i :: 0 <= i < |v| ==> v[i] <= 255 then Yes else No
    decreases |v|
  {
    hide Dec, ParsePart;
    var texts := seq(|v|, i requires 0 <= i < |v| => Dec(v[i]));
    if v != [] {
      DecIsParsed(v[0]);
      PartsAreCheckedExactly(v[1..]);
      assert texts[1..] == seq(|v[1..]|, i requires 0 <= i < |v[1..]| => Dec(v[1..][i]));
      if forall i :: 0 <= i < |v[1..]| ==> v[1..][i] <= 255 {
        assert forall i :: 0 < i < |v| ==> v[i] == v[1..][i - 1];
      } else {
        var i :| 0 <= i < |v[1..]| && v[1..][i] > 255;
        assert v[i + 1] > 255;
      }
    }
  }

  // Four decimal parts are an address exactly when each is at most 255, and a multicast one exactly
  // when the first is from 224 to 239.
  lemma DottedIsAnAddressExactly(a: nat, b: nat, c: nat, d: nat)
    requires a < 0x8000_0000_0000_0000 && b < 0x8000_0000_0000_0000 && c < 0x8000_0000_0000_0000 && d < 0x8000_0000_0000_0000
    ensures ValidateIp4Address(Dotted(a, b, c, d)) ==
      if a > 255 || b > 255 || c > 255 || d > 255 then IP_INVALID else if 224 <= a <= 239 then IP4_MULTI else IP4_UNI
  {
    hide Dec, ParsePart, Split, CheckParts, Dotted;
    DottedSplits(a, b, c, d);
    DecIsParsed(a);
    var v := [a, b, c, d];
    PartsAreCheckedExactly(v);
    assert seq(|v|, i requires 0 <= i < |v| => Dec(v[i])) == [Dec(a), Dec(b), Dec(c), Dec(d)];
    assert v[0] == a && v[1] == b && v[2] == c && v[3] == d;
  }

  // A leading 0 makes a part octal, and 0x hexadecimal.
  lemma PartsHaveBases()
    ensures ParsePart("10") == Number(10) && ParsePart("010") == Number(8) && ParsePart("0x10") == Number(16)
    ensures ParsePart("0X1f") == Number(31) && ParsePart("0") == Number(0)
  {
    assert "10"[1..] == "0" && "010"[1..] == "10" && "0x10"[2..] == "10" && "0X1f"[2..] == "1f" && "1f"[1..] == "f";
    assert "0"[1..] == "" && "f"[1..] == "";
    assert Horner("0", 10, 1) == 10 && Horner("0", 8, 1) == 8 && Horner("0", 16, 1) == 16 && Horner("f", 16, 1) == 31;
    assert Horner("10", 10, 0) == 10 && Horner("10", 8, 0) == 8 && Horner("10", 16, 0) == 16 && Horner("1f", 16, 0) == 31;
    assert Horner("010", 8, 0) == 8 && Horner("0", 10, 0) == 0;
  }

  // ---------- Lines ----------

  // A media line is accepted exactly when its port is from 1 to 65535.
  lemma MediaIsReadExactly(port: nat, rs: seq<Object>, n: int)
    requires port < 0x8000_0000_0000_0000 && -1 <= n < |rs| - 1
    ensures ReadLine(MediaLine(port) + "\r", rs, n).0.verdict == if 0 < port < 65536 then Yes else No
  {
    hide Dec, Split, Stol, SetPort;
    StolReadsDec(port, "");
    assert DecInt(port) + "" == Dec(port);
    MediaFields(port);
    assert MediaLine(port)[0] == 'm';
  }

  // A description whose first stream has a multicast source is written and refused at its origin.
  lemma MulticastOriginIsRefused(m: Object, start: TaiTime.int64, now: TaiTime.int64, rs: seq<Object>, n: int)
    requires SOURCE_IP in m && m[SOURCE_IP].Str? && Plain(m[SOURCE_IP].s) && ValidateIp4Address(m[SOURCE_IP].s) == IP4_MULTI
    ensures var line := OriginLine(m, start, now);
      line.Some? && ReadLine(line.value + "\r", rs, n).0.verdict == No
  {
    var ip := m[SOURCE_IP].s;
    var t, u := TaiTime.ConvertTimeToString(start, false), TaiTime.ConvertTimeToString(now, false);
    SecondsAreAWord(start);
    SecondsAreAWord(now);
    OriginFields(t, u, ip);
    AddressIgnoresReturn(ip);
    hide ValidateIp4Address, Split, TaiTime.ConvertTimeToString, AllSources;
    assert OriginLine(m, start, now) == Some("o=- " + t + " " + u + " IN IP4 " + ip);
  }

  // One whose first stream has no valid source is written without a version of IP, and refused as well.
  lemma InvalidOriginIsRefused(m: Object, start: TaiTime.int64, now: TaiTime.int64, rs: seq<Object>, n: int)
    requires SOURCE_IP in m && m[SOURCE_IP].Str? && Word(m[SOURCE_IP].s, ' ') && ValidateIp4Address(m[SOURCE_IP].s) == IP_INVALID
    ensures
      var t, u := TaiTime.ConvertTimeToString(start, false), TaiTime.ConvertTimeToString(now, false);
      var line := "o=- " + t + " " + u + " IN IP " + m[SOURCE_IP].s;
      OriginLine(m, start, now) == Some(line) && ReadLine(line + "\r", rs, n) == (Progress(No, rs), n)
  {
    var ip := m[SOURCE_IP].s;
    var t, u := TaiTime.ConvertTimeToString(start, false), TaiTime.ConvertTimeToString(now, false);
    SecondsAreAWord(start);
    SecondsAreAWord(now);
    NoVersionFields(t, u, ip);
    hide ValidateIp4Address, Split, TaiTime.ConvertTimeToString, AllSources;
  }

  lemma NoVersionFields(t: string, u: string, ip: string)
    requires Word(t, ' ') && Word(u, ' ') && Word(ip, ' ')
    ensures Split("o=- " + t + " " + u + " IN IP " + ip + "\r", ' ') == ["o=-", t, u, "IN", "IP", ip + "\r"]
  {
    hide Split;
    var last := ip + "\r";
    SplitWord(last, ' ');
    SplitStep("IP", last, ' ');
    var four := "IP" + " " + last;
    SplitStep("IN", four, ' ');
    var three := "IN" + " " + four;
    SplitStep(u, three, ' ');
    SplitStep(t, u + " " + three, ' ');
    SplitStep("o=-", t + " " + (u + " " + three), ' ');
    assert "o=- " + t + " " + u + " IN IP " + ip + "\r" == "o=-" + " " + (t + " " + (u + " " + three));
  }

  // A connection line is accepted exactly when its address is valid.
  lemma ConnectionIsReadExactly(ip: string, rs: seq<Object>, n: nat)
    requires Plain(ip) && n < |rs|
    ensures ReadLine("c=IN IP4 " + ip + "\r", rs, n).0.verdict ==
      match ValidateIp4Address(ip)
      case IP4_UNI => Yes
      case IP4_MULTI => Yes
      case IP_THROWS => Throws
      case IP_INVALID => No
  {
    var last := ip + "\r";
    UpToNone(last, '/');
    AddressIgnoresReturn(ip);
    ConnectionFields(last);
    hide UpTo, ValidateIp4Address, SetMulticastIp, Split;
    assert last[..|last|] == last;
    assert "c=IN IP4 " + ip + "\r" == "c=IN IP4 " + last;
  }

  // A source filter is accepted exactly when it filters a multicast address for a unicast source.
  lemma FilterIsReadExactly(ip: string, source: string, rs: seq<Object>, n: nat)
    requires Plain(ip) && Plain(source) && n < |rs|
    ensures ReadLine("a=source-filter: incl IN IP4 " + ip + " " + source + "\r", rs, n).0.verdict == Yes
      <==> ValidateIp4Address(ip) == IP4_MULTI && ValidateIp4Address(source) == IP4_UNI
  {
    var last := source + "\r";
    var two := ip + " " + last;
    var rest := " incl IN IP4 " + two;
    FilterFields(ip, last);
    AddressIgnoresReturn(source);
    FilterText(two);
    hide Split, ReadLine, ValidateIp4Address, SetSourceIp;
    FilterIsDispatched("a=source-filter: incl IN IP4 " + two, rest, rs, n);
    RegroupTwo("a=source-filter: incl IN IP4 ", ip, " ", source, "\r");
  }

  // ---------- Texts ----------

  // No line changes how many receivers there are or which are enabled.
  lemma LineKeepsEnabled(line: string, rs: seq<Object>, n: int)
    ensures var q := ReadLine(line, rs, n).0.rs;
      |q| == |rs| && forall j :: 0 <= j < |rs| ==> At(q[j], RTP_ENABLED) == At(rs[j], RTP_ENABLED)
  {
    hide Split, ValidateIp4Address, Stol, After, UpTo;
  }

  lemma {:induction false} TextKeepsEnabled(text: string, rs: seq<Object>, n: int)
    ensures var q := ReadText(text, rs, n).rs;
      |q| == |rs| && forall j :: 0 <= j < |rs| ==> At(q[j], RTP_ENABLED) == At(rs[j], RTP_ENABLED)
    decreases |text|
  {
    hide ReadLine, UpTo;
    match GetLine(text, '\n')
    case EndOfStream =>
    case Line(line, rest) =>
      if n < |rs| {
        LineKeepsEnabled(line, rs, n);
        var (p, m) := ReadLine(line, rs, n);
        TextKeepsEnabled(rest, p.rs, m);
      }
  }

  // Whatever the text: the receivers are all enabled when it is accepted, and all disabled when not.
  lemma EnabledExactly(text: string, rs: seq<Object>)
    ensures var p := Read(text, rs);
      |p.rs| == |rs| && forall j :: 0 <= j < |rs| ==> At(p.rs[j], RTP_ENABLED) == Bool(p.verdict == Yes)
  {
    hide ReadText;
    TextKeepsEnabled(text, EnableAll(rs, false), -1);
  }

  // ---------- RTCP ----------

  lemma RtcpFields(port: nat, last: string)
    requires Word(last, ' ')
    ensures Split(Dec(port) + " IN IP4 " + last, ' ') == [Dec(port), "IN", "IP4", last]
  {
    hide Split, Dec;
    SplitWord(last, ' ');
    SplitStep("IP4", last, ' ');
    SplitStep("IN", "IP4" + " " + last, ' ');
    SplitStep(Dec(port), "IN" + " " + ("IP4" + " " + last), ' ');
    assert Dec(port) + " IN IP4 " + last == Dec(port) + " " + ("IN" + " " + ("IP4" + " " + last));
  }

  lemma RtcpIsDispatched(rest: string, rs: seq<Object>, n: int)
    requires '=' !in rest
    ensures ReadLine(STR_RTCP + rest, rs, n) == (ParseRtcp(rest, rs, n), n)
  {
    hide ParseRtcp, ParseSourceFilter;
    var line := STR_RTCP + rest;
    assert line[0] == 'a' && line[2] == 'r' && forall k :: 2 <= k < |line| ==> line[k] != '=';
    NotFound(line, 2, STR_FILTER);
    assert STR_RTCP <= line && line[|STR_RTCP|..] == rest;
  }

  // The writer's line for RTCP: of an enabled group with a number and an IPv4 address.
  lemma RtcpIsWritten(m: Object, port: nat, ip: string)
    requires RTCP_ENABLED in m && m[RTCP_ENABLED] == Bool(true) && port < 0x1_0000_0000
    requires RTCP_DESTINATION_PORT in m && m[RTCP_DESTINATION_PORT] == Int(port)
    requires RTCP_DESTINATION_IP in m && m[RTCP_DESTINATION_IP] == Str(ip)
    requires ValidateIp4Address(ip) == IP4_UNI || ValidateIp4Address(ip) == IP4_MULTI
    ensures RtcpLines(m) == Some(["a=rtcp:" + Dec(port) + " IN IP4 " + ip])
  {
    hide ValidateIp4Address, Dec;
  }

  // The reader refuses just that line, after it has taken the port from it: so no description with
  // RTCP can be read back.
  lemma RtcpIsRefused(port: nat, ip: string, rs: seq<Object>, n: nat)
    requires 0 < port < 65536 && Word(ip, ' ') && '=' !in ip && n < |rs|
    ensures ReadLine("a=rtcp:" + Dec(port) + " IN IP4 " + ip + "\r", rs, n)
         == (Progress(No, rs[n := SetPort(rs[n], RTCP_DESTINATION_PORT, port)]), n)
  {
    var last := ip + "\r";
    var rest := Dec(port) + " IN IP4 " + last;
    assert '=' !in rest;
    hide Dec, Split, Stol, SetPort, ReadLine;
    RtcpFields(port, last);
    PortIsRead(port);
    RtcpIsDispatched(rest, rs, n);
    assert "a=rtcp:" + Dec(port) + " IN IP4 " + ip + "\r" == STR_RTCP + rest;
  }
}
