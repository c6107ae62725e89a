/** Writing the session description of a raw audio sender (base/src/sdp.cpp, lines 373-522,
    base/src/flowaudioraw.cpp, lines 112-173, base/src/self.cpp, lines 334-374). The functions give
    lines; each of them is followed by CRLF in the text. */
module SdpWriter {
  import opened Containers
  import opened Text
  import opened Json
  import Params = TransportParams
  import opened SdpReader
  import TaiTime

  // The fields the attribute lines print: bits per sample, packet time, sample rate, channels and the
  // media clock offset.
  datatype Format = L24 | L20 | L16 | L8
  datatype PacketTime = US_125 | US_250 | US_333 | US_1000 | US_4000
  datatype Flow = Flow(format: Format, packetTime: PacketTime, rate: nat, channels: nat, offset: nat)

  // The clock of the source, as far as its line shows: Mac is the port of the chosen interface.
  datatype Clock = Local | Traceable | Ptp(version: string, gmid: string) | Mac(port: string)

  function GetSourceIp(m: Object): string {
    if At(m, SOURCE_IP).Str? then m[SOURCE_IP].s else ""
  }

  // None when JsonCpp throws.
  function GetDestinationIp(m: Object): Option<string> {
    AsString(At(m, DESTINATION_IP))
  }

  // As an unsigned short; "auto" and a missing port are 5004.
  function GetDestinationPort(m: Object): Option<nat> {
    if DESTINATION_PORT !in m || m[DESTINATION_PORT] == Str(Params.AUTO) then Some(5004)
    else match AsUInt(m[DESTINATION_PORT]) case None => None case Some(n) => Some(n % 65536)
  }

  function OriginLine(m: Object, start: TaiTime.int64, now: TaiTime.int64): Option<string> {
    var ip := GetSourceIp(m);
    var times := "o=- " + TaiTime.ConvertTimeToString(start, false) + " " + TaiTime.ConvertTimeToString(now, false);
    match ValidateIp4Address(ip)
    case IP_THROWS => None
    case IP_INVALID => Some(times + " IN IP " + ip)
    case _ => Some(times + " IN IP4 " + ip)
  }

  function MediaLine(port: nat): string {
    "m=audio " + Dec(port) + " RTP/AVP 96"
  }

  function ConnectionLines(m: Object): Option<seq<string>> {
    match GetDestinationIp(m)
    case None => None
    case Some(ip) =>
      match ValidateIp4Address(ip)
      case IP_THROWS => None
      case IP4_UNI => Some(["c=IN IP4 " + ip])
      case IP4_MULTI => Some(["c=IN IP4 " + ip + "/32", "a=source-filter: incl IN IP4 " + ip + " " + GetSourceIp(m)])
      case IP_INVALID => Some([])
  }

  function ClockLine(c: Clock): string {
    match c
    case Local => "a=ts-refclk:local"
    case Traceable => "a=ts-refclk:ptp=traceable"
    case Ptp(version, gmid) => "a=ts-refclk:ptp=" + version + ":" + gmid
    case Mac(port) => "a=ts-refclk:localmac=" + port
  }

  function FormatName(f: Format): string {
    match f
    case L24 => "24"
    case L20 => "20"
    case L16 => "16"
    case L8 => "8"
  }

  function PacketTimeName(p: PacketTime): string {
    match p
    case US_125 => "0.125"
    case US_250 => "0.250"
    case US_333 => "0.333"
    case US_1000 => "1"
    case US_4000 => "4"
  }

  function AttributeLines(f: Flow): seq<string> {
    ["a=rtpmap:96 L" + (FormatName(f.format) + "/" + Dec(f.rate) + "/" + Dec(f.channels)),
     "a=ptime:" + PacketTimeName(f.packetTime),
     "a=mediaclk:direct=" + Dec(f.offset)]
  }

  // Nothing unless RTCP is enabled.
  function RtcpLines(m: Object): Option<seq<string>> {
    if !Params.Enabled(m, RTCP_ENABLED) then Some([])
    else
      match GetString(m, RTCP_DESTINATION_IP)
      case None => Some([])
      case Some(ip) =>
        var port := if RTCP_DESTINATION_PORT in m then AsUInt(m[RTCP_DESTINATION_PORT]) else None;
        if port == None then Some([])
        else
          match ValidateIp4Address(ip)
          case IP_THROWS => None
          case IP_INVALID => Some([])
          case _ => Some(["a=rtcp:" + Dec(port.value) + " IN IP4 " + ip])
  }

  function MidLines(i: nat, n: nat): seq<string> {
    if n > 1 then ["a=mid:S" + Dec(i + 1)] else []
  }

  // Stream i of n.
  function Stream(m: Object, f: Flow, c: Clock, i: nat, n: nat): Option<seq<string>> {
    var port, connection, rtcp := GetDestinationPort(m), ConnectionLines(m), RtcpLines(m);
    if port == None || connection == None || rtcp == None then None
    else
      Some([MediaLine(if port.value == 0 then 5004 else port.value)] + connection.value
           + ([ClockLine(c)] + AttributeLines(f) + rtcp.value + MidLines(i, n)))
  }

  function Streams(ms: seq<Object>, f: Flow, clocks: seq<Clock>, i: nat): Option<seq<string>>
    requires |clocks| == |ms| && i <= |ms|
    decreases |ms| - i
  {
    if i == |ms| then Some([])
    else
      var head, tail := Stream(ms[i], f, clocks[i], i, |ms|), Streams(ms, f, clocks, i + 1);
      if head == None || tail == None then None else Some(head.value + tail.value)
  }

  function Group(n: nat): string {
    if n == 0 then "" else if n == 1 then "S1" else Group(n - 1) + " S" + Dec(n)
  }

  function GroupLines(n: nat): seq<string> {
    if n > 1 then ["a=group:DUP " + Group(n)] else []
  }

  function LinesOf(ms: seq<Object>, name: string, f: Flow, clocks: seq<Clock>, start: TaiTime.int64, now: TaiTime.int64): Option<seq<string>>
    requires |ms| > 0 && |clocks| == |ms|
  {
    var origin, streams := OriginLine(ms[0], start, now), Streams(ms, f, clocks, 0);
    if origin == None || streams == None then None
    else Some(["v=0", origin.value, "s=" + name, "t=0 0 "] + GroupLines(|ms|) + streams.value)
  }

  function TextOf(lines: seq<string>): string {
    if lines == [] then "" else lines[0] + "\r\n" + TextOf(lines[1..])
  }

  // TransportParamsToSdp; the two origin times are readings of the clock. None when it throws.
  function TransportParamsToSdp(ms: seq<Object>, name: string, f: Flow, clocks: seq<Clock>, start: TaiTime.int64, now: TaiTime.int64): Option<string>
    requires |ms| > 0 && |clocks| == |ms|
  {
    match LinesOf(ms, name, f, clocks, start, now)
    case None => None
    case Some(lines) => Some(TextOf(lines))
  }

  lemma {:induction false} TextOfAppend(a: seq<string>, b: seq<string>)
    ensures TextOf(a + b) == TextOf(a) + TextOf(b)
  {
    if a == [] {
      assert a + b == b;
    } else {
      TextOfAppend(a[1..], b);
      var head, more, last := a[0] + "\r\n", TextOf(a[1..]), TextOf(b);
      assert (a + b)[0] == a[0] && (a + b)[1..] == a[1..] + b;
      assert head + (more + last) == head + more + last;
    }
  }

  // The group line is built over the stream numbers from 1 on.
  method CreateGroup(n: nat) returns (group: string)
    requires n > 0
    ensures group == Group(n)
  {
    group := "";
    for k := 1 to n + 1
      invariant group == Group(k - 1)
    {
      if group != "" {
        group := group + " ";
      }
      group := group + "S" + Dec(k);
    }
  }

  function Printed(lines: Option<seq<string>>): Option<string> {
    if lines == None then None else Some(TextOf(lines.value))
  }

  function Joined(text: string, rest: Option<string>): Option<string> {
    if rest == None then None else Some(text + rest.value)
  }

  lemma StreamsPrinted(ms: seq<Object>, f: Flow, clocks: seq<Clock>, i: nat)
    requires |clocks| == |ms| && i < |ms|
    ensures var stream, rest := Stream(ms[i], f, clocks[i], i, |ms|), Streams(ms, f, clocks, i + 1);
      Printed(Streams(ms, f, clocks, i)) == if stream == None then None else Joined(TextOf(stream.value), Printed(rest))
  {
    hide Stream, TextOf;
    var stream, rest := Stream(ms[i], f, clocks[i], i, |ms|), Streams(ms, f, clocks, i + 1);
    if stream.Some? && rest.Some? {
      TextOfAppend(stream.value, rest.value);
    }
  }

  lemma JoinedTwice(a: string, b: string, rest: Option<string>)
    ensures Joined(a, Joined(b, rest)) == Joined(a + b, rest) && Joined("", rest) == rest
  {
    if rest.Some? {
      assert a + (b + rest.value) == a + b + rest.value && "" + rest.value == rest.value;
    }
  }

  lemma NoMoreStreams(ms: seq<Object>, f: Flow, clocks: seq<Clock>, text: string)
    requires |clocks| == |ms|
    ensures Joined(text, Printed(Streams(ms, f, clocks, |ms|))) == Some(text)
  {
    assert text + "" == text;
  }

  method CreateStreams(ms: seq<Object>, f: Flow, clocks: seq<Clock>) returns (text: Option<string>)
    requires |clocks| == |ms|
    ensures text == Printed(Streams(ms, f, clocks, 0))
  {
    hide Stream, Streams, Printed, Joined, TextOf;
    var t := "";
    JoinedTwice("", "", Printed(Streams(ms, f, clocks, 0)));
    for i := 0 to |ms|
      invariant Printed(Streams(ms, f, clocks, 0)) == Joined(t, Printed(Streams(ms, f, clocks, i)))
    {
      var stream := Stream(ms[i], f, clocks[i], i, |ms|);
      StreamsPrinted(ms, f, clocks, i);
      if stream == None {
        NothingJoined(t);
        return None;
      }
      JoinedTwice(t, TextOf(stream.value), Printed(Streams(ms, f, clocks, i + 1)));
      t := t + TextOf(stream.value);
    }
    NoMoreStreams(ms, f, clocks, t);
    text := Some(t);
  }

  lemma NothingJoined(text: string)
    ensures Joined(text, None) == None
  {
  }

  method Create(ms: seq<Object>, name: string, f: Flow, clocks: seq<Clock>, start: TaiTime.int64, now: TaiTime.int64) returns (text: Option<string>)
    requires |ms| > 0 && |clocks| == |ms|
    ensures text == TransportParamsToSdp(ms, name, f, clocks, start, now)
  {
    hide TextOf, Streams, OriginLine, Group;
    var origin := OriginLine(ms[0], start, now);
    if origin == None {
      return None;
    }
    var header := ["v=0", origin.value, "s=" + name, "t=0 0 "];
    if |ms| > 1 {
      var group := CreateGroup(|ms|);
      header := header + ["a=group:DUP " + group];
    }
    var streams := CreateStreams(ms, f, clocks);
    if streams == None {
      return None;
    }
    var lines := Streams(ms, f, clocks, 0);
    TextOfAppend(header, lines.value);
    assert |ms| == 1 ==> header + GroupLines(|ms|) == header;
    text := Some(TextOf(header) + streams.value);
  }
}
