/** Reading a session description into RTP receivers (base/src/sdp.cpp, lines 17-370). Lines end at a
    line feed, so a carriage return before it stays at the end of the line. */
module SdpReader {
  import opened Containers
  import opened Text
  import opened Json
  import Params = TransportParams

  // ---------- Addresses ----------

  // What ValidateIp4Address says, or the std::out_of_range that it lets through.
  datatype IpType = IP_INVALID | IP4_UNI | IP4_MULTI | IP_THROWS

  // Hexadecimal after 0x, octal after 0, decimal otherwise.
  function ParsePart(p: string): Parsed {
    if |p| > 1 && p[0] == '0' then (if p[1] == 'x' || p[1] == 'X' then Stol(p, 16) else Stol(p, 8)) else Stol(p, 10)
  }

  // The first part that is not in range decides.
  function CheckParts(v: seq<string>): Verdict {
    if v == [] then Yes
    else
      match ParsePart(v[0])
      case InvalidArgument => No
      case OutOfRange => Throws
      case Number(n) => if 0 <= n <= 255 then CheckParts(v[1..]) else No
  }

  function ValidateIp4Address(a: string): IpType {
    var v := Split(a, '.');
    if |v| != 4 then IP_INVALID
    else
      match CheckParts(v)
      case No => IP_INVALID
      case Throws => IP_THROWS
      case Yes => if ParsePart(v[0]).Number? && 224 <= ParsePart(v[0]).n <= 239 then IP4_MULTI else IP4_UNI
  }

  method ValidateIp4(a: string) returns (t: IpType)
    ensures t == ValidateIp4Address(a)
  {
    var v := SplitString(a, '.');
    if |v| != 4 {
      return IP_INVALID;
    }
    var first := 0;
    var i := 0;
    while i < 4
      invariant i <= 4
      invariant CheckParts(v) == CheckParts(v[i..])
      invariant i > 0 ==> ParsePart(v[0]) == Number(first)
    {
      assert v[i..][0] == v[i] && v[i..][1..] == v[i + 1..];
      var p := ParsePart(v[i]);
      if p.InvalidArgument? {
        return IP_INVALID;
      }
      if p.OutOfRange? {
        return IP_THROWS;
      }
      if p.n < 0 || p.n > 255 {
        return IP_INVALID;
      }
      if i == 0 {
        first := p.n;
      }
      i := i + 1;
    }
    assert v[i..] == [];
    t := if 224 <= first <= 239 then IP4_MULTI else IP4_UNI;
  }

  // ---------- Receivers ----------

  function EnableRtp(m: Object, b: bool): Object {
    m[RTP_ENABLED := Bool(b)]
  }

  function SetSourceIp(m: Object, a: string): Object {
    m[SOURCE_IP := if a == "" then Null else Str(a)]
  }

  function SetMulticastIp(m: Object, a: string): Object {
    m[MULTICAST_IP := if a == "" then Null else Str(a)]
  }

  function SetPort(m: Object, k: Key, n: nat): Object {
    if k in m then m[k := if n != 0 then Int(n) else Str(Params.AUTO)] else m
  }

  function SetRtcpDestinationIp(m: Object, a: string): Object {
    if RTCP_DESTINATION_IP in m then m[RTCP_DESTINATION_IP := Str(if a == "" then Params.AUTO else a)] else m
  }

  // ---------- Lines ----------

  // The receivers after a line, and whether reading goes on. Reading a receiver that does not exist
  // is undefined in C++ and counts as Throws.
  datatype Progress = Progress(verdict: Verdict, rs: seq<Object>)

  function AllSources(rs: seq<Object>, a: string): seq<Object> {
    seq(|rs|, i requires 0 <= i < |rs| => SetSourceIp(rs[i], a))
  }

  // An IPv6 origin is never valid.
  function ParseOriginLine(line: string, rs: seq<Object>): Progress {
    var v := Split(line, ' ');
    if |v| == 6 && v[4] == "IP4" then
      match ValidateIp4Address(v[5])
      case IP4_MULTI => Progress(No, AllSources(rs, ""))
      case IP4_UNI => Progress(Yes, AllSources(rs, v[5]))
      case IP_THROWS => Progress(Throws, rs)
      case IP_INVALID => Progress(No, rs)
    else Progress(No, rs)
  }

  function Update(rs: seq<Object>, n: int, f: Object -> Object): Progress {
    if 0 <= n < |rs| then Progress(Yes, rs[n := f(rs[n])]) else Progress(Throws, rs)
  }

  function ParseConnectionLine(line: string, rs: seq<Object>, n: int): Progress {
    var v := Split(line, ' ');
    if |v| == 3 && v[0] == "c=IN" && v[1] == "IP4" then
      var a := v[2][..UpTo(v[2], '/')];
      match ValidateIp4Address(a)
      case IP4_MULTI => Update(rs, n, m => SetMulticastIp(m, a))
      case IP4_UNI => Update(rs, n, m => SetMulticastIp(m, ""))
      case IP_THROWS => Progress(Throws, rs)
      case IP_INVALID => Progress(No, rs)
    else Progress(No, rs)
  }

  // std::string::find: what follows the first occurrence.
  function After(s: string, t: string): Option<string> {
    if t <= s then Some(s[|t|..]) else if s == "" then None else After(s[1..], t)
  }

  const STR_FILTER := "a=source-filter:"
  const STR_RTCP := "a=rtcp:"

  function ParseAttributeLine(line: string, rs: seq<Object>, n: int): Progress {
    match After(line, STR_FILTER)
    case Some(rest) => ParseSourceFilter(rest, rs, n)
    case None =>
      match After(line, STR_RTCP)
      case Some(rest) => ParseRtcp(rest, rs, n)
      case None => Progress(Yes, rs)
  }

  function ParseSourceFilter(rest: string, rs: seq<Object>, n: int): Progress {
    var v := Split(rest, ' ');
    if |v| > 4 && ((v[0] == "IN" && v[1] == "incl") || (v[1] == "IN" && v[0] == "incl")) && v[2] == "IP4" then
      if ValidateIp4Address(v[3]) == IP_THROWS then Progress(Throws, rs)
      else if ValidateIp4Address(v[3]) != IP4_MULTI then Progress(No, rs)
      else if ValidateIp4Address(v[4]) == IP_THROWS then Progress(Throws, rs)
      else if ValidateIp4Address(v[4]) != IP4_UNI then Progress(No, rs)
      else Update(rs, n, m => SetSourceIp(m, v[4]))
    else Progress(No, rs)
  }

  // The address is looked at only when the second field is not IN.
  function ParseRtcp(rest: string, rs: seq<Object>, n: int): Progress {
    var v := Split(rest, ' ');
    if v == [] then Progress(No, rs)
    else
      match Stol(v[0], 10)
      case InvalidArgument => Progress(No, rs)
      case OutOfRange => Progress(Throws, rs)
      case Number(port) =>
        if !(0 < port < 65536) then Progress(No, rs)
        else
          var p := Update(rs, n, m => SetPort(m, RTCP_DESTINATION_PORT, port));
          if p.verdict != Yes || |v| == 1 then p
          else if |v| >= 4 && v[1] != "IN" && v[2] == "IP4" then
            match ValidateIp4Address(v[3])
            case IP_INVALID => Progress(No, p.rs)
            case IP_THROWS => Progress(Throws, p.rs)
            case _ => Update(p.rs, n, m => SetRtcpDestinationIp(m, v[3]))
          else Progress(No, p.rs)
  }

  function ParseMediaLine(line: string, rs: seq<Object>, n: int): Progress {
    var v := Split(line, ' ');
    if |v| <= 1 then Progress(No, rs)
    else
      match Stol(v[1], 10)
      case InvalidArgument => Progress(No, rs)
      case OutOfRange => Progress(Throws, rs)
      case Number(port) =>
        if 0 < port < 65536 then Update(rs, n, m => SetPort(m, DESTINATION_PORT, port)) else Progress(No, rs)
  }

  // Media lines beyond the last receiver are counted but not parsed.
  function ReadLine(line: string, rs: seq<Object>, n: int): (Progress, int) {
    if line == "" then (Progress(Yes, rs), n)
    else if line[0] == 'o' then (ParseOriginLine(line, rs), n)
    else if line[0] == 'c' then (ParseConnectionLine(line, rs, n), n)
    else if line[0] == 'a' then (ParseAttributeLine(line, rs, n), n)
    else if line[0] == 'm' then (if n + 1 < |rs| then ParseMediaLine(line, rs, n + 1) else Progress(Yes, rs), n + 1)
    else (Progress(Yes, rs), n)
  }

  // Reads until the text ends, a line is refused, or there are more media than receivers.
  function ReadText(text: string, rs: seq<Object>, n: int): Progress
    decreases |text|
  {
    match GetLine(text, '\n')
    case EndOfStream => Progress(Yes, rs)
    case Line(line, rest) =>
      if n >= |rs| then Progress(Yes, rs)
      else
        var (p, n') := ReadLine(line, rs, n);
        if p.verdict == Yes then ReadText(rest, p.rs, n') else p
  }

  function EnableAll(rs: seq<Object>, b: bool): seq<Object> {
    seq(|rs|, i requires 0 <= i < |rs| => EnableRtp(rs[i], b))
  }

  // All receivers are disabled first and enabled again when the whole text was accepted.
  function Read(text: string, rs: seq<Object>): Progress {
    var p := ReadText(text, EnableAll(rs, false), -1);
    if p.verdict == Yes then Progress(Yes, EnableAll(p.rs, true)) else p
  }

  method SdpToTransportParams(text: string, receivers: seq<Object>) returns (ok: Verdict, rs: seq<Object>)
    ensures Progress(ok, rs) == Read(text, receivers)
  {
    rs := receivers;
    for i := 0 to |rs|
      invariant |rs| == |receivers|
      invariant forall j :: 0 <= j < |rs| ==> rs[j] == if j < i then EnableRtp(receivers[j], false) else receivers[j]
    {
      rs := rs[i := EnableRtp(rs[i], false)];
    }
    assert rs == EnableAll(receivers, false);
    var n := -1;
    var left := text;
    var line := GetLine(left, '\n');
    while line.Line?
      invariant line == GetLine(left, '\n')
      invariant ReadText(text, EnableAll(receivers, false), -1) == ReadText(left, rs, n)
      decreases |left|
    {
      if n >= |rs| {
        break;
      }
      var (p, n') := ReadLine(line.text, rs, n);
      if p.verdict != Yes {
        return p.verdict, p.rs;
      }
      rs, n, left := p.rs, n', line.rest;
      line := GetLine(left, '\n');
    }
    ghost var read := rs;
    for i := 0 to |rs|
      invariant |rs| == |read|
      invariant forall j :: 0 <= j < |rs| ==> rs[j] == if j < i then EnableRtp(read[j], true) else read[j]
    {
      rs := rs[i := EnableRtp(rs[i], true)];
    }
    assert rs == EnableAll(read, true);
    ok := Yes;
  }
}
