/** The objects that hold the parameters of one stream (base/src/transportparams.cpp): their methods
    overwrite entries of the JSON object in place, each as the function of TransportParams or
    ReceiverParams says. A method that stops with an exception says so and leaves what it had written. */
module StreamParams {
  import opened Containers
  import opened Json
  import Params = TransportParams
  import Receivers = ReceiverParams

  class Stream {
    var json: Object

    // A copy of the parameters of one stream.
    constructor (m: Object)
      ensures json == m
    {
      json := m;
    }

    ghost function View(threw: bool): Params.Progress
      reads this
    {
      Params.Progress(json, threw)
    }

    // The tests in the source's order, then the overwriting.
    method PatchSender(patch: Json) returns (v: Verdict)
      modifies this
      ensures v == Params.Judge(old(json), patch) && json == Params.Patch(old(json), patch)
    {
      hide Allowed;
      var ok := CheckJsonAllowed(patch, Params.SenderTypes);
      if !ok {
        return No;
      }
      if !HasMembers(patch) {
        return Throws;
      }
      var o := Members(patch);
      if FEC_ENABLED !in json {
        ok := CheckJsonNotAllowed(o, Params.FecOnly);
        if !ok {
          return No;
        }
      }
      if RTCP_ENABLED !in json {
        ok := CheckJsonNotAllowed(o, Params.RtcpOnly);
        if !ok {
          return No;
        }
      }
      if FEC_TYPE in o && AsString(o[FEC_TYPE]) != Some(Params.STR_FEC_TYPE_XOR) && AsString(o[FEC_TYPE]) != Some(Params.STR_FEC_TYPE_REED) {
        return No;
      }
      v := Params.BlockSize(o, FEC_BLOCK_WIDTH);
      if v != Yes {
        return;
      }
      v := Params.BlockSize(o, FEC_BLOCK_HEIGHT);
      if v == Yes {
        json := PatchJson(json, patch);
      }
    }

    method ActualizePort(k: Key, base: Option<nat>, offset: nat) returns (threw: bool)
      modifies this
      ensures View(threw) == Params.Port(old(View(false)), k, base, offset)
    {
      threw := base == None;
      if !threw {
        var port := GetInt(json, k);
        if port == None || port == Some(0) {
          json := json[k := Int((base.value + offset) % 0x1_0000)];
        }
      }
    }

    method ActualizeIp(k: Key, ip: Option<string>) returns (threw: bool)
      modifies this
      ensures View(threw) == Params.Ip(old(View(false)), k, ip)
    {
      threw := ip == None;
      if !threw {
        var was := GetString(json, k);
        if was == None || was == Some(Params.AUTO) {
          json := json[k := if ip.value != "" then Str(ip.value) else Null];
        }
      }
    }

    // TransportParamsRTP::Actualize, shared by both ends.
    method ActualizeRtp() returns (threw: bool)
      modifies this
      ensures View(threw) == Params.ActualizeRtp(old(json))
    {
      threw := false;
      if At(json, DESTINATION_PORT) == Str(Params.AUTO) {
        json := json[DESTINATION_PORT := Int(5004)];
      }
      var base := AsUInt(At(json, DESTINATION_PORT));
      hide Params.Port, Params.Enabled, AsUInt;
      if Params.Enabled(json, FEC_ENABLED) {
        threw := ActualizePort(FEC_1DDESTINATION_PORT, base, 2);
        if threw {
          ThrownStays(View(threw), FEC_2DDESTINATION_PORT, base, 4);
          return;
        }
        threw := ActualizePort(FEC_2DDESTINATION_PORT, base, 4);
        if threw {
          return;
        }
      }
      if Params.Enabled(json, RTCP_ENABLED) {
        threw := ActualizePort(RTCP_DESTINATION_PORT, base, 1);
      }
    }

    // The groups of a sender; they stop at the first accessor that throws.
    method ActualizeGroups(ip: Option<string>, base: Option<nat>) returns (threw: bool)
      modifies this
      ensures View(threw) == Params.ActualizeGroups(old(View(false)), ip, base)
    {
      hide Params.Port, Params.Ip, Params.Enabled;
      threw := false;
      if Params.Enabled(json, FEC_ENABLED) {
        threw := ActualizeIp(FEC_DESTINATION_IP, ip);
        if threw {
          ThrownStays(View(threw), FEC_1DSOURCE_PORT, base, 2);
          ThrownStays(View(threw), FEC_2DSOURCE_PORT, base, 4);
          return;
        }
        threw := ActualizePort(FEC_1DSOURCE_PORT, base, 2);
        if threw {
          ThrownStays(View(threw), FEC_2DSOURCE_PORT, base, 4);
          return;
        }
        threw := ActualizePort(FEC_2DSOURCE_PORT, base, 4);
        if threw {
          return;
        }
      }
      if Params.Enabled(json, RTCP_ENABLED) {
        threw := ActualizePort(RTCP_SOURCE_PORT, base, 1);
        if threw {
          Params.ThrownStays(View(threw), RTCP_DESTINATION_IP, ip);
          return;
        }
        threw := ActualizeIp(RTCP_DESTINATION_IP, ip);
      }
    }

    method ActualizeSender(source: string, destination: string) returns (threw: bool)
      modifies this
      ensures View(threw) == Params.Actualize(old(json), source, destination)
    {
      threw := ActualizeRtp();
      if threw {
        return;
      }
      threw := ActualizeIp(SOURCE_IP, Some(source));
      threw := ActualizeIp(DESTINATION_IP, Some(destination));
      threw := ActualizePort(SOURCE_PORT, Some(5004), 0);
      threw := ActualizeGroups(AsString(At(json, DESTINATION_IP)), AsUInt(At(json, SOURCE_PORT)));
    }

    method ActualizeReceiver(interface: string) returns (threw: bool)
      modifies this
      ensures View(threw) == Receivers.ActualizeReceiver(old(json), interface)
    {
      threw := ActualizeRtp();
      if threw {
        return;
      }
      json := json[INTERFACE_IP := Str(interface)];
      threw := ActualizeIp(SOURCE_IP, Some(""));
      if FEC_ENABLED in json {
        threw := ActualizeIp(FEC_DESTINATION_IP, Receivers.GroupAddress(json));
        if threw {
          return;
        }
      }
      if RTCP_ENABLED in json {
        threw := ActualizeIp(RTCP_DESTINATION_IP, Receivers.GroupAddress(json));
      }
    }
  }

  lemma ThrownStays(p: Params.Progress, k: Key, base: Option<nat>, offset: nat)
    requires p.threw
    ensures Params.Port(p, k, base, offset) == p
  {
  }
}
