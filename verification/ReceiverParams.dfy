/** The parameters of one stream of a receiver and their Actualize (base/src/transportparams.cpp,
    lines 471-488 and 546-576). The ports are shared with the sender; the addresses follow the
    interface, or the multicast address when there is one. */
module ReceiverParams {
  import opened Containers
  import opened Json
  import opened TransportParams

  // What the FEC and RTCP groups are sent to; None when it is no string.
  function GroupAddress(m: Object): Option<string> {
    AsString(if At(m, MULTICAST_IP) == Null then At(m, INTERFACE_IP) else At(m, MULTICAST_IP))
  }

  // TransportParamsRTPReceiver::Actualize. Here it is enough that a group is there.
  function ActualizeReceiver(m: Object, interface: string): Progress {
    var p0 := ActualizeRtp(m);
    if p0.threw then p0 else
    var p1 := Ip(p0.(m := p0.m[INTERFACE_IP := Str(interface)]), SOURCE_IP, Some(""));
    var p2 := if FEC_ENABLED in p1.m then Ip(p1, FEC_DESTINATION_IP, GroupAddress(p1.m)) else p1;
    if !p2.threw && RTCP_ENABLED in p2.m then Ip(p2, RTCP_DESTINATION_IP, GroupAddress(p2.m)) else p2
  }

  // Ports come from a number where a group is enabled, addresses from text where one is there.
  predicate Derivable(m: Object) {
    && (Enabled(m, FEC_ENABLED) || Enabled(m, RTCP_ENABLED) ==> AsUInt(BasePort(m)) != None)
    && (FEC_ENABLED in m || RTCP_ENABLED in m ==> AsString(At(m, MULTICAST_IP)) != None)
  }

  function Target(m: Object, interface: string): string {
    if At(m, MULTICAST_IP) == Null then interface else Address(At(m, MULTICAST_IP))
  }

  // The value of a parameter afterwards, from the parameters before alone.
  function SettledReceiver(m: Object, k: Key, interface: string): Json {
    match k
    case INTERFACE_IP => Str(interface)
    case SOURCE_IP => SettledIp(m, k, "")
    case FEC_DESTINATION_IP => if FEC_ENABLED in m then SettledIp(m, k, Target(m, interface)) else At(m, k)
    case RTCP_DESTINATION_IP => if RTCP_ENABLED in m then SettledIp(m, k, Target(m, interface)) else At(m, k)
    case DESTINATION_PORT => BasePort(m)
    case FEC_1DDESTINATION_PORT => if Enabled(m, FEC_ENABLED) then SettledPort(m, k, PortNumber(BasePort(m)) + 2) else At(m, k)
    case FEC_2DDESTINATION_PORT => if Enabled(m, FEC_ENABLED) then SettledPort(m, k, PortNumber(BasePort(m)) + 4) else At(m, k)
    case RTCP_DESTINATION_PORT => if Enabled(m, RTCP_ENABLED) then SettledPort(m, k, PortNumber(BasePort(m)) + 1) else At(m, k)
    case _ => At(m, k)
  }

  ghost function AddressKeys(m: Object): set<Key> {
    {INTERFACE_IP, SOURCE_IP} + (if FEC_ENABLED in m then {FEC_DESTINATION_IP} else {}) + if RTCP_ENABLED in m then {RTCP_DESTINATION_IP} else {}
  }

  // q is m with the given keys settled.
  ghost predicate SettledOn(q: Object, m: Object, keys: set<Key>, interface: string) {
    && (forall k :: k in keys ==> k in q && q[k] == SettledReceiver(m, k, interface))
    && (forall k :: k !in keys ==> (k in q <==> k in m) && (k in m ==> q[k] == m[k]))
  }

  lemma PortsSettle(m: Object, interface: string)
    ensures
      var p := ActualizeRtp(m);
      if (Enabled(m, FEC_ENABLED) || Enabled(m, RTCP_ENABLED)) && AsUInt(BasePort(m)) == None then p.threw
      else !p.threw && SettledOn(p.m, m, RtpKeys(m), interface)
  {
    hide ActualizeRtp, Settled, SettledReceiver, RtpKeys, Agrees, SettledOn, BasePort, Enabled;
    ActualizeRtpSettles(m, "", "");
    if !ActualizeRtp(m).threw && (Enabled(m, FEC_ENABLED) || Enabled(m, RTCP_ENABLED) ==> AsUInt(BasePort(m)) != None) {
      SamePorts(ActualizeRtp(m).m, m, interface);
    }
  }

  lemma SamePort(m: Object, k: Key, interface: string)
    requires k in RtpKeys(m)
    ensures Settled(m, k, "", "") == SettledReceiver(m, k, interface)
  {
    hide SettledPort, SettledIp, BasePort, Enabled;
  }

  lemma SamePorts(q: Object, m: Object, interface: string)
    requires Agrees(q, m, RtpKeys(m), "", "")
    ensures SettledOn(q, m, RtpKeys(m), interface)
  {
    hide Settled, SettledReceiver, RtpKeys;
    forall k | k in RtpKeys(m) ensures k in q && q[k] == SettledReceiver(m, k, interface) {
      SamePort(m, k, interface);
    }
  }

  lemma RtpKeysAreApart(m: Object)
    ensures RtpKeys(m) !! {INTERFACE_IP, SOURCE_IP, FEC_DESTINATION_IP, RTCP_DESTINATION_IP, FEC_ENABLED, RTCP_ENABLED, MULTICAST_IP}
  {
  }

  // One address on top of keys that are settled already.
  lemma AddressSettles(q: Object, m: Object, keys: set<Key>, k: Key, ip: string, interface: string)
    requires SettledOn(q, m, keys, interface) && k !in keys && SettledReceiver(m, k, interface) == SettledIp(m, k, ip)
    ensures var r := Ip(Progress(q, false), k, Some(ip)); !r.threw && SettledOn(r.m, m, keys + {k}, interface)
  {
  }

  lemma InterfaceSettles(q: Object, m: Object, keys: set<Key>, interface: string)
    requires SettledOn(q, m, keys, interface)
    ensures SettledOn(q[INTERFACE_IP := Str(interface)], m, keys + {INTERFACE_IP}, interface)
  {
  }

  lemma GroupFollows(q: Object, m: Object, keys: set<Key>, interface: string)
    requires SettledOn(q, m, keys, interface) && INTERFACE_IP in keys && MULTICAST_IP !in keys && FEC_ENABLED !in keys && RTCP_ENABLED !in keys
    ensures GroupAddress(q) == if AsString(At(m, MULTICAST_IP)) == None then None else Some(Target(m, interface))
    ensures (FEC_ENABLED in q <==> FEC_ENABLED in m) && (RTCP_ENABLED in q <==> RTCP_ENABLED in m)
  {
    assert At(q, MULTICAST_IP) == At(m, MULTICAST_IP) && At(q, INTERFACE_IP) == Str(interface);
  }

  // An accessor throws exactly when the parameters are not derivable; otherwise the ports of the
  // enabled groups and the addresses of the groups that are there have settled, and nothing else.
  lemma ReceiverSettles(m: Object, interface: string)
    ensures
      var p := ActualizeReceiver(m, interface);
      if Derivable(m) then !p.threw && SettledOn(p.m, m, RtpKeys(m) + AddressKeys(m), interface) else p.threw
  {
    hide ActualizeRtp, SettledOn, SettledReceiver, Ip, BasePort, RtpKeys, Enabled, GroupAddress;
    PortsSettle(m, interface);
    RtpKeysAreApart(m);
    var p0 := ActualizeRtp(m);
    if !p0.threw {
      var keys := RtpKeys(m);
      InterfaceSettles(p0.m, m, keys, interface);
      FirstAddress(p0.m[INTERFACE_IP := Str(interface)], m, keys + {INTERFACE_IP}, interface);
      var p1 := Ip(Progress(p0.m[INTERFACE_IP := Str(interface)], false), SOURCE_IP, Some(""));
      GroupsOfReceiver(p1.m, m, keys + {INTERFACE_IP} + {SOURCE_IP}, interface);
      assert keys + AddressKeys(m) == keys + {INTERFACE_IP} + {SOURCE_IP} + FecTo(m) + RtcpTo(m);
    }
  }

  ghost function FecTo(m: Object): set<Key> {
    if FEC_ENABLED in m then {FEC_DESTINATION_IP} else {}
  }

  ghost function RtcpTo(m: Object): set<Key> {
    if RTCP_ENABLED in m then {RTCP_DESTINATION_IP} else {}
  }

  lemma FirstAddress(q: Object, m: Object, keys: set<Key>, interface: string)
    requires SettledOn(q, m, keys, interface) && SOURCE_IP !in keys
    ensures var r := Ip(Progress(q, false), SOURCE_IP, Some("")); !r.threw && SettledOn(r.m, m, keys + {SOURCE_IP}, interface)
  {
    hide SettledOn;
    AddressSettles(q, m, keys, SOURCE_IP, "", interface);
  }

  lemma NoAddressThrows(q: Object, k: Key)
    ensures Ip(Progress(q, false), k, None).threw
  {
  }

  lemma TargetsSettle(m: Object, interface: string)
    ensures FEC_ENABLED in m ==> SettledReceiver(m, FEC_DESTINATION_IP, interface) == SettledIp(m, FEC_DESTINATION_IP, Target(m, interface))
    ensures RTCP_ENABLED in m ==> SettledReceiver(m, RTCP_DESTINATION_IP, interface) == SettledIp(m, RTCP_DESTINATION_IP, Target(m, interface))
  {
  }

  lemma GroupsOfReceiver(q: Object, m: Object, keys: set<Key>, interface: string)
    requires SettledOn(q, m, keys, interface) && INTERFACE_IP in keys
    requires keys !! {MULTICAST_IP, FEC_ENABLED, RTCP_ENABLED, FEC_DESTINATION_IP, RTCP_DESTINATION_IP}
    ensures
      var p1 := Progress(q, false);
      var p2 := if FEC_ENABLED in p1.m then Ip(p1, FEC_DESTINATION_IP, GroupAddress(p1.m)) else p1;
      var p := if !p2.threw && RTCP_ENABLED in p2.m then Ip(p2, RTCP_DESTINATION_IP, GroupAddress(p2.m)) else p2;
      if (FEC_ENABLED in m || RTCP_ENABLED in m) && AsString(At(m, MULTICAST_IP)) == None then p.threw
      else !p.threw && SettledOn(p.m, m, keys + FecTo(m) + RtcpTo(m), interface)
  {
    hide SettledOn, Ip, GroupAddress, Target, SettledReceiver, SettledIp;
    GroupFollows(q, m, keys, interface);
    TargetsSettle(m, interface);
    var p2 := if FEC_ENABLED in q then Ip(Progress(q, false), FEC_DESTINATION_IP, GroupAddress(q)) else Progress(q, false);
    var to := Target(m, interface);
    if AsString(At(m, MULTICAST_IP)) == None {
      NoAddressThrows(q, FEC_DESTINATION_IP);
      NoAddressThrows(q, RTCP_DESTINATION_IP);
    } else if FEC_ENABLED in m {
      AddressSettles(q, m, keys, FEC_DESTINATION_IP, to, interface);
      GroupFollows(p2.m, m, keys + {FEC_DESTINATION_IP}, interface);
      if RTCP_ENABLED in m {
        AddressSettles(p2.m, m, keys + {FEC_DESTINATION_IP}, RTCP_DESTINATION_IP, to, interface);
      }
    } else if RTCP_ENABLED in m {
      AddressSettles(q, m, keys, RTCP_DESTINATION_IP, to, interface);
    }
    assert FecTo(m) == {} ==> keys + FecTo(m) == keys;
    assert RtcpTo(m) == {} ==> keys + FecTo(m) + RtcpTo(m) == keys + FecTo(m);
  }

  lemma ReceiverKeysCover(m: Object, k: Key, interface: string)
    ensures k !in RtpKeys(m) + AddressKeys(m) ==> SettledReceiver(m, k, interface) == At(m, k)
    ensures INTERFACE_IP in AddressKeys(m) && SOURCE_IP in AddressKeys(m)
    ensures DESTINATION_PORT in RtpKeys(m) <==> DESTINATION_PORT in m
    ensures DESTINATION_PORT !in AddressKeys(m)
    ensures FEC_ENABLED !in RtpKeys(m) + AddressKeys(m) && RTCP_ENABLED !in RtpKeys(m) + AddressKeys(m)
    ensures MULTICAST_IP !in RtpKeys(m) + AddressKeys(m)
  {
    hide SettledPort, SettledIp, Enabled;
  }

  // Every parameter of a receiver after Actualize is a function of the parameters before it.
  lemma ReceiverIsSettled(m: Object, interface: string) returns (q: Object)
    requires Derivable(m)
    ensures ActualizeReceiver(m, interface) == Progress(q, false)
    ensures q.Keys == m.Keys + RtpKeys(m) + AddressKeys(m)
    ensures forall k :: k in q ==> q[k] == SettledReceiver(m, k, interface)
  {
    hide ActualizeReceiver, SettledReceiver, RtpKeys, AddressKeys, Derivable;
    ReceiverSettles(m, interface);
    q := ActualizeReceiver(m, interface).m;
    forall k | k in q ensures q[k] == SettledReceiver(m, k, interface) {
      ReceiverKeysCover(m, k, interface);
    }
  }

  // The second time everything it looks at is as it was, or settled.
  lemma ReceiverSettlesOnce(m: Object, q: Object, k: Key, interface: string)
    requires q.Keys == m.Keys + RtpKeys(m) + AddressKeys(m) && forall j :: j in q ==> q[j] == SettledReceiver(m, j, interface)
    requires k in q && BasePort(q) == BasePort(m) && Target(q, interface) == Target(m, interface)
    requires Enabled(q, FEC_ENABLED) == Enabled(m, FEC_ENABLED) && Enabled(q, RTCP_ENABLED) == Enabled(m, RTCP_ENABLED)
    requires (FEC_ENABLED in q <==> FEC_ENABLED in m) && (RTCP_ENABLED in q <==> RTCP_ENABLED in m)
    ensures SettledReceiver(q, k, interface) == q[k]
  {
    hide Enabled, BasePort, PortNumber, Target, RtpKeys, AddressKeys, SettledPort, SettledIp;
    var d, to := PortNumber(BasePort(m)), Target(m, interface);
    match k
    case SOURCE_IP => IpSettlesOnce(m, q, k, "");
    case FEC_DESTINATION_IP => if FEC_ENABLED in m { IpSettlesOnce(m, q, k, to); }
    case RTCP_DESTINATION_IP => if RTCP_ENABLED in m { IpSettlesOnce(m, q, k, to); }
    case FEC_1DDESTINATION_PORT => if Enabled(m, FEC_ENABLED) { PortSettlesOnce(m, q, k, d + 2); }
    case FEC_2DDESTINATION_PORT => if Enabled(m, FEC_ENABLED) { PortSettlesOnce(m, q, k, d + 4); }
    case RTCP_DESTINATION_PORT => if Enabled(m, RTCP_ENABLED) { PortSettlesOnce(m, q, k, d + 1); }
    case _ =>
  }

  lemma SourcesOfReceiverStay(m: Object, q: Object, interface: string)
    requires q.Keys == m.Keys + RtpKeys(m) + AddressKeys(m) && forall j :: j in q ==> q[j] == SettledReceiver(m, j, interface)
    ensures BasePort(q) == BasePort(m) && Target(q, interface) == Target(m, interface)
    ensures Enabled(q, FEC_ENABLED) == Enabled(m, FEC_ENABLED) && Enabled(q, RTCP_ENABLED) == Enabled(m, RTCP_ENABLED)
    ensures (FEC_ENABLED in q <==> FEC_ENABLED in m) && (RTCP_ENABLED in q <==> RTCP_ENABLED in m)
    ensures (DESTINATION_PORT in q <==> DESTINATION_PORT in m) && (Derivable(m) ==> Derivable(q))
    ensures RtpKeys(q) == RtpKeys(m) && AddressKeys(q) == AddressKeys(m)
  {
    hide RtpKeys, AddressKeys, SettledPort, SettledIp;
    ReceiverKeysCover(m, FEC_ENABLED, interface);
    assert At(q, MULTICAST_IP) == At(m, MULTICAST_IP) && At(q, FEC_ENABLED) == At(m, FEC_ENABLED) && At(q, RTCP_ENABLED) == At(m, RTCP_ENABLED);
    SameKeys(m, q);
  }

  lemma SameKeys(m: Object, q: Object)
    requires Enabled(q, FEC_ENABLED) == Enabled(m, FEC_ENABLED) && Enabled(q, RTCP_ENABLED) == Enabled(m, RTCP_ENABLED)
    requires (FEC_ENABLED in q <==> FEC_ENABLED in m) && (RTCP_ENABLED in q <==> RTCP_ENABLED in m)
    requires DESTINATION_PORT in q <==> DESTINATION_PORT in m
    ensures RtpKeys(q) == RtpKeys(m) && AddressKeys(q) == AddressKeys(m)
  {
    hide Enabled;
  }

  lemma ReceiverIsIdempotent(m: Object, interface: string)
    requires Derivable(m)
    ensures var q := ActualizeReceiver(m, interface).m; ActualizeReceiver(q, interface) == Progress(q, false)
  {
    hide ActualizeReceiver, SettledReceiver, Derivable, RtpKeys, AddressKeys, BasePort, Target, Enabled;
    var q := ReceiverIsSettled(m, interface);
    SourcesOfReceiverStay(m, q, interface);
    forall k | k in q ensures SettledReceiver(q, k, interface) == q[k] {
      ReceiverSettlesOnce(m, q, k, interface);
    }
    var q' := ReceiverIsSettled(q, interface);
    assert q' == q;
  }
}
