/** The parameters of one RTP stream (base/src/transportparams.cpp): the sender's type table, its
    patch rules, and the replacement of "auto" and zero by definite values. */
module TransportParams {
  import opened Containers
  import opened Json
  import Text

  const AUTO := "auto"
  const STR_FEC_TYPE_XOR := "XOR"
  const STR_FEC_TYPE_REED := "Reed-Solomon"

  function SenderTypes(k: Key): set<Kind> {
    match k
    case SOURCE_IP => {STRING}
    case DESTINATION_IP => {STRING}
    case SOURCE_PORT => {STRING, INTEGER}
    case DESTINATION_PORT => {STRING, INTEGER}
    case FEC_ENABLED => {BOOLEAN}
    case FEC_DESTINATION_IP => {STRING}
    case FEC_TYPE => {STRING}
    case FEC_MODE => {STRING}
    case FEC_BLOCK_WIDTH => {INTEGER}
    case FEC_BLOCK_HEIGHT => {INTEGER}
    case FEC_1DDESTINATION_PORT => {INTEGER, STRING}
    case FEC_2DDESTINATION_PORT => {INTEGER, STRING}
    case FEC_1DSOURCE_PORT => {INTEGER, STRING}
    case FEC_2DSOURCE_PORT => {INTEGER, STRING}
    case RTCP_ENABLED => {BOOLEAN}
    case RTCP_DESTINATION_IP => {STRING}
    case RTCP_DESTINATION_PORT => {INTEGER, STRING}
    case RTCP_SOURCE_PORT => {INTEGER, STRING}
    case RTP_ENABLED => {BOOLEAN}
    case _ => {}
  }

  const FecOnly: set<Key> := {FEC_TYPE, FEC_MODE, FEC_DESTINATION_IP, FEC_BLOCK_WIDTH, FEC_BLOCK_HEIGHT,
    FEC_1DSOURCE_PORT, FEC_1DDESTINATION_PORT, FEC_2DDESTINATION_PORT, FEC_2DSOURCE_PORT}
  const RtcpOnly: set<Key> := {RTCP_SOURCE_PORT, RTCP_DESTINATION_IP, RTCP_DESTINATION_PORT}

  // ---------- Construction ----------

  // TransportParamsRTP, TransportParamsRTPSender, FecAllowed and RtcpAllowed. RTCP gets no source port.
  const Core: Object := map[
    DESTINATION_PORT := Str(AUTO), RTP_ENABLED := Bool(false),
    SOURCE_IP := Str(AUTO), DESTINATION_IP := Str(AUTO), SOURCE_PORT := Str(AUTO)]

  const Fec: Object := map[
    FEC_ENABLED := Bool(false), FEC_DESTINATION_IP := Str(AUTO), FEC_MODE := Str(AUTO),
    FEC_1DDESTINATION_PORT := Str(AUTO), FEC_2DDESTINATION_PORT := Str(AUTO), FEC_TYPE := Str(STR_FEC_TYPE_REED),
    FEC_BLOCK_WIDTH := Int(4), FEC_BLOCK_HEIGHT := Int(4),
    FEC_1DSOURCE_PORT := Str(AUTO), FEC_2DSOURCE_PORT := Str(AUTO)]

  const Rtcp: Object := map[
    RTCP_ENABLED := Bool(false), RTCP_DESTINATION_PORT := Str(AUTO), RTCP_DESTINATION_IP := Str(AUTO)]

  function NewSender(fec: bool, rtcp: bool): Object {
    Core + (if fec then Fec else map[]) + if rtcp then Rtcp else map[]
  }

  // ---------- Patching ----------

  function BlockSize(o: Object, k: Key): Verdict {
    if k !in o then Yes else
    match AsInt(o[k])
    case None => Throws
    case Some(n) => if n < 4 || n > 200 then No else Yes
  }

  // Whether a patch is accepted; the tests are made in this order.
  function Judge(m: Object, patch: Json): Verdict {
    var o := Members(patch);
    if !Allowed(Visited(patch), SenderTypes) then No
    else if !HasMembers(patch) then Throws
    else if FEC_ENABLED !in m && o.Keys * FecOnly != {} then No
    else if RTCP_ENABLED !in m && o.Keys * RtcpOnly != {} then No
    else if FEC_TYPE in o && AsString(o[FEC_TYPE]) != Some(STR_FEC_TYPE_XOR) && AsString(o[FEC_TYPE]) != Some(STR_FEC_TYPE_REED) then No
    else if BlockSize(o, FEC_BLOCK_WIDTH) != Yes then BlockSize(o, FEC_BLOCK_WIDTH)
    else BlockSize(o, FEC_BLOCK_HEIGHT)
  }

  // What a member of an accepted patch has to be, each for itself.
  predicate MemberFits(m: Object, k: Key, j: Json) {
    FitsButSize(m, k, j) && (k == FEC_BLOCK_WIDTH || k == FEC_BLOCK_HEIGHT ==> j.Int? && 4 <= j.i <= 200)
  }

  predicate FitsButSize(m: Object, k: Key, j: Json) {
    && KindOf(j) in SenderTypes(k)
    && (k in FecOnly ==> FEC_ENABLED in m)
    && (k in RtcpOnly ==> RTCP_ENABLED in m)
    && (k == FEC_TYPE ==> j == Str("XOR") || j == Str("Reed-Solomon"))
  }

  // A patch is accepted exactly when every member of it is, and it is an object or null.
  lemma JudgeExactly(m: Object, patch: Json)
    ensures Judge(m, patch) == Yes <==>
      (patch.Obj? || patch.Null?) && forall k :: k in Members(patch) ==> MemberFits(m, k, Members(patch)[k])
  {
    hide Judge, MemberFits;
    if patch.Obj? {
      assert patch == Obj(patch.o) && Members(patch) == patch.o;
      MembersFitExactly(m, Members(patch));
    } else if patch.Null? {
      NullIsEmpty(m);
      MembersFitExactly(m, map[]);
    } else {
      OthersAreNotAccepted(m, patch);
    }
  }

  lemma NullIsEmpty(m: Object)
    ensures Judge(m, Null) == Judge(m, Obj(map[]))
  {
  }

  // The elements of an array go by names that no table has.
  lemma OnlyOthers(a: seq<Json>)
    requires a != []
    ensures !Allowed(Elements(a), SenderTypes)
  {
    var k := Other(Text.Dec(|a| - 1));
    assert k in Elements(a) && SenderTypes(k) == {};
  }

  lemma OthersAreNotAccepted(m: Object, patch: Json)
    requires !patch.Obj? && !patch.Null?
    ensures Judge(m, patch) == if patch.Arr? && patch.a != [] then No else Throws
  {
    if patch.Arr? && patch.a != [] {
      OnlyOthers(patch.a);
    }
  }

  lemma MembersFitExactly(m: Object, o: Object)
    ensures Judge(m, Obj(o)) == Yes <==> forall k :: k in o ==> MemberFits(m, k, o[k])
  {
    hide FitsButSize, Judge, BlockSize, SenderTypes;
    SizesDecide(m, o);
    UpToSizesExactly(m, o);
    if UpToSizes(m, o) {
      TypedSizes(o);
    }
  }

  // A patch that is an object throws exactly when nothing but a block size is wrong with it and the
  // first size that is wrong does not fit an int.
  lemma JudgeThrowsExactly(m: Object, o: Object)
    ensures Judge(m, Obj(o)) == Throws <==>
      && (forall k :: k in o ==> FitsButSize(m, k, o[k]))
      && (SizeOverflows(o, FEC_BLOCK_WIDTH) || (SizeInRange(o, FEC_BLOCK_WIDTH) && SizeOverflows(o, FEC_BLOCK_HEIGHT)))
  {
    hide FitsButSize, Judge, BlockSize, SenderTypes;
    SizesDecide(m, o);
    UpToSizesExactly(m, o);
    if UpToSizes(m, o) {
      TypedSizes(o);
    }
  }

  predicate SizeInRange(m: Object, k: Key) {
    k in m ==> m[k].Int? && 4 <= m[k].i <= 200
  }

  predicate SizeOverflows(o: Object, k: Key) {
    k in o && o[k].Int? && !(-2147483648 <= o[k].i <= 2147483647)
  }

  // The tests before those of the block sizes.
  predicate UpToSizes(m: Object, o: Object) {
    && Allowed(o, SenderTypes) && (FEC_ENABLED in m || o.Keys * FecOnly == {}) && (RTCP_ENABLED in m || o.Keys * RtcpOnly == {})
    && (FEC_TYPE in o ==> AsString(o[FEC_TYPE]) == Some(STR_FEC_TYPE_XOR) || AsString(o[FEC_TYPE]) == Some(STR_FEC_TYPE_REED))
  }

  lemma SizesDecide(m: Object, o: Object)
    ensures Judge(m, Obj(o)) ==
      if !UpToSizes(m, o) then No
      else if BlockSize(o, FEC_BLOCK_WIDTH) != Yes then BlockSize(o, FEC_BLOCK_WIDTH)
      else BlockSize(o, FEC_BLOCK_HEIGHT)
  {
    hide Elements, SenderTypes, Allowed, AsString, BlockSize;
  }

  lemma UpToSizesExactly(m: Object, o: Object)
    ensures UpToSizes(m, o) <==> forall k :: k in o ==> FitsButSize(m, k, o[k])
  {
    hide SenderTypes, FecOnly, RtcpOnly;
    DisjointMeans(o.Keys, FecOnly);
    DisjointMeans(o.Keys, RtcpOnly);
    if Allowed(o, SenderTypes) {
      TypedFecType(o);
      if FEC_TYPE in o {
        assert FitsButSize(m, FEC_TYPE, o[FEC_TYPE]) ==> o[FEC_TYPE] == Str("XOR") || o[FEC_TYPE] == Str("Reed-Solomon");
      }
      if k :| k in o && k in FecOnly && FEC_ENABLED !in m {
        assert !FitsButSize(m, k, o[k]);
      }
      if k :| k in o && k in RtcpOnly && RTCP_ENABLED !in m {
        assert !FitsButSize(m, k, o[k]);
      }
    } else {
      var k :| k in o && KindOf(o[k]) !in SenderTypes(k);
      assert !FitsButSize(m, k, o[k]);
    }
  }

  lemma TypedFecType(o: Object)
    requires Allowed(o, SenderTypes)
    ensures FEC_TYPE in o ==> (AsString(o[FEC_TYPE]) == Some(STR_FEC_TYPE_XOR) <==> o[FEC_TYPE] == Str("XOR"))
    ensures FEC_TYPE in o ==> (AsString(o[FEC_TYPE]) == Some(STR_FEC_TYPE_REED) <==> o[FEC_TYPE] == Str("Reed-Solomon"))
  {
  }

  lemma TypedSizes(o: Object)
    requires Allowed(o, SenderTypes)
    ensures forall k :: k == FEC_BLOCK_WIDTH || k == FEC_BLOCK_HEIGHT ==>
      && (BlockSize(o, k) == Yes <==> SizeInRange(o, k)) && (BlockSize(o, k) == Throws <==> SizeOverflows(o, k))
  {
    assert FEC_BLOCK_WIDTH in o ==> KindOf(o[FEC_BLOCK_WIDTH]) in SenderTypes(FEC_BLOCK_WIDTH);
    assert FEC_BLOCK_HEIGHT in o ==> KindOf(o[FEC_BLOCK_HEIGHT]) in SenderTypes(FEC_BLOCK_HEIGHT);
  }

  // The parameters after a patch; a patch that is not accepted leaves them alone.
  function Patch(m: Object, patch: Json): Object {
    if Judge(m, patch) == Yes then Patched(m, Visited(patch)) else m
  }

  // What every parameter set a sender can hold satisfies.
  predicate WellFormed(m: Object) {
    Allowed(m, SenderTypes) && SizeInRange(m, FEC_BLOCK_WIDTH) && SizeInRange(m, FEC_BLOCK_HEIGHT)
  }

  lemma CoreIsWellFormed()
    ensures WellFormed(Core)
  {
  }

  lemma RtcpIsWellFormed()
    ensures WellFormed(Rtcp)
  {
  }

  lemma FecIsWellFormed()
    ensures WellFormed(Fec)
  {
  }

  lemma UnionIsWellFormed(a: Object, b: Object)
    requires WellFormed(a) && WellFormed(b)
    ensures WellFormed(a + b)
  {
  }

  lemma NewSenderIsWellFormed(fec: bool, rtcp: bool)
    ensures WellFormed(NewSender(fec, rtcp))
  {
    CoreIsWellFormed();
    RtcpIsWellFormed();
    FecIsWellFormed();
    hide Core, Fec, Rtcp, SenderTypes;
    UnionIsWellFormed(Core, if fec then Fec else map[]);
    UnionIsWellFormed(Core + (if fec then Fec else map[]), if rtcp then Rtcp else map[]);
  }

  lemma PatchKeepsWellFormed(m: Object, patch: Json)
    requires WellFormed(m)
    ensures WellFormed(Patch(m, patch)) && Patch(m, patch).Keys == m.Keys
  {
  }

  // ---------- Actualizing ----------

  // A parameter set part-way through Actualize; once an accessor has thrown nothing more happens.
  datatype Progress = Progress(m: Object, threw: bool)

  function Port(p: Progress, k: Key, base: Option<nat>, offset: nat): Progress {
    if p.threw then p
    else if base == None then p.(threw := true)
    else
      var n := GetInt(p.m, k);
      if n == None || n == Some(0) then p.(m := p.m[k := Int((base.value + offset) % 0x1_0000)]) else p
  }

  function Ip(p: Progress, k: Key, ip: Option<string>): Progress {
    if p.threw then p
    else if ip == None then p.(threw := true)
    else
      var s := GetString(p.m, k);
      if s == None || s == Some(AUTO) then p.(m := p.m[k := if ip.value != "" then Str(ip.value) else Null]) else p
  }

  predicate Enabled(m: Object, k: Key) {
    k in m && GetBool(m, k) == Some(true)
  }

  // TransportParamsRTP::Actualize.
  function ActualizeRtp(m: Object): Progress {
    var p0 := Progress(if At(m, DESTINATION_PORT) == Str(AUTO) then m[DESTINATION_PORT := Int(5004)] else m, false);
    var base := AsUInt(At(p0.m, DESTINATION_PORT));
    var p1 := if Enabled(p0.m, FEC_ENABLED)
              then Port(Port(p0, FEC_1DDESTINATION_PORT, base, 2), FEC_2DDESTINATION_PORT, base, 4) else p0;
    if !p1.threw && Enabled(p1.m, RTCP_ENABLED) then Port(p1, RTCP_DESTINATION_PORT, base, 1) else p1
  }

  // The FEC and RTCP groups of a sender, which follow its address and its source port.
  function ActualizeGroups(p: Progress, ip: Option<string>, base: Option<nat>): Progress {
    var q := if Enabled(p.m, FEC_ENABLED)
             then Port(Port(Ip(p, FEC_DESTINATION_IP, ip), FEC_1DSOURCE_PORT, base, 2), FEC_2DSOURCE_PORT, base, 4) else p;
    if !q.threw && Enabled(q.m, RTCP_ENABLED) then Ip(Port(q, RTCP_SOURCE_PORT, base, 1), RTCP_DESTINATION_IP, ip) else q
  }

  // TransportParamsRTPSender::Actualize.
  function Actualize(m: Object, source: string, destination: string): Progress {
    var p0 := ActualizeRtp(m);
    if p0.threw then p0 else
    var p1 := Port(Ip(Ip(p0, SOURCE_IP, Some(source)), DESTINATION_IP, Some(destination)), SOURCE_PORT, Some(5004), 0);
    ActualizeGroups(p1, AsString(At(p1.m, DESTINATION_IP)), AsUInt(At(p1.m, SOURCE_PORT)))
  }

  // What Actualize settles on, key by key. An address that is missing or "auto" becomes the given
  // one, or null when that is empty.
  function SettledIp(m: Object, k: Key, ip: string): Json {
    var s := GetString(m, k);
    if s == None || s == Some(AUTO) then (if ip != "" then Str(ip) else Null) else m[k]
  }

  // A port that is missing, zero or not a number that fits an int becomes its default.
  function SettledPort(m: Object, k: Key, default: nat): Json {
    var n := GetInt(m, k);
    if n == None || n == Some(0) then Int(default % 0x1_0000) else m[k]
  }

  function BasePort(m: Object): Json {
    if At(m, DESTINATION_PORT) == Str(AUTO) then Int(5004) else At(m, DESTINATION_PORT)
  }

  function PortNumber(j: Json): nat {
    match AsUInt(j) case None => 0 case Some(n) => n
  }

  function Address(j: Json): string {
    match AsString(j) case None => "" case Some(s) => s
  }

  // The value of a parameter after Actualize, from the parameters before it alone.
  function Settled(m: Object, k: Key, source: string, destination: string): Json {
    var d := PortNumber(BasePort(m));
    var s := PortNumber(SettledPort(m, SOURCE_PORT, 5004));
    var to := Address(SettledIp(m, DESTINATION_IP, destination));
    match k
    case DESTINATION_PORT => BasePort(m)
    case SOURCE_PORT => SettledPort(m, k, 5004)
    case SOURCE_IP => SettledIp(m, k, source)
    case DESTINATION_IP => SettledIp(m, k, destination)
    case FEC_1DDESTINATION_PORT => if Enabled(m, FEC_ENABLED) then SettledPort(m, k, d + 2) else At(m, k)
    case FEC_2DDESTINATION_PORT => if Enabled(m, FEC_ENABLED) then SettledPort(m, k, d + 4) else At(m, k)
    case FEC_1DSOURCE_PORT => if Enabled(m, FEC_ENABLED) then SettledPort(m, k, s + 2) else At(m, k)
    case FEC_2DSOURCE_PORT => if Enabled(m, FEC_ENABLED) then SettledPort(m, k, s + 4) else At(m, k)
    case FEC_DESTINATION_IP => if Enabled(m, FEC_ENABLED) then SettledIp(m, k, to) else At(m, k)
    case RTCP_DESTINATION_PORT => if Enabled(m, RTCP_ENABLED) then SettledPort(m, k, d + 1) else At(m, k)
    case RTCP_SOURCE_PORT => if Enabled(m, RTCP_ENABLED) then SettledPort(m, k, s + 1) else At(m, k)
    case RTCP_DESTINATION_IP => if Enabled(m, RTCP_ENABLED) then SettledIp(m, k, to) else At(m, k)
    case _ => At(m, k)
  }

  // No accessor throws exactly when no group that derives ports is enabled, or both base ports are
  // numbers that fit an unsigned int.
  predicate Actualizable(m: Object) {
    Enabled(m, FEC_ENABLED) || Enabled(m, RTCP_ENABLED) ==>
      AsUInt(BasePort(m)) != None && AsUInt(SettledPort(m, SOURCE_PORT, 5004)) != None
  }

  // The keys of `done` have their settled value in q; the others are as in m.
  ghost predicate Agrees(q: Object, m: Object, done: set<Key>, source: string, destination: string) {
    && (forall k :: k in done ==> k in q && q[k] == Settled(m, k, source, destination))
    && (forall k :: k !in done ==> (k in q <==> k in m) && (k in m ==> q[k] == m[k]))
  }

  lemma PortStep(p: Progress, k: Key, base: Option<nat>, offset: nat, m: Object, done: set<Key>, source: string, destination: string)
    requires !p.threw && base.Some? && k !in done && Agrees(p.m, m, done, source, destination)
    requires Settled(m, k, source, destination) == SettledPort(m, k, base.value + offset)
    ensures var r := Port(p, k, base, offset); !r.threw && Agrees(r.m, m, done + {k}, source, destination)
  {
  }

  lemma IpStep(p: Progress, k: Key, ip: string, m: Object, done: set<Key>, source: string, destination: string)
    requires !p.threw && k !in done && Agrees(p.m, m, done, source, destination)
    requires Settled(m, k, source, destination) == SettledIp(m, k, ip)
    ensures var r := Ip(p, k, Some(ip)); !r.threw && Agrees(r.m, m, done + {k}, source, destination)
  {
  }

  // Both ports of the enabled FEC group, on one side.
  lemma FecPorts(p: Progress, k1: Key, k2: Key, base: Json, m: Object, done: set<Key>, source: string, destination: string)
    requires !p.threw && AsUInt(base).Some? && Agrees(p.m, m, done, source, destination)
    requires k1 !in done && k2 !in done && Enabled(m, FEC_ENABLED)
    requires (k1, k2, base) == (FEC_1DDESTINATION_PORT, FEC_2DDESTINATION_PORT, BasePort(m))
          || (k1, k2, base) == (FEC_1DSOURCE_PORT, FEC_2DSOURCE_PORT, SettledPort(m, SOURCE_PORT, 5004))
    ensures
      var r := Port(Port(p, k1, AsUInt(base), 2), k2, AsUInt(base), 4);
      !r.threw && Agrees(r.m, m, done + {k1} + {k2}, source, destination)
  {
    hide Agrees, Port, SettledPort;
    PortStep(p, k1, AsUInt(base), 2, m, done, source, destination);
    PortStep(Port(p, k1, AsUInt(base), 2), k2, AsUInt(base), 4, m, done + {k1}, source, destination);
  }

  lemma RtcpPort(p: Progress, k: Key, base: Json, offset: nat, m: Object, done: set<Key>, source: string, destination: string)
    requires !p.threw && AsUInt(base).Some? && Agrees(p.m, m, done, source, destination)
    requires k !in done && Enabled(m, RTCP_ENABLED) && offset == 1
    requires (k, base) == (RTCP_DESTINATION_PORT, BasePort(m)) || (k, base) == (RTCP_SOURCE_PORT, SettledPort(m, SOURCE_PORT, 5004))
    ensures
      var r := Port(p, k, AsUInt(base), offset);
      !r.threw && Agrees(r.m, m, done + {k}, source, destination)
  {
    hide Agrees, Port, SettledPort;
    PortStep(p, k, AsUInt(base), 1, m, done, source, destination);
  }

  lemma NoBaseThrows(p: Progress, k: Key, offset: nat)
    ensures Port(p, k, None, offset) == p.(threw := true)
  {
  }

  lemma NoNumberIsKept(m: Object)
    requires AsUInt(BasePort(m)) == None
    ensures At(m, DESTINATION_PORT) != Str(AUTO)
  {
  }

  ghost function FecPortKeys(m: Object, k1: Key, k2: Key): set<Key> {
    if Enabled(m, FEC_ENABLED) then {k1} + {k2} else {}
  }

  ghost function RtcpKey(m: Object, k: Key): set<Key> {
    if Enabled(m, RTCP_ENABLED) then {k} else {}
  }

  ghost function PortKey(m: Object): set<Key> {
    if DESTINATION_PORT in m then {DESTINATION_PORT} else {}
  }

  ghost function RtpKeys(m: Object): set<Key> {
    PortKey(m) + FecPortKeys(m, FEC_1DDESTINATION_PORT, FEC_2DDESTINATION_PORT) + RtcpKey(m, RTCP_DESTINATION_PORT)
  }

  lemma UntouchedByAgreement(q: Object, m: Object, done: set<Key>, k: Key, source: string, destination: string)
    requires Agrees(q, m, done, source, destination)
    ensures k !in done ==> At(q, k) == At(m, k) && Enabled(q, k) == Enabled(m, k)
    ensures k in done ==> At(q, k) == Settled(m, k, source, destination)
  {
  }

  lemma DestinationPortSettles(m: Object, source: string, destination: string)
    ensures
      var q := if At(m, DESTINATION_PORT) == Str(AUTO) then m[DESTINATION_PORT := Int(5004)] else m;
      Agrees(q, m, PortKey(m), source, destination) && At(q, DESTINATION_PORT) == BasePort(m)
  {
  }

  lemma ActualizeRtpSettles(m: Object, source: string, destination: string)
    ensures
      var p := ActualizeRtp(m);
      if (Enabled(m, FEC_ENABLED) || Enabled(m, RTCP_ENABLED)) && AsUInt(BasePort(m)) == None then p == Progress(m, true)
      else !p.threw && Agrees(p.m, m, RtpKeys(m), source, destination)
  {
    hide Agrees, Port, Settled, SettledPort, SettledIp, Enabled, AsUInt, BasePort;
    DestinationPortSettles(m, source, destination);
    var p0 := Progress(if At(m, DESTINATION_PORT) == Str(AUTO) then m[DESTINATION_PORT := Int(5004)] else m, false);
    UntouchedByAgreement(p0.m, m, PortKey(m), FEC_ENABLED, source, destination);
    UntouchedByAgreement(p0.m, m, PortKey(m), RTCP_ENABLED, source, destination);
    var base := AsUInt(BasePort(m));
    if base.Some? {
      var keys := PortKey(m) + FecPortKeys(m, FEC_1DDESTINATION_PORT, FEC_2DDESTINATION_PORT);
      var p1 := p0;
      if Enabled(m, FEC_ENABLED) {
        FecPorts(p0, FEC_1DDESTINATION_PORT, FEC_2DDESTINATION_PORT, BasePort(m), m, PortKey(m), source, destination);
        p1 := Port(Port(p0, FEC_1DDESTINATION_PORT, base, 2), FEC_2DDESTINATION_PORT, base, 4);
        assert keys == PortKey(m) + {FEC_1DDESTINATION_PORT} + {FEC_2DDESTINATION_PORT};
      } else {
        assert keys == PortKey(m);
      }
      assert Agrees(p1.m, m, keys, source, destination);
      UntouchedByAgreement(p1.m, m, keys, RTCP_ENABLED, source, destination);
      if Enabled(m, RTCP_ENABLED) {
        RtcpPort(p1, RTCP_DESTINATION_PORT, BasePort(m), 1, m, keys, source, destination);
      } else {
        assert keys + RtcpKey(m, RTCP_DESTINATION_PORT) == keys;
      }
    } else {
      NoNumberIsKept(m);
      NoBaseThrows(p0, FEC_1DDESTINATION_PORT, 2);
      NoBaseThrows(p0.(threw := true), FEC_2DDESTINATION_PORT, 4);
      NoBaseThrows(p0, RTCP_DESTINATION_PORT, 1);
      assert RtpKeys(m) == PortKey(m) || Enabled(m, FEC_ENABLED) || Enabled(m, RTCP_ENABLED);
    }
  }

  // The sender's own part, after the shared one: the addresses and the source port.
  lemma OwnKeysSettle(p: Progress, m: Object, done: set<Key>, source: string, destination: string)
    requires !p.threw && Agrees(p.m, m, done, source, destination)
    requires SOURCE_IP !in done && DESTINATION_IP !in done && SOURCE_PORT !in done
    ensures
      var r := Port(Ip(Ip(p, SOURCE_IP, Some(source)), DESTINATION_IP, Some(destination)), SOURCE_PORT, Some(5004), 0);
      !r.threw && Agrees(r.m, m, done + {SOURCE_IP} + {DESTINATION_IP} + {SOURCE_PORT}, source, destination)
  {
    hide Agrees, Port, Ip, SettledIp, SettledPort;
    IpStep(p, SOURCE_IP, source, m, done, source, destination);
    var p1 := Ip(p, SOURCE_IP, Some(source));
    IpStep(p1, DESTINATION_IP, destination, m, done + {SOURCE_IP}, source, destination);
    var p2 := Ip(p1, DESTINATION_IP, Some(destination));
    PortStep(p2, SOURCE_PORT, Some(5004), 0, m, done + {SOURCE_IP} + {DESTINATION_IP}, source, destination);
  }

  lemma SettledIpIsAString(m: Object, k: Key, ip: string)
    ensures AsString(SettledIp(m, k, ip)) == Some(Address(SettledIp(m, k, ip)))
  {
  }

  // The FEC address and source ports.
  lemma FecOwn(p: Progress, base: Json, m: Object, done: set<Key>, source: string, destination: string)
    requires !p.threw && AsUInt(base).Some? && base == SettledPort(m, SOURCE_PORT, 5004) && Enabled(m, FEC_ENABLED)
    requires Agrees(p.m, m, done, source, destination)
    requires FEC_DESTINATION_IP !in done && FEC_1DSOURCE_PORT !in done && FEC_2DSOURCE_PORT !in done
    ensures
      var ip := Address(SettledIp(m, DESTINATION_IP, destination));
      var r := Port(Port(Ip(p, FEC_DESTINATION_IP, Some(ip)), FEC_1DSOURCE_PORT, AsUInt(base), 2), FEC_2DSOURCE_PORT, AsUInt(base), 4);
      !r.threw && Agrees(r.m, m, done + {FEC_DESTINATION_IP} + {FEC_1DSOURCE_PORT} + {FEC_2DSOURCE_PORT}, source, destination)
  {
    hide Agrees, Port, Ip, SettledIp, SettledPort;
    var ip := Address(SettledIp(m, DESTINATION_IP, destination));
    IpStep(p, FEC_DESTINATION_IP, ip, m, done, source, destination);
    FecPorts(Ip(p, FEC_DESTINATION_IP, Some(ip)), FEC_1DSOURCE_PORT, FEC_2DSOURCE_PORT, base, m, done + {FEC_DESTINATION_IP}, source, destination);
  }

  // The RTCP source port and address.
  lemma RtcpOwn(p: Progress, base: Json, m: Object, done: set<Key>, source: string, destination: string)
    requires !p.threw && AsUInt(base).Some? && base == SettledPort(m, SOURCE_PORT, 5004) && Enabled(m, RTCP_ENABLED)
    requires Agrees(p.m, m, done, source, destination)
    requires RTCP_SOURCE_PORT !in done && RTCP_DESTINATION_IP !in done
    ensures
      var ip := Address(SettledIp(m, DESTINATION_IP, destination));
      var r := Ip(Port(p, RTCP_SOURCE_PORT, AsUInt(base), 1), RTCP_DESTINATION_IP, Some(ip));
      !r.threw && Agrees(r.m, m, done + {RTCP_SOURCE_PORT} + {RTCP_DESTINATION_IP}, source, destination)
  {
    hide Agrees, Port, Ip, SettledIp, SettledPort;
    var ip := Address(SettledIp(m, DESTINATION_IP, destination));
    RtcpPort(p, RTCP_SOURCE_PORT, base, 1, m, done, source, destination);
    IpStep(Port(p, RTCP_SOURCE_PORT, AsUInt(base), 1), RTCP_DESTINATION_IP, ip, m, done + {RTCP_SOURCE_PORT}, source, destination);
  }

  ghost function BaseKeys(m: Object): set<Key> {
    RtpKeys(m) + {SOURCE_IP} + {DESTINATION_IP} + {SOURCE_PORT}
  }

  ghost function FecKeys(m: Object): set<Key> {
    if Enabled(m, FEC_ENABLED) then {FEC_DESTINATION_IP} + {FEC_1DSOURCE_PORT} + {FEC_2DSOURCE_PORT} else {}
  }

  ghost function RtcpKeys(m: Object): set<Key> {
    if Enabled(m, RTCP_ENABLED) then {RTCP_SOURCE_PORT} + {RTCP_DESTINATION_IP} else {}
  }

  lemma KeysAreApart(m: Object)
    ensures FEC_DESTINATION_IP !in BaseKeys(m) && FEC_1DSOURCE_PORT !in BaseKeys(m) && FEC_2DSOURCE_PORT !in BaseKeys(m)
    ensures RTCP_SOURCE_PORT !in BaseKeys(m) + FecKeys(m) && RTCP_DESTINATION_IP !in BaseKeys(m) + FecKeys(m)
    ensures FEC_ENABLED !in BaseKeys(m) && RTCP_ENABLED !in BaseKeys(m) && RTCP_ENABLED !in BaseKeys(m) + FecKeys(m)
    ensures DESTINATION_IP in BaseKeys(m) && SOURCE_PORT in BaseKeys(m)
  {
  }

  // What is written: all of the sender's groups, or, when an accessor throws, what comes before it.
  ghost function WrittenKeys(m: Object): set<Key> {
    if Actualizable(m) then BaseKeys(m) + FecKeys(m) + RtcpKeys(m)
    else if AsUInt(BasePort(m)) == None then {}
    else BaseKeys(m) + FirstFecKey(m)
  }

  // An accessor throws exactly when the parameters are not actualizable. The keys written settle, and
  // no other changes.
  lemma ActualizeSettles(m: Object, source: string, destination: string)
    ensures
      var p := Actualize(m, source, destination);
      (p.threw <==> !Actualizable(m)) && Agrees(p.m, m, WrittenKeys(m), source, destination)
  {
    ActualizeRtpSettles(m, source, destination);
    OwnKeysAreApart(m);
    hide Agrees, Port, Ip, Settled, SettledPort, SettledIp, Enabled, AsUInt, BasePort, ActualizeRtp, Actualize, FecKeys, RtcpKeys, RtpKeys;
    hide FirstFecKey;
    RtpThrowIsFinal(m, source, destination);
    NothingAgrees(m, source, destination);
    var p0 := ActualizeRtp(m);
    if !p0.threw {
      OwnKeysSettle(p0, m, RtpKeys(m), source, destination);
      OwnPart(m, p0, source, destination);
    }
  }

  lemma NothingAgrees(m: Object, source: string, destination: string)
    ensures Agrees(m, m, {}, source, destination)
  {
  }

  lemma OwnKeysAreApart(m: Object)
    ensures SOURCE_IP !in RtpKeys(m) && DESTINATION_IP !in RtpKeys(m) && SOURCE_PORT !in RtpKeys(m)
  {
  }

  lemma RtpThrowIsFinal(m: Object, source: string, destination: string)
    ensures ActualizeRtp(m).threw ==> Actualize(m, source, destination) == ActualizeRtp(m)
  {
  }

  lemma OwnPart(m: Object, p0: Progress, source: string, destination: string)
    requires !p0.threw && p0 == ActualizeRtp(m)
    requires
      var p1 := Port(Ip(Ip(p0, SOURCE_IP, Some(source)), DESTINATION_IP, Some(destination)), SOURCE_PORT, Some(5004), 0);
      !p1.threw && Agrees(p1.m, m, BaseKeys(m), source, destination)
    ensures
      var p := Actualize(m, source, destination);
      if (Enabled(m, FEC_ENABLED) || Enabled(m, RTCP_ENABLED)) && AsUInt(SettledPort(m, SOURCE_PORT, 5004)) == None
      then p.threw && Agrees(p.m, m, BaseKeys(m) + FirstFecKey(m), source, destination)
      else !p.threw && Agrees(p.m, m, BaseKeys(m) + FecKeys(m) + RtcpKeys(m), source, destination)
  {
    var p1 := Port(Ip(Ip(p0, SOURCE_IP, Some(source)), DESTINATION_IP, Some(destination)), SOURCE_PORT, Some(5004), 0);
    var base := SettledPort(m, SOURCE_PORT, 5004);
    assert Settled(m, SOURCE_PORT, source, destination) == base;
    assert Settled(m, DESTINATION_IP, source, destination) == SettledIp(m, DESTINATION_IP, destination);
    hide Agrees, Port, Ip, Settled, SettledPort, SettledIp, Enabled, AsUInt, BasePort, ActualizeRtp, ActualizeGroups, FecKeys, RtcpKeys;
    KeysAreApart(m);
    UntouchedByAgreement(p1.m, m, BaseKeys(m), DESTINATION_IP, source, destination);
    UntouchedByAgreement(p1.m, m, BaseKeys(m), SOURCE_PORT, source, destination);
    SettledIpIsAString(m, DESTINATION_IP, destination);
    if AsUInt(base) == None {
      GroupsWithoutBase(p1, m, source, destination);
    } else {
      GroupsSettle(p1, m, source, destination);
    }
  }

  ghost function FirstFecKey(m: Object): set<Key> {
    if Enabled(m, FEC_ENABLED) then {FEC_DESTINATION_IP} else {}
  }

  lemma GroupsWithoutBase(p: Progress, m: Object, source: string, destination: string)
    requires !p.threw && Agrees(p.m, m, BaseKeys(m), source, destination)
    ensures
      var q := ActualizeGroups(p, Some(Address(SettledIp(m, DESTINATION_IP, destination))), None);
      if Enabled(m, FEC_ENABLED) || Enabled(m, RTCP_ENABLED)
      then q.threw && Agrees(q.m, m, BaseKeys(m) + FirstFecKey(m), source, destination)
      else !q.threw && Agrees(q.m, m, BaseKeys(m) + FecKeys(m) + RtcpKeys(m), source, destination)
  {
    hide Agrees, Port, Ip, SettledIp, SettledPort, Enabled;
    KeysAreApart(m);
    hide BaseKeys;
    UntouchedByAgreement(p.m, m, BaseKeys(m), FEC_ENABLED, source, destination);
    UntouchedByAgreement(p.m, m, BaseKeys(m), RTCP_ENABLED, source, destination);
    var ip := Address(SettledIp(m, DESTINATION_IP, destination));
    var q := Ip(p, FEC_DESTINATION_IP, Some(ip));
    NoBaseThrows(q, FEC_1DSOURCE_PORT, 2);
    NoBaseThrows(q.(threw := true), FEC_2DSOURCE_PORT, 4);
    NoBaseThrows(p, RTCP_SOURCE_PORT, 1);
    ThrownStays(p.(threw := true), RTCP_DESTINATION_IP, Some(ip));
    if Enabled(m, FEC_ENABLED) {
      IpStep(p, FEC_DESTINATION_IP, ip, m, BaseKeys(m), source, destination);
    }
    assert !Enabled(m, FEC_ENABLED) ==> BaseKeys(m) + FirstFecKey(m) == BaseKeys(m);
    assert !Enabled(m, FEC_ENABLED) && !Enabled(m, RTCP_ENABLED) ==> BaseKeys(m) + FecKeys(m) + RtcpKeys(m) == BaseKeys(m);
  }

  lemma GroupsSettle(p: Progress, m: Object, source: string, destination: string)
    requires !p.threw && Agrees(p.m, m, BaseKeys(m), source, destination)
    requires AsUInt(SettledPort(m, SOURCE_PORT, 5004)).Some?
    ensures
      var q := ActualizeGroups(p, Some(Address(SettledIp(m, DESTINATION_IP, destination))), AsUInt(SettledPort(m, SOURCE_PORT, 5004)));
      !q.threw && Agrees(q.m, m, BaseKeys(m) + FecKeys(m) + RtcpKeys(m), source, destination)
  {
    hide Agrees, Port, Ip, Settled, SettledPort, SettledIp, Enabled, AsUInt;
    KeysAreApart(m);
    hide BaseKeys;
    UntouchedByAgreement(p.m, m, BaseKeys(m), FEC_ENABLED, source, destination);
    UntouchedByAgreement(p.m, m, BaseKeys(m), RTCP_ENABLED, source, destination);
    var ip := Some(Address(SettledIp(m, DESTINATION_IP, destination)));
    var base := SettledPort(m, SOURCE_PORT, 5004);
    var keys := BaseKeys(m) + FecKeys(m);
    var q := p;
    if Enabled(m, FEC_ENABLED) {
      FecOwn(p, base, m, BaseKeys(m), source, destination);
      q := Port(Port(Ip(p, FEC_DESTINATION_IP, ip), FEC_1DSOURCE_PORT, AsUInt(base), 2), FEC_2DSOURCE_PORT, AsUInt(base), 4);
      assert keys == BaseKeys(m) + {FEC_DESTINATION_IP} + {FEC_1DSOURCE_PORT} + {FEC_2DSOURCE_PORT};
    } else {
      assert keys == BaseKeys(m);
    }
    UntouchedByAgreement(q.m, m, keys, RTCP_ENABLED, source, destination);
    if Enabled(m, RTCP_ENABLED) {
      RtcpOwn(q, base, m, keys, source, destination);
      assert keys + RtcpKeys(m) == keys + {RTCP_SOURCE_PORT} + {RTCP_DESTINATION_IP};
    } else {
      assert keys + RtcpKeys(m) == keys;
    }
  }

  lemma ThrownStays(p: Progress, k: Key, ip: Option<string>)
    requires p.threw
    ensures Ip(p, k, ip) == p
  {
  }

  ghost function SettledKeys(m: Object): set<Key> {
    BaseKeys(m) + FecKeys(m) + RtcpKeys(m)
  }

  lemma OtherKeysAreSettled(m: Object, k: Key, source: string, destination: string)
    requires k !in SettledKeys(m)
    ensures Settled(m, k, source, destination) == At(m, k)
  {
  }

  lemma FromAgreement(m: Object, q: Object, source: string, destination: string)
    requires Agrees(q, m, SettledKeys(m), source, destination)
    ensures q.Keys == m.Keys + SettledKeys(m)
    ensures forall k :: k in q ==> q[k] == Settled(m, k, source, destination)
  {
    hide Settled, SettledKeys;
    forall k | k in q ensures q[k] == Settled(m, k, source, destination) {
      if k !in SettledKeys(m) {
        OtherKeysAreSettled(m, k, source, destination);
      }
    }
  }

  // Every parameter after Actualize is a function of the parameters before it.
  lemma ActualizedIsSettled(m: Object, source: string, destination: string) returns (q: Object)
    requires Actualizable(m)
    ensures Actualize(m, source, destination) == Progress(q, false)
    ensures q.Keys == m.Keys + SettledKeys(m)
    ensures forall k :: k in q ==> q[k] == Settled(m, k, source, destination)
  {
    hide Actualize, Actualizable, Agrees, Settled, BaseKeys, FecKeys, RtcpKeys;
    ActualizeSettles(m, source, destination);
    q := Actualize(m, source, destination).m;
    FromAgreement(m, q, source, destination);
  }

  // The value is one that Actualize may not replace.
  predicate Explicit(m: Object, k: Key) {
    k in m &&
    if k == DESTINATION_PORT then m[k] != Str(AUTO)
    else if SenderTypes(k) == {STRING} then GetString(m, k) != None && GetString(m, k) != Some(AUTO)
    else if SenderTypes(k) == {STRING, INTEGER} then GetInt(m, k) != None && GetInt(m, k) != Some(0)
    else true
  }

  lemma ExplicitIsSettled(m: Object, k: Key, source: string, destination: string)
    requires Explicit(m, k)
    ensures Settled(m, k, source, destination) == m[k]
  {
  }

  // An explicit non-zero port and an address that is not "auto" are kept.
  lemma ExplicitValuesAreKept(m: Object, k: Key, source: string, destination: string) returns (q: Object)
    requires Actualizable(m) && Explicit(m, k)
    ensures Actualize(m, source, destination) == Progress(q, false) && k in q && q[k] == m[k]
  {
    ExplicitIsSettled(m, k, source, destination);
    hide Actualize, Actualizable, SettledKeys, Settled;
    q := ActualizedIsSettled(m, source, destination);
  }

  // Where a derived port comes from: the group, the base port and the offset.
  datatype Origin = Origin(group: Key, base: Key, offset: nat)

  function DerivedFrom(k: Key): Option<Origin> {
    match k
    case FEC_1DDESTINATION_PORT => Some(Origin(FEC_ENABLED, DESTINATION_PORT, 2))
    case FEC_2DDESTINATION_PORT => Some(Origin(FEC_ENABLED, DESTINATION_PORT, 4))
    case FEC_1DSOURCE_PORT => Some(Origin(FEC_ENABLED, SOURCE_PORT, 2))
    case FEC_2DSOURCE_PORT => Some(Origin(FEC_ENABLED, SOURCE_PORT, 4))
    case RTCP_DESTINATION_PORT => Some(Origin(RTCP_ENABLED, DESTINATION_PORT, 1))
    case RTCP_SOURCE_PORT => Some(Origin(RTCP_ENABLED, SOURCE_PORT, 1))
    case _ => None
  }

  lemma MissingPortIsZero(m: Object)
    requires DESTINATION_PORT !in m
    ensures PortNumber(BasePort(m)) == PortNumber(Null) == 0
  {
  }

  lemma DerivedKeysSettle(m: Object, k: Key)
    requires DerivedFrom(k).Some? && Enabled(m, DerivedFrom(k).value.group)
    ensures k in SettledKeys(m) && (DerivedFrom(k).value.base in SettledKeys(m) || DerivedFrom(k).value.base !in m)
  {
  }

  // A derived port of an enabled group that is "auto" or zero becomes its base port, as it ends up,
  // plus the offset, modulo 65536.
  lemma DerivedPorts(m: Object, k: Key, source: string, destination: string) returns (q: Object)
    requires Actualizable(m)
    requires DerivedFrom(k).Some? && Enabled(m, DerivedFrom(k).value.group)
    requires GetInt(m, k) == None || GetInt(m, k) == Some(0)
    ensures Actualize(m, source, destination) == Progress(q, false)
    ensures var o := DerivedFrom(k).value;
      k in q && q[k] == Int((PortNumber(At(q, o.base)) + o.offset) % 0x1_0000)
  {
    hide Actualize, Actualizable, Enabled, SettledKeys, SettledIp, BasePort;
    DerivedKeysSettle(m, k);
    BaseKeysAreSettled(m);
    if DESTINATION_PORT !in m {
      MissingPortIsZero(m);
    }
    q := ActualizedIsSettled(m, source, destination);
  }

  // Settling settled parameters changes nothing: first the bases, then the rest.
  lemma BasesSettleOnce(m: Object, q: Object, source: string, destination: string)
    requires (DESTINATION_PORT in q <==> DESTINATION_PORT in m) && SOURCE_PORT in q && DESTINATION_IP in q
    requires forall j :: j in q ==> q[j] == Settled(m, j, source, destination)
    ensures BasePort(q) == BasePort(m) && SettledPort(q, SOURCE_PORT, 5004) == SettledPort(m, SOURCE_PORT, 5004)
    ensures SettledIp(q, DESTINATION_IP, destination) == SettledIp(m, DESTINATION_IP, destination)
  {
  }

  lemma PortSettlesOnce(m: Object, q: Object, k: Key, default: nat)
    requires k in q && q[k] == SettledPort(m, k, default)
    ensures SettledPort(q, k, default) == q[k]
  {
  }

  lemma IpSettlesOnce(m: Object, q: Object, k: Key, ip: string)
    requires k in q && q[k] == SettledIp(m, k, ip)
    ensures SettledIp(q, k, ip) == q[k]
  {
  }

  lemma SettledTwice(m: Object, q: Object, k: Key, source: string, destination: string)
    requires Enabled(q, FEC_ENABLED) == Enabled(m, FEC_ENABLED) && Enabled(q, RTCP_ENABLED) == Enabled(m, RTCP_ENABLED)
    requires BasePort(q) == BasePort(m) && SettledPort(q, SOURCE_PORT, 5004) == SettledPort(m, SOURCE_PORT, 5004)
    requires SettledIp(q, DESTINATION_IP, destination) == SettledIp(m, DESTINATION_IP, destination)
    requires k in q && q[k] == Settled(m, k, source, destination)
    ensures Settled(q, k, source, destination) == q[k]
  {
    hide Enabled, SettledPort, SettledIp, BasePort, PortNumber, Address, AsUInt, AsString;
    var d := PortNumber(BasePort(m));
    var s := PortNumber(SettledPort(m, SOURCE_PORT, 5004));
    var to := Address(SettledIp(m, DESTINATION_IP, destination));
    match k
    case SOURCE_PORT => PortSettlesOnce(m, q, k, 5004);
    case SOURCE_IP => IpSettlesOnce(m, q, k, source);
    case DESTINATION_IP => IpSettlesOnce(m, q, k, destination);
    case FEC_1DDESTINATION_PORT => if Enabled(m, FEC_ENABLED) { PortSettlesOnce(m, q, k, d + 2); }
    case FEC_2DDESTINATION_PORT => if Enabled(m, FEC_ENABLED) { PortSettlesOnce(m, q, k, d + 4); }
    case FEC_1DSOURCE_PORT => if Enabled(m, FEC_ENABLED) { PortSettlesOnce(m, q, k, s + 2); }
    case FEC_2DSOURCE_PORT => if Enabled(m, FEC_ENABLED) { PortSettlesOnce(m, q, k, s + 4); }
    case RTCP_DESTINATION_PORT => if Enabled(m, RTCP_ENABLED) { PortSettlesOnce(m, q, k, d + 1); }
    case RTCP_SOURCE_PORT => if Enabled(m, RTCP_ENABLED) { PortSettlesOnce(m, q, k, s + 1); }
    case FEC_DESTINATION_IP => if Enabled(m, FEC_ENABLED) { IpSettlesOnce(m, q, k, to); }
    case RTCP_DESTINATION_IP => if Enabled(m, RTCP_ENABLED) { IpSettlesOnce(m, q, k, to); }
    case _ =>
  }

  lemma BaseKeysAreSettled(m: Object)
    ensures DESTINATION_PORT in SettledKeys(m) <==> DESTINATION_PORT in m
    ensures SOURCE_PORT in SettledKeys(m) && DESTINATION_IP in SettledKeys(m)
    ensures FEC_ENABLED !in SettledKeys(m) && RTCP_ENABLED !in SettledKeys(m)
  {
    hide Enabled;
    PortKeyIsRtp(m);
  }

  lemma PortKeyIsRtp(m: Object)
    ensures DESTINATION_PORT in RtpKeys(m) <==> DESTINATION_PORT in m
    ensures FEC_ENABLED !in RtpKeys(m) && RTCP_ENABLED !in RtpKeys(m)
  {
    hide Enabled;
  }

  lemma KeysDependOnGroups(m: Object, q: Object)
    requires Enabled(q, FEC_ENABLED) == Enabled(m, FEC_ENABLED) && Enabled(q, RTCP_ENABLED) == Enabled(m, RTCP_ENABLED)
    requires DESTINATION_PORT in q <==> DESTINATION_PORT in m
    ensures SettledKeys(q) == SettledKeys(m)
  {
  }

  lemma GroupsStayEnabled(m: Object, q: Object, source: string, destination: string)
    requires q.Keys == m.Keys + SettledKeys(m) && forall k :: k in q ==> q[k] == Settled(m, k, source, destination)
    ensures Enabled(q, FEC_ENABLED) == Enabled(m, FEC_ENABLED) && Enabled(q, RTCP_ENABLED) == Enabled(m, RTCP_ENABLED)
    ensures SettledKeys(q) == SettledKeys(m) && (DESTINATION_PORT in q <==> DESTINATION_PORT in m)
    ensures SOURCE_PORT in q && DESTINATION_IP in q
  {
    hide SettledPort, SettledIp, BasePort, SettledKeys;
    BaseKeysAreSettled(m);
    assert Enabled(q, FEC_ENABLED) == Enabled(m, FEC_ENABLED) && Enabled(q, RTCP_ENABLED) == Enabled(m, RTCP_ENABLED);
    KeysDependOnGroups(m, q);
  }

  lemma ActualizeIsIdempotent(m: Object, source: string, destination: string)
    requires Actualizable(m)
    ensures
      var q := Actualize(m, source, destination).m;
      Actualize(q, source, destination) == Progress(q, false)
  {
    hide Actualize, Settled, SettledPort, SettledIp, BasePort, SettledKeys, Enabled, AsUInt;
    var q := ActualizedIsSettled(m, source, destination);
    GroupsStayEnabled(m, q, source, destination);
    BasesSettleOnce(m, q, source, destination);
    forall k | k in q ensures Settled(q, k, source, destination) == q[k] {
      SettledTwice(m, q, k, source, destination);
    }
    var q' := ActualizedIsSettled(q, source, destination);
    assert q' == q;
  }

  // ---------- Values ----------

  // A port that is an explicit number other than 0 is kept when it fits an int, and replaced
  // otherwise, as is any text; an address is replaced when it is "auto".
  lemma SettlesLiterally(m: Object, k: Key, n: int, text: string, default: nat, ip: string)
    requires k in m
    ensures m[k] == Int(n) ==>
      SettledPort(m, k, default) == Int(if n != 0 && -2147483648 <= n <= 2147483647 then n else default % 65536)
    ensures m[k] == Str(text) ==> SettledPort(m, k, default) == Int(default % 65536)
    ensures PortNumber(Int(n)) == if 0 <= n <= 4294967295 then n else 0
    ensures m[k] == Str(text) && text != "auto" ==> SettledIp(m, k, ip) == Str(text)
    ensures m[k] == Str("auto") ==> SettledIp(m, k, ip) == if ip == "" then Null else Str(ip)
    ensures m[k] == Bool(true) ==> Enabled(m, k)
    ensures m[k] == Bool(false) || m[k] == Str(text) ==> !Enabled(m, k)
  {
  }

  // What is live on port 5004 and the ports after it.
  ghost predicate Live(q: Object, source: string, destination: string) {
    && At(q, SOURCE_IP) == Str(source) && At(q, DESTINATION_IP) == Str(destination)
    && At(q, DESTINATION_PORT) == Int(5004) && At(q, SOURCE_PORT) == Int(5004)
    && At(q, FEC_DESTINATION_IP) == At(q, RTCP_DESTINATION_IP) == Str(destination)
    && At(q, FEC_1DDESTINATION_PORT) == At(q, FEC_1DSOURCE_PORT) == Int(5006)
    && At(q, FEC_2DDESTINATION_PORT) == At(q, FEC_2DSOURCE_PORT) == Int(5008)
    && At(q, RTCP_DESTINATION_PORT) == At(q, RTCP_SOURCE_PORT) == Int(5005)
    && At(q, FEC_TYPE) == Str("Reed-Solomon") && At(q, FEC_BLOCK_WIDTH) == At(q, FEC_BLOCK_HEIGHT) == Int(4)
  }

  // A new sender with all its groups enabled goes live.
  lemma NewSenderGoesLive(source: string, destination: string) returns (q: Object)
    requires source != "" && destination != ""
    ensures
      var m := NewSender(true, true)[FEC_ENABLED := Bool(true)][RTCP_ENABLED := Bool(true)];
      Actualize(m, source, destination) == Progress(q, false)
    ensures Live(q, source, destination)
  {
    var m := NewSender(true, true)[FEC_ENABLED := Bool(true)][RTCP_ENABLED := Bool(true)];
    NewValues(m);
    hide Actualize, NewSender, Settled, SettledKeys, AutoBut, Live, Actualizable;
    AutoIsActualizable(m);
    q := ActualizedIsSettled(m, source, destination);
    SettledIsLive(m, q, source, destination);
  }

  lemma SettledIsLive(m: Object, q: Object, source: string, destination: string)
    requires AutoBut(m) && source != "" && destination != "" && q.Keys == m.Keys + SettledKeys(m)
    requires forall k :: k in q ==> q[k] == Settled(m, k, source, destination)
    ensures Live(q, source, destination)
  {
    hide Settled, SettledKeys;
    NewSettles(m, source, destination);
    RtcpSourceSettles(m);
    forall k | k in m ensures At(q, k) == Settled(m, k, source, destination) {
    }
  }

  lemma CoreValues()
    ensures forall k :: k in {SOURCE_IP, DESTINATION_IP, SOURCE_PORT, DESTINATION_PORT} ==>
      k in Core && Core[k] == Str("auto") && k !in Fec && k !in Rtcp
    ensures RTP_ENABLED in Core && Core[RTP_ENABLED] == Bool(false)
  {
  }

  lemma FecValues()
    ensures forall k ::
      k in {FEC_DESTINATION_IP, FEC_1DDESTINATION_PORT, FEC_2DDESTINATION_PORT, FEC_1DSOURCE_PORT, FEC_2DSOURCE_PORT} ==>
        k in Fec && Fec[k] == Str("auto") && k !in Rtcp
    ensures FEC_TYPE in Fec && Fec[FEC_TYPE] == Str("Reed-Solomon") && FEC_TYPE !in Rtcp
    ensures FEC_BLOCK_WIDTH in Fec && Fec[FEC_BLOCK_WIDTH] == Int(4) && FEC_BLOCK_WIDTH !in Rtcp
    ensures FEC_BLOCK_HEIGHT in Fec && Fec[FEC_BLOCK_HEIGHT] == Int(4) && FEC_BLOCK_HEIGHT !in Rtcp
  {
  }

  lemma RtcpValues()
    ensures forall k :: k in {RTCP_DESTINATION_IP, RTCP_DESTINATION_PORT} ==> k in Rtcp && Rtcp[k] == Str("auto")
    ensures RTCP_SOURCE_PORT !in Core && RTCP_SOURCE_PORT !in Fec && RTCP_SOURCE_PORT !in Rtcp
  {
  }

  lemma NewValues(m: Object)
    requires m == NewSender(true, true)[FEC_ENABLED := Bool(true)][RTCP_ENABLED := Bool(true)]
    ensures AutoBut(m)
  {
    hide Core, Fec, Rtcp;
    CoreValues();
    FecValues();
    RtcpValues();
  }

  // Everything is "auto", except what is enabled and the FEC type and sizes.
  ghost predicate AutoBut(m: Object) {
    && (forall k :: k in {SOURCE_IP, DESTINATION_IP, SOURCE_PORT, DESTINATION_PORT, FEC_DESTINATION_IP, FEC_1DDESTINATION_PORT,
          FEC_2DDESTINATION_PORT, FEC_1DSOURCE_PORT, FEC_2DSOURCE_PORT, RTCP_DESTINATION_IP, RTCP_DESTINATION_PORT} ==>
          k in m && m[k] == Str("auto"))
    && RTCP_SOURCE_PORT !in m && At(m, FEC_ENABLED) == Bool(true) && At(m, RTCP_ENABLED) == Bool(true)
    && At(m, FEC_TYPE) == Str("Reed-Solomon") && At(m, FEC_BLOCK_WIDTH) == At(m, FEC_BLOCK_HEIGHT) == Int(4)
    && FEC_TYPE in m && FEC_BLOCK_WIDTH in m && FEC_BLOCK_HEIGHT in m
  }

  lemma AutoIsActualizable(m: Object)
    ensures AutoBut(m) ==> Actualizable(m)
  {
  }

  lemma RtcpSourceSettles(m: Object)
    requires AutoBut(m)
    ensures RTCP_SOURCE_PORT in SettledKeys(m)
  {
  }

  lemma NewSettles(m: Object, source: string, destination: string)
    requires AutoBut(m) && source != "" && destination != ""
    ensures Settled(m, SOURCE_IP, source, destination) == Str(source)
    ensures forall k :: k in {DESTINATION_IP, FEC_DESTINATION_IP, RTCP_DESTINATION_IP} ==>
      Settled(m, k, source, destination) == Str(destination)
    ensures Settled(m, DESTINATION_PORT, source, destination) == Settled(m, SOURCE_PORT, source, destination) == Int(5004)
    ensures forall k :: k in {FEC_1DDESTINATION_PORT, FEC_1DSOURCE_PORT} ==> Settled(m, k, source, destination) == Int(5006)
    ensures forall k :: k in {FEC_2DDESTINATION_PORT, FEC_2DSOURCE_PORT} ==> Settled(m, k, source, destination) == Int(5008)
    ensures forall k :: k in {RTCP_DESTINATION_PORT, RTCP_SOURCE_PORT} ==> Settled(m, k, source, destination) == Int(5005)
    ensures forall k :: k in {FEC_TYPE, FEC_BLOCK_WIDTH, FEC_BLOCK_HEIGHT} ==> Settled(m, k, source, destination) == m[k]
  {
  }
}
