/** The activation object and the sender's connection (base/src/activation.cpp,
    base/src/connection.cpp). The sources copy both by value, so they are values here. */
module Connection {
  import opened Containers
  import opened Json
  import opened TaiTime
  import Params = TransportParams
  import StreamParams

  // ---------- Activation ----------

  datatype Mode = ACT_NULL | ACT_NOW | ACT_ABSOLUTE | ACT_RELATIVE

  // A missing, null or unknown mode counts as no mode.
  function GetMode(a: Object): Mode {
    match GetString(a, MODE)
    case None => ACT_NULL
    case Some(s) =>
      if s == "activate_immediate" then ACT_NOW
      else if s == "activate_scheduled_absolute" then ACT_ABSOLUTE
      else if s == "activate_scheduled_relative" then ACT_RELATIVE
      else ACT_NULL
  }

  // Each mode is named by one text, and any other text or null counts as no mode.
  lemma ModeIsRead(a: Object)
    requires At(a, MODE).Str? || At(a, MODE).Null?
    ensures GetMode(a) == ACT_NOW <==> At(a, MODE) == Str("activate_immediate")
    ensures GetMode(a) == ACT_ABSOLUTE <==> At(a, MODE) == Str("activate_scheduled_absolute")
    ensures GetMode(a) == ACT_RELATIVE <==> At(a, MODE) == Str("activate_scheduled_relative")
  {
  }

  function SetActivationTime(a: Object, tp: int64): Object {
    a[ACTIVATED_TIME := Str(ConvertTimeToString(tp, true))]
  }

  function RemoveActivationTime(a: Object): Object {
    a[ACTIVATED_TIME := Null]
  }

  function ClearActivation(a: Object): Object {
    a[MODE := Null][REQUESTED_TIME := Null][ACTIVATED_TIME := Null]
  }

  function GetActivationTimePoint(a: Object): Reading {
    match GetString(a, ACTIVATED_TIME)
    case None => NoInstant
    case Some(s) => ConvertTaiStringToTimePoint(s)
  }

  // What is staged as the activation time: no instant when it is null or missing, and otherwise the one
  // that was printed.
  lemma StagedTimeIsRead(a: Object, tp: int64)
    ensures At(a, ACTIVATED_TIME) == Null ==> GetActivationTimePoint(a) == NoInstant
    ensures At(a, ACTIVATED_TIME) == Str(ConvertTimeToString(tp, true)) ==> GetActivationTimePoint(a) == Instant(tp)
  {
    hide ConvertTimeToString;
    ReadsWhatItPrints(tp);
    WithoutColonIsNoTime("", tp);
  }

  // The text that the two scheduled modes read; a null time reads as the empty text.
  function RequestedTime(a: Object): string {
    match GetString(a, REQUESTED_TIME)
    case None => ""
    case Some(s) => s
  }

  function ActivationTypes(k: Key): set<Kind> {
    match k
    case MODE => {STRING, NULL}
    case REQUESTED_TIME => {STRING, NULL}
    case ACTIVATED_TIME => {STRING, NULL}
    case _ => {}
  }

  predicate ActivationAccepted(o: Object) {
    MODE in o && Allowed(o, ActivationTypes)
  }

  // A patch sets the mode and the requested time, the latter to null when it is missing; it never
  // touches the activation time.
  function PatchActivation(a: Object, o: Object): Object {
    a[MODE := At(o, MODE)][REQUESTED_TIME := At(o, REQUESTED_TIME)]
  }

  // ---------- Connection ----------

  // json holds receiver_id and master_enable.
  datatype Connection = Connection(json: Object, activation: Object, params: seq<Object>)

  // connectionSender(true, flags).
  function NewConnection(fec: bool, rtcp: bool, redundant: bool): Connection {
    var p := Params.NewSender(fec, rtcp);
    Connection(
      map[MASTER_ENABLE := Bool(true), RECEIVER_ID := Null],
      map[MODE := Null, REQUESTED_TIME := Null, ACTIVATED_TIME := Null],
      if redundant then [p, p] else [p])
  }

  function ConnectionTypes(k: Key): set<Kind> {
    match k
    case RECEIVER_ID => {STRING, NULL}
    case MASTER_ENABLE => {BOOLEAN}
    case ACTIVATION => {OBJECT}
    case TRANSPORT_PARAMS => {ARRAY}
    case _ => {}
  }

  datatype Outcome<+T> = Accepted(value: T) | Refused | Escaped

  // Stream by stream; the first one that is not accepted decides.
  function JudgeStreams(params: seq<Object>, patches: seq<Json>): Verdict
    requires |params| == |patches|
  {
    if params == [] then Yes
    else if Params.Judge(params[0], patches[0]) != Yes then Params.Judge(params[0], patches[0])
    else JudgeStreams(params[1..], patches[1..])
  }

  function PatchStreams(params: seq<Object>, patches: seq<Json>): seq<Object>
    requires |params| == |patches|
  {
    seq(|params|, i requires 0 <= i < |params| => Params.Patch(params[i], patches[i]))
  }

  // connectionSender::CheckJson.
  function CheckJson(patch: Json): Verdict {
    var o := Members(patch);
    if !Allowed(Visited(patch), ConnectionTypes) then No
    else if !HasMembers(patch) then Throws
    else if ACTIVATION in o && !ActivationAccepted(Members(o[ACTIVATION])) then No
    else if TRANSPORT_PARAMS in o && o[TRANSPORT_PARAMS].Arr?
      && exists i :: 0 <= i < |o[TRANSPORT_PARAMS].a| && !Allowed(Visited(o[TRANSPORT_PARAMS].a[i]), Params.SenderTypes) then No
    else Yes
  }

  function StreamPatches(patch: Json): Option<seq<Json>> {
    var o := Members(patch);
    if TRANSPORT_PARAMS in o && o[TRANSPORT_PARAMS].Arr? then Some(o[TRANSPORT_PARAMS].a) else None
  }

  function JudgePatch(c: Connection, patch: Json): Verdict {
    if CheckJson(patch) != Yes then CheckJson(patch)
    else
      match StreamPatches(patch)
      case None => Yes
      case Some(ps) => if |ps| != |c.params| then No else JudgeStreams(c.params, ps)
  }

  // connectionSender::Patch on a copy.
  function Patch(c: Connection, patch: Json): Outcome<Connection> {
    match JudgePatch(c, patch)
    case No => Refused
    case Throws => Escaped
    case Yes =>
      var o := Members(patch);
      Accepted(Connection(
        c.json + map k | k in o && k in {MASTER_ENABLE, RECEIVER_ID} :: o[k],
        if ACTIVATION in o then PatchActivation(c.activation, Members(o[ACTIVATION])) else c.activation,
        if StreamPatches(patch).Some? then PatchStreams(c.params, StreamPatches(patch).value) else c.params))
  }

  // Patches the objects of the streams in turn and stops at the first that is not accepted.
  method PatchEach(params: seq<Object>, ps: seq<Json>) returns (v: Verdict, r: seq<Object>)
    requires |params| == |ps|
    ensures v == JudgeStreams(params, ps) && (v == Yes ==> r == PatchStreams(params, ps))
  {
    hide Params.Judge, Params.Patch;
    r := params;
    var i := 0;
    while i < |ps|
      invariant i <= |ps| == |r|
      invariant JudgeStreams(params, ps) == JudgeStreams(params[i..], ps[i..])
      invariant forall j :: 0 <= j < i ==> r[j] == Params.Patch(params[j], ps[j])
      invariant forall j :: i <= j < |r| ==> r[j] == params[j]
    {
      assert params[i..][0] == r[i] && ps[i..][0] == ps[i];
      assert params[i..][1..] == params[i + 1..] && ps[i..][1..] == ps[i + 1..];
      var stream := new StreamParams.Stream(r[i]);
      v := stream.PatchSender(ps[i]);
      r := r[i := stream.json];
      if v != Yes {
        return;
      }
      i := i + 1;
    }
    v := Yes;
  }

  // The same as Patch, as the source runs it on the copy: step by step with early returns.
  method PatchConnection(c: Connection, patch: Json) returns (r: Outcome<Connection>)
    ensures r == Patch(c, patch)
    ensures r.Accepted? <==> patch.Null? || (patch.Obj? && Acceptable(c, patch.o))
    ensures r.Accepted? ==> Follows(r.value, c, patch)
  {
    hide Allowed, JudgeStreams, PatchStreams, CheckJson, Follows, Acceptable;
    AcceptedExactly(c, patch);
    if Patch(c, patch).Accepted? {
      PatchFollows(c, patch);
    }
    var v := CheckJson(patch);
    if v != Yes {
      return if v == No then Refused else Escaped;
    }
    var o := Members(patch);
    var json, activation, params := c.json, c.activation, c.params;
    if ACTIVATION in o {
      activation := PatchActivation(activation, Members(o[ACTIVATION]));
    }
    if MASTER_ENABLE in o {
      json := json[MASTER_ENABLE := o[MASTER_ENABLE]];
    }
    if TRANSPORT_PARAMS in o && o[TRANSPORT_PARAMS].Arr? {
      if |o[TRANSPORT_PARAMS].a| != |params| {
        return Refused;
      }
      v, params := PatchEach(params, o[TRANSPORT_PARAMS].a);
      if v != Yes {
        return if v == No then Refused else Escaped;
      }
    }
    if RECEIVER_ID in o {
      json := json[RECEIVER_ID := o[RECEIVER_ID]];
    }
    assert json == c.json + map k | k in o && k in {MASTER_ENABLE, RECEIVER_ID} :: o[k];
    r := Accepted(Connection(json, activation, params));
  }

  // ---------- What a patch sends ----------

  // The value that a patch sends for parameter k of stream i.
  function SentParameter(patch: Json, i: nat, k: Key): Option<Json> {
    if patch.Obj? && TRANSPORT_PARAMS in patch.o && patch.o[TRANSPORT_PARAMS].Arr? && i < |patch.o[TRANSPORT_PARAMS].a|
      && patch.o[TRANSPORT_PARAMS].a[i].Obj? && k in patch.o[TRANSPORT_PARAMS].a[i].o
    then Some(patch.o[TRANSPORT_PARAMS].a[i].o[k]) else None
  }

  // d is c with what the patch sends: each parameter of each stream, receiver and master enable when
  // they are sent, and with an activation its mode and its requested time, which is null when it is
  // not sent. Nothing else changes, the activation time in particular.
  ghost predicate Follows(d: Connection, c: Connection, patch: Json) {
    var o := if patch.Obj? then patch.o else map[];
    && |d.params| == |c.params|
    && (forall i :: 0 <= i < |c.params| ==> FollowsStream(d.params[i], c.params[i], patch, i))
    && FollowsJson(d.json, c.json, o)
    && (if ACTIVATION in o then o[ACTIVATION].Obj? && FollowsActivation(d.activation, c.activation, o[ACTIVATION].o)
        else d.activation == c.activation)
  }

  ghost predicate FollowsJson(b: Object, a: Object, sent: Object) {
    && (forall k :: k in b <==> k in a || (k in sent && (k == MASTER_ENABLE || k == RECEIVER_ID)))
    && forall k :: k in b ==> b[k] == if k in sent && (k == MASTER_ENABLE || k == RECEIVER_ID) then sent[k] else a[k]
  }

  ghost predicate FollowsStream(q: Object, m: Object, patch: Json, i: nat) {
    && q.Keys == m.Keys
    && forall k :: k in m ==> q[k] == match SentParameter(patch, i, k) case Some(j) => j case None => m[k]
  }

  ghost predicate FollowsActivation(b: Object, a: Object, sent: Object) {
    && MODE in sent && MODE in b && b[MODE] == sent[MODE]
    && REQUESTED_TIME in b && b[REQUESTED_TIME] == (if REQUESTED_TIME in sent then sent[REQUESTED_TIME] else Null)
    && forall k :: k != MODE && k != REQUESTED_TIME ==> (k in b <==> k in a) && (k in a ==> b[k] == a[k])
  }

  lemma StreamFollows(m: Object, patch: Json, i: nat)
    requires patch.Obj? && TRANSPORT_PARAMS in patch.o && patch.o[TRANSPORT_PARAMS].Arr? && i < |patch.o[TRANSPORT_PARAMS].a|
    requires Params.Judge(m, patch.o[TRANSPORT_PARAMS].a[i]) == Yes
    ensures FollowsStream(Params.Patch(m, patch.o[TRANSPORT_PARAMS].a[i]), m, patch, i)
  {
    hide Allowed, Params.BlockSize, Elements;
  }

  lemma {:induction false} EachIsAccepted(params: seq<Object>, patches: seq<Json>, i: nat)
    requires |params| == |patches| && JudgeStreams(params, patches) == Yes && i < |params|
    ensures Params.Judge(params[i], patches[i]) == Yes
    decreases i
  {
    hide Params.Judge;
    if i > 0 {
      EachIsAccepted(params[1..], patches[1..], i - 1);
    }
  }

  // An accepted patch has done what it sends, and nothing else.
  lemma PatchFollows(c: Connection, patch: Json)
    requires Patch(c, patch).Accepted?
    ensures Follows(Patch(c, patch).value, c, patch)
  {
    hide JudgePatch, FollowsStream, FollowsActivation, FollowsJson, PatchStreams, PatchActivation;
    JsonFollows(c.json, Members(patch));
    AcceptedIsObject(c, patch);
    StreamsFollow(c, patch);
    if patch.Obj? && ACTIVATION in patch.o {
      ActivationFollows(c.activation, patch.o[ACTIVATION].o);
    }
  }

  lemma JsonFollows(a: Object, sent: Object)
    ensures FollowsJson(a + map k | k in sent && k in {MASTER_ENABLE, RECEIVER_ID} :: sent[k], a, sent)
  {
  }

  lemma ActivationFollows(a: Object, sent: Object)
    requires MODE in sent
    ensures FollowsActivation(PatchActivation(a, sent), a, sent)
  {
  }

  lemma StreamsFollow(c: Connection, patch: Json)
    requires Patch(c, patch).Accepted?
    ensures var d := Patch(c, patch).value;
      |d.params| == |c.params| && forall i :: 0 <= i < |c.params| ==> FollowsStream(d.params[i], c.params[i], patch, i)
  {
    hide Params.Judge, Params.Patch, CheckJson, FollowsStream, JudgeStreams;
    var d := Patch(c, patch).value;
    forall i | 0 <= i < |c.params| ensures FollowsStream(d.params[i], c.params[i], patch, i) {
      if StreamPatches(patch).Some? {
        AcceptedPatchFits(c, patch);
        EachIsAccepted(c.params, StreamPatches(patch).value, i);
        StreamFollows(c.params[i], patch, i);
      } else {
        NoStreamFollows(c.params[i], patch, i);
      }
    }
  }

  lemma NoStreamFollows(m: Object, patch: Json, i: nat)
    requires StreamPatches(patch) == None
    ensures FollowsStream(m, m, patch, i)
  {
  }

  lemma AcceptedIsObject(c: Connection, patch: Json)
    requires JudgePatch(c, patch) == Yes
    ensures patch.Obj? || patch.Null?
    ensures patch.Obj? && ACTIVATION in patch.o ==> patch.o[ACTIVATION].Obj? && MODE in patch.o[ACTIVATION].o
    ensures StreamPatches(patch).Some? ==> JudgeStreams(c.params, StreamPatches(patch).value) == Yes
  {
    hide Elements, Params.SenderTypes, JudgeStreams;
    if patch.Obj? && ACTIVATION in patch.o {
      assert KindOf(patch.o[ACTIVATION]) in ConnectionTypes(ACTIVATION);
    }
  }

  // The sets of members that are accepted, each for itself.
  ghost predicate Acceptable(c: Connection, o: Object) {
    && (forall k :: k in o ==> KindOf(o[k]) in ConnectionTypes(k))
    && (ACTIVATION in o ==>
          (o[ACTIVATION].Obj? && MODE in o[ACTIVATION].o
           && forall k :: k in o[ACTIVATION].o ==> KindOf(o[ACTIVATION].o[k]) in ActivationTypes(k)))
    && (TRANSPORT_PARAMS in o ==>
          (o[TRANSPORT_PARAMS].Arr? && |o[TRANSPORT_PARAMS].a| == |c.params|
           && forall i :: 0 <= i < |c.params| ==> StreamAcceptable(c.params[i], o[TRANSPORT_PARAMS].a[i])))
  }

  ghost predicate StreamAcceptable(m: Object, patch: Json) {
    (patch.Obj? || patch.Null?) && forall k :: k in Members(patch) ==> Params.MemberFits(m, k, Members(patch)[k])
  }

  lemma {:induction false} EachDecides(params: seq<Object>, patches: seq<Json>)
    requires |params| == |patches|
    ensures JudgeStreams(params, patches) == Yes <==> forall i :: 0 <= i < |params| ==> Params.Judge(params[i], patches[i]) == Yes
    decreases |params|
  {
    hide Params.Judge;
    if params != [] {
      EachDecides(params[1..], patches[1..]);
      if forall i :: 0 <= i < |params| ==> Params.Judge(params[i], patches[i]) == Yes {
        assert forall i :: 0 <= i < |params| - 1 ==> params[1..][i] == params[i + 1] && patches[1..][i] == patches[i + 1];
      } else {
        var i :| 0 <= i < |params| && Params.Judge(params[i], patches[i]) != Yes;
        assert i == 0 || (params[1..][i - 1] == params[i] && patches[1..][i - 1] == patches[i]);
      }
    }
  }

  // The first stream whose element is not accepted decides between a refusal and an exception.
  lemma {:induction false} FirstStreamDecides(params: seq<Object>, patches: seq<Json>) returns (i: nat)
    requires |params| == |patches| && JudgeStreams(params, patches) != Yes
    ensures i < |params| && JudgeStreams(params, patches) == Params.Judge(params[i], patches[i])
    ensures forall j :: 0 <= j < i ==> Params.Judge(params[j], patches[j]) == Yes
    decreases |params|
  {
    hide Params.Judge;
    if Params.Judge(params[0], patches[0]) != Yes {
      i := 0;
    } else {
      i := FirstStreamDecides(params[1..], patches[1..]);
      i := i + 1;
      assert params[i] == params[1..][i - 1] && patches[i] == patches[1..][i - 1];
      assert forall j :: 0 < j < i ==> params[j] == params[1..][j - 1] && patches[j] == patches[1..][j - 1];
    }
  }

  // What is right with a patch before its streams are looked at one by one.
  ghost predicate Typed(c: Connection, o: Object) {
    && (forall k :: k in o ==> KindOf(o[k]) in ConnectionTypes(k))
    && (ACTIVATION in o ==>
          (o[ACTIVATION].Obj? && MODE in o[ACTIVATION].o
           && forall k :: k in o[ACTIVATION].o ==> KindOf(o[ACTIVATION].o[k]) in ActivationTypes(k)))
    && (TRANSPORT_PARAMS in o ==>
          (o[TRANSPORT_PARAMS].Arr? && |o[TRANSPORT_PARAMS].a| == |c.params|
           && forall i :: 0 <= i < |c.params| ==> Allowed(Visited(o[TRANSPORT_PARAMS].a[i]), Params.SenderTypes)))
  }

  // A patch escapes as an exception exactly when its kinds are right but the first element that is not
  // accepted for its stream throws.
  lemma EscapesExactly(c: Connection, o: Object)
    ensures Patch(c, Obj(o)).Escaped? <==>
      Typed(c, o) && TRANSPORT_PARAMS in o &&
      exists i :: 0 <= i < |c.params| && Params.Judge(c.params[i], o[TRANSPORT_PARAMS].a[i]) == Throws
        && forall j :: 0 <= j < i ==> StreamAcceptable(c.params[j], o[TRANSPORT_PARAMS].a[j])
  {
    hide StreamAcceptable, JudgeStreams, ConnectionTypes, ActivationTypes, Elements, Params.SenderTypes, Params.Judge, Visited, KindOf;
    assert Visited(Obj(o)) == o by { VisitedObject(o); }
    if Allowed(o, ConnectionTypes) {
      ArrayIsTyped(o);
      if TRANSPORT_PARAMS in o && |o[TRANSPORT_PARAMS].a| == |c.params| {
        StreamsThrowExactly(c.params, o[TRANSPORT_PARAMS].a);
      }
    }
  }

  lemma StreamsThrowExactly(params: seq<Object>, patches: seq<Json>)
    requires |params| == |patches|
    ensures JudgeStreams(params, patches) == Throws <==>
      exists i :: 0 <= i < |params| && Params.Judge(params[i], patches[i]) == Throws
        && forall j :: 0 <= j < i ==> StreamAcceptable(params[j], patches[j])
  {
    hide Params.Judge, JudgeStreams, StreamAcceptable;
    forall i | 0 <= i < |params| ensures Params.Judge(params[i], patches[i]) == Yes <==> StreamAcceptable(params[i], patches[i]) {
      JudgedExactly(params[i], patches[i]);
    }
    EachDecides(params, patches);
    if JudgeStreams(params, patches) != Yes {
      var i := FirstStreamDecides(params, patches);
    }
  }

  // The types of the elements are checked before any of them is applied.
  lemma FittingIsTyped(m: Object, patch: Json)
    requires Params.Judge(m, patch) == Yes
    ensures Allowed(Visited(patch), Params.SenderTypes)
  {
  }

  lemma StreamsAcceptedExactly(params: seq<Object>, patches: seq<Json>)
    requires |params| == |patches|
    ensures JudgeStreams(params, patches) == Yes <==> forall i :: 0 <= i < |params| ==> StreamAcceptable(params[i], patches[i])
    ensures JudgeStreams(params, patches) == Yes ==> forall i :: 0 <= i < |params| ==> Allowed(Visited(patches[i]), Params.SenderTypes)
  {
    hide Params.Judge, JudgeStreams, Params.MemberFits, Allowed, StreamAcceptable;
    EachDecides(params, patches);
    forall i | 0 <= i < |params| ensures Params.Judge(params[i], patches[i]) == Yes <==> StreamAcceptable(params[i], patches[i]) {
      JudgedExactly(params[i], patches[i]);
    }
    forall i | 0 <= i < |params| && Params.Judge(params[i], patches[i]) == Yes ensures Allowed(Visited(patches[i]), Params.SenderTypes) {
      FittingIsTyped(params[i], patches[i]);
    }
  }

  lemma JudgedExactly(m: Object, patch: Json)
    ensures Params.Judge(m, patch) == Yes <==> StreamAcceptable(m, patch)
  {
    hide Params.Judge, Params.MemberFits;
    Params.JudgeExactly(m, patch);
  }

  // A patch is accepted exactly when it is null or an object whose members all are acceptable.
  lemma AcceptedExactly(c: Connection, patch: Json)
    ensures Patch(c, patch).Accepted? <==> patch.Null? || (patch.Obj? && Acceptable(c, patch.o))
  {
    hide StreamAcceptable, JudgeStreams, ConnectionTypes, ActivationTypes, Elements, Params.SenderTypes;
    if patch.Obj? {
      ObjectAcceptedExactly(c, patch.o);
    }
  }

  lemma ArrayIsTyped(o: Object)
    requires Allowed(o, ConnectionTypes)
    ensures TRANSPORT_PARAMS in o ==> o[TRANSPORT_PARAMS].Arr?
    ensures ACTIVATION in o ==> o[ACTIVATION].Obj?
  {
    assert TRANSPORT_PARAMS in o ==> KindOf(o[TRANSPORT_PARAMS]) in ConnectionTypes(TRANSPORT_PARAMS);
    assert ACTIVATION in o ==> KindOf(o[ACTIVATION]) in ConnectionTypes(ACTIVATION);
  }

  lemma ObjectAcceptedExactly(c: Connection, o: Object)
    ensures JudgePatch(c, Obj(o)) == Yes <==> Acceptable(c, o)
  {
    hide StreamAcceptable, JudgeStreams, ConnectionTypes, ActivationTypes, Elements, Params.SenderTypes, Visited, KindOf;
    assert Visited(Obj(o)) == o by { VisitedObject(o); }
    if Allowed(o, ConnectionTypes) {
      ArrayIsTyped(o);
      if TRANSPORT_PARAMS in o && |o[TRANSPORT_PARAMS].a| == |c.params| {
        StreamsAcceptedExactly(c.params, o[TRANSPORT_PARAMS].a);
      }
    }
  }

  lemma VisitedObject(o: Object)
    ensures Visited(Obj(o)) == o
  {
  }

  // ---------- What a connection keeps ----------

  ghost predicate WellFormed(c: Connection) {
    forall i :: 0 <= i < |c.params| ==> Params.WellFormed(c.params[i])
  }

  // The same streams, each with the same parameters.
  ghost predicate SameShape(c: Connection, d: Connection) {
    |c.params| == |d.params| && forall i :: 0 <= i < |c.params| ==> c.params[i].Keys == d.params[i].Keys
  }

  lemma NewConnectionIsWellFormed(fec: bool, rtcp: bool, redundant: bool)
    ensures WellFormed(NewConnection(fec, rtcp, redundant))
    ensures var c := NewConnection(fec, rtcp, redundant);
      && |c.params| == (if redundant then 2 else 1) && (forall i :: 0 <= i < |c.params| ==> c.params[i] == Params.NewSender(fec, rtcp))
      && At(c.json, MASTER_ENABLE) == Bool(true) && At(c.json, RECEIVER_ID) == Null && GetMode(c.activation) == ACT_NULL
      && At(c.activation, REQUESTED_TIME) == At(c.activation, ACTIVATED_TIME) == Null
  {
    Params.NewSenderIsWellFormed(fec, rtcp);
    hide Params.NewSender, Params.WellFormed;
  }

  lemma AcceptedPatchFits(c: Connection, patch: Json)
    requires JudgePatch(c, patch) == Yes && StreamPatches(patch).Some?
    ensures |StreamPatches(patch).value| == |c.params|
  {
  }

  lemma PatchKeepsShape(c: Connection, patch: Json)
    requires WellFormed(c) && Patch(c, patch).Accepted?
    ensures var d := Patch(c, patch).value; WellFormed(d) && SameShape(c, d)
  {
    hide Params.WellFormed, JudgePatch, Patched, Params.Patch;
    var d := Patch(c, patch).value;
    if StreamPatches(patch).Some? {
      AcceptedPatchFits(c, patch);
      var ps := StreamPatches(patch).value;
      forall i | 0 <= i < |c.params| ensures Params.WellFormed(d.params[i]) && d.params[i].Keys == c.params[i].Keys {
        Params.PatchKeepsWellFormed(c.params[i], ps[i]);
      }
    }
  }

  // ---------- Actualizing ----------

  datatype Progress = Progress(params: seq<Object>, threw: bool)

  // Stream by stream until an accessor throws; a list of addresses of another length does nothing.
  function ActualizeStreams(params: seq<Object>, ips: seq<(string, string)>): Progress
    requires |params| == |ips|
  {
    if params == [] then Progress([], false)
    else
      var p := Params.Actualize(params[0], ips[0].0, ips[0].1);
      if p.threw then Progress([p.m] + params[1..], true)
      else
        var q := ActualizeStreams(params[1..], ips[1..]);
        Progress([p.m] + q.params, q.threw)
  }

  function Actualize(params: seq<Object>, ips: seq<(string, string)>): Progress {
    if |params| == |ips| then ActualizeStreams(params, ips) else Progress(params, false)
  }

  // q is what is made of the parameters m: the keys written have settled, and no other has changed.
  ghost predicate WrittenOver(q: Object, m: Object, source: string, destination: string) {
    && q.Keys == m.Keys + Params.WrittenKeys(m)
    && forall k :: k in q ==> q[k] == if k in Params.WrittenKeys(m) then Params.Settled(m, k, source, destination) else At(m, k)
  }

  // Every parameter of q is the settled one of m.
  ghost predicate SettledFrom(q: Object, m: Object, source: string, destination: string) {
    && q.Keys == m.Keys + Params.SettledKeys(m)
    && forall k :: k in q ==> q[k] == Params.Settled(m, k, source, destination)
  }

  // The streams before stream i can all be actualized.
  predicate Reached(params: seq<Object>, i: nat)
    requires i <= |params|
  {
    forall j :: 0 <= j < i ==> Params.Actualizable(params[j])
  }

  lemma OneIsWritten(m: Object, source: string, destination: string)
    ensures
      var p := Params.Actualize(m, source, destination);
      (p.threw <==> !Params.Actualizable(m)) && WrittenOver(p.m, m, source, destination)
  {
    hide Params.Actualize, Params.Actualizable, Params.Settled, Params.WrittenKeys;
    Params.ActualizeSettles(m, source, destination);
  }

  lemma WrittenIsSettled(q: Object, m: Object, source: string, destination: string)
    requires Params.Actualizable(m) && WrittenOver(q, m, source, destination)
    ensures SettledFrom(q, m, source, destination)
  {
    hide Params.Settled, Params.Actualizable, Params.SettledKeys;
    assert Params.WrittenKeys(m) == Params.SettledKeys(m) by { WrittenAreSettled(m); }
    forall k | k in q ensures q[k] == Params.Settled(m, k, source, destination) {
      if k !in Params.SettledKeys(m) {
        Params.OtherKeysAreSettled(m, k, source, destination);
      }
    }
  }

  lemma WrittenAreSettled(m: Object)
    requires Params.Actualizable(m)
    ensures Params.WrittenKeys(m) == Params.SettledKeys(m)
  {
    hide Params.BaseKeys, Params.FecKeys, Params.RtcpKeys;
  }

  // What is made of the streams of a connection. An accessor throws exactly when some stream cannot be
  // actualized; the streams up to the first such one are written, and the others are left alone.
  lemma {:induction false} StreamsAreWritten(params: seq<Object>, ips: seq<(string, string)>)
    requires |params| == |ips|
    ensures
      var p := ActualizeStreams(params, ips);
      && |p.params| == |params| && (p.threw <==> !Reached(params, |params|))
      && forall i :: 0 <= i < |params| ==>
           if Reached(params, i) then WrittenOver(p.params[i], params[i], ips[i].0, ips[i].1) else p.params[i] == params[i]
    decreases |params|
  {
    hide Params.Actualize, Params.Actualizable, WrittenOver;
    if params != [] {
      var rest, last := params[1..], ActualizeStreams(params, ips);
      OneIsWritten(params[0], ips[0].0, ips[0].1);
      StreamsAreWritten(rest, ips[1..]);
      forall i | 0 <= i < |params| ensures
        if Reached(params, i) then WrittenOver(last.params[i], params[i], ips[i].0, ips[i].1) else last.params[i] == params[i]
      {
        if i > 0 {
          ReachedNext(params, i);
        }
      }
      ReachedNext(params, |params|);
    }
  }

  lemma ReachedNext(params: seq<Object>, i: nat)
    requires 0 < i <= |params|
    ensures Reached(params, i) <==> Params.Actualizable(params[0]) && Reached(params[1..], i - 1)
  {
    hide Params.Actualizable;
    if Params.Actualizable(params[0]) && Reached(params[1..], i - 1) {
      forall j | 0 <= j < i ensures Params.Actualizable(params[j]) {
        assert j == 0 || params[j] == params[1..][j - 1];
      }
    }
    if Reached(params, i) {
      assert forall j :: 0 <= j < i - 1 ==> params[1..][j] == params[j + 1];
    }
  }

  // When no accessor throws, every parameter of every stream is the settled one.
  lemma ActualizedStreamsSettle(params: seq<Object>, ips: seq<(string, string)>)
    requires |params| == |ips|
    ensures
      var p := Actualize(params, ips);
      && |p.params| == |params| && (p.threw <==> exists i :: 0 <= i < |params| && !Params.Actualizable(params[i]))
      && (!p.threw ==> forall i :: 0 <= i < |params| ==> SettledFrom(p.params[i], params[i], ips[i].0, ips[i].1))
  {
    hide Params.Actualizable, WrittenOver, SettledFrom, ActualizeStreams;
    StreamsAreWritten(params, ips);
    var p := Actualize(params, ips);
    if !p.threw {
      forall i | 0 <= i < |params| ensures SettledFrom(p.params[i], params[i], ips[i].0, ips[i].1) {
        WrittenIsSettled(p.params[i], params[i], ips[i].0, ips[i].1);
      }
    }
  }
}
