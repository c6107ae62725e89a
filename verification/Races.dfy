/** Runs that reach the states in which staging breaks its promise: a cancellation that comes too late,
    a request whose time cannot be read, and a cancellation that takes the entry of another sender
    (node/src/is05server.cpp, lines 409-483; node/src/nodeapiprivate.cpp, lines 1443-1499). */
module Races {
  import opened Containers
  import opened Json
  import opened TaiTime
  import opened Connection
  import opened Staging
  import Constraints
  import Params = TransportParams
  import Activator

  // ---------- The requests ----------

  function SchedulePatch(time: string): Json {
    Obj(map[ACTIVATION := Obj(map[MODE := Str("activate_scheduled_absolute"), REQUESTED_TIME := Str(time)])])
  }

  // Cancels and names another receiver.
  function CancelPatch(receiver: string): Json {
    Obj(map[RECEIVER_ID := Str(receiver), ACTIVATION := Obj(map[MODE := Null])])
  }

  function Scheduled(c: Connection, time: string): Connection {
    c.(activation := c.activation[MODE := Str("activate_scheduled_absolute")][REQUESTED_TIME := Str(time)])
  }

  function Cancelled(c: Connection, receiver: string): Connection {
    c.(json := c.json[RECEIVER_ID := Str(receiver)], activation := c.activation[MODE := Null][REQUESTED_TIME := Null])
  }

  lemma SchedulingIsAccepted(c: Connection, time: string)
    ensures Patch(c, SchedulePatch(time)) == Accepted(Scheduled(c, time))
    ensures GetMode(Scheduled(c, time).activation) == ACT_ABSOLUTE && RequestedTime(Scheduled(c, time).activation) == time
  {
    hide CheckJson, Allowed;
    SchedulingIsAllowed(time);
    var o := Members(SchedulePatch(time));
    assert c.json + (map k | k in o && k in {MASTER_ENABLE, RECEIVER_ID} :: o[k]) == c.json;
  }

  lemma SchedulingIsAllowed(time: string)
    ensures CheckJson(SchedulePatch(time)) == Yes
  {
    hide Elements, Params.SenderTypes;
  }

  lemma CancellingIsAccepted(c: Connection, receiver: string)
    ensures Patch(c, CancelPatch(receiver)) == Accepted(Cancelled(c, receiver))
    ensures GetMode(Cancelled(c, receiver).activation) == ACT_NULL
  {
    hide CheckJson, Allowed;
    CancellingIsAllowed(receiver);
    var o := Members(CancelPatch(receiver));
    assert c.json + (map k | k in o && k in {MASTER_ENABLE, RECEIVER_ID} :: o[k]) == c.json[RECEIVER_ID := Str(receiver)];
  }

  lemma CancellingIsAllowed(receiver: string)
    ensures CheckJson(CancelPatch(receiver)) == Yes
  {
    hide Elements, Params.SenderTypes;
  }

  // ---------- The sections of a request, one after the other ----------

  lemma {:induction false} RunsMore(y: System, es: seq<Event>, z: System, e: Event)
    requires Runs(y, es, z) && Enabled(z, e)
    ensures Runs(y, es + [e], Apply(z, e))
    decreases |es|
  {
    hide Enabled, Apply;
    if es == [] {
      assert (es + [e])[1..] == [];
    } else {
      RunsMore(Apply(y, es[0]), es[1..], z, e);
      assert (es + [e])[1..] == es[1..] + [e];
    }
  }

  // No request is being served and no firing is under way, and the sender meets its constraints.
  predicate Ready(y: System, id: Id) {
    && y.phase.Idle? && !y.firing && id in y.node.senders
    && Constraints.Check(y.node.senders[id].constraints, y.node.senders[id].staged.params) == Yes
  }

  // A request that passes is copied and checked.
  lemma Waits(y: System, was: seq<Event>, z: System, id: Id, patch: Json, con: Connection) returns (es: seq<Event>)
    requires Runs(y, was, z) && Ready(z, id) && Patch(z.node.senders[id].staged, patch) == Accepted(con)
    requires con.params == z.node.senders[id].staged.params
    requires GetMode(con.activation) == ACT_NULL || !IsLocked(z.node.senders[id])
    ensures Runs(y, es, z.(phase := Waiting(id, con)))
  {
    hide Runs, Constraints.Check, Patch, GetMode, IsLocked, Ended, Activates;
    var m := Apply(z, Ask(id, patch));
    assert m == z.(phase := Copied(id, con));
    RunsMore(y, was, z, Ask(id, patch));
    assert Apply(m, Check) == z.(phase := Waiting(id, con));
    RunsMore(y, was + [Ask(id, patch)], m, Check);
    es := was + [Ask(id, patch)] + [Check];
  }

  lemma Overwrites(y: System, was: seq<Event>, z: System, id: Id, patch: Json, con: Connection, answer: Option<int>)
      returns (es: seq<Event>)
    requires Runs(y, was, z) && Ready(z, id) && Patch(z.node.senders[id].staged, patch) == Accepted(con)
    requires con.params == z.node.senders[id].staged.params && Agreed(answer)
    requires GetMode(con.activation) == ACT_NULL || !IsLocked(z.node.senders[id])
    ensures Runs(y, es, z.(node := Overwritten(z.node, id, con), phase := Written(id, con, answer)))
  {
    hide Runs, Constraints.Check, Patch, GetMode, IsLocked, Ended, Activates;
    es := Waits(y, was, z, id, patch, con);
    var m := z.(phase := Waiting(id, con));
    RunsMore(y, es, m, Answer(answer));
    es := es + [Answer(answer)];
  }

  // What scheduling for the instant tp leaves.
  function Entering(n: Node, id: Id, tp: int64): Node
    requires id in n.senders
  {
    var s := n.senders[id];
    var c := Scheduled(s.staged, ConvertTimeToString(tp, true));
    With(n, id, s.(staged := c.(activation := SetActivationTime(c.activation, tp)), activateAllowed := true))
      .(pending := Activator.Added(n.pending, tp, id))
  }

  lemma SettlesForInstant(n: Node, id: Id, tp: int64, now: int64, sources: seq<string>)
    requires id in n.senders
    ensures
      var c := Scheduled(n.senders[id].staged, ConvertTimeToString(tp, true));
      Settled(Overwritten(n, id, c), id, ACT_ABSOLUTE, now, sources) == (Entering(n, id, tp), Yes)
  {
    hide ConvertTimeToString, ConvertTaiStringToTimePoint, SetActivationTime, Scheduled, Activator.Added;
    SchedulingIsAccepted(n.senders[id].staged, ConvertTimeToString(tp, true));
    ReadsWhatItPrints(tp);
    var s := Entering(n, id, tp).senders[id];
    var c := Scheduled(n.senders[id].staged, ConvertTimeToString(tp, true));
    assert Overwritten(n, id, c).senders[id := s] == n.senders[id := s];
  }

  // A sender that is not locked asks for an instant, with no application to refuse.
  lemma Schedules(y: System, was: seq<Event>, z: System, id: Id, tp: int64) returns (es: seq<Event>, t: System)
    requires Runs(y, was, z) && Ready(z, id) && !IsLocked(z.node.senders[id])
    ensures Runs(y, es, t) && t.node == Entering(z.node, id, tp) && t.phase.Idle? && !t.firing
  {
    hide Runs, Constraints.Check, Patch, GetMode, IsLocked, Settled, Activates, Scheduled, Entering;
    var text := ConvertTimeToString(tp, true);
    var con := Scheduled(z.node.senders[id].staged, text);
    SchedulingIsAccepted(z.node.senders[id].staged, text);
    ScheduledKeepsParams(z.node.senders[id].staged, text);
    es := Overwrites(y, was, z, id, SchedulePatch(text), con, None);
    var m := z.(node := Overwritten(z.node, id, con), phase := Written(id, con, None));
    SettlesForInstant(z.node, id, tp, 0, []);
    t := Apply(m, Settle(0, []));
    RunsMore(y, es, m, Settle(0, []));
    es := es + [Settle(0, [])];
  }

  lemma ScheduledKeepsParams(c: Connection, time: string)
    ensures Scheduled(c, time).params == c.params
  {
  }

  // ---------- The cancellation that comes too late ----------

  predicate Activatable(s: SenderState, sources: seq<string>) {
    !Actualize(s.staged.params, FilledIps(s.ips, sources)).threw
  }

  lemma EnteredIsLocked(n: Node, id: Id, tp: int64)
    requires id in n.senders
    ensures
      id in Entering(n, id, tp).senders &&
      var s := Entering(n, id, tp).senders[id];
      && IsLocked(s) && PrintedAt(s.staged.activation, tp) && s.staged.params == n.senders[id].staged.params
      && s.constraints == n.senders[id].constraints && s.ips == n.senders[id].ips
  {
  }

  lemma ActivatableActivates(s: SenderState, sources: seq<string>)
    requires Activatable(s, sources)
    ensures !Activated(s, sources).1
  {
  }

  // Whenever the head's sender can be activated and nothing else goes on, a cancellation of it gets to
  // where its entry can fire and it has not been removed.
  lemma CancellationExposes(y: System, was: seq<Event>, z: System, id: Id, receiver: string, sources: seq<string>)
      returns (es: seq<Event>, x: System, m: System)
    requires Runs(y, was, z) && Ready(z, id) && Activatable(z.node.senders[id], sources)
    requires z.node.pending != map[] && z.node.pending[First(z.node.pending)] == id
    ensures Runs(y, es, x) && Enabled(x, Answer(None)) && m == Apply(x, Answer(None)) && Runs(y, es + [Answer(None)], m)
    ensures m.node.pending == z.node.pending && Staging.Cancelling(m, id) && Enabled(m, Expire(sources))
    ensures At(m.phase.con.json, RECEIVER_ID) == Str(receiver)
  {
    hide Constraints.Check, Patch, GetMode, Actualize, FilledIps, Cancelled, IsLocked, Runs, Activated, Ended;
    var c := z.node.senders[id].staged;
    var d := Cancelled(c, receiver);
    CancellingIsAccepted(c, receiver);
    CancelledKeeps(c, receiver);
    es := Waits(y, was, z, id, CancelPatch(receiver), d);
    x := z.(phase := Waiting(id, d));
    m := Apply(x, Answer(None));
    RunsMore(y, es, x, Answer(None));
    ActivatableActivates(m.node.senders[id], sources);
  }

  // From the start, any sender that is ready, unlocked and can be activated: it schedules, then
  // cancels, and between the overwriting and the removal its entry fires. The receiver that the
  // cancelling request names becomes active, and the request is answered 200.
  lemma CancellationIsOvertaken(y: System, id: Id, tp: int64, receiver: string, sources: seq<string>,
        now: int64, more: seq<string>)
      returns (es: seq<Event>, m: System)
    requires Initial(y) && Ready(y, id) && !IsLocked(y.node.senders[id]) && Activatable(y.node.senders[id], sources)
    ensures Runs(y, es, m) && m.node.pending == map[tp := id] && Staging.Cancelling(m, id)
    ensures BecomesActive(m, sources, m.phase.con) && At(m.phase.con.json, RECEIVER_ID) == Str(receiver)
    ensures
      var z := Apply(m, Expire(sources));
      Enabled(z, Commit) && Enabled(Apply(z, Commit), Settle(now, more)) && Ended(Apply(z, Commit), now, more).1 == Code(200)
  {
    hide Constraints.Check, Patch, GetMode, Actualize, FilledIps, IsLocked, Runs, Activated, Ended, Initial, Inv;
    hide Entering, Settled, CheckCopy;
    NoneRuns(y);
    NothingPending(y);
    var was, t := Schedules(y, [], y, id, tp);
    EnteredIsLocked(y.node, id, tp);
    EnteringAlone(y.node, id, tp);
    FirstIs(t.node.pending, tp);
    var before, x;
    before, x, m := CancellationExposes(y, was, t, id, receiver, sources);
    es := before + [Answer(None)];
    InitialHolds(y);
    RunKeepsInv(y, before, x);
    CancellationMayFire(x, Answer(None), m, sources, now, more);
  }

  lemma NothingPending(y: System)
    requires Initial(y)
    ensures y.node.pending == map[]
  {
  }

  lemma EnteringAlone(n: Node, id: Id, tp: int64)
    requires id in n.senders && n.pending == map[]
    ensures Entering(n, id, tp).pending == map[tp := id] && id in Entering(n, id, tp).senders
  {
  }

  lemma CancelledKeeps(c: Connection, receiver: string)
    ensures var d := Cancelled(c, receiver); d.params == c.params && At(d.json, RECEIVER_ID) == Str(receiver)
    ensures At(Cancelled(c, receiver).activation, ACTIVATED_TIME) == At(c.activation, ACTIVATED_TIME)
  {
  }

  // ---------- The time that cannot be read ----------

  // A scheduling request whose time does not read, such as an empty one, and which the application
  // agrees to, is answered 500 and leaves its sender locked with nothing pending.
  lemma UnreadableTimeLocks(y: System, id: Id, time: string, now: int64, sources: seq<string>)
      returns (es: seq<Event>, m: System)
    requires Initial(y) && Ready(y, id) && !IsLocked(y.node.senders[id])
    requires time == "" || ConvertTaiStringToTimePoint(time) == NoInstant
    ensures Runs(y, es, m) && Enabled(m, Settle(now, sources)) && Ended(m, now, sources).1 == Code(500)
    ensures var t := Apply(m, Settle(now, sources));
      id in t.node.senders && IsLocked(t.node.senders[id]) && t.node.pending == map[]
  {
    hide Constraints.Check, Patch, ConvertTaiStringToTimePoint, Scheduled, SetActivationTime, Runs, Activates, Cancel, Immediate;
    NoneRuns(y);
    var con := Scheduled(y.node.senders[id].staged, time);
    SchedulingIsAccepted(y.node.senders[id].staged, time);
    ScheduledKeepsParams(y.node.senders[id].staged, time);
    NoTextIsNoInstant();
    es := Overwrites(y, [], y, id, SchedulePatch(time), con, Some(202));
    m := y.(node := Overwritten(y.node, id, con), phase := Written(id, con, Some(202)));
  }

  lemma NoneRuns(y: System)
    ensures Runs(y, [], y)
  {
  }

  // ---------- The cancellation that takes another's entry ----------

  // Two senders ask for the same instant, and only the first gets an entry.
  lemma SecondGetsNoEntry(y: System, a: Id, b: Id, tp: int64) returns (es: seq<Event>, u: System)
    requires Initial(y) && Ready(y, a) && Ready(y, b) && a != b
    requires !IsLocked(y.node.senders[a]) && !IsLocked(y.node.senders[b])
    ensures Runs(y, es, u) && u.node.pending == map[tp := a] && Ready(u, b)
    ensures PrintedAt(u.node.senders[b].staged.activation, tp)
  {
    hide Constraints.Check, Patch, GetMode, Entering, IsLocked, Runs, Initial, OnlyTouches, PrintedAt, Ended, Activates;
    NoneRuns(y);
    NothingPending(y);
    var was, t := Schedules(y, [], y, a, tp);
    EnteringAlone(y.node, a, tp);
    EnteredTouches(y.node, a, b, tp);
    es, u := Schedules(y, was, t, b, tp);
    EnteredIsLocked(t.node, b, tp);
    EnteringTaken(t.node, b, tp);
    EnteredTouches(t.node, b, a, tp);
  }

  // Then the second cancels, and the first, which stays locked, loses its entry.
  lemma AnotherLosesItsEntry(y: System, a: Id, b: Id, tp: int64, receiver: string, now: int64, sources: seq<string>)
      returns (es: seq<Event>, m: System)
    requires Initial(y) && Ready(y, a) && Ready(y, b) && a != b
    requires !IsLocked(y.node.senders[a]) && !IsLocked(y.node.senders[b])
    ensures Runs(y, es, m) && m.node.pending == map[tp := a] && Staging.Cancelling(m, b) && Enabled(m, Settle(now, sources))
    ensures Ended(m, now, sources).1 == Code(200)
    ensures var t := Apply(m, Settle(now, sources));
      a in t.node.senders && IsLocked(t.node.senders[a]) && tp !in t.node.pending
  {
    hide Constraints.Check, Patch, GetMode, Cancelled, IsLocked, Runs, Initial, PrintedAt, Ended, Activates, Inv, ReadsAs;
    var was, u := SecondGetsNoEntry(y, a, b, tp);
    var c := u.node.senders[b].staged;
    CancellingIsAccepted(c, receiver);
    CancelledKeeps(c, receiver);
    CancelledKeepsTime(c, receiver, tp);
    es := Overwrites(y, was, u, b, CancelPatch(receiver), Cancelled(c, receiver), None);
    m := u.(node := Overwritten(u.node, b, Cancelled(c, receiver)), phase := Written(b, Cancelled(c, receiver), None));
    InitialHolds(y);
    RunKeepsInv(y, es, m);
    FirstIs(m.node.pending, tp);
    ReadsPrinted(Cancelled(c, receiver).activation, tp);
    AnotherIsTakenExactly(m, now, sources, tp);
    CancelledHasNoEntry(y, es, m, now, sources);
  }

  lemma CancelledKeepsTime(c: Connection, receiver: string, tp: int64)
    requires PrintedAt(c.activation, tp)
    ensures PrintedAt(Cancelled(c, receiver).activation, tp)
  {
  }

  lemma EnteredTouches(n: Node, id: Id, other: Id, tp: int64)
    requires id in n.senders && other in n.senders && id != other
    ensures other in Entering(n, id, tp).senders && Entering(n, id, tp).senders[other] == n.senders[other]
  {
  }

  lemma EnteringTaken(n: Node, id: Id, tp: int64)
    requires id in n.senders && tp in n.pending
    ensures Entering(n, id, tp).pending == n.pending
  {
  }

  lemma ReadsPrinted(a: Object, tp: int64)
    requires PrintedAt(a, tp)
    ensures ReadsAs(a, tp)
  {
    ActivationTimeReads(a);
  }

  // ---------- Such a start ----------

  function New(fec: bool, rtcp: bool, redundant: bool): SenderState {
    var c := NewConnection(fec, rtcp, redundant);
    SenderState(c, c, false, "", false, seq(|c.params|, _ => ("", "")), Constraints.Create(c.params))
  }

  function Fresh(senders: map<Id, SenderState>): System {
    System(Node(senders, map[]), Idle, false, map[])
  }

  // New senders of any kind are ready, unlocked and can be activated.
  lemma NewSendersAreReady(a: Id, b: Id, fec: bool, rtcp: bool, redundant: bool, sources: seq<string>)
    ensures
      var y := Fresh(map[a := New(fec, rtcp, redundant), b := New(fec, rtcp, redundant)]);
      && Initial(y) && Ready(y, a) && Ready(y, b) && !IsLocked(y.node.senders[a]) && !IsLocked(y.node.senders[b])
      && Activatable(y.node.senders[a], sources)
  {
    NewMeetsConstraints(fec, rtcp, redundant);
    NewIsActivatable(fec, rtcp, redundant, sources);
    hide Constraints.Check, Actualize, FilledIps;
  }

  // Text, truth values and small numbers meet the empty constraint.
  lemma EmptyIsMet(t: Constraints.Table, k: Key, j: Json)
    requires k in t && t[k] == Constraints.Unconstrained && (j.Str? || j.Bool? || j == Int(4))
    ensures Constraints.Meets(t, k, j) == Yes
  {
  }

  predicate Plain(o: Object) {
    forall k :: k in o ==>
      && (o[k].Str? || o[k] == Bool(false) || o[k] == Int(4))
      && (k == FEC_ENABLED || k == RTCP_ENABLED ==> o[k] == Bool(false))
  }

  lemma CoreIsPlain()
    ensures Plain(Params.Core) && DESTINATION_PORT in Params.Core
  {
  }

  lemma FecIsPlain()
    ensures Plain(Params.Fec)
  {
  }

  lemma RtcpIsPlain()
    ensures Plain(Params.Rtcp)
  {
  }

  lemma NewIsPlain(fec: bool, rtcp: bool)
    ensures Plain(Params.NewSender(fec, rtcp)) && DESTINATION_PORT in Params.NewSender(fec, rtcp)
  {
    hide Params.Core, Params.Fec, Params.Rtcp;
    CoreIsPlain();
    FecIsPlain();
    RtcpIsPlain();
  }

  lemma NewMeetsConstraints(fec: bool, rtcp: bool, redundant: bool)
    ensures var s := New(fec, rtcp, redundant); Constraints.Check(s.constraints, s.staged.params) == Yes
  {
    hide Constraints.Check, Constraints.Meets, Params.NewSender, Params.WellFormed;
    var ps := NewConnection(fec, rtcp, redundant).params;
    var ts := Constraints.Create(ps);
    Params.NewSenderIsWellFormed(fec, rtcp);
    NewIsPlain(fec, rtcp);
    forall i, k | 0 <= i < |ps| && k in ps[i] ensures Constraints.Meets(ts[i], k, ps[i][k]) == Yes {
      EmptyIsMet(ts[i], k, ps[i][k]);
    }
    Constraints.CheckMeans(ts, ps);
  }

  ghost predicate NeverThrows(p: Object) {
    forall source, destination :: !Params.Actualize(p, source, destination).threw
  }

  lemma {:induction false} NoneThrows(params: seq<Object>, ips: seq<(string, string)>)
    requires |params| == |ips| && forall i :: 0 <= i < |params| ==> NeverThrows(params[i])
    ensures !ActualizeStreams(params, ips).threw
    decreases |params|
  {
    hide Params.Actualize;
    if params != [] {
      assert NeverThrows(params[0]);
      NoneThrows(params[1..], ips[1..]);
    }
  }

  lemma NewNeverThrows(fec: bool, rtcp: bool)
    ensures NeverThrows(Params.NewSender(fec, rtcp))
  {
    hide Params.Actualize, Params.Agrees, Params.NewSender, Params.Actualizable, Plain;
    var p := Params.NewSender(fec, rtcp);
    NewIsPlain(fec, rtcp);
    PlainIsActualizable(p);
    forall source, destination ensures !Params.Actualize(p, source, destination).threw {
      Params.ActualizeSettles(p, source, destination);
    }
  }

  // Nothing is enabled in plain parameters, so no accessor throws.
  lemma PlainIsActualizable(p: Object)
    requires Plain(p)
    ensures Params.Actualizable(p)
  {
    hide Params.BasePort, Params.SettledPort;
  }

  lemma NewIsActivatable(fec: bool, rtcp: bool, redundant: bool, sources: seq<string>)
    ensures Activatable(New(fec, rtcp, redundant), sources)
  {
    hide Params.NewSender, NeverThrows, ActualizeStreams, Constraints.Create;
    NewNeverThrows(fec, rtcp);
    var s := New(fec, rtcp, redundant);
    NoneThrows(s.staged.params, FilledIps(s.ips, sources));
  }
}
