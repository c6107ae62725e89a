/** The sender and node objects that carry the staging machine, with the source's own update order
    (base/src/senderbase.cpp, base/src/ioresource.cpp, node/src/nodeapiprivate.cpp,
    node/src/is05server.cpp). Each method is tied to a function of module Staging. */
module NodeApi {
  import opened Containers
  import opened Json
  import opened TaiTime
  import opened Connection
  import Params = TransportParams
  import StreamParams
  import Constraints
  import Activator
  import opened Staging

  class Sender {
    var staged: Connection
    var active: Connection
    var activateAllowed: bool
    var receiverId: string
    var sending: bool
    var ips: seq<(string, string)>
    var constraints: seq<Constraints.Table>

    function View(): SenderState
      reads this
    {
      SenderState(staged, active, activateAllowed, receiverId, sending, ips, constraints)
    }

    constructor (fec: bool, rtcp: bool, redundant: bool)
      ensures staged == active == NewConnection(fec, rtcp, redundant)
      ensures |ips| == |staged.params| && constraints == Constraints.Create(staged.params)
      ensures !activateAllowed && receiverId == "" && !sending
    {
      staged, active := NewConnection(fec, rtcp, redundant), NewConnection(fec, rtcp, redundant);
      activateAllowed, receiverId, sending := false, "", false;
      ips := if redundant then [("", ""), ("", "")] else [("", "")];
      constraints := Constraints.Create(NewConnection(fec, rtcp, redundant).params);
    }

    method Locked() returns (b: bool)
      ensures b == IsLocked(View())
    {
      var mode := GetMode(staged.activation);
      b := mode == ACT_ABSOLUTE || mode == ACT_RELATIVE;
    }

    method Stage(con: Connection) returns (mode: Mode)
      modifies this
      ensures View() == old(View()).(staged := con) && mode == GetMode(con.activation)
    {
      staged := con;
      mode := GetMode(staged.activation);
    }

    // Fills in missing source addresses, copies staged to active, actualizes it stream by stream and
    // sets the subscription.
    method Activate(sources: seq<string>) returns (threw: bool)
      modifies this
      ensures (View(), threw) == Activated(old(View()), sources)
      ensures threw == CannotActivate(old(View()), old(staged))
      ensures !threw ==> MakesActive(old(View()), View(), old(staged), sources)
    {
      ActivatedMakesActive(View(), sources);
      hide MakesActive, CannotActivate;
      activateAllowed := false;
      active := staged;
      if |sources| == |ips| {
        var i := 0;
        while i < |sources|
          invariant i <= |sources| == |ips| == |old(ips)|
          invariant forall j :: 0 <= j < i ==> ips[j] == FilledIps(old(ips), sources)[j]
          invariant forall j :: i <= j < |ips| ==> ips[j] == old(ips)[j]
          invariant View() == old(View()).(activateAllowed := false, active := old(staged), ips := ips)
        {
          if ips[i].0 == "" {
            ips := ips[i := (sources[i], ips[i].1)];
          }
          i := i + 1;
        }
      }
      assert ips == FilledIps(old(ips), sources);
      var p := ActualizeEach(active.params, ips);
      active := active.(params := p.params);
      if p.threw {
        return true;
      }
      var enabled := GetBool(active.json, MASTER_ENABLE);
      if enabled == Some(true) {
        var receiver := GetString(active.json, RECEIVER_ID);
        if receiver.Some? {
          receiverId, sending := receiver.value, true;
        } else {
          receiverId, sending := "", false;
        }
      } else {
        receiverId, sending := "", false;
      }
      threw := false;
    }

    method CommitActivation()
      modifies this
      ensures View() == Committed(old(View())) && ClearedOnly(old(View()), View())
    {
      CommittedClears(View());
      staged := staged.(activation := ClearActivation(staged.activation));
    }

    method SetStagedActivationTimePoint(tp: int64)
      modifies this
      ensures View() == WithActivation(old(View()), SetActivationTime(old(staged.activation), tp))
      ensures staged == Timed(old(staged), Str(ConvertTimeToString(tp, true)))
    {
      staged := staged.(activation := SetActivationTime(staged.activation, tp));
    }

    method RemoveStagedActivationTime()
      modifies this
      ensures View() == WithActivation(old(View()), RemoveActivationTime(old(staged.activation)))
      ensures staged == Timed(old(staged), Null)
    {
      staged := staged.(activation := RemoveActivationTime(staged.activation));
    }

    method SetActivationAllowed(allowed: bool)
      modifies this
      ensures View() == old(View()).(activateAllowed := allowed)
    {
      activateAllowed := allowed;
    }

    method SetupActivation(destinations: seq<string>)
      modifies this
      ensures View() == old(View()).(ips := DirectedIps(old(ips), destinations))
      ensures |ips| == |old(ips)| && forall i :: 0 <= i < |ips| ==>
        ips[i].0 == old(ips)[i].0 && ips[i].1 == if |destinations| == |ips| then destinations[i] else old(ips)[i].1
    {
      if |destinations| == |ips| {
        var i := 0;
        while i < |ips|
          invariant i <= |ips| == |old(ips)|
          invariant forall j :: 0 <= j < |ips| ==> ips[j] == if j < i then (old(ips)[j].0, destinations[j]) else old(ips)[j]
          invariant View() == old(View()).(ips := ips)
        {
          ips := ips[i := (ips[i].0, destinations[i])];
          i := i + 1;
        }
        assert ips == DirectedIps(old(ips), destinations);
      }
    }

    // On one stream, or on all of them up to the first that lacks the parameter.
    method ChangeConstraint(k: Key, change: Constraints.Change, stream: Option<nat>) returns (ok: bool)
      modifies this
      ensures View() == old(View()).(constraints := Constraints.Apply(old(constraints), k, change, stream))
      ensures ok == if stream.Some? then stream.value < |old(constraints)| && k in old(constraints)[stream.value]
                    else forall i :: 0 <= i < |old(constraints)| ==> k in old(constraints)[i]
    {
      if stream.Some? {
        if stream.value < |constraints| && k in constraints[stream.value] {
          constraints := constraints[stream.value := Changed(constraints[stream.value], k, change)];
          return true;
        }
        return false;
      }
      constraints, ok := ChangeEach(constraints, k, change);
    }
  }

  // Every stream in turn, up to the first that lacks the parameter.
  method ChangeEach(ts: seq<Constraints.Table>, k: Key, change: Constraints.Change) returns (r: seq<Constraints.Table>, ok: bool)
    ensures r == Constraints.Apply(ts, k, change, None) && ok == forall i :: 0 <= i < |ts| ==> k in ts[i]
  {
    hide Constraints.Apply, Constraints.Changed;
    r := ts;
    var i := 0;
    while i < |r|
      invariant i <= |r| == |ts|
      invariant Constraints.Apply(ts, k, change, None) == r[..i] + Constraints.Apply(ts[i..], k, change, None)
      invariant forall j :: i <= j < |r| ==> r[j] == ts[j]
      invariant forall j :: 0 <= j < i ==> k in ts[j]
    {
      ApplyStep(ts, k, change, i, r);
      if k !in r[i] {
        return r, false;
      }
      r := r[i := Changed(r[i], k, change)];
      i := i + 1;
    }
    ApplyNone(ts[i..], k, change);
    assert r[..i] + [] == r;
    ok := true;
  }

  lemma ApplyNone(ts: seq<Constraints.Table>, k: Key, change: Constraints.Change)
    requires ts == []
    ensures Constraints.Apply(ts, k, change, None) == []
  {
  }

  lemma StreamsStep(params: seq<Object>, ips: seq<(string, string)>, i: nat, done: seq<Object>)
    requires i < |params| == |ips|
    ensures
      var one := Params.Actualize(params[i], ips[i].0, ips[i].1);
      var q := ActualizeStreams(params[i..], ips[i..]);
      var rest := ActualizeStreams(params[i + 1..], ips[i + 1..]);
      if one.threw then done + q.params == done + [one.m] + params[i + 1..] && q.threw
      else done + q.params == done + [one.m] + rest.params && q.threw == rest.threw
  {
  }

  // One turn of the loop: either the rest stays as it is, or the next table is changed.
  lemma ApplyStep(ts: seq<Constraints.Table>, k: Key, change: Constraints.Change, i: nat, r: seq<Constraints.Table>)
    requires i < |ts| == |r| && r[i..] == ts[i..]
    ensures r[i] == ts[i]
    ensures r[..i] + Constraints.Apply(ts[i..], k, change, None) ==
      if k !in ts[i] then r
      else r[i := Changed(ts[i], k, change)][..i + 1] + Constraints.Apply(ts[i + 1..], k, change, None)
  {
    assert r[i..][0] == ts[i..][0] && ts[i..][1..] == ts[i + 1..];
    hide Constraints.Changed;
    if k in ts[i] {
      assert r[i := Changed(ts[i], k, change)][..i + 1] == r[..i] + [Changed(ts[i], k, change)];
    } else {
      assert r[..i] + r[i..] == r;
    }
  }

  function Changed(t: Constraints.Table, k: Key, change: Constraints.Change): Constraints.Table
    requires k in t
  {
    t[k := Constraints.Changed(t[k], change)]
  }

  lemma AllowedIsOverwritten(s: SenderState, a: Object, sources: seq<string>)
    ensures Activated(WithActivation(s.(activateAllowed := true), a), sources) == Activated(WithActivation(s, a), sources)
  {
  }

  // Allowing the activation first makes no difference.
  lemma AllowedIsImmediate(n: Node, id: Id, s: SenderState, now: int64, sources: seq<string>)
    requires id in n.senders
    ensures Immediate(n, id, s.(activateAllowed := true), now, sources) == Immediate(n, id, s, now, sources)
  {
    AllowedIsOverwritten(s, SetActivationTime(s.staged.activation, Wrap64(now + LEAP)), sources);
    hide Activated;
  }

  // The objects of the streams in turn, up to the first whose accessors throw.
  method ActualizeEach(params: seq<Object>, ips: seq<(string, string)>) returns (p: Progress)
    ensures p == Actualize(params, ips)
  {
    hide Params.Actualize;
    if |ips| != |params| {
      return Progress(params, false);
    }
    var r := params;
    var i := 0;
    while i < |r|
      invariant i <= |r| == |params| && r[i..] == params[i..]
      invariant var q := ActualizeStreams(params[i..], ips[i..]);
        ActualizeStreams(params, ips) == Progress(r[..i] + q.params, q.threw)
    {
      var stream := new StreamParams.Stream(r[i]);
      var threw := stream.ActualizeSender(ips[i].0, ips[i].1);
      StreamsStep(params, ips, i, r[..i]);
      hide ActualizeStreams;
      assert r[i := stream.json][..i + 1] == r[..i] + [stream.json];
      r := r[i := stream.json];
      if threw {
        assert r == r[..i + 1] + params[i + 1..];
        return Progress(r, true);
      }
      i := i + 1;
    }
    assert params[i..] == [] && r[..i] == r;
    p := Progress(r, false);
  }

  class NodeApi {
    const activator: Activator.Activator
    var senders: map<Id, Sender>

    constructor ()
      ensures Valid() && View() == Node(map[], map[])
    {
      activator := new Activator.Activator();
      senders := map[];
    }

    ghost predicate Valid()
      reads this
    {
      forall i, j :: i in senders && j in senders && i != j ==> senders[i] != senders[j]
    }

    function View(): Node
      reads this, activator, senders.Values
    {
      Node(map i | i in senders :: senders[i].View(), activator.activations)
    }

    // A method that changes one sender object changes one entry of the view.
    twostate lemma OneChanged(id: Id)
      requires senders == old(senders) && id in senders
      requires forall k :: k in senders && k != id ==> senders[k].View() == old(senders[k].View())
      ensures View().senders == old(View()).senders[id := senders[id].View()]
    {
    }

    // The overwriting, then the rest by the mode that it returned.
    method StageSender(con: Connection, id: Id, now: int64, sources: seq<string>) returns (v: Verdict)
      requires Valid() && id in senders
      modifies senders[id], activator
      ensures Valid() && (View(), v) == Stage(old(View()), id, con, now, sources)
    {
      hide Settled, GetMode;
      var mode := senders[id].Stage(con);
      OneChanged(id);
      SameSender(id);
      v := SettleSender(id, mode, now, sources);
    }

    method SettleSender(id: Id, mode: Mode, now: int64, sources: seq<string>) returns (v: Verdict)
      requires Valid() && id in senders
      modifies senders[id], activator
      ensures Valid() && (View(), v) == Settled(old(View()), id, mode, now, sources)
    {
      hide Cancel, Immediate, Schedule, ConvertTaiStringToTimePoint, AddTaiStringToTimePoint, View;
      SameSender(id);
      var s := senders[id];
      match mode
      case ACT_NULL => v := CancelSender(id);
      case ACT_NOW =>
        AllowedIsImmediate(View(), id, s.View(), now, sources);
        v := ActivateNow(id, now, sources);
      case ACT_ABSOLUTE => v := ScheduleSender(id, ConvertTaiStringToTimePoint(RequestedTime(s.staged.activation)));
      case ACT_RELATIVE => v := ScheduleSender(id, AddTaiStringToTimePoint(RequestedTime(s.staged.activation), now));
    }

    method CancelSender(id: Id) returns (v: Verdict)
      requires Valid() && id in senders
      modifies senders[id], activator
      ensures Valid() && (View(), v) == Cancel(old(View()), id, old(senders[id].View()))
    {
      hide GetActivationTimePoint, Activator.Removed;
      var at := GetActivationTimePoint(senders[id].staged.activation);
      if at.Thrown? {
        OneChanged(id);
        return Throws;
      }
      if at.Instant? {
        var _ := activator.RemoveActivation(at.tp, id);
        senders[id].RemoveStagedActivationTime();
      }
      senders[id].SetActivationAllowed(false);
      OneChanged(id);
      v := Yes;
    }

    method ActivateNow(id: Id, now: int64, sources: seq<string>) returns (v: Verdict)
      requires Valid() && id in senders
      modifies senders[id]
      ensures Valid() && (View(), v) == Immediate(old(View()), id, old(senders[id].View()).(activateAllowed := true), now, sources)
    {
      hide Activated, SetActivationTime;
      senders[id].SetStagedActivationTimePoint(Wrap64(now + LEAP));
      senders[id].SetActivationAllowed(true);
      var threw := senders[id].Activate(sources);
      OneChanged(id);
      v := if threw then Throws else Yes;
    }

    method ScheduleSender(id: Id, at: Reading) returns (v: Verdict)
      requires Valid() && id in senders
      modifies senders[id], activator
      ensures Valid() && (View(), v) == Schedule(old(View()), id, old(senders[id].View()), at)
    {
      hide SetActivationTime, Activator.Added;
      if at.Instant? {
        senders[id].SetActivationAllowed(true);
        senders[id].SetStagedActivationTimePoint(at.tp);
        var _ := activator.AddActivation(at.tp, id);
      }
      OneChanged(id);
      v := if at.Thrown? then Throws else if at.NoInstant? then No else Yes;
    }

    method CommitActivation(id: Id)
      requires Valid() && id in senders
      modifies senders[id]
      ensures Valid() && View() == With(old(View()), id, Committed(old(senders[id].View())))
    {
      hide Committed;
      senders[id].CommitActivation();
      OneChanged(id);
    }

    // IS05Server::PatchSender with the application's answer as a parameter; None when there is none.
    method PatchSender(id: Id, patch: Json, answer: Option<int>, now: int64, sources: seq<string>) returns (reply: Reply)
      requires Valid() && id in senders
      modifies senders[id], activator
      ensures Valid()
      ensures match CheckRequest(old(senders[id].View()), patch)
        case Reject(r) => View() == old(View()) && reply == r
        case Pass(con) => (View(), reply) == Finish(old(View()), id, con, answer, now, sources)
    {
      hide Finish, Patch, Constraints.Check, View;
      SameSender(id);
      var s := senders[id];
      var con := PatchConnection(s.staged, patch);
      if con.Refused? {
        return Code(400);
      }
      if con.Escaped? {
        return Exception;
      }
      var v := Constraints.CheckConstraints(s.constraints, con.value.params);
      if v != Yes {
        return if v == No then Code(400) else Exception;
      }
      var locked := s.Locked();
      if GetMode(con.value.activation) != ACT_NULL && locked {
        return Code(423);
      }
      reply := FinishRequest(id, con.value, answer, now, sources);
    }

    method FinishRequest(id: Id, con: Connection, answer: Option<int>, now: int64, sources: seq<string>) returns (reply: Reply)
      requires Valid() && id in senders
      modifies senders[id], activator
      ensures Valid() && (View(), reply) == Finish(old(View()), id, con, answer, now, sources)
    {
      hide Stage, GetMode, View;
      if answer.Some? && answer.value != 202 {
        return Code(500);
      }
      var v := StageSender(con, id, now, sources);
      reply := CloseRequest(id, GetMode(con.activation), v, answer);
    }

    method CloseRequest(id: Id, mode: Mode, v: Verdict, answer: Option<int>) returns (reply: Reply)
      requires Valid() && id in senders
      modifies senders[id]
      ensures Valid() && (View(), reply) == Closed(old(View()), id, mode, v, answer)
    {
      hide Committed, View;
      if v != Yes {
        return if v == No then Code(500) else Exception;
      }
      if answer == None {
        return Code(200);
      }
      match mode
      case ACT_NULL => reply := Code(200);
      case ACT_NOW =>
        SameSender(id);
        CommitActivation(id);
        reply := Code(200);
      case _ => reply := Code(202);
    }

    lemma SameSender(id: Id)
      requires id in senders
      ensures id in View().senders && View().senders[id] == senders[id].View()
    {
    }

    // The first part of Activator::Activate on this node: the head's sender is activated.
    method ActivateHead(sources: seq<string>) returns (threw: bool)
      requires Valid() && activator.activations != map[] && activator.activations[First(activator.activations)] in senders
      modifies senders[activator.activations[First(activator.activations)]]
      ensures Valid() && (View(), threw) == Activates(old(View()), sources)
    {
      hide Activated;
      var id := activator.activations[First(activator.activations)];
      threw := senders[id].Activate(sources);
      OneChanged(id);
    }

    // The second: it is committed and leaves the table.
    method CommitHead()
      requires Valid() && activator.activations != map[] && activator.activations[First(activator.activations)] in senders
      modifies senders[activator.activations[First(activator.activations)]], activator
      ensures Valid() && View() == Commits(old(View()))
    {
      hide Committed;
      var id := activator.activations[First(activator.activations)];
      senders[id].CommitActivation();
      var fired := activator.Activate();
      OneChanged(id);
    }

    method FireHead(sources: seq<string>) returns (threw: bool)
      requires Valid() && activator.activations != map[] && activator.activations[First(activator.activations)] in senders
      modifies senders[activator.activations[First(activator.activations)]], activator
      ensures Valid() && (View(), threw) == Fire(old(View()), sources)
    {
      hide Activates, Commits;
      threw := ActivateHead(sources);
      if !threw {
        CommitHead();
      }
    }
  }
}
