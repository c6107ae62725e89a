/** Staging and activation of IS-05 senders: what one patch, cancellation or firing does to a sender
    and to the activation table (base/src/senderbase.cpp, node/src/nodeapiprivate.cpp lines
    1394-1499, node/src/is05server.cpp lines 409-483), and what holds over every run of them. In a run
    the sections of a request and of a firing that hold different mutexes are steps of their own. */
module Staging {
  import opened Containers
  import opened Json
  import opened TaiTime
  import opened Connection
  import Constraints
  import Params = TransportParams
  import Activator

  type Id = Activator.Id

  // ---------- One sender ----------

  // ips are the source and destination address of each stream.
  datatype SenderState = SenderState(
    staged: Connection,
    active: Connection,
    activateAllowed: bool,
    receiverId: string,
    sending: bool,
    ips: seq<(string, string)>,
    constraints: seq<Constraints.Table>)

  predicate IsScheduled(c: Connection) {
    GetMode(c.activation) == ACT_ABSOLUTE || GetMode(c.activation) == ACT_RELATIVE
  }

  predicate IsLocked(s: SenderState) {
    IsScheduled(s.staged)
  }

  // Empty source addresses are filled in, when there is one for each stream.
  function FilledIps(ips: seq<(string, string)>, sources: seq<string>): seq<(string, string)> {
    if |sources| != |ips| then ips
    else seq(|ips|, i requires 0 <= i < |ips| => if ips[i].0 == "" then (sources[i], ips[i].1) else ips[i])
  }

  // Sender::SetupActivation: the application's destinations, when there is one for each stream.
  function DirectedIps(ips: seq<(string, string)>, destinations: seq<string>): seq<(string, string)> {
    if |destinations| != |ips| then ips
    else seq(|ips|, i requires 0 <= i < |ips| => (ips[i].0, destinations[i]))
  }

  // Sender::Activate; true when an accessor threw, which skips the subscription.
  function Activated(s: SenderState, sources: seq<string>): (SenderState, bool) {
    var ips := FilledIps(s.ips, sources);
    var p := Actualize(s.staged.params, ips);
    var s' := s.(activateAllowed := false, active := s.staged.(params := p.params), ips := ips);
    if p.threw then (s', true)
    else
      var receiver := GetString(s.staged.json, RECEIVER_ID);
      if GetBool(s.staged.json, MASTER_ENABLE) == Some(true) && receiver.Some?
      then (s'.(receiverId := receiver.value, sending := true), false)
      else (s'.(receiverId := "", sending := false), false)
  }

  function WithActivation(s: SenderState, a: Object): SenderState {
    s.(staged := s.staged.(activation := a))
  }

  function Committed(s: SenderState): SenderState {
    WithActivation(s, ClearActivation(s.staged.activation))
  }

  // ---------- The node ----------

  datatype Node = Node(senders: map<Id, SenderState>, pending: Activator.Table)

  function With(n: Node, id: Id, s: SenderState): Node {
    n.(senders := n.senders[id := s])
  }

  // No sender but `id` changes.
  predicate OnlyTouches(n: Node, n': Node, id: Id) {
    && id in n'.senders && n'.senders.Keys == n.senders.Keys
    && forall k :: k in n.senders && k != id ==> n'.senders[k] == n.senders[k]
  }

  // Sender::Stage: the staged connection is overwritten under the sender's mutex.
  function Overwritten(n: Node, id: Id, con: Connection): (r: Node)
    requires id in n.senders
    ensures OnlyTouches(n, r, id) && r.senders[id].staged == con
  {
    With(n, id, n.senders[id].(staged := con))
  }

  // What NodeApiPrivate::Stage does afterwards, by the mode that Sender::Stage returned. No means an
  // invalid time; Throws an exception on the way.
  function Settled(n: Node, id: Id, mode: Mode, now: int64, sources: seq<string>): (r: (Node, Verdict))
    requires id in n.senders
    ensures OnlyTouches(n, r.0, id) && r.0.senders[id].staged.params == n.senders[id].staged.params
  {
    var s := n.senders[id];
    match mode
    case ACT_NULL => Cancel(n, id, s)
    case ACT_NOW => Immediate(n, id, s, now, sources)
    case ACT_ABSOLUTE => Schedule(n, id, s, ConvertTaiStringToTimePoint(RequestedTime(s.staged.activation)))
    case ACT_RELATIVE => Schedule(n, id, s, AddTaiStringToTimePoint(RequestedTime(s.staged.activation), now))
  }

  // NodeApiPrivate::Stage, when nothing comes between. The overwriting comes before the time is looked at.
  function Stage(n: Node, id: Id, con: Connection, now: int64, sources: seq<string>): (r: (Node, Verdict))
    requires id in n.senders
    ensures OnlyTouches(n, r.0, id) && r.0.senders[id].staged.params == con.params
  {
    Settled(Overwritten(n, id, con), id, GetMode(con.activation), now, sources)
  }

  function Cancel(n: Node, id: Id, s: SenderState): (r: (Node, Verdict))
    requires id in n.senders
    ensures OnlyTouches(n, r.0, id) && r.0.senders[id].staged.params == s.staged.params
  {
    match GetActivationTimePoint(s.staged.activation)
    case Thrown => (With(n, id, s), Throws)
    case NoInstant => (With(n, id, s.(activateAllowed := false)), Yes)
    case Instant(tp) =>
      var s' := WithActivation(s, RemoveActivationTime(s.staged.activation)).(activateAllowed := false);
      (With(n, id, s').(pending := Activator.Removed(n.pending, tp, id)), Yes)
  }

  function Immediate(n: Node, id: Id, s: SenderState, now: int64, sources: seq<string>): (r: (Node, Verdict))
    requires id in n.senders
    ensures OnlyTouches(n, r.0, id) && r.0.senders[id].staged.params == s.staged.params
  {
    var (s', threw) := Activated(WithActivation(s, SetActivationTime(s.staged.activation, Wrap64(now + LEAP))), sources);
    (With(n, id, s'), if threw then Throws else Yes)
  }

  function Schedule(n: Node, id: Id, s: SenderState, at: Reading): (r: (Node, Verdict))
    requires id in n.senders
    ensures OnlyTouches(n, r.0, id) && r.0.senders[id].staged.params == s.staged.params
  {
    match at
    case Thrown => (With(n, id, s), Throws)
    case NoInstant => (With(n, id, s), No)
    case Instant(tp) =>
      var s' := WithActivation(s, SetActivationTime(s.staged.activation, tp)).(activateAllowed := true);
      (With(n, id, s').(pending := Activator.Added(n.pending, tp, id)), Yes)
  }

  // The answer to a request: an HTTP code, or an exception that escapes the handler.
  datatype Reply = Code(code: int) | Exception

  // The part of PatchSender before the application is asked: the patched copy, or a refusal.
  datatype Request = Pass(con: Connection) | Reject(reply: Reply)

  function CheckRequest(s: SenderState, patch: Json): Request {
    match Patch(s.staged, patch)
    case Refused => Reject(Code(400))
    case Escaped => Reject(Exception)
    case Accepted(con) => CheckCopy(s, con)
  }

  // The checks of a patched copy against the sender as it is then.
  function CheckCopy(s: SenderState, con: Connection): Request {
    match Constraints.Check(s.constraints, con.params)
    case No => Reject(Code(400))
    case Throws => Reject(Exception)
    case Yes =>
      if GetMode(con.activation) != ACT_NULL && IsLocked(s) then Reject(Code(423)) else Pass(con)
  }

  // The application's answer is None when there is no application to ask.
  predicate Agreed(answer: Option<int>) {
    answer == None || answer == Some(202)
  }

  // The reply after staging. With no application an immediate activation is not committed.
  function Closed(n: Node, id: Id, mode: Mode, v: Verdict, answer: Option<int>): (r: (Node, Reply))
    requires id in n.senders
    ensures OnlyTouches(n, r.0, id) && r.0.senders[id].staged.params == n.senders[id].staged.params
  {
    match v
    case No => (n, Code(500))
    case Throws => (n, Exception)
    case Yes =>
      if answer == None then (n, Code(200))
      else
        match mode
        case ACT_NULL => (n, Code(200))
        case ACT_NOW => (With(n, id, Committed(n.senders[id])), Code(200))
        case _ => (n, Code(202))
  }

  // The part of PatchSender after the answer, when nothing comes between.
  function Finish(n: Node, id: Id, con: Connection, answer: Option<int>, now: int64, sources: seq<string>): (r: (Node, Reply))
    requires id in n.senders
    ensures OnlyTouches(n, r.0, id)
    ensures r.0.senders[id].staged.params == if Agreed(answer) then con.params else n.senders[id].staged.params
  {
    if !Agreed(answer) then (n, Code(500))
    else
      var (n', v) := Stage(n, id, con, now, sources);
      Closed(n', id, GetMode(con.activation), v, answer)
  }

  predicate HeadIsSender(n: Node) {
    n.pending != map[] && n.pending[First(n.pending)] in n.senders
  }

  // Activator::Activate, which holds the table's mutex: first the head's sender is activated; true when
  // an accessor threw, which ends the process.
  function Activates(n: Node, sources: seq<string>): (Node, bool)
    requires HeadIsSender(n)
  {
    var id := n.pending[First(n.pending)];
    var (s, threw) := Activated(n.senders[id], sources);
    (With(n, id, s), threw)
  }

  // Then it is committed and the head leaves the table.
  function Commits(n: Node): Node
    requires HeadIsSender(n)
  {
    var tp := First(n.pending);
    var id := n.pending[tp];
    With(n, id, Committed(n.senders[id])).(pending := n.pending - {tp})
  }

  // Both, when nothing comes between.
  function Fire(n: Node, sources: seq<string>): (Node, bool)
    requires HeadIsSender(n)
  {
    var (m, threw) := Activates(n, sources);
    if threw then (m, true) else (Commits(m), false)
  }

  // ---------- Runs ----------

  // How far the request that is being served has come: its patched copy is made, it waits for the
  // application, or the staged connection is overwritten and the rest of Stage is to come.
  datatype Phase =
    | Idle
    | Copied(id: Id, con: Connection)
    | Waiting(id: Id, con: Connection)
    | Written(id: Id, con: Connection, answer: Option<int>)

  // firing says that the head's sender has been activated and not committed yet. plan remembers, for
  // each pending instant, the sender and the connection that its request staged.
  datatype System = System(node: Node, phase: Phase, firing: bool, plan: map<int, (Id, Connection)>)

  // Requests come one at a time. Firings, constraints and destination addresses may come between any
  // two sections of a request, and sections of a request between the two of a firing.
  datatype Event =
    | Ask(id: Id, patch: Json)
    | Check
    | Answer(answer: Option<int>)
    | Settle(now: int64, sources: seq<string>)
    | Expire(sources: seq<string>)
    | Commit
    | Constrain(id: Id, k: Key, change: Constraints.Change, stream: Option<nat>)
    | Direct(id: Id, destinations: seq<string>)

  // While a firing holds the table's mutex, the end of a request has to leave the table alone.
  predicate Enabled(y: System, e: Event) {
    match e
    case Ask(id, _) => y.phase.Idle? && id in y.node.senders
    case Check => y.phase.Copied? && y.phase.id in y.node.senders
    case Answer(_) => y.phase.Waiting? && y.phase.id in y.node.senders
    case Settle(now, sources) => y.phase.Written? && y.phase.id in y.node.senders
      && (y.firing ==> Ended(y, now, sources).0.pending == y.node.pending)
    case Expire(sources) => !y.firing && HeadIsSender(y.node) && !Activates(y.node, sources).1
    case Commit => y.firing && HeadIsSender(y.node)
    case Constrain(id, _, _, _) => id in y.node.senders
    case Direct(id, _) => id in y.node.senders
  }

  // The end of the request that is written: the node and the reply.
  function Ended(y: System, now: int64, sources: seq<string>): (r: (Node, Reply))
    requires y.phase.Written? && y.phase.id in y.node.senders
    ensures OnlyTouches(y.node, r.0, y.phase.id)
    ensures r.0.senders[y.phase.id].staged.params == y.node.senders[y.phase.id].staged.params
  {
    var (n, v) := Settled(y.node, y.phase.id, GetMode(y.phase.con.activation), now, sources);
    Closed(n, y.phase.id, GetMode(y.phase.con.activation), v, y.phase.answer)
  }

  // The plan for a table: what was planned, and for a new instant what is staged now.
  function Replanned(plan: map<int, (Id, Connection)>, n: Node, id: Id): map<int, (Id, Connection)>
    requires id in n.senders
  {
    map t | t in n.pending :: if t in plan then plan[t] else (id, n.senders[id].staged)
  }

  function Apply(y: System, e: Event): System
    requires Enabled(y, e)
  {
    match e
    case Ask(id, patch) =>
      var r := Patch(y.node.senders[id].staged, patch);
      if r.Accepted? then y.(phase := Copied(id, r.value)) else y
    case Check =>
      var pass := CheckCopy(y.node.senders[y.phase.id], y.phase.con).Pass?;
      y.(phase := if pass then Waiting(y.phase.id, y.phase.con) else Idle)
    case Answer(answer) =>
      if Agreed(answer) then
        y.(node := Overwritten(y.node, y.phase.id, y.phase.con), phase := Written(y.phase.id, y.phase.con, answer))
      else y.(phase := Idle)
    case Settle(now, sources) =>
      var n := Ended(y, now, sources).0;
      y.(node := n, phase := Idle, plan := Replanned(y.plan, n, y.phase.id))
    case Expire(sources) => y.(node := Activates(y.node, sources).0, firing := true)
    case Commit =>
      var n := Commits(y.node);
      y.(node := n, firing := false, plan := map t | t in n.pending && t in y.plan :: y.plan[t])
    case Constrain(id, k, change, stream) =>
      var s := y.node.senders[id];
      y.(node := With(y.node, id, s.(constraints := Constraints.Apply(s.constraints, k, change, stream))))
    case Direct(id, destinations) =>
      var s := y.node.senders[id];
      y.(node := With(y.node, id, s.(ips := DirectedIps(s.ips, destinations))))
  }

  // A request served with nothing in between does what PatchSender's two parts do one after the other.
  lemma ServedAlone(n: Node, id: Id, con: Connection, answer: Option<int>, now: int64, sources: seq<string>,
        plan: map<int, (Id, Connection)>)
    requires id in n.senders
    ensures
      var y := Apply(System(n, Waiting(id, con), false, plan), Answer(answer));
      var z := if Agreed(answer) then Apply(y, Settle(now, sources)) else y;
      z.node == Finish(n, id, con, answer, now, sources).0 && z.phase == Idle
  {
    hide Settled, Closed, GetMode;
  }

  // So does a firing what Activator::Activate does.
  lemma FiredAlone(y: System, sources: seq<string>)
    requires !y.firing && HeadIsSender(y.node)
    ensures Enabled(y, Expire(sources)) <==> !Fire(y.node, sources).1
    ensures Enabled(y, Expire(sources)) ==>
      var z := Apply(y, Expire(sources));
      Enabled(z, Commit) && Apply(z, Commit).node == Fire(y.node, sources).0 && !Apply(z, Commit).firing
  {
    hide Activated, Committed, Ended;
  }

  ghost predicate Runs(y: System, es: seq<Event>, z: System)
    decreases |es|
  {
    if es == [] then y == z else Enabled(y, es[0]) && Runs(Apply(y, es[0]), es[1..], z)
  }

  // ---------- Pending implies scheduled ----------

  // The activation time is null or the text of an instant.
  ghost predicate TimeIsPrinted(a: Object) {
    ACTIVATED_TIME in a && (a[ACTIVATED_TIME] == Null || exists tp: int64 :: PrintedAt(a, tp))
  }

  ghost predicate PrintedAt(a: Object, tp: int64) {
    ACTIVATED_TIME in a && a[ACTIVATED_TIME] == Str(ConvertTimeToString(tp, true))
  }

  // The entry (tp, id) is what staged it: the sender is in a scheduled mode with activation time tp
  // and still holds the connection the plan remembers.
  ghost predicate EntryHolds(n: Node, plan: map<int, (Id, Connection)>, tp: int) {
    tp in n.pending && tp in plan && -0x8000_0000_0000_0000 <= tp < 0x8000_0000_0000_0000 && n.pending[tp] in n.senders &&
    var c := n.senders[n.pending[tp]].staged;
    IsScheduled(c) && PrintedAt(c.activation, tp) && plan[tp] == (n.pending[tp], c)
  }

  // The request being served cancels this sender's activation and has overwritten it, but has not
  // removed its entry yet.
  predicate Cancelling(y: System, id: Id) {
    y.phase.Written? && y.phase.id == id && GetMode(y.phase.con.activation) == ACT_NULL
  }

  // The entry (tp, id) is in the plan, and the sender holds what the plan says, or what the
  // cancellation under way has put in its place.
  ghost predicate EntryKept(y: System, tp: int) {
    && tp in y.node.pending && tp in y.plan && -0x8000_0000_0000_0000 <= tp < 0x8000_0000_0000_0000
    && y.node.pending[tp] in y.node.senders
    && var (id, c) := y.plan[tp];
    && id == y.node.pending[tp] && IsScheduled(c) && PrintedAt(c.activation, tp)
    && var staged := y.node.senders[id].staged;
    if Cancelling(y, id) then staged == y.phase.con && PrintedAt(staged.activation, tp) else staged == c
  }

  ghost predicate EntriesKept(y: System) {
    y.plan.Keys == y.node.pending.Keys && forall tp :: tp in y.node.pending ==> EntryKept(y, tp)
  }

  // A copy that has an entry to remove carries its time.
  ghost predicate CarriesTime(n: Node, id: Id, con: Connection) {
    && id in n.senders && TimeIsPrinted(con.activation)
    && forall tp :: tp in n.pending && n.pending[tp] == id ==>
         At(con.activation, ACTIVATED_TIME) == At(n.senders[id].staged.activation, ACTIVATED_TIME)
  }

  ghost predicate HasNoEntry(n: Node, id: Id) {
    forall tp :: tp in n.pending ==> n.pending[tp] != id
  }

  // A request that is to schedule or activate has found its sender unlocked, which it stays. One that
  // is written is what its sender holds, unless it cancels and the activation has fired meanwhile.
  ghost predicate PhaseHolds(n: Node, p: Phase) {
    match p
    case Idle => true
    case Copied(id, con) => CarriesTime(n, id, con)
    case Waiting(id, con) => CarriesTime(n, id, con) && (GetMode(con.activation) != ACT_NULL ==> !IsLocked(n.senders[id]))
    case Written(id, con, answer) =>
      && id in n.senders && Agreed(answer)
      && (n.senders[id].staged == con
          || (GetMode(con.activation) == ACT_NULL && HasNoEntry(n, id) && n.senders[id].staged == Cleared(con)))
      && (GetMode(con.activation) != ACT_NULL ==> HasNoEntry(n, id))
  }

  function Cleared(c: Connection): Connection {
    c.(activation := ClearActivation(c.activation))
  }

  ghost predicate TimesHold(n: Node) {
    forall id :: id in n.senders ==> TimeIsPrinted(n.senders[id].staged.activation)
  }

  ghost predicate Inv(y: System) {
    EntriesKept(y) && TimesHold(y.node) && PhaseHolds(y.node, y.phase)
  }

  // No sender is pending twice.
  lemma PendingOnce(y: System, t: int, u: int)
    requires Inv(y) && t in y.node.pending && u in y.node.pending && y.node.pending[t] == y.node.pending[u]
    ensures t == u
  {
    assert EntryKept(y, t) && EntryKept(y, u);
    PrintingIsInjective(t, u);
  }

  predicate ReadsAs(a: Object, t: int) {
    var r := GetActivationTimePoint(a);
    r.Instant? && r.tp == t
  }

  // Reading the activation time gives the instant that was printed, or nothing; never an exception.
  lemma ActivationTimeReads(a: Object)
    requires TimeIsPrinted(a)
    ensures a[ACTIVATED_TIME] == Null ==> GetActivationTimePoint(a) == NoInstant
    ensures forall tp: int64 :: PrintedAt(a, tp) ==> GetActivationTimePoint(a) == Instant(tp)
    ensures GetActivationTimePoint(a) != Thrown
  {
    hide ConvertTimeToString, ConvertTaiStringToTimePoint;
    NoTextIsNoInstant();
    forall tp: int64 | PrintedAt(a, tp) ensures GetActivationTimePoint(a) == Instant(tp) {
      ReadsWhatItPrints(tp);
    }
  }

  lemma NoTextIsNoInstant()
    ensures ConvertTaiStringToTimePoint("") == NoInstant
  {
  }

  // A sender that is not locked has no entry, unless its activation is being cancelled.
  lemma UnlockedHasNoEntry(y: System, id: Id)
    requires Inv(y) && id in y.node.senders && !IsLocked(y.node.senders[id]) && !Cancelling(y, id)
    ensures HasNoEntry(y.node, id)
  {
    forall tp | tp in y.node.pending ensures y.node.pending[tp] != id {
      assert EntryKept(y, tp);
    }
  }

  // ---------- Every step keeps it ----------

  lemma AskKeepsInv(y: System, id: Id, patch: Json)
    requires Inv(y) && Enabled(y, Ask(id, patch))
    ensures Inv(Apply(y, Ask(id, patch)))
  {
    hide JudgePatch, IsScheduled, GetMode;
    var s := y.node.senders[id];
    var z := Apply(y, Ask(id, patch));
    if z.phase.Copied? {
      CopyCarriesTime(s.staged, patch);
    }
    SameTable(y, z);
  }

  lemma CopyCarriesTime(c: Connection, patch: Json)
    requires TimeIsPrinted(c.activation) && Patch(c, patch).Accepted?
    ensures var d := Patch(c, patch).value;
      TimeIsPrinted(d.activation) && At(d.activation, ACTIVATED_TIME) == At(c.activation, ACTIVATED_TIME)
  {
    hide JudgePatch;
    var d := Patch(c, patch).value;
    assert ACTIVATED_TIME in d.activation && At(d.activation, ACTIVATED_TIME) == At(c.activation, ACTIVATED_TIME);
    if c.activation[ACTIVATED_TIME] != Null {
      var tp: int64 :| PrintedAt(c.activation, tp);
      assert PrintedAt(d.activation, tp);
    }
  }

  // The entries stay when neither they, nor the plan, nor what is staged changes, and no cancellation
  // is written on either side.
  lemma SameTable(y: System, z: System)
    requires EntriesKept(y) && z.node.pending == y.node.pending && z.plan == y.plan
    requires !y.phase.Written? && !z.phase.Written? && z.node.senders.Keys == y.node.senders.Keys
    requires forall id :: id in y.node.senders ==> z.node.senders[id].staged == y.node.senders[id].staged
    ensures EntriesKept(z)
  {
    hide IsScheduled, PrintedAt;
    forall tp | tp in z.node.pending ensures EntryKept(z, tp) {
      assert EntryKept(y, tp);
    }
  }

  lemma CheckKeepsInv(y: System)
    requires Inv(y) && Enabled(y, Check)
    ensures Inv(Apply(y, Check))
  {
    hide TimeIsPrinted, Constraints.Check;
    SameTable(y, Apply(y, Check));
  }

  lemma AnswerKeepsInv(y: System, answer: Option<int>)
    requires Inv(y) && Enabled(y, Answer(answer))
    ensures Inv(Apply(y, Answer(answer)))
  {
    hide TimeIsPrinted, GetMode, Patch, CheckCopy, Ended, Activates, DirectedIps, Constraints.Apply;
    var z := Apply(y, Answer(answer));
    if !Agreed(answer) {
      SameTable(y, z);
    } else {
      var (id, con) := (y.phase.id, y.phase.con);
      if GetMode(con.activation) != ACT_NULL {
        UnlockedHasNoEntry(y, id);
      }
      forall tp | tp in z.node.pending ensures EntryKept(z, tp) {
        assert EntryKept(y, tp);
      }
    }
  }

  // What the end of a request leaves, when no entry of the sender may survive it.
  ghost predicate Replaced(n: Node, n': Node, id: Id) {
    && OnlyTouches(n, n', id) && TimeIsPrinted(n'.senders[id].staged.activation)
    && (forall t :: t in n'.pending ==> t in n.pending && n'.pending[t] == n.pending[t] != id)
  }

  // What it leaves when it makes an entry: the request is staged with its activation time.
  ghost predicate Entered(n: Node, n': Node, id: Id, tp: int64, con: Connection) {
    && OnlyTouches(n, n', id) && HasNoEntry(n, id)
    && tp !in n.pending && n'.pending == n.pending[tp := id]
    && n'.senders[id].staged == con.(activation := SetActivationTime(con.activation, tp))
    && IsScheduled(con) && IsScheduled(n'.senders[id].staged) && PrintedAt(n'.senders[id].staged.activation, tp)
  }

  lemma RemovedTakesOwn(p: Activator.Table, tp: int, id: Id)
    ensures forall t :: t in Activator.Removed(p, tp, id) ==> t in p && Activator.Removed(p, tp, id)[t] == p[t]
    ensures tp in p && p[tp] == id ==> tp !in Activator.Removed(p, tp, id)
  {
  }

  lemma ActivatedKeepsStaged(s: SenderState, sources: seq<string>)
    ensures Activated(s, sources).0.staged == s.staged
  {
  }

  lemma OwnEntryIsRead(y: System, id: Id, t: int)
    requires Inv(y) && Cancelling(y, id) && t in y.node.pending && y.node.pending[t] == id
    ensures ReadsAs(y.node.senders[id].staged.activation, t)
  {
    hide GetActivationTimePoint, ConvertTimeToString, GetMode, IsScheduled;
    assert EntryKept(y, t);
    ActivationTimeReads(y.node.senders[id].staged.activation);
  }

  lemma CancelReplaces(n: Node, id: Id, s: SenderState)
    requires id in n.senders && TimeIsPrinted(s.staged.activation)
    requires forall t :: t in n.pending && n.pending[t] == id ==> ReadsAs(s.staged.activation, t)
    ensures Cancel(n, id, s).1 == Yes && Replaced(n, Cancel(n, id, s).0, id)
  {
    hide GetActivationTimePoint, PrintedAt, Activator.Removed;
    ActivationTimeReads(s.staged.activation);
    var r := GetActivationTimePoint(s.staged.activation);
    if r.Instant? {
      RemovedTakesOwn(n.pending, r.tp, id);
    }
  }

  lemma ImmediateReplaces(n: Node, id: Id, s: SenderState, now: int64, sources: seq<string>)
    requires id in n.senders && HasNoEntry(n, id)
    ensures Replaced(n, Immediate(n, id, s, now, sources).0, id)
  {
    var a := SetActivationTime(s.staged.activation, Wrap64(now + LEAP));
    assert PrintedAt(a, Wrap64(now + LEAP));
    hide ConvertTimeToString, Activated;
    ActivatedKeepsStaged(WithActivation(s, a), sources);
  }

  lemma ScheduleReplacesOrEnters(n: Node, id: Id, s: SenderState, at: Reading)
    requires id in n.senders && IsScheduled(s.staged) && TimeIsPrinted(s.staged.activation)
    requires HasNoEntry(n, id)
    ensures
      var n' := Schedule(n, id, s, at).0;
      Replaced(n, n', id) || exists tp: int64 :: Entered(n, n', id, tp, s.staged)
  {
    if at.Instant? {
      var a := SetActivationTime(s.staged.activation, at.tp);
      assert PrintedAt(a, at.tp) && GetMode(a) == GetMode(s.staged.activation);
      hide GetMode, ConvertTimeToString, PrintedAt;
      if at.tp !in n.pending {
        assert Entered(n, Schedule(n, id, s, at).0, id, at.tp, s.staged);
      }
    }
  }

  lemma SettlingReplacesOrEnters(y: System, now: int64, sources: seq<string>)
    requires Inv(y) && y.phase.Written? && y.phase.id in y.node.senders
    ensures
      var (id, con) := (y.phase.id, y.phase.con);
      var (n, v) := Settled(y.node, id, GetMode(con.activation), now, sources);
      && (Replaced(y.node, n, id) || exists tp: int64 :: Entered(y.node, n, id, tp, con))
      && (GetMode(con.activation) == ACT_NULL ==> v == Yes)
      && (GetMode(con.activation) == ACT_NULL || GetMode(con.activation) == ACT_NOW ==> Replaced(y.node, n, id))
  {
    hide ConvertTaiStringToTimePoint, AddTaiStringToTimePoint, Schedule, Cancel, Immediate;
    hide Replaced, Entered, TimeIsPrinted, GetActivationTimePoint, ReadsAs, EntryKept, HasNoEntry;
    var (id, mode) := (y.phase.id, GetMode(y.phase.con.activation));
    var s := y.node.senders[id];
    match mode
    case ACT_NULL =>
      forall t | t in y.node.pending && y.node.pending[t] == id ensures ReadsAs(s.staged.activation, t) {
        OwnEntryIsRead(y, id, t);
      }
      CancelReplaces(y.node, id, s);
    case ACT_NOW => ImmediateReplaces(y.node, id, s, now, sources);
    case ACT_ABSOLUTE => ScheduleReplacesOrEnters(y.node, id, s, ConvertTaiStringToTimePoint(RequestedTime(s.staged.activation)));
    case ACT_RELATIVE => ScheduleReplacesOrEnters(y.node, id, s, AddTaiStringToTimePoint(RequestedTime(s.staged.activation), now));
  }

  lemma CommittingKeepsReplaced(n: Node, n': Node, id: Id)
    requires Replaced(n, n', id)
    ensures Replaced(n, With(n', id, Committed(n'.senders[id])), id)
  {
  }

  // Committing an immediate activation only clears the activation.
  lemma EndReplacesOrEnters(y: System, now: int64, sources: seq<string>)
    requires Inv(y) && y.phase.Written? && y.phase.id in y.node.senders
    ensures
      var n := Ended(y, now, sources).0;
      Replaced(y.node, n, y.phase.id) || exists tp: int64 :: Entered(y.node, n, y.phase.id, tp, y.phase.con)
    ensures GetMode(y.phase.con.activation) == ACT_NULL ==>
      Ended(y, now, sources).1 == Code(200) && Replaced(y.node, Ended(y, now, sources).0, y.phase.id)
  {
    hide Inv, Settled, Replaced, Entered, Committed, GetMode;
    SettlingReplacesOrEnters(y, now, sources);
    var (n, v) := Settled(y.node, y.phase.id, GetMode(y.phase.con.activation), now, sources);
    if v == Yes && y.phase.answer.Some? && GetMode(y.phase.con.activation) == ACT_NOW {
      CommittingKeepsReplaced(y.node, n, y.phase.id);
    }
  }

  lemma SettleKeepsInv(y: System, now: int64, sources: seq<string>)
    requires Inv(y) && Enabled(y, Settle(now, sources))
    ensures Inv(Apply(y, Settle(now, sources)))
  {
    hide Ended, TimeIsPrinted, GetMode, IsScheduled;
    EndReplacesOrEnters(y, now, sources);
    var (id, z) := (y.phase.id, Apply(y, Settle(now, sources)));
    forall t | t in z.node.pending ensures EntryKept(z, t) {
      if t in y.node.pending {
        assert EntryKept(y, t);
      }
    }
    EndKeepsTimes(y, now, sources);
  }

  lemma EndKeepsTimes(y: System, now: int64, sources: seq<string>)
    requires Inv(y) && Enabled(y, Settle(now, sources))
    ensures TimesHold(Ended(y, now, sources).0)
  {
    hide Ended, GetMode, IsScheduled, EntryKept;
    EndReplacesOrEnters(y, now, sources);
  }

  lemma ClearedIsNotScheduled(s: SenderState)
    ensures !IsLocked(Committed(s)) && TimeIsPrinted(Committed(s).staged.activation)
  {
  }

  lemma CommitKeepsInv(y: System)
    requires Inv(y) && Enabled(y, Commit)
    ensures Inv(Apply(y, Commit))
  {
    hide TimeIsPrinted, IsScheduled, GetMode, ClearActivation, PrintedAt, Patch, CheckCopy, Ended, Constraints.Apply, Activated;
    var tp := First(y.node.pending);
    var id := y.node.pending[tp];
    var z := Apply(y, Commit);
    ClearedIsNotScheduled(y.node.senders[id]);
    CommittedHasNoEntry(y);
    assert EntryKept(y, tp);
    forall t | t in z.node.pending ensures EntryKept(z, t) {
      assert EntryKept(y, t);
    }
  }

  lemma CommittedHasNoEntry(z: System)
    requires Inv(z) && Enabled(z, Commit)
    ensures HasNoEntry(Apply(z, Commit).node, z.node.pending[First(z.node.pending)])
  {
    hide Inv, Activated, Committed;
    var tp := First(z.node.pending);
    var id := z.node.pending[tp];
    var n := Apply(z, Commit).node;
    forall t | t in n.pending ensures n.pending[t] != id {
      if z.node.pending[t] == id {
        PendingOnce(z, t, tp);
      }
    }
  }

  lemma ExpireKeepsInv(y: System, sources: seq<string>)
    requires Inv(y) && Enabled(y, Expire(sources))
    ensures Inv(Apply(y, Expire(sources)))
  {
    hide Inv, Activated;
    var id := y.node.pending[First(y.node.pending)];
    ActivatedKeepsStaged(y.node.senders[id], sources);
    AsideKeepsInv(y, id, Activated(y.node.senders[id], sources).0, true);
  }

  // Events that touch neither the staged connections nor the table.
  lemma AsideKeepsInv(y: System, id: Id, s: SenderState, firing: bool)
    requires Inv(y) && id in y.node.senders && s.staged == y.node.senders[id].staged
    ensures Inv(y.(node := With(y.node, id, s), firing := firing))
  {
    hide TimeIsPrinted, IsScheduled, GetMode, PrintedAt;
    var z := y.(node := With(y.node, id, s), firing := firing);
    forall t | t in z.node.pending ensures EntryKept(z, t) {
      assert EntryKept(y, t);
    }
  }

  lemma StepKeepsInv(y: System, e: Event)
    requires Inv(y) && Enabled(y, e)
    ensures Inv(Apply(y, e))
  {
    hide Inv;
    match e
    case Ask(id, patch) => AskKeepsInv(y, id, patch);
    case Check => CheckKeepsInv(y);
    case Answer(answer) => AnswerKeepsInv(y, answer);
    case Settle(now, sources) => SettleKeepsInv(y, now, sources);
    case Expire(sources) => ExpireKeepsInv(y, sources);
    case Commit => CommitKeepsInv(y);
    case Constrain(id, k, change, stream) =>
      AsideKeepsInv(y, id, Apply(y, e).node.senders[id], y.firing);
    case Direct(id, destinations) =>
      AsideKeepsInv(y, id, Apply(y, e).node.senders[id], y.firing);
  }

  lemma {:induction false} RunKeepsInv(y: System, es: seq<Event>, z: System)
    requires Inv(y) && Runs(y, es, z)
    ensures Inv(z)
    decreases |es|
  {
    hide Inv;
    if es != [] {
      StepKeepsInv(y, es[0]);
      RunKeepsInv(Apply(y, es[0]), es[1..], z);
    }
  }

  ghost predicate Unused(a: Object) {
    ACTIVATED_TIME in a && a[ACTIVATED_TIME] == Null
  }

  // Nothing is pending, no request is being served, and no sender has an activation staged.
  ghost predicate Initial(y: System) {
    && y.node.pending == map[] && y.plan == map[] && y.phase == Idle && !y.firing
    && forall id :: id in y.node.senders ==> Unused(y.node.senders[id].staged.activation)
  }

  lemma InitialHolds(y: System)
    requires Initial(y)
    ensures Inv(y)
  {
  }

  // In every reachable state a pending entry belongs to a sender that is staged as planned, in a
  // scheduled mode with exactly that activation time, exactly when no cancellation of that sender is
  // between its overwriting and its removal; then the mode is null already. It is the sender's only
  // entry in either case.
  lemma PendingImpliesScheduled(y: System, es: seq<Event>, z: System, tp: int)
    requires Initial(y) && Runs(y, es, z) && tp in z.node.pending
    ensures EntryHolds(z.node, z.plan, tp) <==> !Cancelling(z, z.node.pending[tp])
    ensures Cancelling(z, z.node.pending[tp]) ==>
      z.node.pending[tp] in z.node.senders && !IsLocked(z.node.senders[z.node.pending[tp]])
    ensures forall u :: u in z.node.pending && z.node.pending[u] == z.node.pending[tp] ==> u == tp
  {
    InitialHolds(y);
    RunKeepsInv(y, es, z);
    assert EntryKept(z, tp);
    forall u | u in z.node.pending && z.node.pending[u] == z.node.pending[tp] ensures u == tp {
      PendingOnce(z, u, tp);
    }
  }

  // ---------- Requests ----------

  // While a sender has an entry, the only requests of it that get as far as the application cancel.
  lemma PendingSenderOnlyCancels(y: System, es: seq<Event>, z: System)
    requires Initial(y) && Runs(y, es, z) && (z.phase.Waiting? || z.phase.Written?) && !HasNoEntry(z.node, z.phase.id)
    ensures GetMode(z.phase.con.activation) == ACT_NULL
  {
    InitialHolds(y);
    RunKeepsInv(y, es, z);
    if z.phase.Waiting? && GetMode(z.phase.con.activation) != ACT_NULL {
      UnlockedHasNoEntry(z, z.phase.id);
    }
  }

  // The lock answers with 423, and exactly when nothing else is wrong with a request that would
  // schedule or activate.
  lemma LockRefusesExactly(s: SenderState, patch: Json)
    requires WellFormed(s.staged)
    ensures CheckRequest(s, patch) == Reject(Code(423)) <==>
      && IsLocked(s) && Patch(s.staged, patch).Accepted?
      && Constraints.AllMeet(s.constraints, Patch(s.staged, patch).value.params)
      && GetMode(Patch(s.staged, patch).value.activation) != ACT_NULL
  {
    hide Patch, Constraints.AllMeet, Constraints.Check, GetMode, WellFormed, Params.WellFormed;
    if Patch(s.staged, patch).Accepted? {
      PatchKeepsShape(s.staged, patch);
      WellFormedEach(Patch(s.staged, patch).value);
      Constraints.CheckMeans(s.constraints, Patch(s.staged, patch).value.params);
    }
  }

  // A request that is refused and not for the lock: for its patch, or for the first parameter of the
  // copy that does not meet its constraint. The reply is 400, or the exception that escapes. Without a
  // table for each stream it is 400.
  lemma RefusalIsCaused(s: SenderState, patch: Json) returns (i: nat, n: nat)
    requires CheckRequest(s, patch).Reject? && CheckRequest(s, patch).reply != Code(423)
    ensures
      var p := Patch(s.staged, patch);
      CheckRequest(s, patch).reply ==
        match p
        case Refused => Code(400)
        case Escaped => Exception
        case Accepted(con) =>
          if Constraints.FirstFailure(s.constraints, con.params, i, n)
             && Constraints.Meets(s.constraints[i], Constraints.KeyOrder[n], con.params[i][Constraints.KeyOrder[n]]) == Throws then Exception else Code(400)
    ensures Patch(s.staged, patch).Accepted? && |s.constraints| == |s.staged.params| ==>
      Constraints.FirstFailure(s.constraints, Patch(s.staged, patch).value.params, i, n)
  {
    hide Patch, GetMode, Constraints.Meets, Constraints.KeyOrder, Constraints.CheckStreams;
    hide FollowsStream, FollowsJson, FollowsActivation;
    i, n := 0, 0;
    if Patch(s.staged, patch).Accepted? {
      var con := Patch(s.staged, patch).value;
      PatchFollows(s.staged, patch);
      if |s.constraints| == |con.params| {
        i, n := Constraints.FirstFailureDecides(s.constraints, con.params);
      }
    }
  }

  lemma WellFormedEach(c: Connection)
    requires WellFormed(c)
    ensures forall i :: 0 <= i < |c.params| ==> Params.WellFormed(c.params[i])
  {
  }

  // An accepted cancellation never fails and leaves its sender without an entry.
  lemma CancelledHasNoEntry(y: System, es: seq<Event>, z: System, now: int64, sources: seq<string>)
    requires Initial(y) && Runs(y, es, z) && Enabled(z, Settle(now, sources)) && GetMode(z.phase.con.activation) == ACT_NULL
    ensures HasNoEntry(Apply(z, Settle(now, sources)).node, z.phase.id)
    ensures Ended(z, now, sources).1 == Code(200)
  {
    InitialHolds(y);
    RunKeepsInv(y, es, z);
    EndReplacesOrEnters(z, now, sources);
    hide Ended, Inv;
  }

  // But it may come too late: between the overwriting and the removal the entry can fire, and what
  // becomes active then is the cancelling request. It is still answered 200.
  lemma CancellationMayFire(y: System, e: Event, m: System, sources: seq<string>, now: int64, more: seq<string>)
    requires e.Answer? && Enabled(y, e) && m == Apply(y, e)
    requires Enabled(m, Expire(sources)) && Cancelling(m, m.node.pending[First(m.node.pending)])
    requires Inv(y)
    ensures m.phase.id in m.node.senders && !IsLocked(m.node.senders[m.phase.id]) && BecomesActive(m, sources, y.phase.con)
    ensures
      var z := Apply(m, Expire(sources));
      Enabled(z, Commit) && Enabled(Apply(z, Commit), Settle(now, more)) && Ended(Apply(z, Commit), now, more).1 == Code(200)
  {
    hide Ended, Inv, Activated, Committed, Agreed, GetMode, MakesActive, CannotActivate, Patch, CheckCopy;
    StepKeepsInv(y, e);
    StepKeepsInv(m, Expire(sources));
    var z := Apply(m, Expire(sources));
    StepKeepsInv(z, Commit);
    EndReplacesOrEnters(Apply(z, Commit), now, more);
    ActivatedMakesActive(m.node.senders[y.phase.id], sources);
  }

  // The head's sender is activated and its active connection is made from c.
  ghost predicate BecomesActive(z: System, sources: seq<string>, c: Connection) {
    Enabled(z, Expire(sources)) &&
    var id := z.node.pending[First(z.node.pending)];
    var n := Apply(z, Expire(sources)).node;
    id in n.senders && MakesActive(z.node.senders[id], n.senders[id], c, sources)
  }

  // The source address of stream i: the given one where the sender has none of its own and there is
  // one for each stream.
  function SourceOf(s: SenderState, sources: seq<string>, i: nat): string
    requires i < |s.ips|
  {
    if |sources| == |s.ips| && s.ips[i].0 == "" then sources[i] else s.ips[i].0
  }

  // From s to t the connection c is made active: its json as it is, and its parameters stream by
  // stream settled on the addresses of that moment, when there are addresses for each stream. The
  // addresses are remembered and the subscription follows.
  ghost predicate MakesActive(s: SenderState, t: SenderState, c: Connection, sources: seq<string>) {
    && t.active.json == c.json && |t.active.params| == |c.params|
    && (if |s.ips| != |c.params| then t.active.params == c.params
        else forall i :: 0 <= i < |c.params| ==>
          SettledFrom(t.active.params[i], c.params[i], SourceOf(s, sources, i), s.ips[i].1))
    && |t.ips| == |s.ips| && (forall i :: 0 <= i < |s.ips| ==> t.ips[i] == (SourceOf(s, sources, i), s.ips[i].1))
    && Subscribed(t, c) && !t.activateAllowed
  }

  // The subscription follows the connection: a receiver, when it names one and is enabled.
  ghost predicate Subscribed(s: SenderState, c: Connection) {
    && s.sending == (GetBool(c.json, MASTER_ENABLE) == Some(true) && GetString(c.json, RECEIVER_ID).Some?)
    && s.receiverId == (if s.sending then GetString(c.json, RECEIVER_ID).value else "")
    && (At(c.json, MASTER_ENABLE) == Bool(false) ==> !s.sending && s.receiverId == "")
    && (At(c.json, MASTER_ENABLE) == Bool(true) && At(c.json, RECEIVER_ID).Str? ==>
          s.sending && s.receiverId == c.json[RECEIVER_ID].s)
  }

  // Some stream of c cannot be actualized, and there are addresses for each.
  predicate CannotActivate(s: SenderState, c: Connection) {
    |s.ips| == |c.params| && exists i :: 0 <= i < |c.params| && !Params.Actualizable(c.params[i])
  }

  // An activation makes active what is staged, or throws, exactly when some stream of it cannot be
  // actualized.
  lemma ActivatedMakesActive(s: SenderState, sources: seq<string>)
    ensures
      var (t, threw) := Activated(s, sources);
      && (threw <==> CannotActivate(s, s.staged)) && t.staged == s.staged && t.constraints == s.constraints
      && (!threw ==> MakesActive(s, t, s.staged, sources) && t.active.activation == s.staged.activation)
  {
    hide Actualize, Params.Actualizable, SettledFrom, FilledIps;
    FilledMeans(s, sources);
    var ips := FilledIps(s.ips, sources);
    if |ips| == |s.staged.params| {
      ActualizedStreamsSettle(s.staged.params, ips);
    } else {
      NoAddressesNoChange(s.staged.params, ips);
    }
  }

  // One that throws has copied the staged connection and written its streams up to the first that
  // cannot be actualized; the subscription is as it was.
  lemma ThrownActivationLeaves(s: SenderState, sources: seq<string>)
    requires CannotActivate(s, s.staged)
    ensures
      var t := Activated(s, sources).0;
      var c := s.staged;
      && t == s.(activateAllowed := false, active := t.active, ips := t.ips)
      && t.active.json == c.json && t.active.activation == c.activation && |t.active.params| == |c.params|
      && forall i :: 0 <= i < |c.params| ==>
           if Reached(c.params, i) then WrittenOver(t.active.params[i], c.params[i], SourceOf(s, sources, i), s.ips[i].1)
           else t.active.params[i] == c.params[i]
  {
    hide ActualizeStreams, Params.Actualizable, WrittenOver, FilledIps;
    FilledMeans(s, sources);
    StreamsAreWritten(s.staged.params, FilledIps(s.ips, sources));
  }

  lemma FilledMeans(s: SenderState, sources: seq<string>)
    ensures var ips := FilledIps(s.ips, sources);
      |ips| == |s.ips| && forall i :: 0 <= i < |ips| ==> ips[i] == (SourceOf(s, sources, i), s.ips[i].1)
  {
  }

  // The application's destinations, when there is one for each stream, replace the old ones.
  lemma DirectingTakesEffect(y: System, id: Id, destinations: seq<string>)
    requires Enabled(y, Direct(id, destinations))
    ensures
      var s := y.node.senders[id];
      var z := Apply(y, Direct(id, destinations));
      var t := z.node.senders[id];
      && t == s.(ips := t.ips) && OnlyTouches(y.node, z.node, id) && z.node.pending == y.node.pending && |t.ips| == |s.ips|
      && forall i :: 0 <= i < |s.ips| ==>
           t.ips[i] == (s.ips[i].0, if |destinations| == |s.ips| then destinations[i] else s.ips[i].1)
  {
    hide Ended, Activates, Commits;
  }

  // A registered constraint changes the tables of its sender that it reaches, and nothing else.
  lemma ConstrainingTakesEffect(y: System, id: Id, k: Key, change: Constraints.Change, stream: Option<nat>)
    requires Enabled(y, Constrain(id, k, change, stream))
    ensures
      var s := y.node.senders[id];
      var z := Apply(y, Constrain(id, k, change, stream));
      var t := z.node.senders[id];
      && t == s.(constraints := t.constraints) && OnlyTouches(y.node, z.node, id) && z.node.pending == y.node.pending
      && |t.constraints| == |s.constraints|
      && forall i :: 0 <= i < |s.constraints| ==>
           if Constraints.IsReached(s.constraints, k, stream, i)
           then k in t.constraints[i] && t.constraints[i] == s.constraints[i][k := t.constraints[i][k]]
                && Constraints.IsChanged(t.constraints[i][k], s.constraints[i][k], change)
           else t.constraints[i] == s.constraints[i]
  {
    hide Ended, Activates, Commits, Constraints.Apply, Constraints.IsChanged, Constraints.IsReached;
    Constraints.ApplyMeans(y.node.senders[id].constraints, k, change, stream);
  }

  lemma NoAddressesNoChange(params: seq<Object>, ips: seq<(string, string)>)
    requires |params| != |ips|
    ensures !Actualize(params, ips).threw && Actualize(params, ips).params == params
  {
  }

  // What a scheduling request's time reads as.
  function TimeAsked(c: Connection, now: int64): Reading {
    if GetMode(c.activation) == ACT_ABSOLUTE then ConvertTaiStringToTimePoint(RequestedTime(c.activation))
    else AddTaiStringToTimePoint(RequestedTime(c.activation), now)
  }

  // The table is keyed by instant, so a scheduling request that is accepted, absolute or relative, is
  // answered 202 (200 when there is no application) and locks its sender, but gets its entry exactly
  // when no entry has that instant yet.
  lemma ScheduledIsPendingIffInstantIsFree(y: System, now: int64, sources: seq<string>, tp: int64)
    requires Inv(y) && Enabled(y, Settle(now, sources)) && IsScheduled(y.phase.con)
    requires TimeAsked(y.phase.con, now) == Instant(tp)
    ensures
      var n := Apply(y, Settle(now, sources)).node;
      && Ended(y, now, sources).1 == Code(if y.phase.answer == None then 200 else 202)
      && IsLocked(n.senders[y.phase.id])
      && (tp !in y.node.pending <==> !HasNoEntry(n, y.phase.id))
  {
    hide Ended, TimeAsked, GetMode, IsLocked, EntriesKept, TimesHold;
    SchedulingAdds(y, now, sources, tp);
    var (id, n) := (y.phase.id, Apply(y, Settle(now, sources)).node);
    if tp !in y.node.pending {
      assert tp in n.pending && n.pending[tp] == id;
    }
  }

  lemma SchedulingAdds(y: System, now: int64, sources: seq<string>, tp: int64)
    requires Enabled(y, Settle(now, sources)) && IsScheduled(y.phase.con)
    requires y.node.senders[y.phase.id].staged == y.phase.con && TimeAsked(y.phase.con, now) == Instant(tp)
    ensures
      var (n, reply) := Ended(y, now, sources);
      && reply == Code(if y.phase.answer == None then 200 else 202)
      && IsLocked(n.senders[y.phase.id]) && n.pending == Activator.Added(y.node.pending, tp, y.phase.id)
  {
    hide ConvertTaiStringToTimePoint, AddTaiStringToTimePoint, SetActivationTime, GetMode, RequestedTime;
    hide Cancel, Immediate, Committed, Activator.Added;
    SettingKeepsMode(y.phase.con.activation, tp);
  }

  lemma SettingKeepsMode(a: Object, tp: int64)
    ensures GetMode(SetActivationTime(a, tp)) == GetMode(a)
  {
  }

  // ---------- What the end of a request leaves ----------

  // The staged connection c with the activation time set.
  function Timed(c: Connection, time: Json): Connection {
    c.(activation := c.activation[ACTIVATED_TIME := time])
  }

  // A scheduling request leaves its sender with just what it asked for and the time it is due.
  lemma SchedulingTakesEffect(y: System, now: int64, sources: seq<string>, tp: int64)
    requires Inv(y) && Enabled(y, Settle(now, sources)) && IsScheduled(y.phase.con)
    requires TimeAsked(y.phase.con, now) == Instant(tp)
    ensures
      var s := y.node.senders[y.phase.id];
      Apply(y, Settle(now, sources)).node.senders[y.phase.id]
      == s.(activateAllowed := true, staged := Timed(y.phase.con, Str(ConvertTimeToString(tp, true))))
  {
    hide ConvertTaiStringToTimePoint, AddTaiStringToTimePoint, GetMode, RequestedTime, ConvertTimeToString;
    hide Cancel, Immediate, Committed, Activator.Added, EntriesKept, TimesHold, Activates;
  }

  // A cancellation only clears the activation time that is staged then.
  lemma CancellingTakesEffect(y: System, now: int64, sources: seq<string>)
    requires Inv(y) && Enabled(y, Settle(now, sources)) && GetMode(y.phase.con.activation) == ACT_NULL
    ensures
      var s := y.node.senders[y.phase.id];
      && (s.staged == y.phase.con || s.staged == Cleared(y.phase.con))
      && Ended(y, now, sources).0.senders[y.phase.id] == s.(activateAllowed := false, staged := Timed(s.staged, Null))
  {
    hide ConvertTaiStringToTimePoint, AddTaiStringToTimePoint, GetMode, RequestedTime, ConvertTimeToString;
    hide Immediate, Schedule, Committed, Activator.Removed, EntriesKept, Activates, GetActivationTimePoint;
    var s := y.node.senders[y.phase.id];
    ActivationTimeReads(s.staged.activation);
    if GetActivationTimePoint(s.staged.activation) == NoInstant {
      UnreadIsNull(s.staged.activation);
    }
    assert s.staged.activation[ACTIVATED_TIME] == Null ==> s.staged == Timed(s.staged, Null);
  }

  lemma UnreadIsNull(a: Object)
    requires TimeIsPrinted(a) && GetActivationTimePoint(a) == NoInstant
    ensures a[ACTIVATED_TIME] == Null
  {
    hide GetActivationTimePoint, ConvertTimeToString;
    ActivationTimeReads(a);
  }

  // The instant 37 s, the leap seconds, after now.
  function TaiNow(now: int64): int64 {
    Wrap64(now + 37_000_000_000)
  }

  // An immediate request makes its connection active, unless an accessor throws. The table stays as it
  // is. With an application all of the staged activation is cleared afterwards; without one its mode
  // stays and it has the time of the activation. It never locks.
  lemma ImmediateTakesEffect(y: System, now: int64, sources: seq<string>)
    requires Inv(y) && Enabled(y, Settle(now, sources)) && At(y.phase.con.activation, MODE) == Str("activate_immediate")
    ensures
      var s, con := y.node.senders[y.phase.id], y.phase.con;
      var (n, reply) := Ended(y, now, sources);
      var t := n.senders[y.phase.id];
      var timed := Timed(con, Str(ConvertTimeToString(TaiNow(now), true)));
      && s.staged == con && n.pending == y.node.pending && HasNoEntry(n, y.phase.id) && !IsLocked(t)
      && (if CannotActivate(s, con) then reply == Exception
          else
            && reply == Code(200) && MakesActive(s, t, con, sources) && t.active.activation == timed.activation
            && if y.phase.answer.Some? then ClearedFrom(t.staged, con) else t.staged == timed)
  {
    hide EntriesKept, TimesHold, Activates, Activated, MakesActive, CannotActivate, ConvertTimeToString, Committed, ClearedFrom;
    hide Cancel, Schedule, RequestedTime;
    var (id, con) := (y.phase.id, y.phase.con);
    var s := y.node.senders[id];
    ModeIsRead(con.activation);
    var a := WithActivation(s, SetActivationTime(con.activation, TaiNow(now)));
    var t := Activated(a, sources).0;
    ActivatedMakesActive(a, sources);
    TimeMakesNoDifference(s, a, t, con, sources);
    CommittedKeepsActive(s, t, con, sources);
    TimingKeepsMode(con, TaiNow(now));
  }

  lemma TimingKeepsMode(c: Connection, tp: int64)
    ensures GetMode(SetActivationTime(c.activation, tp)) == GetMode(c.activation)
    ensures c.(activation := SetActivationTime(c.activation, tp)) == Timed(c, Str(ConvertTimeToString(tp, true)))
  {
    hide ConvertTimeToString;
  }

  // What is made active does not depend on the staged activation of the sender.
  lemma TimeMakesNoDifference(s: SenderState, a: SenderState, t: SenderState, c: Connection, sources: seq<string>)
    requires a == s.(staged := a.staged) && a.staged.json == c.json && a.staged.params == c.params
    ensures CannotActivate(a, a.staged) <==> CannotActivate(s, c)
    ensures MakesActive(a, t, a.staged, sources) ==> MakesActive(s, t, c, sources)
  {
    hide SettledFrom, Params.Actualizable;
  }

  // The activation object with mode, requested time and activation time null.
  ghost predicate ClearedFrom(d: Connection, c: Connection) {
    && d == c.(activation := d.activation)
    && d.activation.Keys == c.activation.Keys + {MODE, REQUESTED_TIME, ACTIVATED_TIME}
    && forall k :: k in d.activation ==>
         d.activation[k] == if k in {MODE, REQUESTED_TIME, ACTIVATED_TIME} then Null else c.activation[k]
  }

  lemma CommittedKeepsActive(s: SenderState, t: SenderState, c: Connection, sources: seq<string>)
    requires t.staged.json == c.json && t.staged.params == c.params
    requires t.staged.activation == c.activation[ACTIVATED_TIME := At(t.staged.activation, ACTIVATED_TIME)]
    ensures MakesActive(s, t, c, sources) ==> MakesActive(s, Committed(t), c, sources)
    ensures ClearedFrom(Committed(t).staged, c) && Committed(t).active == t.active && !IsLocked(Committed(t))
  {
    hide SettledFrom;
  }

  // A request refused with 500 for its time has been staged all the same.
  lemma InvalidTimeIsStaged(n: Node, id: Id, con: Connection, answer: Option<int>, now: int64, sources: seq<string>)
    requires id in n.senders && Agreed(answer) && IsScheduled(con) && TimeAsked(con, now) == NoInstant
    ensures
      var (n', reply) := Finish(n, id, con, answer, now, sources);
      && reply == Code(500) && n' == Overwritten(n, id, con) && IsLocked(n'.senders[id])
  {
    hide ConvertTaiStringToTimePoint, AddTaiStringToTimePoint;
  }

  // Only a scheduling request is answered 500 once the application has agreed.
  lemma InvalidTimeOnly(n: Node, id: Id, con: Connection, answer: Option<int>, now: int64, sources: seq<string>)
    requires id in n.senders && Agreed(answer) && Finish(n, id, con, answer, now, sources).1 == Code(500)
    ensures IsScheduled(con) && TimeAsked(con, now) == NoInstant
  {
    hide ConvertTaiStringToTimePoint, AddTaiStringToTimePoint, Activated, GetActivationTimePoint, SetActivationTime, Committed;
    hide RequestedTime, RemoveActivationTime, Activator.Added, Activator.Removed, GetString;
  }

  // A request that passed is answered 500 exactly when the application refused it or it schedules for a
  // time that does not read.
  lemma AnsweredWith500Exactly(n: Node, id: Id, con: Connection, answer: Option<int>, now: int64, sources: seq<string>)
    requires id in n.senders
    ensures Finish(n, id, con, answer, now, sources).1 == Code(500) <==>
      (answer.Some? && answer != Some(202)) || (IsScheduled(con) && TimeAsked(con, now) == NoInstant)
  {
    hide Stage, TimeAsked, GetMode, Closed;
    if Agreed(answer) {
      if IsScheduled(con) && TimeAsked(con, now) == NoInstant {
        InvalidTimeIsStaged(n, id, con, answer, now, sources);
      } else if Finish(n, id, con, answer, now, sources).1 == Code(500) {
        InvalidTimeOnly(n, id, con, answer, now, sources);
      }
    }
  }

  // One that the application agreed to escapes exactly when its activation throws or a time overflows.
  lemma FinishEscapesExactly(n: Node, id: Id, con: Connection, answer: Option<int>, now: int64, sources: seq<string>)
    requires id in n.senders && Agreed(answer)
    ensures Finish(n, id, con, answer, now, sources).1 == Exception <==>
      match GetMode(con.activation)
      case ACT_NULL => GetActivationTimePoint(con.activation) == Thrown
      case ACT_NOW => CannotActivate(n.senders[id], con)
      case _ => TimeAsked(con, now) == Thrown
  {
    hide ConvertTaiStringToTimePoint, AddTaiStringToTimePoint, Activated, GetActivationTimePoint, SetActivationTime, Committed;
    hide RequestedTime, RemoveActivationTime, Activator.Added, Activator.Removed, GetString, CannotActivate;
    if GetMode(con.activation) == ACT_NOW {
      var s := n.senders[id].(staged := con);
      var timed := WithActivation(s, SetActivationTime(con.activation, Wrap64(now + LEAP)));
      ActivatedMakesActive(timed, sources);
      SameStreamsActivate(timed, n.senders[id], con);
    }
  }

  lemma SameStreamsActivate(t: SenderState, s: SenderState, c: Connection)
    requires t.staged.params == c.params && t.ips == s.ips
    ensures CannotActivate(t, t.staged) <==> CannotActivate(s, c)
  {
    hide Params.Actualizable;
  }

  // A 500 leaves the node as it was exactly when the application refused or the sender held just
  // that already.
  lemma RefusedWith500Exactly(n: Node, id: Id, con: Connection, answer: Option<int>, now: int64, sources: seq<string>)
    requires id in n.senders && Finish(n, id, con, answer, now, sources).1 == Code(500)
    ensures Finish(n, id, con, answer, now, sources).0 == n <==> !Agreed(answer) || n.senders[id].staged == con
  {
    hide Stage, TimeAsked, GetMode, Closed;
    if Agreed(answer) {
      InvalidTimeOnly(n, id, con, answer, now, sources);
      InvalidTimeIsStaged(n, id, con, answer, now, sources);
      if n.senders[id].staged == con {
        assert Overwritten(n, id, con).senders == n.senders;
      }
    }
  }

  // The latter never is the case of a request that passed the lock: in a run, an invalid time always
  // leaves its sender locked with nothing pending.
  lemma InvalidTimeLocks(y: System, now: int64, sources: seq<string>)
    requires Inv(y) && y.phase.Waiting? && y.phase.id in y.node.senders
    requires Finish(y.node, y.phase.id, y.phase.con, Some(202), now, sources).1 == Code(500)
    ensures var n := Finish(y.node, y.phase.id, y.phase.con, Some(202), now, sources).0;
      n != y.node && IsLocked(n.senders[y.phase.id]) && HasNoEntry(n, y.phase.id)
  {
    hide Finish, TimeAsked, EntriesKept, TimesHold, TimeIsPrinted;
    var (id, con) := (y.phase.id, y.phase.con);
    InvalidTimeOnly(y.node, id, con, Some(202), now, sources);
    InvalidTimeIsStaged(y.node, id, con, Some(202), now, sources);
    UnlockedHasNoEntry(y, id);
  }

  // A request that is refused, here or by the application, changes nothing but how far it has come.
  lemma RefusedChangesNothing(y: System, e: Event)
    requires Enabled(y, e)
    requires (e.Ask? && !Patch(y.node.senders[e.id].staged, e.patch).Accepted?)
          || (e.Check? && CheckCopy(y.node.senders[y.phase.id], y.phase.con).Reject?)
          || (e.Answer? && !Agreed(e.answer))
    ensures Apply(y, e).node == y.node && Apply(y, e).plan == y.plan && Apply(y, e).phase == Idle
  {
  }

  // A copy that passes meets every constraint registered at that moment.
  lemma PassedMeetsConstraints(s: SenderState, con: Connection)
    requires WellFormed(con) && CheckCopy(s, con).Pass?
    ensures CheckCopy(s, con).con == con && Constraints.AllMeet(s.constraints, con.params)
  {
    hide Constraints.Check, Constraints.AllMeet, GetMode;
    WellFormedEach(con);
    Constraints.CheckMeans(s.constraints, con.params);
  }

  // ---------- When an entry goes ----------

  // The request that is written cancels, and tp is the time it finds staged.
  predicate Removes(y: System, tp: int) {
    y.phase.Written? && y.phase.id in y.node.senders && GetMode(y.phase.con.activation) == ACT_NULL
    && ReadsAs(y.node.senders[y.phase.id].staged.activation, tp)
  }

  // An entry is never changed. It goes exactly when it is the head and has fired, or a cancellation finds
  // its time staged and it is that sender's own or the head.
  lemma EntryLeavesExactly(y: System, e: Event, tp: int)
    requires Enabled(y, e) && tp in y.node.pending
    ensures
      var p := Apply(y, e).node.pending;
      && (tp in p ==> p[tp] == y.node.pending[tp])
      && (tp !in p <==>
            || (e.Commit? && tp == First(y.node.pending))
            || (e.Settle? && Removes(y, tp) && (y.phase.id == y.node.pending[tp] || tp == First(y.node.pending))))
  {
    hide Ended, Removes, Activated, Committed, Patch, CheckCopy, Constraints.Apply, DirectedIps;
    if e.Settle? {
      SettlingRemovesExactly(y, e.now, e.sources, tp);
    }
  }

  lemma SettlingRemovesExactly(y: System, now: int64, sources: seq<string>, tp: int)
    requires Enabled(y, Settle(now, sources)) && tp in y.node.pending
    ensures
      var p := Ended(y, now, sources).0.pending;
      && (tp in p ==> p[tp] == y.node.pending[tp])
      && (tp !in p <==> Removes(y, tp) && (y.phase.id == y.node.pending[tp] || tp == First(y.node.pending)))
  {
    hide OnlyTouches, Agreed;
    hide ConvertTaiStringToTimePoint, AddTaiStringToTimePoint, Cancel, Immediate, Schedule, GetMode, RequestedTime, ReadsAs, Committed;
    hide Patch, CheckCopy;
    var (n, id) := (y.node, y.phase.id);
    CancelRemovesExactly(n, id, n.senders[id], tp);
    OthersRemoveNothing(n, id, n.senders[id], now, sources);
  }

  lemma OthersRemoveNothing(n: Node, id: Id, s: SenderState, now: int64, sources: seq<string>)
    requires id in n.senders
    ensures Immediate(n, id, s, now, sources).0.pending == n.pending
    ensures forall at :: var p := Schedule(n, id, s, at).0.pending;
      forall t :: t in n.pending ==> t in p && p[t] == n.pending[t]
  {
    hide Activated, SetActivationTime;
  }

  lemma CancelRemovesExactly(n: Node, id: Id, s: SenderState, tp: int)
    requires id in n.senders && tp in n.pending
    ensures
      var p := Cancel(n, id, s).0.pending;
      && (tp in p ==> p[tp] == n.pending[tp])
      && (tp !in p <==> ReadsAs(s.staged.activation, tp) && (id == n.pending[tp] || tp == First(n.pending)))
  {
    hide GetActivationTimePoint, RemoveActivationTime;
  }

  // So a request takes the entry of another sender exactly when it cancels, finds the head's time
  // staged and the head is not its own. The other sender stays locked and will not fire.
  lemma AnotherIsTakenExactly(y: System, now: int64, sources: seq<string>, tp: int)
    requires Inv(y) && Enabled(y, Settle(now, sources)) && tp in y.node.pending && y.node.pending[tp] != y.phase.id
    ensures
      var n := Apply(y, Settle(now, sources)).node;
      && (tp !in n.pending <==> Removes(y, tp) && tp == First(y.node.pending))
      && y.node.pending[tp] in n.senders && IsLocked(n.senders[y.node.pending[tp]])
      && (tp !in n.pending ==> HasNoEntry(n, y.node.pending[tp]))
  {
    var b := y.node.pending[tp];
    EntryLeavesExactly(y, Settle(now, sources), tp);
    assert EntryKept(y, tp);
    var n := Ended(y, now, sources).0;
    EndReplacesOrEnters(y, now, sources);
    hide Ended, GetMode, TimesHold, Removes;
    if tp !in n.pending {
      forall t | t in n.pending ensures n.pending[t] != b {
        if t in y.node.pending && y.node.pending[t] == b {
          PendingOnce(y, t, tp);
        }
      }
    }
  }

  // ---------- What fires is what was scheduled ----------

  ghost predicate EntryIs(y: System, tp: int, p: (Id, Connection)) {
    tp in y.node.pending && tp in y.plan && y.plan[tp] == p
  }

  // The entry is there in every state along the events.
  ghost predicate Stays(y: System, es: seq<Event>, tp: int, p: (Id, Connection))
    decreases |es|
  {
    EntryIs(y, tp, p) && (es == [] || (Enabled(y, es[0]) && Stays(Apply(y, es[0]), es[1..], tp, p)))
  }

  // The plan's p is the scheduling request that is being served, up to its activation object.
  predicate IsRequest(f: Phase, p: (Id, Connection)) {
    f.Written? && f.id == p.0 && Agreed(f.answer) && IsScheduled(f.con) && f.con.params == p.1.params && f.con.json == p.1.json
  }

  // Event i ends the request p in x, which asked for tp and makes the entry; the entry is there ever
  // since.
  ghost predicate ScheduledBy(y: System, es: seq<Event>, i: nat, x: System, tp: int, p: (Id, Connection)) {
    && i < |es| && Runs(y, es[..i], x) && es[i].Settle? && Enabled(x, es[i])
    && IsRequest(x.phase, p) && TimeIs(x.phase.con, es[i].now, tp)
    && tp !in x.node.pending && HasNoEntry(x.node, p.0)
    && Apply(x, es[i]).node.pending == x.node.pending[tp := p.0]
    && Stays(Apply(x, es[i]), es[i + 1..], tp, p)
  }

  predicate TimeIs(c: Connection, now: int64, tp: int) {
    var r := TimeAsked(c, now);
    r.Instant? && r.tp == tp
  }

  lemma OnlyInstantsEnter(y: System, now: int64, sources: seq<string>)
    requires Enabled(y, Settle(now, sources)) && IsScheduled(y.phase.con)
    requires y.node.senders[y.phase.id].staged == y.phase.con && !TimeAsked(y.phase.con, now).Instant?
    ensures Ended(y, now, sources).0.pending == y.node.pending
  {
    hide ConvertTaiStringToTimePoint, AddTaiStringToTimePoint, GetMode, RequestedTime, Activates;
  }

  lemma EnteredAsAsked(y: System, now: int64, sources: seq<string>, tp: int64)
    requires Inv(y) && Enabled(y, Settle(now, sources))
    requires Entered(y.node, Ended(y, now, sources).0, y.phase.id, tp, y.phase.con)
    ensures TimeIs(y.phase.con, now, tp)
  {
    hide Ended, TimeAsked, GetMode, TimesHold, EntriesKept, TimeIsPrinted, Activates;
    var r := TimeAsked(y.phase.con, now);
    assert tp in Ended(y, now, sources).0.pending;
    if r.Instant? {
      SchedulingAdds(y, now, sources, r.tp);
    } else {
      OnlyInstantsEnter(y, now, sources);
    }
  }

  // Only the end of a request brings an entry into the plan, its own.
  lemma NewEntryIsTheRequest(y: System, e: Event, tp: int, p: (Id, Connection))
    requires Inv(y) && Enabled(y, e) && EntryIs(Apply(y, e), tp, p) && !EntryIs(y, tp, p)
    ensures e.Settle? && IsRequest(y.phase, p) && TimeIs(y.phase.con, e.now, tp)
    ensures tp !in y.node.pending && HasNoEntry(y.node, p.0) && Apply(y, e).node.pending == y.node.pending[tp := p.0]
  {
    hide Ended, Activated, Patch, CheckCopy, TimeAsked, TimeIs, IsScheduled, TimeIsPrinted, TimesHold, PrintedAt, EntryKept;
    if e.Settle? {
      EndReplacesOrEnters(y, e.now, e.sources);
      var n := Ended(y, e.now, e.sources).0;
      if !Replaced(y.node, n, y.phase.id) {
        var u: int64 :| Entered(y.node, n, y.phase.id, u, y.phase.con);
        EnteredAsAsked(y, e.now, e.sources, u);
      }
    }
  }

  lemma {:induction false} PlanOrigin(y: System, es: seq<Event>, z: System, tp: int) returns (i: nat, x: System)
    requires Inv(y) && Runs(y, es, z) && tp in z.plan
    ensures Stays(y, es, tp, z.plan[tp]) || ScheduledBy(y, es, i, x, tp, z.plan[tp])
    decreases |es|
  {
    hide Inv, IsRequest, Enabled, Apply, EntryKept, TimeIs, HasNoEntry;
    i, x := 0, y;
    if es == [] {
      PlannedIsPending(y);
    } else {
      var (p, y') := (z.plan[tp], Apply(y, es[0]));
      StepKeepsInv(y, es[0]);
      i, x := PlanOrigin(y', es[1..], z, tp);
      if ScheduledBy(y', es[1..], i, x, tp, p) {
        assert es[..i + 1][1..] == es[1..][..i] && es[..i + 1][0] == es[0] && es[1..][i + 1..] == es[i + 2..];
        i := i + 1;
        assert Runs(y, es[..i], x);
      } else if !EntryIs(y, tp, p) {
        NewEntryIsTheRequest(y, es[0], tp, p);
        i, x := 0, y;
        assert es[..0] == [];
      }
    }
  }

  lemma PlannedIsPending(y: System)
    requires Inv(y)
    ensures y.plan.Keys == y.node.pending.Keys
  {
  }

  // The request that is being served in z was sent as event j of the run, against what was staged in w.
  ghost predicate SentAs(y: System, es: seq<Event>, z: System, j: nat, w: System) {
    && !z.phase.Idle? && j < |es| && Runs(y, es[..j], w) && es[j].Ask? && es[j].id == z.phase.id
    && es[j].id in w.node.senders && Follows(z.phase.con, w.node.senders[es[j].id].staged, es[j].patch)
  }

  lemma AskFollows(y: System, id: Id, patch: Json)
    requires Enabled(y, Ask(id, patch))
    ensures var f := Apply(y, Ask(id, patch)).phase;
      !f.Idle? ==> f.Copied? && f.id == id && Follows(f.con, y.node.senders[id].staged, patch)
  {
    hide Patch, Follows, Ended, Activates;
    if Patch(y.node.senders[id].staged, patch).Accepted? {
      PatchFollows(y.node.senders[id].staged, patch);
    }
  }

  // No other event changes the request that is being served, except that it may end.
  lemma OthersKeepRequest(y: System, e: Event)
    requires Enabled(y, e) && !e.Ask?
    ensures var f := Apply(y, e).phase; f.Idle? || (!y.phase.Idle? && f.id == y.phase.id && f.con == y.phase.con)
  {
    hide CheckCopy, Ended, Activates, Commits, Agreed, Overwritten, Constraints.Apply, DirectedIps;
  }

  // Whatever is being served is the request the run started with, or one that it was sent.
  lemma {:induction false} RequestWasSent(y: System, es: seq<Event>, z: System) returns (j: nat, w: System)
    requires Runs(y, es, z) && !z.phase.Idle?
    ensures (!y.phase.Idle? && z.phase.id == y.phase.id && z.phase.con == y.phase.con) || SentAs(y, es, z, j, w)
    decreases |es|
  {
    hide Enabled, Apply, Follows;
    j, w := 0, y;
    if es != [] {
      var y' := Apply(y, es[0]);
      j, w := RequestWasSent(y', es[1..], z);
      if SentAs(y', es[1..], z, j, w) {
        assert es[..j + 1][1..] == es[1..][..j] && es[..j + 1][0] == es[0];
        j := j + 1;
        assert Runs(y, es[..j], w);
      } else if es[0].Ask? {
        AskedIsEnabled(y, es[0].id, es[0].patch);
        AskFollows(y, es[0].id, es[0].patch);
        j, w := 0, y;
        assert es[..0] == [];
      } else {
        OthersKeepRequest(y, es[0]);
      }
    }
  }

  lemma AskedIsEnabled(y: System, id: Id, patch: Json)
    requires Enabled(y, Ask(id, patch))
    ensures y.phase.Idle? && id in y.node.senders
  {
  }

  // Over every run: when the head of the table fires, some earlier accepted request asked for that
  // instant, made the entry, and the entry has been there since. What becomes active is that request,
  // settled stream by stream, and nothing else, exactly unless a cancellation of the sender is between
  // its overwriting and its removal; then it is the cancelling request. Either was sent as event j:
  // it is what was staged then with what the patch of that event sends.
  lemma FiresWhatWasScheduled(y: System, es: seq<Event>, z: System, sources: seq<string>)
      returns (i: nat, x: System, j: nat, w: System)
    requires Initial(y) && Runs(y, es, z) && Enabled(z, Expire(sources))
    ensures
      var tp := First(z.node.pending);
      var id := z.node.pending[tp];
      && tp in z.plan && z.plan[tp].0 == id && id in z.node.senders
      && (z.node.senders[id].staged == z.plan[tp].1 <==> !Cancelling(z, id))
      && ScheduledBy(y, es, i, x, tp, z.plan[tp])
      && (!Cancelling(z, id) ==> x.phase.Written? && BecomesActive(z, sources, x.phase.con) && SentAs(y, es[..i], x, j, w))
      && (Cancelling(z, id) ==> BecomesActive(z, sources, z.phase.con) && SentAs(y, es, z, j, w))
  {
    hide MakesActive, CannotActivate, Activated, Committed, Runs, Stays, GetMode, TimesHold, TimeIs, PhaseHolds, PrintedAt;
    hide GetBool, GetString, Patch, CheckCopy, Ended, SentAs;
    InitialHolds(y);
    RunKeepsInv(y, es, z);
    var tp := First(z.node.pending);
    var id := z.node.pending[tp];
    assert EntryKept(z, tp);
    i, x := PlanOrigin(y, es, z, tp);
    NotInitial(y, es, tp, z.plan[tp]);
    ActivatedMakesActive(z.node.senders[id], sources);
    SameRequestActive(z.node.senders[id], Activated(z.node.senders[id], sources).0, z.node.senders[id].staged, x.phase.con, sources);
    if Cancelling(z, id) {
      j, w := RequestWasSent(y, es, z);
    } else {
      j, w := RequestWasSent(y, es[..i], x);
    }
  }

  // The activation object of a connection makes no difference to what becomes active.
  lemma SameRequestActive(s: SenderState, t: SenderState, c: Connection, d: Connection, sources: seq<string>)
    requires MakesActive(s, t, c, sources)
    ensures d.json == c.json && d.params == c.params ==> MakesActive(s, t, d, sources)
  {
    hide SettledFrom;
  }

  // From then until the entry has left the table, nothing touches the head or what has become active.
  lemma FiringIsUndisturbed(y: System, es: seq<Event>, z: System, e: Event)
    requires Initial(y) && Runs(y, es, z) && z.firing && Enabled(z, e) && !e.Commit? && HeadIsSender(z.node)
    ensures
      var z' := Apply(z, e);
      var id := z.node.pending[First(z.node.pending)];
      && z'.firing && HeadIsSender(z'.node) && z'.node.pending == z.node.pending
      && z'.node.senders[id].active == z.node.senders[id].active
  {
    hide Ended, Activated, Patch, CheckCopy, Constraints.Apply, DirectedIps, Actualize, Inv, Initial, Runs, Commits, Agreed;
    InitialHolds(y);
    RunKeepsInv(y, es, z);
    var tp := First(z.node.pending);
    if e.Settle? && z.phase.id == z.node.pending[tp] {
      assert tp in z.node.pending && z.node.pending[tp] == z.phase.id;
      EndKeepsActive(z, e.now, e.sources);
    }
  }

  // Ending a request changes what is active only for an immediate activation, whose sender has no entry.
  lemma EndKeepsActive(y: System, now: int64, sources: seq<string>)
    requires Inv(y) && Enabled(y, Settle(now, sources)) && !HasNoEntry(y.node, y.phase.id)
    ensures Ended(y, now, sources).0.senders[y.phase.id].active == y.node.senders[y.phase.id].active
  {
    hide ConvertTaiStringToTimePoint, AddTaiStringToTimePoint, GetActivationTimePoint, Immediate, Schedule, RemoveActivationTime;
    hide EntriesKept, TimesHold, Activates;
  }

  // From s to t all three members of the staged activation are cleared, and nothing else changes.
  ghost predicate ClearedOnly(s: SenderState, t: SenderState) {
    && t == s.(staged := t.staged) && t.staged == s.staged.(activation := t.staged.activation)
    && (forall k :: k in t.staged.activation <==> k in s.staged.activation || k in {MODE, REQUESTED_TIME, ACTIVATED_TIME})
    && forall k :: k in t.staged.activation ==>
         t.staged.activation[k] == if k in {MODE, REQUESTED_TIME, ACTIVATED_TIME} then Null else s.staged.activation[k]
  }

  lemma CommittedClears(s: SenderState)
    ensures ClearedOnly(s, Committed(s))
  {
  }

  // With the entry its sender's staged activation goes too.
  lemma CommitUnlocks(y: System, es: seq<Event>, z: System)
    requires Initial(y) && Runs(y, es, z) && Enabled(z, Commit)
    ensures
      var id := z.node.pending[First(z.node.pending)];
      var n := Apply(z, Commit).node;
      id in n.senders && !IsLocked(n.senders[id]) && HasNoEntry(n, id) && ClearedOnly(z.node.senders[id], n.senders[id])
  {
    hide Inv;
    InitialHolds(y);
    RunKeepsInv(y, es, z);
    CommittedHasNoEntry(z);
    hide ClearedOnly, Committed;
    ClearedIsNotScheduled(z.node.senders[z.node.pending[First(z.node.pending)]]);
    CommittedClears(z.node.senders[z.node.pending[First(z.node.pending)]]);
  }

  lemma NotInitial(y: System, es: seq<Event>, tp: int, p: (Id, Connection))
    requires Initial(y)
    ensures !Stays(y, es, tp, p)
  {
  }

  // ---------- What every request keeps ----------

  predicate Serves(f: Phase, id: Id) {
    !f.Idle? && f.id == id
  }

  // Staged connections, that of a request being served included, keep the streams, parameters and
  // kinds they started with.
  ghost predicate Shaped(y: System, z: System) {
    && z.node.senders.Keys == y.node.senders.Keys
    && (forall id :: id in z.node.senders ==>
          WellFormed(z.node.senders[id].staged) && SameShape(y.node.senders[id].staged, z.node.senders[id].staged))
    && (forall id :: id in y.node.senders && Serves(z.phase, id) ==>
          WellFormed(z.phase.con) && SameShape(y.node.senders[id].staged, z.phase.con))
  }

  lemma SameShapeAsWell(a: Connection, b: Connection, c: Connection)
    requires SameShape(a, b) && SameShape(b, c)
    ensures SameShape(a, c)
  {
  }

  lemma SameParamsSameShape(a: Connection, b: Connection, c: Connection)
    requires c.params == b.params
    ensures SameShape(a, b) ==> SameShape(a, c)
    ensures WellFormed(b) ==> WellFormed(c)
  {
  }

  // Nothing that is staged changes, and no other request is served.
  lemma SameStagedKeepsShaped(y0: System, y: System, z: System)
    requires Shaped(y0, y) && z.node.senders.Keys == y.node.senders.Keys
    requires forall id :: id in y.node.senders ==> z.node.senders[id].staged == y.node.senders[id].staged
    requires !z.phase.Idle? ==> !y.phase.Idle? && z.phase.id == y.phase.id && z.phase.con == y.phase.con
    ensures Shaped(y0, z)
  {
    hide WellFormed, SameShape;
    assert !z.phase.Idle? ==> Serves(y.phase, z.phase.id);
  }

  lemma ExpireKeepsShaped(y0: System, y: System, sources: seq<string>)
    requires Shaped(y0, y) && Enabled(y, Expire(sources))
    ensures Shaped(y0, Apply(y, Expire(sources)))
  {
    hide Activated, Shaped, Ended, Patch, CheckCopy;
    ActivatedKeepsStaged(y.node.senders[y.node.pending[First(y.node.pending)]], sources);
    SameStagedKeepsShaped(y0, y, Apply(y, Expire(sources)));
  }

  lemma CommitKeepsShaped(y0: System, y: System)
    requires Shaped(y0, y) && Enabled(y, Commit)
    ensures Shaped(y0, Apply(y, Commit))
  {
    hide WellFormed, SameShape, Ended, Patch, CheckCopy, Activates;
    var id := y.node.pending[First(y.node.pending)];
    var s := y.node.senders[id];
    SameParamsSameShape(y0.node.senders[id].staged, s.staged, Committed(s).staged);
  }

  lemma AskKeepsShaped(y0: System, y: System, id: Id, patch: Json)
    requires Shaped(y0, y) && Enabled(y, Ask(id, patch))
    ensures Shaped(y0, Apply(y, Ask(id, patch)))
  {
    hide Patch, WellFormed, SameShape, Ended, Activates;
    var c := y.node.senders[id].staged;
    if Patch(c, patch).Accepted? {
      PatchKeepsShape(c, patch);
      SameShapeAsWell(y0.node.senders[id].staged, c, Patch(c, patch).value);
    }
  }

  lemma SettleKeepsShaped(y0: System, y: System, now: int64, sources: seq<string>)
    requires Shaped(y0, y) && Enabled(y, Settle(now, sources))
    ensures Shaped(y0, Apply(y, Settle(now, sources)))
  {
    hide Ended, WellFormed, SameShape, Patch, CheckCopy, Activates, Commits, HeadIsSender, Agreed, Replanned;
    var id := y.phase.id;
    SameParamsSameShape(y0.node.senders[id].staged, y.node.senders[id].staged, Ended(y, now, sources).0.senders[id].staged);
  }

  lemma AnswerKeepsShaped(y0: System, y: System, answer: Option<int>)
    requires Shaped(y0, y) && Enabled(y, Answer(answer))
    ensures Shaped(y0, Apply(y, Answer(answer)))
  {
    hide WellFormed, SameShape, CheckCopy, Patch, Ended, Activates, Agreed;
    assert Serves(y.phase, y.phase.id);
  }

  lemma AsideKeepsShaped(y0: System, y: System, e: Event)
    requires Shaped(y0, y) && Enabled(y, e) && (e.Check? || e.Constrain? || e.Direct?)
    ensures Shaped(y0, Apply(y, e))
  {
    hide Shaped, Constraints.Apply, DirectedIps, CheckCopy, Patch, Ended, Activates, Commits, HeadIsSender, Agreed, Replanned;
    SameStagedKeepsShaped(y0, y, Apply(y, e));
  }

  lemma StepKeepsShaped(y0: System, y: System, e: Event)
    requires Shaped(y0, y) && Enabled(y, e)
    ensures Shaped(y0, Apply(y, e))
  {
    hide Shaped, Enabled, Apply;
    match e
    case Ask(id, patch) => AskKeepsShaped(y0, y, id, patch);
    case Settle(now, sources) => SettleKeepsShaped(y0, y, now, sources);
    case Expire(sources) => ExpireKeepsShaped(y0, y, sources);
    case Commit => CommitKeepsShaped(y0, y);
    case Answer(answer) => AnswerKeepsShaped(y0, y, answer);
    case _ => AsideKeepsShaped(y0, y, e);
  }

  lemma {:induction false} RunKeepsShaped(y0: System, y: System, es: seq<Event>, z: System)
    requires Shaped(y0, y) && Runs(y, es, z)
    ensures Shaped(y0, z)
    decreases |es|
  {
    hide Shaped;
    if es != [] {
      StepKeepsShaped(y0, y, es[0]);
      RunKeepsShaped(y0, Apply(y, es[0]), es[1..], z);
    }
  }
}
