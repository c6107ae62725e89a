/** The in-memory registry (common/src/registrymemory.cpp, common/src/registryapi.cpp,
    common/src/registryholder.cpp): nodes, their devices and the sources, flows, senders and receivers
    of those, with registration that checks the parent and garbage collection that follows it down.
    A registration is one step. */
module Registry {
  import opened Containers

  // An id, by its place in the order of strings.
  type Id = int
  datatype Kind = NODE | DEVICE | SOURCE | FLOW | SENDER | RECEIVER
  datatype Resource = Resource(parent: Id, heartbeat: nat)
  // The holders as one table.
  type Table = map<(Kind, Id), Resource>

  // What UpdateFromJson makes of a body: the parent id it stores, if it gets that far, and whether it
  // accepts the body. Only a node has no parent to store.
  datatype Body = Body(parent: Option<Id>, ok: bool)

  function ParentKind(k: Kind): Kind {
    if k == DEVICE then NODE else DEVICE
  }

  const WORD: nat := 0x1_0000_0000_0000_0000
  const LIFETIME: nat := 30

  // ---------- Registration and heartbeat ----------

  datatype Code = OK | CREATED | BAD_REQUEST | NOT_FOUND

  function Found(t: Table, k: Kind, i: Id): bool {
    (k, i) in t
  }

  // A new resource: it has to be acceptable and its parent has to be registered. Adding a node
  // counts as its first heartbeat.
  function Added(t: Table, k: Kind, i: Id, b: Body, now: nat): (Table, Code) {
    if !b.ok then (t, NOT_FOUND)
    else if k == NODE then (t[(k, i) := Resource(i, now)], CREATED)
    else if b.parent.Some? && Found(t, ParentKind(k), b.parent.value) then (t[(k, i) := Resource(b.parent.value, 0)], CREATED)
    else (t, BAD_REQUEST)
  }

  // A resource that is known is overwritten in place, refused body or not, and nothing is checked.
  function Updated(t: Table, k: Kind, i: Id, b: Body): (Table, Code)
    requires (k, i) in t
  {
    (if k != NODE && b.parent.Some? then t[(k, i) := t[(k, i)].(parent := b.parent.value)] else t,
     if b.ok then OK else NOT_FOUND)
  }

  function AddUpdate(t: Table, k: Kind, i: Id, b: Body, now: nat): (Table, Code) {
    if Found(t, k, i) then Updated(t, k, i, b) else Added(t, k, i, b, now)
  }

  function Beat(t: Table, i: Id, now: nat): Table {
    if (NODE, i) in t then t[(NODE, i) := t[(NODE, i)].(heartbeat := now)] else t
  }

  // DeleteResource takes out one resource and nothing below it.
  function Deleted(t: Table, k: Kind, i: Id): Table {
    t - {(k, i)}
  }

  // ---------- Garbage collection ----------

  // The difference of two size_t.
  predicate Silent(r: Resource, now: nat) {
    ((now as int) - r.heartbeat) % WORD > LIFETIME
  }

  // The ids of one holder.
  function Ids(t: Table, k: Kind): set<Id> {
    set p | p in t && p.0 == k :: p.1
  }

  function SilentNodes(t: Table, now: nat): set<Id> {
    set i | i in Ids(t, NODE) && Silent(t[(NODE, i)], now)
  }

  function Children(t: Table, k: Kind, parents: set<Id>): set<Id> {
    set i | i in Ids(t, k) && t[(k, i)].parent in parents
  }

  function Keyed(k: Kind, ids: set<Id>): set<(Kind, Id)> {
    set i | i in ids :: (k, i)
  }

  // The leaves of a device go by kind, then the devices, then the nodes.
  function Garbage(t: Table, now: nat): set<(Kind, Id)> {
    var nodes := SilentNodes(t, now);
    var devices := Children(t, DEVICE, nodes);
    Keyed(RECEIVER, Children(t, RECEIVER, devices)) + Keyed(SENDER, Children(t, SENDER, devices))
    + Keyed(FLOW, Children(t, FLOW, devices)) + Keyed(SOURCE, Children(t, SOURCE, devices))
    + Keyed(DEVICE, devices) + Keyed(NODE, nodes)
  }

  function Collected(t: Table, now: nat): Table {
    t - Garbage(t, now)
  }

  // ---------- The forest ----------

  // Every device's node and every other resource's device is registered.
  predicate Forest(t: Table) {
    forall p :: p in t && p.0 != NODE ==> (ParentKind(p.0), t[p].parent) in t
  }

  // The node at the root of a resource.
  function Root(t: Table, k: Kind, i: Id): Id
    requires Forest(t) && (k, i) in t
  {
    if k == NODE then i else if k == DEVICE then t[(k, i)].parent else t[(DEVICE, t[(k, i)].parent)].parent
  }

  lemma IdsMean(t: Table, k: Kind, i: Id)
    ensures i in Ids(t, k) <==> (k, i) in t
  {
  }

  lemma GarbageMeans(t: Table, now: nat, k: Kind, i: Id)
    requires Forest(t) && (k, i) in t
    ensures (k, i) in Garbage(t, now) <==> Silent(t[(NODE, Root(t, k, i))], now)
  {
    hide Silent;
    IdsMean(t, k, i);
    var parent := t[(k, i)].parent;
    if k != NODE {
      IdsMean(t, ParentKind(k), parent);
      if k != DEVICE {
        IdsMean(t, NODE, t[(DEVICE, parent)].parent);
      }
    }
  }

  // A collection deletes exactly the trees of the silent nodes: those nodes, their devices and the
  // leaves of these.
  lemma CollectsSilentTrees(t: Table, now: nat)
    requires Forest(t)
    ensures forall p :: p in Collected(t, now) <==> p in t && !Silent(t[(NODE, Root(t, p.0, p.1))], now)
    ensures forall p :: p in Collected(t, now) ==> Collected(t, now)[p] == t[p]
  {
    forall p | p in t ensures p in Garbage(t, now) <==> Silent(t[(NODE, Root(t, p.0, p.1))], now) {
      GarbageMeans(t, now, p.0, p.1);
    }
    hide Garbage, Root, Silent, Forest;
  }

  lemma CollectionKeepsForest(t: Table, now: nat)
    requires Forest(t)
    ensures Forest(Collected(t, now))
  {
    CollectsSilentTrees(t, now);
    hide Collected, Silent;
  }

  // ---------- What keeps the forest ----------

  lemma AddedKeepsForest(t: Table, k: Kind, i: Id, b: Body, now: nat)
    requires Forest(t) && (k, i) !in t
    ensures Forest(Added(t, k, i, b, now).0)
  {
  }

  // The answer says what happened: 201 exactly when the resource was not there and is now, 200 exactly
  // for an accepted body of one that was, 400 exactly for a new resource whose parent is not
  // registered; and nothing else changes.
  lemma AnswersAreExact(t: Table, k: Kind, i: Id, b: Body, now: nat)
    ensures var (u, code) := AddUpdate(t, k, i, b, now);
      && (code == CREATED <==> (k, i) !in t && (k, i) in u)
      && (code == OK <==> (k, i) in t && b.ok)
      && (code == BAD_REQUEST <==>
            (k, i) !in t && b.ok && k != NODE && !(b.parent.Some? && (ParentKind(k), b.parent.value) in t))
      && (forall p :: p in t || p in u ==> p in u && (p != (k, i) ==> p in t && u[p] == t[p]))
      && (code == CREATED ==> u[(k, i)].heartbeat == if k == NODE then now else 0)
      && ((k, i) in t ==> u[(k, i)].heartbeat == t[(k, i)].heartbeat)
  {
  }

  // An update keeps it exactly when the parent it names is registered.
  lemma UpdateKeepsForestExactly(t: Table, k: Kind, i: Id, b: Body)
    requires Forest(t) && (k, i) in t
    ensures Forest(Updated(t, k, i, b).0) <==> k == NODE || b.parent == None || (ParentKind(k), b.parent.value) in t
  {
  }

  predicate Childless(t: Table, k: Kind, i: Id) {
    forall p :: p in t && p.0 != NODE && ParentKind(p.0) == k ==> t[p].parent != i
  }

  // A deletion keeps it exactly when nothing hangs on what it deletes.
  lemma DeleteKeepsForestExactly(t: Table, k: Kind, i: Id)
    requires Forest(t)
    ensures Forest(Deleted(t, k, i)) <==> Childless(t, k, i)
  {
  }

  lemma BeatKeepsForest(t: Table, i: Id, now: nat)
    requires Forest(t)
    ensures Forest(Beat(t, i, now))
  {
  }

  // ---------- Runs ----------

  datatype Event =
    | Register(k: Kind, i: Id, b: Body, now: nat)
    | Heartbeat(i: Id, now: nat)
    | Collect(now: nat)
    | Delete(k: Kind, i: Id, now: nat)

  function Apply(t: Table, e: Event): Table {
    match e
    case Register(k, i, b, now) => AddUpdate(t, k, i, b, now).0
    case Heartbeat(i, now) => Beat(t, i, now)
    case Collect(now) => Collected(t, now)
    case Delete(k, i, _) => Deleted(t, k, i)
  }

  function Runs(events: seq<Event>): Table {
    if events == [] then map[] else Apply(Runs(events[..|events| - 1]), events[|events| - 1])
  }

  // Guards a caller can check: an update names a registered parent, a deletion has nothing below it.
  predicate Harmless(t: Table, e: Event) {
    match e
    case Register(k, i, b, _) => (k, i) in t ==> k == NODE || b.parent == None || (ParentKind(k), b.parent.value) in t
    case Delete(k, i, _) => Childless(t, k, i)
    case _ => true
  }

  lemma StepKeepsForestExactly(t: Table, e: Event)
    requires Forest(t)
    ensures Forest(Apply(t, e)) <==> Harmless(t, e)
  {
    hide Forest, Collected, Childless, Updated, Added, Beat;
    match e
    case Register(k, i, b, now) =>
      if (k, i) in t {
        UpdateKeepsForestExactly(t, k, i, b);
      } else {
        AddedKeepsForest(t, k, i, b, now);
      }
    case Heartbeat(i, now) => BeatKeepsForest(t, i, now);
    case Collect(now) => CollectionKeepsForest(t, now);
    case Delete(k, i, _) => DeleteKeepsForestExactly(t, k, i);
  }

  // The forest holds now and after every earlier step.
  predicate AlwaysForest(events: seq<Event>) {
    Forest(Runs(events)) && (events != [] ==> AlwaysForest(events[..|events| - 1]))
  }

  predicate HarmlessRun(events: seq<Event>) {
    events == [] || (HarmlessRun(events[..|events| - 1]) && Harmless(Runs(events[..|events| - 1]), events[|events| - 1]))
  }

  // Over every run the forest holds at all times exactly when every step was harmless. Registrations
  // of new resources, heartbeats and collections always are.
  lemma {:induction false} RunKeepsForestExactly(events: seq<Event>)
    ensures AlwaysForest(events) <==> HarmlessRun(events)
  {
    hide Forest, Harmless, Apply;
    if events == [] {
      EmptyIsForest();
    } else {
      var front, last := events[..|events| - 1], events[|events| - 1];
      RunKeepsForestExactly(front);
      if Forest(Runs(front)) {
        StepKeepsForestExactly(Runs(front), last);
      }
    }
  }

  lemma EmptyIsForest()
    ensures Forest(map[])
  {
  }

  // ---------- Time ----------

  // The clock never goes back and fits a size_t.
  predicate Steady(events: seq<Event>) {
    (forall n :: 0 <= n < |events| ==> events[n].now < WORD)
    && forall m, n :: 0 <= m < n < |events| ==> events[m].now <= events[n].now
  }

  // When a node was last heard of: its last heartbeat, or the registration that added it.
  // Registering a node again is no contact.
  function LastContact(events: seq<Event>, i: Id): nat {
    if events == [] then 0
    else
      var front, last := events[..|events| - 1], events[|events| - 1];
      match last
      case Heartbeat(j, now) => if i == j then now else LastContact(front, i)
      case Register(k, j, b, now) => if k == NODE && i == j && b.ok && (k, i) !in Runs(front) then now else LastContact(front, i)
      case _ => LastContact(front, i)
  }

  // What one step does to the last heartbeat of a node that is there afterwards.
  lemma StepHeartbeat(t: Table, e: Event, i: Id)
    requires (NODE, i) in Apply(t, e)
    ensures var u := Apply(t, e);
      && ((NODE, i) !in t ==> e.Register? && e.k == NODE && e.i == i && e.b.ok)
      && u[(NODE, i)].heartbeat ==
           if e.Heartbeat? && e.i == i then e.now else if (NODE, i) !in t then e.now else t[(NODE, i)].heartbeat
  {
  }

  lemma {:induction false} HeartbeatIsLastContact(events: seq<Event>, i: Id)
    requires (NODE, i) in Runs(events)
    ensures Runs(events)[(NODE, i)].heartbeat == LastContact(events, i)
    ensures events != [] && (Steady(events) ==> LastContact(events, i) <= events[|events| - 1].now)
  {
    hide Apply;
    if events != [] {
      var front, last := events[..|events| - 1], events[|events| - 1];
      StepHeartbeat(Runs(front), last, i);
      if (NODE, i) in Runs(front) {
        HeartbeatIsLastContact(front, i);
        if Steady(events) {
          assert front[|front| - 1].now <= last.now;
        }
      }
    }
  }

  // With a steady clock a node is collected exactly when it has been silent for more than 30 s.
  lemma SilenceIsMeasured(events: seq<Event>, now: nat, i: Id)
    requires Steady(events + [Collect(now)]) && (NODE, i) in Runs(events)
    ensures Silent(Runs(events)[(NODE, i)], now) <==> now - LastContact(events, i) > 30
  {
    HeartbeatIsLastContact(events, i);
    var all := events + [Collect(now)];
    assert forall n :: 0 <= n < |events| ==> all[n] == events[n];
    assert all[|events| - 1].now <= all[|events|].now;
    SilentExactly(Runs(events)[(NODE, i)], now);
    hide Runs, LastContact;
  }

  // Whatever the clock does: a node is also collected when the clock has gone back behind its last
  // heartbeat, however recent that was, because the difference wraps round.
  lemma SilentExactly(r: Resource, now: nat)
    requires now < WORD && r.heartbeat < WORD
    ensures Silent(r, now) <==> now > r.heartbeat + 30 || 0 < r.heartbeat - now < 0x1_0000_0000_0000_0000 - 30
  {
  }
}
