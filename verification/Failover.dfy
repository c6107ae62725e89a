/** How a node finds a registry, registers with it and moves on to the next one
    (node/src/nmosthread.cpp, node/src/nodeapiprivate.cpp). The answers to its requests and what it
    meets while it waits are scripts: a request beyond the script gets no answer, which HttpClient
    reports as 0, and the node is stopped once nothing more happens. */
module Failover {
  import opened Containers

  // A URL, by its place in the order of strings.
  type Url = int
  datatype RegNode = RegNode(good: bool, priority: nat)
  datatype Status = REG_FAILED | REG_START | REG_DONE

  datatype Request = NODE | RESOURCE | HEARTBEAT | DELETE
  datatype Exchange = Exchange(request: Request, code: int)
  // What ends a wait: its time, the loss of a registry, a new registry, another signal.
  datatype Event = Timeout | Removed(url: Url) | Resolved(url: Url, priority: nat) | Signalled

  datatype State = State(nodes: map<Url, RegNode>, current: Option<Url>, status: Status, replies: seq<int>, log: seq<Exchange>)

  // ---------- Choosing a registry ----------

  // The registry with the smallest number so far.
  function Better(nodes: map<Url, RegNode>, best: Option<Url>, u: Url): Option<Url>
    requires u in nodes && (best.Some? ==> best.value in nodes)
  {
    var least := if best.Some? then nodes[best.value].priority else 200;
    if nodes[u].good && nodes[u].priority < least then Some(u) else best
  }

  // The scan of the table in its order.
  function Scan(nodes: map<Url, RegNode>, left: map<Url, RegNode>, best: Option<Url>): Option<Url>
    requires left.Keys <= nodes.Keys && (best.Some? ==> best.value in nodes)
    decreases |left|
  {
    if left == map[] then best
    else
      var u := First(left);
      SmallerWithout(left, u);
      Scan(nodes, left - {u}, Better(nodes, best, u))
  }

  predicate Eligible(nodes: map<Url, RegNode>, u: Url) {
    u in nodes && nodes[u].good && nodes[u].priority < 200
  }

  predicate Before(nodes: map<Url, RegNode>, u: Url, v: Url)
    requires u in nodes && v in nodes
  {
    nodes[u].priority < nodes[v].priority || (nodes[u].priority == nodes[v].priority && u <= v)
  }

  function Find(s: State): State {
    var best := Scan(s.nodes, s.nodes, None);
    if best == None then s.(current := None, status := REG_FAILED)
    else s.(current := best, status := if s.current == None then REG_START else REG_DONE)
  }

  // ---------- Requests ----------

  predicate Bad(code: int) {
    code == 500 || code < 100
  }

  function MarkBad(nodes: map<Url, RegNode>, current: Option<Url>): map<Url, RegNode> {
    if current.Some? && current.value in nodes then nodes[current.value := nodes[current.value].(good := false)] else nodes
  }

  function Code(s: State): int {
    if s.replies == [] then 0 else s.replies[0]
  }

  function Ask(s: State, r: Request): State {
    s.(nodes := if Bad(Code(s)) then MarkBad(s.nodes, s.current) else s.nodes,
       replies := if s.replies == [] then [] else s.replies[1..],
       log := s.log + [Exchange(r, Code(s))])
  }

  function Unregister(s: State): State {
    if s.current == None then s else Ask(s, DELETE).(status := REG_START)
  }

  predicate Accepted(code: int) {
    code == 200 || code == 201
  }

  // One holder of n resources; whether all were accepted.
  function RegisterResources(s: State, n: nat): (State, bool)
    decreases n
  {
    if n == 0 then (s, true)
    else if !Accepted(Code(s)) then (Ask(s, RESOURCE), false)
    else RegisterResources(Ask(s, RESOURCE), n - 1)
  }

  function RegisterHolders(s: State, sizes: seq<nat>): (State, bool)
    decreases |sizes|
  {
    if sizes == [] then (s, true)
    else
      var (t, ok) := RegisterResources(s, sizes[0]);
      if ok then RegisterHolders(t, sizes[1..]) else (t, false)
  }

  // An answer of 200 to the node means that it was known: it is deleted and all begins again.
  function RegisterSimple(s: State, sizes: seq<nat>): State
    decreases |s.replies|
  {
    if s.status == REG_DONE then s
    else if s.current == None then s.(status := REG_FAILED)
    else
      var t := Ask(s.(status := REG_FAILED), NODE);
      if Code(s) == 200 then RegisterSimple(Unregister(t), sizes)
      else if Code(s) != 201 then Unregister(t).(status := REG_FAILED)
      else
        var (u, ok) := RegisterHolders(t, sizes);
        if ok then u.(status := REG_DONE) else Unregister(u).(status := REG_FAILED)
  }

  // The code as an unsigned int.
  function Unsigned(code: int): nat {
    code % 0x1_0000_0000
  }

  // Whether the registry is still in use after a heartbeat was answered.
  function HandleHeartbeatResponse(s: State, code: nat, sizes: seq<nat>): (State, bool) {
    if code == 0 || code >= 500 then (s.(status := REG_FAILED), false)
    else if code == 404 || code == 409 then
      var t := RegisterSimple(if code == 404 then s.(status := REG_FAILED) else Unregister(s), sizes);
      if t.status == REG_DONE then (t, true) else (t.(status := REG_FAILED), false)
    else if code >= 400 then (s.(status := REG_FAILED), false)
    else (s, true)
  }

  function Heartbeat(s: State, sizes: seq<nat>): (State, bool) {
    HandleHeartbeatResponse(Ask(s, HEARTBEAT), Unsigned(Code(s)), sizes)
  }

  // ---------- Rounds ----------

  // A new registry never replaces one that is known.
  function Discovered(nodes: map<Url, RegNode>, e: Event): map<Url, RegNode> {
    match e
    case Removed(u) => nodes - {u}
    case Resolved(u, priority) => if u in nodes then nodes else nodes[u := RegNode(true, priority)]
    case _ => nodes
  }

  // The state, the events that are left, and whether the node was stopped while registered.
  datatype Outcome = Outcome(s: State, left: seq<Event>, clean: bool)

  function Serve(s: State, events: seq<Event>, sizes: seq<nat>): Outcome
    decreases |events|
  {
    if events == [] then Outcome(s, [], true)
    else if events[0] == Timeout then
      var (t, ok) := Heartbeat(s, sizes);
      if ok then Serve(t, events[1..], sizes) else Outcome(t, events[1..], false)
    else
      var t := s.(nodes := Discovered(s.nodes, events[0]));
      if events[0].Removed? && s.current == Some(events[0].url) then Outcome(t.(status := REG_FAILED), events[1..], false)
      else Serve(t, events[1..], sizes)
  }

  function RegisteredOperation(s: State, events: seq<Event>, sizes: seq<nat>): Outcome {
    var r := RegisterSimple(s, sizes);
    if r.status != REG_DONE then Outcome(r, events, false)
    else
      var (t, ok) := Heartbeat(r, sizes);
      if ok then Serve(t, events, sizes) else Outcome(t, events, false)
  }

  // ---------- What a round asked, and what came of it ----------

  // An answer that ends the round.
  predicate Fails(e: Exchange) {
    match e.request
    case DELETE => false
    case HEARTBEAT => var code := Unsigned(e.code); code == 0 || (code >= 400 && code != 404 && code != 409)
    case _ => !Accepted(e.code)
  }

  predicate AnyBad(log: seq<Exchange>) {
    exists i :: 0 <= i < |log| && Bad(log[i].code)
  }

  predicate AnyFails(log: seq<Exchange>) {
    exists i :: 0 <= i < |log| && Fails(log[i])
  }

  // The exchanges between two states.
  function Since(s: State, t: State): seq<Exchange> {
    if |s.log| <= |t.log| then t.log[|s.log|..] else []
  }

  function Reply(replies: seq<int>, i: nat): int {
    if i < |replies| then replies[i] else 0
  }

  function RepliesAfter(replies: seq<int>, n: nat): seq<int> {
    if n <= |replies| then replies[n..] else []
  }

  predicate Answered(replies: seq<int>, log: seq<Exchange>) {
    forall i :: 0 <= i < |log| ==> log[i].code == Reply(replies, i)
  }

  // From s to t the node only made requests: they were answered by the script in its order, and the
  // current registry was marked if one of the answers was bad.
  predicate Asked(s: State, t: State) {
    && s.log <= t.log && t.current == s.current
    && Answered(s.replies, Since(s, t)) && t.replies == RepliesAfter(s.replies, |Since(s, t)|)
    && t.nodes == (if AnyBad(Since(s, t)) then MarkBad(s.nodes, s.current) else s.nodes)
  }

  lemma AnyOfBoth(a: seq<Exchange>, b: seq<Exchange>)
    ensures AnyBad(a + b) == (AnyBad(a) || AnyBad(b)) && AnyFails(a + b) == (AnyFails(a) || AnyFails(b))
  {
    hide Bad, Fails;
    assert forall i :: 0 <= i < |a| ==> (a + b)[i] == a[i];
    assert forall i :: 0 <= i < |b| ==> (a + b)[|a| + i] == b[i];
  }

  lemma AnsweredTwice(replies: seq<int>, a: seq<Exchange>, b: seq<Exchange>)
    requires Answered(replies, a) && Answered(RepliesAfter(replies, |a|), b)
    ensures Answered(replies, a + b)
    ensures RepliesAfter(RepliesAfter(replies, |a|), |b|) == RepliesAfter(replies, |a + b|)
  {
    var later := RepliesAfter(replies, |a|);
    forall i | 0 <= i < |a + b| ensures (a + b)[i].code == Reply(replies, i) {
      if i >= |a| {
        assert (a + b)[i] == b[i - |a|] && b[i - |a|].code == Reply(later, i - |a|);
      }
    }
  }

  lemma AskedTwice(s: State, t: State, u: State)
    requires Asked(s, t) && Asked(t, u)
    ensures Asked(s, u) && Since(s, u) == Since(s, t) + Since(t, u)
    ensures AnyBad(Since(s, u)) == (AnyBad(Since(s, t)) || AnyBad(Since(t, u)))
    ensures AnyFails(Since(s, u)) == (AnyFails(Since(s, t)) || AnyFails(Since(t, u)))
  {
    hide AnyBad, AnyFails;
    var a, b := Since(s, t), Since(t, u);
    assert Since(s, u) == a + b;
    AnyOfBoth(a, b);
    AnsweredTwice(s.replies, a, b);
  }

  lemma AskedOnce(s: State, r: Request)
    ensures Asked(s, Ask(s, r)) && Since(s, Ask(s, r)) == [Exchange(r, Code(s))]
    ensures AnyBad(Since(s, Ask(s, r))) == Bad(Code(s)) && AnyFails(Since(s, Ask(s, r))) == Fails(Exchange(r, Code(s)))
  {
    hide Bad, Fails;
    var e := Since(s, Ask(s, r));
    assert e == [Exchange(r, Code(s))] && e[0].code == Code(s);
  }

  lemma NothingAsked(s: State)
    ensures Asked(s, s) && !AnyBad(Since(s, s)) && !AnyFails(Since(s, s))
  {
    assert Since(s, s) == [];
  }

  lemma UnregisterAsks(s: State)
    ensures Asked(s, Unregister(s)) && !AnyFails(Since(s, Unregister(s)))
  {
    hide AnyBad, AnyFails;
    AskedOnce(s, DELETE);
    NothingAsked(s);
  }

  lemma {:induction false} ResourcesAsk(s: State, n: nat)
    ensures var (t, ok) := RegisterResources(s, n); Asked(s, t) && ok == !AnyFails(Since(s, t))
    decreases n
  {
    hide AnyBad, AnyFails, Asked, Since;
    NothingAsked(s);
    AskedOnce(s, RESOURCE);
    if n > 0 && Accepted(Code(s)) {
      ResourcesAsk(Ask(s, RESOURCE), n - 1);
      AskedTwice(s, Ask(s, RESOURCE), RegisterResources(s, n).0);
    }
  }

  lemma {:induction false} HoldersAsk(s: State, sizes: seq<nat>)
    ensures var (t, ok) := RegisterHolders(s, sizes); Asked(s, t) && ok == !AnyFails(Since(s, t))
    decreases |sizes|
  {
    hide AnyBad, AnyFails, Asked, Since, RegisterResources;
    NothingAsked(s);
    if sizes != [] {
      ResourcesAsk(s, sizes[0]);
      var (t, ok) := RegisterResources(s, sizes[0]);
      if ok {
        HoldersAsk(t, sizes[1..]);
        AskedTwice(s, t, RegisterHolders(t, sizes[1..]).0);
      }
    }
  }

  // A registration asks for nothing exactly when the node is registered already or has no registry; the
  // status tells these apart.
  lemma RegistrationAsksExactly(s: State, sizes: seq<nat>)
    ensures var t := RegisterSimple(s, sizes);
      && (t.log == s.log <==> s.status == REG_DONE || s.current == None)
      && (s.status == REG_DONE || s.current == None ==>
            t == s.(status := t.status) && (t.status == REG_DONE <==> s.status == REG_DONE) && (t.status != REG_DONE ==> t.status == REG_FAILED))
  {
    hide AnyFails, AnyBad, RegisterHolders;
    if s.status != REG_DONE && s.current.Some? {
      RegistrationIsExact(s, sizes);
    }
  }

  // Registration ends in REG_DONE exactly when none of its answers failed.
  lemma {:induction false} RegistrationIsExact(s: State, sizes: seq<nat>)
    requires s.current.Some?
    ensures var t := RegisterSimple(s, sizes);
      Asked(s, t) && (t.status == REG_DONE <==> !AnyFails(Since(s, t))) && (s.status != REG_DONE ==> |t.log| > |s.log|)
    decreases |s.replies|
  {
    hide AnyBad, AnyFails, RegisterHolders;
    NothingAsked(s);
    if s.status != REG_DONE {
      var first := s.(status := REG_FAILED);
      var t := Ask(first, NODE);
      AskedOnce(first, NODE);
      assert Asked(s, t) && Since(s, t) == Since(first, t);
      var last := RegisterSimple(s, sizes);
      if Code(s) == 200 {
        UnregisterAsks(t);
        AskedTwice(s, t, Unregister(t));
        RegistrationIsExact(Unregister(t), sizes);
        AskedTwice(s, Unregister(t), last);
      } else if Code(s) != 201 {
        UnregisterAsks(t);
        assert Asked(t, last) && Since(t, last) == Since(t, Unregister(t));
        AskedTwice(s, t, last);
      } else {
        HoldersAsk(t, sizes);
        var (u, ok) := RegisterHolders(t, sizes);
        AskedTwice(s, t, u);
        if ok {
          assert Asked(s, last) && Since(s, last) == Since(s, u);
        } else {
          UnregisterAsks(u);
          assert Asked(u, last) && Since(u, last) == Since(u, Unregister(u));
          AskedTwice(s, u, last);
        }
      }
    }
  }

  // A heartbeat leaves the registry in use exactly when neither its answer nor one to a registration
  // it led to failed.
  lemma HeartbeatIsExact(s: State, sizes: seq<nat>)
    requires s.current.Some?
    ensures var (t, ok) := Heartbeat(s, sizes); Asked(s, t) && ok == !AnyFails(Since(s, t)) && |t.log| > |s.log|
  {
    hide AnyBad, AnyFails, RegisterSimple;
    var t := Ask(s, HEARTBEAT);
    AskedOnce(s, HEARTBEAT);
    var code := Unsigned(Code(s));
    var failed := t.(status := REG_FAILED);
    var last := Heartbeat(s, sizes).0;
    if code == 404 {
      RegistrationIsExact(failed, sizes);
      assert Asked(t, last) && Since(t, last) == Since(failed, last);
      AskedTwice(s, t, last);
    } else if code == 409 {
      UnregisterAsks(t);
      AskedTwice(s, t, Unregister(t));
      RegistrationIsExact(Unregister(t), sizes);
      var again := RegisterSimple(Unregister(t), sizes);
      assert Asked(Unregister(t), last) && Since(Unregister(t), last) == Since(Unregister(t), again);
      AskedTwice(s, Unregister(t), last);
    } else {
      assert Asked(s, last) && Since(s, last) == Since(s, t);
    }
  }

  // ---------- What a registration posts ----------

  function Total(sizes: seq<nat>): nat {
    if sizes == [] then 0 else sizes[0] + Total(sizes[1..])
  }

  predicate AllPosted(e: seq<Exchange>, n: nat) {
    |e| == n && forall i :: 0 <= i < n ==> e[i].request == RESOURCE && Accepted(e[i].code)
  }

  // The node was added, and then each of the n resources was accepted.
  predicate Registered(e: seq<Exchange>, n: nat) {
    |e| > n && e[|e| - n - 1] == Exchange(NODE, 201) && AllPosted(e[|e| - n..], n)
  }

  lemma PostedTwice(a: seq<Exchange>, b: seq<Exchange>, m: nat, n: nat)
    requires AllPosted(a, m) && AllPosted(b, n)
    ensures AllPosted(a + b, m + n)
  {
  }

  lemma RegisteredLater(a: seq<Exchange>, b: seq<Exchange>, n: nat)
    requires Registered(b, n)
    ensures Registered(a + b, n)
  {
    var e := a + b;
    assert e[|e| - n..] == b[|b| - n..] && e[|e| - n - 1] == b[|b| - n - 1];
  }

  lemma {:induction false} ResourcesPosted(s: State, n: nat)
    requires RegisterResources(s, n).1
    ensures Asked(s, RegisterResources(s, n).0) && AllPosted(Since(s, RegisterResources(s, n).0), n)
    decreases n
  {
    hide AnyBad, AnyFails, Answered, AllPosted, Since;
    ResourcesAsk(s, n);
    if n == 0 {
      NothingPosted(s);
    } else {
      var t := Ask(s, RESOURCE);
      AskedOnce(s, RESOURCE);
      OnePosted(s);
      ResourcesAsk(t, n - 1);
      ResourcesPosted(t, n - 1);
      AskedTwice(s, t, RegisterResources(s, n).0);
      PostedTwice(Since(s, t), Since(t, RegisterResources(s, n).0), 1, n - 1);
    }
  }

  lemma NothingPosted(s: State)
    ensures AllPosted(Since(s, s), 0)
  {
  }

  lemma OnePosted(s: State)
    requires Accepted(Code(s))
    ensures AllPosted(Since(s, Ask(s, RESOURCE)), 1)
  {
  }

  lemma {:induction false} HoldersPosted(s: State, sizes: seq<nat>)
    requires RegisterHolders(s, sizes).1
    ensures Asked(s, RegisterHolders(s, sizes).0) && AllPosted(Since(s, RegisterHolders(s, sizes).0), Total(sizes))
    decreases |sizes|
  {
    hide AnyBad, AnyFails, Answered, AllPosted, Since, RegisterResources;
    HoldersAsk(s, sizes);
    if sizes == [] {
      NothingPosted(s);
    } else {
      var t, last := RegisterResources(s, sizes[0]).0, RegisterHolders(s, sizes).0;
      ResourcesAsk(s, sizes[0]);
      HoldersAsk(t, sizes[1..]);
      ResourcesPosted(s, sizes[0]);
      HoldersPosted(t, sizes[1..]);
      AskedTwice(s, t, last);
      PostedTwice(Since(s, t), Since(t, last), sizes[0], Total(sizes[1..]));
    }
  }

  // A registration that ends in REG_DONE ended with the node added and every resource of the five
  // holders accepted.
  lemma {:induction false} RegistrationPostsAll(s: State, sizes: seq<nat>)
    requires s.current.Some? && s.status != REG_DONE && RegisterSimple(s, sizes).status == REG_DONE
    ensures var t := RegisterSimple(s, sizes); Asked(s, t) && Registered(Since(s, t), Total(sizes))
    decreases |s.replies|
  {
    hide AnyBad, AnyFails, Asked, Registered, RegisterHolders;
    RegistrationIsExact(s, sizes);
    var first := s.(status := REG_FAILED);
    var t, last := Ask(first, NODE), RegisterSimple(s, sizes);
    if Code(s) == 200 {
      var again := Unregister(t);
      RegistrationPostsAll(again, sizes);
      PrefixedBy(s, again, last);
      RegisteredLater(again.log[|s.log|..], Since(again, last), Total(sizes));
    } else {
      var u := RegisterHolders(t, sizes).0;
      HoldersPosted(t, sizes);
      assert t.log == s.log + [Exchange(NODE, 201)];
      NodeThenPosts(s, t, u, Total(sizes));
      assert Since(s, last) == Since(s, u);
    }
  }

  lemma PrefixedBy(s: State, t: State, u: State)
    requires s.log <= t.log && Asked(t, u)
    ensures s.log <= u.log && Since(s, u) == t.log[|s.log|..] + Since(t, u)
  {
    hide AnyBad;
  }

  lemma NodeThenPosts(s: State, t: State, u: State, n: nat)
    requires t.log == s.log + [Exchange(NODE, 201)] && Asked(t, u) && AllPosted(Since(t, u), n)
    ensures s.log <= u.log && Registered(Since(s, u), n)
  {
    hide AnyBad;
    var e := Since(s, u);
    assert e == [Exchange(NODE, 201)] + Since(t, u);
    assert e[|e| - n..] == Since(t, u);
  }

  // A registry that has forgotten the node, or knows it differently, stays in use only after the node
  // and all its resources were registered again.
  lemma ForgottenIsRegisteredAgain(s: State, sizes: seq<nat>)
    requires s.current.Some? && (Unsigned(Code(s)) == 404 || Unsigned(Code(s)) == 409) && Heartbeat(s, sizes).1
    ensures var t := Heartbeat(s, sizes).0; Asked(s, t) && Registered(Since(s, t), Total(sizes))
  {
    hide AnyBad, AnyFails, Asked, Registered, RegisterSimple;
    HeartbeatIsExact(s, sizes);
    var t, last := Ask(s, HEARTBEAT), Heartbeat(s, sizes).0;
    var again := if Unsigned(Code(s)) == 404 then t.(status := REG_FAILED) else Unregister(t);
    RegistrationPostsAll(again, sizes);
    PrefixedBy(s, again, last);
    RegisteredLater(again.log[|s.log|..], Since(again, last), Total(sizes));
  }

  // ---------- What a round does to the registries ----------

  function Good(nodes: map<Url, RegNode>): set<Url> {
    set u | u in nodes && nodes[u].good
  }

  function Lost(events: seq<Event>): set<Url> {
    set e | e in events && e.Removed? :: e.url
  }

  predicate NothingNew(events: seq<Event>) {
    forall e :: e in events ==> !e.Resolved?
  }

  // From s to t the node made requests and lost registries. A registry that was good stays good
  // unless it was lost, or it is the current one and an answer was bad.
  predicate Lived(s: State, t: State, events: seq<Event>) {
    && s.log <= t.log && t.current == s.current && |t.replies| <= |s.replies|
    && Good(t.nodes) == Good(s.nodes) - Lost(events) - (if s.current.Some? && AnyBad(Since(s, t)) then {s.current.value} else {})
  }

  lemma AskingIsLiving(s: State, t: State)
    requires Asked(s, t)
    ensures Lived(s, t, [])
  {
    hide AnyBad, Since;
  }

  lemma LivedTwice(s: State, t: State, u: State, a: seq<Event>, b: seq<Event>)
    requires Lived(s, t, a) && Lived(t, u, b)
    ensures Lived(s, u, a + b) && AnyFails(Since(s, u)) == (AnyFails(Since(s, t)) || AnyFails(Since(t, u)))
  {
    assert Since(s, u) == Since(s, t) + Since(t, u);
    AnyOfBoth(Since(s, t), Since(t, u));
    hide AnyBad, AnyFails;
    assert Lost(a + b) == Lost(a) + Lost(b) by {
      assert forall e :: e in a + b <==> e in a || e in b;
    }
  }

  lemma LivedEvent(s: State, e: Event)
    requires !e.Resolved?
    ensures Lived(s, s.(nodes := Discovered(s.nodes, e)), [e])
  {
    NothingAsked(s);
    var t := s.(nodes := Discovered(s.nodes, e));
    assert Since(s, t) == Since(s, s);
    hide AnyBad;
    assert Lost([e]) == if e.Removed? then {e.url} else {} by {
      assert e in [e];
    }
  }

  function Used(events: seq<Event>, left: seq<Event>): seq<Event>
    requires |left| <= |events|
  {
    events[..|events| - |left|]
  }

  // Serving ends without success exactly when an answer failed or the current registry was lost.
  lemma {:induction false} ServingIsExact(s: State, events: seq<Event>, sizes: seq<nat>)
    requires s.current.Some? && NothingNew(events)
    ensures var o := Serve(s, events, sizes);
      && |o.left| <= |events| && NothingNew(o.left)
      && Lived(s, o.s, Used(events, o.left))
      && (o.clean <==> !AnyFails(Since(s, o.s)) && s.current.value !in Lost(Used(events, o.left)))
    decreases |events|
  {
    hide AnyBad, AnyFails, Heartbeat, Lived, Since, Lost;
    NothingAsked(s);
    AskingIsLiving(s, s);
    if events == [] {
      NoneLost();
    } else {
      var o := Serve(s, events, sizes);
      var e, rest := events[0], events[1..];
      var t := s.(nodes := Discovered(s.nodes, e));
      OneLost(e);
      if e == Timeout {
        HeartbeatIsExact(s, sizes);
        var (u, ok) := Heartbeat(s, sizes);
        AskingIsLiving(s, u);
        TimeoutLosesNothing(s, u);
        if ok {
          ServingIsExact(u, rest, sizes);
          ServedOneMore(s, u, o, e, events);
        } else {
          assert Used(events, rest) == [e];
        }
      } else {
        LivedEvent(s, e);
        SinceItself(s, t);
        if e.Removed? && s.current == Some(e.url) {
          assert Used(events, rest) == [e];
          StatusDoesNotMatter(s, t, [e]);
        } else {
          ServingIsExact(t, rest, sizes);
          ServedOneMore(s, t, o, e, events);
        }
      }
    }
  }

  lemma NoneLost()
    ensures Lost([]) == {}
  {
  }

  lemma OneLost(e: Event)
    ensures Lost([e]) == if e.Removed? then {e.url} else {}
  {
  }

  lemma TimeoutLosesNothing(s: State, t: State)
    requires Lived(s, t, [])
    ensures Lived(s, t, [Timeout])
  {
    OneLost(Timeout);
    hide AnyBad, Since;
  }

  lemma SinceItself(s: State, t: State)
    requires s.log == t.log
    ensures Since(s, t) == [] && !AnyFails([])
  {
  }

  lemma StatusDoesNotMatter(s: State, t: State, events: seq<Event>)
    requires Lived(s, t, events)
    ensures var u := t.(status := REG_FAILED); Lived(s, u, events) && Since(s, u) == Since(s, t)
  {
  }

  lemma ServedOneMore(s: State, t: State, o: Outcome, e: Event, events: seq<Event>)
    requires events != [] && e == events[0] && |o.left| < |events| && s.current.Some?
    requires Lived(s, t, [e]) && Lived(t, o.s, Used(events[1..], o.left))
    ensures Used(events, o.left) == [e] + Used(events[1..], o.left)
    ensures Lived(s, o.s, Used(events, o.left))
    ensures AnyFails(Since(s, o.s)) == (AnyFails(Since(s, t)) || AnyFails(Since(t, o.s)))
    ensures Lost(Used(events, o.left)) == Lost([e]) + Lost(Used(events[1..], o.left))
  {
    hide AnyBad, AnyFails;
    var rest := Used(events[1..], o.left);
    assert Used(events, o.left) == [e] + rest;
    LivedTwice(s, t, o.s, [e], rest);
    hide Lived;
    assert forall x :: x in [e] + rest <==> x in [e] || x in rest;
  }

  // A round fails exactly when an answer fails or the registry in use is lost. It takes that registry
  // out of the good ones exactly when an answer was bad or it was lost.
  lemma RoundIsExact(s: State, events: seq<Event>, sizes: seq<nat>)
    requires s.current.Some? && NothingNew(events)
    ensures var o := RegisteredOperation(s, events, sizes);
      && |o.left| <= |events| && NothingNew(o.left)
      && Lived(s, o.s, Used(events, o.left))
      && (o.clean <==> !AnyFails(Since(s, o.s)) && s.current.value !in Lost(Used(events, o.left)))
      && (s.current.value in Good(s.nodes) ==>
            (s.current.value !in Good(o.s.nodes) <==> AnyBad(Since(s, o.s)) || s.current.value in Lost(Used(events, o.left))))
  {
    hide AnyBad, AnyFails, RegisterSimple, Heartbeat, Serve, Lost;
    var r := RegisterSimple(s, sizes);
    RegistrationIsExact(s, sizes);
    NoneLost();
    assert Used(events, events) == [];
    if r.status != REG_DONE {
      AskingIsLiving(s, r);
    } else {
      var (t, ok) := Heartbeat(r, sizes);
      HeartbeatIsExact(r, sizes);
      AskedTwice(s, r, t);
      AskingIsLiving(s, t);
      if ok {
        ServingIsExact(t, events, sizes);
        var o := Serve(t, events, sizes);
        LivedTwice(s, t, o.s, [], Used(events, o.left));
        assert [] + Used(events, o.left) == Used(events, o.left);
      }
    }
  }

  // The scan keeps the best of what it has seen.
  ghost predicate BestOf(nodes: map<Url, RegNode>, seen: set<Url>, best: Option<Url>) {
    match best
    case None => forall v :: v in seen ==> !Eligible(nodes, v)
    case Some(u) => u in seen && Eligible(nodes, u) && forall v :: v in seen && Eligible(nodes, v) ==> Before(nodes, u, v)
  }

  lemma {:induction false} ScanFindsBest(nodes: map<Url, RegNode>, left: map<Url, RegNode>, best: Option<Url>)
    requires left.Keys <= nodes.Keys && BestOf(nodes, nodes.Keys - left.Keys, best)
    requires forall u, v :: u in nodes.Keys - left.Keys && v in left ==> u < v
    ensures BestOf(nodes, nodes.Keys, Scan(nodes, left, best))
    decreases |left|
  {
    if left == map[] {
      assert nodes.Keys - left.Keys == nodes.Keys;
    } else {
      var u := First(left);
      SmallerWithout(left, u);
      var rest := left - {u};
      assert nodes.Keys - rest.Keys == nodes.Keys - left.Keys + {u};
      assert forall v :: v in rest ==> u < v;
      ScanFindsBest(nodes, rest, Better(nodes, best, u));
    }
  }

  // The registry chosen is a good one with the least number below 200, the first one in the table
  // among equals; none is chosen exactly when there is none. A registration starts when none was in
  // use before; otherwise the node counts as registered already.
  lemma FindPicksBest(s: State)
    ensures var t := Find(s);
      && t.nodes == s.nodes && t.replies == s.replies && t.log == s.log
      && BestOf(s.nodes, s.nodes.Keys, t.current)
      && t.status == if t.current == None then REG_FAILED else if s.current == None then REG_START else REG_DONE
  {
    hide Scan;
    assert s.nodes.Keys - s.nodes.Keys == {};
    ScanFindsBest(s.nodes, s.nodes, None);
  }

  // ---------- Round after round ----------

  lemma EventsAreUsed(s: State, events: seq<Event>, sizes: seq<nat>)
    requires s.current.Some?
    ensures var o := Serve(s, events, sizes); |o.left| <= |events| && |o.s.replies| <= |s.replies|
    decreases |events|
  {
    hide Heartbeat, Discovered;
    if events != [] {
      HeartbeatIsExact(s, sizes);
      var (t, ok) := Heartbeat(s, sizes);
      if events[0] == Timeout {
        if ok {
          EventsAreUsed(t, events[1..], sizes);
        }
      } else {
        EventsAreUsed(s.(nodes := Discovered(s.nodes, events[0])), events[1..], sizes);
      }
    }
  }

  lemma UnansweredIsBad(s: State, t: State)
    requires Asked(s, t) && s.replies == [] && |t.log| > |s.log|
    ensures AnyBad(Since(s, t)) && t.replies == []
  {
    assert Bad(Since(s, t)[0].code);
  }

  lemma RepliesAreUsed(s: State, t: State)
    requires Asked(s, t) && |t.log| > |s.log| && s.replies != []
    ensures |t.replies| < |s.replies|
  {
    hide AnyBad, Answered;
  }

  // Every round uses up a reply while there are any; after that it takes the registry out at once.
  lemma RoundMakesProgress(s: State, events: seq<Event>, sizes: seq<nat>)
    requires s.current.Some? && s.current.value in Good(s.nodes)
    ensures var o := RegisteredOperation(s, events, sizes);
      && |o.left| <= |events| && |o.s.replies| <= |s.replies|
      && (s.replies != [] ==> |o.s.replies| < |s.replies|)
      && (s.replies == [] ==> !o.clean && o.left == events && Good(o.s.nodes) < Good(s.nodes))
  {
    hide RegisterSimple, Serve, Asked, AnyBad, AnyFails, HandleHeartbeatResponse;
    var r := RegisterSimple(s, sizes);
    RegistrationIsExact(s, sizes);
    AskingIsLiving(s, r);
    if r.status == REG_DONE {
      var (t, ok) := Heartbeat(r, sizes);
      HeartbeatIsExact(r, sizes);
      AskedTwice(s, r, t);
      AskingIsLiving(s, t);
      if s.replies == [] {
        UnansweredIsBad(s, t);
        NoAnswerFails(r, sizes);
      } else {
        RepliesAreUsed(s, t);
        EventsAreUsed(t, events, sizes);
      }
    } else if s.replies == [] {
      FailureWasAnswered(s, r);
      UnansweredIsBad(s, r);
    } else {
      FailureWasAnswered(s, r);
      RepliesAreUsed(s, r);
    }
  }

  lemma NoAnswerFails(s: State, sizes: seq<nat>)
    requires s.replies == []
    ensures !Heartbeat(s, sizes).1
  {
  }

  lemma FailureWasAnswered(s: State, t: State)
    requires s.log <= t.log && AnyFails(Since(s, t))
    ensures |t.log| > |s.log|
  {
  }

  // The state at the end, the events that are left, and the registries of the rounds that failed.
  datatype Run = Run(s: State, left: seq<Event>, failed: seq<Url>)

  function FindRegisterNode(s: State, events: seq<Event>, sizes: seq<nat>): Run
    decreases |s.replies| + |events|, Good(s.nodes)
  {
    FindPicksBest(s);
    var f := Find(s);
    if f.current == None then Run(f, events, [])
    else
      RoundMakesProgress(f, events, sizes);
      var o := RegisteredOperation(f, events, sizes);
      if o.clean then Run(Unregister(o.s), o.left, [])
      else
        var run := FindRegisterNode(o.s, o.left, sizes);
        run.(failed := [f.current.value] + run.failed)
  }

  // Every answer that fails a round is one that marks the registry.
  predicate FailuresMark(log: seq<Exchange>) {
    forall i :: 0 <= i < |log| && Fails(log[i]) ==> Bad(log[i].code)
  }

  predicate Distinct(urls: seq<Url>) {
    forall i, j :: 0 <= i < j < |urls| ==> urls[i] != urls[j]
  }

  lemma {:induction false} DistinctFit(urls: seq<Url>, s: set<Url>)
    requires Distinct(urls) && forall i :: 0 <= i < |urls| ==> urls[i] in s
    ensures |urls| <= |s|
  {
    if urls != [] {
      var rest := s - {urls[0]};
      assert |rest| == |s| - 1;
      forall i | 0 <= i < |urls[1..]| ensures urls[1..][i] in rest {
        assert urls[i + 1] != urls[0];
      }
      DistinctFit(urls[1..], rest);
    }
  }

  lemma LivedLog(s: State, t: State, events: seq<Event>)
    requires Lived(s, t, events)
    ensures s.log <= t.log && t.current == s.current && Good(t.nodes) <= Good(s.nodes)
  {
  }

  lemma FailuresMarkParts(a: seq<Exchange>, b: seq<Exchange>)
    requires FailuresMark(a + b)
    ensures FailuresMark(a) && FailuresMark(b)
    ensures AnyFails(a) ==> AnyBad(a)
  {
    hide Fails, Bad;
    assert forall i :: 0 <= i < |a| ==> (a + b)[i] == a[i];
    assert forall i :: 0 <= i < |b| ==> (a + b)[|a| + i] == b[i];
  }

  // A failed round takes its registry out of the good ones for ever.
  lemma FailedRoundLosesRegistry(s: State, events: seq<Event>, sizes: seq<nat>)
    requires s.current.Some? && s.current.value in Good(s.nodes) && NothingNew(events)
    requires !RegisteredOperation(s, events, sizes).clean
    requires FailuresMark(Since(s, RegisteredOperation(s, events, sizes).s))
    ensures Good(RegisteredOperation(s, events, sizes).s.nodes) <= Good(s.nodes) - {s.current.value}
  {
    RoundIsExact(s, events, sizes);
    var o := RegisteredOperation(s, events, sizes);
    LivedLog(s, o.s, Used(events, o.left));
    FailuresMarkParts(Since(s, o.s), []);
    assert Since(s, o.s) + [] == Since(s, o.s);
    hide RegisteredOperation, Lived, AnyFails, AnyBad;
  }

  lemma FailedFirst(s: set<Url>, t: set<Url>, u: Url, rest: seq<Url>)
    requires u in s && t <= s - {u} && Distinct(rest) && forall i :: 0 <= i < |rest| ==> rest[i] in t
    ensures Distinct([u] + rest) && forall i :: 0 <= i < |[u] + rest| ==> ([u] + rest)[i] in s
  {
  }

  // ---------- How many requests there are ----------

  // A POST of the node right after its DELETE is not answered 200.
  predicate NoRevival(log: seq<Exchange>) {
    forall i :: 0 <= i < |log| - 1 && log[i].request == DELETE && log[i + 1].request == NODE ==> log[i + 1].code != 200
  }

  lemma NoRevivalParts(a: seq<Exchange>, b: seq<Exchange>)
    requires NoRevival(a + b)
    ensures NoRevival(a) && NoRevival(b)
  {
    forall i | 0 <= i < |a| - 1 && a[i].request == DELETE && a[i + 1].request == NODE ensures a[i + 1].code != 200 {
      assert (a + b)[i] == a[i] && (a + b)[i + 1] == a[i + 1];
    }
    forall i | 0 <= i < |b| - 1 && b[i].request == DELETE && b[i + 1].request == NODE ensures b[i + 1].code != 200 {
      assert (a + b)[|a| + i] == b[i] && (a + b)[|a| + i + 1] == b[i + 1];
    }
  }

  lemma {:induction false} ResourcesCount(s: State, n: nat)
    ensures |s.log| <= |RegisterResources(s, n).0.log| <= |s.log| + n
    decreases n
  {
    if n > 0 && Accepted(Code(s)) {
      ResourcesCount(Ask(s, RESOURCE), n - 1);
    }
  }

  lemma {:induction false} HoldersCount(s: State, sizes: seq<nat>)
    ensures |s.log| <= |RegisterHolders(s, sizes).0.log| <= |s.log| + Total(sizes)
    decreases |sizes|
  {
    hide RegisterResources;
    if sizes != [] {
      ResourcesCount(s, sizes[0]);
      HoldersCount(RegisterResources(s, sizes[0]).0, sizes[1..]);
    }
  }

  // A node that is not known costs its POST, its resources and at most one DELETE.
  lemma UnknownNodeCount(s: State, sizes: seq<nat>)
    requires s.current.Some? && s.status != REG_DONE && Code(s) != 200
    ensures 1 <= |RegisterSimple(s, sizes).log| - |s.log| <= Total(sizes) + 2
  {
    hide RegisterHolders;
    var t := Ask(s.(status := REG_FAILED), NODE);
    HoldersCount(t, sizes);
  }

  // A registry that knows the node k times in a row, whenever it is posted, is asked at least 2k + 1
  // times and at most twice more than 2k and the number of resources.
  lemma {:induction false} RegistrationIsBounded(s: State, sizes: seq<nat>, k: nat)
    requires s.current.Some? && s.status != REG_DONE
    requires (forall i :: 0 <= i < k ==> Reply(s.replies, 2 * i) == 200) && Reply(s.replies, 2 * k) != 200
    ensures 2 * k + 1 <= |RegisterSimple(s, sizes).log| - |s.log| <= 2 * k + Total(sizes) + 2
    decreases k
  {
    hide RegisterHolders, MarkBad;
    if k == 0 {
      UnknownNodeCount(s, sizes);
    } else {
      assert Reply(s.replies, 2 * 0) == 200;
      var t := Unregister(Ask(s.(status := REG_FAILED), NODE));
      forall i | 0 <= i < k ensures Reply(t.replies, 2 * i) == Reply(s.replies, 2 * (i + 1)) {
      }
      assert Reply(t.replies, 2 * (k - 1)) == Reply(s.replies, 2 * k);
      RegistrationIsBounded(t, sizes, k - 1);
    }
  }

  // Every script has such a k: the answers run out.
  lemma {:induction false} KnownSoManyTimes(replies: seq<int>) returns (k: nat)
    ensures (forall i :: 0 <= i < k ==> Reply(replies, 2 * i) == 200) && Reply(replies, 2 * k) != 200
    decreases |replies|
  {
    k := 0;
    if Reply(replies, 0) == 200 {
      var rest := RepliesAfter(replies, 2);
      var j := KnownSoManyTimes(rest);
      k := j + 1;
      forall i | 0 <= i < k ensures Reply(replies, 2 * i) == 200 {
        if i > 0 {
          assert Reply(rest, 2 * (i - 1)) == 200;
        }
      }
    }
  }

  // Without revivals k is at most 1.
  lemma RegistrationWithoutRevival(s: State, sizes: seq<nat>)
    requires s.current.Some? && NoRevival(Since(s, RegisterSimple(s, sizes)))
    ensures |RegisterSimple(s, sizes).log| <= |s.log| + Total(sizes) + 4
  {
    hide RegisterHolders, MarkBad;
    if s.status != REG_DONE {
      if Code(s) != 200 {
        UnknownNodeCount(s, sizes);
      } else {
        var t := Unregister(Ask(s.(status := REG_FAILED), NODE));
        var last := RegisterSimple(t, sizes);
        StartsWithNode(t, sizes);
        var e := Since(s, last);
        assert e[1] == last.log[|s.log| + 1] && e[2] == last.log[|s.log| + 2];
        assert Code(t) != 200;
        UnknownNodeCount(t, sizes);
      }
    }
  }

  lemma StartsWithNode(s: State, sizes: seq<nat>)
    requires s.current.Some? && s.status != REG_DONE
    ensures var t := RegisterSimple(s, sizes); s.log + [Exchange(NODE, Code(s))] <= t.log
  {
    hide AnyBad, AnyFails, RegisterHolders, MarkBad;
    var t := Ask(s.(status := REG_FAILED), NODE);
    if Code(s) == 200 {
      RegistrationIsExact(Unregister(t), sizes);
    } else if Code(s) == 201 {
      HoldersAsk(t, sizes);
    }
  }

  lemma SinceTwice(s: State, t: State, u: State)
    requires s.log <= t.log && t.log <= u.log
    ensures s.log <= u.log && Since(s, u) == Since(s, t) + Since(t, u) && |Since(s, u)| == |u.log| - |s.log|
  {
  }

  lemma RegistrationLog(s: State, sizes: seq<nat>)
    requires s.current.Some?
    ensures var t := RegisterSimple(s, sizes); s.log <= t.log && t.current == s.current
  {
    RegistrationIsExact(s, sizes);
    hide RegisterSimple, AnyBad, AnyFails;
  }

  // A heartbeat, a DELETE after a 409, and a registration.
  lemma HeartbeatIsBounded(s: State, sizes: seq<nat>)
    requires s.current.Some? && NoRevival(Since(s, Heartbeat(s, sizes).0))
    ensures |Heartbeat(s, sizes).0.log| <= |s.log| + Total(sizes) + 6
  {
    hide RegisterSimple, MarkBad, NoRevival;
    var t, code := Ask(s, HEARTBEAT), Unsigned(Code(s));
    if code == 404 || code == 409 {
      var again := if code == 404 then t.(status := REG_FAILED) else Unregister(t);
      var last := RegisterSimple(again, sizes);
      RegistrationLog(again, sizes);
      SinceTwice(s, again, last);
      NoRevivalParts(Since(s, again), Since(again, last));
      RegistrationWithoutRevival(again, sizes);
    }
  }

  lemma HeartbeatLog(s: State, sizes: seq<nat>)
    requires s.current.Some?
    ensures var t := Heartbeat(s, sizes).0; s.log <= t.log && t.current == s.current
  {
    HeartbeatIsExact(s, sizes);
    hide Heartbeat, AnyBad, AnyFails;
  }

  lemma {:induction false} ServingIsBounded(s: State, events: seq<Event>, sizes: seq<nat>)
    requires s.current.Some?
    ensures var o := Serve(s, events, sizes);
      && s.log <= o.s.log && o.s.current == s.current && |o.left| <= |events|
      && (NoRevival(Since(s, o.s)) ==> |o.s.log| - |s.log| <= (|events| - |o.left|) * (Total(sizes) + 6))
    decreases |events|
  {
    hide Heartbeat, NoRevival, Discovered, Total;
    if events != [] {
      var o, rest := Serve(s, events, sizes), events[1..];
      HeartbeatLog(s, sizes);
      var (t, ok) := Heartbeat(s, sizes);
      if events[0] == Timeout {
        ServingIsBounded(t, rest, sizes);
        var last := if ok then o.s else t;
        SinceTwice(s, t, last);
        if NoRevival(Since(s, last)) {
          NoRevivalParts(Since(s, t), Since(t, last));
          HeartbeatIsBounded(s, sizes);
        }
        OneMore(|events| - |o.left|, Total(sizes) + 6);
      } else {
        var u := s.(nodes := Discovered(s.nodes, events[0]));
        ServingIsBounded(u, rest, sizes);
        assert Since(s, o.s) == Since(u, o.s);
        OneMore(|events| - |o.left|, Total(sizes) + 6);
      }
    }
  }

  lemma OneMore(n: nat, b: nat)
    requires n > 0
    ensures n * b == (n - 1) * b + b
  {
  }

  // The requests of a round are bounded by its events, whatever the script.
  lemma RoundIsBounded(s: State, events: seq<Event>, sizes: seq<nat>)
    requires s.current.Some?
    ensures var o := RegisteredOperation(s, events, sizes);
      && s.log <= o.s.log && o.s.current == s.current && |o.left| <= |events|
      && (NoRevival(Since(s, o.s)) ==> |o.s.log| - |s.log| <= (|events| - |o.left| + 2) * (Total(sizes) + 6))
  {
    hide RegisterSimple, Heartbeat, Serve, NoRevival, Total;
    var r, o := RegisterSimple(s, sizes), RegisteredOperation(s, events, sizes);
    RegistrationLog(s, sizes);
    var b := Total(sizes) + 6;
    if r.status != REG_DONE {
      if NoRevival(Since(s, r)) {
        RegistrationWithoutRevival(s, sizes);
      }
    } else {
      var (t, ok) := Heartbeat(r, sizes);
      HeartbeatLog(r, sizes);
      ServingIsBounded(t, events, sizes);
      SinceTwice(r, t, o.s);
      SinceTwice(s, r, o.s);
      if NoRevival(Since(s, o.s)) {
        NoRevivalParts(Since(s, r), Since(r, o.s));
        NoRevivalParts(Since(r, t), Since(t, o.s));
        RegistrationWithoutRevival(s, sizes);
        HeartbeatIsBounded(r, sizes);
      }
    }
    OneMore(|events| - |o.left| + 2, b);
    OneMore(|events| - |o.left| + 1, b);
  }

  lemma RunLog(s: State, events: seq<Event>, sizes: seq<nat>)
    ensures var run := FindRegisterNode(s, events, sizes); s.log <= run.s.log && |run.left| <= |events|
    decreases |s.replies| + |events|, Good(s.nodes)
  {
    hide RegisteredOperation, Find;
    FindPicksBest(s);
    var f := Find(s);
    if f.current != None {
      RoundMakesProgress(f, events, sizes);
      RoundIsBounded(f, events, sizes);
      var o := RegisteredOperation(f, events, sizes);
      if !o.clean {
        RunLog(o.s, o.left, sizes);
      }
    }
  }

  // The requests of a run are bounded by its events and its failed rounds, whatever the script.
  lemma {:induction false} RequestsAreBounded(s: State, events: seq<Event>, sizes: seq<nat>)
    requires NoRevival(Since(s, FindRegisterNode(s, events, sizes).s))
    ensures var run := FindRegisterNode(s, events, sizes);
      |Since(s, run.s)| <= (|events| - |run.left| + 2 * |run.failed| + 2) * (Total(sizes) + 6) + 1
    decreases |s.replies| + |events|, Good(s.nodes)
  {
    hide RegisteredOperation, Find, NoRevival, Total, MarkBad;
    FindPicksBest(s);
    var f, b := Find(s), Total(sizes) + 6;
    var run := FindRegisterNode(s, events, sizes);
    RunLog(s, events, sizes);
    if f.current == None {
      assert Since(s, f) == [];
    } else {
      RoundMakesProgress(f, events, sizes);
      RoundIsBounded(f, events, sizes);
      var o := RegisteredOperation(f, events, sizes);
      SinceFound(s, f, run.s);
      RunLog(o.s, o.left, sizes);
      SinceTwice(f, o.s, run.s);
      NoRevivalParts(Since(f, o.s), Since(o.s, run.s));
      if !o.clean {
        var later := FindRegisterNode(o.s, o.left, sizes);
        RequestsAreBounded(o.s, o.left, sizes);
        Together(|events| - |o.left| + 2, |o.left| - |later.left| + 2 * |later.failed| + 2, b);
      }
    }
  }

  lemma SinceFound(s: State, f: State, t: State)
    requires f.log == s.log
    ensures Since(s, t) == Since(f, t)
  {
  }

  lemma Together(m: nat, n: nat, b: nat)
    ensures m * b + n * b == (m + n) * b
  {
  }

  // Failover ends: when no new registry appears and every failing answer is 500 or below 100, no
  // registry fails twice, so there are at most as many failed rounds as good registries. When
  // moreover no POST of the node right after its DELETE is answered 200, the number of requests is
  // bounded by the events, the registries and the resources, however long the script.
  lemma FailoverEnds(s: State, events: seq<Event>, sizes: seq<nat>)
    requires NothingNew(events)
    requires FailuresMark(Since(s, FindRegisterNode(s, events, sizes).s))
    ensures var failed := FindRegisterNode(s, events, sizes).failed;
      && Distinct(failed) && (forall i :: 0 <= i < |failed| ==> failed[i] in Good(s.nodes))
      && |failed| <= |Good(s.nodes)|
    ensures var e := Since(s, FindRegisterNode(s, events, sizes).s);
      NoRevival(e) ==> |e| <= (|events| + 2 * |Good(s.nodes)| + 2) * (Total(sizes) + 6) + 1
  {
    hide *;
    NoRegistryFailsTwice(s, events, sizes);
    var run, b := FindRegisterNode(s, events, sizes), Total(sizes) + 6;
    if NoRevival(Since(s, run.s)) {
      RequestsAreBounded(s, events, sizes);
      RunLog(s, events, sizes);
      NoMore(|events| - |run.left| + 2 * |run.failed| + 2, |events| + 2 * |Good(s.nodes)| + 2, b);
    }
  }

  lemma NoMore(m: nat, n: nat, b: nat)
    requires m <= n
    ensures m * b <= n * b
  {
  }

  lemma {:induction false} NoRegistryFailsTwice(s: State, events: seq<Event>, sizes: seq<nat>)
    requires NothingNew(events)
    requires FailuresMark(Since(s, FindRegisterNode(s, events, sizes).s))
    ensures var failed := FindRegisterNode(s, events, sizes).failed;
      && Distinct(failed) && (forall i :: 0 <= i < |failed| ==> failed[i] in Good(s.nodes))
      && |failed| <= |Good(s.nodes)|
    decreases |s.replies| + |events|, Good(s.nodes)
  {
    hide RegisteredOperation, Lived, AnyFails, AnyBad, Asked, FailuresMark, Distinct, Unregister;
    RunLog(s, events, sizes);
    FindPicksBest(s);
    var f := Find(s);
    NoneIsDistinct();
    if f.current != None {
      RoundMakesProgress(f, events, sizes);
      RoundIsExact(f, events, sizes);
      var o := RegisteredOperation(f, events, sizes);
      LivedLog(f, o.s, Used(events, o.left));
      if !o.clean {
        var run := FindRegisterNode(o.s, o.left, sizes);
        RunLog(o.s, o.left, sizes);
        assert Since(s, run.s) == Since(f, o.s) + Since(o.s, run.s);
        FailuresMarkParts(Since(f, o.s), Since(o.s, run.s));
        FailedRoundLosesRegistry(f, events, sizes);
        NoRegistryFailsTwice(o.s, o.left, sizes);
        FailedFirst(Good(s.nodes), Good(o.s.nodes), f.current.value, run.failed);
      }
    }
    DistinctFit(FindRegisterNode(s, events, sizes).failed, Good(s.nodes));
  }

  lemma NoneIsDistinct()
    ensures Distinct([])
  {
  }

  // ---------- What the assumption on the answers is for ----------

  // One good registry, already chosen, that answers the next n requests with 503.
  predicate Unavailable(s: State, n: nat) {
    s.nodes == map[0 := RegNode(true, 0)] && s.current == Some(0) && |s.replies| == n
    && forall i :: 0 <= i < n ==> s.replies[i] == 503
  }

  lemma OnlyChoice(s: State)
    requires s.nodes == map[0 := RegNode(true, 0)] && s.current == Some(0)
    ensures Find(s) == s.(status := REG_DONE)
  {
    FindPicksBest(s);
    hide Scan;
    assert Eligible(s.nodes, 0);
  }

  lemma NoChoice(s: State)
    requires s.nodes == map[0 := RegNode(false, 0)]
    ensures Find(s).current == None
  {
    FindPicksBest(s);
    hide Scan;
  }

  // It is given up and chosen again for as long as it answers so: 503 fails a round without marking
  // the registry, and the number of failed rounds has no bound.
  lemma {:induction false} UnavailableIsRetried(s: State, n: nat, sizes: seq<nat>)
    requires Unavailable(s, n)
    ensures |FindRegisterNode(s, [], sizes).failed| == n + 1
    ensures !FailuresMark([Exchange(HEARTBEAT, 503)])
    decreases n
  {
    assert Fails([Exchange(HEARTBEAT, 503)][0]);
    hide Find;
    OnlyChoice(s);
    var f := s.(status := REG_DONE);
    assert RegisterSimple(f, sizes) == f;
    var t := Ask(f, HEARTBEAT).(status := REG_FAILED);
    assert Heartbeat(f, sizes) == (t, false);
    assert RegisteredOperation(f, [], sizes) == Outcome(t, [], false);
    if n == 0 {
      assert t.nodes == map[0 := RegNode(false, 0)];
      NoChoice(t);
    } else {
      assert Unavailable(t, n - 1);
      UnavailableIsRetried(t, n - 1, sizes);
    }
  }

  // A registry that knows the node again after each DELETE keeps one registration going for as long
  // as it answers so.
  lemma {:induction false} KnownNodeIsRetried(s: State, sizes: seq<nat>)
    requires s.current.Some? && s.status != REG_DONE && forall i :: 0 <= i < |s.replies| ==> s.replies[i] == 200
    ensures var t := RegisterSimple(s, sizes); t.replies == [] && |t.log| > |s.log| + |s.replies|
    decreases |s.replies|
  {
    hide RegisterHolders, MarkBad;
    var t := Ask(s.(status := REG_FAILED), NODE);
    if s.replies != [] {
      KnownNodeIsRetried(Unregister(t), sizes);
    }
  }

  // ---------- Whether the node is registered before its heartbeats ----------

  predicate NoHeartbeat(e: seq<Exchange>) {
    forall i :: 0 <= i < |e| ==> e[i].request != HEARTBEAT
  }

  // Before every heartbeat the node was answered 201 and every one of the n resources accepted.
  ghost predicate Announced(e: seq<Exchange>, n: nat) {
    forall i :: 0 <= i < |e| && e[i].request == HEARTBEAT ==> exists j :: 0 <= j <= i && Registered(e[..j], n)
  }

  // No part of the log up to some point is a registration.
  ghost predicate NeverRegistered(e: seq<Exchange>, n: nat) {
    forall j :: 0 <= j <= |e| ==> !Registered(e[..j], n)
  }

  lemma {:induction false} ResourcesAreResources(s: State, n: nat)
    ensures var (t, ok) := RegisterResources(s, n);
      && s.log <= t.log && t.current == s.current && (forall i :: 0 <= i < |Since(s, t)| ==> Since(s, t)[i].request == RESOURCE)
      && |Since(s, t)| <= n && (ok ==> |Since(s, t)| == n)
      && (!ok ==> |Since(s, t)| > 0 && !Accepted(Since(s, t)[|Since(s, t)| - 1].code))
    decreases n
  {
    hide MarkBad;
    if n > 0 && Accepted(Code(s)) {
      var t := Ask(s, RESOURCE);
      ResourcesAreResources(t, n - 1);
      var last := RegisterResources(t, n - 1).0;
      assert Since(s, last) == [Exchange(RESOURCE, Code(s))] + Since(t, last);
    }
  }

  lemma {:induction false} HoldersAreResources(s: State, sizes: seq<nat>)
    ensures var (t, ok) := RegisterHolders(s, sizes);
      && s.log <= t.log && t.current == s.current && (forall i :: 0 <= i < |Since(s, t)| ==> Since(s, t)[i].request == RESOURCE)
      && |Since(s, t)| <= Total(sizes)
      && (!ok ==> |Since(s, t)| > 0 && !Accepted(Since(s, t)[|Since(s, t)| - 1].code))
    decreases |sizes|
  {
    hide RegisterResources;
    if sizes != [] {
      ResourcesAreResources(s, sizes[0]);
      var (t, ok) := RegisterResources(s, sizes[0]);
      if ok {
        HoldersAreResources(t, sizes[1..]);
        var last := RegisterHolders(t, sizes[1..]).0;
        assert Since(s, last) == Since(s, t) + Since(t, last);
      }
    }
  }

  // What Registered says of a part of the log, on the log itself.
  lemma RegisteredAt(e: seq<Exchange>, j: nat, n: nat)
    requires j <= |e|
    ensures Registered(e[..j], n) <==>
      j > n && e[j - n - 1] == Exchange(NODE, 201) && forall i :: j - n <= i < j ==> e[i].request == RESOURCE && Accepted(e[i].code)
  {
    hide Accepted;
    var p := e[..j];
    if j > n {
      var last := p[|p| - n..];
      assert forall i :: 0 <= i < n ==> last[i] == e[j - n + i];
      if AllPosted(last, n) {
        forall i | j - n <= i < j ensures e[i].request == RESOURCE && Accepted(e[i].code) {
          assert last[i - (j - n)] == e[i];
        }
      }
    }
  }

  // A log without the node answered 201 is no registration, nor is one in which a resource was refused
  // after it.
  lemma RefusedIsNoRegistration(h: seq<Exchange>, c: int, n: nat)
    requires 0 < |h| <= n && (forall i :: 0 <= i < |h| ==> h[i].request == RESOURCE) && !Accepted(h[|h| - 1].code)
    ensures NeverRegistered([Exchange(NODE, 201)] + h + [Exchange(DELETE, c)], n)
  {
    hide Registered;
    var e := [Exchange(NODE, 201)] + h + [Exchange(DELETE, c)];
    assert e[|h|] == h[|h| - 1] && forall i :: 1 <= i <= |h| ==> e[i] == h[i - 1];
    forall j | 0 <= j <= |e| ensures !Registered(e[..j], n) {
      RegisteredAt(e, j, n);
    }
  }

  lemma OtherAnswerIsNoRegistration(code: int, c: int, n: nat)
    requires code != 201
    ensures NeverRegistered([Exchange(NODE, code), Exchange(DELETE, c)], n)
  {
    hide Registered;
    var e := [Exchange(NODE, code), Exchange(DELETE, c)];
    forall j | 0 <= j <= |e| ensures !Registered(e[..j], n) {
      RegisteredAt(e, j, n);
    }
  }

  lemma NeverRegisteredLater(code: int, c: int, e: seq<Exchange>, n: nat)
    requires code != 201 && NeverRegistered(e, n)
    ensures NeverRegistered([Exchange(NODE, code), Exchange(DELETE, c)] + e, n)
  {
    hide Registered, Accepted;
    var all := [Exchange(NODE, code), Exchange(DELETE, c)] + e;
    assert forall i :: 0 <= i < |e| ==> all[i + 2] == e[i];
    forall j | 0 <= j <= |all| ensures !Registered(all[..j], n) {
      RegisteredAt(all, j, n);
      if j >= 2 {
        RegisteredAt(e, j - 2, n);
        assert forall i :: 2 <= i < j ==> all[i] == e[i - 2];
      }
    }
  }

  // A registration asks no heartbeat, and one that fails has not posted everything at any point.
  lemma {:induction false} FailedRegistrationPostsNotAll(s: State, sizes: seq<nat>)
    requires s.current.Some? && s.status != REG_DONE
    ensures var t := RegisterSimple(s, sizes);
      && s.log <= t.log && t.current == s.current && NoHeartbeat(Since(s, t))
      && (t.status != REG_DONE ==> NeverRegistered(Since(s, t), Total(sizes)))
    decreases |s.replies|
  {
    hide RegisterHolders, MarkBad, NeverRegistered;
    var first := s.(status := REG_FAILED);
    var t, last := Ask(first, NODE), RegisterSimple(s, sizes);
    if Code(s) == 200 {
      var again := Unregister(t);
      FailedRegistrationPostsNotAll(again, sizes);
      assert Since(s, last) == [Exchange(NODE, 200), Exchange(DELETE, Code(t))] + Since(again, last);
      if last.status != REG_DONE {
        NeverRegisteredLater(200, Code(t), Since(again, last), Total(sizes));
      }
    } else if Code(s) != 201 {
      assert Since(s, last) == [Exchange(NODE, Code(s)), Exchange(DELETE, Code(t))];
      OtherAnswerIsNoRegistration(Code(s), Code(t), Total(sizes));
    } else {
      HoldersAreResources(t, sizes);
      var (u, ok) := RegisterHolders(t, sizes);
      assert Since(s, u) == [Exchange(NODE, 201)] + Since(t, u);
      if !ok {
        assert Since(s, last) == [Exchange(NODE, 201)] + Since(t, u) + [Exchange(DELETE, Code(u))];
        RefusedIsNoRegistration(Since(t, u), Code(u), Total(sizes));
      }
    }
  }

  lemma AnnouncedFrom(a: seq<Exchange>, b: seq<Exchange>, n: nat)
    requires NoHeartbeat(a) && Registered(a, n)
    ensures Announced(a + b, n)
  {
    assert (a + b)[..|a|] == a;
    forall i | 0 <= i < |a + b| && (a + b)[i].request == HEARTBEAT ensures exists j :: 0 <= j <= i && Registered((a + b)[..j], n) {
      assert |a| <= i;
    }
  }

  lemma NotAnnounced(a: seq<Exchange>, b: seq<Exchange>, n: nat)
    requires NeverRegistered(a, n) && b != [] && b[0].request == HEARTBEAT
    ensures !Announced(a + b, n)
  {
    var e := a + b;
    assert e[|a|].request == HEARTBEAT;
    forall j | 0 <= j <= |a| ensures !Registered(e[..j], n) {
      assert e[..j] == a[..j];
    }
  }

  // A round begins with a registration exactly when the node does not count as registered, and
  // otherwise with a heartbeat.
  lemma RoundBegins(s: State, events: seq<Event>, sizes: seq<nat>)
    requires s.current.Some?
    ensures var o := RegisteredOperation(s, events, sizes);
      && s.log < o.s.log && o.s.log[|s.log|].request == if s.status == REG_DONE then HEARTBEAT else NODE
  {
    hide MarkBad, RegisterHolders, Serve;
    var r, o := RegisterSimple(s, sizes), RegisteredOperation(s, events, sizes);
    if s.status != REG_DONE {
      StartsWithNode(s, sizes);
    }
    RegistrationLog(s, sizes);
    if r.status == REG_DONE {
      HeartbeatBegins(r, sizes);
      var t := Heartbeat(r, sizes).0;
      ServingIsBounded(t, events, sizes);
    }
  }

  lemma HeartbeatBegins(s: State, sizes: seq<nat>)
    requires s.current.Some?
    ensures var t := Heartbeat(s, sizes).0; s.log < t.log && t.log[|s.log|].request == HEARTBEAT && t.current == s.current
  {
    HeartbeatLog(s, sizes);
    hide MarkBad, AnyBad, AnyFails;
    var t := Ask(s, HEARTBEAT);
    RegistrationLog(t.(status := REG_FAILED), sizes);
    RegistrationLog(Unregister(t), sizes);
    hide RegisterSimple;
  }

  // A first round posts the node and all its resources before it asks for any heartbeat; so a round
  // that ends clean has registered the node.
  lemma FirstRoundRegisters(s: State, events: seq<Event>, sizes: seq<nat>)
    requires s.current.Some? && s.status != REG_DONE
    ensures var o := RegisteredOperation(s, events, sizes);
      && s.log <= o.s.log && Announced(Since(s, o.s), Total(sizes))
      && (o.clean ==> exists j :: 0 <= j <= |Since(s, o.s)| && Registered(Since(s, o.s)[..j], Total(sizes)))
  {
    hide RegisterSimple, Heartbeat, Serve, Registered, NeverRegistered;
    var r, o, n := RegisterSimple(s, sizes), RegisteredOperation(s, events, sizes), Total(sizes);
    FailedRegistrationPostsNotAll(s, sizes);
    if r.status == REG_DONE {
      RegistrationPostsAll(s, sizes);
      var t := Heartbeat(r, sizes).0;
      HeartbeatLog(r, sizes);
      ServingIsBounded(t, events, sizes);
      SinceTwice(s, r, o.s);
      AnnouncedFrom(Since(s, r), Since(r, o.s), n);
      assert Since(s, o.s)[..|Since(s, r)|] == Since(s, r);
    }
  }

  // Over a whole run from the start: every heartbeat comes after a registration exactly when there is
  // no registry, or the first registration succeeds, or it fails and leaves none to go on with. When it
  // fails and one is found, the node counts as registered there, and its first request is a heartbeat.
  lemma HeartbeatsAreAnnouncedExactly(s: State, events: seq<Event>, sizes: seq<nat>)
    requires s.current == None
    ensures
      var f := Find(s);
      var r := RegisterSimple(f, sizes);
      Announced(Since(s, FindRegisterNode(s, events, sizes).s), Total(sizes))
      <==> f.current == None || r.status == REG_DONE || Find(r).current == None
  {
    hide RegisterSimple, Heartbeat, Serve, Registered, NeverRegistered, Find, Announced, RegisteredOperation;
    FindPicksBest(s);
    var f, run := Find(s), FindRegisterNode(s, events, sizes);
    if f.current == None {
      NothingIsAnnounced(Total(sizes));
      assert Since(s, f) == [];
    } else {
      FirstRound(f, events, sizes);
      var o := RegisteredOperation(f, events, sizes);
      SinceFound(s, f, run.s);
      RunLog(s, events, sizes);
      RoundMakesProgress(f, events, sizes);
      LaterRounds(s, f, o, events, sizes);
    }
  }

  lemma NothingIsAnnounced(n: nat)
    ensures Announced([], n)
  {
  }

  // The first round, as far as it decides.
  lemma FirstRound(f: State, events: seq<Event>, sizes: seq<nat>)
    requires f.current.Some? && f.status != REG_DONE
    ensures
      var r, o := RegisterSimple(f, sizes), RegisteredOperation(f, events, sizes);
      && f.log <= o.s.log && o.s.current == f.current
      && (if r.status == REG_DONE
          then f.log <= r.log && r.log <= o.s.log && NoHeartbeat(Since(f, r)) && Registered(Since(f, r), Total(sizes))
          else o == Outcome(r, events, false) && NoHeartbeat(Since(f, r)) && NeverRegistered(Since(f, r), Total(sizes)))
  {
    hide RegisterSimple, Heartbeat, Serve, Registered, NeverRegistered;
    FailedRegistrationPostsNotAll(f, sizes);
    var r := RegisterSimple(f, sizes);
    if r.status == REG_DONE {
      RegistrationPostsAll(f, sizes);
      HeartbeatLog(r, sizes);
      ServingIsBounded(Heartbeat(r, sizes).0, events, sizes);
    }
  }

  lemma LaterRounds(s: State, f: State, o: Outcome, events: seq<Event>, sizes: seq<nat>)
    requires f == Find(s) && f.current.Some? && f.status != REG_DONE && o == RegisteredOperation(f, events, sizes)
    requires f.log <= o.s.log && o.s.current == f.current
    ensures
      var r, run := RegisterSimple(f, sizes), FindRegisterNode(s, events, sizes);
      f.log <= run.s.log
      && (Announced(Since(f, run.s), Total(sizes)) <==> r.status == REG_DONE || Find(r).current == None)
  {
    hide RegisterSimple, Registered, NeverRegistered, Find, Announced, NoHeartbeat, RegisteredOperation;
    FirstRound(f, events, sizes);
    FindPicksBest(s);
    RoundMakesProgress(f, events, sizes);
    var r, run, n := RegisterSimple(f, sizes), FindRegisterNode(s, events, sizes), Total(sizes);
    var later := FindRegisterNode(o.s, o.left, sizes);
    RunLog(o.s, o.left, sizes);
    RunLog(s, events, sizes);
    if r.status == REG_DONE {
      SinceTwice(f, r, run.s);
      AnnouncedFrom(Since(f, r), Since(r, run.s), n);
    } else {
      FindPicksBest(r);
      var g := Find(r);
      if g.current == None {
        assert later.s == g && Since(f, run.s) == Since(f, r);
        SilentIsAnnounced(Since(f, r), n);
      } else {
        SecondRoundBegins(r, events, sizes);
        SinceTwice(f, r, run.s);
        NotAnnounced(Since(f, r), Since(r, run.s), n);
      }
    }
  }

  lemma SilentIsAnnounced(e: seq<Exchange>, n: nat)
    requires NoHeartbeat(e)
    ensures Announced(e, n)
  {
  }

  lemma SecondRoundBegins(r: State, events: seq<Event>, sizes: seq<nat>)
    requires r.current.Some? && Find(r).current.Some?
    ensures var run := FindRegisterNode(r, events, sizes);
      r.log < run.s.log && Since(r, run.s) != [] && Since(r, run.s)[0].request == HEARTBEAT
  {
    hide RegisteredOperation, Find;
    FindPicksBest(r);
    var g := Find(r);
    RoundBegins(g, events, sizes);
    RoundMakesProgress(g, events, sizes);
    var o := RegisteredOperation(g, events, sizes);
    RunLog(o.s, o.left, sizes);
  }

  predicate AllOk(replies: seq<int>) {
    forall i :: 0 <= i < |replies| ==> replies[i] == 200
  }

  function Timeouts(n: nat): (r: seq<Event>)
    ensures |r| == n
  {
    seq(n, _ => Timeout)
  }

  function Beats(n: nat): (r: seq<Exchange>)
    ensures |r| == n
  {
    seq(n, _ => Exchange(HEARTBEAT, 200))
  }

  // Answers of 200 keep the registry in use.
  lemma {:induction false} ServesOn(s: State, n: nat, sizes: seq<nat>)
    requires AllOk(s.replies) && |s.replies| >= n
    ensures Serve(s, Timeouts(n), sizes) == Outcome(s.(replies := s.replies[n..], log := s.log + Beats(n)), [], true)
    decreases n
  {
    hide RegisterSimple, MarkBad;
    if n > 0 {
      var t := Ask(s, HEARTBEAT);
      assert Code(s) == 200 && Heartbeat(s, sizes) == (t, true);
      assert Timeouts(n)[0] == Timeout && Timeouts(n)[1..] == Timeouts(n - 1);
      ServesOn(t, n - 1, sizes);
      assert t.replies[n - 1..] == s.replies[n..];
      assert [Exchange(HEARTBEAT, 200)] + Beats(n - 1) == Beats(n);
      assert t.log + Beats(n - 1) == s.log + Beats(n);
    } else {
      assert s.log + Beats(0) == s.log && s.replies[0..] == s.replies && Timeouts(0) == [];
    }
  }

  // A round at a registry where the node counts as registered, all answers 200.
  lemma RoundOfHeartbeats(s: State, n: nat, sizes: seq<nat>)
    requires s.status == REG_DONE && AllOk(s.replies) && |s.replies| >= n + 1
    ensures RegisteredOperation(s, Timeouts(n), sizes)
         == Outcome(s.(replies := s.replies[n + 1..], log := s.log + Beats(n + 1)), [], true)
  {
    hide MarkBad, Serve;
    var t := Ask(s, HEARTBEAT);
    assert Code(s) == 200 && Heartbeat(s, sizes) == (t, true);
    ServesOn(t, n, sizes);
    assert [Exchange(HEARTBEAT, 200)] + Beats(n) == Beats(n + 1);
    assert t.log + Beats(n) == s.log + Beats(n + 1);
  }

  lemma FirstOfTwo(s: State, u: Url, v: Url, bad: bool)
    requires u < v && s.nodes == map[u := RegNode(!bad, 0), v := RegNode(true, 0)]
    ensures Find(s) == s.(current := Some(if bad then v else u), status := if s.current == None then REG_START else REG_DONE)
  {
    FindPicksBest(s);
    assert Eligible(s.nodes, v) && (Eligible(s.nodes, u) <==> !bad);
  }

  // The first registry answers 500 to the node. With the second, which answers 200 to everything, the
  // node keeps up any number of heartbeats and is registered nowhere.
  lemma HeartbeatsWithoutRegistration(u: Url, v: Url, n: nat, replies: seq<int>, sizes: seq<nat>)
    requires u < v && |replies| == n + 4 && replies[0] == 500 && AllOk(replies[1..])
    ensures
      var s := State(map[u := RegNode(true, 0), v := RegNode(true, 0)], None, REG_START, replies, []);
      var run := FindRegisterNode(s, Timeouts(n), sizes);
      && run.failed == [u] && run.left == [] && run.s.current == Some(v)
      && run.s.log == [Exchange(NODE, 500), Exchange(DELETE, 200)] + Beats(n + 1) + [Exchange(DELETE, 200)]
  {
    hide Find, Serve, Heartbeat;
    var s := State(map[u := RegNode(true, 0), v := RegNode(true, 0)], None, REG_START, replies, []);
    FirstOfTwo(s, u, v, false);
    var f := Find(s);
    var r := RegisterSimple(f, sizes);
    assert replies[1] == replies[1..][0] && replies[1..][1..] == replies[2..];
    assert r == State(map[u := RegNode(false, 0), v := RegNode(true, 0)], Some(u), REG_FAILED, replies[2..],
                      [Exchange(NODE, 500), Exchange(DELETE, 200)]);
    FirstOfTwo(r, u, v, true);
    var g := Find(r);
    assert forall i :: 0 <= i < n + 2 ==> replies[2..][i] == replies[1..][i + 1];
    RoundOfHeartbeats(g, n, sizes);
    FirstThenSecond(s, f, r, g, n, sizes);
  }

  lemma FirstThenSecond(s: State, f: State, r: State, g: State, n: nat, sizes: seq<nat>)
    requires f == Find(s) && f.current.Some? && r == RegisterSimple(f, sizes) && r.status != REG_DONE
    requires g == Find(r) && g.current.Some? && g.status == REG_DONE && |g.replies| == n + 2 && AllOk(g.replies)
    requires RegisteredOperation(g, Timeouts(n), sizes)
          == Outcome(g.(replies := g.replies[n + 1..], log := g.log + Beats(n + 1)), [], true)
    ensures var run := FindRegisterNode(s, Timeouts(n), sizes);
      && run.failed == [f.current.value] && run.left == [] && run.s.current == g.current
      && run.s.log == g.log + Beats(n + 1) + [Exchange(DELETE, 200)]
  {
    hide Find, Serve, Heartbeat, RegisterSimple, MarkBad;
    FindPicksBest(s);
    FindPicksBest(r);
    RoundMakesProgress(f, Timeouts(n), sizes);
    RoundMakesProgress(g, Timeouts(n), sizes);
    assert RegisteredOperation(f, Timeouts(n), sizes) == Outcome(r, Timeouts(n), false);
    var run := FindRegisterNode(r, Timeouts(n), sizes);
    assert run == Run(Unregister(g.(replies := g.replies[n + 1..], log := g.log + Beats(n + 1))), [], []);
  }

  // The end of a run that was registered is the DELETE.
  lemma {:induction false} RunEndsWithDelete(s: State, events: seq<Event>, sizes: seq<nat>)
    ensures var run := FindRegisterNode(s, events, sizes);
      run.s.current.Some? ==> s.log < run.s.log && run.s.log[|run.s.log| - 1].request == DELETE
    decreases |s.replies| + |events|, Good(s.nodes)
  {
    hide RegisteredOperation, Find, MarkBad;
    FindPicksBest(s);
    var f := Find(s);
    if f.current != None {
      RoundMakesProgress(f, events, sizes);
      RoundIsBounded(f, events, sizes);
      var o := RegisteredOperation(f, events, sizes);
      if !o.clean {
        RunEndsWithDelete(o.s, o.left, sizes);
        RunLog(o.s, o.left, sizes);
      }
    }
  }

  // ---------- What the node knows of the registries ----------

  // The number of a registry after the events: a removal forgets it, and the first discovery after
  // that gives it.
  function NumberAfter(was: Option<nat>, events: seq<Event>, u: Url): Option<nat>
    decreases |events|
  {
    if events == [] then was
    else
      var now := match events[0]
        case Removed(v) => if v == u then None else was
        case Resolved(v, priority) => if v == u && was == None then Some(priority) else was
        case _ => was;
      NumberAfter(now, events[1..], u)
  }

  function NumberOf(nodes: map<Url, RegNode>, u: Url): Option<nat> {
    if u in nodes then Some(nodes[u].priority) else None
  }

  lemma AskingKeepsNumbers(s: State, t: State, u: Url)
    requires Asked(s, t)
    ensures NumberOf(t.nodes, u) == NumberOf(s.nodes, u)
  {
    hide AnyBad, Since;
  }

  // While the node serves, it knows the registries by what it has discovered, whatever it asks.
  lemma {:induction false} TableFollowsEvents(s: State, events: seq<Event>, sizes: seq<nat>, u: Url)
    requires s.current.Some?
    ensures var o := Serve(s, events, sizes);
      |o.left| <= |events| && NumberOf(o.s.nodes, u) == NumberAfter(NumberOf(s.nodes, u), Used(events, o.left), u)
    decreases |events|
  {
    hide Heartbeat, Asked, AnyFails;
    if events != [] {
      var o, e, rest := Serve(s, events, sizes), events[0], events[1..];
      HeartbeatIsExact(s, sizes);
      var (t, ok) := Heartbeat(s, sizes);
      AskingKeepsNumbers(s, t, u);
      if e == Timeout && ok {
        HeartbeatLog(s, sizes);
        TableFollowsEvents(t, rest, sizes, u);
        assert Used(events, o.left) == [e] + Used(rest, o.left);
      } else if e != Timeout && !(e.Removed? && s.current == Some(e.url)) {
        TableFollowsEvents(s.(nodes := Discovered(s.nodes, e)), rest, sizes, u);
        assert Used(events, o.left) == [e] + Used(rest, o.left);
      } else {
        assert Used(events, o.left) == [e];
      }
    }
  }

  // A registry that is discovered while the node serves, and was not known, is good.
  lemma NewRegistryIsGood(nodes: map<Url, RegNode>, u: Url, priority: nat)
    ensures var t := Discovered(nodes, Resolved(u, priority));
      && (u !in nodes ==> u in t && t[u].good && t[u].priority == priority) && (u in nodes ==> t == nodes)
      && forall v :: v != u ==> (v in t <==> v in nodes) && (v in nodes ==> t[v] == nodes[v])
  {
  }
}
