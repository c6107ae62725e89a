/** The time-ordered activation table and the worker threads that serve it
    (node/src/activator.cpp). First the class, method by method; then the interleaved view, in
    which every section that holds the mutex is one step of a state machine. */
module Activator {
  import opened Containers

  type Id = string
  type Table = map<int, Id>

  // 37 s in nanoseconds.
  const LEAP: int := 37_000_000_000

  // ---------- What the table becomes ----------

  // std::map::insert: an instant already present keeps its entry.
  function Added(pending: Table, tp: int, r: Id): Table {
    if tp in pending then pending else pending[tp := r]
  }

  // The head goes by instant alone; any other entry goes only when it is the resource's own.
  function Removed(pending: Table, tp: int, r: Id): Table {
    if tp in pending && (First(pending) == tp || pending[tp] == r) then pending - {tp} else pending
  }

  class Activator {
    var activations: Table
    var wait: bool
    var threads: nat

    constructor ()
      ensures activations == map[] && wait && threads == 0
    {
      activations, wait, threads := map[], true, 0;
    }

    // A thread is started exactly when the table was empty; a waiter is notified exactly when the
    // new instant comes before the head.
    method AddActivation(tp: int, r: Id) returns (notify: bool)
      modifies this
      ensures activations == Added(old(activations), tp, r)
      ensures threads == old(threads) + if old(activations) == map[] then 1 else 0
      ensures notify == (old(activations) != map[] && First(old(activations)) > tp)
      ensures wait == (old(wait) && !notify)
    {
      notify := false;
      if activations != map[] {
        if First(activations) > tp {
          activations := Added(activations, tp, r);
          wait := false;
          notify := true;
        } else {
          activations := Added(activations, tp, r);
        }
      } else {
        activations := Added(activations, tp, r);
        threads := threads + 1;
      }
    }

    method RemoveActivation(tp: int, r: Id) returns (notify: bool)
      modifies this
      ensures activations == Removed(old(activations), tp, r)
      ensures threads == old(threads)
      ensures notify == (old(activations) != map[] && First(old(activations)) == tp)
      ensures wait == (old(wait) && !notify)
    {
      notify := false;
      if activations != map[] {
        if First(activations) == tp {
          activations := activations - {First(activations)};
          wait := false;
          notify := true;
        } else if tp in activations && activations[tp] == r {
          activations := activations - {tp};
        }
      }
    }

    method PrimeWait()
      modifies this
      ensures wait && activations == old(activations) && threads == old(threads)
    {
      wait := true;
    }

    method ActivationsPending() returns (b: bool)
      ensures b == (activations != map[])
    {
      b := activations != map[];
    }

    // The head is taken out; the caller activates what it held.
    method Activate() returns (fired: Option<Id>)
      modifies this
      ensures wait == old(wait) && threads == old(threads)
      ensures if old(activations) == map[] then fired == None && activations == map[]
              else fired == Some(old(activations)[First(old(activations))]) &&
                   activations == old(activations) - {First(old(activations))}
    {
      fired := None;
      if activations != map[] {
        fired := Some(activations[First(activations)]);
        activations := activations - {First(activations)};
      }
    }
  }

  // ---------- The interleaved view ----------

  // Where a worker is. A Woken worker has left the condition variable but has not yet been told why:
  // it rereads the flag, or it is told that its time is up, which it may be from its deadline on.
  datatype Pc =
    | AtRunning
    | AtPending
    | AtPrime
    | AtWait
    | Blocked(deadline: int)
    | Woken(deadline: int)
    | AtActivate
    | Exited

  datatype State = State(
    pending: Table,
    wait: bool,
    workers: seq<Pc>,
    now: int,
    accepted: multiset<(int, Id)>,
    withdrawn: multiset<(int, Id)>,
    fired: multiset<(int, Id)>)

  // One section that holds the mutex, one return of wait_until, or the passing of time. `woken` is
  // the blocked worker that notify_one picks, when there is one. `junk` is what reading the head of
  // an empty table gives.
  datatype Event =
    | Add(tp: int, r: Id, woken: nat)
    | Remove(tp: int, r: Id, woken: nat)
    | Worker(i: nat, junk: int)
    | TimeOut(i: nat)
    | Wake(i: nat)
    | Tick(d: nat)

  predicate SomeBlocked(workers: seq<Pc>) {
    exists i :: 0 <= i < |workers| && workers[i].Blocked?
  }

  predicate CanNotify(workers: seq<Pc>, woken: nat) {
    SomeBlocked(workers) ==> woken < |workers| && workers[woken].Blocked?
  }

  function Notified(workers: seq<Pc>, woken: nat): seq<Pc>
    requires CanNotify(workers, woken)
  {
    if SomeBlocked(workers) then workers[woken := Woken(workers[woken].deadline)] else workers
  }

  predicate Enabled(s: State, e: Event) {
    match e
    case Add(_, _, woken) => CanNotify(s.workers, woken)
    case Remove(_, _, woken) => CanNotify(s.workers, woken)
    case Worker(i, _) => i < |s.workers| && !s.workers[i].Blocked? && !s.workers[i].Exited?
    case TimeOut(i) => i < |s.workers| && (s.workers[i].Blocked? || s.workers[i].Woken?) && s.workers[i].deadline <= s.now
    case Wake(i) => i < |s.workers| && s.workers[i].Blocked?
    case Tick(_) => true
  }

  function Deadline(s: State, junk: int): int {
    if s.pending == map[] then junk else First(s.pending) - LEAP
  }

  function WorkerStep(s: State, i: nat, junk: int): State
    requires Enabled(s, Worker(i, junk))
  {
    match s.workers[i]
    case AtRunning => s.(workers := s.workers[i := AtPending])
    case AtPending => s.(workers := s.workers[i := if s.pending == map[] then Exited else AtPrime])
    case AtPrime => s.(wait := true, workers := s.workers[i := AtWait])
    case AtWait => s.(workers := s.workers[i := if s.wait then Blocked(Deadline(s, junk)) else AtRunning])
    case Woken(d) => s.(workers := s.workers[i := if s.wait then Blocked(d) else AtRunning])
    case AtActivate =>
      var s' := s.(workers := s.workers[i := AtRunning]);
      if s.pending == map[] then s' else
        var t := First(s.pending);
        s'.(pending := s.pending - {t}, fired := s.fired + multiset{(t, s.pending[t])})
  }

  function Apply(s: State, e: Event): State
    requires Enabled(s, e)
  {
    match e
    case Add(tp, r, woken) =>
      var s' := s.(
        pending := Added(s.pending, tp, r),
        accepted := if tp in s.pending then s.accepted else s.accepted + multiset{(tp, r)});
      if s.pending == map[] then s'.(workers := s.workers + [AtRunning])
      else if First(s.pending) > tp then s'.(wait := false, workers := Notified(s.workers, woken))
      else s'
    case Remove(tp, r, woken) =>
      var p := Removed(s.pending, tp, r);
      var s' := s.(pending := p, withdrawn := if p == s.pending then s.withdrawn else s.withdrawn + multiset{(tp, s.pending[tp])});
      if s.pending != map[] && First(s.pending) == tp then s'.(wait := false, workers := Notified(s.workers, woken)) else s'
    case Worker(i, junk) => WorkerStep(s, i, junk)
    case TimeOut(i) => s.(workers := s.workers[i := AtActivate])
    case Wake(i) => s.(workers := s.workers[i := Woken(s.workers[i].deadline)])
    case Tick(d) => s.(now := s.now + d)
  }

  const Start: State := State(map[], true, [], 0, multiset{}, multiset{}, multiset{})

  // The events happen one after the other and lead from s to t.
  ghost predicate Runs(s: State, es: seq<Event>, t: State)
    decreases |es|
  {
    if es == [] then s == t
    else Enabled(s, es[0]) && Runs(Apply(s, es[0]), es[1..], t)
  }

  // ---------- No deadline is slept through ----------

  // Worker i will look at the table, or stop waiting, no later than the head is due.
  predicate Covers(s: State, i: nat)
    requires s.pending != map[]
  {
    i < |s.workers| &&
    match s.workers[i]
    case Exited => false
    case Blocked(d) => d <= First(s.pending) - LEAP
    case Woken(d) => !s.wait || d <= First(s.pending) - LEAP
    case _ => true
  }

  predicate Served(s: State) {
    s.pending != map[] ==> exists i :: 0 <= i < |s.workers| && Covers(s, i)
  }

  lemma AddKeepsServed(s: State, tp: int, r: Id, woken: nat)
    requires Enabled(s, Add(tp, r, woken)) && Served(s)
    ensures Served(Apply(s, Add(tp, r, woken)))
  {
    var s' := Apply(s, Add(tp, r, woken));
    if s.pending == map[] {
      assert Covers(s', |s.workers|);
    } else {
      var i :| 0 <= i < |s.workers| && Covers(s, i);
      if First(s.pending) > tp {
        FirstIs(s'.pending, tp);
        assert Covers(s', if s.workers[i].Blocked? then woken else i);
      } else {
        FirstIs(s'.pending, First(s.pending));
        assert Covers(s', i);
      }
    }
  }

  lemma RemoveKeepsServed(s: State, tp: int, r: Id, woken: nat)
    requires Enabled(s, Remove(tp, r, woken)) && Served(s)
    ensures Served(Apply(s, Remove(tp, r, woken)))
  {
    var s' := Apply(s, Remove(tp, r, woken));
    if s'.pending != map[] {
      var i :| 0 <= i < |s.workers| && Covers(s, i);
      assert First(s.pending) <= First(s'.pending);
      assert Covers(s', i);
    }
  }

  lemma WorkerKeepsServed(s: State, i: nat, junk: int)
    requires Enabled(s, Worker(i, junk)) && Served(s)
    ensures Served(Apply(s, Worker(i, junk)))
  {
    var s' := Apply(s, Worker(i, junk));
    if s'.pending != map[] {
      var k :| 0 <= k < |s.workers| && Covers(s, k);
      assert Covers(s', i) || (i != k && Covers(s', k));
    }
  }

  lemma StepKeepsServed(s: State, e: Event)
    requires Enabled(s, e) && Served(s)
    ensures Served(Apply(s, e))
  {
    match e
    case Add(tp, r, woken) => AddKeepsServed(s, tp, r, woken);
    case Remove(tp, r, woken) => RemoveKeepsServed(s, tp, r, woken);
    case Worker(i, junk) => WorkerKeepsServed(s, i, junk);
    case _ =>
      var s' := Apply(s, e);
      if s'.pending != map[] {
        var k :| 0 <= k < |s.workers| && Covers(s, k);
        assert Covers(s', k);
      }
  }

  lemma {:induction false} RunKeepsServed(s: State, es: seq<Event>, t: State)
    requires Runs(s, es, t) && Served(s)
    ensures Served(t)
    decreases |es|
  {
    if es != [] {
      StepKeepsServed(s, es[0]);
      RunKeepsServed(Apply(s, es[0]), es[1..], t);
    }
  }

  // In every reachable state with a pending entry, if no worker is running then one is blocked on a
  // deadline no later than the earliest instant.
  lemma NobodyOversleeps(es: seq<Event>, s: State)
    requires Runs(Start, es, s) && s.pending != map[]
    requires forall i :: 0 <= i < |s.workers| ==> s.workers[i].Blocked? || s.workers[i].Exited?
    ensures exists i :: 0 <= i < |s.workers| && s.workers[i].Blocked? && s.workers[i].deadline <= First(s.pending) - LEAP
  {
    RunKeepsServed(Start, es, s);
    var i :| 0 <= i < |s.workers| && Covers(s, i);
  }

  lemma {:induction false} RunsThen(s: State, es: seq<Event>, t: State, e: Event)
    requires Runs(s, es, t) && Enabled(t, e)
    ensures Runs(s, es + [e], Apply(t, e))
    decreases |es|
  {
    if es == [] {
      assert (es + [e])[1..] == [];
    } else {
      RunsThen(Apply(s, es[0]), es[1..], t, e);
      assert (es + [e])[1..] == es[1..] + [e];
    }
  }

  // How many of its own steps a worker is from taking the head out of the table.
  function Distance(pc: Pc, wait: bool): nat {
    match pc
    case AtActivate => 1
    case Blocked(_) => 2
    case AtWait => if wait then 3 else 7
    case AtPrime => 4
    case AtPending => 5
    case AtRunning => 6
    case Woken(_) => 7
    case Exited => 8
  }

  ghost predicate OfWorker(e: Event, i: nat) {
    (e.Worker? || e.TimeOut?) && e.i == i
  }

  // Once the head is due, the covering worker left to itself takes it out within seven steps.
  lemma {:induction false} CoveringWorkerFires(s: State, i: nat) returns (es: seq<Event>, t: State)
    requires s.pending != map[] && Covers(s, i) && First(s.pending) - LEAP <= s.now
    ensures Runs(s, es, t) && |es| <= 7 && forall e :: e in es ==> OfWorker(e, i)
    ensures t.pending == s.pending - {First(s.pending)}
    ensures t.fired == s.fired + multiset{(First(s.pending), s.pending[First(s.pending)])}
    ensures |es| <= Distance(s.workers[i], s.wait)
    decreases Distance(s.workers[i], s.wait)
  {
    var e := if s.workers[i].Blocked? then TimeOut(i) else Worker(i, 0);
    var s' := Apply(s, e);
    if s.workers[i].AtActivate? {
      es, t := [e], s';
      assert es[1..] == [];
    } else {
      es, t := CoveringWorkerFires(s', i);
      assert ([e] + es)[1..] == es;
      es := [e] + es;
    }
  }

  lemma DueEntryCanFire(es: seq<Event>, s: State) returns (i: nat, more: seq<Event>, t: State)
    requires Runs(Start, es, s) && s.pending != map[] && First(s.pending) - LEAP <= s.now
    ensures Runs(s, more, t) && |more| <= 7 && forall e :: e in more ==> OfWorker(e, i)
    ensures t.pending == s.pending - {First(s.pending)}
    ensures t.fired == s.fired + multiset{(First(s.pending), s.pending[First(s.pending)])}
  {
    RunKeepsServed(Start, es, s);
    i :| 0 <= i < |s.workers| && Covers(s, i);
    more, t := CoveringWorkerFires(s, i);
  }

  // ---------- Nothing fires before its time ----------

  predicate IsDue(s: State) {
    s.pending != map[] && First(s.pending) - LEAP <= s.now
  }

  // A worker that is about to take the head out finds it due, and one that waits has a deadline no
  // earlier than the head's.
  predicate Timely(s: State, pc: Pc) {
    match pc
    case AtPrime => s.pending != map[]
    case AtWait => s.pending != map[]
    case Blocked(d) => s.pending != map[] && First(s.pending) - LEAP <= d
    case Woken(d) => s.pending != map[] && First(s.pending) - LEAP <= d
    case AtActivate => IsDue(s)
    case _ => true
  }

  predicate AllTimely(s: State) {
    forall i :: 0 <= i < |s.workers| ==> Timely(s, s.workers[i])
  }

  // At most one worker has not exited.
  predicate OneLives(s: State) {
    forall i, j :: 0 <= i < j < |s.workers| ==> s.workers[i].Exited? || s.workers[j].Exited?
  }

  // Worker pc has seen an entry and not yet given up on it.
  predicate Counts(pc: Pc) {
    pc.AtPrime? || pc.AtWait? || pc.Blocked? || pc.Woken? || pc.AtActivate?
  }

  // The head is withdrawn while some worker counts on it.
  predicate Disturbs(s: State, e: Event) {
    && e.Remove? && s.pending != map[] && First(s.pending) == e.tp
    && exists i :: 0 <= i < |s.workers| && Counts(s.workers[i])
  }

  // In no state along the events is there a second live worker, and none of them disturbs.
  ghost predicate Undisturbed(s: State, es: seq<Event>)
    decreases |es|
  {
    OneLives(s) && (es == [] || (Enabled(s, es[0]) && !Disturbs(s, es[0]) && Undisturbed(Apply(s, es[0]), es[1..])))
  }

  // A worker that was on time still is when the head has not moved back.
  lemma StaysTimely(s: State, t: State, pc: Pc)
    requires Timely(s, pc) && s.now <= t.now
    requires s.pending != map[] ==> t.pending != map[] && First(t.pending) <= First(s.pending)
    ensures Timely(t, pc) && (pc.Blocked? ==> Timely(t, Woken(pc.deadline)))
  {
  }

  lemma AddKeepsTimely(s: State, tp: int, r: Id, woken: nat)
    requires Enabled(s, Add(tp, r, woken)) && AllTimely(s)
    ensures AllTimely(Apply(s, Add(tp, r, woken)))
  {
    hide Timely;
    var t := Apply(s, Add(tp, r, woken));
    if s.pending != map[] {
      FirstIs(t.pending, if First(s.pending) > tp then tp else First(s.pending));
    }
    RunningIsTimely(t);
    forall i | 0 <= i < |s.workers| ensures Timely(t, t.workers[i]) {
      StaysTimely(s, t, s.workers[i]);
    }
  }

  lemma RunningIsTimely(s: State)
    ensures Timely(s, AtRunning) && Timely(s, Exited)
    ensures forall pc :: !Counts(pc) ==> Timely(s, pc)
  {
  }

  lemma RemoveKeepsTimely(s: State, tp: int, r: Id, woken: nat)
    requires Enabled(s, Remove(tp, r, woken)) && AllTimely(s) && !Disturbs(s, Remove(tp, r, woken))
    ensures AllTimely(Apply(s, Remove(tp, r, woken)))
  {
    var t := Apply(s, Remove(tp, r, woken));
    RunningIsTimely(t);
    if s.pending != map[] {
      if First(s.pending) == tp {
        assert forall i :: 0 <= i < |s.workers| ==> !Counts(s.workers[i]);
        assert t.workers == s.workers;
      } else {
        FirstIs(t.pending, First(s.pending));
        assert t.workers == s.workers;
        forall i | 0 <= i < |s.workers| ensures Timely(t, t.workers[i]) {
          StaysTimely(s, t, s.workers[i]);
        }
      }
    }
  }

  lemma WorkerKeepsTimely(s: State, i: nat, junk: int)
    requires Enabled(s, Worker(i, junk)) && AllTimely(s) && OneLives(s)
    ensures AllTimely(Apply(s, Worker(i, junk)))
  {
    hide IsDue;
    var t := Apply(s, Worker(i, junk));
    assert Timely(s, s.workers[i]);
    RunningIsTimely(t);
    forall k | 0 <= k < |s.workers| && k != i ensures Timely(t, t.workers[k]) {
      assert s.workers[k].Exited?;
    }
  }

  lemma StepKeepsTimely(s: State, e: Event)
    requires Enabled(s, e) && AllTimely(s) && OneLives(s) && !Disturbs(s, e)
    ensures AllTimely(Apply(s, e))
  {
    match e
    case Add(tp, r, woken) => AddKeepsTimely(s, tp, r, woken);
    case Remove(tp, r, woken) => RemoveKeepsTimely(s, tp, r, woken);
    case Worker(i, junk) => WorkerKeepsTimely(s, i, junk);
    case _ =>
      var t := Apply(s, e);
      forall i | 0 <= i < |s.workers| ensures Timely(t, t.workers[i]) {
        StaysTimely(s, t, s.workers[i]);
      }
  }

  lemma {:induction false} RunKeepsTimely(s: State, es: seq<Event>, t: State)
    requires Runs(s, es, t) && Undisturbed(s, es) && AllTimely(s)
    ensures AllTimely(t)
    decreases |es|
  {
    hide AllTimely, Disturbs, OneLives;
    if es != [] {
      assert Undisturbed(Apply(s, es[0]), es[1..]);
      StepKeepsTimely(s, es[0]);
      RunKeepsTimely(Apply(s, es[0]), es[1..], t);
    }
  }

  // While one worker at a time is alive and no head is withdrawn under it, whatever fires is due.
  lemma AloneFiresOnTime(es: seq<Event>, s: State, i: nat)
    requires Runs(Start, es, s) && Undisturbed(Start, es)
    requires i < |s.workers| && s.workers[i].AtActivate?
    ensures IsDue(s)
  {
    RunKeepsTimely(Start, es, s);
  }

  ghost predicate OnlyWaits(e: Event) {
    e.Wake? || e.Tick? || e.TimeOut?
  }

  // Time passes and workers wake or time out, and worker i goes to take a head that is not due.
  ghost predicate EarlyRun(s: State, i: nat, es: seq<Event>, t: State) {
    Runs(s, es, t) && (forall e :: e in es ==> OnlyWaits(e)) && i < |t.workers| && t.workers[i].AtActivate? && !IsDue(t)
  }

  lemma {:induction false} WaitsForDeadline(s: State, i: nat, d: int, es: seq<Event>, t: State)
    requires Runs(s, es, t) && (forall e :: e in es ==> OnlyWaits(e)) && i < |s.workers|
    requires s.workers[i] == Blocked(d) || s.workers[i] == Woken(d) || (s.workers[i].AtActivate? && d <= s.now)
    ensures t.pending == s.pending && s.now <= t.now && i < |t.workers|
    ensures t.workers[i].AtActivate? ==> d <= t.now
    decreases |es|
  {
    if es != [] {
      assert OnlyWaits(es[0]);
      WaitsForDeadline(Apply(s, es[0]), i, d, es[1..], t);
    }
  }

  // A waiting worker can fire the head early, with no other event in between, exactly when the head is
  // due later than now and later than the deadline that the worker has taken.
  lemma WaitingFiresEarlyExactly(s: State, i: nat, d: int)
    requires i < |s.workers| && (s.workers[i] == Blocked(d) || s.workers[i] == Woken(d)) && s.pending != map[]
    ensures (exists es, t :: EarlyRun(s, i, es, t)) <==> First(s.pending) - LEAP > d && First(s.pending) - LEAP > s.now
  {
    if First(s.pending) - LEAP > d && First(s.pending) - LEAP > s.now {
      var es := [Tick(if s.now < d then d - s.now else 0), TimeOut(i)];
      var m := Apply(s, es[0]);
      var t := Apply(m, es[1]);
      assert es[1..][1..] == [];
      assert Runs(m, es[1..], t);
      assert EarlyRun(s, i, es, t);
    }
    forall es, t | EarlyRun(s, i, es, t) ensures First(s.pending) - LEAP > d && First(s.pending) - LEAP > s.now {
      WaitsForDeadline(s, i, d, es, t);
    }
  }

  // The instant at the head of the table when a worker last looked at one that was not empty, and
  // whether anything but that worker has taken the entry since.
  datatype Glance = Nothing | Saw(tp: int, taken: bool)

  // Event e withdraws the entry at tp, or it is another worker that fires it.
  predicate TakenFrom(s: State, e: Event, i: nat, tp: int) {
    tp in s.pending &&
    match e
    case Remove(u, r, _) => tp !in Removed(s.pending, u, r)
    case Worker(j, _) => j != i && j < |s.workers| && s.workers[j].AtActivate? && First(s.pending) == tp
    case _ => false
  }

  function Glanced(s: State, e: Event, i: nat, g: Glance): Glance
    requires Enabled(s, e)
  {
    if e.Worker? && e.i == i then
      match s.workers[i]
      case AtPending => if s.pending == map[] then Nothing else Saw(First(s.pending), false)
      case AtWait => if s.pending == map[] then g else Saw(First(s.pending), false)
      case AtActivate => Nothing
      case _ => g
    else if g.Saw? && TakenFrom(s, e, i, g.tp) then Saw(g.tp, true)
    else g
  }

  function LastGlance(s: State, es: seq<Event>, i: nat, g: Glance): Glance
    decreases |es|
  {
    if es == [] || !Enabled(s, es[0]) then g
    else LastGlance(Apply(s, es[0]), es[1..], i, Glanced(s, es[0], i, g))
  }

  // What worker i is about rests on the entry it saw, as long as that has not been taken.
  predicate Rests(s: State, pc: Pc, g: Glance) {
    match pc
    case AtPrime => g.Saw? && (g.taken || g.tp in s.pending)
    case AtWait => g.Saw? && (g.taken || g.tp in s.pending)
    case Blocked(d) => g.Saw? && (g.taken || (g.tp in s.pending && g.tp - LEAP == d))
    case Woken(d) => g.Saw? && (g.taken || (g.tp in s.pending && g.tp - LEAP == d))
    case AtActivate => g.Saw? && (g.taken || (g.tp in s.pending && g.tp - LEAP <= s.now))
    case _ => true
  }

  // The entry is still there, or counts as taken now.
  predicate Remains(s: State, t: State, g: Glance, h: Glance) {
    && s.now <= t.now && (g.Saw? ==> h.Saw? && h.tp == g.tp && (g.taken ==> h.taken))
    && (g.Saw? && g.tp in s.pending && !h.taken ==> g.tp in t.pending)
  }

  lemma StaysResting(s: State, t: State, pc: Pc, g: Glance, h: Glance)
    requires Rests(s, pc, g) && Remains(s, t, g, h)
    ensures Rests(t, pc, h) && (pc.Blocked? ==> Rests(t, Woken(pc.deadline), h))
  {
  }

  // Whatever another does leaves the entry or takes it.
  lemma OthersRemain(s: State, e: Event, i: nat, g: Glance)
    requires Enabled(s, e) && !(e.Worker? && e.i == i)
    ensures Remains(s, Apply(s, e), g, Glanced(s, e, i, g))
  {
    hide Notified, SomeBlocked;
  }

  lemma OwnKeepsRests(s: State, i: nat, junk: int, g: Glance)
    requires Enabled(s, Worker(i, junk)) && Rests(s, s.workers[i], g)
    ensures var t := Apply(s, Worker(i, junk)); Rests(t, t.workers[i], Glanced(s, Worker(i, junk), i, g))
  {
  }

  // Nobody else moves a worker, except out of the condition variable.
  lemma OthersMove(s: State, e: Event, i: nat)
    requires Enabled(s, e) && !e.Worker? && !e.TimeOut? && i < |s.workers|
    ensures
      var pc := Apply(s, e).workers[i];
      pc == s.workers[i] || (s.workers[i].Blocked? && pc == Woken(s.workers[i].deadline))
  {
    hide Removed, Added, SomeBlocked;
  }

  lemma OthersStand(s: State, e: Event, i: nat)
    requires Enabled(s, e) && (e.Worker? || e.TimeOut?) && e.i != i && i < |s.workers|
    ensures Apply(s, e).workers[i] == s.workers[i]
  {
    hide Removed, Added, SomeBlocked, Notified;
  }

  lemma TimeOutKeepsRests(s: State, i: nat, g: Glance)
    requires Enabled(s, TimeOut(i)) && Rests(s, s.workers[i], g)
    ensures var t := Apply(s, TimeOut(i)); Rests(t, t.workers[i], Glanced(s, TimeOut(i), i, g))
  {
  }

  lemma NotifiedAreAsMany(workers: seq<Pc>, woken: nat)
    requires CanNotify(workers, woken)
    ensures |Notified(workers, woken)| == |workers|
  {
  }

  lemma NewWorkerRests(s: State, e: Event, i: nat, g: Glance)
    requires Enabled(s, e) && |s.workers| <= i < |Apply(s, e).workers|
    ensures Rests(Apply(s, e), Apply(s, e).workers[i], Glanced(s, e, i, g))
  {
    hide Removed, Added, SomeBlocked, Glanced, Notified, TakenFrom;
    if e.Add? || e.Remove? {
      NotifiedAreAsMany(s.workers, e.woken);
    }
    assert Apply(s, e).workers[i] == AtRunning;
  }

  lemma StepKeepsRests(s: State, e: Event, i: nat, g: Glance)
    requires Enabled(s, e) && (i < |s.workers| ==> Rests(s, s.workers[i], g))
    ensures i < |Apply(s, e).workers| ==> Rests(Apply(s, e), Apply(s, e).workers[i], Glanced(s, e, i, g))
  {
    hide Apply, Rests, Glanced, Remains;
    if i >= |s.workers| {
      if i < |Apply(s, e).workers| {
        NewWorkerRests(s, e, i, g);
      }
    } else if e.Worker? && e.i == i {
      OwnKeepsRests(s, i, e.junk, g);
    } else if e == TimeOut(i) {
      TimeOutKeepsRests(s, i, g);
    } else {
      if e.Worker? || e.TimeOut? {
        OthersStand(s, e, i);
      } else {
        OthersMove(s, e, i);
      }
      OthersRemain(s, e, i, g);
      StaysResting(s, Apply(s, e), s.workers[i], g, Glanced(s, e, i, g));
    }
  }

  lemma {:induction false} RunKeepsRests(s: State, es: seq<Event>, t: State, i: nat, g: Glance)
    requires Runs(s, es, t) && (i < |s.workers| ==> Rests(s, s.workers[i], g))
    ensures i < |t.workers| ==> Rests(t, t.workers[i], LastGlance(s, es, i, g))
    decreases |es|
  {
    hide Rests, Glanced;
    if es != [] {
      StepKeepsRests(s, es[0], i, g);
      RunKeepsRests(Apply(s, es[0]), es[1..], t, i, Glanced(s, es[0], i, g));
    }
  }

  // An entry that has come to count as taken was taken by some event.
  lemma {:induction false} TakenBySome(s: State, es: seq<Event>, t: State, i: nat, g: Glance) returns (j: nat, w: State)
    requires Runs(s, es, t) && LastGlance(s, es, i, g).Saw? && LastGlance(s, es, i, g).taken
    ensures LastGlance(s, es, i, g) == g ||
      (j < |es| && Runs(s, es[..j], w) && TakenFrom(w, es[j], i, LastGlance(s, es, i, g).tp))
    decreases |es|
  {
    j, w := 0, s;
    if es != [] {
      var h, rest := Glanced(s, es[0], i, g), es[1..];
      j, w := TakenBySome(Apply(s, es[0]), rest, t, i, h);
      if LastGlance(s, es, i, g) == h {
        j, w := 0, s;
        assert es[..0] == [];
      } else {
        assert es[..j + 1][1..] == rest[..j] && es[..j + 1][0] == es[0];
        j := j + 1;
      }
    }
  }

  // However many workers there are: when one is about to take a head that is not due, the entry that
  // it saw when it last looked was withdrawn since, or fired by another.
  lemma EarlyNeedsLoss(es: seq<Event>, s: State, i: nat) returns (j: nat, w: State)
    requires Runs(Start, es, s) && i < |s.workers| && s.workers[i].AtActivate? && !IsDue(s)
    ensures var g := LastGlance(Start, es, i, Nothing);
      g.Saw? && g.taken && j < |es| && Runs(Start, es[..j], w) && TakenFrom(w, es[j], i, g.tp)
  {
    RunKeepsRests(Start, es, s, i, Nothing);
    j, w := TakenBySome(Start, es, s, i, Nothing);
  }

  lemma OneMore(es: seq<Event>, s: State, e: Event) returns (es': seq<Event>, s': State)
    requires Runs(Start, es, s) && Enabled(s, e)
    ensures es' == es + [e] && s' == Apply(s, e) && Runs(Start, es', s')
  {
    RunsThen(Start, es, s, e);
    es', s' := es + [e], Apply(s, e);
  }

  // A running worker goes to wait for the head.
  lemma GoesToWait(es: seq<Event>, s: State, i: nat) returns (es': seq<Event>, s': State)
    requires Runs(Start, es, s) && s.pending != map[] && i < |s.workers| && s.workers[i].AtRunning?
    ensures Runs(Start, es', s') && s' == s.(wait := true, workers := s.workers[i := Blocked(First(s.pending) - LEAP)])
    ensures (forall e :: e in es ==> !e.Remove?) ==> forall e :: e in es' ==> !e.Remove?
  {
    hide Runs;
    es', s' := OneMore(es, s, Worker(i, 0));
    es', s' := OneMore(es', s', Worker(i, 0));
    es', s' := OneMore(es', s', Worker(i, 0));
    es', s' := OneMore(es', s', Worker(i, 0));
  }

  // Without the first condition it is not so: when the head is withdrawn as its time comes, the
  // worker is told that its time is up and takes the next entry, however far off that is.
  lemma WithdrawalFiresEarly(a: Id, b: Id, far: nat) returns (es: seq<Event>, s: State)
    requires far > 0
    ensures Runs(Start, es, s) && |s.workers| == 1 && s.workers[0].AtActivate?
    ensures s.pending == map[LEAP + far := b] && s.now == 0
  {
    hide Runs;
    StartRuns();
    es, s := TwoAdded([], Start, a, b, far);
    es, s := GoesToWait(es, s, 0);
    assert s.workers == [Blocked(0)];
    es, s := OneMore(es, s, Remove(LEAP, a, 0));
    assert s.workers == [Woken(0)] && s.pending == map[LEAP + far := b];
    es, s := OneMore(es, s, TimeOut(0));
  }

  // Nor without the second: a worker that has emptied the table is still there when the next entry
  // starts another. Both wait for the same head, and the one that comes second takes the entry after.
  lemma TwoWorkersFireEarly(a: Id, b: Id, far: nat) returns (es: seq<Event>, s: State)
    requires far > 0
    ensures Runs(Start, es, s) && (forall e :: e in es ==> !e.Remove?) && |s.workers| == 2 && s.workers[1].AtActivate?
    ensures s.pending == map[LEAP + far := b] && s.now == 0
  {
    hide Runs;
    es, s := OneFired(a);
    es, s := TwoAdded(es, s, a, b, far);
    es, s := GoesToWait(es, s, 0);
    es, s := GoesToWait(es, s, 1);
    es, s := BothTakeOne(es, s, a, b, far);
  }

  lemma BothTakeOne(was: seq<Event>, w: State, a: Id, b: Id, far: nat) returns (es: seq<Event>, s: State)
    requires Runs(Start, was, w) && (forall e :: e in was ==> !e.Remove?) && far > 0
    requires w.pending == map[LEAP := a, LEAP + far := b] && LEAP in w.pending && First(w.pending) == LEAP && w.now == 0
    requires w.workers == [Blocked(0), Blocked(0)]
    ensures Runs(Start, es, s) && (forall e :: e in es ==> !e.Remove?) && |s.workers| == 2 && s.workers[1].AtActivate?
    ensures s.pending == map[LEAP + far := b] && s.now == 0
  {
    hide Runs;
    es, s := OneMore(was, w, TimeOut(0));
    es, s := OneMore(es, s, TimeOut(1));
    es, s := OneMore(es, s, Worker(0, 0));
    assert s.pending == map[LEAP + far := b];
  }

  lemma TwoAdded(was: seq<Event>, w: State, a: Id, b: Id, far: nat) returns (es: seq<Event>, s: State)
    requires Runs(Start, was, w) && w.pending == map[] && w.now == 0 && far > 0 && !SomeBlocked(w.workers)
    ensures Runs(Start, es, s) && ((forall e :: e in was ==> !e.Remove?) ==> forall e :: e in es ==> !e.Remove?)
    ensures s.pending == map[LEAP := a, LEAP + far := b] && LEAP in s.pending && First(s.pending) == LEAP && s.now == 0
    ensures s.workers == w.workers + [AtRunning]
  {
    hide Runs;
    es, s := OneMore(was, w, Add(LEAP, a, 0));
    FirstIs(s.pending, LEAP);
    es, s := OneMore(es, s, Add(LEAP + far, b, 0));
    FirstIs(s.pending, LEAP);
  }

  lemma OneFired(a: Id) returns (es: seq<Event>, s: State)
    ensures Runs(Start, es, s) && (forall e :: e in es ==> !e.Remove?)
    ensures s.pending == map[] && s.workers == [AtRunning] && s.now == 0
  {
    hide Runs;
    es, s := [], Start;
    StartRuns();
    es, s := OneMore(es, s, Add(LEAP, a, 0));
    FirstIs(s.pending, LEAP);
    es, s := GoesToWait(es, s, 0);
    es, s := OneMore(es, s, TimeOut(0));
    es, s := OneMore(es, s, Worker(0, 0));
    assert s.workers == [AtRunning] && s.pending == map[];
  }

  lemma StartRuns()
    ensures Runs(Start, [], Start)
  {
  }

  // ---------- Nothing is lost or fired twice ----------

  function Held(p: Table, tp: int, r: Id): nat {
    if tp in p && p[tp] == r then 1 else 0
  }

  // Every accepted entry has left the table once or is in it.
  ghost predicate Balanced(accepted: multiset<(int, Id)>, gone: multiset<(int, Id)>, p: Table) {
    forall tp, r :: accepted[(tp, r)] == gone[(tp, r)] + Held(p, tp, r)
  }

  ghost predicate Accounted(s: State) {
    Balanced(s.accepted, s.withdrawn + s.fired, s.pending)
  }

  lemma EntryComes(accepted: multiset<(int, Id)>, gone: multiset<(int, Id)>, p: Table, tp: int, r: Id)
    requires Balanced(accepted, gone, p) && tp !in p
    ensures Balanced(accepted + multiset{(tp, r)}, gone, p[tp := r])
  {
  }

  lemma EntryGoes(accepted: multiset<(int, Id)>, gone: multiset<(int, Id)>, p: Table, tp: int)
    requires Balanced(accepted, gone, p) && tp in p
    ensures Balanced(accepted, gone + multiset{(tp, p[tp])}, p - {tp})
  {
  }

  lemma StepKeepsAccounted(s: State, e: Event)
    requires Enabled(s, e) && Accounted(s)
    ensures Accounted(Apply(s, e))
  {
    hide Balanced, Notified;
    var gone := s.withdrawn + s.fired;
    match e
    case Add(tp, r, _) =>
      if tp !in s.pending {
        EntryComes(s.accepted, gone, s.pending, tp, r);
      }
    case Remove(tp, r, _) =>
      if tp in s.pending {
        EntryGoes(s.accepted, gone, s.pending, tp);
        assert s.withdrawn + multiset{(tp, s.pending[tp])} + s.fired == gone + multiset{(tp, s.pending[tp])};
      }
    case Worker(i, _) =>
      if s.workers[i].AtActivate? && s.pending != map[] {
        var t := First(s.pending);
        EntryGoes(s.accepted, gone, s.pending, t);
        assert s.withdrawn + (s.fired + multiset{(t, s.pending[t])}) == gone + multiset{(t, s.pending[t])};
      }
    case _ =>
  }

  // Over every run, each accepted activation has been withdrawn once, has fired once, or is pending.
  lemma {:induction false} RunKeepsAccounted(s: State, es: seq<Event>, t: State)
    requires Runs(s, es, t) && Accounted(s)
    ensures Accounted(t)
    decreases |es|
  {
    if es != [] {
      StepKeepsAccounted(s, es[0]);
      RunKeepsAccounted(Apply(s, es[0]), es[1..], t);
    }
  }
}
