/** The work queue and its workers (base/include/threadpool.h, base/src/threadpool.cpp): the class,
    section by section, and the interleaved view in which every section that holds the mutex, every
    notify and every return of the wait is one step. The pool is not shut down. */
module ThreadPool {
  import opened Containers

  function Max(a: nat, b: nat): nat {
    if a < b then b else a
  }

  function Min(a: nat, b: nat): nat {
    if b < a then b else a
  }

  class ThreadPool<Task(==)> {
    var work: seq<Task>
    var threads: nat

    // What the worker's section takes from the queue.
    method Take() returns (task: Option<Task>)
      modifies `work
      ensures if old(work) == [] then task == None && work == []
              else task == Some(old(work)[0]) && old(work) == [old(work)[0]] + work
    {
      task := None;
      if work != [] {
        task, work := Some(work[0]), work[1..];
      }
    }

    method Push(task: Task)
      modifies `work
      ensures work == old(work) + [task]
    {
      work := work + [task];
    }

    // `room` is how many threads the system can still start; the next one throws.
    method AddWorkers(n: nat, room: nat) returns (size: nat)
      modifies `threads
      ensures size == threads == old(threads) + Min(n, room)
    {
      for i := 0 to n
        invariant threads == old(threads) + i && i <= room
      {
        if i == room {
          return threads;
        }
        threads := threads + 1;
      }
      size := threads;
    }

    // The larger of the least number and what the machine and the most allow; never fewer than before.
    method CreateWorkers(least: nat, most: nat, hardware: nat, room: nat) returns (size: nat)
      modifies `threads
      ensures size == threads
      ensures var wanted := Max(least, Min(most, hardware));
        threads == Max(old(threads), Min(wanted, old(threads) + room))
    {
      var wanted := Max(least, Min(most, hardware));
      if wanted > threads {
        size := AddWorkers(wanted - threads, room);
      } else {
        size := threads;
      }
    }
  }

  // ---------- The interleaved view ----------

  // A worker is about to look at the queue, asleep in the wait, woken but not yet looking, or at work.
  datatype Pc<Task> = AtQueue | Asleep | Woken | Busy(task: Task)

  // `notices` counts the submitters that have pushed and not yet notified.
  datatype State<Task> = State(work: seq<Task>, workers: seq<Pc<Task>>, notices: nat, submitted: seq<Task>, taken: seq<Task>)

  // `woken` is the sleeper that notify_one picks, when there is one.
  datatype Event<Task> = Push(task: Task) | Notify(woken: nat) | Look(i: nat) | Done(i: nat) | Spurious(i: nat) | NewWorker

  predicate AnyAsleep<Task>(workers: seq<Pc<Task>>) {
    exists i :: 0 <= i < |workers| && workers[i].Asleep?
  }

  predicate Ready<Task>(pc: Pc<Task>) {
    pc.AtQueue? || pc.Woken?
  }

  predicate Enabled<Task>(s: State<Task>, e: Event<Task>) {
    match e
    case Push(_) => true
    case Notify(woken) => s.notices > 0 && (AnyAsleep(s.workers) ==> woken < |s.workers| && s.workers[woken].Asleep?)
    case Look(i) => i < |s.workers| && Ready(s.workers[i])
    case Done(i) => i < |s.workers| && s.workers[i].Busy?
    case Spurious(i) => i < |s.workers| && s.workers[i].Asleep?
    case NewWorker => true
  }

  function Apply<Task>(s: State<Task>, e: Event<Task>): State<Task>
    requires Enabled(s, e)
  {
    match e
    case Push(task) => s.(work := s.work + [task], notices := s.notices + 1, submitted := s.submitted + [task])
    case Notify(woken) =>
      s.(notices := s.notices - 1, workers := if AnyAsleep(s.workers) then s.workers[woken := Woken] else s.workers)
    case Look(i) =>
      if s.work == [] then s.(workers := s.workers[i := Asleep])
      else s.(work := s.work[1..], workers := s.workers[i := Busy(s.work[0])], taken := s.taken + [s.work[0]])
    case Done(i) => s.(workers := s.workers[i := AtQueue])
    case Spurious(i) => s.(workers := s.workers[i := Woken])
    case NewWorker => s.(workers := s.workers + [AtQueue])
  }

  // The constructor asks for one worker, but none starts when the system gives no thread.
  function Start<Task>(): State<Task> {
    State([], [], 0, [], [])
  }

  ghost predicate Runs<Task>(s: State<Task>, es: seq<Event<Task>>, t: State<Task>)
    decreases |es|
  {
    if es == [] then s == t else Enabled(s, es[0]) && Runs(Apply(s, es[0]), es[1..], t)
  }

  // ---------- Nothing is lost, nothing is slept on ----------

  function ReadyCount<Task>(workers: seq<Pc<Task>>): nat {
    if workers == [] then 0
    else ReadyCount(workers[..|workers| - 1]) + if Ready(workers[|workers| - 1]) then 1 else 0
  }

  lemma {:induction false} ReadyCountUpdate<Task>(workers: seq<Pc<Task>>, i: nat, pc: Pc<Task>)
    requires i < |workers|
    ensures ReadyCount(workers[i := pc])
         == ReadyCount(workers) - (if Ready(workers[i]) then 1 else 0) + if Ready(pc) then 1 else 0
  {
    var n := |workers| - 1;
    if i < n {
      assert workers[i := pc][..n] == workers[..n][i := pc];
      ReadyCountUpdate(workers[..n], i, pc);
    } else {
      assert workers[i := pc][..n] == workers[..n];
    }
  }

  lemma {:induction false} SomeReady<Task>(workers: seq<Pc<Task>>)
    ensures ReadyCount(workers) > 0 <==> exists i :: 0 <= i < |workers| && Ready(workers[i])
  {
    if workers != [] {
      var front := workers[..|workers| - 1];
      SomeReady(front);
      if Ready(workers[|workers| - 1]) {
      } else if i :| 0 <= i < |workers| && Ready(workers[i]) {
        assert Ready(front[i]);
      }
    }
  }

  // Tasks leave in the order they came. While anyone sleeps there are as many ready workers and
  // outstanding notices together as there are tasks.
  predicate Inv<Task(==)>(s: State<Task>) {
    && s.taken + s.work == s.submitted
    && (AnyAsleep(s.workers) ==> |s.work| <= s.notices + ReadyCount(s.workers))
  }

  lemma AsleepBefore<Task>(workers: seq<Pc<Task>>, i: nat, pc: Pc<Task>)
    requires i < |workers| && !pc.Asleep?
    ensures AnyAsleep(workers[i := pc]) ==> AnyAsleep(workers)
  {
  }

  lemma LookKeepsInv<Task>(s: State<Task>, i: nat)
    requires Inv(s) && Enabled(s, Look(i))
    ensures Inv(Apply(s, Look(i)))
  {
    if s.work != [] {
      var pc := Busy(s.work[0]);
      ReadyCountUpdate(s.workers, i, pc);
      AsleepBefore(s.workers, i, pc);
      assert s.taken + [s.work[0]] + s.work[1..] == s.taken + s.work;
    }
  }

  lemma StepKeepsInv<Task>(s: State<Task>, e: Event<Task>)
    requires Inv(s) && Enabled(s, e)
    ensures Inv(Apply(s, e))
  {
    match e
    case Push(task) =>
      assert s.taken + (s.work + [task]) == s.submitted + [task];
    case Notify(woken) =>
      if AnyAsleep(s.workers) {
        ReadyCountUpdate(s.workers, woken, Woken);
        AsleepBefore(s.workers, woken, Woken);
      }
    case Look(i) =>
      LookKeepsInv(s, i);
    case Done(i) =>
      ReadyCountUpdate(s.workers, i, AtQueue);
      AsleepBefore(s.workers, i, AtQueue);
    case Spurious(i) =>
      ReadyCountUpdate(s.workers, i, Woken);
      AsleepBefore(s.workers, i, Woken);
    case NewWorker =>
      var workers := s.workers + [AtQueue];
      assert workers[..|workers| - 1] == s.workers;
      if j :| 0 <= j < |workers| && workers[j].Asleep? {
        assert s.workers[j].Asleep?;
      }
  }

  lemma {:induction false} RunKeepsInv<Task>(s: State<Task>, es: seq<Event<Task>>, t: State<Task>)
    requires Inv(s) && Runs(s, es, t)
    ensures Inv(t)
    decreases |es|
  {
    hide Inv, Enabled, Apply;
    if es != [] {
      StepKeepsInv(s, es[0]);
      RunKeepsInv(Apply(s, es[0]), es[1..], t);
    }
  }

  // In every reachable state the tasks taken are a prefix of the tasks submitted, in push order, and
  // the rest is the queue.
  lemma TakenInOrder<Task>(es: seq<Event<Task>>, s: State<Task>)
    requires Runs(Start<Task>(), es, s)
    ensures s.taken <= s.submitted && s.submitted[|s.taken|..] == s.work
  {
    RunKeepsInv(Start<Task>(), es, s);
  }

  // When a queue that is not empty meets a pool with every push notified, somebody is awake exactly
  // when there is a worker at all.
  lemma NobodyOversleeps<Task>(es: seq<Event<Task>>, s: State<Task>)
    requires Runs(Start<Task>(), es, s) && s.work != [] && s.notices == 0
    ensures (exists i :: 0 <= i < |s.workers| && !s.workers[i].Asleep?) <==> |s.workers| > 0
  {
    RunKeepsInv(Start<Task>(), es, s);
    SomeReady(s.workers);
    if |s.workers| > 0 && s.workers[0].Asleep? {
      var i :| 0 <= i < |s.workers| && Ready(s.workers[i]);
      assert !s.workers[i].Asleep?;
    }
  }

  // And as soon as there is a worker, the first task of the queue can always be taken within two
  // steps, provided tasks end.
  lemma FrontCanBeTaken<Task>(es: seq<Event<Task>>, s: State<Task>) returns (more: seq<Event<Task>>, t: State<Task>)
    requires Runs(Start<Task>(), es, s) && s.work != []
    ensures |s.workers| > 0 ==>
      && |more| <= 2 && Runs(s, more, t) && t.taken == s.taken + [s.work[0]] && t.work == s.work[1..]
      && forall k :: 0 <= k < |more| ==> !more[k].Push? && !more[k].Spurious? && !more[k].NewWorker?
  {
    more, t := [], s;
    RunKeepsInv(Start<Task>(), es, s);
    SomeReady(s.workers);
    if ReadyCount(s.workers) > 0 {
      var i :| 0 <= i < |s.workers| && Ready(s.workers[i]);
      more, t := [Look(i)], Apply(s, Look(i));
      assert Runs(t, more[1..], t);
    } else if AnyAsleep(s.workers) {
      var i :| 0 <= i < |s.workers| && s.workers[i].Asleep?;
      more, t := LookNext(s, Notify(i), i);
    } else if |s.workers| > 0 {
      assert s.workers[0].Busy?;
      more, t := LookNext(s, Done(0), 0);
    }
  }

  // Until then nothing is taken, and it takes a new worker to change that.
  lemma {:induction false} NoWorkerTakesNothing<Task>(s: State<Task>, es: seq<Event<Task>>, t: State<Task>)
    requires s.workers == [] && Runs(s, es, t)
    ensures t.workers == [] <==> forall e :: e in es ==> !e.NewWorker?
    ensures t.workers == [] ==> t.taken == s.taken
    decreases |es|
  {
    if es != [] {
      if es[0].NewWorker? {
        WorkersStay(Apply(s, es[0]), es[1..], t);
      } else {
        NoWorkerTakesNothing(Apply(s, es[0]), es[1..], t);
        assert forall e :: e in es <==> e == es[0] || e in es[1..];
      }
    }
  }

  lemma {:induction false} WorkersStay<Task>(s: State<Task>, es: seq<Event<Task>>, t: State<Task>)
    requires Runs(s, es, t)
    ensures |s.workers| <= |t.workers|
    decreases |es|
  {
    if es != [] {
      WorkersStay(Apply(s, es[0]), es[1..], t);
    }
  }

  lemma LookNext<Task>(s: State<Task>, e: Event<Task>, i: nat) returns (more: seq<Event<Task>>, t: State<Task>)
    requires Enabled(s, e) && Enabled(Apply(s, e), Look(i)) && Apply(s, e).work == s.work && Apply(s, e).taken == s.taken && s.work != []
    ensures more == [e, Look(i)] && Runs(s, more, t) && t.taken == s.taken + [s.work[0]] && t.work == s.work[1..]
  {
    var u := Apply(s, e);
    more, t := [e, Look(i)], Apply(u, Look(i));
    var last: seq<Event<Task>> := [Look(i)];
    assert more[1..] == last && last[1..] == [];
    assert Runs(t, [], t) && Runs(u, last, t);
  }
}
