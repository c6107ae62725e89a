/** The thread of a node that finds a registry and keeps its registration alive
    (node/src/nmosthread.cpp, node/src/nodeapiprivate.cpp). Every method does to the fields what the
    function of the same name in Failover does to a state. */
module NmosThread {
  import opened Containers
  import opened Failover

  class RegistrationThread {
    var nodes: map<Url, RegNode>
    var current: Option<Url>
    var status: Status
    // How many resources each of the five holders has.
    const sizes: seq<nat>
    var replies: seq<int>
    var events: seq<Event>
    ghost var log: seq<Exchange>
    ghost var failed: seq<Url>

    constructor (sizes: seq<nat>, replies: seq<int>, events: seq<Event>)
      ensures View() == State(map[], None, REG_START, replies, []) && this.events == events && failed == [] && this.sizes == sizes
    {
      this.sizes, this.replies, this.events := sizes, replies, events;
      nodes, current, status, log, failed := map[], None, REG_START, [], [];
    }

    ghost function View(): State
      reads this
    {
      State(nodes, current, status, replies, log)
    }

    method FindRegistrationNode() returns (found: bool)
      modifies `current, `status
      ensures View() == Find(old(View())) && found == current.Some?
      ensures status == if !found then REG_FAILED else if old(current) == None then REG_START else REG_DONE
    {
      var best: Option<Url> := None;
      var left := nodes;
      while left != map[]
        invariant left.Keys <= nodes.Keys && (best.Some? ==> best.value in nodes)
        invariant Scan(nodes, nodes, None) == Scan(nodes, left, best)
        invariant current == old(current) && status == old(status)
        decreases |left|
      {
        var u := First(left);
        SmallerWithout(left, u);
        var least := if best.Some? then nodes[best.value].priority else 200;
        if nodes[u].good && nodes[u].priority < least {
          best := Some(u);
        }
        left := left - {u};
      }
      if best == None {
        current, status := None, REG_FAILED;
      } else {
        status := if current == None then REG_START else REG_DONE;
        current := best;
      }
      found := current.Some?;
    }

    method MarkRegNodeAsBad()
      modifies `nodes
      ensures nodes == MarkBad(old(nodes), current)
    {
      if current.Some? && current.value in nodes {
        nodes := nodes[current.value := nodes[current.value].(good := false)];
      }
    }

    // One request, answered by the script.
    method Request(r: Request) returns (code: int)
      modifies `nodes, `replies, `log
      ensures View() == Ask(old(View()), r) && code == Code(old(View()))
    {
      code := 0;
      if replies != [] {
        code := replies[0];
        replies := replies[1..];
      }
      log := log + [Exchange(r, code)];
      if code == 500 || code < 100 {
        MarkRegNodeAsBad();
      }
    }

    method UnregisterSimple()
      modifies `nodes, `replies, `log, `status
      ensures View() == Unregister(old(View()))
    {
      if current.Some? {
        var _ := Request(DELETE);
        status := REG_START;
      }
    }

    // 201 when every resource was accepted, the first other answer otherwise.
    method RegisterHolder(n: nat) returns (code: int)
      modifies `nodes, `replies, `log
      ensures var r := RegisterResources(old(View()), n); View() == r.0 && (code == 201 <==> r.1)
    {
      var k := n;
      while k > 0
        invariant 0 <= k <= n && RegisterResources(View(), k) == RegisterResources(old(View()), n)
      {
        code := Request(RESOURCE);
        if code != 201 && code != 200 {
          return;
        }
        k := k - 1;
      }
      code := 201;
    }

    method RegisterSimple() returns (result: Status)
      modifies `nodes, `replies, `log, `status
      ensures View() == Failover.RegisterSimple(old(View()), sizes) && result == status
      decreases |replies|
    {
      if status != REG_DONE {
        status := REG_FAILED;
        if current.Some? {
          var code := Request(NODE);
          if code == 200 {
            UnregisterSimple();
            result := this.RegisterSimple();
            return;
          } else if code != 201 {
            UnregisterSimple();
            status := REG_FAILED;
            return status;
          }
          ghost var start := View();
          var i := 0;
          while i < |sizes|
            invariant i <= |sizes| && status == REG_FAILED && current == start.current
            invariant RegisterHolders(start, sizes) == RegisterHolders(View(), sizes[i..])
          {
            assert sizes[i..][0] == sizes[i] && sizes[i..][1..] == sizes[i + 1..];
            code := RegisterHolder(sizes[i]);
            if code != 201 {
              assert RegisterHolders(start, sizes) == (View(), false);
              UnregisterSimple();
              status := REG_FAILED;
              return status;
            }
            i := i + 1;
          }
          assert sizes[i..] == [];
          status := REG_DONE;
        }
      }
      result := status;
    }

    method HandleHeartbeatResponse(code: nat) returns (ok: bool)
      modifies `nodes, `replies, `log, `status
      ensures var r := Failover.HandleHeartbeatResponse(old(View()), code, sizes); View() == r.0 && ok == r.1
    {
      ok := true;
      if code == 0 || code >= 500 {
        ok := false;
        status := REG_FAILED;
      } else if code == 404 {
        status := REG_FAILED;
        var r := RegisterSimple();
        if r != REG_DONE {
          ok := false;
          status := REG_FAILED;
        }
      } else if code == 409 {
        UnregisterSimple();
        var r := RegisterSimple();
        if r != REG_DONE {
          ok := false;
          status := REG_FAILED;
        }
      } else if code >= 400 {
        ok := false;
        status := REG_FAILED;
      }
    }

    method Heartbeat() returns (ok: bool)
      modifies `nodes, `replies, `log, `status
      ensures var r := Failover.Heartbeat(old(View()), sizes); View() == r.0 && ok == r.1
    {
      var code := Request(HEARTBEAT);
      ok := HandleHeartbeatResponse(code % 0x1_0000_0000);
    }

    // The next thing that ends a wait. The tables change before the node wakes.
    method WaitUntil() returns (e: Event, lost: bool)
      requires events != []
      modifies `nodes, `events
      ensures e == old(events)[0] && events == old(events)[1..] && nodes == Discovered(old(nodes), e)
      ensures lost == (e.Removed? && current == Some(e.url))
    {
      e, events := events[0], events[1..];
      lost := false;
      match e {
        case Removed(u) =>
          nodes := nodes - {u};
          lost := current == Some(u);
        case Resolved(u, priority) =>
          if u !in nodes {
            nodes := nodes[u := RegNode(true, priority)];
          }
        case _ =>
      }
    }

    method RegisteredOperation() returns (clean: bool)
      modifies `nodes, `replies, `log, `status, `events
      ensures Outcome(View(), events, clean) == Failover.RegisteredOperation(old(View()), old(events), sizes)
    {
      var r := RegisterSimple();
      if r != REG_DONE {
        return false;
      }
      var ok := Heartbeat();
      if !ok {
        return false;
      }
      ghost var start := View();
      while events != []
        invariant Serve(start, old(events), sizes) == Serve(View(), events, sizes)
        decreases |events|
      {
        var e, lost := WaitUntil();
        if lost {
          status := REG_FAILED;
          return false;
        }
        if e == Timeout {
          ok := Heartbeat();
          if !ok {
            return false;
          }
        }
      }
      clean := true;
    }

    // Registries are tried until the node is stopped or none is left.
    method FindRegisterNode()
      modifies this
      ensures var run := Failover.FindRegisterNode(old(View()), old(events), sizes);
        View() == run.s && events == run.left && failed == old(failed) + run.failed
    {
      ghost var before := View();
      ghost var run := Failover.FindRegisterNode(before, events, sizes);
      var found := FindRegistrationNode();
      while found
        invariant View() == Find(before) && found == current.Some?
        invariant var rest := Failover.FindRegisterNode(before, events, sizes);
          run.s == rest.s && run.left == rest.left && old(failed) + run.failed == failed + rest.failed
        decreases |replies| + |events|, Good(nodes)
      {
        hide Failover.RegisteredOperation, Find, Unregister;
        FindPicksBest(before);
        RoundMakesProgress(View(), events, sizes);
        ghost var rest := Failover.FindRegisterNode(before, events, sizes);
        ghost var round := Failover.RegisteredOperation(View(), events, sizes);
        var used := current.value;
        var clean := RegisteredOperation();
        if clean {
          UnregisterSimple();
          assert failed + rest.failed == failed;
          return;
        }
        before := View();
        ghost var later := Failover.FindRegisterNode(before, events, sizes);
        assert failed + ([used] + later.failed) == failed + [used] + later.failed;
        failed := failed + [used];
        found := FindRegistrationNode();
      }
      assert failed + [] == failed;
    }
  }
}
