/** The registry's methods (common/src/registrymemory.cpp, common/src/registryapi.cpp), each tied to
    the function of Registry that says what the table becomes. Clock readings are parameters. */
module RegistryMemory {
  import opened Containers
  import opened Registry

  lemma OthersUntouched(t: Table, k: Kind, gone: set<Id>, other: Kind, parents: set<Id>)
    requires other != k
    ensures Children(t - Keyed(k, gone), other, parents) == Children(t, other, parents)
  {
    var u := t - Keyed(k, gone);
    forall i ensures i in Ids(u, other) <==> i in Ids(t, other) {
      IdsMean(u, other, i);
      IdsMean(t, other, i);
    }
  }

  lemma KeyedMore(k: Kind, ids: seq<Id>, i: Id)
    ensures Keyed(k, ElementsOf(ids + [i])) == Keyed(k, ElementsOf(ids)) + {(k, i)}
  {
  }

  class RegistryMemory {
    var resources: Table

    constructor ()
      ensures resources == map[]
    {
      resources := map[];
    }

    method DeleteResource(k: Kind, i: Id) returns (found: bool)
      modifies this
      ensures resources == Deleted(old(resources), k, i) && found == ((k, i) in old(resources))
    {
      found := (k, i) in resources;
      resources := resources - {(k, i)};
    }

    method FindNmosResource(k: Kind, i: Id) returns (found: bool)
      ensures found == Found(resources, k, i)
    {
      found := (k, i) in resources;
    }

    // The time of the heartbeat, or 0 for a node that is not registered.
    method Heartbeat(i: Id, now: nat) returns (health: nat)
      modifies this
      ensures resources == Beat(old(resources), i, now) && health == if (NODE, i) in old(resources) then now else 0
    {
      health := 0;
      if (NODE, i) in resources {
        resources := resources[(NODE, i) := resources[(NODE, i)].(heartbeat := now)];
        health := now;
      }
    }

    // std::map::insert.
    method AddResource(k: Kind, i: Id, r: Resource) returns (added: bool)
      modifies this
      ensures added == ((k, i) !in old(resources))
      ensures resources == if added then old(resources)[(k, i) := r] else old(resources)
    {
      added := (k, i) !in resources;
      if added {
        resources := resources[(k, i) := r];
      }
    }

    // The ids of one kind whose parent is in the list.
    method GarbageCheck(k: Kind, parents: seq<Id>) returns (ids: seq<Id>)
      ensures ElementsOf(ids) == Children(resources, k, ElementsOf(parents))
    {
      ids := [];
      var left := Ids(resources, k);
      while left != {}
        invariant left <= Ids(resources, k)
        invariant forall i :: i in ids <==> i in Ids(resources, k) - left && resources[(k, i)].parent in parents
        decreases left
      {
        var i := Least(left);
        IdsMean(resources, k, i);
        for j := 0 to |parents|
          invariant forall x :: x in ids <==>
            (x in Ids(resources, k) - left && resources[(k, x)].parent in parents) || (x == i && resources[(k, i)].parent in parents[..j])
        {
          if resources[(k, i)].parent == parents[j] {
            ids := ids + [i];
          }
        }
        assert parents[..|parents|] == parents;
        left := left - {i};
      }
      forall i ensures i in ElementsOf(ids) <==> i in Children(resources, k, ElementsOf(parents)) {
        assert i in ElementsOf(ids) <==> i in ids;
        if i in Ids(resources, k) {
          IdsMean(resources, k, i);
          assert resources[(k, i)].parent in ElementsOf(parents) <==> resources[(k, i)].parent in parents;
        }
      }
    }

    method GarbageDelete(k: Kind, ids: seq<Id>)
      modifies this
      ensures resources == old(resources) - Keyed(k, ElementsOf(ids))
    {
      for j := 0 to |ids|
        invariant resources == old(resources) - Keyed(k, ElementsOf(ids[..j]))
      {
        assert ids[..j + 1] == ids[..j] + [ids[j]];
        KeyedMore(k, ids[..j], ids[j]);
        var _ := DeleteResource(k, ids[j]);
      }
      assert ids[..|ids|] == ids;
    }

    method FindSilent(now: nat) returns (ids: seq<Id>)
      ensures ElementsOf(ids) == SilentNodes(resources, now)
    {
      ids := [];
      var left := Ids(resources, NODE);
      while left != {}
        invariant left <= Ids(resources, NODE)
        invariant forall i :: i in ids <==> i in SilentNodes(resources, now) && i !in left
        decreases left
      {
        hide WORD;
        var i := Least(left);
        IdsMean(resources, NODE, i);
        if Silent(resources[(NODE, i)], now) {
          ids := ids + [i];
        }
        left := left - {i};
      }
      forall i ensures i in ElementsOf(ids) <==> i in SilentNodes(resources, now) {
        assert i in ElementsOf(ids) <==> i in ids;
      }
    }

    method CollectLeaves(k: Kind, devices: seq<Id>)
      modifies this
      ensures resources == old(resources) - Keyed(k, Children(old(resources), k, ElementsOf(devices)))
    {
      var ids := GarbageCheck(k, devices);
      GarbageDelete(k, ids);
    }

    // The lists are made before anything goes; the leaves go first.
    method GarbageCollection(now: nat) returns (any: bool)
      modifies this
      ensures resources == Collected(old(resources), now) && any == (SilentNodes(old(resources), now) != {})
    {
      hide Children, Keyed, SilentNodes, ElementsOf;
      ghost var t := resources;
      var nodes := FindSilent(now);
      var lost := GarbageCheck(DEVICE, nodes);
      ghost var devices := ElementsOf(lost);
      CollectLeaves(RECEIVER, lost);
      OthersUntouched(t, RECEIVER, Children(t, RECEIVER, devices), SENDER, devices);
      OthersUntouched(t, RECEIVER, Children(t, RECEIVER, devices), FLOW, devices);
      OthersUntouched(t, RECEIVER, Children(t, RECEIVER, devices), SOURCE, devices);
      ghost var t1 := resources;
      CollectLeaves(SENDER, lost);
      OthersUntouched(t1, SENDER, Children(t, SENDER, devices), FLOW, devices);
      OthersUntouched(t1, SENDER, Children(t, SENDER, devices), SOURCE, devices);
      ghost var t2 := resources;
      CollectLeaves(FLOW, lost);
      OthersUntouched(t2, FLOW, Children(t, FLOW, devices), SOURCE, devices);
      CollectLeaves(SOURCE, lost);
      GarbageDelete(DEVICE, lost);
      GarbageDelete(NODE, nodes);
      ElementsMean(nodes);
      any := nodes != [];
    }
  }

  class RegistryApi {
    const registry: RegistryMemory

    constructor (registry: RegistryMemory)
      ensures this.registry == registry
    {
      this.registry := registry;
    }

    method AddResource(k: Kind, i: Id, b: Body, now: nat) returns (code: Code)
      requires (k, i) !in registry.resources
      modifies registry
      ensures (registry.resources, code) == Added(old(registry.resources), k, i, b, now)
    {
      var ok := false;
      if k == NODE {
        if b.ok {
          ok := registry.AddResource(k, i, Resource(i, 0));
          if ok {
            var _ := registry.Heartbeat(i, now);
            assert registry.resources == old(registry.resources)[(k, i) := Resource(i, now)];
          }
        }
      } else if b.ok {
        if b.parent == None {
          return BAD_REQUEST;
        }
        var found := registry.FindNmosResource(ParentKind(k), b.parent.value);
        if !found {
          return BAD_REQUEST;
        }
        ok := registry.AddResource(k, i, Resource(b.parent.value, 0));
      }
      code := if ok then CREATED else NOT_FOUND;
    }

    method AddUpdateResource(k: Kind, i: Id, b: Body, now: nat) returns (code: Code)
      modifies registry
      ensures (registry.resources, code) == AddUpdate(old(registry.resources), k, i, b, now)
    {
      var found := registry.FindNmosResource(k, i);
      if found {
        if k != NODE && b.parent.Some? {
          registry.resources := registry.resources[(k, i) := registry.resources[(k, i)].(parent := b.parent.value)];
        }
        code := if b.ok then OK else NOT_FOUND;
      } else {
        code := AddResource(k, i, b, now);
      }
    }
  }
}
