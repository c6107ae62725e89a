/** The client's holder of the resources of one kind (client/src/clientholder.cpp) and the refresh of
    one address (client/src/clientprivate.cpp). Every method does to the tables what the function of
    ClientCache does to a Holder. */
module ClientApi {
  import opened Containers
  import opened ClientCache

  // The pointers of the ids that are held, each once.
  function Pointers(resources: map<Id, Ref>, ids: seq<Id>): seq<Ref>
    decreases |ids|
  {
    if ids == [] then []
    else (if ids[0] in resources then [resources[ids[0]]] else []) + Pointers(resources - {ids[0]}, ids[1..])
  }

  class ClientHolder {
    var resources: map<Id, Ref>
    var addressId: seq<(Addr, Id)>
    var idAddress: seq<(Id, Addr)>
    var stored: set<Id>

    constructor ()
      ensures View() == Empty()
    {
      resources, addressId, idAddress, stored := map[], [], [], {};
    }

    ghost function View(): Holder
      reads this
    {
      Holder(resources, addressId, idAddress, stored)
    }

    method AddResource(a: Addr, i: Id, r: Ref) returns (added: bool)
      modifies this
      ensures View() == Add(old(View()), a, i, r) && added == (i !in old(resources))
    {
      added := i !in resources;
      if added {
        resources := resources[i := r];
        addressId := addressId + [(a, i)];
        idAddress := idAddress + [(i, a)];
      }
    }

    // The entry of the id is looked for among those of its address.
    method RemoveResource(i: Id) returns (r: Option<Ref>)
      modifies this
      ensures View() == Remove(old(View()), i) && r == Found(old(View()), i)
    {
      var addresses := Range(idAddress, i);
      if addresses != [] {
        var k := 0;
        while k < |addressId| && addressId[k] != (addresses[0], i)
          invariant 0 <= k <= |addressId| && (addresses[0], i) !in addressId[..k]
          invariant unchanged(this)
        {
          k := k + 1;
        }
        ErasedAt(addressId, addresses[0], i, k);
        if k < |addressId| {
          addressId := addressId[..k] + addressId[k + 1..];
        }
      }
      idAddress := Erase(idAddress, i);
      r := if i in resources then Some(resources[i]) else None;
      resources := resources - {i};
    }

    method RemoveResources(a: Addr) returns (removed: seq<Ref>)
      modifies this
      ensures View() == RemoveAddress(old(View()), a)
      ensures removed == Pointers(old(resources), Range(old(addressId), a))
    {
      removed := [];
      var ids := Range(addressId, a);
      for k := 0 to |ids|
        invariant Pointers(old(resources), ids) == removed + Pointers(resources, ids[k..])
        invariant RemoveEach(old(resources), old(idAddress), ids) == RemoveEach(resources, idAddress, ids[k..])
        invariant addressId == old(addressId) && stored == old(stored)
      {
        assert ids[k..][1..] == ids[k + 1..];
        if ids[k] in resources {
          ghost var rest := Pointers(resources - {ids[k]}, ids[k + 1..]);
          assert removed + ([resources[ids[k]]] + rest) == removed + [resources[ids[k]]] + rest;
          removed := removed + [resources[ids[k]]];
        }
        resources := resources - {ids[k]};
        idAddress := Erase(idAddress, ids[k]);
      }
      addressId := Erase(addressId, a);
    }

    method RemoveAllResources()
      modifies this
      ensures View() == Clear(old(View()))
    {
      addressId, idAddress, resources := [], [], map[];
    }

    method UpdateResource(i: Id) returns (r: Option<Ref>)
      modifies `stored
      ensures View() == Update(old(View()), i) && r == Found(old(View()), i)
    {
      r := if i in resources then Some(resources[i]) else None;
      if r.Some? {
        stored := stored - {i};
      }
    }

    method StoreResources(a: Addr)
      modifies `stored
      ensures View() == Store(old(View()), a)
    {
      for k := 0 to |addressId|
        invariant stored == old(stored) + set p | p in addressId[..k] && p.0 == a :: p.1
      {
        assert addressId[..k + 1] == addressId[..k] + [addressId[k]];
        if addressId[k].0 == a {
          stored := stored + {addressId[k].1};
        }
      }
      assert addressId[..|addressId|] == addressId;
    }

    method RemoveStaleResources() returns (removed: seq<Option<Ref>>)
      modifies this
      ensures View() == RemoveStale(old(View())) && removed == Swept(old(View()), InOrder(old(stored)))
    {
      hide Remove, Found;
      removed := [];
      var ids := InOrder(stored);
      for k := 0 to |ids|
        invariant Sweep(old(View()), ids) == Sweep(View(), ids[k..])
        invariant Swept(old(View()), ids) == removed + Swept(View(), ids[k..])
      {
        assert ids[k..][1..] == ids[k + 1..];
        ghost var rest := Swept(Remove(View(), ids[k]), ids[k + 1..]);
        var r := RemoveResource(ids[k]);
        assert removed + ([r] + rest) == removed + [r] + rest;
        removed := removed + [r];
      }
    }
  }

  lemma {:induction false} ErasedAt<K, V>(m: seq<(K, V)>, key: K, v: V, k: nat)
    requires k <= |m| && (key, v) !in m[..k] && (k < |m| ==> m[k] == (key, v))
    ensures EraseOne(m, key, v) == if k < |m| then m[..k] + m[k + 1..] else m
  {
    if k > 0 {
      assert m[..k][0] == m[0] && m[1..][..k - 1] == m[..k][1..];
      ErasedAt(m[1..], key, v, k - 1);
    }
  }

  lemma MalformedIsSkipped(h: Holder, a: Addr)
    ensures ClientCache.AddDevice(h, a, Malformed) == h
  {
  }

  lemma OneReported(h: Holder, a: Addr, item: Item, added: Option<Ref>, updated: Option<Ref>, rest: seq<Item>, before: seq<Ref>, known: seq<Ref>)
    requires item.Entry? && updated == Found(h, item.id) && added == if item.id in h.resources then None else item.created
    ensures var report, later := Reported(h, a, [item] + rest), Reported(ClientCache.AddDevice(h, a, item), a, rest);
      && before + report.0 == before + (if added.Some? then [added.value] else []) + later.0
      && known + report.1 == known + (if updated.Some? then [updated.value] else []) + later.1
  {
    assert ([item] + rest)[1..] == rest;
    hide ClientCache.AddDevice;
  }

  // What one reply did: pointers added, updated and removed.
  class ClientApi {
    const devices: ClientHolder

    constructor (devices: ClientHolder)
      ensures this.devices == devices
    {
      this.devices := devices;
    }

    method AddDevice(a: Addr, i: Id, created: Option<Ref>) returns (added: Option<Ref>, updated: Option<Ref>)
      modifies devices
      ensures devices.View() == ClientCache.AddDevice(old(devices.View()), a, Entry(i, created))
      ensures updated == Found(old(devices.View()), i) && added == if i in old(devices.resources) then None else created
    {
      added := None;
      updated := devices.UpdateResource(i);
      if updated == None {
        added := created;
        if added.Some? {
          var _ := devices.AddResource(a, i, added.value);
        }
      }
    }

    // An element that is no object with an id is passed over.
    method AddDevices(a: Addr, items: seq<Item>) returns (added: seq<Ref>, updated: seq<Ref>)
      modifies devices
      ensures devices.View() == ClientCache.AddDevices(old(devices.View()), a, items)
      ensures (added, updated) == Reported(old(devices.View()), a, items)
    {
      hide ClientCache.AddDevice, Found;
      added, updated := [], [];
      ghost var all := Reported(devices.View(), a, items);
      assert [] + all.0 == all.0 && [] + all.1 == all.1 && items[0..] == items;
      for k := 0 to |items|
        invariant ClientCache.AddDevices(old(devices.View()), a, items) == ClientCache.AddDevices(devices.View(), a, items[k..])
        invariant var rest := Reported(devices.View(), a, items[k..]); all == (added + rest.0, updated + rest.1)
      {
        assert items[k..][0] == items[k] && items[k..][1..] == items[k + 1..];
        ghost var before := devices.View();
        match items[k] {
          case Malformed =>
            MalformedIsSkipped(before, a);
          case Entry(i, created) =>
            var new_, known := AddDevice(a, i, created);
            OneReported(before, a, items[k], new_, known, items[k + 1..], added, updated);
            added := added + if new_.Some? then [new_.value] else [];
            updated := updated + if known.Some? then [known.value] else [];
        }
      }
      assert added + [] == added && updated + [] == updated;
    }

    // NodeBrowser's steps for one kind of resource.
    method BrowseDevices(a: Addr, items: seq<Item>) returns (added: seq<Ref>, updated: seq<Ref>, removed: seq<Option<Ref>>)
      modifies devices
      ensures devices.View() == Refresh(old(devices.View()), a, items)
      ensures removed == Removed(old(devices.View()), a, items)
      ensures (added, updated) == Reported(Store(old(devices.View()), a), a, items)
    {
      devices.StoreResources(a);
      added, updated := AddDevices(a, items);
      removed := devices.RemoveStaleResources();
    }
  }
}
