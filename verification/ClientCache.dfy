/** The client's cache of the resources of one kind (client/src/clientholder.cpp) and its refresh for
    one address (client/src/clientprivate.cpp): three tables that have to agree, and a set of ids
    that a refresh marks and sweeps. */
module ClientCache {
  import opened Containers

  // Ids and addresses, by their place in the order of strings; the object a pointer points to.
  type Id = int
  type Addr = int
  type Ref = nat

  // ---------- Multimaps ----------

  // lower_bound to upper_bound.
  function Range<K(==), V>(m: seq<(K, V)>, k: K): seq<V> {
    if m == [] then []
    else
      var last := m[|m| - 1];
      Range(m[..|m| - 1], k) + if last.0 == k then [last.1] else []
  }

  // erase of a key.
  function Erase<K(==), V>(m: seq<(K, V)>, k: K): seq<(K, V)> {
    if m == [] then []
    else
      var last := m[|m| - 1];
      Erase(m[..|m| - 1], k) + if last.0 == k then [] else [last]
  }

  // erase of the first entry with that key and value.
  function EraseOne<K(==), V(==)>(m: seq<(K, V)>, k: K, v: V): seq<(K, V)> {
    if m == [] then [] else if m[0] == (k, v) then m[1..] else [m[0]] + EraseOne(m[1..], k, v)
  }

  predicate DistinctKeys<K(==), V>(m: seq<(K, V)>) {
    forall i, j :: 0 <= i < j < |m| ==> m[i].0 != m[j].0
  }

  predicate DistinctValues<K, V(==)>(m: seq<(K, V)>) {
    forall i, j :: 0 <= i < j < |m| ==> m[i].1 != m[j].1
  }

  lemma {:induction false} RangeMembers<K, V>(m: seq<(K, V)>, k: K, v: V)
    ensures v in Range(m, k) <==> (k, v) in m
  {
    if m != [] {
      RangeMembers(m[..|m| - 1], k, v);
      assert m == m[..|m| - 1] + [m[|m| - 1]];
    }
  }

  lemma {:induction false} EraseMembers<K, V>(m: seq<(K, V)>, k: K, p: (K, V))
    ensures p in Erase(m, k) <==> p in m && p.0 != k
  {
    if m != [] {
      EraseMembers(m[..|m| - 1], k, p);
      assert m == m[..|m| - 1] + [m[|m| - 1]];
    }
  }

  lemma {:induction false} EraseKeepsDistinct<K, V>(m: seq<(K, V)>, k: K)
    ensures DistinctKeys(m) ==> DistinctKeys(Erase(m, k))
    ensures DistinctValues(m) ==> DistinctValues(Erase(m, k))
  {
    if m != [] {
      var front := m[..|m| - 1];
      EraseKeepsDistinct(front, k);
      forall i | 0 <= i < |Erase(front, k)| ensures Erase(front, k)[i] in front {
        EraseMembers(front, k, Erase(front, k)[i]);
      }
    }
  }

  lemma {:induction false} EraseOneMembers<K, V>(m: seq<(K, V)>, k: K, v: V, p: (K, V))
    requires DistinctValues(m)
    ensures p in EraseOne(m, k, v) <==> p in m && p != (k, v)
  {
    if m != [] {
      assert m == [m[0]] + m[1..];
      if m[0] != (k, v) {
        EraseOneMembers(m[1..], k, v, p);
      }
    }
  }

  lemma {:induction false} EraseOneKeepsDistinct<K, V>(m: seq<(K, V)>, k: K, v: V)
    requires DistinctValues(m)
    ensures DistinctValues(EraseOne(m, k, v))
  {
    if m != [] && m[0] != (k, v) {
      var rest := EraseOne(m[1..], k, v);
      EraseOneKeepsDistinct(m[1..], k, v);
      forall i | 0 <= i < |rest| ensures rest[i] in m[1..] {
        EraseOneMembers(m[1..], k, v, rest[i]);
      }
    }
  }

  // ---------- The holder ----------

  datatype Holder = Holder(resources: map<Id, Ref>, addressId: seq<(Addr, Id)>, idAddress: seq<(Id, Addr)>, stored: set<Id>)

  function Empty(): Holder {
    Holder(map[], [], [], {})
  }

  // The three tables say the same: every id has exactly one address.
  ghost predicate Agree(h: Holder) {
    && (forall p :: p in h.addressId ==> (p.1, p.0) in h.idAddress)
    && (forall p :: p in h.idAddress ==> (p.1, p.0) in h.addressId)
    && (forall i :: i in h.resources <==> Range(h.idAddress, i) != [])
    && DistinctKeys(h.idAddress) && DistinctValues(h.addressId)
  }

  // The ids held under an address.
  function At(h: Holder, a: Addr): set<Id> {
    set p | p in h.addressId && p.0 == a :: p.1
  }

  function Add(h: Holder, a: Addr, i: Id, r: Ref): Holder {
    if i in h.resources then h
    else h.(resources := h.resources[i := r], addressId := h.addressId + [(a, i)], idAddress := h.idAddress + [(i, a)])
  }

  function Remove(h: Holder, i: Id): Holder {
    var addresses := Range(h.idAddress, i);
    h.(resources := h.resources - {i},
       addressId := if addresses == [] then h.addressId else EraseOne(h.addressId, addresses[0], i),
       idAddress := Erase(h.idAddress, i))
  }

  function Found(h: Holder, i: Id): Option<Ref> {
    if i in h.resources then Some(h.resources[i]) else None
  }

  // The ids of one address go one after the other.
  function RemoveEach(resources: map<Id, Ref>, idAddress: seq<(Id, Addr)>, ids: seq<Id>): (map<Id, Ref>, seq<(Id, Addr)>)
    decreases |ids|
  {
    if ids == [] then (resources, idAddress) else RemoveEach(resources - {ids[0]}, Erase(idAddress, ids[0]), ids[1..])
  }

  function RemoveAddress(h: Holder, a: Addr): Holder {
    var left := RemoveEach(h.resources, h.idAddress, Range(h.addressId, a));
    h.(resources := left.0, idAddress := left.1, addressId := Erase(h.addressId, a))
  }

  function Clear(h: Holder): Holder {
    h.(resources := map[], addressId := [], idAddress := [])
  }

  // UpdateResource: an id that is held is not stale.
  function Update(h: Holder, i: Id): Holder {
    if i in h.resources then h.(stored := h.stored - {i}) else h
  }

  function Store(h: Holder, a: Addr): Holder {
    h.(stored := h.stored + At(h, a))
  }

  // A set in its order.
  function InOrder(s: set<Id>): (r: seq<Id>)
    ensures (forall i :: i in r <==> i in s) && forall j, k :: 0 <= j < k < |r| ==> r[j] < r[k]
    decreases |s|
  {
    if s == {} then [] else [Least(s)] + InOrder(s - {Least(s)})
  }

  function Sweep(h: Holder, ids: seq<Id>): Holder
    decreases |ids|
  {
    if ids == [] then h else Sweep(Remove(h, ids[0]), ids[1..])
  }

  // What the sweep reports: null for an id that is not held.
  function Swept(h: Holder, ids: seq<Id>): seq<Option<Ref>>
    decreases |ids|
  {
    if ids == [] then [] else [Found(h, ids[0])] + Swept(Remove(h, ids[0]), ids[1..])
  }

  // The stored set itself is left as it is.
  function RemoveStale(h: Holder): Holder {
    Sweep(h, InOrder(h.stored))
  }

  // ---------- The tables agree ----------

  lemma RangeMeans<K, V>(m: seq<(K, V)>, k: K)
    ensures Range(m, k) == [] <==> forall p :: p in m ==> p.0 != k
  {
  }

  lemma RangeOfAppend<K, V>(m: seq<(K, V)>, p: (K, V), k: K)
    ensures Range(m + [p], k) == Range(m, k) + if p.0 == k then [p.1] else []
  {
  }

  lemma AddAgrees(h: Holder, a: Addr, i: Id, r: Ref)
    requires Agree(h)
    ensures Agree(Add(h, a, i, r))
    ensures forall b :: At(Add(h, a, i, r), b) == if b == a && i !in h.resources then At(h, b) + {i} else At(h, b)
  {
    hide Range;
    if i !in h.resources {
      var g := Add(h, a, i, r);
      RangeMeans(h.idAddress, i);
      forall k | 0 <= k < |h.addressId| ensures h.addressId[k].1 != i {
        var p := h.addressId[k];
        assert p in h.addressId;
      }
      forall j ensures j in g.resources <==> Range(g.idAddress, j) != [] {
        RangeOfAppend(h.idAddress, (i, a), j);
      }
      forall b ensures At(g, b) == if b == a then At(h, b) + {i} else At(h, b) {
        assert forall p :: p in g.addressId <==> p in h.addressId || p == (a, i);
      }
    }
  }

  // An id that is held has one address, and is found there.
  lemma TheAddress(h: Holder, i: Id)
    requires Agree(h) && i in h.resources
    ensures var addresses := Range(h.idAddress, i);
      addresses != [] && forall b :: (b, i) in h.addressId <==> b == addresses[0]
  {
    var a := Range(h.idAddress, i)[0];
    RangeMembers(h.idAddress, i, a);
    forall b ensures (b, i) in h.addressId <==> b == a {
      assert (i, a) in h.idAddress;
      if (b, i) in h.addressId {
        assert (i, b) in h.idAddress;
      }
    }
  }

  // Taking the same ids out of all three tables.
  ghost predicate Without(h: Holder, g: Holder, gone: set<Id>) {
    && (forall p :: p in g.addressId <==> p in h.addressId && p.1 !in gone)
    && (forall p :: p in g.idAddress <==> p in h.idAddress && p.0 !in gone)
    && g.resources.Keys == h.resources.Keys - gone
    && DistinctKeys(g.idAddress) && DistinctValues(g.addressId)
  }

  lemma WithoutAgrees(h: Holder, g: Holder, gone: set<Id>)
    requires Agree(h) && Without(h, g, gone)
    ensures Agree(g) && forall b :: At(g, b) == At(h, b) - gone
  {
    hide Range, DistinctKeys, DistinctValues;
    forall j ensures j in g.resources <==> Range(g.idAddress, j) != [] {
      RangeMeans(h.idAddress, j);
      RangeMeans(g.idAddress, j);
    }
    forall b ensures At(g, b) == At(h, b) - gone {
    }
  }

  lemma OneAddressGone(h: Holder, i: Id, p: (Addr, Id))
    requires Agree(h)
    ensures p in Remove(h, i).addressId <==> p in h.addressId && p.1 != i
  {
    if i in h.resources {
      TheAddress(h, i);
      EraseOneMembers(h.addressId, Range(h.idAddress, i)[0], i, p);
    } else {
      RangeMeans(h.idAddress, i);
    }
    hide Range, EraseOne, Erase, DistinctKeys, DistinctValues;
  }

  lemma RemoveAgrees(h: Holder, i: Id)
    requires Agree(h)
    ensures var g := Remove(h, i); Agree(g) && g.resources.Keys == h.resources.Keys - {i} && g.stored == h.stored
    ensures forall b :: At(Remove(h, i), b) == At(h, b) - {i}
  {
    hide Range, EraseOne, Erase, DistinctKeys, DistinctValues;
    var g := Remove(h, i);
    EraseKeepsDistinct(h.idAddress, i);
    forall p ensures p in g.idAddress <==> p in h.idAddress && p.0 != i {
      EraseMembers(h.idAddress, i, p);
    }
    forall p ensures p in g.addressId <==> p in h.addressId && p.1 != i {
      OneAddressGone(h, i, p);
    }
    var addresses := Range(h.idAddress, i);
    if addresses != [] {
      EraseOneKeepsDistinct(h.addressId, addresses[0], i);
    }
    WithoutAgrees(h, g, {i});
  }

  lemma {:induction false} RemoveEachMeans(resources: map<Id, Ref>, idAddress: seq<(Id, Addr)>, ids: seq<Id>)
    requires DistinctKeys(idAddress)
    ensures var (r, m) := RemoveEach(resources, idAddress, ids);
      && (forall i :: i in r <==> i in resources && i !in ids) && (forall p :: p in m <==> p in idAddress && p.0 !in ids)
      && DistinctKeys(m)
    decreases |ids|
  {
    if ids != [] {
      var m := Erase(idAddress, ids[0]);
      EraseKeepsDistinct(idAddress, ids[0]);
      forall p ensures p in m <==> p in idAddress && p.0 != ids[0] {
        EraseMembers(idAddress, ids[0], p);
      }
      RemoveEachMeans(resources - {ids[0]}, m, ids[1..]);
      assert forall i :: i in ids <==> i == ids[0] || i in ids[1..];
      hide Erase, DistinctKeys;
    }
  }

  lemma AtIsRange(h: Holder, a: Addr, i: Id)
    ensures i in Range(h.addressId, a) <==> i in At(h, a)
  {
    RangeMembers(h.addressId, a, i);
  }

  lemma InOnePlace(h: Holder, a: Addr, b: Addr, i: Id)
    requires Agree(h) && (b, i) in h.addressId
    ensures i in At(h, a) <==> a == b
  {
  }

  lemma RemoveAddressAgrees(h: Holder, a: Addr)
    requires Agree(h)
    ensures var g := RemoveAddress(h, a); Agree(g) && g.resources.Keys == h.resources.Keys - At(h, a) && g.stored == h.stored
    ensures forall b :: At(RemoveAddress(h, a), b) == At(h, b) - At(h, a)
  {
    hide Erase, DistinctKeys, DistinctValues, At;
    var g := RemoveAddress(h, a);
    RemoveEachMeans(h.resources, h.idAddress, Range(h.addressId, a));
    EraseKeepsDistinct(h.addressId, a);
    forall p ensures p in g.addressId <==> p in h.addressId && p.1 !in At(h, a) {
      EraseMembers(h.addressId, a, p);
      if p in h.addressId {
        InOnePlace(h, a, p.0, p.1);
      }
    }
    forall i ensures i in g.resources.Keys <==> i in h.resources.Keys - At(h, a) {
      AtIsRange(h, a, i);
    }
    forall p ensures p in g.idAddress <==> p in h.idAddress && p.0 !in At(h, a) {
      AtIsRange(h, a, p.0);
    }
    WithoutAgrees(h, g, At(h, a));
  }

  lemma {:induction false} SweepAgrees(h: Holder, ids: seq<Id>)
    requires Agree(h)
    ensures var g := Sweep(h, ids); Agree(g) && g.resources.Keys == h.resources.Keys - ElementsOf(ids) && g.stored == h.stored
    ensures forall b :: At(Sweep(h, ids), b) == At(h, b) - ElementsOf(ids)
    decreases |ids|
  {
    hide Agree, Remove, At;
    if ids == [] {
      assert ElementsOf(ids) == {};
    } else {
      var g, rest := Remove(h, ids[0]), ids[1..];
      RemoveAgrees(h, ids[0]);
      SweepAgrees(g, rest);
      assert ElementsOf(ids) == {ids[0]} + ElementsOf(rest) by {
        assert forall i :: i in ids <==> i == ids[0] || i in rest;
      }
      forall b ensures At(Sweep(h, ids), b) == At(h, b) - ElementsOf(ids) {
        assert At(Sweep(g, rest), b) == At(g, b) - ElementsOf(rest);
        assert At(g, b) == At(h, b) - {ids[0]};
      }
    }
  }

  lemma StoreAgrees(h: Holder, a: Addr)
    requires Agree(h)
    ensures var g := Store(h, a); Agree(g) && g.resources == h.resources && g.stored == h.stored + At(h, a)
    ensures forall b :: At(Store(h, a), b) == At(h, b)
  {
  }

  lemma UpdateAgrees(h: Holder, i: Id)
    requires Agree(h)
    ensures var g := Update(h, i); Agree(g) && g.resources == h.resources && g.stored == if i in h.resources then h.stored - {i} else h.stored
    ensures forall b :: At(Update(h, i), b) == At(h, b)
  {
  }

  // ---------- Every run ----------

  datatype Event = Added(a: Addr, i: Id, r: Ref) | Dropped(i: Id) | Left(a: Addr) | Cleared | Updated(i: Id) | Marked(a: Addr) | Collected

  function Apply(h: Holder, e: Event): Holder {
    match e
    case Added(a, i, r) => Add(h, a, i, r)
    case Dropped(i) => Remove(h, i)
    case Left(a) => RemoveAddress(h, a)
    case Cleared => Clear(h)
    case Updated(i) => Update(h, i)
    case Marked(a) => Store(h, a)
    case Collected => RemoveStale(h)
  }

  function Runs(h: Holder, events: seq<Event>): Holder
    decreases |events|
  {
    if events == [] then h else Runs(Apply(h, events[0]), events[1..])
  }

  lemma {:induction false} RunKeepsAgree(h: Holder, events: seq<Event>)
    requires Agree(h)
    ensures Agree(Runs(h, events))
    decreases |events|
  {
    hide Agree, Add, Remove, RemoveAddress, Store, Update, Sweep, InOrder, At;
    if events != [] {
      match events[0] {
        case Added(a, i, r) => AddAgrees(h, a, i, r);
        case Dropped(i) => RemoveAgrees(h, i);
        case Left(a) => RemoveAddressAgrees(h, a);
        case Cleared => ClearAgrees(h);
        case Updated(i) => UpdateAgrees(h, i);
        case Marked(a) => StoreAgrees(h, a);
        case Collected => SweepAgrees(h, InOrder(h.stored));
      }
      RunKeepsAgree(Apply(h, events[0]), events[1..]);
    }
  }

  lemma ClearAgrees(h: Holder)
    ensures Agree(Clear(h)) && Clear(h).resources.Keys == {} && Clear(h).stored == h.stored
  {
  }

  lemma AtMeans(h: Holder, a: Addr, i: Id)
    requires Agree(h)
    ensures i in At(h, a) <==> (a, i) in h.addressId
    ensures i in At(h, a) <==> (i, a) in h.idAddress
  {
  }

  lemma {:induction false} DistinctKeysCount<K, V>(m: seq<(K, V)>, keys: set<K>)
    requires DistinctKeys(m) && (forall k :: k in keys <==> exists i :: 0 <= i < |m| && m[i].0 == k)
    ensures |m| == |keys|
  {
    if m == [] {
      assert keys == {};
    } else {
      var last := m[|m| - 1].0;
      var front := m[..|m| - 1];
      forall k ensures k in keys - {last} <==> exists i :: 0 <= i < |front| && front[i].0 == k {
        if k in keys && k != last {
          var i :| 0 <= i < |m| && m[i].0 == k;
          assert front[i].0 == k;
        }
        if i :| 0 <= i < |front| && front[i].0 == k {
          assert m[i].0 == k;
        }
      }
      DistinctKeysCount(front, keys - {last});
      assert last in keys;
    }
  }

  lemma IdsHaveAddresses(h: Holder, i: Id)
    requires Agree(h)
    ensures i in h.resources <==> exists a :: i in At(h, a)
    ensures i in h.resources <==> exists k :: 0 <= k < |h.idAddress| && h.idAddress[k].0 == i
  {
    hide At;
    if i in h.resources {
      var a := Range(h.idAddress, i)[0];
      RangeMembers(h.idAddress, i, a);
      AtMeans(h, a, i);
      var k :| 0 <= k < |h.idAddress| && h.idAddress[k] == (i, a);
    }
    if a :| i in At(h, a) {
      AtMeans(h, a, i);
      RangeMembers(h.idAddress, i, a);
    }
    if k :| 0 <= k < |h.idAddress| && h.idAddress[k].0 == i {
      RangeMembers(h.idAddress, i, h.idAddress[k].1);
      assert (i, h.idAddress[k].1) == h.idAddress[k];
    }
  }

  // The keys of the resource map are the ids of the other two tables, each of them under exactly one
  // address.
  lemma TablesMatch(h: Holder)
    requires Agree(h)
    ensures forall i :: i in h.resources <==> exists a :: i in At(h, a)
    ensures forall i, a, b :: i in At(h, a) && i in At(h, b) ==> a == b
    ensures forall a, i :: i in At(h, a) <==> (i, a) in h.idAddress
    ensures |h.idAddress| == |h.resources|
  {
    hide At, Agree;
    forall i ensures i in h.resources <==> exists a :: i in At(h, a) {
      IdsHaveAddresses(h, i);
    }
    forall i, a, b | i in At(h, a) && i in At(h, b) ensures a == b {
      AtMeans(h, b, i);
      InOnePlace(h, a, b, i);
    }
    forall a, i ensures i in At(h, a) <==> (i, a) in h.idAddress {
      AtMeans(h, a, i);
    }
    KeysCount(h);
  }

  lemma KeysCount(h: Holder)
    requires Agree(h)
    ensures |h.idAddress| == |h.resources|
  {
    hide At, Range;
    forall i ensures i in h.resources.Keys <==> exists k :: 0 <= k < |h.idAddress| && h.idAddress[k].0 == i {
      IdsHaveAddresses(h, i);
    }
    DistinctKeysCount(h.idAddress, h.resources.Keys);
  }

  // So it is in every reachable state.
  lemma EveryIdHasOneAddress(events: seq<Event>)
    ensures var h := Runs(Empty(), events);
      && (forall i :: i in h.resources <==> exists a :: i in At(h, a))
      && (forall i, a, b :: i in At(h, a) && i in At(h, b) ==> a == b)
      && (forall a, i :: i in At(h, a) <==> (i, a) in h.idAddress)
      && |h.idAddress| == |h.resources|
  {
    EmptyAgrees();
    RunKeepsAgree(Empty(), events);
    hide At, Runs, Agree;
    TablesMatch(Runs(Empty(), events));
  }

  lemma EmptyAgrees()
    ensures Agree(Empty())
  {
  }

  // ---------- One refresh ----------

  // An element of the reply: an object with an id, and what Create makes of it.
  datatype Item = Malformed | Entry(id: Id, created: Option<Ref>)

  function AddDevice(h: Holder, a: Addr, item: Item): Holder {
    match item
    case Malformed => h
    case Entry(i, created) =>
      if i in h.resources then Update(h, i) else if created.Some? then Add(h, a, i, created.value) else h
  }

  function AddDevices(h: Holder, a: Addr, items: seq<Item>): Holder
    decreases |items|
  {
    if items == [] then h else AddDevices(AddDevice(h, a, items[0]), a, items[1..])
  }

  // The pointers reported as added and as updated.
  function Reported(h: Holder, a: Addr, items: seq<Item>): (seq<Ref>, seq<Ref>)
    decreases |items|
  {
    if items == [] then ([], [])
    else
      var rest := Reported(AddDevice(h, a, items[0]), a, items[1..]);
      match items[0]
      case Malformed => rest
      case Entry(i, created) =>
        if i in h.resources then (rest.0, [h.resources[i]] + rest.1)
        else if created.Some? then ([created.value] + rest.0, rest.1)
        else rest
  }

  // Store, add or update, sweep. A reply that is no array counts as an empty one.
  function Refresh(h: Holder, a: Addr, items: seq<Item>): Holder {
    RemoveStale(AddDevices(Store(h, a), a, items))
  }

  function Removed(h: Holder, a: Addr, items: seq<Item>): seq<Option<Ref>> {
    var added := AddDevices(Store(h, a), a, items);
    Swept(added, InOrder(added.stored))
  }

  function Named(items: seq<Item>): set<Id> {
    set e | e in items && e.Entry? :: e.id
  }

  function Parsed(items: seq<Item>): set<Id> {
    set e | e in items && e.Entry? && e.created.Some? :: e.id
  }

  // The ids that the reply names when they are held already.
  function Confirmed(held: set<Id>, items: seq<Item>): set<Id>
    decreases |items|
  {
    if items == [] then {}
    else (Named([items[0]]) * held) + Confirmed(held + Parsed([items[0]]), items[1..])
  }

  // That is: held before the refresh, or added by an earlier element of the same reply.
  ghost predicate ConfirmedAt(held: set<Id>, items: seq<Item>, i: Id, k: nat)
    requires k < |items|
  {
    items[k].Entry? && items[k].id == i && (i in held || exists j :: 0 <= j < k && items[j].Entry? && items[j].id == i && items[j].created.Some?)
  }

  lemma NamedOne(item: Item)
    ensures Named([item]) == if item.Entry? then {item.id} else {}
    ensures Parsed([item]) == if item.Entry? && item.created.Some? then {item.id} else {}
  {
  }

  lemma NamedNext(items: seq<Item>)
    requires items != []
    ensures Named(items) == Named([items[0]]) + Named(items[1..]) && Parsed(items) == Parsed([items[0]]) + Parsed(items[1..])
  {
  }

  lemma {:induction false} ConfirmedMeans(held: set<Id>, items: seq<Item>, i: Id)
    ensures i in Confirmed(held, items) <==> exists k :: 0 <= k < |items| && ConfirmedAt(held, items, i, k)
    decreases |items|
  {
    if items != [] {
      var first, rest := items[0], items[1..];
      var later := held + Parsed([first]);
      NamedOne(first);
      ConfirmedMeans(later, rest, i);
      if i in Confirmed(later, rest) {
        var k :| 0 <= k < |rest| && ConfirmedAt(later, rest, i, k);
        assert ConfirmedAt(held, items, i, k + 1) by {
          assert items[k + 1] == rest[k];
          if i !in later {
            var j :| 0 <= j < k && rest[j].Entry? && rest[j].id == i && rest[j].created.Some?;
            assert items[j + 1] == rest[j];
          }
        }
      }
      if i in Named([first]) * held {
        assert ConfirmedAt(held, items, i, 0);
      }
      if k :| 0 <= k < |items| && ConfirmedAt(held, items, i, k) {
        if k > 0 {
          assert ConfirmedAt(later, rest, i, k - 1) by {
            assert items[k] == rest[k - 1];
            if i !in later {
              var j :| 0 <= j < k && items[j].Entry? && items[j].id == i && items[j].created.Some?;
              assert items[j] == rest[j - 1];
            }
          }
        }
      }
    }
  }

  lemma {:induction false} HeldAndNamed(held: set<Id>, items: seq<Item>, i: Id)
    ensures i in held ==> (i in Confirmed(held, items) <==> i in Named(items))
    ensures i in Confirmed(held, items) ==> i in Named(items) && (i in held || i in Parsed(items))
    decreases |items|
  {
    hide Named, Parsed;
    if items == [] {
      NoneNamed();
    } else {
      NamedNext(items);
      HeldAndNamed(held + Parsed([items[0]]), items[1..], i);
    }
  }

  lemma AddDeviceMeans(h: Holder, a: Addr, item: Item)
    requires Agree(h)
    ensures var g := AddDevice(h, a, item);
      && Agree(g) && g.resources.Keys == h.resources.Keys + Parsed([item])
      && g.stored == h.stored - (Named([item]) * h.resources.Keys)
      && (forall i :: i in h.resources ==> g.resources[i] == h.resources[i])
      && forall b :: At(g, b) == if b == a then At(h, b) + (Parsed([item]) - h.resources.Keys) else At(h, b)
  {
    NamedOne(item);
    hide Agree, At, Range;
    match item
    case Malformed =>
    case Entry(i, created) =>
      UpdateAgrees(h, i);
      if created.Some? {
        AddAgrees(h, a, i, created.value);
      }
  }

  lemma SetsAdd<T>(s: set<T>, held: set<T>, first: set<T>, rest: set<T>)
    ensures s + (first - held) + (rest - (held + first)) == s + (first + rest - held)
  {
  }

  // The reply adds what it could parse under this address, and confirms what is held.
  lemma {:induction false} AddDevicesMeans(h: Holder, a: Addr, items: seq<Item>)
    requires Agree(h)
    ensures var g := AddDevices(h, a, items);
      && Agree(g) && g.resources.Keys == h.resources.Keys + Parsed(items)
      && g.stored == h.stored - Confirmed(h.resources.Keys, items)
      && (forall i :: i in h.resources ==> g.resources[i] == h.resources[i])
      && forall b :: At(g, b) == if b == a then At(h, b) + (Parsed(items) - h.resources.Keys) else At(h, b)
    decreases |items|
  {
    hide Agree, At, Named, AddDevice, Parsed;
    if items == [] {
      NoneNamed();
    } else {
      var g, held := AddDevice(h, a, items[0]), h.resources.Keys;
      AddDeviceMeans(h, a, items[0]);
      AddDevicesMeans(g, a, items[1..]);
      NamedNext(items);
      SetsAdd(At(h, a), held, Parsed([items[0]]), Parsed(items[1..]));
      assert Confirmed(held, items) == (Named([items[0]]) * held) + Confirmed(g.resources.Keys, items[1..]);
    }
  }

  lemma NoneNamed()
    ensures Named([]) == {} && Parsed([]) == {}
  {
  }

  lemma {:induction false} SweptMeans(h: Holder, ids: seq<Id>)
    requires Agree(h) && forall j, k :: 0 <= j < k < |ids| ==> ids[j] < ids[k]
    ensures |Swept(h, ids)| == |ids| && forall k :: 0 <= k < |ids| ==> Swept(h, ids)[k] == Found(h, ids[k])
    decreases |ids|
  {
    hide Agree, At;
    if ids != [] {
      var g, rest := Remove(h, ids[0]), ids[1..];
      RemoveAgrees(h, ids[0]);
      SweptMeans(g, rest);
      forall k | 0 <= k < |ids| ensures Swept(h, ids)[k] == Found(h, ids[k]) {
        if k > 0 {
          assert rest[k - 1] == ids[k] && ids[0] < ids[k];
        }
      }
    }
  }

  // What is left in the stored set when the sweep begins.
  function Stale(h: Holder, a: Addr, items: seq<Item>): set<Id> {
    h.stored + At(h, a) - Confirmed(h.resources.Keys, items)
  }

  // One refresh of any holder, whatever earlier refreshes left in the stored set: what was held or
  // parsed stays, less the stale ids; they stay in the stored set, and one pointer is reported for
  // each of them, null when it is not held.
  lemma RefreshMeans(h: Holder, a: Addr, items: seq<Item>)
    requires Agree(h)
    ensures var g, stale, held := Refresh(h, a, items), Stale(h, a, items), h.resources.Keys + Parsed(items);
      && Agree(g) && g.resources.Keys == held - stale && g.stored == stale
      && (forall b :: At(g, b) == (if b == a then At(h, b) + (Parsed(items) - h.resources.Keys) else At(h, b)) - stale)
    ensures var removed, ids := Removed(h, a, items), InOrder(Stale(h, a, items));
      && |removed| == |ids|
      && forall k :: 0 <= k < |ids| ==>
           removed[k].Some? == (ids[k] in h.resources.Keys + Parsed(items))
           && (ids[k] in h.resources ==> removed[k] == Some(h.resources[ids[k]]))
  {
    hide Agree, At, Confirmed, Parsed, InOrder;
    StoreAgrees(h, a);
    var stored := Store(h, a);
    AddDevicesMeans(stored, a, items);
    var added := AddDevices(stored, a, items);
    assert added.stored == Stale(h, a, items);
    var ids := InOrder(added.stored);
    SweepAgrees(added, ids);
    OrderHasAll(added.stored);
    SweptMeans(added, ids);
  }

  lemma OrderHasAll(s: set<Id>)
    ensures ElementsOf(InOrder(s)) == s && forall j, k :: 0 <= j < k < |InOrder(s)| ==> InOrder(s)[j] < InOrder(s)[k]
  {
  }

  // What a refresh is for: the ids held under other addresses, and every id of the reply that was
  // already held or could be parsed.
  function Promised(h: Holder, a: Addr, items: seq<Item>): set<Id> {
    (h.resources.Keys - At(h, a)) + (Named(items) * h.resources.Keys) + Parsed(items)
  }

  lemma AtIsHeld(h: Holder, a: Addr)
    requires Agree(h)
    ensures At(h, a) <= h.resources.Keys
  {
    forall i | i in At(h, a) ensures i in h.resources {
      IdsHaveAddresses(h, i);
    }
  }

  lemma SweptSets(held: set<Id>, at: set<Id>, named: set<Id>, parsed: set<Id>, confirmed: set<Id>, stored: set<Id>)
    requires at <= held && parsed <= named && held * confirmed == held * named
    ensures held + parsed - (stored + at - confirmed) == (held - at) + (named * held) + parsed - (stored - confirmed)
  {
    forall i ensures i in held ==> (i in confirmed <==> i in named) {
      assert i in held * confirmed <==> i in held * named;
    }
  }

  lemma ConfirmedSets(held: set<Id>, items: seq<Item>)
    ensures held * Confirmed(held, items) == held * Named(items) && Parsed(items) <= Named(items)
  {
    hide Confirmed;
    forall i ensures i in held * Confirmed(held, items) <==> i in held * Named(items) {
      HeldAndNamed(held, items, i);
    }
  }

  lemma PromisedLessLeftOver(h: Holder, a: Addr, items: seq<Item>)
    requires Agree(h)
    ensures Refresh(h, a, items).resources.Keys == Promised(h, a, items) - (h.stored - Confirmed(h.resources.Keys, items))
  {
    hide Agree, At, Confirmed, Parsed, Named, Refresh, Removed, InOrder;
    RefreshMeans(h, a, items);
    AtIsHeld(h, a);
    ConfirmedSets(h.resources.Keys, items);
    SweptSets(h.resources.Keys, At(h, a), Named(items), Parsed(items), Confirmed(h.resources.Keys, items), h.stored);
  }

  // A refresh does what it is for exactly when every id that an earlier refresh left in the stored
  // set, and that should be held afterwards, is confirmed by the reply.
  lemma RefreshIsRightExactly(h: Holder, a: Addr, items: seq<Item>)
    requires Agree(h)
    ensures Refresh(h, a, items).resources.Keys == Promised(h, a, items)
      <==> h.stored * Promised(h, a, items) <= Confirmed(h.resources.Keys, items)
  {
    hide *;
    PromisedLessLeftOver(h, a, items);
    LessNothing(Promised(h, a, items), h.stored, Confirmed(h.resources.Keys, items));
  }

  lemma LessNothing(s: set<Id>, stored: set<Id>, confirmed: set<Id>)
    ensures s - (stored - confirmed) == s <==> stored * s <= confirmed
  {
  }

  // With nothing left over it always does, and it reports exactly the ids that were held under the
  // address and are not in the reply, in their order.
  lemma RefreshFromEmpty(h: Holder, a: Addr, items: seq<Item>)
    requires Agree(h) && h.stored == {}
    ensures Refresh(h, a, items).resources.Keys == Promised(h, a, items)
    ensures var removed, ids := Removed(h, a, items), InOrder(At(h, a) - Named(items));
      |removed| == |ids| && forall k :: 0 <= k < |ids| ==> Found(h, ids[k]).Some? && removed[k] == Found(h, ids[k])
  {
    hide Agree, At, Confirmed, Parsed, Named, Refresh, Promised, Removed, InOrder;
    RefreshIsRightExactly(h, a, items);
    RefreshMeans(h, a, items);
    AtIsHeld(h, a);
    var stale := At(h, a) - Named(items);
    assert Stale(h, a, items) == stale by {
      ConfirmedSets(h.resources.Keys, items);
      forall i ensures i in h.resources.Keys ==> (i in Confirmed(h.resources.Keys, items) <==> i in Named(items)) {
        HeldAndNamed(h.resources.Keys, items, i);
      }
    }
    forall k | 0 <= k < |InOrder(stale)| ensures InOrder(stale)[k] in h.resources {
      assert InOrder(stale)[k] in InOrder(stale);
    }
  }

  predicate AtMostOnce(items: seq<Item>, i: Id) {
    forall j, k :: 0 <= j < k < |items| ==> !(items[j].Entry? && items[j].id == i && items[k].Entry? && items[k].id == i)
  }

  // The sweep leaves its ids in the stored set. So an id that is missing from one reply and comes
  // back once in the next one is dropped again, although it is there.
  lemma ReappearingIsSwept(h: Holder, a: Addr, first: seq<Item>, second: seq<Item>, i: Id)
    requires Agree(h) && i in At(h, a) && i !in Named(first) && i in Parsed(second) && AtMostOnce(second, i)
    ensures var g := Refresh(h, a, first);
      i in Promised(g, a, second) && i !in Refresh(g, a, second).resources
  {
    hide Agree, At, Refresh, Named, Parsed;
    var g := Refresh(h, a, first);
    RefreshMeans(h, a, first);
    HeldAndNamed(h.resources.Keys, first, i);
    assert i in g.stored && i !in g.resources;
    RefreshMeans(g, a, second);
    ConfirmedMeans(g.resources.Keys, second, i);
    assert i !in Confirmed(g.resources.Keys, second);
  }

  // One pointer is reported as added for each id that came to be held, and every pointer reported as
  // updated or added is held afterwards.
  lemma {:induction false} ReportIsExact(h: Holder, a: Addr, items: seq<Item>)
    ensures var g, report := AddDevices(h, a, items), Reported(h, a, items);
      && |g.resources| == |h.resources| + |report.0|
      && (forall r :: r in report.0 || r in report.1 ==> HoldsRef(g, r))
      && (forall i :: i in h.resources ==> i in g.resources && g.resources[i] == h.resources[i])
    decreases |items|
  {
    if items != [] {
      var h' := AddDevice(h, a, items[0]);
      ReportIsExact(h', a, items[1..]);
      var g, rest := AddDevices(h', a, items[1..]), Reported(h', a, items[1..]);
      if items[0].Entry? {
        var i := items[0].id;
        if i in h.resources {
          assert i in g.resources && g.resources[i] == h.resources[i];
          assert HoldsRef(g, h.resources[i]);
        } else if items[0].created.Some? {
          assert i in g.resources && g.resources[i] == items[0].created.value;
          assert HoldsRef(g, items[0].created.value);
        }
      }
    }
  }

  ghost predicate HoldsRef(h: Holder, r: Ref) {
    exists i :: i in h.resources && h.resources[i] == r
  }
}
