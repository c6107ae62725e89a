/** Version stamps and the committing of a holder's resources (base/src/resource.cpp,
    node/src/resourceholder.cpp): a staged and a committed table of shared resources, and the list of
    those that changed. Clock readings are parameters; two stamps are equal exactly when the readings
    are, as TaiTime.PrintingIsInjective shows. */
module Commit {
  import opened Containers

  // An id, by its place in the order of strings; a reading of the clock.
  type Id = int
  type Stamp = int

  // A resource that was never committed or stamped again has no earlier version.
  datatype Version = Version(id: Id, version: Stamp, last: Option<Stamp>)

  predicate Changed(v: Version) {
    v.last != Some(v.version)
  }

  // UpdateVersionTime.
  function Stamped(v: Version, now: Stamp): Version {
    Version(v.id, now, Some(v.version))
  }

  function Clean(v: Version): Version {
    v.(last := Some(v.version))
  }

  // The resources, by reference, and the two tables of references.
  datatype State<!Ref(==)> = State(objects: map<Ref, Version>, staging: map<Id, Ref>, committed: map<Id, Ref>, counter: nat)

  // Every staged resource stands under its own id.
  predicate Consistent<Ref>(s: State<Ref>) {
    s.counter < 256 && forall i :: i in s.staging ==> s.staging[i] in s.objects && s.objects[s.staging[i]].id == i
  }

  // What a table refers to.
  function Values<V>(m: map<Id, V>): set<V> {
    set i | i in m :: m[i]
  }

  // The changed resources of a table in its order.
  function Listing<Ref>(objects: map<Ref, Version>, left: map<Id, Ref>): seq<Ref>
    requires forall i :: i in left ==> left[i] in objects
    decreases |left|
  {
    if left == map[] then []
    else
      var i := First(left);
      SmallerWithout(left, i);
      (if Changed(objects[left[i]]) then [left[i]] else []) + Listing(objects, left - {i})
  }

  lemma ListingNext<Ref>(objects: map<Ref, Version>, left: map<Id, Ref>)
    requires left != map[] && forall i :: i in left ==> left[i] in objects
    ensures var i := First(left);
      Listing(objects, left) == (if Changed(objects[left[i]]) then [left[i]] else []) + Listing(objects, left - {i})
  {
  }

  // A commit for n versions of the API and the list it returns.
  function Committed<Ref>(s: State<Ref>, n: nat): (State<Ref>, seq<Ref>)
    requires Consistent(s)
  {
    var changed := if n == 0 then [] else Listing(s.objects, s.staging);
    (State(map p | p in s.objects :: if n > 0 && p in Values(s.staging) then Clean(s.objects[p]) else s.objects[p],
           s.staging, s.staging,
           if changed == [] then s.counter else (s.counter + 1) % 256),
     changed)
  }

  predicate Distinct<Ref(==)>(ps: seq<Ref>) {
    forall i, j :: 0 <= i < j < |ps| ==> ps[i] != ps[j]
  }

  lemma ValuesWithout<V>(m: map<Id, V>, i: Id)
    requires i in m
    ensures Values(m) == Values(m - {i}) + {m[i]}
  {
    var rest := m - {i};
    assert forall j :: j in m <==> j == i || j in rest;
    assert forall j :: j in rest ==> m[j] == rest[j];
  }

  lemma {:induction false} ListingMeans<Ref>(objects: map<Ref, Version>, left: map<Id, Ref>)
    requires forall i :: i in left ==> left[i] in objects && objects[left[i]].id == i
    ensures forall p :: p in Listing(objects, left) <==> p in Values(left) && Changed(objects[p])
    ensures Listing(objects, left) == [] <==> forall p :: p in Values(left) ==> !Changed(objects[p])
    ensures Distinct(Listing(objects, left))
    decreases |left|
  {
    if left != map[] {
      var i := First(left);
      var rest := left - {i};
      SmallerWithout(left, i);
      ListingMeans(objects, rest);
      assert left[i] !in Values(rest) by {
        assert forall j :: j in rest ==> objects[rest[j]].id == j;
      }
      ValuesWithout(left, i);
      hide Changed, Listing;
    }
  }

  // ---------- Runs ----------

  datatype Event<Ref> =
    | Create(p: Ref, i: Id, now: Stamp)
    | Edit(p: Ref, now: Stamp)
    | Add(p: Ref)
    | Remove(i: Id)
    | CommitAll(versions: nat)

  // A reference is created once; only what exists is edited or added.
  predicate Enabled<Ref(==)>(s: State<Ref>, e: Event<Ref>) {
    match e
    case Create(p, _, _) => p !in s.objects
    case Edit(p, _) => p in s.objects
    case Add(p) => p in s.objects
    case _ => true
  }

  function Added<Ref>(s: State<Ref>, p: Ref): State<Ref>
    requires p in s.objects
  {
    var i := s.objects[p].id;
    if i in s.staging then s else s.(staging := s.staging[i := p])
  }

  function Apply<Ref>(s: State<Ref>, e: Event<Ref>): State<Ref>
    requires Consistent(s) && Enabled(s, e)
  {
    match e
    case Create(p, i, now) => s.(objects := s.objects[p := Version(i, now, None)])
    case Edit(p, now) => s.(objects := s.objects[p := Stamped(s.objects[p], now)])
    case Add(p) => Added(s, p)
    case Remove(i) => s.(staging := s.staging - {i})
    case CommitAll(n) => Committed(s, n).0
  }

  // The resources created or stamped since they were last committed, from the events alone.
  function Touched<Ref>(s: State<Ref>, touched: set<Ref>, e: Event<Ref>): set<Ref> {
    match e
    case Create(p, _, _) => touched + {p}
    case Edit(p, _) => touched + {p}
    case CommitAll(n) => if n > 0 then touched - Values(s.staging) else touched
    case _ => touched
  }

  // No stamp is later than the clock, and a resource counts as changed exactly when it was touched.
  predicate Inv<Ref>(s: State<Ref>, touched: set<Ref>, clock: Stamp) {
    && Consistent(s)
    && forall p :: p in s.objects ==>
         s.objects[p].version <= clock && (Changed(s.objects[p]) <==> p in touched)
  }

  // Every stamp is taken later than all before.
  predicate Ticks<Ref>(e: Event<Ref>, clock: Stamp) {
    match e
    case Create(_, _, now) => clock < now
    case Edit(_, now) => clock < now
    case _ => true
  }

  function Clock<Ref>(e: Event<Ref>, clock: Stamp): Stamp {
    match e
    case Create(_, _, now) => now
    case Edit(_, now) => now
    case _ => clock
  }

  lemma StepKeepsInv<Ref>(s: State<Ref>, touched: set<Ref>, clock: Stamp, e: Event<Ref>)
    requires Inv(s, touched, clock) && Enabled(s, e) && Ticks(e, clock)
    ensures Inv(Apply(s, e), Touched(s, touched, e), Clock(e, clock))
  {
  }

  predicate Runs<Ref(==)>(s: State<Ref>, clock: Stamp, events: seq<Event<Ref>>)
    requires Consistent(s)
    decreases |events|
  {
    events == [] ||
    (Enabled(s, events[0]) && Ticks(events[0], clock)
     && Consistent(Apply(s, events[0])) && Runs(Apply(s, events[0]), Clock(events[0], clock), events[1..]))
  }

  function After<Ref>(s: State<Ref>, touched: set<Ref>, clock: Stamp, events: seq<Event<Ref>>): (State<Ref>, set<Ref>, Stamp)
    requires Consistent(s) && Runs(s, clock, events)
    decreases |events|
  {
    if events == [] then (s, touched, clock)
    else After(Apply(s, events[0]), Touched(s, touched, events[0]), Clock(events[0], clock), events[1..])
  }

  lemma {:induction false} RunKeepsInv<Ref>(s: State<Ref>, touched: set<Ref>, clock: Stamp, events: seq<Event<Ref>>)
    requires Inv(s, touched, clock) && Runs(s, clock, events)
    ensures var (t, touched', clock') := After(s, touched, clock, events); Inv(t, touched', clock')
    decreases |events|
  {
    hide Inv, Apply, Touched;
    if events != [] {
      InvIsValid(s, touched, clock);
      StepKeepsInv(s, touched, clock, events[0]);
      RunKeepsInv(Apply(s, events[0]), Touched(s, touched, events[0]), Clock(events[0], clock), events[1..]);
    }
  }

  lemma InvIsValid<Ref>(s: State<Ref>, touched: set<Ref>, clock: Stamp)
    requires Inv(s, touched, clock)
    ensures Consistent(s)
  {
  }

  function Empty<Ref>(): State<Ref> {
    State(map[], map[], map[], 0)
  }

  lemma ListingIsTouched<Ref>(s: State<Ref>, touched: set<Ref>, clock: Stamp)
    requires Inv(s, touched, clock)
    ensures forall p :: p in Listing(s.objects, s.staging) <==> p in Values(s.staging) && p in touched
    ensures Distinct(Listing(s.objects, s.staging))
    ensures Listing(s.objects, s.staging) == [] <==> Values(s.staging) * touched == {}
  {
    ListingMeans(s.objects, s.staging);
    var changed := Listing(s.objects, s.staging);
    forall p ensures p in changed <==> p in Values(s.staging) && p in touched {
      StagedIsKnown(s, p);
    }
    if changed != [] {
      var p :| p in Values(s.staging) && Changed(s.objects[p]);
      StagedIsKnown(s, p);
      assert p in Values(s.staging) * touched;
    } else {
      forall p ensures p !in Values(s.staging) * touched {
        StagedIsKnown(s, p);
      }
    }
  }

  lemma StagedIsKnown<Ref>(s: State<Ref>, p: Ref)
    requires Consistent(s)
    ensures p in Values(s.staging) ==> p in s.objects
  {
  }

  // With a clock that always advances: after any run, a commit for any positive number of versions
  // lists exactly the staged resources created or stamped since their last commit, each once; the
  // committed table becomes the staged one, and the counter moves exactly when the list is not empty.
  lemma CommitListsTouched<Ref>(events: seq<Event<Ref>>, clock: Stamp, n: nat)
    requires Runs(Empty<Ref>(), clock, events) && n > 0
    ensures var (s, touched, _) := After(Empty<Ref>(), {}, clock, events);
      Consistent(s) &&
      var (t, changed) := Committed(s, n);
      && (forall p :: p in changed <==> p in Values(s.staging) && p in touched) && Distinct(changed)
      && t.committed == t.staging == s.staging
      && t.counter == (if Values(s.staging) * touched == {} then s.counter else if s.counter == 255 then 0 else s.counter + 1)
  {
    RunKeepsInv(Empty<Ref>(), {}, clock, events);
    var (s, touched, now) := After(Empty<Ref>(), {}, clock, events);
    ListingIsTouched(s, touched, now);
    hide Runs, After, Listing, Changed, Distinct;
    assert s.counter == 255 || (s.counter + 1) % 256 == s.counter + 1;
  }

  // The number of versions makes no difference.
  lemma VersionsDoNotMatter<Ref>(s: State<Ref>, m: nat, n: nat)
    requires Consistent(s) && m > 0 && n > 0
    ensures Committed(s, m) == Committed(s, n)
  {
  }

  // A second pass finds nothing and changes nothing.
  lemma CommittedTwice<Ref>(s: State<Ref>)
    requires Consistent(s)
    ensures var t := Committed(s, 1).0; Consistent(t) && Committed(t, 1) == (t, [])
  {
    var t := Committed(s, 1).0;
    ListingMeans(t.objects, t.staging);
    hide Listing;
    forall p | p in Values(t.staging) ensures !Changed(t.objects[p]) {
      StagedIsKnown(s, p);
    }
    assert Committed(t, 1).0.objects == t.objects;
  }

  // ---------- What the clock is for ----------

  function StampedAll(v: Version, stamps: seq<Stamp>): Version {
    if stamps == [] then v else Stamped(StampedAll(v, stamps[..|stamps| - 1]), stamps[|stamps| - 1])
  }

  // Additions in a row.
  function AddedAll<Ref>(s: State<Ref>, ps: seq<Ref>): (t: State<Ref>)
    requires forall p :: p in ps ==> p in s.objects
    ensures t.objects == s.objects
    decreases |ps|
  {
    if ps == [] then s else Added(AddedAll(s, ps[..|ps| - 1]), ps[|ps| - 1])
  }

  predicate IsFirst<Ref>(s: State<Ref>, ps: seq<Ref>, i: Id, k: int)
    requires forall p :: p in ps ==> p in s.objects
  {
    0 <= k < |ps| && s.objects[ps[k]].id == i && forall j :: 0 <= j < k ==> s.objects[ps[j]].id != i
  }

  // The first object added under an id stays: what is staged by any number of additions is, for each
  // id, the object that was there, or else the first one added.
  lemma {:induction false} FirstAddedStays<Ref>(s: State<Ref>, ps: seq<Ref>, i: Id)
    requires forall p :: p in ps ==> p in s.objects
    ensures var t := AddedAll(s, ps);
      && t == s.(staging := t.staging)
      && (i in t.staging <==> i in s.staging || exists k :: 0 <= k < |ps| && s.objects[ps[k]].id == i)
      && (i in s.staging ==> t.staging[i] == s.staging[i])
      && forall k :: IsFirst(s, ps, i, k) && i !in s.staging ==> t.staging[i] == ps[k]
    decreases |ps|
  {
    if ps != [] {
      var last := |ps| - 1;
      FirstAddedStays(s, ps[..last], i);
    }
  }

  // Whatever the clock does: a committed resource that is stamped any number of times is listed by
  // the next commit exactly when its last stamp differs from the one before it.
  lemma ChangeIsSeenExactly(v: Version, stamps: seq<Stamp>)
    requires !Changed(v) && stamps != []
    ensures var n := |stamps|;
      Changed(StampedAll(v, stamps)) <==> stamps[n - 1] != if n == 1 then v.version else stamps[n - 2]
  {
  }
}
