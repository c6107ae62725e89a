/** The holder of a node's resources of one kind and the resources themselves
    (node/src/resourceholder.cpp, base/src/resource.cpp), tied to Commit. The resources are shared:
    an edit reaches the staged and the committed table alike. */
module ResourceHolder {
  import opened Containers
  import opened Commit

  class Resource {
    const id: Id
    var version: Stamp
    var last: Option<Stamp>

    constructor (id: Id, now: Stamp)
      ensures this.id == id && View() == Version(id, now, None)
    {
      this.id, version, last := id, now, None;
    }

    ghost function View(): Version
      reads this
    {
      Version(id, version, last)
    }

    method UpdateVersionTime(now: Stamp)
      modifies this
      ensures View() == Stamped(old(View()), now)
    {
      last := Some(version);
      version := now;
    }

    method Commit() returns (changed: bool)
      modifies this
      ensures View() == Clean(old(View())) && changed == Changed(old(View()))
    {
      changed := last != Some(version);
      if changed {
        last := Some(version);
      }
    }
  }

  class ResourceHolder {
    var staging: map<Id, Resource>
    var committed: map<Id, Resource>
    var version: nat

    constructor ()
      ensures staging == map[] && committed == map[] && version == 0
    {
      staging, committed, version := map[], map[], 0;
    }

    // The state as Commit sees it, for the resources of a pool that has all the staged ones.
    ghost function View(pool: set<Resource>): State<Resource>
      reads this, pool
    {
      State(map r | r in pool :: r.View(), staging, committed, version)
    }

    ghost predicate Valid(pool: set<Resource>)
      reads this, pool
    {
      Values(staging) <= pool && Consistent(View(pool))
    }

    method AddResource(r: Resource, ghost pool: set<Resource>) returns (added: bool)
      requires Valid(pool) && r in pool
      modifies this
      ensures View(pool) == Added(old(View(pool)), r) && Valid(pool) && added == (r.id !in old(staging))
      ensures staging == if r.id in old(staging) then old(staging) else old(staging)[r.id := r]
    {
      added := r.id !in staging;
      if added {
        staging := staging[r.id := r];
      }
    }

    method RemoveResource(i: Id, ghost pool: set<Resource>)
      requires Valid(pool)
      modifies this
      ensures View(pool) == old(View(pool)).(staging := old(staging) - {i}) && Valid(pool)
    {
      staging := staging - {i};
    }

    // RemoveResources: the staged resources the caller picks.
    method RemoveResources(pick: Resource -> bool)
      modifies this
      ensures forall i :: i in staging <==> i in old(staging) && !pick(old(staging)[i])
      ensures forall i :: i in staging ==> staging[i] == old(staging)[i]
      ensures committed == old(committed) && version == old(version)
    {
      var left := staging;
      while left != map[]
        invariant forall i :: i in left ==> i in old(staging) && left[i] == old(staging)[i]
        invariant forall i :: i in staging <==> i in left || (i in old(staging) && !pick(old(staging)[i]))
        invariant forall i :: i in staging ==> staging[i] == old(staging)[i]
        invariant committed == old(committed) && version == old(version)
        decreases |left|
      {
        var i := First(left);
        SmallerWithout(left, i);
        if pick(left[i]) {
          staging := staging - {i};
        }
        left := left - {i};
      }
    }

    ghost predicate Staged(r: Resource)
      reads this
    {
      r.id in staging && staging[r.id] == r
    }

    // What a pass does to the pool.
    twostate lemma PassCleans(pool: set<Resource>)
      requires old(Valid(pool)) && staging == old(staging) && version == old(version)
      requires forall r :: r in pool ==> r.View() == if Staged(r) then Clean(old(r.View())) else old(r.View())
      ensures View(pool).objects == Committed(old(View(pool)), 1).0.objects
    {
      var s := old(View(pool));
      forall r | r in pool ensures r in Values(staging) <==> Staged(r) {
        if r in Values(staging) {
          var i :| i in staging && staging[i] == r;
          assert s.objects[s.staging[i]].id == i;
        }
      }
    }

    // One pass over the committed table.
    method CommitVersion(ghost pool: set<Resource>) returns (changed: seq<Resource>)
      requires Valid(pool) && committed == staging
      modifies pool
      ensures changed == Listing(old(View(pool)).objects, staging)
      ensures View(pool).objects == Committed(old(View(pool)), 1).0.objects
    {
      hide Changed, Clean, Committed, Listing;
      changed := [];
      var left := committed;
      ghost var objects := View(pool).objects;
      assert forall i :: i in staging ==> staging[i] in pool && staging[i].id == i by {
        assert forall i :: i in staging ==> staging[i] in objects && objects[staging[i]].id == i;
      }
      while left != map[]
        invariant forall i :: i in left ==> i in staging && left[i] == staging[i]
        invariant Listing(objects, staging) == changed + Listing(objects, left)
        invariant forall r :: r in pool && Staged(r) && r.id !in left ==> r.View() == Clean(old(r.View()))
        invariant forall r :: r in pool && !(Staged(r) && r.id !in left) ==> r.View() == old(r.View())
        decreases |left|
      {
        var i := First(left);
        SmallerWithout(left, i);
        ListingNext(objects, left);
        var r := left[i];
        assert Staged(r);
        var c := r.Commit();
        assert c == Changed(objects[r]);
        MoreListed(changed, if c then [r] else [], Listing(objects, left - {i}));
        if c {
          changed := changed + [r];
        }
        left := left - {i};
      }
      NothingListed(objects);
      PassCleans(pool);
    }

    // ResourceUpdated: an unsigned char.
    method ResourceUpdated()
      requires version < 256
      modifies `version
      ensures version == (old(version) + 1) % 256
    {
      version := if version < 255 then version + 1 else 0;
    }

    // One pass for each version.
    method CommitVersions(versions: nat, ghost pool: set<Resource>) returns (changed: seq<Resource>)
      requires Valid(pool) && committed == staging
      modifies pool
      ensures Valid(pool)
      ensures versions == 0 ==> changed == [] && View(pool) == old(View(pool))
      ensures versions > 0 ==> var t := Committed(old(View(pool)), 1); changed == t.1 && View(pool).objects == t.0.objects
    {
      hide Listing, Committed, Changed;
      ghost var s := View(pool);
      CommittedTwice(s);
      ghost var t := Committed(s, 1);
      PassesAgree(s);
      changed := [];
      for k := 0 to versions
        invariant Valid(pool) && changed == (if k == 0 then [] else t.1)
        invariant View(pool).objects == if k == 0 then s.objects else t.0.objects
      {
        PassesAgree(View(pool));
        SameObjects(View(pool), if k == 0 then s else t.0);
        var more := CommitVersion(pool);
        changed := changed + more;
      }
    }

    method Commit(versions: nat, ghost pool: set<Resource>) returns (changed: seq<Resource>)
      requires Valid(pool)
      modifies this, pool
      ensures Valid(pool) && (View(pool), changed) == Committed(old(View(pool)), versions)
    {
      ghost var s := View(pool);
      committed := staging;
      ghost var s' := View(pool);
      assert s'.objects == s.objects;
      SameObjects(s', s);
      CommittedIs(s, versions);
      hide Listing, Changed, Clean, Committed;
      changed := CommitVersions(versions, pool);
      ghost var objects := View(pool).objects;
      if changed != [] {
        ResourceUpdated();
      }
      assert View(pool).objects == objects;
    }
  }

  lemma MoreListed(a: seq<Resource>, b: seq<Resource>, rest: seq<Resource>)
    ensures a + (b + rest) == a + b + rest && a + [] == a
  {
  }

  lemma NothingListed(objects: map<Resource, Version>)
    ensures Listing(objects, map[]) == []
  {
  }

  lemma CommittedIs(s: State<Resource>, n: nat)
    requires Consistent(s)
    ensures var changed := if n == 0 then [] else Committed(s, 1).1;
      Committed(s, n) == (State(if n == 0 then s.objects else Committed(s, 1).0.objects, s.staging, s.staging,
                                if changed == [] then s.counter else (s.counter + 1) % 256), changed)
  {
    hide Listing;
    assert Committed(s, 0).0.objects == s.objects;
    if n > 0 {
      VersionsDoNotMatter(s, 1, n);
    }
  }

  lemma PassesAgree(s: State<Resource>)
    requires Consistent(s)
    ensures Committed(s, 1).1 == Listing(s.objects, s.staging) && Committed(s, 1).0.staging == s.staging && Consistent(Committed(s, 1).0)
  {
  }

  lemma SameObjects(s: State<Resource>, t: State<Resource>)
    requires Consistent(s) && Consistent(t) && s.objects == t.objects && s.staging == t.staging
    ensures Committed(s, 1).0.objects == Committed(t, 1).0.objects && Committed(s, 1).1 == Committed(t, 1).1
  {
  }
}
