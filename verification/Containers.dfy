/** Small types and std::map facts shared by the other modules. */
module Containers {
  datatype Option<+T> = None | Some(value: T)

  predicate IsLeast(k: int, s: set<int>) {
    k in s && forall j :: j in s ==> k <= j
  }

  // begin()->first of a std::map keyed by instants.
  function First<V>(m: map<int, V>): (k: int)
    requires m != map[]
    ensures IsLeast(k, m.Keys)
  {
    assert m.Keys != {};
    LeastExists(m.Keys);
    var k :| k in m && IsLeast(k, m.Keys);
    k
  }

  // *begin() of a std::set.
  function Least(s: set<int>): (k: int)
    requires s != {}
    ensures IsLeast(k, s)
  {
    LeastExists(s);
    var k :| k in s && IsLeast(k, s);
    k
  }

  lemma FirstIs<V>(m: map<int, V>, k: int)
    requires k in m && forall j :: j in m ==> k <= j
    ensures First(m) == k
  {
  }

  lemma SomeElement<T>(s: set<T>) returns (x: T)
    requires s != {}
    ensures x in s
  {
    x :| x in s;
  }

  lemma {:induction false} LeastExists(s: set<int>)
    requires s != {}
    ensures exists k :: IsLeast(k, s)
  {
    var x := SomeElement(s);
    if s == {x} {
      assert IsLeast(x, s);
    } else {
      var rest := s - {x};
      assert rest != {};
      LeastExists(rest);
      var y :| IsLeast(y, rest);
      assert forall j :: j in s ==> j == x || j in rest;
      var k := if x < y then x else y;
      assert forall j :: j in s ==> k <= j;
      assert IsLeast(k, s);
    }
  }

  function ElementsOf<T>(s: seq<T>): set<T> {
    set x | x in s
  }

  lemma ElementsMean<T>(s: seq<T>)
    ensures forall x :: x in ElementsOf(s) <==> x in s
    ensures s == [] <==> ElementsOf(s) == {}
  {
    if s != [] {
      assert s[0] in ElementsOf(s);
    }
  }

  lemma SmallerWithout<K, V>(m: map<K, V>, k: K)
    requires k in m
    ensures |m - {k}| < |m|
  {
  }

  lemma DisjointMeans<T>(a: set<T>, b: set<T>)
    ensures a * b == {} <==> forall x :: x in a ==> x !in b
  {
    if x :| x in a && x in b {
      assert x in a * b;
    }
  }
}
