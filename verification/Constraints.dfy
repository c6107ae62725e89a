/** Constraints on transport parameters (base/src/constraint.cpp, base/src/ioresource.cpp). */
module Constraints {
  import opened Containers
  import opened Text
  import opened Json
  import TransportParams

  datatype Constraint = Constraint(min: Option<int>, max: Option<int>, pattern: Option<string>, values: seq<(Kind, string)>)

  const Unconstrained: Constraint := Constraint(None, None, None, [])

  type Table = map<Key, Constraint>

  function Stoi(s: string): Parsed {
    match Stol(s, 10)
    case Number(n) => if IsInt32(n) then Number(n) else OutOfRange
    case other => other
  }

  predicate InValues(c: Constraint, s: string) {
    c.values == [] || exists i :: 0 <= i < |c.values| && c.values[i].1 == s
  }

  predicate InBounds(c: Constraint, n: int) {
    (c.min.Some? ==> n >= c.min.value) && (c.max.Some? ==> n <= c.max.value)
  }

  // "auto" meets everything. Text that is not a number fails a bound; one that overflows throws. The
  // pattern is never looked at.
  function MeetsString(c: Constraint, s: string): Verdict {
    if s == TransportParams.AUTO then Yes
    else if c.min == None && c.max == None then (if InValues(c, s) then Yes else No)
    else
      match Stoi(s)
      case OutOfRange => Throws
      case InvalidArgument => No
      case Number(n) => if InBounds(c, n) && InValues(c, s) then Yes else No
  }

  function MeetsInt(c: Constraint, n: int): Verdict {
    if InBounds(c, n) && InValues(c, DecInt(n)) then Yes else No
  }

  function MeetsBool(c: Constraint, b: bool): Verdict {
    if InBounds(c, if b then 1 else 0) && InValues(c, if b then "true" else "false") then Yes else No
  }

  // The value is logged as a string first, which throws for an array or an object. A real number
  // never gets this far: no parameter may be one.
  function Meets(t: Table, k: Key, j: Json): Verdict {
    if k !in t then Yes else
    match j
    case Null => Yes
    case Str(s) => MeetsString(t[k], s)
    case Bool(b) => MeetsBool(t[k], b)
    case Int(i) => if IsInt32(i) then MeetsInt(t[k], i) else Throws
    case Real(_) => No
    case _ => Throws
  }

  method FindValue(values: seq<(Kind, string)>, s: string) returns (found: bool)
    ensures found <==> exists i :: 0 <= i < |values| && values[i].1 == s
  {
    for i := 0 to |values|
      invariant forall j :: 0 <= j < i ==> values[j].1 != s
    {
      if values[i].1 == s {
        return true;
      }
    }
    found := false;
  }

  // constraint::MeetsConstraint on text: the number is read again for each bound.
  method MeetsText(c: Constraint, s: string) returns (v: Verdict)
    ensures v == MeetsString(c, s)
  {
    hide Stoi;
    if s == TransportParams.AUTO {
      return Yes;
    }
    var meets := true;
    if c.min.Some? {
      match Stoi(s) {
        case OutOfRange => return Throws;
        case InvalidArgument => meets := false;
        case Number(n) => meets := meets && n >= c.min.value;
      }
    }
    if c.max.Some? {
      match Stoi(s) {
        case OutOfRange => return Throws;
        case InvalidArgument => meets := false;
        case Number(n) => meets := meets && n <= c.max.value;
      }
    }
    if c.values != [] {
      var found := FindValue(c.values, s);
      meets := meets && found;
    }
    v := if meets then Yes else No;
  }

  // The same on an int.
  method MeetsNumber(c: Constraint, n: int) returns (v: Verdict)
    ensures v == MeetsInt(c, n)
  {
    var meets := true;
    if c.min.Some? {
      meets := meets && n >= c.min.value;
    }
    if c.max.Some? {
      meets := meets && n <= c.max.value;
    }
    if c.values != [] {
      var found := FindValue(c.values, DecInt(n));
      meets := meets && found;
    }
    v := if meets then Yes else No;
  }

  // std::map and JsonCpp both visit the parameters in the order of their names.
  const KeyOrder: seq<Key> := [
    DESTINATION_IP, DESTINATION_PORT, FEC_1DDESTINATION_PORT, FEC_1DSOURCE_PORT, FEC_2DDESTINATION_PORT, FEC_2DSOURCE_PORT,
    FEC_BLOCK_HEIGHT, FEC_BLOCK_WIDTH, FEC_DESTINATION_IP, FEC_ENABLED, FEC_MODE, FEC_TYPE,
    RTCP_DESTINATION_IP, RTCP_DESTINATION_PORT, RTCP_ENABLED, RTCP_SOURCE_PORT, RTP_ENABLED, SOURCE_IP, SOURCE_PORT]

  // The first parameter that does not meet its constraint decides.
  function CheckKeys(t: Table, o: Object, keys: seq<Key>): Verdict {
    if keys == [] then Yes
    else if keys[0] in o && Meets(t, keys[0], o[keys[0]]) != Yes then Meets(t, keys[0], o[keys[0]])
    else CheckKeys(t, o, keys[1..])
  }

  function CheckStreams(ts: seq<Table>, params: seq<Object>): Verdict
    requires |ts| == |params|
  {
    if params == [] then Yes
    else if CheckKeys(ts[0], params[0], KeyOrder) != Yes then CheckKeys(ts[0], params[0], KeyOrder)
    else CheckStreams(ts[1..], params[1..])
  }

  function Check(ts: seq<Table>, params: seq<Object>): Verdict {
    if params == [] then Yes else if |params| != |ts| then No else CheckStreams(ts, params)
  }

  method CheckConstraints(ts: seq<Table>, params: seq<Object>) returns (v: Verdict)
    ensures v == Check(ts, params)
  {
    if params == [] {
      return Yes;
    }
    if |params| != |ts| {
      return No;
    }
    v := Yes;
    var i := 0;
    while i < |params|
      invariant i <= |params|
      invariant CheckStreams(ts, params) == CheckStreams(ts[i..], params[i..])
    {
      var k := 0;
      assert ts[i..][0] == ts[i] && params[i..][0] == params[i];
      while k < |KeyOrder|
        invariant k <= |KeyOrder|
        invariant CheckKeys(ts[i], params[i], KeyOrder) == CheckKeys(ts[i], params[i], KeyOrder[k..])
      {
        var key := KeyOrder[k];
        assert KeyOrder[k..][0] == key && KeyOrder[k..][1..] == KeyOrder[k + 1..];
        if key in params[i] {
          v := Meets(ts[i], key, params[i][key]);
          if v != Yes {
            return;
          }
        }
        k := k + 1;
      }
      assert KeyOrder[k..] == [] && ts[i..][1..] == ts[i + 1..] && params[i..][1..] == params[i + 1..];
      i := i + 1;
    }
    v := Yes;
  }

  predicate AllMeet(ts: seq<Table>, params: seq<Object>) {
    params == [] || (|ts| == |params| &&
      forall i, k :: 0 <= i < |params| && k in params[i] ==> Meets(ts[i], k, params[i][k]) == Yes)
  }

  // Neither bound is passed.
  predicate Within(c: Constraint, n: int) {
    (match c.min case None => true case Some(least) => least <= n) && (match c.max case None => true case Some(most) => n <= most)
  }

  predicate Listed(c: Constraint, text: string) {
    |c.values| > 0 ==> exists v :: v in c.values && v.1 == text
  }

  // A parameter meets its constraint exactly when it is null or "auto", or its number, if there are
  // bounds, is a number within them and its text, if there is a list, is listed.
  lemma MeetsExactly(t: Table, k: Key, j: Json)
    requires k in t
    ensures Meets(t, k, j) == Yes <==>
      match j
      case Null => true
      case Bool(b) => Within(t[k], if b then 1 else 0) && Listed(t[k], if b then "true" else "false")
      case Int(n) => -0x8000_0000 <= n < 0x8000_0000 && Within(t[k], n) && Listed(t[k], DecInt(n))
      case Str(s) => s == "auto" ||
        (((t[k].min == None && t[k].max == None) || (Stoi(s).Number? && Within(t[k], Stoi(s).n))) && Listed(t[k], s))
      case _ => false
  {
    hide Stoi, DecInt;
    var c := t[k];
    forall text ensures InValues(c, text) <==> Listed(c, text) {
      if i :| 0 <= i < |c.values| && c.values[i].1 == text {
        assert c.values[i] in c.values;
      }
    }
    forall n ensures InBounds(c, n) <==> Within(c, n) {
    }
  }

  // The check throws exactly for a number that does not fit an int, be it text that has bounds to keep,
  // and for an array or an object.
  lemma MeetsThrowsExactly(t: Table, k: Key, j: Json)
    requires k in t
    ensures Meets(t, k, j) == Throws <==>
      match j
      case Int(n) => n < -0x8000_0000 || n >= 0x8000_0000
      case Str(s) => s != "auto" && (t[k].min.Some? || t[k].max.Some?) && Stoi(s).OutOfRange?
      case Arr(_) => true
      case Obj(_) => true
      case _ => false
  {
    hide Stoi, DecInt, InValues, InBounds;
  }

  lemma {:induction false} FirstKeyDecides(t: Table, o: Object, keys: seq<Key>) returns (n: nat)
    requires CheckKeys(t, o, keys) != Yes
    ensures n < |keys| && keys[n] in o && CheckKeys(t, o, keys) == Meets(t, keys[n], o[keys[n]])
    ensures forall h :: 0 <= h < n && keys[h] in o ==> Meets(t, keys[h], o[keys[h]]) == Yes
  {
    hide Meets;
    if keys[0] in o && Meets(t, keys[0], o[keys[0]]) != Yes {
      n := 0;
    } else {
      n := FirstKeyDecides(t, o, keys[1..]);
      n := n + 1;
      assert forall h :: 0 < h < n ==> keys[h] == keys[1..][h - 1];
    }
  }

  // Parameter n of stream i does not meet its constraint, and every one before it does.
  predicate FirstFailure(ts: seq<Table>, params: seq<Object>, i: nat, n: nat) {
    && i < |params| == |ts| && n < |KeyOrder| && KeyOrder[n] in params[i]
    && Meets(ts[i], KeyOrder[n], params[i][KeyOrder[n]]) != Yes
    && (forall h :: 0 <= h < n && KeyOrder[h] in params[i] ==> Meets(ts[i], KeyOrder[h], params[i][KeyOrder[h]]) == Yes)
    && forall j, k :: 0 <= j < i && k in KeyOrder && k in params[j] ==> Meets(ts[j], k, params[j][k]) == Yes
  }

  // The first parameter that does not meet its constraint, by stream and then by name, decides
  // between no and an exception.
  lemma {:induction false} FirstFailureDecides(ts: seq<Table>, params: seq<Object>) returns (i: nat, n: nat)
    requires |ts| == |params| && CheckStreams(ts, params) != Yes
    ensures FirstFailure(ts, params, i, n) && CheckStreams(ts, params) == Meets(ts[i], KeyOrder[n], params[i][KeyOrder[n]])
    decreases |params|
  {
    hide Meets, KeyOrder;
    if CheckKeys(ts[0], params[0], KeyOrder) != Yes {
      i := 0;
      n := FirstKeyDecides(ts[0], params[0], KeyOrder);
    } else {
      CheckKeysMeans(ts[0], params[0], KeyOrder);
      i, n := FirstFailureDecides(ts[1..], params[1..]);
      i := i + 1;
      assert ts[i] == ts[1..][i - 1] && params[i] == params[1..][i - 1];
      assert forall j :: 0 < j < i ==> ts[j] == ts[1..][j - 1] && params[j] == params[1..][j - 1];
    }
  }

  lemma {:induction false} CheckKeysMeans(t: Table, o: Object, keys: seq<Key>)
    ensures CheckKeys(t, o, keys) == Yes <==> forall k :: k in keys && k in o ==> Meets(t, k, o[k]) == Yes
  {
    if keys != [] {
      CheckKeysMeans(t, o, keys[1..]);
      assert forall k :: k in keys <==> k == keys[0] || k in keys[1..];
    }
  }

  lemma EveryTypedKeyIsVisited(k: Key)
    requires TransportParams.SenderTypes(k) != {}
    ensures k in KeyOrder
  {
  }

  lemma {:induction false} CheckStreamsMeans(ts: seq<Table>, params: seq<Object>)
    requires |ts| == |params| && forall i :: 0 <= i < |params| ==> TransportParams.WellFormed(params[i])
    ensures CheckStreams(ts, params) == Yes <==>
      forall i, k :: 0 <= i < |params| && k in params[i] ==> Meets(ts[i], k, params[i][k]) == Yes
  {
    hide TransportParams.SenderTypes, Meets, KeyOrder;
    if params != [] {
      CheckKeysMeans(ts[0], params[0], KeyOrder);
      forall k | k in params[0] ensures k in KeyOrder {
        EveryTypedKeyIsVisited(k);
      }
      CheckStreamsMeans(ts[1..], params[1..]);
      if CheckStreams(ts, params) == Yes {
        forall i, k | 0 <= i < |params| && k in params[i] ensures Meets(ts[i], k, params[i][k]) == Yes {
          if i > 0 {
            assert params[i] == params[1..][i - 1] && ts[i] == ts[1..][i - 1];
          }
        }
      }
    }
  }

  // The check says yes exactly when every parameter of every stream meets its constraint.
  lemma CheckMeans(ts: seq<Table>, params: seq<Object>)
    requires forall i :: 0 <= i < |params| ==> TransportParams.WellFormed(params[i])
    ensures Check(ts, params) == Yes <==> AllMeet(ts, params)
  {
    if |ts| == |params| {
      CheckStreamsMeans(ts, params);
    }
  }

  // ---------- Registering ----------

  // One empty constraint for each parameter of a stream.
  function Create(params: seq<Object>): seq<Table> {
    seq(|params|, i requires 0 <= i < |params| => map k | k in params[i] :: Unconstrained)
  }

  datatype Change =
    | Add(min: Option<int>, max: Option<int>, pattern: Option<string>, values: seq<(Kind, string)>)
    | Clear

  function Changed(c: Constraint, change: Change): Constraint {
    match change
    case Clear => Unconstrained
    case Add(min, max, pattern, values) =>
      Constraint(if min.Some? then min else c.min, if max.Some? then max else c.max,
                 if pattern.Some? then pattern else c.pattern, if values != [] then values else c.values)
  }

  // AddConstraint and ClearConstraint: on one stream, or on all of them up to the first that lacks
  // the parameter.
  function Apply(ts: seq<Table>, k: Key, change: Change, stream: Option<nat>): (r: seq<Table>)
    ensures |r| == |ts|
  {
    if stream.Some? then
      if stream.value < |ts| && k in ts[stream.value]
      then ts[stream.value := ts[stream.value][k := Changed(ts[stream.value][k], change)]] else ts
    else if ts == [] || k !in ts[0] then ts
    else [ts[0][k := Changed(ts[0][k], change)]] + Apply(ts[1..], k, change, None)
  }

  // The stream's constraint on k is changed: the stream is named, or none is and it and all before it
  // have the parameter.
  predicate IsReached(ts: seq<Table>, k: Key, stream: Option<nat>, i: nat)
    requires i < |ts|
  {
    match stream
    case Some(j) => i == j && k in ts[i]
    case None => forall h :: 0 <= h <= i ==> k in ts[h]
  }

  // c is what a change makes of d: nothing at all, or what is given in place of what was there.
  predicate IsChanged(c: Constraint, d: Constraint, change: Change) {
    match change
    case Clear => c.min == None && c.max == None && c.pattern == None && c.values == []
    case Add(min, max, pattern, values) =>
      && (min.Some? ==> c.min == min) && (min == None ==> c.min == d.min)
      && (max.Some? ==> c.max == max) && (max == None ==> c.max == d.max)
      && (pattern.Some? ==> c.pattern == pattern) && (pattern == None ==> c.pattern == d.pattern)
      && (values != [] ==> c.values == values) && (values == [] ==> c.values == d.values)
  }

  lemma ChangedMeans(d: Constraint, change: Change)
    ensures IsChanged(Changed(d, change), d, change)
  {
  }

  // A registration changes the constraint on k of the streams it reaches, and nothing else.
  lemma {:induction false} ApplyMeans(ts: seq<Table>, k: Key, change: Change, stream: Option<nat>)
    ensures
      var r := Apply(ts, k, change, stream);
      && |r| == |ts|
      && forall i :: 0 <= i < |ts| ==>
           if IsReached(ts, k, stream, i)
           then k in r[i] && r[i] == ts[i][k := r[i][k]] && IsChanged(r[i][k], ts[i][k], change)
           else r[i] == ts[i]
    decreases |ts|
  {
    hide IsChanged, Changed;
    var r := Apply(ts, k, change, stream);
    forall i | 0 <= i < |ts| && k in ts[i] ensures IsChanged(Changed(ts[i][k], change), ts[i][k], change) {
      ChangedMeans(ts[i][k], change);
    }
    if stream == None && ts != [] && k in ts[0] {
      ApplyMeans(ts[1..], k, change, None);
      forall i | 0 < i < |ts| ensures IsReached(ts, k, None, i) <==> IsReached(ts[1..], k, None, i - 1) {
        ReachedLater(ts, k, i);
      }
      assert forall i :: 0 < i < |ts| ==> r[i] == Apply(ts[1..], k, change, None)[i - 1];
    }
  }

  lemma ReachedLater(ts: seq<Table>, k: Key, i: nat)
    requires 0 < i < |ts| && k in ts[0]
    ensures IsReached(ts, k, None, i) <==> IsReached(ts[1..], k, None, i - 1)
  {
    if IsReached(ts[1..], k, None, i - 1) {
      forall h | 0 <= h <= i ensures k in ts[h] {
        assert h == 0 || ts[h] == ts[1..][h - 1];
      }
    }
    if IsReached(ts, k, None, i) {
      assert forall h :: 0 <= h <= i - 1 ==> ts[1..][h] == ts[h + 1];
    }
  }
}
