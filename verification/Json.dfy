/** JSON values as JsonCpp sees them, and the checks and getters of base/src/utils.cpp. */
module Json {
  import opened Containers
  import opened Text

  datatype Json = Null | Bool(b: bool) | Int(i: int) | Real(r: real) | Str(s: string) | Arr(a: seq<Json>) | Obj(o: Object)
  type Object = map<Key, Json>

  // A member name. The names the sources give a meaning to are listed; any other one is Other.
  datatype Key =
    | SOURCE_IP | SOURCE_PORT | DESTINATION_PORT | DESTINATION_IP | MULTICAST_IP | INTERFACE_IP | RTP_ENABLED
    | FEC_ENABLED | FEC_DESTINATION_IP | FEC_MODE | FEC_1DDESTINATION_PORT | FEC_2DDESTINATION_PORT | FEC_TYPE
    | FEC_BLOCK_WIDTH | FEC_BLOCK_HEIGHT | FEC_1DSOURCE_PORT | FEC_2DSOURCE_PORT
    | RTCP_ENABLED | RTCP_DESTINATION_IP | RTCP_DESTINATION_PORT | RTCP_SOURCE_PORT
    | MASTER_ENABLE | RECEIVER_ID | TRANSPORT_PARAMS | ACTIVATION
    | MODE | REQUESTED_TIME | ACTIVATED_TIME
    | Other(name: string)

  datatype Kind = STRING | INTEGER | NUMBER | OBJECT | ARRAY | BOOLEAN | NULL
  // A table of the kinds each name may have; a name that is not in the table has none.
  type Types = Key -> set<Kind>

  // Yes, no, or an exception that escapes.
  datatype Verdict = Yes | No | Throws

  function KindOf(j: Json): Kind {
    match j
    case Null => NULL
    case Bool(_) => BOOLEAN
    case Int(_) => INTEGER
    case Real(_) => NUMBER
    case Str(_) => STRING
    case Arr(_) => ARRAY
    case Obj(_) => OBJECT
  }

  // What iterating over a value visits: members, array elements under their index, or nothing.
  function Visited(j: Json): Object {
    match j
    case Obj(o) => o
    case Arr(a) => Elements(a)
    case _ => map[]
  }

  function Elements(a: seq<Json>): Object {
    if a == [] then map[] else Elements(a[..|a| - 1])[Other(Dec(|a| - 1)) := a[|a| - 1]]
  }

  // isMember throws on anything but an object or null.
  predicate HasMembers(j: Json) {
    j.Obj? || j.Null?
  }

  function Members(j: Json): Object {
    if j.Obj? then j.o else map[]
  }

  predicate Allowed(o: Object, types: Types) {
    forall k :: k in o ==> KindOf(o[k]) in types(k)
  }

  // Every visited key is in the table and has one of its types.
  method CheckJsonAllowed(j: Json, types: Types) returns (ok: bool)
    ensures ok == Allowed(Visited(j), types)
  {
    var o := Visited(j);
    var keys := o.Keys;
    while keys != {}
      invariant keys <= o.Keys
      invariant forall k :: k in o.Keys - keys ==> KindOf(o[k]) in types(k)
      decreases keys
    {
      SomeElementExists(keys);
      var k: Key :| k in keys;
      if KindOf(o[k]) !in types(k) {
        return false;
      }
      keys := keys - {k};
    }
    ok := true;
  }

  // None of the names is a member.
  method CheckJsonNotAllowed(o: Object, names: set<Key>) returns (ok: bool)
    ensures ok == (o.Keys * names == {})
  {
    var keys := names;
    while keys != {}
      invariant keys <= names && forall k :: k in names - keys ==> k !in o
      decreases keys
    {
      SomeElementExists(keys);
      var k: Key :| k in keys;
      if k in o {
        assert k in o.Keys * names;
        return false;
      }
      keys := keys - {k};
    }
    ok := true;
  }

  // Overwrites the members that the object already has; adds none.
  function Patched(o: Object, patch: Object): (r: Object)
    ensures r.Keys == o.Keys
  {
    map k | k in o :: if k in patch then patch[k] else o[k]
  }

  method PatchJson(o: Object, patch: Json) returns (r: Object)
    ensures r == Patched(o, Visited(patch)) && r.Keys == o.Keys
    ensures forall k :: k in o ==> r[k] == if k in Visited(patch) then Visited(patch)[k] else o[k]
  {
    r := o;
    var p := Visited(patch);
    var keys := p.Keys;
    while keys != {}
      invariant keys <= p.Keys && r.Keys == o.Keys
      invariant forall k :: k in o ==> r[k] == if k in p && k !in keys then p[k] else o[k]
      decreases keys
    {
      SomeElementExists(keys);
      var k: Key :| k in keys;
      if k in r {
        r := r[k := p[k]];
      }
      keys := keys - {k};
    }
  }

  lemma SomeElementExists<T>(s: set<T>)
    requires s != {}
    ensures exists x :: x in s
  {
  }

  predicate IsInt32(i: int) {
    -0x8000_0000 <= i < 0x8000_0000
  }

  // asInt, asUInt, asString and asBool; None where they throw. A real number never gets as far as
  // these: no type table that guards them lists NUMBER.
  function AsInt(j: Json): Option<int> {
    match j
    case Int(i) => if IsInt32(i) then Some(i) else None
    case Null => Some(0)
    case Bool(b) => Some(if b then 1 else 0)
    case _ => None
  }

  function AsUInt(j: Json): Option<nat> {
    match j
    case Int(i) => if 0 <= i < 0x1_0000_0000 then Some(i) else None
    case Null => Some(0)
    case Bool(b) => Some(if b then 1 else 0)
    case _ => None
  }

  function AsString(j: Json): Option<string> {
    match j
    case Str(s) => Some(s)
    case Null => Some("")
    case Bool(b) => Some(if b then "true" else "false")
    case Int(i) => Some(DecInt(i))
    case _ => None
  }

  function At(o: Object, k: Key): Json {
    if k in o then o[k] else Null
  }

  // A member that is there and convertible. Null is convertible to a string and to an integer.
  function GetInt(o: Object, k: Key): Option<int> {
    if k in o then AsInt(o[k]) else None
  }

  function GetString(o: Object, k: Key): Option<string> {
    if k in o then AsString(o[k]) else None
  }

  function GetBool(o: Object, k: Key): Option<bool> {
    if k !in o then None else
    match o[k]
    case Bool(b) => Some(b)
    case Null => Some(false)
    case Int(i) => Some(i != 0)
    case _ => None
  }
}
