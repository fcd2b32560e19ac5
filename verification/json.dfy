/** The JSON values the dashboard keeps in `localStorage`, with the few JavaScript
    operations applied to them: property access with optional chaining, `??`,
    truthiness, and assignment along a dotted path. */
module JsonValues {
  import opened Wrappers

  datatype Json =
    | JNull
    | JBool(b: bool)
    | JNum(n: real)
    | JStr(s: string)
    | JArr(items: seq<Json>)
    | JObj(fields: map<string, Json>)

  /** `v?.key`: `None` stands for `undefined`, which is what a missing key, a
      non-object and an undefined `v` all give. */
  function Member(v: Option<Json>, key: string): (r: Option<Json>)
    ensures r.Some? <==> v.Some? && v.value.JObj? && key in v.value.fields
  {
    if v.Some? && v.value.JObj? && key in v.value.fields then Some(v.value.fields[key]) else None
  }

  /** `v ?? d`: the default replaces `undefined` and `null` only. */
  function Coalesce(v: Option<Json>, d: Json): (r: Json)
    ensures v.None? || v == Some(JNull) ==> r == d
    ensures v.Some? && v.value != JNull ==> r == v.value
  {
    match v
    case None => d
    case Some(JNull) => d
    case Some(x) => x
  }

  /** JavaScript truthiness of a JSON value. */
  predicate Truthy(v: Json) {
    match v
    case JNull => false
    case JBool(b) => b
    case JNum(n) => n != 0.0
    case JStr(s) => s != ""
    case JArr(_) => true
    case JObj(_) => true
  }

  /** The value at a path of keys, if every step lands on an object holding the key. */
  function GetIn(j: Json, keys: seq<string>): Option<Json>
    decreases |keys|
  {
    if |keys| == 0 then Some(j)
    else if j.JObj? && keys[0] in j.fields then GetIn(j.fields[keys[0]], keys[1..])
    else None
  }

  /** Walking down `keys[..|keys| - 1]` and assigning `v` to the last key, as a loop of
      `current = current[key]` followed by `current[last] = value` does. In strict mode
      it throws (here `None`) when a step or the final assignment meets anything but an
      object. */
  function SetIn(j: Json, keys: seq<string>, v: Json): (r: Option<Json>)
    requires 1 <= |keys|
    ensures r.Some? ==> j.JObj? && r.value.JObj? && r.value.fields.Keys == j.fields.Keys + {keys[0]}
    decreases |keys|
  {
    if !j.JObj? then None
    else if |keys| == 1 then Some(JObj(j.fields[keys[0] := v]))
    else if keys[0] !in j.fields then None
    else match SetIn(j.fields[keys[0]], keys[1..], v)
      case None => None
      case Some(c) => Some(JObj(j.fields[keys[0] := c]))
  }

  /** Two paths that part ways at some position: neither extends the other. */
  predicate Diverge(a: seq<string>, b: seq<string>) {
    exists i :: 0 <= i < |a| && i < |b| && a[i] != b[i]
  }

  /** An assignment along a path is seen at that path, and at no path that parts
      ways with it. */
  lemma {:induction false} SetThenGet(j: Json, keys: seq<string>, v: Json, other: seq<string>)
    requires 1 <= |keys| && SetIn(j, keys, v).Some?
    ensures GetIn(SetIn(j, keys, v).value, keys) == Some(v)
    ensures Diverge(keys, other) ==> GetIn(SetIn(j, keys, v).value, other) == GetIn(j, other)
    decreases |keys|
  {
    var r := SetIn(j, keys, v).value;
    if |keys| == 1 {
      assert keys[1..] == [];
      if Diverge(keys, other) {
        assert other[0] != keys[0];
      }
    } else {
      var c := SetIn(j.fields[keys[0]], keys[1..], v).value;
      assert r.fields[keys[0]] == c;
      if Diverge(keys, other) && other[0] == keys[0] {
        var i :| 0 <= i < |keys| && i < |other| && keys[i] != other[i];
        assert keys[1..][i - 1] != other[1..][i - 1];
        SetThenGet(j.fields[keys[0]], keys[1..], v, other[1..]);
      } else {
        SetThenGet(j.fields[keys[0]], keys[1..], v, keys[1..]);
      }
    }
  }
}
