/** JSON documents as Python's `json` module hands them to the program, and
    the few Python operations the program applies to them without knowing
    their shape: truthiness, `key in v`, `v[key]` and `for x in v`. An
    operation Python would answer with a `TypeError` yields `None` here. */
module Json {
  import opened Common

  /** A decoded JSON value. Object members keep document order, which is
      the order Python iterates a decoded `dict` in. */
  datatype Value =
    | Null
    | Bool(b: bool)
    | Number(n: real)
    | Str(s: string)
    | Array(items: seq<Value>)
    | Object(members: seq<(string, Value)>)

  /** Python's `bool(v)`. */
  predicate Truthy(v: Value) {
    match v
    case Null => false
    case Bool(b) => b
    case Number(n) => n != 0.0
    case Str(s) => s != []
    case Array(xs) => xs != []
    case Object(m) => m != []
  }

  /** `d.get(key)` on a decoded object (member names are distinct in
      `json.load` output, so the first match is the only one). */
  function Lookup(members: seq<(string, Value)>, key: string): (r: Option<Value>)
    ensures r.Some? <==> exists k :: 0 <= k < |members| && members[k].0 == key
    ensures r.Some? ==> exists k :: 0 <= k < |members| && members[k] == (key, r.value)
  {
    if members == [] then None
    else if members[0].0 == key then Some(members[0].1)
    else
      var r := Lookup(members[1..], key);
      assert forall k :: 1 <= k < |members| ==> members[k] == members[1..][k - 1];
      r
  }

  /** The values of an object in document order (`d.values()`). */
  function Values(members: seq<(string, Value)>): (r: seq<Value>)
    ensures |r| == |members| && forall k :: 0 <= k < |r| ==> r[k] == members[k].1
  {
    seq(|members|, k requires 0 <= k < |members| => members[k].1)
  }

  /** Python's `key in v` for a string `key`: a member name for a dict, an
      element for a list, a substring for a str, a `TypeError` otherwise. */
  function PyIn(v: Value, key: string): (r: Option<bool>)
    ensures r.None? <==> v.Null? || v.Bool? || v.Number?
  {
    match v
    case Object(m) => Some(Lookup(m, key).Some?)
    case Array(xs) => Some(Str(key) in xs)
    case Str(s) => Some(Contains(s, key))
    case _ => None
  }

  /** Python's `v[key]` for a string `key` that `in` found: only a dict can be
      indexed by a string; lists and strs raise `TypeError`. */
  function PyIndex(v: Value, key: string): (r: Option<Value>)
    ensures r.Some? ==> v.Object?
  {
    match v
    case Object(m) => Lookup(m, key)
    case _ => None
  }

  /** Python's `for x in v`: list elements, dict keys, one-character strs. */
  function PyIter(v: Value): (r: Option<seq<Value>>)
    ensures v.Array? ==> r == Some(v.items)
    ensures r.None? <==> v.Null? || v.Bool? || v.Number?
  {
    match v
    case Array(xs) => Some(xs)
    case Object(m) => Some(seq(|m|, k requires 0 <= k < |m| => Str(m[k].0)))
    case Str(s) => Some(seq(|s|, k requires 0 <= k < |s| => Str([s[k]])))
    case _ => None
  }
}
