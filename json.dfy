/** Decoded JSON documents (request bodies and provider payloads) and the
    Python operations the handlers apply to them: subscripting with a
    string key, the `in` test and truthiness. */
module Json {
  import opened Runtime
  import Strings

  /** A value as Python's json module decodes it. Numbers are integers
      only; JSON floats are not modelled. */
  datatype Json =
    | Null
    | Bool(b: bool)
    | Num(n: int)
    | Str(s: string)
    | Arr(items: seq<Json>)
    | Obj(fields: map<string, Json>)

  /** `bool(j)`: false exactly for None, False, 0, the empty str, list and dict. */
  predicate Truthy(j: Json)
    ensures Truthy(j) <==> j !in {Null, Bool(false), Num(0), Str(""), Arr([]), Obj(map[])}
  {
    match j
    case Null => false
    case Bool(b) => b
    case Num(n) => n != 0
    case Str(s) => s != ""
    case Arr(items) => items != []
    case Obj(fields) => fields != map[]
  }

  /** `j[key]` with a str key: a dict lookup that raises KeyError when the
      key is absent. A list or a str accepts only integer indices and
      None, bool and int are not subscriptable: TypeError. */
  function Get(j: Json, key: string): (r: Result<Json>)
    ensures r.Ok? <==> j.Obj? && key in j.fields
    ensures r.Ok? ==> r.value == j.fields[key]
    ensures r.Raise? ==> (if j.Obj? then r.error == KeyError else r.error == TypeError)
  {
    match j
    case Obj(fields) => if key in fields then Ok(fields[key]) else Raise(KeyError)
    case _ => Raise(TypeError)
  }

  /** `j[k0][k1]...[kn]`: the subscripts are applied left to right and the
      first one that fails raises. */
  function GetPath(j: Json, path: seq<string>): (r: Result<Json>)
    decreases |path|
    ensures r.Raise? ==> r.error in {KeyError, TypeError}
  {
    if path == [] then Ok(j)
    else match Get(j, path[0])
      case Ok(v) => GetPath(v, path[1..])
      case Raise(e) => Raise(e)
  }

  /** `key in j` for a str key: membership among a dict's keys or a list's
      elements, a substring test on a str; TypeError on None, bool and int. */
  function Contains(j: Json, key: string): (r: Result<bool>)
    ensures r.Raise? <==> j.Null? || j.Bool? || j.Num?
    ensures r.Raise? ==> r.error == TypeError
    ensures j.Obj? ==> (r == Ok(true) <==> Get(j, key).Ok?)
  {
    match j
    case Obj(fields) => Ok(key in fields)
    case Arr(items) => Ok(Str(key) in items)
    case Str(s) => Ok(Strings.Contains(s, key))
    case _ => Raise(TypeError)
  }

  /** `j` holds `path`: every step is a dict that has the next key. */
  ghost predicate HasPath(j: Json, path: seq<string>)
    decreases |path|
  {
    path == [] || (j.Obj? && path[0] in j.fields && HasPath(j.fields[path[0]], path[1..]))
  }

  /** A string-keyed path lookup succeeds exactly when the path is present. */
  lemma {:induction false} GetPathOutcome(j: Json, path: seq<string>)
    ensures GetPath(j, path).Ok? <==> HasPath(j, path)
    decreases |path|
  {
    if path != [] && j.Obj? && path[0] in j.fields {
      GetPathOutcome(j.fields[path[0]], path[1..]);
    }
  }

  /** Looking a path up in two steps is looking it up at once. */
  lemma {:induction false} GetPathConcat(j: Json, p: seq<string>, q: seq<string>)
    ensures GetPath(j, p + q) == match GetPath(j, p) case Ok(v) => GetPath(v, q) case Raise(e) => Raise(e)
    decreases |p|
  {
    if p != [] {
      assert (p + q)[0] == p[0] && (p + q)[1..] == p[1..] + q;
      match Get(j, p[0])
      case Ok(v) => GetPathConcat(v, p[1..], q);
      case Raise(e) =>
    } else {
      assert p + q == q;
    }
  }
}
