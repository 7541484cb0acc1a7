/** Python values as they come out of a JSON text. */
module Json {
  import opened Decimals
  import opened Prelude

  /** A float as the decimal it prints as, or an infinity or NaN. */
  datatype Number = Finite(dec: Dec) | NotFinite

  datatype Json =
    | Null
    | Bool(flag: bool)
    | Int(n: int)
    | Float(number: Number)
    | Str(text: string)
    | Arr(items: seq<Json>)
    | Obj(fields: seq<(string, Json)>)

  function Width(j: Json): nat {
    match j
    case Arr(items) => |items|
    case Obj(fields) => |fields|
    case _ => 0
  }

  function Child(j: Json, k: nat): (c: Json)
    requires k < Width(j)
    ensures c < j
  {
    match j
    case Arr(items) => items[k]
    case Obj(fields) => fields[k].1
  }

  /** What a path of places leads to, down through lists and the values of objects. */
  function At(node: Json, path: seq<nat>): Option<Json>
    decreases |path|
  {
    if path == [] then Some(node) else
      match node
      case Arr(items) => if path[0] < |items| then At(items[path[0]], path[1..]) else None
      case Obj(fields) => if path[0] < |fields| then At(fields[path[0]].1, path[1..]) else None
      case _ => None
  }

  /** The order in which paths are met going through a structure from front to back. */
  ghost predicate Before(a: seq<nat>, b: seq<nat>) {
    a != [] && b != [] && (a[0] < b[0] || (a[0] == b[0] && Before(a[1..], b[1..])))
  }

  lemma AtChild(node: Json, k: nat, path: seq<nat>)
    ensures k < Width(node) ==> At(node, [k] + path) == At(Child(node, k), path)
    ensures k >= Width(node) ==> At(node, [k] + path) == None
  {
    assert ([k] + path)[1..] == path;
  }

  predicate HasKey(fields: seq<(string, Json)>, name: string) {
    exists k :: 0 <= k < |fields| && fields[k].0 == name
  }

  /** `value[name]`, for a key that is there. */
  function Get(fields: seq<(string, Json)>, name: string): Json
    requires HasKey(fields, name)
  {
    if fields[0].0 == name then fields[0].1 else Get(fields[1..], name)
  }

  lemma {:induction false} GetIsChild(fields: seq<(string, Json)>, name: string)
    requires HasKey(fields, name)
    ensures exists k :: 0 <= k < |fields| && fields[k] == (name, Get(fields, name))
  {
    if fields[0].0 != name {
      GetIsChild(fields[1..], name);
      var k :| 0 <= k < |fields[1..]| && fields[1..][k] == (name, Get(fields[1..], name));
      assert fields[k + 1] == (name, Get(fields, name));
    }
  }
}
