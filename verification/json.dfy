/** The JSON tree the request and client code read and build, and the few
    lookups of the JSON library that code relies on. Text parsing and
    printing are not modelled: a body either parsed into a tree or it did not. */
module Json {
  import opened Common

  datatype Json =
    | JNull
    | JBool(b: bool)
    | JNum(n: int)
    | JStr(s: string)
    | JArr(items: seq<Json>)
    | JObj(fields: seq<(string, Json)>)  // fields in insertion order; keys may repeat

  /** Position of the first field named `k`: the library finds keys with `IndexOf`. */
  function FindKey(fields: seq<(string, Json)>, k: string): (r: Option<nat>)
    ensures r.Some? ==> r.value < |fields| && fields[r.value].0 == k
    ensures r.Some? ==> forall i :: 0 <= i < r.value ==> fields[i].0 != k
    ensures r.None? <==> forall i :: 0 <= i < |fields| ==> fields[i].0 != k
  {
    if |fields| == 0 then None
    else if fields[0].0 == k then Some(0)
    else
      match FindKey(fields[1..], k)
      case None => None
      case Some(i) => Some(i + 1)
  }

  /** `HasField(k)`: the node is an object with a field named `k`. */
  predicate HasField(j: Json, k: string)
  {
    j.JObj? && exists i :: 0 <= i < |j.fields| && j.fields[i].0 == k
  }

  /** `GetField(k)`: the value of the first field named `k`, or null. */
  function Field(j: Json, k: string): (r: Option<Json>)
    ensures r.Some? <==> HasField(j, k)
    ensures r.Some? ==> exists i :: 0 <= i < |j.fields| && j.fields[i] == (k, r.value)
  {
    if !j.JObj? then None
    else
      match FindKey(j.fields, k)
      case None => None
      case Some(i) => Some(j.fields[i].1)
  }

  /** The node's `list`: the items of an array, the field values of an object,
      null for a leaf. */
  function List(j: Json): (r: Option<seq<Json>>)
    ensures j.JArr? ==> r == Some(j.items)
    ensures r.Some? <==> (j.JArr? || j.JObj?)
    ensures j.JObj? ==> |r.value| == |j.fields|
  {
    match j
    case JArr(items) => Some(items)
    case JObj(fields) => Some(seq(|fields|, i requires 0 <= i < |fields| => fields[i].1))
    case _ => None
  }

  /** The `str` of a node: the text of a string node, null for any other node. */
  function Str(j: Json): NStr
  {
    if j.JStr? then Some(j.s) else None
  }

  /** `GetField(out string field, k, fallback)`: a present field yields its
      node's `str`; an absent one (or a non-object) yields the fallback. */
  function GetString(j: Json, k: string, fallback: NStr): NStr
  {
    match Field(j, k)
    case None => fallback
    case Some(v) => Str(v)
  }

  /** The node `AddField(k, s)` stores for a possibly-null string. */
  function FromNStr(s: NStr): (r: Json)
    ensures Str(r) == s
  {
    match s
    case None => JNull
    case Some(t) => JStr(t)
  }
}
