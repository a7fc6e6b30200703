/** JSON values as the report readers see them. */
module Json {
  datatype Json =
    | Null
    | Bool(b: bool)
    | Num(n: int)
    | Str(s: string)
    | List(items: seq<Json>)
    | Object(fields: map<string, Json>)

  /** The value at a key; absent keys and values that are no object give null. */
  function Get(j: Json, key: string): Json {
    if j.Object? && key in j.fields then j.fields[key] else Null
  }

  function Strings(names: seq<string>): (r: seq<Json>)
    ensures |r| == |names| && forall i :: 0 <= i < |names| ==> r[i] == Str(names[i])
  {
    seq(|names|, i requires 0 <= i < |names| => Str(names[i]))
  }
}
