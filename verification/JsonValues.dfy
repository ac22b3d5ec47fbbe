/** JSON values. */
module JsonValues {
  datatype Json =
    | Null
    | Bool(flag: bool)
    | Number(number: real)
    | String(text: string)
    | Array(items: seq<Json>)
    | Object(members: map<string, Json>)

  function Get(v: Json, key: string): Json {
    if v.Object? && key in v.members then v.members[key] else Null
  }
}
