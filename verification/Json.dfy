/** JSON values as `serde_json` holds them. */
module Json {
  datatype Json =
    | Null
    | Bool(b: bool)
    | Number(text: string)
    | String(s: string)
    | Array(items: seq<Json>)
    | Object(members: map<string, Json>)

  const EMPTY_OBJECT: Json := Object(map[])
}
