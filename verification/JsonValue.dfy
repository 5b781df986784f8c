/** JSON documents; the order of object fields does not matter to any reader here. */
module JsonValue {
  datatype Json =
    | Null | Bool(b: bool) | Number(text: string) | String(s: string)
    | List(elems: seq<Json>) | Object(fields: map<string, Json>)
}
