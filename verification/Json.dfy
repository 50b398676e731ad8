/** JSON values as the client parses them; numbers are integers. */
module Json {
  datatype Json =
    | Null
    | Bool(b: bool)
    | Num(n: int)
    | Str(s: string)
    | List(items: seq<Json>)
    | Obj(fields: map<string, Json>)

  type Fields = map<string, Json>

  /** `mapping.get(key)` */
  function Get(fields: Fields, key: string): Json {
    if key in fields then fields[key] else Null
  }
}
