/** JSON values, with the accessors of serde_json that the runtime uses.
    Numbers are integers: no modelled code looks inside one. */
module Json {
  import opened Names

  datatype Json =
    | Null
    | Bool(b: bool)
    | Num(n: int)
    | Str(text: string)
    | Arr(items: seq<Json>)
    | Obj(fields: map<string, Json>)

  /** `value.get(key)` */
  function Get(value: Json, key: string): Option<Json> {
    if value.Obj? && key in value.fields then Some(value.fields[key]) else None
  }

  /** `value[key]`: null when there is no such member. */
  function At(value: Json, key: string): Json {
    if value.Obj? && key in value.fields then value.fields[key] else Null
  }

  function AsStr(value: Json): Option<string> {
    if value.Str? then Some(value.text) else None
  }
}
