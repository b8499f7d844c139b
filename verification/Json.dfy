// Parsed JSON, as the SCIM handlers and the subject derivation see it.
module Json {
  import opened Wrappers

  // `Undefined` is what reading a missing key gives; numbers keep their text, and
  // an object's fields are in the order `Object.entries` lists them.
  datatype Json =
    | Undefined
    | Null
    | Bool(b: bool)
    | Number(text: string)
    | String(s: string)
    | Array(items: seq<Json>)
    | Object(fields: seq<Field>)
  datatype Field = Field(key: string, val: Json)

  function Get(fields: seq<Field>, key: string): Json {
    if fields == [] then Undefined
    else if fields[0].key == key then fields[0].val
    else Get(fields[1..], key)
  }

  function Lookup(v: Json, key: string): Json {
    if v.Object? then Get(v.fields, key) else Undefined
  }

  function AsString(v: Json): Option<string> {
    if v.String? then Some(v.s) else None
  }
}
