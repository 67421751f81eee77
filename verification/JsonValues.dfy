/** JSON values and their text form. */
module JsonValues {
  import opened Text

  datatype Json =
    | JNull
    | JBool(b: bool)
    | JInt(n: int)
    | JReal(text: string)
    | JStr(s: string)
    | JArr(items: seq<Json>)
    | JObj(fields: seq<Field>)

  datatype Field = Field(name: string, value: Json)

  datatype Codec = Codec(encode: Json -> string, decode: string -> Option<Json>)

  ghost predicate Lawful(c: Codec) {
    forall j :: c.decode(c.encode(j)) == Some(j)
  }

  function Lookup(fields: seq<Field>, key: string): Option<Json> {
    if fields == [] then None
    else if fields[0].name == key then Some(fields[0].value)
    else Lookup(fields[1..], key)
  }

  /** `Value::get`: only objects have fields. */
  function Get(j: Json, key: string): Option<Json> {
    if j.JObj? then Lookup(j.fields, key) else None
  }

  function GetStr(j: Json, key: string): Option<string> {
    var v := Get(j, key);
    if v.Some? && v.value.JStr? then Some(v.value.s) else None
  }
}
