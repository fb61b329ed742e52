/** JSON-like values. */
module Values {

  /** An object is its fields in order, as in a dict; a number is kept as its printed form. */
  datatype Json =
    | Null
    | Bool(flag: bool)
    | Number(literal: string)
    | Str(text: string)
    | Arr(items: seq<Json>, asTuple: bool)
    | Obj(fields: seq<(string, Json)>)

  type Fields = seq<(string, Json)>
}
