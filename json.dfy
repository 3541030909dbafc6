/**
 * The structured documents exchanged between the services: job configurations,
 * step results and the final result, as Python's `json` module reads them.
 */
module Json {

  /** A JSON value; integers and floats stay apart, as `json.loads` keeps them apart. */
  datatype Json =
    | JNull
    | JBool(b: bool)
    | JInt(i: int)
    | JFloat(r: real)
    | JStr(s: string)
    | JArr(items: seq<Json>)
    | JObj(fields: map<string, Json>)

  /** A JSON object, Python's `dict` with string keys. */
  type Object = map<string, Json>
}
