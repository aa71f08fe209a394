/** Request bodies and free-form document fields, as the JSON values they arrive as.
    A key missing from an object is JavaScript's `undefined`. */
module Json {

  datatype Json =
    | JNull
    | JBool(b: bool)
    | JNum(n: real)
    | JStr(s: string)
    | JArr(items: seq<Json>)
    | JObj(fields: map<string, Json>)
}
