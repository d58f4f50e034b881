/** The JSON values the extractor writes and the transform reads. */
module JsonValues {

  /** A decoded JSON document; objects keep their keys in document order. */
  datatype Json =
    | JNull
    | JBool(b: bool)
    | JNum(n: int)
    | JStr(s: string)
    | JArr(items: seq<Json>)
    | JObj(fields: seq<(string, Json)>)
}
