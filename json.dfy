/** A parsed JSON value, as Python's `json.loads` returns it. */
module Json {

  datatype Json =
    | JNull
    | JBool(b: bool)
    | JNum(n: int)
    | JStr(s: string)
    | JArr(items: seq<Json>)
    | JObj(fields: map<string, Json>)

  /** The `{"error": message}` body every backend failure uses. */
  function ErrorBody(message: string): Json {
    JObj(map["error" := JStr(message)])
  }

  /** A one-field object `{key: value}`. */
  function Single(key: string, value: Json): Json {
    JObj(map[key := value])
  }
}
