/** JSON documents as the request body decodes them and as responses carry them. */
module Json {

  /** A decoded JSON value. An object is a map from keys to values, as
      Python's `json.loads` builds it (a repeated key keeps its last value). */
  datatype Value =
    | JNull
    | JBool(b: bool)
    | JNumber(n: int)
    | JString(str: string)
    | JArray(items: seq<Value>)
    | JObject(fields: map<string, Value>)

  /** A request body: either text that does not decode as JSON, or the decoded value. */
  datatype Body = NotJson | JsonBody(value: Value)
}
