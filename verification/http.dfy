/** The shapes of the JSON values the handlers read and write. */
module Http {

  /** A value read from a parsed JSON request body. JSON numbers are kept
      as integers: only their type matters to the handlers modelled here. */
  datatype JsonValue =
    | JString(s: string)
    | JNumber(n: int)
    | JBool(b: bool)
    | JNull
    | JArray(items: seq<JsonValue>)
    | JObject(fields: map<string, JsonValue>)

  /** A property of a model instance as JavaScript reads it: a declared
      attribute holds a value (or `null`), anything else is `undefined`. */
  datatype FieldValue = FInt(n: int) | FStr(s: string) | FBool(b: bool) | FNull | FUndefined

  datatype Body =
    | MessageBody(message: string)
    | ErrorBody(error: string)
    | RecordBody(fields: map<string, FieldValue>)

  datatype Response = Response(status: nat, body: Body)

  function Error(status: nat, error: string): Response
  {
    Response(status, ErrorBody(error))
  }
}
