/** The JSON values the client posts, with object members kept in the order
    PHP's arrays hold them. */
module Json {

  datatype Json =
    | JString(s: string)
    | JBool(b: bool)
    | JArray(items: seq<Json>)
    | JObject(members: seq<(string, Json)>)
}
