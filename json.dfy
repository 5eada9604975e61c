/** A decoded JSON value, as `resp.json()` hands it to the cache filter. */
module Json {

  datatype Json =
    | JNull
    | JBool(b: bool)
    | JNumber(n: int)           // the filter only tells numbers apart from strings
    | JString(str: string)
    | JArray(items: seq<Json>)
    | JObject(fields: map<string, Json>)
}
