/** The parsed form of a JSON document, as Python's `json` module returns it:
    objects become dicts (the last of duplicate keys wins, so a map), arrays
    become lists. */
module Json {
  datatype Value =
    | JNull
    | JBool(b: bool)
    | JNumber(text: string)   // the number as `str()` writes it, as in the lookup URL
    | JString(s: string)
    | JArray(items: seq<Value>)
    | JObject(fields: map<string, Value>)
}
