/** The JSON value tree that contract messages, stored rule patterns and query
    replies are converted to and from. Objects are maps from field name to value. */
module Json {

  datatype Value =
    | Null
    | Bool(b: bool)
    | Number(n: int)
    | String(s: string)
    | Array(items: seq<Value>)
    | Object(fields: map<string, Value>)
}
