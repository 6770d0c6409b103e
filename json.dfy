/** JSON values as the request bodies, the stored show records and the
    response envelope carry them. */
module Json {

  datatype Option<+T> = None | Some(value: T)

  /** A JSON value (numbers are integers only: the API never sees fractions). */
  datatype Value =
    | Null
    | Bool(b: bool)
    | Int(i: int)
    | Str(s: string)
    | List(items: seq<Value>)
    | Object(fields: map<string, Value>)

  /** A JSON object: a request body or a stored show record. */
  type Record = map<string, Value>

  /** The records as a JSON array of objects, in the same order. */
  function Objects(rs: seq<Record>): seq<Value>
  {
    seq(|rs|, k requires 0 <= k < |rs| => Object(rs[k]))
  }
}
