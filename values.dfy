/** The documents that flow through the service: what a JSON payload
    parses to, plus the values only the store produces. */
module Values {

  import opened ObjectIds

  datatype Value =
    | Null
    | Bool(b: bool)
    | Int(i: int)
    | Float(r: real)
    | Str(s: string)
      /** A calendar date; its parsing from text is not modelled. */
    | Date(day: string)
      /** A point in time; its parsing from text is not modelled. */
    | DateTime(instant: string)
    | List(items: seq<Value>)
    | Object(entries: map<string, Value>)
      /** A native store identifier, never produced by a JSON payload. */
    | Oid(id: ObjectId)

  /** A document: field name to value. */
  type Doc = map<string, Value>

  /** The key under which the store keeps a record's identifier. */
  const IdKey: string := "_id"
}
