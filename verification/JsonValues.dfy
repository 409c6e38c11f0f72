/** JSON values as the console receives them. */
module JsonValues {
  import opened Options

  datatype Json = Null | Bool(value: bool) | Number(number: real) | Text(text: string)
                | List(items: seq<Json>) | Object(fields: map<string, Json>)

  type Record = map<string, Json>

  /** How a stored value reads as a time, `None` for everything that is no date. */
  type Clock = Json -> Option<int>

  function Get(r: Record, key: string): Option<Json> { if key in r then Some(r[key]) else None }

  /** Anything but an object counts as an empty one. */
  function AsRecord(v: Option<Json>): Record {
    match v
    case Some(Object(fields)) => fields
    case _ => map[]
  }

  /** The time in a field; a missing or null field is no time. */
  function TimeIn(clock: Clock, r: Record, field: string): Option<int> {
    if field in r && r[field] != Null then clock(r[field]) else None
  }

  /** The first time is later, where no time is earlier than any. */
  predicate Later(a: Option<int>, b: Option<int>) { a.Some? && (b.None? || b.value < a.value) }
}
