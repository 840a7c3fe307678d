/**
  The backup file shared by the export and import endpoints,
  `{ version, exportedAt, data: { members, songs, events, setlists } }`,
  as the import endpoint sees it after JSON decoding: each field may be
  missing or of an unexpected kind.
*/
module Backup {
  import opened Types

  /** A decoded JSON value, as far as its truthiness matters. A missing field reads as Undefined. */
  datatype JsonValue = Undefined | Null | Bool(b: bool) | Number(x: real) | Str(s: string) | Composite

  /** JavaScript truthiness: undefined, null, false, 0 and "" are falsy; objects and arrays are truthy. */
  predicate Truthy(v: JsonValue)
  {
    match v
    case Undefined => false
    case Null => false
    case Bool(b) => b
    case Number(x) => x != 0.0
    case Str(s) => s != ""
    case Composite => true
  }

  /**
    One collection field of `data`: missing (undefined, so the destructuring
    default `[]` applies), an array, or present but not an array (null included).
  */
  datatype Field<T> = Absent | Array(items: seq<T>) | NotArray

  /**
    The `data` field: falsy, or truthy with its four collection fields. A
    truthy value that is not an object (a number, a string) has all four Absent.
  */
  datatype DataField =
    | FalsyData
    | TruthyData(members: Field<Member>, songs: Field<Song>, events: Field<Event>, setlists: Field<Setlist>)

  datatype Envelope = Envelope(version: JsonValue, exportedAt: JsonValue, data: DataField)

  const CurrentVersion := "1.0"
}
