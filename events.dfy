/** Values shared by the publish/subscribe bus, the timers and the debouncer. */
module Events {
  /** A JavaScript value that may be `undefined`/`null`. */
  datatype Option<+T> = None | Some(value: T)

  /** One byte of a Buffer. */
  newtype Byte = x: int | 0 <= x < 256

  /** A field value of an event record or of an option dictionary. */
  datatype Value =
    | Str(s: string)
    | Num(n: int)
    | Bool(b: bool)
    | Date(ms: int)   // a `new Date()` stamp; the milliseconds are supplied by the caller
    | Bytes(bytes: seq<Byte>)  // a Buffer, such as a chunk read from stdin

  /** A plain JavaScript object used as a record: field name to value. */
  type Record = map<string, Value>
}
