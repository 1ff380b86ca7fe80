/** JavaScript value shapes shared by the whole model: optional values
    (null / undefined) and entity ids with their truthiness. */
module Values {

  /** A value that may be missing (`null` or `undefined` in the source). */
  datatype Option<+T> = None | Some(value: T) {

    /** The wrapped value, or `default` when missing. */
    function GetOr(default: T): T {
      match this
      case Some(v) => v
      case None => default
    }
  }

  /** An entity id. The API hands ids out as numbers while route parameters
      carry them as strings; JavaScript's `===` never equates the two kinds,
      and neither does datatype equality. */
  datatype Id = Num(n: nat) | Str(s: string)

  /** JavaScript truthiness of an id: `0` and `""` are falsy. */
  predicate Truthy(id: Id) {
    match id
    case Num(n) => n != 0
    case Str(s) => s != ""
  }

  /** `text || fallback` for a string that may be missing or empty. */
  function OrElse(text: Option<string>, fallback: string): string {
    if text.Some? && text.value != "" then text.value else fallback
  }
}
