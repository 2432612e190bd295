/** Small value types shared by the route handlers. */
module Values {

  datatype Option<+T> = None | Some(value: T)

  /** A field of a parsed JSON request body, as far as the handlers can tell it apart:
      absent (`undefined`), a string, or some other JSON value, which JavaScript
      treats as truthy or falsy. */
  datatype Json = Missing | Str(value: string) | NonString(truthy: bool)

  /** JavaScript truthiness of a JSON field: `!field` is the negation of this. */
  predicate Truthy(j: Json) {
    match j
    case Missing => false
    case Str(s) => s != []
    case NonString(t) => t
  }
}
