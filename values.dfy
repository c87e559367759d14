/**
 * Values as the handlers receive them: a JSON or form field is absent, null,
 * an integer or a string, and the handlers use it through Python's `str()`,
 * truthiness and `==`.
 */
module Values {
  import opened Strings

  datatype Option<+T> = None | Some(value: T)

  datatype Result<+T, +E> = Ok(value: T) | Err(error: E)

  /** A payload field: missing from the payload, JSON null, an integer, or text. */
  datatype Wire = Absent | Null | Int(i: int) | Text(s: string)

  /** Python's `str(data.get(key))`: a missing or null field renders as "None". */
  function Render(w: Wire): string {
    match w
    case Absent => "None"
    case Null => "None"
    case Int(i) => IntToDecimal(i)
    case Text(s) => s
  }

  /**
   * Python's truthiness of a payload field: `not value` holds for a missing
   * field, None, 0 and "". `Attrs.Truthy` is the same rule on validated
   * serializer values, which can also hold a user object.
   */
  predicate Truthy(w: Wire) {
    match w
    case Absent => false
    case Null => false
    case Int(i) => i != 0
    case Text(s) => s != ""
  }

  /** Truthiness of a nullable text column. */
  predicate NonEmpty(o: Option<string>) {
    o.Some? && o.value != ""
  }

  /** The content of a nullable text column after the field is assigned to it and saved. */
  function Stored(w: Wire): (o: Option<string>)
    ensures o.None? <==> (w.Absent? || w.Null?)
    ensures o.Some? ==> o.value == Render(w)
  {
    if w.Absent? || w.Null? then None else Some(Render(w))
  }

  /** `w == n` in Python for an integer n. */
  predicate IsInteger(w: Wire, n: int) {
    w == Int(n)
  }
}
