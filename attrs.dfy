/**
 * The `attrs` dictionary a Django REST framework serializer's `validate`
 * receives and returns: field names to validated values. `validate` methods
 * update it in place, so it is an object with one mutable field.
 */
module Attrs {
  /** An account, as far as login looks at it. */
  datatype User = User(username: string, isActive: bool)

  /** A validated value: None, text, a number, or a user object. */
  datatype Value = NoneValue | Str(s: string) | Num(n: int) | UserRef(user: User)

  /**
   * Python truthiness of a validated value: None, "" and 0 are false; a user
   * object is true. `Values.Truthy` is the same rule on raw payload fields,
   * which have a null but no user object.
   */
  predicate Truthy(v: Value) {
    match v
    case NoneValue => false
    case Str(s) => s != ""
    case Num(n) => n != 0
    case UserRef(_) => true
  }

  /** `attrs.get(key)`. */
  function Get(m: map<string, Value>, key: string): (v: Value)
    ensures key !in m ==> v == NoneValue
    ensures key in m ==> v == m[key]
  {
    if key in m then m[key] else NoneValue
  }

  /** A `ValidationError` raised with one message under a field name. */
  datatype ValidationError = ValidationError(field: string, message: string)

  const NON_FIELD_ERRORS := "non_field_errors"

  class AttrDict {
    var data: map<string, Value>

    constructor (initial: map<string, Value>)
      ensures data == initial
    {
      data := initial;
    }

    /** `attrs[key] = value`. */
    method Set(key: string, value: Value)
      modifies this
      ensures data == old(data)[key := value]
    {
      data := data[key := value];
    }
  }
}
