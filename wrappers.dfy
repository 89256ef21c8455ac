/** Value wrappers shared by the model: JavaScript's `null` and a key that was left out of an object. */
module Wrappers {

  /** A nullable value: `None` is `null` (or `undefined` where the two behave alike). */
  datatype Option<+T> = None | Some(value: T)

  /** An object key that may be omitted altogether, as distinct from being present with some value
      (which may itself be `null`). Drizzle uses an omitted key to mean "use the column default" on
      insert and "leave the column alone" on update. */
  datatype Omit<+T> = Omitted | Given(value: T) {

    /** The given value, or `fallback` when the key was omitted. */
    function GetOr(fallback: T): (r: T)
      ensures Given? ==> r == value
      ensures Omitted? ==> r == fallback
    {
      match this
      case Given(v) => v
      case Omitted => fallback
    }
  }

  /** JavaScript truthiness of a nullable string: present and non-empty. */
  predicate Truthy(s: Option<string>) {
    s.Some? && s.value != ""
  }
}
