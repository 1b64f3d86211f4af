/** Small value wrappers shared by the model: an Option, and the three states a
    field of a parsed JSON request body can be in (missing, explicit null, a value). */
module Wrappers {

  datatype Option<+T> = None | Some(value: T)

  /** A request-body field: `Absent` is JavaScript `undefined`, `Null` is `null`. */
  datatype Field<+T> = Absent | Null | Present(value: T) {

    /** JavaScript `field ?? fallback`: only `undefined` and `null` fall back. */
    function OrElse(fallback: T): T {
      if Present? then value else fallback
    }

    /** The field as an Option, `undefined` and `null` both being None. */
    function ToOption(): Option<T> {
      if Present? then Some(value) else None
    }
  }

  /** JavaScript `s || fallback` for a string field: the empty string is falsy. */
  function StringOr(f: Field<string>, fallback: string): (r: string)
    ensures f.Present? && f.value != "" ==> r == f.value
    ensures !(f.Present? && f.value != "") ==> r == fallback
  {
    if f.Present? && f.value != "" then f.value else fallback
  }

  /** JavaScript `n || fallback` for a number field: zero is falsy. */
  function IntOr(f: Field<int>, fallback: int): (r: int)
    ensures f.Present? && f.value != 0 ==> r == f.value
    ensures !(f.Present? && f.value != 0) ==> r == fallback
  {
    if f.Present? && f.value != 0 then f.value else fallback
  }

  /** JavaScript truthiness of a boolean field. */
  function IsTrue(f: Field<bool>): bool {
    f.Present? && f.value
  }

  function Max(a: int, b: int): (r: int)
    ensures r >= a && r >= b && (r == a || r == b)
  {
    if a >= b then a else b
  }
}
