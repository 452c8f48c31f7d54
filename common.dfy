/** Small value types and helpers shared by the backend and frontend models. */
module Common {

  /** A value that may be absent: Python's None, a nullable column, JavaScript's null. */
  datatype Option<+T> = None | Some(value: T)

  /** Python truthiness of an optional float: None and 0.0 are falsy. */
  predicate Truthy(x: Option<real>)
  {
    x.Some? && x.value != 0.0
  }

  /** The smaller of two reals (Python's min, JavaScript's Math.min). */
  function Min(x: real, y: real): real { if x <= y then x else y }

  /** The larger of two reals (Python's max, JavaScript's Math.max). */
  function Max(x: real, y: real): real { if y <= x then x else y }

  /** Math.min of four numbers: one of them, and no larger than any. */
  function Min4(a: real, b: real, c: real, d: real): (m: real)
    ensures m <= a && m <= b && m <= c && m <= d
    ensures m == a || m == b || m == c || m == d
  {
    Min(Min(Min(a, b), c), d)
  }

  /** Math.max of four numbers: one of them, and no smaller than any. */
  function Max4(a: real, b: real, c: real, d: real): (m: real)
    ensures a <= m && b <= m && c <= m && d <= m
    ensures m == a || m == b || m == c || m == d
  {
    Max(Max(Max(a, b), c), d)
  }
}

/** Types of the frontend pages. */
module Ui {
  /** The Ant Design tag colours the status columns use. */
  datatype TagColor = Default | Processing | Success | Error
}
