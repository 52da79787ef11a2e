/** Small value helpers shared by the modules of the model. */
module Common {

  /** A value that may be absent (TypeScript's `T | null` or `T | undefined`). */
  datatype Option<+T> = None | Some(value: T)

  /** JavaScript's Math.min on two finite numbers. */
  function Min(x: real, y: real): (m: real)
    ensures m <= x && m <= y
    ensures m == x || m == y
  {
    if x <= y then x else y
  }

  /** JavaScript's Math.max on two finite numbers. */
  function Max(x: real, y: real): (m: real)
    ensures m >= x && m >= y
    ensures m == x || m == y
  {
    if x >= y then x else y
  }
}
