/** Small shared definitions: an optional value, bytes, and integer min/max. */
module Common {

  /** A value that may be absent; stands for the script's `null`. */
  datatype Option<T> = None | Some(value: T)

  /** One channel of an RGBA pixel, as stored in a canvas's image data. */
  newtype byte = b: int | 0 <= b < 256

  /** `Math.min` on integers. */
  function Min(a: int, b: int): (m: int)
    ensures m <= a && m <= b && (m == a || m == b)
  {
    if a < b then a else b
  }

  /** `Math.max` on integers. */
  function Max(a: int, b: int): (m: int)
    ensures m >= a && m >= b && (m == a || m == b)
  {
    if a < b then b else a
  }
}
