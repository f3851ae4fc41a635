/** Small shared vocabulary: an optional value, bytes, and the C `int` range. */
module Common {

  datatype Option<+T> = None | Some(value: T)

  /** An octet, as carried by request and response bodies. */
  newtype byte = x: int | 0 <= x < 256

  /** INT_MAX of the platform's 32-bit `int`. */
  const IntMax: int := 0x7fff_ffff

  /** The `MIN` macro of the client. */
  function Min(a: int, b: int): (m: int)
    ensures m <= a && m <= b && (m == a || m == b)
  {
    if a > b then b else a
  }
}
