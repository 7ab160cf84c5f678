/** Fixed-width integers of the C++ sources and the conversions between them. */
module Words {
  type byte = x: int | 0 <= x < 0x100
  type int16 = x: int | -0x8000 <= x < 0x8000
  type uint16 = x: int | 0 <= x < 0x1_0000
  type uint32 = x: int | 0 <= x < 0x1_0000_0000

  /** Days start at multiples of this. */
  const SECONDS_PER_DAY: nat := 86400

  /** The narrowing conversion to `int16_t`. */
  function Wrap16(x: int): (r: int16)
    ensures (r - x) % 0x1_0000 == 0
    ensures -0x8000 <= x < 0x8000 ==> r == x
  {
    (x + 0x8000) % 0x1_0000 - 0x8000
  }

  function U16(x: int): (r: uint16) {
    x % 0x1_0000
  }

  function U32(x: int): (r: uint32) {
    x % 0x1_0000_0000
  }

  /** Integer division of C++ and Dart's `~/`: rounds toward zero. */
  function TruncDiv(a: int, b: int): int
    requires b > 0
  {
    if a >= 0 then a / b else -((-a) / b)
  }

  predicate Fits16(x: int) {
    -0x8000 <= x < 0x8000
  }

  /** A wrapped difference loses nothing: zero means equal, and adding it back restores the value. */
  lemma WrappedDifference(a: int16, b: int16)
    ensures Wrap16(a - b) == 0 <==> a == b
    ensures Wrap16(b + Wrap16(a - b)) == a
    ensures Wrap16(a - b) == a - b <==> Fits16(a - b)
  {
  }

  datatype Option<+T> = None | Some(value: T) {
    function UnwrapOr(default: T): T {
      if None? then default else value
    }
  }

  datatype Error = FormatException | RangeError

  datatype Result<+T> = Ok(value: T) | Err(error: Error)
}
