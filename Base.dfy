/** Fixed-width integers as the Rust code uses them, and the two wrapper
    datatypes the model needs. Arithmetic follows a release build: u16 and i16
    operations wrap around instead of panicking. */
module Base {

  type uint8 = x: int | 0 <= x < 0x100
  type uint16 = x: int | 0 <= x < 0x1_0000
  type int16 = x: int | -0x8000 <= x < 0x8000
  /** `NonZeroU8` */
  type nonZeroU8 = x: int | 1 <= x < 0x100 witness 1

  datatype Option<T> = None | Some(value: T) {
    /** `Option::unwrap_or` */
    function UnwrapOr(default: T): (r: T)
      ensures Some? ==> r == value
      ensures None? ==> r == default
    {
      match this
      case Some(v) => v
      case None => default
    }
  }

  /** The shared output queue is not a hard cap: producers wait only while
      it holds more than this many values. */
  const HighWaterMark: nat := 1000

  datatype Result<T, E> = Ok(value: T) | Err(error: E)

  function Min(a: int, b: int): (m: int)
    ensures m <= a && m <= b && (m == a || m == b)
  {
    if a <= b then a else b
  }

  /** Wrapping u16 arithmetic: the value modulo 2^16. */
  function Wrap16(x: int): (r: uint16)
    ensures 0 <= x < 0x1_0000 ==> r == x
    ensures (x - r) % 0x1_0000 == 0
  {
    x % 0x1_0000
  }

  /** Wrapping i16 arithmetic: the two's complement value of the low 16 bits. */
  function WrapI16(x: int): (r: int16)
    ensures -0x8000 <= x < 0x8000 ==> r == x
    ensures (x - r) % 0x1_0000 == 0
  {
    (x + 0x8000) % 0x1_0000 - 0x8000
  }

  /** `b as i8`: the byte's bits read as a two's complement number. */
  function AsI8(b: uint8): (r: int)
    ensures -0x80 <= r < 0x80
    ensures (b - r) % 0x100 == 0
  {
    if b < 0x80 then b else b - 0x100
  }

  /** Rust's `/` on signed integers, which rounds toward zero (Dafny's `/`
      rounds toward minus infinity for a positive divisor). */
  function TruncDiv(a: int, d: int): (q: int)
    requires d > 0
    ensures a >= 0 ==> 0 <= a - q * d < d
    ensures a < 0 ==> -d < a - q * d <= 0
  {
    if a >= 0 then a / d else -((-a) / d)
  }

  /** `u8::overflowing_add`: the wrapped sum and whether it carried out of
      the byte. */
  function OverflowingAdd8(a: uint8, b: uint8): (r: (uint8, bool))
    ensures r.0 + (if r.1 then 0x100 else 0) == a + b
  {
    if a + b >= 0x100 then (a + b - 0x100, true) else (a + b, false)
  }
}
