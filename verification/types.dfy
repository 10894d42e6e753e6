/** Fixed-width C integer types and an Option wrapper shared by the model.

    The firmware is C on a 32-bit little-endian microcontroller; its integer
    types are bounded, so each one is a subset of `int` here and every
    wrap-around the firmware relies on is written out where it happens.
 */
module Types {

  /** An optional value: `None` stands for the C code's NULL / "no value". */
  datatype Option<+T> = None | Some(value: T) {

    /** The held value, or `default` when there is none. */
    function GetOr(default: T): T {
      match this
      case Some(v) => v
      case None => default
    }
  }

  const UINT8_LIMIT: nat := 0x100
  const UINT16_LIMIT: nat := 0x1_0000
  const UINT32_LIMIT: nat := 0x1_0000_0000

  /** `uint8_t` */
  type U8 = x: int | 0 <= x < UINT8_LIMIT
  /** `uint16_t` */
  type U16 = x: int | 0 <= x < UINT16_LIMIT
  /** `uint32_t` */
  type U32 = x: int | 0 <= x < UINT32_LIMIT
  /** `int8_t` */
  type Int8 = x: int | -128 <= x < 128

  /** The C conversion of a `bool` to an integer. */
  function BoolToInt(b: bool): (n: int)
    ensures b <==> n == 1
    ensures !b <==> n == 0
  {
    if b then 1 else 0
  }
}
