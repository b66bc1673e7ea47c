/** C integer types used by the driver and the two front ends, and the
    conversions C applies when a wider value is stored into them. */
module CTypes {

  type uint8 = x: int | 0 <= x < 0x100
  type uint16 = x: int | 0 <= x < 0x1_0000
  type uint32 = x: int | 0 <= x < 0x1_0000_0000
  type int8 = x: int | -0x80 <= x < 0x80

  /** Conversion to `uint8_t`: the value is reduced modulo 2^8. */
  function ToUint8(x: int): (r: uint8)
    ensures (x - r) % 0x100 == 0
    ensures 0 <= x < 0x100 ==> r == x
  {
    x % 0x100
  }

  /** Conversion to `uint16_t`: the value is reduced modulo 2^16. */
  function ToUint16(x: int): (r: uint16)
    ensures (x - r) % 0x1_0000 == 0
    ensures 0 <= x < 0x1_0000 ==> r == x
  {
    x % 0x1_0000
  }

  datatype Option<+T> = None | Some(value: T)

  datatype Result<+T, +E> = Success(value: T) | Failure(error: E)
}
