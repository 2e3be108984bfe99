/** The fixed-width unsigned integer types of the AVR/ESP32 toolchains, as
    ranges of `int`, and the wrap-around their arithmetic performs. */
module ArduinoTypes {

  const Two8: int := 0x100
  const Two16: int := 0x1_0000
  const Two32: int := 0x1_0000_0000

  type uint8 = x: int | 0 <= x < Two8
  type uint16 = x: int | 0 <= x < Two16
  type uint32 = x: int | 0 <= x < Two32

  /** Conversion to `uint8_t`: keeps the low 8 bits of any integer. */
  function ToUint8(x: int): uint8 { x % Two8 }

  function ToUint16(x: int): uint16 { x % Two16 }

  /** `unsigned long` arithmetic, modulo 2^32. */
  function ToUint32(x: int): uint32 { x % Two32 }

  function Sub32(a: uint32, b: uint32): (d: uint32)
    ensures a >= b ==> d == a - b
    ensures a < b ==> d == a - b + Two32
  {
    ToUint32(a - b)
  }

  /** C's `/` on `int`: the quotient truncated toward zero. */
  function CDiv(a: int, b: int): int
    requires b > 0
  {
    if a >= 0 then a / b else -((-a) / b)
  }

  /** C's `%` on `int`: the remainder takes the sign of the dividend. */
  function CMod(a: int, b: int): int
    requires b > 0
  {
    a - b * CDiv(a, b)
  }
}
