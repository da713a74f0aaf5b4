/** Colour values as the WS2812 driver receives them: Go's `color.RGBA`, four 8-bit channels. */
module Pixels {

  /** Go's `uint8`. */
  type Uint8 = x: int | 0 <= x < 256

  /** Go's `uint16`. */
  type Uint16 = x: int | 0 <= x < 0x1_0000

  /** Go's `uint32`. */
  type Uint32 = x: int | 0 <= x < 0x1_0000_0000

  /** Go's conversion `uint8(x)` from a wider integer type: it keeps the low eight bits. */
  function ToUint8(x: int): (b: Uint8)
    ensures 0 <= x < 256 ==> b == x
    ensures (x - b) % 256 == 0
  {
    x % 256
  }

  datatype Rgba = Rgba(r: Uint8, g: Uint8, b: Uint8, a: Uint8)

  /** The pixel `SetLeds` pads a gap with: `color.RGBA{R: 0, G: 0, B: 0, A: 0}`. */
  const OFF := Rgba(0, 0, 0, 0)

  /** `ledsgo.Black`: no light, full alpha. */
  const BLACK := Rgba(0, 0, 0, 255)
}
