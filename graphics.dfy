/**
 * The display vocabulary shared by the programs: 8-bit colour channels, the
 * colours the programs use, and one `SetPixel` call.
 */
module Graphics {
  /** A `uint8_t` colour channel. */
  newtype Byte = b: int | 0 <= b < 256

  datatype Color = Color(r: Byte, g: Byte, b: Byte)

  /** Two entries of the Material Design palette. */
  const MaterialRed: Color := Color(244, 67, 54)
  const MaterialBlue: Color := Color(33, 150, 243)

  /** One `SetPixel(x, y, r, g, b)` call on the display. */
  datatype Pixel = Pixel(x: int, y: int, color: Color)
}
