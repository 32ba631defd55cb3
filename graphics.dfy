/**
 * Stand-ins for the few Android platform types the view relies on: points,
 * the float rectangle `RectF` and its in-place operations (as functions on
 * values), the integer rectangle `Rect`, the float-to-int conversions, and a
 * `Drawable` reduced to what the view reads and writes.
 */
module Graphics {

  /** `View.NO_ID`: the id of a slot added without one. */
  const NO_ID: int := -1

  datatype Point = Point(x: real, y: real)

  const Origin: Point := Point(0.0, 0.0)

  /** `min` on integers. */
  function Min(a: int, b: int): (m: int)
    ensures m <= a && m <= b && (m == a || m == b)
  {
    if a < b then a else b
  }

  /** `android.graphics.RectF`, with coordinates as reals. */
  datatype RectF = RectF(left: real, top: real, right: real, bottom: real)

  /** The rectangle `RectF.setEmpty()` leaves behind. */
  const EmptyF: RectF := RectF(0.0, 0.0, 0.0, 0.0)

  /** `RectF.inset(dx, dy)`: moves every side inwards (outwards for negative values). */
  function Inset(b: RectF, dx: real, dy: real): RectF
  {
    RectF(b.left + dx, b.top + dy, b.right - dx, b.bottom - dy)
  }

  /** `RectF.offset(dx, dy)`: translates the rectangle. */
  function Offset(b: RectF, dx: real, dy: real): RectF
  {
    RectF(b.left + dx, b.top + dy, b.right + dx, b.bottom + dy)
  }

  function Width(b: RectF): real { b.right - b.left }

  function Height(b: RectF): real { b.bottom - b.top }

  /** The bounding square of the circle of radius `radius` around `center`. */
  function SlotSquare(center: Point, radius: real): (sq: RectF)
    ensures Width(sq) == 2.0 * radius && Height(sq) == 2.0 * radius
    ensures sq.left + sq.right == 2.0 * center.x && sq.top + sq.bottom == 2.0 * center.y
  {
    RectF(center.x - radius, center.y - radius, center.x + radius, center.y + radius)
  }

  /** `android.graphics.Rect`. */
  datatype Rect = Rect(left: int, top: int, right: int, bottom: int)

  const EmptyRect: Rect := Rect(0, 0, 0, 0)

  /** `Float.toInt()`: drops the fraction, rounding toward zero. */
  function Trunc(x: real): (n: int)
    ensures 0.0 <= x ==> 0 <= n && n as real <= x < n as real + 1.0
    ensures x < 0.0 ==> n <= 0 && n as real - 1.0 < x <= n as real
  {
    if x >= 0.0 then x.Floor else -((-x).Floor)
  }

  /** `Float.roundToInt()`: the nearest integer, halves rounded up. */
  function Round(x: real): (n: int)
    ensures n as real - 0.5 <= x < n as real + 0.5
  {
    (x + 0.5).Floor
  }

  /**
   * An image the view shows. Its intrinsic size is fixed; the view writes its
   * bounds (`setBounds`).
   */
  class Drawable {
    const intrinsicWidth: int
    const intrinsicHeight: int
    var bounds: Rect

    constructor (intrinsicWidth: int, intrinsicHeight: int)
      ensures this.intrinsicWidth == intrinsicWidth && this.intrinsicHeight == intrinsicHeight
      ensures bounds == EmptyRect
    {
      this.intrinsicWidth := intrinsicWidth;
      this.intrinsicHeight := intrinsicHeight;
      bounds := EmptyRect;
    }
  }
}
