/**
 * The geometry of `layoutDrawables`: N equal circles (1 <= N <= 5) packed in
 * a square of side `size`. The radius and the vertical offset of the packing
 * come from closed formulas; slot 0 sits at a start point and every further
 * slot is the previous one turned by 360/N degrees about the pivot
 * (size/2, size/2 + offsetY). Each slot i > 0 carries a gap notch anchored at
 * slot i-1's centre; slot 0 carries one anchored at the last slot's centre
 * once there are more than two slots.
 *
 * Sine, tangent and the rotation of a point are the platform's floating-point
 * routines (`Math.sin`, `Math.tan`, `Matrix.postRotate` with `mapPoints`);
 * they are given to the model as a `Numerics` value.
 */
module RingLayout {
  import opened Graphics

  /** `Math.PI`. */
  const PI: real := 3.141592653589793

  /**
   * `sin` and `tan` of an angle in radians, and `rotate(degrees, pivot, p)`:
   * the point `p` turned clockwise by `degrees` about `pivot`.
   */
  datatype Numerics = Numerics(sin: real -> real, tan: real -> real, rotate: (real, Point, Point) -> Point)

  /** What is true of the real sine and tangent at the angles the N = 3 and N = 5 packings use. */
  predicate SaneFor(num: Numerics, n: int)
    requires n > 0
  {
    && num.sin(PI / n as real) > 0.0
    && num.tan(PI / n as real) > 0.0
    && num.sin((n - 2) as real * PI / (2 * n) as real) > 0.0
  }

  /** The facts about the numerics that every formula below relies on. */
  predicate Sane(num: Numerics)
  {
    num.sin(PI / 4.0) > 0.0 && SaneFor(num, 3) && SaneFor(num, 5)
  }

  /** The shared radius of the N circles. */
  function SteinerRadius(num: Numerics, n: int, size: int): real
    requires Sane(num) && 1 <= n <= 5
  {
    var s := size as real;
    if n == 1 then s * 0.5
    else if n == 2 then s / (2.0 + 2.0 * num.sin(PI / 4.0))
    else if n == 4 then s / 4.0
    else s / (2.0 * (2.0 * num.sin((n - 2) as real * PI / (2 * n) as real) + 1.0))
  }

  /** The vertical shift that centres an odd packing; zero for N = 1, 2 and 4. */
  function OffsetY(num: Numerics, n: int, size: int): real
    requires Sane(num) && 1 <= n <= 5
  {
    if n == 1 || n == 2 || n == 4 then 0.0
    else
      var r := SteinerRadius(num, n, size);
      var sinN := num.sin(PI / n as real);
      // radius of the circle the N circles are inscribed in
      var bigR := r * ((sinN + 1.0) / sinN);
      (size as real - bigR - r * (1.0 + 1.0 / num.tan(PI / n as real))) / 2.0
  }

  /** Slot 0's centre: the top left circle for even N, the top middle one for odd N. */
  function StartPoint(n: int, size: int, r: real): Point
  {
    if n % 2 == 0 then Point(r, r) else Point(size as real * 0.5, r)
  }

  /** The centre the slots are turned about. */
  function Pivot(size: int, offsetY: real): Point
  {
    Point(size as real * 0.5, size as real * 0.5 + offsetY)
  }

  /** `p` turned `k` times by `degrees` about `pivot`: the layout matrix after `k` rotations. */
  function Rotated(num: Numerics, degrees: real, pivot: Point, k: nat, p: Point): Point
    decreases k
  {
    if k == 0 then p else num.rotate(degrees, pivot, Rotated(num, degrees, pivot, k - 1, p))
  }

  /** The centre of slot `i` of `n`. */
  function CenterAt(num: Numerics, n: int, size: int, i: nat): Point
    requires Sane(num) && 1 <= n <= 5
  {
    var r := SteinerRadius(num, n, size);
    Rotated(num, 360.0 / n as real, Pivot(size, OffsetY(num, n, size)), i, StartPoint(n, size, r))
  }

  /** The part of a slot record the layout computes. */
  datatype Placement = Placement(center: Point, hasGap: bool, gapCenter: Point)

  /** A record's placement after `reset()`. */
  const Unplaced: Placement := Placement(Origin, false, Origin)

  /** The placement of slot `i` of `n` after a layout of content size `size`. */
  function SlotPlacement(num: Numerics, n: int, size: int, i: nat): Placement
    requires Sane(num) && 1 <= n <= 5 && i < n
  {
    if i > 0 then Placement(CenterAt(num, n, size, i), true, CenterAt(num, n, size, i - 1))
    else if n > 2 then Placement(CenterAt(num, n, size, 0), true, CenterAt(num, n, size, n - 1))
    else Placement(CenterAt(num, n, size, 0), false, Origin)
  }

  /**
   * Slot `j` of a ring whose centres are `centers`, as the layout loop leaves
   * it: notched at its predecessor's centre past the first slot.
   */
  function Chained(centers: seq<Point>, j: nat): Placement
    requires j < |centers|
  {
    Placement(centers[j], j > 0, if j > 0 then centers[j - 1] else Origin)
  }

  /**
   * The loop's chain over the ring's centres, with the first slot then notched
   * at the last past two slots, is the layout's placement of every slot.
   */
  lemma ChainedIsSlotPlacement(num: Numerics, n: int, size: int, centers: seq<Point>)
    requires Sane(num) && 1 <= n <= 5 && |centers| == n
    requires forall k :: 0 <= k < n ==>
      centers[k] == Rotated(num, 360.0 / n as real, Pivot(size, OffsetY(num, n, size)), k, StartPoint(n, size, SteinerRadius(num, n, size)))
    ensures forall j :: 0 <= j < n ==>
      SlotPlacement(num, n, size, j) == if j == 0 && n > 2 then Placement(centers[0], true, centers[n - 1]) else Chained(centers, j)
  {
  }

  /** Each slot after the first has a notch anchored at its predecessor's centre. */
  lemma GapAnchoredAtPredecessor(num: Numerics, n: int, size: int, i: nat)
    requires Sane(num) && 1 <= n <= 5 && 0 < i < n
    ensures SlotPlacement(num, n, size, i).hasGap
    ensures SlotPlacement(num, n, size, i).gapCenter == SlotPlacement(num, n, size, i - 1).center
  {
  }

  /** The first slot is notched by the last one exactly when there are more than two slots. */
  lemma RingClosesAfterTwo(num: Numerics, n: int, size: int)
    requires Sane(num) && 1 <= n <= 5
    ensures SlotPlacement(num, n, size, 0).hasGap <==> n > 2
    ensures n > 2 ==> SlotPlacement(num, n, size, 0).gapCenter == SlotPlacement(num, n, size, n - 1).center
    ensures n <= 2 ==> SlotPlacement(num, n, size, 0).gapCenter == Origin
  {
  }

  /** Slot 0 sits at the start point: (r, r) for even N, (size/2, r) for odd N. */
  lemma FirstSlotAtStart(num: Numerics, n: int, size: int)
    requires Sane(num) && 1 <= n <= 5
    ensures var r := SteinerRadius(num, n, size);
      SlotPlacement(num, n, size, 0).center == if n % 2 == 0 then Point(r, r) else Point(size as real / 2.0, r)
  {
  }

  /** Each slot is its predecessor turned by 360/N degrees about the pivot. */
  lemma NeighbourIsOneTurnOn(num: Numerics, n: int, size: int, i: nat)
    requires Sane(num) && 1 <= n <= 5 && 0 < i < n
    ensures SlotPlacement(num, n, size, i).center
         == num.rotate(360.0 / n as real, Pivot(size, OffsetY(num, n, size)), SlotPlacement(num, n, size, i - 1).center)
  {
  }

  /** A single circle fills the square: radius size/2, centred, no offset, no notch. */
  lemma OneSlotFillsSquare(num: Numerics, size: int)
    requires Sane(num)
    ensures SteinerRadius(num, 1, size) == size as real / 2.0
    ensures OffsetY(num, 1, size) == 0.0
    ensures SlotPlacement(num, 1, size, 0) == Placement(Point(size as real / 2.0, size as real / 2.0), false, Origin)
  {
  }

  /** Four circles are a 2 by 2 grid: radius size/4, no offset, slot 0 in the top left corner. */
  lemma FourSlotsQuarterSquare(num: Numerics, size: int)
    requires Sane(num)
    ensures SteinerRadius(num, 4, size) == size as real / 4.0
    ensures OffsetY(num, 4, size) == 0.0
    ensures SlotPlacement(num, 4, size, 0).center == Point(size as real / 4.0, size as real / 4.0)
  {
  }

  /** Two circles are not shifted either. */
  lemma TwoSlotsNotShifted(num: Numerics, size: int)
    requires Sane(num)
    ensures OffsetY(num, 2, size) == 0.0
  {
  }

  /** A non-empty square gives circles of positive radius. */
  lemma RadiusPositive(num: Numerics, n: int, size: int)
    requires Sane(num) && 1 <= n <= 5 && size > 0
    ensures SteinerRadius(num, n, size) > 0.0
  {
    var s := size as real;
    if n == 2 {
      var den := 2.0 + 2.0 * num.sin(PI / 4.0);
      assert den > 0.0;
      assert s / den > 0.0;
    } else if n == 3 || n == 5 {
      var den := 2.0 * (2.0 * num.sin((n - 2) as real * PI / (2 * n) as real) + 1.0);
      assert den > 0.0;
      assert s / den > 0.0;
    }
  }
}
