/**
 * The rule that places a drawable inside its circular slot
 * (`updateDrawableBounds` of the current view): a square of side 2r for
 * square content or the FIT type, otherwise the drawable's own aspect ratio
 * scaled so that its shorter side spans the slot's diameter, anchored by the
 * fit type; then the box is moved to the slot's centre and rounded.
 */
module DrawableBounds {
  import opened Graphics

  /** How content that is not square is fitted into its circle. */
  datatype FitType = FIT | CENTER | START | END

  /** The cases drawn as the circle's own bounding square. */
  predicate SquareFit(dWidth: int, dHeight: int, fit: FitType)
  {
    dWidth <= 0 || dHeight <= 0 || dWidth == dHeight || fit == FIT
  }

  /** The factor that maps the shorter intrinsic side onto the radius. */
  function Scale(radius: real, dWidth: int, dHeight: int): real
    requires dWidth > 0 && dHeight > 0
  {
    if dWidth > dHeight then radius / dHeight as real else radius / dWidth as real
  }

  /** The drawable's box around the origin, before it is moved to the slot's centre. */
  function Box(radius: real, dWidth: int, dHeight: int, fit: FitType): RectF
  {
    if SquareFit(dWidth, dHeight, fit) then Inset(EmptyF, -radius, -radius)
    else
      var scale := Scale(radius, dWidth, dHeight);
      var b := Inset(EmptyF, -dWidth as real * scale, -dHeight as real * scale);
      if fit == START || fit == END then
        var dir := if fit == START then 1.0 else -1.0;
        Offset(b, (Width(b) * 0.5 - radius) * dir, (Height(b) * 0.5 - radius) * dir)
      else b
  }

  /** The box in content coordinates, before rounding. */
  function BoxAt(radius: real, center: Point, dWidth: int, dHeight: int, fit: FitType): RectF
  {
    Offset(Box(radius, dWidth, dHeight, fit), center.x, center.y)
  }

  /** The bounds handed to the drawable: left and top truncated, right and bottom rounded. */
  function Bounds(radius: real, center: Point, dWidth: int, dHeight: int, fit: FitType): (b: Rect)
    ensures var f := BoxAt(radius, center, dWidth, dHeight, fit);
      && f.left - 1.0 < b.left as real < f.left + 1.0
      && f.top - 1.0 < b.top as real < f.top + 1.0
      && f.right - 0.5 < b.right as real <= f.right + 0.5
      && f.bottom - 0.5 < b.bottom as real <= f.bottom + 0.5
  {
    var f := BoxAt(radius, center, dWidth, dHeight, fit);
    Rect(Trunc(f.left), Trunc(f.top), Round(f.right), Round(f.bottom))
  }

  /** What `updateDrawableBounds` sets: empty bounds while there is no radius yet. */
  function FittedBounds(radius: real, center: Point, dWidth: int, dHeight: int, fit: FitType): Rect
  {
    if radius <= 0.0 then EmptyRect else Bounds(radius, center, dWidth, dHeight, fit)
  }

  /** Square content, unknown sizes and FIT fill exactly the circle's bounding square. */
  lemma SquareFitFillsSlot(radius: real, center: Point, dWidth: int, dHeight: int, fit: FitType)
    requires SquareFit(dWidth, dHeight, fit)
    ensures BoxAt(radius, center, dWidth, dHeight, fit) == SlotSquare(center, radius)
  {
  }

  /**
   * The box around the origin for content that is not square: centred for
   * CENTER, against the top left corner of the circle's square for START and
   * against its bottom right corner for END.
   */
  lemma {:induction false} ScaledBoxShape(radius: real, dWidth: int, dHeight: int, fit: FitType)
    requires !SquareFit(dWidth, dHeight, fit)
    ensures var hw, hh := dWidth as real * Scale(radius, dWidth, dHeight), dHeight as real * Scale(radius, dWidth, dHeight);
      Box(radius, dWidth, dHeight, fit)
        == if fit == START then RectF(-radius, -radius, 2.0 * hw - radius, 2.0 * hh - radius)
           else if fit == END then RectF(radius - 2.0 * hw, radius - 2.0 * hh, radius, radius)
           else RectF(-hw, -hh, hw, hh)
  {
    var s := Scale(radius, dWidth, dHeight);
    var hw, hh := dWidth as real * s, dHeight as real * s;
    assert Inset(EmptyF, -hw, -hh) == RectF(-hw, -hh, hw, hh);
  }

  /**
   * Otherwise the box keeps the drawable's aspect ratio and its shorter side
   * is the circle's diameter.
   */
  lemma {:induction false} ScaledFitShape(radius: real, center: Point, dWidth: int, dHeight: int, fit: FitType)
    requires !SquareFit(dWidth, dHeight, fit)
    ensures var b := BoxAt(radius, center, dWidth, dHeight, fit);
      && Width(b) == 2.0 * dWidth as real * Scale(radius, dWidth, dHeight)
      && Height(b) == 2.0 * dHeight as real * Scale(radius, dWidth, dHeight)
      && Width(b) * dHeight as real == Height(b) * dWidth as real
      && (if dWidth < dHeight then Width(b) else Height(b)) == 2.0 * radius
  {
    ScaledBoxShape(radius, dWidth, dHeight, fit);
    var s := Scale(radius, dWidth, dHeight);
    var w, h := dWidth as real, dHeight as real;
    if dWidth > dHeight {
      assert h * s == radius;
    } else {
      assert w * s == radius;
    }
    assert (2.0 * w * s) * h == (2.0 * h * s) * w;
  }

  /** CENTER keeps the box centred on the slot. */
  lemma CenterFitIsCentred(radius: real, center: Point, dWidth: int, dHeight: int)
    ensures var b := BoxAt(radius, center, dWidth, dHeight, CENTER);
      b.left + b.right == 2.0 * center.x && b.top + b.bottom == 2.0 * center.y
  {
  }

  /** START and END move the centred box by opposite amounts. */
  lemma StartEndAreOpposite(radius: real, center: Point, dWidth: int, dHeight: int)
    requires dWidth > 0 && dHeight > 0 && dWidth != dHeight
    ensures var c := BoxAt(radius, center, dWidth, dHeight, CENTER);
      var dx, dy := Width(c) * 0.5 - radius, Height(c) * 0.5 - radius;
      && BoxAt(radius, center, dWidth, dHeight, START) == Offset(c, dx, dy)
      && BoxAt(radius, center, dWidth, dHeight, END) == Offset(c, -dx, -dy)
  {
  }

  /** START lines the box up with the top left corner of the circle's bounding square. */
  lemma StartAnchorsTopLeft(radius: real, center: Point, dWidth: int, dHeight: int)
    requires dWidth > 0 && dHeight > 0 && dWidth != dHeight
    ensures var b := BoxAt(radius, center, dWidth, dHeight, START);
      b.left == center.x - radius && b.top == center.y - radius
  {
  }

  /** END lines the box up with the bottom right corner of the circle's bounding square. */
  lemma EndAnchorsBottomRight(radius: real, center: Point, dWidth: int, dHeight: int)
    requires dWidth > 0 && dHeight > 0 && dWidth != dHeight
    ensures var b := BoxAt(radius, center, dWidth, dHeight, END);
      b.right == center.x + radius && b.bottom == center.y + radius
  {
  }

  /** Scaled by `Scale`, both intrinsic sides reach at least the radius. */
  lemma {:induction false} ScaledSidesReachRadius(radius: real, dWidth: int, dHeight: int)
    requires radius >= 0.0 && dWidth > 0 && dHeight > 0
    ensures dWidth as real * Scale(radius, dWidth, dHeight) >= radius
    ensures dHeight as real * Scale(radius, dWidth, dHeight) >= radius
  {
    var s := Scale(radius, dWidth, dHeight);
    var w, h := dWidth as real, dHeight as real;
    assert s >= 0.0;
    if dWidth > dHeight {
      assert h * s == radius;
      assert w * s >= h * s;
    } else {
      assert w * s == radius;
      assert h * s >= w * s;
    }
  }

  /** Whatever the fit type, the content covers the whole circle. */
  lemma BoxCoversSlot(radius: real, center: Point, dWidth: int, dHeight: int, fit: FitType)
    requires radius >= 0.0
    ensures var b := BoxAt(radius, center, dWidth, dHeight, fit);
      var sq := SlotSquare(center, radius);
      b.left <= sq.left && b.top <= sq.top && sq.right <= b.right && sq.bottom <= b.bottom
  {
    if !SquareFit(dWidth, dHeight, fit) {
      ScaledSidesReachRadius(radius, dWidth, dHeight);
      ScaledBoxShape(radius, dWidth, dHeight, fit);
    }
  }
}
