/** The per-slot record of the current view (`DrawableInfo`). */
module SlotInfo {
  import opened Graphics
  import opened RingLayout

  /** A record's state as a value: its id, its drawable and its placement. */
  datatype SlotRecord = SlotRecord(id: int, drawable: Drawable?, placement: Placement)

  /** The state `reset()` leaves: id and drawable kept, placement cleared. */
  function Cleared(r: SlotRecord): SlotRecord
  {
    r.(placement := Unplaced)
  }

  /** Resetting twice is resetting once. */
  lemma ClearedIdempotent(r: SlotRecord)
    ensures Cleared(Cleared(r)) == Cleared(r)
    ensures Cleared(r).id == r.id && Cleared(r).drawable == r.drawable
  {
  }

  /**
   * One slot: the id it was added with, its drawable, its centre and the
   * centre of the gap notch cut into it (`mId`, `mDrawable`, `mCenterX`,
   * `mCenterY`, `mGapCenterX`, `mGapCenterY`, `mHasGap`).
   */
  class DrawableInfo {
    var id: int
    var drawable: Drawable?
    var centerX: real
    var centerY: real
    var gapCenterX: real
    var gapCenterY: real
    var hasGap: bool

    /** A fresh record: no id, no drawable, nothing placed. */
    constructor ()
      ensures id == NO_ID && drawable == null
      ensures Geometry() == Unplaced
    {
      id := NO_ID;
      drawable := null;
      centerX, centerY := 0.0, 0.0;
      gapCenterX, gapCenterY := 0.0, 0.0;
      hasGap := false;
    }

    function Center(): Point
      reads this
    {
      Point(centerX, centerY)
    }

    function Geometry(): Placement
      reads this
    {
      Placement(Point(centerX, centerY), hasGap, Point(gapCenterX, gapCenterY))
    }

    function Record(): SlotRecord
      reads this
    {
      SlotRecord(id, drawable, Geometry())
    }

    /** Clears the placement and keeps the id and the drawable. */
    method Reset()
      modifies this
      ensures Record() == Cleared(old(Record()))
    {
      centerX := 0.0;
      centerY := 0.0;
      gapCenterX := 0.0;
      gapCenterY := 0.0;
      hasGap := false;
    }
  }
}
