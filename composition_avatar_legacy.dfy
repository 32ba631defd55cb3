/**
 * The older view (`CompositionAvatarView.java`): the same bounded, id-keyed
 * slot list and ring layout, but each slot record keeps its own square
 * bounds, replacing a drawable neither refits nor redraws anything, and a
 * drawable leaving a slot is always detached.
 */
module CompositionAvatarLegacy {
  import opened Wrappers
  import opened Graphics
  import opened AvatarConfig
  import opened SlotList
  import opened RingLayout

  /**
   * One slot (`AvatarDrawable`): the id it was added with, its drawable, its
   * centre, the centre of its gap notch and the square its drawable is drawn
   * in (`mBounds`).
   */
  class AvatarDrawable {
    var id: int
    var drawable: Drawable?
    var centerX: real
    var centerY: real
    var gapCenterX: real
    var gapCenterY: real
    var haveGap: bool
    var bounds: RectF

    /** A fresh record: no id, no drawable, nothing placed, empty bounds. */
    constructor ()
      ensures id == NO_ID && drawable == null
      ensures Geometry() == Unplaced && bounds == EmptyF
    {
      id := NO_ID;
      drawable := null;
      centerX, centerY := 0.0, 0.0;
      gapCenterX, gapCenterY := 0.0, 0.0;
      haveGap := false;
      bounds := EmptyF;
    }

    function Center(): Point
      reads this
    {
      Point(centerX, centerY)
    }

    function Geometry(): Placement
      reads this
    {
      Placement(Point(centerX, centerY), haveGap, Point(gapCenterX, gapCenterY))
    }

    /** `reset()`: clears the placement and the bounds, keeps the id and the drawable. */
    method Reset()
      modifies this
      ensures id == old(id) && drawable == old(drawable)
      ensures Geometry() == Unplaced && bounds == EmptyF
    {
      centerX := 0.0;
      centerY := 0.0;
      gapCenterX := 0.0;
      gapCenterY := 0.0;
      haveGap := false;
      bounds := EmptyF;
    }

    /**
     * `mBounds.inset(-r, -r)` then `mBounds.offset(centerX, centerY)` on
     * emptied bounds: the circle's bounding square.
     */
    method SquareBounds(r: real)
      requires bounds == EmptyF
      modifies this`bounds
      ensures bounds == SlotSquare(Center(), r)
    {
      bounds := Inset(bounds, -r, -r);
      bounds := Offset(bounds, centerX, centerY);
      InsetOffsetIsSlotSquare(Center(), r);
    }
  }

  /**
   * What `reset()` followed by `inset(-r, -r)` and `offset(cx, cy)` leaves in
   * `mBounds`: the circle's bounding square.
   */
  lemma InsetOffsetIsSlotSquare(center: Point, r: real)
    ensures Offset(Inset(EmptyF, -r, -r), center.x, center.y) == SlotSquare(center, r)
  {
  }

  /** A slot record's fields as a value. */
  datatype RecordState = RecordState(id: int, drawable: Drawable?, geometry: Placement, bounds: RectF)

  /** The fields of the records `ss`, in order. */
  ghost function RecordStates(ss: seq<AvatarDrawable>): (rs: seq<RecordState>)
    reads set x | x in ss
    ensures |rs| == |ss|
    ensures forall j :: 0 <= j < |ss| ==> rs[j] == RecordState(ss[j].id, ss[j].drawable, ss[j].Geometry(), ss[j].bounds)
    decreases |ss|
  {
    if ss == [] then []
    else [RecordState(ss[0].id, ss[0].drawable, ss[0].Geometry(), ss[0].bounds)] + RecordStates(ss[1..])
  }

  /** The view's mutable state as a value. */
  datatype ViewState = ViewState(
    slots: seq<AvatarDrawable>, records: seq<RecordState>, points: seq<real>,
    contentSize: int, radius: real, offsetY: real, gap: real, width: int, height: int,
    invalidated: bool, attached: set<Drawable?>)

  class CompositionAvatarView {
    /** `mDrawables`, in the order the drawables were added. */
    var slots: seq<AvatarDrawable>
    /** The list as entries (record, id, drawable), kept in step with `slots`. */
    ghost var entries: seq<Entry<AvatarDrawable>>
    /** `mPointsTemp`: the point the layout maps, which ends up as the last slot's centre. */
    const pointsTemp: array<real>
    var contentSize: int
    var radius: real
    var offsetY: real
    var gap: real
    var width: int
    var height: int
    const paddingLeft: int
    const paddingTop: int
    const paddingRight: int
    const paddingBottom: int
    /** The platform's sine, tangent and rotation. */
    const num: Numerics
    /** Set by `invalidate()`: a redraw has been requested. */
    ghost var invalidated: bool
    /** The drawables whose callback is this view. */
    ghost var attached: set<Drawable?>

    ghost predicate Valid()
      reads this`slots, this`entries, this`gap, slots
    {
      && pointsTemp.Length == 2
      && |slots| == |entries| <= MAX_DRAWABLE_COUNT
      && (forall j :: 0 <= j < |slots| ==> entries[j] == Entry(slots[j], slots[j].id, slots[j].drawable))
      && WellFormed(entries)
      && 0.0 <= gap <= 1.0
      && Sane(num)
    }

    /** The slot records. */
    ghost function Records(): set<AvatarDrawable>
      reads this`entries
    {
      set j | 0 <= j < |entries| :: entries[j].slot
    }

    /** The content side the layout measures: the smaller side inside the padding. */
    function MeasuredContentSize(): int
      reads this`width, this`height
    {
      Min(width - paddingLeft - paddingRight, height - paddingTop - paddingBottom)
    }

    /** The slot `addDrawable` replaces into: none for `NO_ID`, which skips the lookup. */
    ghost function SlotIndexOf(id: int): Option<nat>
      reads this`entries
    {
      if id == NO_ID then None else IndexOfId(entries, id)
    }

    /**
     * Every slot is where the ring layout puts it, and its bounds are its
     * circle's bounding square.
     */
    ghost predicate Placed()
      reads this`entries, this`radius, this`offsetY, this`contentSize, Records()
    {
      var n := |entries|;
      && 1 <= n <= MAX_DRAWABLE_COUNT && Sane(num)
      && radius == SteinerRadius(num, n, contentSize)
      && offsetY == OffsetY(num, n, contentSize)
      && forall i :: 0 <= i < n ==>
        && entries[i].slot.Geometry() == SlotPlacement(num, n, contentSize, i)
        && entries[i].slot.bounds == SlotSquare(entries[i].slot.Center(), radius)
    }

    /** The state a layout leaves: the placed ring, or no radius and no offset. */
    ghost predicate LaidOut()
      reads this`entries, this`radius, this`offsetY, this`contentSize, Records()
    {
      if contentSize > 0 && |entries| > 0 then Placed() else radius == 0.0 && offsetY == 0.0
    }

    /** Every field of the view and of its slot records, and the points buffer, as a value. */
    ghost function State(): ViewState
      reads this, pointsTemp, slots
    {
      ViewState(slots, RecordStates(slots), pointsTemp[..], contentSize, radius, offsetY, gap, width, height,
                invalidated, attached)
    }

    /** Nothing the view owns has changed. */
    twostate predicate Untouched()
      reads this, pointsTemp, slots
    {
      old(State()) == State() && entries == old(entries)
    }

    /** `init`: the gap comes from the attributes, clamped. */
    constructor (num: Numerics, gapAttribute: Option<real>,
                 paddingLeft: int, paddingTop: int, paddingRight: int, paddingBottom: int)
      requires Sane(num)
      ensures Valid() && entries == [] && attached == {} && fresh(pointsTemp)
      ensures gap == ConfiguredGap(gapAttribute)
      ensures radius == 0.0 && offsetY == 0.0 && contentSize == 0 && width == 0 && height == 0
    {
      slots := [];
      entries := [];
      pointsTemp := new real[2];
      contentSize := 0;
      radius := 0.0;
      offsetY := 0.0;
      gap := ConfiguredGap(gapAttribute);
      width, height := 0, 0;
      this.paddingLeft, this.paddingTop := paddingLeft, paddingTop;
      this.paddingRight, this.paddingBottom := paddingRight, paddingBottom;
      this.num := num;
      invalidated := false;
      attached := {};
    }

    method Invalidate()
      modifies this`invalidated
      ensures invalidated
    {
      invalidated := true;
    }

    /** `setGap`: stores the clamped value, and requests a redraw only when it changes. */
    method SetGap(g: real)
      requires Valid()
      modifies this`gap, this`invalidated
      ensures Valid()
      ensures gap == ClampGap(g)
      ensures old(gap) == ClampGap(g) ==> unchanged(this)
      ensures old(gap) != ClampGap(g) ==> invalidated
    {
      var clamped := ClampGap(g);
      if gap != clamped {
        gap := clamped;
        Invalidate();
      }
    }

    /** `getNumberOfDrawables`. */
    function NumberOfDrawables(): (n: int)
      reads this, slots
      requires Valid()
      ensures 0 <= n <= MAX_DRAWABLE_COUNT && n == |entries|
    {
      |slots|
    }

    /** `getDrawableSize`: the slot diameter, rounded. */
    function DrawableSize(): (s: int)
      reads this
      ensures s as real - 0.5 <= 2.0 * radius < s as real + 0.5
    {
      Round(radius * 2.0)
    }

    /** `getDrawableAt`: an index outside the list is the caller's error. */
    function GetDrawableAt(index: int): (d: Drawable?)
      reads this, slots
      requires Valid() && 0 <= index < |slots|
      ensures d != null && d == entries[index].drawable
    {
      slots[index].drawable
    }

    /** `findDrawableById`: the drawable of the first slot with this id, `NO_ID` included. */
    method FindDrawableById(id: int) returns (d: Drawable?)
      requires Valid()
      ensures IndexOfId(entries, id).None? ==> d == null
      ensures IndexOfId(entries, id).Some? ==> d != null && d == entries[IndexOfId(entries, id).value].drawable
    {
      var i := 0;
      while i < |slots|
        invariant 0 <= i <= |slots|
        invariant forall j :: 0 <= j < i ==> slots[j].id != id
      {
        if slots[i].id == id {
          return slots[i].drawable;
        }
        i := i + 1;
      }
      return null;
    }

    /** `findAvatarDrawableById`: the first slot with this id, `NO_ID` included. */
    method FindAvatarDrawableById(id: int) returns (info: AvatarDrawable?)
      requires Valid()
      ensures IndexOfId(entries, id).None? ==> info == null
      ensures IndexOfId(entries, id).Some? ==> info == slots[IndexOfId(entries, id).value] && info.id == id
    {
      var i := 0;
      while i < |slots|
        invariant 0 <= i <= |slots|
        invariant forall j :: 0 <= j < i ==> slots[j].id != id
      {
        if slots[i].id == id {
          return slots[i];
        }
        i := i + 1;
      }
      return null;
    }

    /** `crateAvatarDrawable`: a fresh record for a new slot. */
    method CreateAvatarDrawable(id: int, d: Drawable) returns (info: AvatarDrawable)
      ensures fresh(info)
      ensures info.id == id && info.drawable == d && info.Geometry() == Unplaced && info.bounds == EmptyF
    {
      info := new AvatarDrawable();
      info.id := id;
      info.drawable := d;
    }

    /**
     * One pass of the layout loop over the slot `info` at index `i`: the record
     * is reset, notched at the point the previous pass left in `pointsTemp`
     * (none for the first slot), centred at the start point mapped by the layout
     * matrix with one more turn composed into it (the first slot is not mapped),
     * and its bounds become its circle's bounding square.
     */
    method PlaceSlot(info: AvatarDrawable, i: nat, r: real, start: Point, degrees: real, pivot: Point, turns: nat)
      returns (turns': nat)
      requires pointsTemp.Length == 2
      modifies info, pointsTemp
      ensures turns' == if i > 0 then turns + 1 else turns
      ensures info.id == old(info.id) && info.drawable == old(info.drawable)
      ensures info.Geometry()
        == Placement(if i > 0 then Rotated(num, degrees, pivot, turns', start) else start, i > 0,
                     if i > 0 then old(Point(pointsTemp[0], pointsTemp[1])) else Origin)
      ensures Point(pointsTemp[0], pointsTemp[1]) == info.Center()
      ensures info.bounds == SlotSquare(info.Center(), r)
    {
      turns' := turns;
      info.Reset();
      info.haveGap := i > 0;
      if info.haveGap {
        info.gapCenterX := pointsTemp[0];
        info.gapCenterY := pointsTemp[1];
      }
      pointsTemp[0] := start.x;
      pointsTemp[1] := start.y;
      if i > 0 {
        turns' := turns + 1;
        var p := Rotated(num, degrees, pivot, turns', Point(pointsTemp[0], pointsTemp[1]));
        pointsTemp[0] := p.x;
        pointsTemp[1] := p.y;
      }
      info.centerX := pointsTemp[0];
      info.centerY := pointsTemp[1];
      info.SquareBounds(r);
    }

    /**
     * The loop of `layoutDrawables`: with the layout matrix reset, every slot
     * is centred at the start point turned once more than its predecessor's
     * centre (`centers` lists those points), notched at its predecessor's
     * centre past slot 0, and given its circle's bounding square; past two
     * slots, slot 0 is then notched at the last one's centre.
     */
    method PlaceRing(n: int, r: real, start: Point, degrees: real, pivot: Point, ghost centers: seq<Point>)
      requires pointsTemp.Length == 2 && n == |slots| == |entries| == |centers| && 1 <= n
      requires forall k :: 0 <= k < n ==> centers[k] == Rotated(num, degrees, pivot, k, start)
      requires forall j :: 0 <= j < n ==> slots[j] == entries[j].slot
      requires forall j, k :: 0 <= j < k < n ==> slots[j] != slots[k]
      modifies pointsTemp, slots
      ensures forall j :: 0 <= j < n ==> slots[j].id == old(slots[j].id) && slots[j].drawable == old(slots[j].drawable)
      ensures forall j :: 0 < j < n ==> entries[j].slot.Geometry() == Chained(centers, j)
      ensures entries[0].slot.Geometry()
        == if n > 2 then Placement(centers[0], true, centers[n - 1]) else Chained(centers, 0)
      ensures forall j :: 0 <= j < n ==> entries[j].slot.bounds == SlotSquare(entries[j].slot.Center(), r)
    {
      // the layout matrix, as the number of turns composed into it
      var turns: nat := 0;
      var i := 0;
      while i < n
        invariant 0 <= i <= n
        invariant turns == if i == 0 then 0 else i - 1
        invariant forall j :: 0 <= j < n ==> slots[j].id == old(slots[j].id) && slots[j].drawable == old(slots[j].drawable)
        invariant forall j :: 0 <= j < i ==> entries[j].slot.Geometry() == Chained(centers, j)
        invariant forall j :: 0 <= j < i ==> entries[j].slot.bounds == SlotSquare(entries[j].slot.Center(), r)
        invariant i > 0 ==> Point(pointsTemp[0], pointsTemp[1]) == centers[i - 1]
      {
        turns := PlaceSlot(slots[i], i, r, start, degrees, pivot, turns);
        i := i + 1;
      }
      if n > 2 {
        var first := slots[0];
        var last := slots[n - 1];
        first.haveGap := true;
        first.gapCenterX := last.centerX;
        first.gapCenterY := last.centerY;
      }
    }

    /**
     * The non-degenerate branch of `layoutDrawables`: the radius and offset of
     * the packing for the current slots, every slot placed, and the radius
     * stored last.
     */
    method LayOutRing()
      requires Valid() && contentSize > 0 && |entries| > 0
      modifies this`radius, this`offsetY, pointsTemp, slots
      ensures Valid()
      ensures Placed()
    {
      var n := |slots|;
      var r := SteinerRadius(num, n, contentSize);
      offsetY := OffsetY(num, n, contentSize);
      var start := StartPoint(n, contentSize, r);
      var pivot := Pivot(contentSize, offsetY);
      var degrees := 360.0 / n as real;
      ghost var centers := seq(n, k requires 0 <= k < n => Rotated(num, degrees, pivot, k, start));
      assert forall j, k :: 0 <= j < k < n ==> slots[j] != slots[k] by {
        assert DistinctSlots(entries);
      }
      PlaceRing(n, r, start, degrees, pivot, centers);
      radius := r;
      ChainedIsSlotPlacement(num, n, contentSize, centers);
    }

    /** `layoutDrawables`: lays every slot out on the ring again. */
    method LayoutDrawables()
      requires Valid()
      modifies this`radius, this`offsetY, this`contentSize, this`invalidated, pointsTemp, slots
      ensures Valid() && entries == old(entries)
      ensures contentSize == MeasuredContentSize()
      ensures LaidOut()
      ensures !(contentSize > 0 && |entries| > 0) ==>
        forall x :: x in slots ==> x.Geometry() == old(x.Geometry()) && x.bounds == old(x.bounds)
      ensures invalidated
    {
      radius := 0.0;
      offsetY := 0.0;
      contentSize := MeasuredContentSize();
      if contentSize > 0 && |slots| > 0 {
        LayOutRing();
      }
      Invalidate();
    }

    /**
     * The replacing branch of `addDrawable(id, drawable)`: the slot at `k`
     * takes `d` and the drawable it held is detached, whether or not another
     * slot still holds it; then `d` is attached. Nothing else changes: no
     * layout, no new bounds, no redraw.
     */
    method ReplaceDrawable(info: AvatarDrawable, ghost k: nat, d: Drawable)
      requires Valid() && k < |entries| && info == slots[k]
      modifies this`entries, this`attached, info
      ensures Valid() && slots == old(slots)
      ensures entries == old(entries)[k := old(entries)[k].(drawable := d)]
      ensures forall j :: 0 <= j < |slots| ==>
        slots[j].Geometry() == old(slots[j].Geometry()) && slots[j].bounds == old(slots[j].bounds)
      ensures attached == ReattachAlways(old(attached), old(entries), k, d)
    {
      ReplaceWellFormed(entries, k, d);
      // old.mDrawable.setCallback(null)
      attached := attached - {info.drawable};
      info.drawable := d;
      entries := entries[k := entries[k].(drawable := d)];
      // drawable.setCallback(this)
      attached := attached + {d};
    }

    /**
     * The appending branch of `addDrawable(id, drawable)`: a new slot with
     * this id and `d` goes at the end, the ring is laid out again and `d` is
     * attached.
     */
    method AppendSlot(id: int, d: Drawable)
      requires Valid() && |entries| < MAX_DRAWABLE_COUNT && SlotIndexOf(id).None?
      modifies this`slots, this`entries, this`radius, this`offsetY, this`contentSize, this`invalidated, this`attached
      modifies pointsTemp, slots
      ensures Valid()
      ensures |entries| == old(|entries|) + 1 && entries[..old(|entries|)] == old(entries)
      ensures var e := entries[old(|entries|)]; fresh(e.slot) && e.id == id && e.drawable == d
      ensures contentSize == MeasuredContentSize() && LaidOut() && invalidated
      ensures attached == old(attached) + {d}
      ensures !(contentSize > 0 && |entries| > 0) ==>
        && (forall x :: x in old(slots) ==> x.Geometry() == old(x.Geometry()) && x.bounds == old(x.bounds))
        && entries[old(|entries|)].slot.Geometry() == Unplaced && entries[old(|entries|)].slot.bounds == EmptyF
    {
      var info := CreateAvatarDrawable(id, d);
      AppendWellFormed(entries, Entry(info, id, d));
      slots := slots + [info];
      entries := entries + [Entry(info, id, d)];
      // the source attaches `d` after the layout; the layout neither reads
      // nor writes the callbacks, so attaching first leaves the same state
      attached := attached + {d};
      LayoutDrawables();
    }

    /**
     * `addDrawable(id, drawable)`: under an id other than `NO_ID` that some
     * slot already has, that slot takes the new drawable; otherwise a slot is
     * appended and the ring laid out again, unless the list is full, in which
     * case nothing happens.
     */
    method AddDrawableWithId(id: int, d: Drawable)
      requires Valid()
      modifies this`slots, this`entries, this`radius, this`offsetY, this`contentSize, this`invalidated, this`attached
      modifies pointsTemp, slots
      ensures Valid()
      ensures old(SlotIndexOf(id)).None? && old(|entries|) >= MAX_DRAWABLE_COUNT ==> Untouched()
      ensures old(SlotIndexOf(id)).Some? ==>
        var k := old(SlotIndexOf(id)).value;
        && entries == old(entries)[k := old(entries)[k].(drawable := d)]
        && radius == old(radius) && offsetY == old(offsetY) && contentSize == old(contentSize)
        && invalidated == old(invalidated)
        && (forall j :: 0 <= j < |slots| ==>
              slots[j].Geometry() == old(slots[j].Geometry()) && slots[j].bounds == old(slots[j].bounds))
        && attached == ReattachAlways(old(attached), old(entries), k, d)
      ensures old(SlotIndexOf(id)).None? && old(|entries|) < MAX_DRAWABLE_COUNT ==>
        && |entries| == old(|entries|) + 1 && entries[..old(|entries|)] == old(entries)
        && var e := entries[old(|entries|)];
        && fresh(e.slot) && e.id == id && e.drawable == d
        && contentSize == MeasuredContentSize() && LaidOut() && invalidated
        && attached == old(attached) + {d}
        && (!(contentSize > 0 && |entries| > 0) ==>
              && (forall x :: x in old(slots) ==> x.Geometry() == old(x.Geometry()) && x.bounds == old(x.bounds))
              && e.slot.Geometry() == Unplaced && e.slot.bounds == EmptyF)
    {
      var info: AvatarDrawable? := null;
      if id != NO_ID {
        info := FindAvatarDrawableById(id);
      }
      if info != null {
        ReplaceDrawable(info, SlotIndexOf(id).value, d);
      } else {
        if NumberOfDrawables() >= MAX_DRAWABLE_COUNT {
          return;
        }
        AppendSlot(id, d);
      }
    }

    /** `addDrawable(drawable)`: appends under `NO_ID` unless the list is full. */
    method AddDrawable(d: Drawable)
      requires Valid()
      modifies this`slots, this`entries, this`radius, this`offsetY, this`contentSize, this`invalidated, this`attached
      modifies pointsTemp, slots
      ensures Valid()
      ensures old(|entries|) >= MAX_DRAWABLE_COUNT ==> Untouched()
      ensures old(|entries|) < MAX_DRAWABLE_COUNT ==>
        && |entries| == old(|entries|) + 1
        && entries == old(entries) + [Entry(entries[old(|entries|)].slot, NO_ID, d)]
        && fresh(entries[old(|entries|)].slot)
        && contentSize == MeasuredContentSize() && LaidOut() && invalidated
        && attached == old(attached) + {d}
        && (!(contentSize > 0 && |entries| > 0) ==>
              && (forall x :: x in old(slots) ==> x.Geometry() == old(x.Geometry()) && x.bounds == old(x.bounds))
              && entries[old(|entries|)].slot.Geometry() == Unplaced
              && entries[old(|entries|)].slot.bounds == EmptyF)
    {
      AddDrawableWithId(NO_ID, d);
    }

    /**
     * `removeDrawableAt`: the slot at `index` leaves the list, its drawable is
     * detached even if another slot still holds it, and the ring is laid out
     * again. An index outside the list is the caller's error.
     */
    method RemoveDrawableAt(index: int) returns (r: Drawable?)
      requires Valid() && 0 <= index < |entries|
      modifies this`slots, this`entries, this`radius, this`offsetY, this`contentSize, this`invalidated, this`attached
      modifies pointsTemp, slots
      ensures Valid()
      ensures entries == RemoveAt(old(entries), index)
      ensures forall x :: x in slots ==> x in old(slots)
      ensures r != null && r == old(entries[index].drawable)
      ensures attached == old(attached) - {r}
      ensures attached == DetachAlways(old(attached), old(entries), index)
      ensures contentSize == MeasuredContentSize() && LaidOut() && invalidated
      ensures !(contentSize > 0 && |entries| > 0) ==> forall x :: x in old(slots) ==> x.Geometry() == old(x.Geometry()) && x.bounds == old(x.bounds)
    {
      var info := slots[index];
      RemoveAtWellFormed(entries, index);
      slots := slots[..index] + slots[index + 1..];
      entries := RemoveAt(entries, index);
      // drawable.mDrawable.setCallback(null)
      attached := attached - {info.drawable};
      LayoutDrawables();
      return info.drawable;
    }

    /** `removeDrawableById`: removes the first slot with this id, `NO_ID` included, and returns its drawable. */
    method RemoveDrawableById(id: int) returns (r: Drawable?)
      requires Valid()
      modifies this`slots, this`entries, this`radius, this`offsetY, this`contentSize, this`invalidated, this`attached
      modifies pointsTemp, slots
      ensures Valid()
      ensures IndexOfId(old(entries), id).None? ==> r == null && Untouched()
      ensures IndexOfId(old(entries), id).Some? ==>
        var k := IndexOfId(old(entries), id).value;
        && entries == RemoveAt(old(entries), k) && r == old(entries[k].drawable)
        && attached == old(attached) - {r}
        && contentSize == MeasuredContentSize() && LaidOut() && invalidated
        && (!(contentSize > 0 && |entries| > 0) ==> forall x :: x in old(slots) ==> x.Geometry() == old(x.Geometry()) && x.bounds == old(x.bounds))
    {
      var i := 0;
      while i < |slots|
        invariant 0 <= i <= |slots|
        invariant forall j :: 0 <= j < i ==> entries[j].id != id
      {
        if slots[i].id == id {
          r := RemoveDrawableAt(i);
          return;
        }
        i := i + 1;
      }
      return null;
    }

    /**
     * A step of `removeDrawable` at a slot `i` holding `d`: `removeDrawableAt(i)`
     * on a list whose slots past `i` no longer hold `d`; `attached0` is what
     * the callbacks were before the whole removal, and `records0` what it may
     * change.
     */
    method RemoveHeldAt(i: nat, d: Drawable, ghost es: seq<Entry<AvatarDrawable>>, ghost attached0: set<Drawable?>,
                        ghost records0: set<AvatarDrawable>)
      requires Valid() && i < |es| && i < |slots| && slots[i].drawable == d
      requires entries == es[..i + 1] + Without(es[i + 1..], d)
      requires forall x :: x in slots ==> x in records0
      requires attached == if Holds(es[i + 1..], d) then attached0 - {d} else attached0
      modifies this`slots, this`entries, this`radius, this`offsetY, this`contentSize, this`invalidated, this`attached
      modifies pointsTemp, records0
      ensures Valid()
      ensures entries == es[..i] + Without(es[i..], d) && Holds(es[i..], d)
      ensures forall x :: x in slots ==> x in records0
      ensures attached == attached0 - {d}
      ensures contentSize == MeasuredContentSize() && LaidOut() && invalidated
    {
      assert entries[i] == es[i];
      RemoveHeldStep(es, i, d);
      var _ := RemoveDrawableAt(i);
    }

    /**
     * `removeDrawable`: walking the list from its end, every slot holding `d`
     * is removed; the rest keep their order, and `d` ends up detached.
     */
    method RemoveDrawable(d: Drawable)
      requires Valid()
      modifies this`slots, this`entries, this`radius, this`offsetY, this`contentSize, this`invalidated, this`attached
      modifies pointsTemp, slots
      ensures Valid()
      ensures entries == Without(old(entries), d)
      ensures attached == if Holds(old(entries), d) then old(attached) - {d} else old(attached)
      ensures Holds(old(entries), d) ==> contentSize == MeasuredContentSize() && LaidOut() && invalidated
      ensures !Holds(old(entries), d) ==> Untouched()
    {
      ghost var es := entries;
      ghost var removed := false;
      ghost var records := set x | x in slots;
      ghost var state0 := State();
      var i := |slots|;
      while i > 0
        invariant 0 <= i <= |es| && Valid()
        invariant entries == es[..i] + Without(es[i..], d)
        invariant forall x :: x in slots ==> x in records
        invariant removed == Holds(es[i..], d)
        invariant attached == if removed then old(attached) - {d} else old(attached)
        invariant removed ==> contentSize == MeasuredContentSize() && LaidOut() && invalidated
        invariant !removed ==> entries == es && State() == state0
      {
        i := i - 1;
        if slots[i].drawable == d {
          RemoveHeldAt(i, d, es, old(attached), records);
          removed := true;
        } else {
          assert entries[i] == es[i];
          KeepStep(es, i, d);
        }
      }
      assert es[0..] == es;
    }

    /** `onSizeChanged`: the ring is laid out again for the new size. */
    method OnSizeChanged(w: int, h: int)
      requires Valid()
      modifies this`width, this`height, this`radius, this`offsetY, this`contentSize, this`invalidated
      modifies pointsTemp, slots
      ensures Valid() && entries == old(entries)
      ensures width == w && height == h
      ensures contentSize == MeasuredContentSize() && LaidOut() && invalidated
      ensures !(contentSize > 0 && |entries| > 0) ==> forall x :: x in slots ==> x.Geometry() == old(x.Geometry()) && x.bounds == old(x.bounds)
    {
      width, height := w, h;
      LayoutDrawables();
    }
  }
}
