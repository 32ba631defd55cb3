/**
 * The current view (`CompositionAvatarView.kt`): a bounded, id-keyed list of
 * slots, each holding a drawable; every structural change lays the whole ring
 * out again, and the drawables' bounds follow the radius and the fit type.
 */
module CompositionAvatar {
  import opened Wrappers
  import opened Graphics
  import opened AvatarConfig
  import opened SlotList
  import opened DrawableBounds
  import opened RingLayout
  import opened SlotInfo

  /** The fit types in the order the `fitType` attribute numbers them. */
  const FIT_TYPES: seq<FitType> := [FIT, CENTER, START, END]

  class CompositionAvatarView {
    /** `mDrawables`, in the order the drawables were added. */
    var slots: seq<DrawableInfo>
    /** The list as entries (record, id, drawable), kept in step with `slots`. */
    ghost var entries: seq<Entry<DrawableInfo>>
    /** `mPointsTemp`: the point the layout maps, which ends up as the last slot's centre. */
    const pointsTemp: array<real>
    /** `mContentSize`: the side of the square the ring is laid out in. */
    var contentSize: int
    /** `mSteinerCircleRadius`: the radius all slots share. */
    var radius: real
    /** `mOffsetY`: the vertical shift of the packing. */
    var offsetY: real
    var fitType: FitType
    /** `mGap`: the notch radius beyond the slot radius, as a fraction of it. */
    var gap: real
    var width: int
    var height: int
    const paddingLeft: int
    const paddingTop: int
    const paddingRight: int
    const paddingBottom: int
    /** The platform's sine, tangent and rotation. */
    const num: Numerics
    /** Set by `invalidate()`: a redraw has been requested. */
    ghost var invalidated: bool
    /**
     * The drawables whose callback is this view: `addDrawable` sets it and
     * `cleanDrawable` clears it.
     */
    ghost var attached: set<Drawable?>

    ghost predicate Valid()
      reads this`slots, this`entries, this`gap, slots
    {
      && pointsTemp.Length == 2
      && |slots| == |entries| <= MAX_DRAWABLE_COUNT
      && (forall j :: 0 <= j < |slots| ==> entries[j] == Entry(slots[j], slots[j].id, slots[j].drawable))
      && WellFormed(entries)
      && 0.0 <= gap <= 1.0
      && Sane(num)
    }

    /** The drawables the slots hold. */
    ghost function Held(): set<Drawable?>
      reads this`entries
    {
      set j | 0 <= j < |entries| :: entries[j].drawable
    }

    /** The slot records. */
    ghost function Records(): set<DrawableInfo>
      reads this`entries
    {
      set j | 0 <= j < |entries| :: entries[j].slot
    }

    /** The content side the layout measures: the smaller side inside the padding. */
    function MeasuredContentSize(): int
      reads this`width, this`height
    {
      Min(width - paddingLeft - paddingRight, height - paddingTop - paddingBottom)
    }

    /** The slot index `findAvatarDrawableById` finds: none for `NO_ID`. */
    ghost function SlotIndexOf(id: int): Option<nat>
      reads this`entries
    {
      if id == NO_ID then None else IndexOfId(entries, id)
    }

    /** Every slot is where the ring layout puts it. */
    ghost predicate Placed()
      reads this`entries, this`radius, this`offsetY, this`contentSize, Records()
    {
      var n := |entries|;
      && 1 <= n <= MAX_DRAWABLE_COUNT && Sane(num)
      && radius == SteinerRadius(num, n, contentSize)
      && offsetY == OffsetY(num, n, contentSize)
      && forall i :: 0 <= i < n ==> entries[i].slot.Geometry() == SlotPlacement(num, n, contentSize, i)
    }

    /** No slot in (j, end) holds slot j's drawable. */
    ghost predicate LastHolderBefore(j: int, end: int)
      reads this`entries
      requires 0 <= j < |entries| && end <= |entries|
    {
      forall k :: j < k < end ==> entries[k].drawable != entries[j].drawable
    }

    /**
     * Among the first `end` slots, every drawable carries the bounds fitted to
     * the last of those slots that holds it.
     */
    ghost predicate FittedUpTo(end: int)
      reads this`entries, this`radius, this`fitType, Records(), Held()
      requires end <= |entries|
    {
      forall j :: 0 <= j < end && entries[j].drawable != null && LastHolderBefore(j, end) ==>
        entries[j].drawable.bounds
          == FittedBounds(radius, entries[j].slot.Center(), entries[j].drawable.intrinsicWidth,
                          entries[j].drawable.intrinsicHeight, fitType)
    }

    ghost predicate Fitted()
      reads this`entries, this`radius, this`fitType, Records(), Held()
    {
      FittedUpTo(|entries|)
    }

    /** The state a layout leaves: the ring with fitted bounds, or no radius and no offset. */
    ghost predicate LaidOut()
      reads this`entries, this`radius, this`offsetY, this`contentSize, this`fitType, Records(), Held()
    {
      if contentSize > 0 && |entries| > 0 then Placed() && Fitted() else radius == 0.0 && offsetY == 0.0
    }

    /** Nothing the view owns or holds has changed. */
    twostate predicate Untouched()
      reads this, pointsTemp, slots, Held()
    {
      && unchanged(this) && unchanged(pointsTemp)
      && (forall j :: 0 <= j < |slots| ==> unchanged(slots[j]))
      && (forall x :: x in old(Held()) && x != null ==> unchanged(x))
    }

    /** Android's `init`: the fit type and the clamped gap come from the attributes. */
    constructor (num: Numerics, fitTypeIndex: int, gapAttribute: Option<real>,
                 paddingLeft: int, paddingTop: int, paddingRight: int, paddingBottom: int)
      requires Sane(num) && fitTypeIndex < |FIT_TYPES|
      ensures Valid() && entries == [] && attached == {} && fresh(pointsTemp)
      ensures fitType == if fitTypeIndex >= 0 then FIT_TYPES[fitTypeIndex] else CENTER
      ensures gap == ConfiguredGap(gapAttribute)
      ensures radius == 0.0 && offsetY == 0.0 && contentSize == 0 && width == 0 && height == 0
    {
      slots := [];
      entries := [];
      pointsTemp := new real[2];
      contentSize := 0;
      radius := 0.0;
      offsetY := 0.0;
      fitType := if fitTypeIndex >= 0 then FIT_TYPES[fitTypeIndex] else CENTER;
      gap := ConfiguredGap(gapAttribute);
      width, height := 0, 0;
      this.paddingLeft, this.paddingTop := paddingLeft, paddingTop;
      this.paddingRight, this.paddingBottom := paddingRight, paddingBottom;
      this.num := num;
      invalidated := false;
      attached := {};
    }

    method Invalidate()
      modifies this`invalidated
      ensures invalidated
    {
      invalidated := true;
    }

    /** The `gap` setter: stores the clamped value, and requests a redraw only when it changes. */
    method SetGap(g: real)
      requires Valid()
      modifies this`gap, this`invalidated
      ensures Valid()
      ensures gap == ClampGap(g)
      ensures old(gap) == ClampGap(g) ==> unchanged(this)
      ensures old(gap) != ClampGap(g) ==> invalidated
    {
      var clamped := ClampGap(g);
      if gap != clamped {
        gap := clamped;
        Invalidate();
      }
    }

    /** `numberOfDrawables`. */
    function NumberOfDrawables(): (n: int)
      reads this, slots
      requires Valid()
      ensures 0 <= n <= MAX_DRAWABLE_COUNT && n == |entries|
    {
      |slots|
    }

    /** `drawableSize`: the slot diameter, rounded. */
    function DrawableSize(): (s: int)
      reads this
      ensures s as real - 0.5 <= 2.0 * radius < s as real + 0.5
    {
      Round(radius * 2.0)
    }

    /** `getDrawableAt`: an index outside the list is the caller's error. */
    function GetDrawableAt(index: int): (d: Drawable?)
      reads this, slots
      requires Valid() && 0 <= index < |slots|
      ensures d != null && d == entries[index].drawable
    {
      slots[index].drawable
    }

    /** `findDrawableById`: the drawable of the first slot with this id, `NO_ID` included. */
    method FindDrawableById(id: int) returns (d: Drawable?)
      requires Valid()
      ensures IndexOfId(entries, id).None? ==> d == null
      ensures IndexOfId(entries, id).Some? ==> d != null && d == entries[IndexOfId(entries, id).value].drawable
    {
      var i := 0;
      while i < |slots|
        invariant 0 <= i <= |slots|
        invariant forall j :: 0 <= j < i ==> slots[j].id != id
      {
        if slots[i].id == id {
          return slots[i].drawable;
        }
        i := i + 1;
      }
      return null;
    }

    /** `findAvatarDrawableById`: the first slot with this id; `NO_ID` never matches. */
    method FindAvatarDrawableById(id: int) returns (info: DrawableInfo?)
      requires Valid()
      ensures SlotIndexOf(id).None? ==> info == null
      ensures SlotIndexOf(id).Some? ==> info == slots[SlotIndexOf(id).value] && info.id == id
    {
      if id != NO_ID {
        var i := 0;
        while i < |slots|
          invariant 0 <= i <= |slots|
          invariant forall j :: 0 <= j < i ==> slots[j].id != id
        {
          if slots[i].id == id {
            return slots[i];
          }
          i := i + 1;
        }
      }
      return null;
    }

    /** `hasSameDrawable`: whether some slot holds `d`. */
    method HasSameDrawable(d: Drawable?) returns (found: bool)
      requires Valid()
      ensures found == Holds(entries, d) && found == (d in Held())
    {
      var i := 0;
      while i < |slots|
        invariant 0 <= i <= |slots|
        invariant forall j :: 0 <= j < i ==> slots[j].drawable != d
      {
        if slots[i].drawable == d {
          return true;
        }
        i := i + 1;
      }
      return false;
    }

    /** `cleanDrawable`: detaches the drawable from the view. */
    method CleanDrawable(d: Drawable?)
      modifies this`attached
      ensures attached == old(attached) - {d}
    {
      attached := attached - {d};
    }

    /** `crateAvatarDrawable`: a fresh record for a new slot. */
    method CreateAvatarDrawable(id: int, d: Drawable) returns (info: DrawableInfo)
      ensures fresh(info)
      ensures info.id == id && info.drawable == d && info.Geometry() == Unplaced
    {
      info := new DrawableInfo();
      info.id := id;
      info.drawable := d;
    }

    /** `updateDrawableBounds`: fits the slot's drawable to its circle. */
    method UpdateDrawableBounds(info: DrawableInfo)
      requires radius > 0.0 ==> info.drawable != null
      modifies info.drawable
      ensures info.drawable != null ==>
        info.drawable.bounds
          == FittedBounds(radius, info.Center(), info.drawable.intrinsicWidth, info.drawable.intrinsicHeight, fitType)
    {
      var d := info.drawable;
      if radius <= 0.0 {
        if d != null {
          d.bounds := EmptyRect;
        }
        return;
      }
      var b := BoxAt(radius, info.Center(), d.intrinsicWidth, d.intrinsicHeight, fitType);
      d.bounds := Rect(Trunc(b.left), Trunc(b.top), Round(b.right), Round(b.bottom));
    }

    /**
     * Once slot `i`'s drawable has been fitted, the first `i + 1` slots are:
     * an earlier slot either holds another drawable, left as it was, or shares
     * slot `i`'s, whose last holder is now `i`.
     */
    twostate lemma RefitKeepsEarlierSlots(i: int)
      requires unchanged(this) && 0 <= i < |entries| && old(FittedUpTo(i))
      requires forall j :: 0 <= j < i ==> unchanged(entries[j].slot)
      requires forall j :: 0 <= j < i && entries[j].drawable != null && entries[j].drawable != entries[i].drawable ==>
        unchanged(entries[j].drawable)
      requires entries[i].drawable != null ==>
        entries[i].drawable.bounds
          == FittedBounds(radius, entries[i].slot.Center(), entries[i].drawable.intrinsicWidth,
                          entries[i].drawable.intrinsicHeight, fitType)
      ensures FittedUpTo(i + 1)
    {
      forall j | 0 <= j < i + 1 && entries[j].drawable != null && LastHolderBefore(j, i + 1)
        ensures entries[j].drawable.bounds
          == FittedBounds(radius, entries[j].slot.Center(), entries[j].drawable.intrinsicWidth,
                          entries[j].drawable.intrinsicHeight, fitType)
      {
        if j < i {
          assert entries[j].drawable != entries[i].drawable;
          assert old(LastHolderBefore(j, i));
        }
      }
    }

    /** `setDrawableFitType`: a new type refits every drawable; the current one changes nothing. */
    method SetDrawableFitType(ft: FitType)
      requires Valid()
      modifies this`fitType, this`invalidated, Held()
      ensures Valid()
      ensures ft == old(fitType) ==> Untouched()
      ensures ft != old(fitType) ==> fitType == ft && Fitted() && invalidated
    {
      if fitType != ft {
        fitType := ft;
        var i := 0;
        while i < |slots|
          invariant 0 <= i <= |slots|
          invariant fitType == ft
          invariant FittedUpTo(i)
        {
          label Refit:
          UpdateDrawableBounds(slots[i]);
          RefitKeepsEarlierSlots@Refit(i);
          i := i + 1;
        }
        Invalidate();
      }
    }

    /**
     * Changes that leave every slot's drawable, centre and bounds as they were
     * leave the first `end` slots fitted.
     */
    twostate lemma FittedKept(end: int)
      requires entries == old(entries) && radius == old(radius) && fitType == old(fitType)
      requires 0 <= end <= |entries| && old(FittedUpTo(end))
      requires forall j :: 0 <= j < end ==> entries[j].slot.Center() == old(entries[j].slot.Center())
      requires forall j :: 0 <= j < end && entries[j].drawable != null ==> unchanged(entries[j].drawable)
      ensures FittedUpTo(end)
    {
      forall j | 0 <= j < end && entries[j].drawable != null && LastHolderBefore(j, end)
        ensures entries[j].drawable.bounds
          == FittedBounds(radius, entries[j].slot.Center(), entries[j].drawable.intrinsicWidth,
                          entries[j].drawable.intrinsicHeight, fitType)
      {
        assert old(LastHolderBefore(j, end));
      }
    }

    /**
     * One pass of the layout loop over the slot `info` at index `i`: the record
     * is reset, notched at the point the previous pass left in `pointsTemp`
     * (none for the first slot), centred at the start point mapped by the layout
     * matrix with one more turn composed into it (the first slot is not mapped),
     * and its drawable is fitted there.
     */
    method PlaceSlot(info: DrawableInfo, i: nat, start: Point, degrees: real, pivot: Point, turns: nat)
      returns (turns': nat)
      requires pointsTemp.Length == 2
      requires radius > 0.0 ==> info.drawable != null
      modifies info, pointsTemp, info.drawable
      ensures turns' == if i > 0 then turns + 1 else turns
      ensures info.id == old(info.id) && info.drawable == old(info.drawable)
      ensures info.Geometry()
        == Placement(if i > 0 then Rotated(num, degrees, pivot, turns', start) else start, i > 0,
                     if i > 0 then old(Point(pointsTemp[0], pointsTemp[1])) else Origin)
      ensures Point(pointsTemp[0], pointsTemp[1]) == info.Center()
      ensures info.drawable != null ==>
        info.drawable.bounds
          == FittedBounds(radius, info.Center(), info.drawable.intrinsicWidth, info.drawable.intrinsicHeight, fitType)
    {
      turns' := turns;
      info.Reset();
      info.hasGap := i > 0;
      if info.hasGap {
        info.gapCenterX := pointsTemp[0];
        info.gapCenterY := pointsTemp[1];
      }
      pointsTemp[0] := start.x;
      pointsTemp[1] := start.y;
      if i > 0 {
        turns' := turns + 1;
        var p := Rotated(num, degrees, pivot, turns', Point(pointsTemp[0], pointsTemp[1]));
        pointsTemp[0] := p.x;
        pointsTemp[1] := p.y;
      }
      info.centerX := pointsTemp[0];
      info.centerY := pointsTemp[1];
      UpdateDrawableBounds(info);
    }

    /** Changing slot records other than in their ids and drawables keeps the view valid. */
    twostate lemma ValidKept()
      requires old(Valid()) && slots == old(slots) && entries == old(entries) && gap == old(gap)
      requires forall j :: 0 <= j < |slots| ==> slots[j].id == old(slots[j].id) && slots[j].drawable == old(slots[j].drawable)
      ensures Valid()
    {
    }

    /**
     * One pass of the layout loop, at slot `i` of a ring whose centres are
     * `centers`: the slots before `i` stay placed and fitted, slot `i` is
     * placed and fitted as well, and `pointsTemp` is left at its centre.
     */
    method PlaceNext(i: nat, n: int, start: Point, degrees: real, pivot: Point, ghost centers: seq<Point>, turns: nat)
      returns (turns': nat)
      requires pointsTemp.Length == 2 && n == |slots| == |entries| == |centers| && i < n
      requires forall k :: 0 <= k < n ==> centers[k] == Rotated(num, degrees, pivot, k, start)
      requires forall j :: 0 <= j < n ==>
        slots[j] == entries[j].slot && slots[j].drawable == entries[j].drawable && entries[j].drawable != null
      requires forall j, k :: 0 <= j < k < n ==> slots[j] != slots[k]
      requires turns == if i == 0 then 0 else i - 1
      requires forall j :: 0 <= j < i ==> entries[j].slot.Geometry() == Chained(centers, j)
      requires i > 0 ==> Point(pointsTemp[0], pointsTemp[1]) == centers[i - 1]
      requires FittedUpTo(i)
      modifies pointsTemp, slots[i], slots[i].drawable
      ensures turns' == i
      ensures forall j :: 0 <= j < n ==> slots[j].id == old(slots[j].id) && slots[j].drawable == old(slots[j].drawable)
      ensures forall j :: 0 <= j <= i ==> entries[j].slot.Geometry() == Chained(centers, j)
      ensures Point(pointsTemp[0], pointsTemp[1]) == centers[i]
      ensures FittedUpTo(i + 1)
    {
      label Step:
      turns' := PlaceSlot(slots[i], i, start, degrees, pivot, turns);
      RefitKeepsEarlierSlots@Step(i);
    }

    /**
     * The loop of `layoutDrawables`: with the layout matrix reset, every slot
     * is centred at the start point turned once more than its predecessor's
     * centre (`centers` lists those points), notched at its predecessor's
     * centre past slot 0, and its drawable is fitted there.
     */
    method PlaceRing(n: int, start: Point, degrees: real, pivot: Point, ghost centers: seq<Point>, ghost held: set<Drawable?>)
      requires pointsTemp.Length == 2 && n == |slots| == |entries| == |centers| && 1 <= n
      requires forall j :: 0 <= j < n ==> entries[j].drawable in held
      requires forall k :: 0 <= k < n ==> centers[k] == Rotated(num, degrees, pivot, k, start)
      requires forall j :: 0 <= j < n ==>
        slots[j] == entries[j].slot && slots[j].drawable == entries[j].drawable && entries[j].drawable != null
      requires forall j, k :: 0 <= j < k < n ==> slots[j] != slots[k]
      modifies pointsTemp, slots, held
      ensures forall j :: 0 <= j < n ==> slots[j].id == old(slots[j].id) && slots[j].drawable == old(slots[j].drawable)
      ensures forall j :: 0 < j < n ==> entries[j].slot.Geometry() == Chained(centers, j)
      ensures entries[0].slot.Geometry()
        == if n > 2 then Placement(centers[0], true, centers[n - 1]) else Chained(centers, 0)
      ensures FittedUpTo(n)
    {
      // the layout matrix, as the number of turns composed into it
      var turns: nat := 0;
      var i := 0;
      while i < n
        invariant 0 <= i <= n
        invariant turns == if i == 0 then 0 else i - 1
        invariant forall j :: 0 <= j < n ==> slots[j].id == old(slots[j].id) && slots[j].drawable == old(slots[j].drawable)
        invariant forall j :: 0 <= j < i ==> entries[j].slot.Geometry() == Chained(centers, j)
        invariant i > 0 ==> Point(pointsTemp[0], pointsTemp[1]) == centers[i - 1]
        invariant FittedUpTo(i)
      {
        turns := PlaceNext(i, n, start, degrees, pivot, centers, turns);
        i := i + 1;
      }
      CloseRing(n, centers);
    }

    /** The end of `layoutDrawables`: past two slots, slot 0 is notched at the last one's centre. */
    method CloseRing(n: int, ghost centers: seq<Point>)
      requires n == |slots| == |entries| == |centers| && 1 <= n
      requires forall j :: 0 <= j < n ==> slots[j] == entries[j].slot
      requires forall j :: 0 <= j < n ==>
        entries[j].slot.Geometry() == Chained(centers, j)
      requires FittedUpTo(n)
      modifies slots[0]
      ensures slots[0].id == old(slots[0].id) && slots[0].drawable == old(slots[0].drawable)
      ensures forall j :: 0 < j < n ==> entries[j].slot.Geometry() == Chained(centers, j)
      ensures entries[0].slot.Geometry()
        == if n > 2 then Placement(centers[0], true, centers[n - 1]) else Chained(centers, 0)
      ensures FittedUpTo(n)
    {
      if n > 2 {
        var first := slots[0];
        var last := slots[n - 1];
        label Close:
        first.hasGap := true;
        first.gapCenterX := last.centerX;
        first.gapCenterY := last.centerY;
        FittedKept@Close(n);
      }
    }

    /**
     * The non-degenerate branch of `layoutDrawables`: the radius and offset of
     * the packing for the current slots, then every slot placed and fitted.
     */
    method LayOutRing()
      requires Valid() && contentSize > 0 && |entries| > 0
      modifies this`radius, this`offsetY, pointsTemp, slots, Held()
      ensures Valid()
      ensures Placed()
      ensures Fitted()
    {
      var n := |slots|;
      var r := SteinerRadius(num, n, contentSize);
      offsetY := OffsetY(num, n, contentSize);
      radius := r;
      var start := StartPoint(n, contentSize, r);
      var pivot := Pivot(contentSize, offsetY);
      var degrees := 360.0 / n as real;
      ghost var centers := seq(n, k requires 0 <= k < n => Rotated(num, degrees, pivot, k, start));
      assert forall j, k :: 0 <= j < k < n ==> slots[j] != slots[k] by {
        assert DistinctSlots(entries);
      }
      label Ring:
      PlaceRing(n, start, degrees, pivot, centers, Held());
      ValidKept@Ring();
      ChainedIsSlotPlacement(num, n, contentSize, centers);
    }

    /** `layoutDrawables`: lays every slot out on the ring again. */
    method LayoutDrawables()
      requires Valid()
      modifies this`radius, this`offsetY, this`contentSize, this`invalidated, pointsTemp, slots, Held()
      ensures Valid() && entries == old(entries)
      ensures contentSize == MeasuredContentSize()
      ensures LaidOut()
      ensures !(contentSize > 0 && |entries| > 0) ==>
        && (forall x :: x in slots ==> x.Geometry() == old(x.Geometry()))
        && (forall x :: x in Held() && x != null ==> x.bounds == old(x.bounds))
      ensures invalidated
    {
      radius := 0.0;
      offsetY := 0.0;
      contentSize := MeasuredContentSize();
      if contentSize > 0 && |slots| > 0 {
        LayOutRing();
      }
      Invalidate();
    }

    /**
     * The replacing branch of `addDrawable(id, drawable)`: the slot at `k`
     * takes `d`, the drawable it held is detached unless another slot still
     * holds it, `d` is fitted to the slot and attached. Nothing is laid out
     * again.
     */
    method ReplaceDrawable(info: DrawableInfo, ghost k: nat, d: Drawable)
      requires Valid() && k < |entries| && info == slots[k]
      modifies this`entries, this`attached, this`invalidated, info, d
      ensures Valid() && slots == old(slots)
      ensures entries == old(entries)[k := old(entries)[k].(drawable := d)]
      ensures forall j :: 0 <= j < |slots| ==> slots[j].Geometry() == old(slots[j].Geometry())
      ensures d.bounds == FittedBounds(radius, slots[k].Center(), d.intrinsicWidth, d.intrinsicHeight, fitType)
      ensures forall x :: x in old(Held()) && x != null && x != d ==> x.bounds == old(x.bounds)
      ensures attached == ReattachUnlessHeld(old(attached), old(entries), k, d)
      ensures CallbacksCover(old(entries), old(attached)) ==> CallbacksCover(entries, attached)
      ensures invalidated
    {
      SwapDrawable(info, k, d);
      UpdateDrawableBounds(info);
      AttachDrawable(d);
    }

    /**
     * The head of the replacing branch: the slot at `k` takes `d` and the
     * drawable it held is detached unless another slot still holds it.
     */
    method SwapDrawable(info: DrawableInfo, ghost k: nat, d: Drawable)
      requires Valid() && k < |entries| && info == slots[k]
      modifies this`entries, this`attached, info`drawable
      ensures Valid() && slots == old(slots)
      ensures entries == old(entries)[k := old(entries)[k].(drawable := d)]
      ensures var prev := old(entries[k].drawable);
        attached == if Holds(entries, prev) then old(attached) else old(attached) - {prev}
      ensures attached + {d} == ReattachUnlessHeld(old(attached), old(entries), k, d)
      ensures CallbacksCover(old(entries), old(attached)) ==> CallbacksCover(entries, attached + {d})
    {
      var prev := info.drawable;
      ReplaceWellFormed(entries, k, d);
      info.drawable := d;
      entries := entries[k := entries[k].(drawable := d)];
      var shared := HasSameDrawable(prev);
      if !shared {
        CleanDrawable(prev);
      }
      if CallbacksCover(old(entries), old(attached)) {
        ReattachUnlessHeldKeepsCover(old(entries), old(attached), k, d);
      }
    }

    /**
     * The appending branch of `addDrawable(id, drawable)`: a new slot with
     * this id and `d` goes at the end, the ring is laid out again and `d`
     * is attached.
     */
    method AppendSlot(id: int, d: Drawable)
      requires Valid() && |entries| < MAX_DRAWABLE_COUNT && SlotIndexOf(id).None?
      modifies this`slots, this`entries, this`radius, this`offsetY, this`contentSize, this`invalidated, this`attached
      modifies pointsTemp, slots, Held(), d
      ensures Valid()
      ensures |entries| == old(|entries|) + 1 && entries[..old(|entries|)] == old(entries)
      ensures var e := entries[old(|entries|)]; fresh(e.slot) && e.id == id && e.drawable == d
      ensures contentSize == MeasuredContentSize() && LaidOut()
      ensures attached == old(attached) + {d} && invalidated
      ensures !(contentSize > 0 && |entries| > 0) ==>
        && (forall x :: x in old(slots) ==> x.Geometry() == old(x.Geometry()))
        && entries[old(|entries|)].slot.Geometry() == Unplaced
        && (forall x :: (x in old(Held()) || x == d) && x != null ==> x.bounds == old(x.bounds))
    {
      PushSlot(id, d);
      // the source attaches `d` after the layout; the layout neither reads
      // nor writes the callbacks, so attaching first leaves the same state
      AttachDrawable(d);
      LayoutDrawables();
    }

    /** `mDrawables.add(crateAvatarDrawable(id, drawable))`: a fresh record at the end of the list. */
    method PushSlot(id: int, d: Drawable)
      requires Valid() && |entries| < MAX_DRAWABLE_COUNT && SlotIndexOf(id).None?
      modifies this`slots, this`entries
      ensures Valid()
      ensures |entries| > 0 && entries == old(entries) + [entries[|entries| - 1]]
      ensures var e := entries[|entries| - 1]; fresh(e.slot) && e.id == id && e.drawable == d
      ensures entries[|entries| - 1].slot.Geometry() == Unplaced
    {
      var info := CreateAvatarDrawable(id, d);
      AppendWellFormed(entries, Entry(info, id, d));
      slots := slots + [info];
      entries := entries + [Entry(info, id, d)];
    }

    /** The common end of `addDrawable(id, drawable)`: `d` takes this view as its callback and a redraw is requested. */
    method AttachDrawable(d: Drawable)
      modifies this`attached, this`invalidated
      ensures attached == old(attached) + {d} && invalidated
    {
      // drawable.callback = this
      attached := attached + {d};
      Invalidate();
    }

    /**
     * `addDrawable(id, drawable)`: an id some slot already has gets the new
     * drawable in that slot, fitted there, and the old drawable is detached
     * unless another slot still holds it; any other id (`NO_ID` included)
     * appends a slot and lays the ring out again, unless the list is full.
     * The new drawable is attached either way.
     */
    method AddDrawableWithId(id: int, d: Drawable) returns (ok: bool)
      requires Valid()
      modifies this`slots, this`entries, this`radius, this`offsetY, this`contentSize, this`invalidated, this`attached
      modifies pointsTemp, slots, Held(), d
      ensures Valid()
      ensures ok <==> old(SlotIndexOf(id)).Some? || old(|entries|) < MAX_DRAWABLE_COUNT
      ensures !ok ==> Untouched()
      ensures old(SlotIndexOf(id)).Some? ==>
        var k := old(SlotIndexOf(id)).value;
        && entries == old(entries)[k := old(entries)[k].(drawable := d)]
        && radius == old(radius) && offsetY == old(offsetY) && contentSize == old(contentSize)
        && (forall j :: 0 <= j < |slots| ==> slots[j].Geometry() == old(slots[j].Geometry()))
        && d.bounds == FittedBounds(radius, slots[k].Center(), d.intrinsicWidth, d.intrinsicHeight, fitType)
        && (forall x :: x in old(Held()) && x != null && x != d ==> x.bounds == old(x.bounds))
        && attached == ReattachUnlessHeld(old(attached), old(entries), k, d)
      ensures old(SlotIndexOf(id)).None? && ok ==>
        && |entries| == old(|entries|) + 1 && entries[..old(|entries|)] == old(entries)
        && var e := entries[old(|entries|)];
        && fresh(e.slot) && e.id == id && e.drawable == d
        && contentSize == MeasuredContentSize() && LaidOut()
        && attached == old(attached) + {d}
        && (!(contentSize > 0 && |entries| > 0) ==>
              && (forall x :: x in old(slots) ==> x.Geometry() == old(x.Geometry()))
              && e.slot.Geometry() == Unplaced
              && (forall x :: (x in old(Held()) || x == d) && x != null ==> x.bounds == old(x.bounds)))
      ensures ok ==> invalidated
    {
      var info := FindAvatarDrawableById(id);
      if info != null {
        ReplaceDrawable(info, SlotIndexOf(id).value, d);
      } else {
        if NumberOfDrawables() >= MAX_DRAWABLE_COUNT {
          return false;
        }
        AppendSlot(id, d);
      }
      return true;
    }

    /** `addDrawable(drawable)`: appends under `NO_ID`, which no slot lookup matches. */
    method AddDrawable(d: Drawable) returns (ok: bool)
      requires Valid()
      modifies this`slots, this`entries, this`radius, this`offsetY, this`contentSize, this`invalidated, this`attached
      modifies pointsTemp, slots, Held(), d
      ensures Valid()
      ensures ok <==> old(|entries|) < MAX_DRAWABLE_COUNT
      ensures !ok ==> Untouched()
      ensures ok ==>
        && |entries| == old(|entries|) + 1
        && entries == old(entries) + [Entry(entries[old(|entries|)].slot, NO_ID, d)]
        && fresh(entries[old(|entries|)].slot)
        && contentSize == MeasuredContentSize() && LaidOut()
        && attached == old(attached) + {d} && invalidated
        && (!(contentSize > 0 && |entries| > 0) ==>
              && (forall x :: x in old(slots) ==> x.Geometry() == old(x.Geometry()))
              && entries[old(|entries|)].slot.Geometry() == Unplaced
              && (forall x :: (x in old(Held()) || x == d) && x != null ==> x.bounds == old(x.bounds)))
    {
      ok := AddDrawableWithId(NO_ID, d);
    }

    /**
     * The list part of `removeDrawableAt`: the slot at `index` leaves the
     * list, and its drawable is detached unless another slot still holds it.
     */
    method UnlinkAt(index: int) returns (info: DrawableInfo)
      requires Valid() && 0 <= index < |entries|
      modifies this`slots, this`entries, this`attached
      ensures Valid()
      ensures entries == RemoveAt(old(entries), index)
      ensures (forall x :: x in slots ==> x in old(slots)) && Held() <= old(Held())
      ensures info.drawable != null && info.drawable == old(entries[index].drawable)
      ensures attached == if Holds(entries, info.drawable) then old(attached) else old(attached) - {info.drawable}
    {
      info := slots[index];
      RemoveAtWellFormed(entries, index);
      slots := slots[..index] + slots[index + 1..];
      entries := RemoveAt(entries, index);
      var shared := HasSameDrawable(info.drawable);
      if !shared {
        CleanDrawable(info.drawable);
      }
    }

    /**
     * `removeDrawableAt`: the slot at `index` leaves the list, its drawable is
     * detached unless another slot still holds it, and the ring is laid out
     * again. An index outside the list is the caller's error.
     */
    method RemoveDrawableAt(index: int) returns (r: Drawable?)
      requires Valid() && 0 <= index < |entries|
      modifies this`slots, this`entries, this`radius, this`offsetY, this`contentSize, this`invalidated, this`attached
      modifies pointsTemp, slots, Held()
      ensures Valid()
      ensures entries == RemoveAt(old(entries), index)
      ensures (forall x :: x in slots ==> x in old(slots)) && Held() <= old(Held())
      ensures r != null && r == old(entries[index].drawable)
      ensures attached == if Holds(entries, r) then old(attached) else old(attached) - {r}
      ensures attached == DetachUnlessHeld(old(attached), old(entries), index)
      ensures CallbacksCover(old(entries), old(attached)) ==> CallbacksCover(entries, attached)
      ensures contentSize == MeasuredContentSize() && LaidOut() && invalidated
      ensures forall x :: x in old(Held()) && x != null && x !in Held() ==> x.bounds == old(x.bounds)
      ensures !(contentSize > 0 && |entries| > 0) ==>
        && (forall x :: x in old(slots) ==> x.Geometry() == old(x.Geometry()))
        && (forall x :: x in old(Held()) && x != null ==> x.bounds == old(x.bounds))
    {
      var info := UnlinkAt(index);
      LayoutDrawables();
      if CallbacksCover(old(entries), old(attached)) {
        DetachUnlessHeldKeepsCover(old(entries), old(attached), index);
      }
      return info.drawable;
    }

    /**
     * `removeDrawableById`: removes the first slot with this id and returns its
     * drawable. There is no `NO_ID` guard here: `NO_ID` matches a slot added
     * without an id.
     */
    method RemoveDrawableById(id: int) returns (r: Drawable?)
      requires Valid()
      modifies this`slots, this`entries, this`radius, this`offsetY, this`contentSize, this`invalidated, this`attached
      modifies pointsTemp, slots, Held()
      ensures Valid()
      ensures IndexOfId(old(entries), id).None? ==> r == null && Untouched()
      ensures IndexOfId(old(entries), id).Some? ==>
        var k := IndexOfId(old(entries), id).value;
        && entries == RemoveAt(old(entries), k) && r == old(entries[k].drawable)
        && attached == (if Holds(entries, r) then old(attached) else old(attached) - {r})
        && contentSize == MeasuredContentSize() && LaidOut() && invalidated
        && (forall x :: x in old(Held()) && x != null && x !in Held() ==> x.bounds == old(x.bounds))
        && (!(contentSize > 0 && |entries| > 0) ==>
              && (forall x :: x in old(slots) ==> x.Geometry() == old(x.Geometry()))
              && (forall x :: x in old(Held()) && x != null ==> x.bounds == old(x.bounds)))
    {
      var i := 0;
      while i < |slots| && slots[i].id != id
        invariant 0 <= i <= |slots|
        invariant forall j :: 0 <= j < i ==> entries[j].id != id
      {
        i := i + 1;
      }
      if i < |slots| {
        r := RemoveDrawableAt(i);
      } else {
        r := null;
      }
    }

    /**
     * A step of `removeDrawable` at a slot `i` holding `d`: `removeDrawableAt(i)`
     * on a list whose slots past `i` no longer hold `d`; `records0` and `held0`
     * are what it may change.
     */
    method RemoveHeldAt(i: nat, d: Drawable, ghost es: seq<Entry<DrawableInfo>>,
                        ghost records0: set<DrawableInfo>, ghost held0: set<Drawable?>)
      requires Valid() && i < |es| && i < |slots| && slots[i].drawable == d
      requires entries == es[..i + 1] + Without(es[i + 1..], d)
      requires (forall x :: x in slots ==> x in records0) && Held() <= held0
      modifies this`slots, this`entries, this`radius, this`offsetY, this`contentSize, this`invalidated, this`attached
      modifies pointsTemp, records0, held0
      ensures Valid()
      ensures entries == es[..i] + Without(es[i..], d) && Holds(es[i..], d)
      ensures (forall x :: x in slots ==> x in records0) && Held() <= held0
      ensures Holds(old(entries), d)
      ensures attached == if Holds(entries, d) then old(attached) else old(attached) - {d}
      ensures contentSize == MeasuredContentSize() && LaidOut() && invalidated
    {
      assert entries[i] == es[i];
      RemoveHeldStep(es, i, d);
      var _ := RemoveDrawableAt(i);
    }

    /**
     * `removeDrawable`: walking the list from its end, every slot holding `d`
     * is removed; the rest keep their order, and `d` ends up detached.
     */
    method RemoveDrawable(d: Drawable)
      requires Valid()
      modifies this`slots, this`entries, this`radius, this`offsetY, this`contentSize, this`invalidated, this`attached
      modifies pointsTemp, slots, Held()
      ensures Valid()
      ensures entries == Without(old(entries), d)
      ensures attached == if Holds(old(entries), d) then old(attached) - {d} else old(attached)
      ensures Holds(old(entries), d) ==> contentSize == MeasuredContentSize() && LaidOut() && invalidated
      ensures !Holds(old(entries), d) ==> Untouched()
    {
      ghost var es := entries;
      ghost var removed := false;
      ghost var records := set x | x in slots;
      var i := |slots|;
      while i > 0
        invariant 0 <= i <= |es| && Valid()
        invariant entries == es[..i] + Without(es[i..], d)
        invariant (forall x :: x in slots ==> x in records) && Held() <= old(Held())
        invariant removed == Holds(es[i..], d)
        invariant attached == if removed && !Holds(entries, d) then old(attached) - {d} else old(attached)
        invariant removed ==> contentSize == MeasuredContentSize() && LaidOut() && invalidated
        invariant !removed ==> Untouched()
      {
        i := i - 1;
        if slots[i].drawable == d {
          RemoveHeldAt(i, d, es, records, old(Held()));
          removed := true;
        } else {
          assert entries[i] == es[i];
          KeepStep(es, i, d);
        }
      }
      assert es[0..] == es;
    }

    /**
     * `clearDrawable`: every drawable is detached, the list is emptied and the
     * ring is laid out again; an empty list is left alone.
     */
    method ClearDrawable()
      requires Valid()
      modifies this`slots, this`entries, this`radius, this`offsetY, this`contentSize, this`invalidated, this`attached
      modifies pointsTemp, slots, Held()
      ensures Valid() && entries == []
      ensures old(entries) == [] ==> Untouched()
      ensures old(entries) != [] ==>
        radius == 0.0 && offsetY == 0.0 && contentSize == MeasuredContentSize() && invalidated
      ensures attached == old(attached) - old(Held())
      ensures forall x :: x in old(Held()) && x != null ==> x.bounds == old(x.bounds)
    {
      if |slots| > 0 {
        var i := 0;
        while i < |slots|
          invariant 0 <= i <= |slots| && Valid()
          invariant slots == old(slots) && entries == old(entries)
          invariant attached == old(attached) - set j | 0 <= j < i :: entries[j].drawable
          invariant forall x :: x in old(Held()) && x != null ==> x.bounds == old(x.bounds)
        {
          CleanDrawable(slots[i].drawable);
          i := i + 1;
        }
        slots := [];
        entries := [];
        LayoutDrawables();
      }
    }

    /** `onSizeChanged`: the new size is measured and the ring laid out again. */
    method OnSizeChanged(w: int, h: int)
      requires Valid()
      modifies this`width, this`height, this`radius, this`offsetY, this`contentSize, this`invalidated
      modifies pointsTemp, slots, Held()
      ensures Valid() && entries == old(entries)
      ensures width == w && height == h
      ensures contentSize == MeasuredContentSize() && LaidOut() && invalidated
      ensures !(contentSize > 0 && |entries| > 0) ==>
        && (forall x :: x in slots ==> x.Geometry() == old(x.Geometry()))
        && (forall x :: x in Held() && x != null ==> x.bounds == old(x.bounds))
    {
      width, height := w, h;
      LayoutDrawables();
    }
  }
}
