# CompositionAvatarView: a verified model of the slot list and the ring layout

`CompositionAvatarView` is an Android widget that shows up to five images
("drawables") as circles packed into one square, like a group-chat avatar.
The model covers both versions of the view: the current Kotlin one
(`CompositionAvatarView.kt` with its slot record `DrawableInfo.kt`) and the
older Java one (`CompositionAvatarView.java` with its nested `AvatarDrawable`).
It covers three parts of the view:

- the bounded, id-keyed list of slots and its operations;
- the structure of the ring layout;
- the rule that fits a drawable's bounds into its circle.

## Files

- `avatar_config.dfy` (`AvatarConfig`) holds the constants (at most 5 drawables, a default gap of 0.25) and the gap clamp.
- `graphics.dfy` (`Graphics`) stands in for the platform types: points, `RectF` with `inset` and `offset`, `Rect`, and a `Drawable` class with an intrinsic size and mutable bounds. It also defines the float-to-int conversions (`toInt` truncates, `roundToInt` rounds halves up).
- `slot_list.dfy` (`SlotList`) specifies the list as a sequence of `Entry(record, id, drawable)`:
  - lookup by id, removal at an index, removal of every slot holding a drawable;
  - well-formedness: distinct records, unique ids other than `NO_ID`, every slot filled;
  - the callback bookkeeping of both versions.
- `drawable_bounds.dfy` (`DrawableBounds`) is `updateDrawableBounds` as functions over reals, with its geometric properties.
- `ring_layout.dfy` (`RingLayout`) gives the radius, vertical offset, start point and rotation chain of the layout. It proves that the gap-notch structure holds.
- `drawable_info.dfy` (`SlotInfo`) is the Kotlin slot record as a class, with `reset()`.
- `composition_avatar_view.dfy` (`CompositionAvatar`) is the Kotlin view as a class.
- `composition_avatar_legacy.dfy` (`CompositionAvatarLegacy`) is the Java view and its `AvatarDrawable`.

## How the views are modelled

- Each view is a class whose fields mirror the source fields:
  - `mDrawables` becomes `slots: seq<record>`;
  - `mPointsTemp` is a two-element `array<real>`;
  - `mContentSize`, `mSteinerCircleRadius`, `mOffsetY` and `mGap` are fields of both classes, and `fitType` is a field of the Kotlin view only (the Java view has no fit type);
  - the view's width and height are fields as well, and the paddings are `const` fields fixed at construction.
- A ghost sequence `entries` stays in step with `slots` through `Valid()`. It lets every list operation be stated against the pure functions of `SlotList`. For example, `removeDrawable` ends with `entries == Without(old(entries), d)`.
- `invalidate()` sets a ghost flag `invalidated`.
- A drawable's callback is a ghost set `attached` of the drawables whose callback is this view. `drawable.callback = this` adds to it, and `cleanDrawable` / `setCallback(null)` removes from it.
- The layout loop is a `while` loop over the records and the points buffer.
- Sine, tangent and `Matrix.postRotate` + `mapPoints` are the closures of a `Numerics` value held by the view. The layout is proved against `RingLayout.SlotPlacement`, the placement those closures determine.
- The radius for N = 1 and N = 4 is stated exactly: size/2 and size/4.
- "Nothing changes" is stated as `Untouched()`:
  - in the Kotlin view, the view, its records, the points buffer and every drawable a slot holds are `unchanged`;
  - in the Java view, a value snapshot of the view, its records and the buffer is equal before and after.

Some source operations are split into helper methods so that each proof stays small:
- `ReplaceDrawable`, `SwapDrawable`, `AppendSlot`, `PushSlot` and `AttachDrawable` are the two branches of `addDrawable(id, drawable)` and its common end;
- `UnlinkAt` is the list part of `removeDrawableAt`;
- `RemoveHeldAt` is the matching iteration of `removeDrawable`;
- `PlaceSlot`, `PlaceNext`, `PlaceRing`, `CloseRing` and `LayOutRing` are the layout loop, its closing step and the non-degenerate branch.

Each helper's contract is stated in the table below.

## Model

| member | source | states |
|---|---|---|
| AvatarConfig.ClampGap | composition-avatar/src/main/java/cn/yiiguxing/compositionavatar/CompositionAvatarView.kt:61-62 | the gap fraction lies in [0, 1]; a value inside is kept, one below becomes 0 and one above becomes 1 |
| AvatarConfig.ConfiguredGap | composition-avatar/src/main/java/cn/yiiguxing/compositionavatar/CompositionAvatarView.kt:61-62 | the gap read from the attributes: `DEFAULT_GAP` (0.25) when the attribute is absent, otherwise the attribute clamped into [0, 1] |
| Graphics.Min | composition-avatar/src/main/java/cn/yiiguxing/compositionavatar/CompositionAvatarView.kt:318 | the smaller of the two sides: at most each of them and equal to one of them |
| Graphics.SlotSquare | composition-avatar/src/main/java/cn/yiiguxing/compositionavatar/CompositionAvatarView.java:271-272 | a circle's bounding square has sides 2r and is centred on the circle's centre |
| Graphics.Trunc | composition-avatar/src/main/java/cn/yiiguxing/compositionavatar/CompositionAvatarView.kt:423-424 | `toInt()` rounds toward zero: the result lies within one of `x`, on the side of zero |
| Graphics.Round | composition-avatar/src/main/java/cn/yiiguxing/compositionavatar/CompositionAvatarView.kt:123-124 | `roundToInt()` / `Math.round`: the nearest integer, halves rounded up |
| SlotList.IndexOfId | composition-avatar/src/main/java/cn/yiiguxing/compositionavatar/CompositionAvatarView.kt:148-155 | the index of the first slot with the id; `None` exactly when no slot has it |
| SlotList.RemoveAt | composition-avatar/src/main/java/cn/yiiguxing/compositionavatar/CompositionAvatarView.kt:286-287 | the list loses the slot at the index; the slots before keep their places and the slots after move down by one |
| SlotList.Without | composition-avatar/src/main/java/cn/yiiguxing/compositionavatar/CompositionAvatarView.kt:248-255 | every kept slot comes from the list and does not hold `d`; every slot not holding `d` is kept |
| SlotList.WithoutAppend | composition-avatar/src/main/java/cn/yiiguxing/compositionavatar/CompositionAvatarView.kt:248-255 | removing by reference distributes over concatenation, so the kept slots stay in order |
| SlotList.WithoutUnheld | composition-avatar/src/main/java/cn/yiiguxing/compositionavatar/CompositionAvatarView.kt:248-255 | removing a drawable no slot holds leaves the list as it is |
| SlotList.HoldsAfterWithout | composition-avatar/src/main/java/cn/yiiguxing/compositionavatar/CompositionAvatarView.kt:248-255 | after the slots of a suffix holding `d` are gone, `d` is held exactly when the prefix holds it |
| SlotList.RemoveHeldStep | composition-avatar/src/main/java/cn/yiiguxing/compositionavatar/CompositionAvatarView.kt:250-253 | one iteration of the reverse loop on a matching slot: dropping it extends the filtered suffix by one slot |
| SlotList.KeepStep | composition-avatar/src/main/java/cn/yiiguxing/compositionavatar/CompositionAvatarView.kt:250-253 | one iteration on a slot that does not match: the list already equals the longer filtered suffix |
| SlotList.RemoveAtWellFormed | composition-avatar/src/main/java/cn/yiiguxing/compositionavatar/CompositionAvatarView.kt:286-287 | removing a slot keeps records distinct, ids other than `NO_ID` unique and every slot filled |
| SlotList.AppendWellFormed | composition-avatar/src/main/java/cn/yiiguxing/compositionavatar/CompositionAvatarView.kt:215-219 | appending a fresh record with an unused id or `NO_ID` and a drawable keeps the list well formed |
| SlotList.ReplaceWellFormed | composition-avatar/src/main/java/cn/yiiguxing/compositionavatar/CompositionAvatarView.kt:208-210 | giving a slot another drawable keeps the list well formed |
| SlotList.DetachAlwaysCanBreakCover | composition-avatar/src/main/java/cn/yiiguxing/compositionavatar/CompositionAvatarView.java:202-208 | two slots share `d`; removing the first and detaching `d` unconditionally leaves the second slot showing a drawable with no callback |
| SlotList.DetachUnlessHeldKeepsCover | composition-avatar/src/main/java/cn/yiiguxing/compositionavatar/CompositionAvatarView.kt:286-293 | detaching only a drawable no remaining slot holds keeps every shown drawable attached |
| SlotList.ReattachAlwaysCanBreakCover | composition-avatar/src/main/java/cn/yiiguxing/compositionavatar/CompositionAvatarView.java:154-158 | two slots share `p`; replacing the first and detaching `p` unconditionally leaves the second slot showing a drawable with no callback |
| SlotList.ReattachUnlessHeldKeepsCover | composition-avatar/src/main/java/cn/yiiguxing/compositionavatar/CompositionAvatarView.kt:207-213 | detaching a replaced drawable only when no slot holds it any more keeps every shown drawable attached |
| DrawableBounds.Bounds | composition-avatar/src/main/java/cn/yiiguxing/compositionavatar/CompositionAvatarView.kt:422-426 | left and top are truncated and right and bottom rounded: each side is within one (or one half) of the unrounded box |
| DrawableBounds.SquareFitFillsSlot | composition-avatar/src/main/java/cn/yiiguxing/compositionavatar/CompositionAvatarView.kt:404-406 | a non-positive side, equal sides or FIT give exactly the circle's bounding square |
| DrawableBounds.ScaledBoxShape | composition-avatar/src/main/java/cn/yiiguxing/compositionavatar/CompositionAvatarView.kt:407-420 | otherwise the box is centred for CENTER, pushed to the top left corner for START and to the bottom right corner for END |
| DrawableBounds.ScaledFitShape | composition-avatar/src/main/java/cn/yiiguxing/compositionavatar/CompositionAvatarView.kt:407-413 | otherwise the box keeps the drawable's aspect ratio at 2·side·scale, and its shorter side is the diameter |
| DrawableBounds.CenterFitIsCentred | composition-avatar/src/main/java/cn/yiiguxing/compositionavatar/CompositionAvatarView.kt:413-422 | with CENTER the box is centred on the slot's centre |
| DrawableBounds.StartEndAreOpposite | composition-avatar/src/main/java/cn/yiiguxing/compositionavatar/CompositionAvatarView.kt:414-419 | START and END shift the centred box by (w/2 − r, h/2 − r) and by its negation |
| DrawableBounds.StartAnchorsTopLeft | composition-avatar/src/main/java/cn/yiiguxing/compositionavatar/CompositionAvatarView.kt:414-419 | with START the box's left and top sides are the circle square's |
| DrawableBounds.EndAnchorsBottomRight | composition-avatar/src/main/java/cn/yiiguxing/compositionavatar/CompositionAvatarView.kt:414-419 | with END the box's right and bottom sides are the circle square's |
| DrawableBounds.ScaledSidesReachRadius | composition-avatar/src/main/java/cn/yiiguxing/compositionavatar/CompositionAvatarView.kt:408-413 | after scaling, both intrinsic sides reach at least the radius |
| DrawableBounds.BoxCoversSlot | composition-avatar/src/main/java/cn/yiiguxing/compositionavatar/CompositionAvatarView.kt:404-422 | whatever the fit type, the box covers the circle's bounding square |
| RingLayout.ChainedIsSlotPlacement | composition-avatar/src/main/java/cn/yiiguxing/compositionavatar/CompositionAvatarView.kt:359-389 | the loop's chain of centres, each slot notched at its predecessor, plus the wrap-around notch for N > 2, is the layout's placement |
| RingLayout.GapAnchoredAtPredecessor | composition-avatar/src/main/java/cn/yiiguxing/compositionavatar/CompositionAvatarView.kt:362-366 | slot i > 0 has a notch whose centre is slot i − 1's centre |
| RingLayout.RingClosesAfterTwo | composition-avatar/src/main/java/cn/yiiguxing/compositionavatar/CompositionAvatarView.kt:383-389 | slot 0 is notched exactly when N > 2, then at slot N − 1's centre; otherwise its notch centre stays at the origin |
| RingLayout.FirstSlotAtStart | composition-avatar/src/main/java/cn/yiiguxing/compositionavatar/CompositionAvatarView.kt:347-355 | slot 0's centre is (r, r) for even N and (size/2, r) for odd N |
| RingLayout.NeighbourIsOneTurnOn | composition-avatar/src/main/java/cn/yiiguxing/compositionavatar/CompositionAvatarView.kt:369-375 | each further slot's centre is its predecessor's turned by 360/N degrees about the pivot |
| RingLayout.OneSlotFillsSquare | composition-avatar/src/main/java/cn/yiiguxing/compositionavatar/CompositionAvatarView.kt:326-328 | N = 1: radius size/2, no offset, the slot centred with no notch |
| RingLayout.FourSlotsQuarterSquare | composition-avatar/src/main/java/cn/yiiguxing/compositionavatar/CompositionAvatarView.kt:332-334 | N = 4: radius size/4, no offset, slot 0 at (size/4, size/4) |
| RingLayout.TwoSlotsNotShifted | composition-avatar/src/main/java/cn/yiiguxing/compositionavatar/CompositionAvatarView.kt:329-331 | N = 2: no vertical offset |
| RingLayout.RadiusPositive | composition-avatar/src/main/java/cn/yiiguxing/compositionavatar/CompositionAvatarView.kt:322-339 | a positive content size gives a positive radius |
| SlotInfo.ClearedIdempotent | composition-avatar/src/main/java/cn/yiiguxing/compositionavatar/DrawableInfo.kt:24-31 | resetting twice is resetting once, and the id and the drawable are kept |
| SlotInfo.DrawableInfo.constructor | composition-avatar/src/main/java/cn/yiiguxing/compositionavatar/DrawableInfo.kt:7-21 | a fresh record has `NO_ID`, no drawable, zero centres, a zero notch centre and no notch |
| SlotInfo.DrawableInfo.Reset | composition-avatar/src/main/java/cn/yiiguxing/compositionavatar/DrawableInfo.kt:24-31 | the record after `reset()` is `Cleared` of the record before: placement cleared, id and drawable kept |
| CompositionAvatar.CompositionAvatarView.constructor | composition-avatar/src/main/java/cn/yiiguxing/compositionavatar/CompositionAvatarView.kt:52-63 | no slots; fit type from the attribute index (CENTER when absent); gap as `ConfiguredGap` of the attribute; no radius, offset or size yet |
| CompositionAvatar.CompositionAvatarView.SetGap | composition-avatar/src/main/java/cn/yiiguxing/compositionavatar/CompositionAvatarView.kt:104-111 | the gap becomes the clamped value; an unchanged value changes nothing, a changed one requests a redraw |
| CompositionAvatar.CompositionAvatarView.NumberOfDrawables | composition-avatar/src/main/java/cn/yiiguxing/compositionavatar/CompositionAvatarView.kt:116-118 | the slot count, between 0 and 5 |
| CompositionAvatar.CompositionAvatarView.DrawableSize | composition-avatar/src/main/java/cn/yiiguxing/compositionavatar/CompositionAvatarView.kt:123-124 | the diameter rounded to the nearest integer |
| CompositionAvatar.CompositionAvatarView.GetDrawableAt | composition-avatar/src/main/java/cn/yiiguxing/compositionavatar/CompositionAvatarView.kt:163-165 | the drawable of the slot at the index |
| CompositionAvatar.CompositionAvatarView.FindDrawableById | composition-avatar/src/main/java/cn/yiiguxing/compositionavatar/CompositionAvatarView.kt:148-155 | the drawable of the first slot with the id, `NO_ID` included; null when none has it |
| CompositionAvatar.CompositionAvatarView.FindAvatarDrawableById | composition-avatar/src/main/java/cn/yiiguxing/compositionavatar/CompositionAvatarView.kt:167-176 | the first record with the id; null for `NO_ID` or when none has it |
| CompositionAvatar.CompositionAvatarView.HasSameDrawable | composition-avatar/src/main/java/cn/yiiguxing/compositionavatar/CompositionAvatarView.kt:178-186 | true exactly when some slot holds the drawable |
| CompositionAvatar.CompositionAvatarView.CleanDrawable | composition-avatar/src/main/java/cn/yiiguxing/compositionavatar/CompositionAvatarView.kt:308-311 | the drawable loses this view as its callback |
| CompositionAvatar.CompositionAvatarView.CreateAvatarDrawable | composition-avatar/src/main/java/cn/yiiguxing/compositionavatar/CompositionAvatarView.kt:234-239 | a fresh, unplaced record with the id and the drawable |
| CompositionAvatar.CompositionAvatarView.UpdateDrawableBounds | composition-avatar/src/main/java/cn/yiiguxing/compositionavatar/CompositionAvatarView.kt:394-427 | the drawable's bounds are `FittedBounds` for the radius, the slot's centre, its intrinsic size and the fit type |
| CompositionAvatar.CompositionAvatarView.SetDrawableFitType | composition-avatar/src/main/java/cn/yiiguxing/compositionavatar/CompositionAvatarView.kt:132-140 | the current type changes nothing; another type refits every drawable and requests a redraw |
| CompositionAvatar.CompositionAvatarView.RefitKeepsEarlierSlots | composition-avatar/src/main/java/cn/yiiguxing/compositionavatar/CompositionAvatarView.kt:135-137 | refitting slot i keeps the earlier slots fitted |
| CompositionAvatar.CompositionAvatarView.FittedKept | composition-avatar/src/main/java/cn/yiiguxing/compositionavatar/CompositionAvatarView.kt:383-389 | closing the ring changes no centre, so the fitted bounds stay fitted |
| CompositionAvatar.CompositionAvatarView.PlaceSlot | composition-avatar/src/main/java/cn/yiiguxing/compositionavatar/CompositionAvatarView.kt:360-381 | one loop step: the record is reset, notched at the previous centre past slot 0, placed at the start point turned once more, and its drawable fitted |
| CompositionAvatar.CompositionAvatarView.PlaceNext | composition-avatar/src/main/java/cn/yiiguxing/compositionavatar/CompositionAvatarView.kt:359-382 | the first i + 1 slots carry the chained placement and fitted bounds |
| CompositionAvatar.CompositionAvatarView.PlaceRing | composition-avatar/src/main/java/cn/yiiguxing/compositionavatar/CompositionAvatarView.kt:356-389 | every slot carries the chained placement, slot 0 the wrap-around notch for N > 2, and every drawable is fitted |
| CompositionAvatar.CompositionAvatarView.CloseRing | composition-avatar/src/main/java/cn/yiiguxing/compositionavatar/CompositionAvatarView.kt:383-389 | slot 0 takes the last slot's centre as its notch when N > 2; nothing else moves |
| CompositionAvatar.CompositionAvatarView.LayOutRing | composition-avatar/src/main/java/cn/yiiguxing/compositionavatar/CompositionAvatarView.kt:322-389 | a non-degenerate layout: shared radius and offset from the closed formulas, every slot at `SlotPlacement`, every drawable fitted |
| CompositionAvatar.CompositionAvatarView.LayoutDrawables | composition-avatar/src/main/java/cn/yiiguxing/compositionavatar/CompositionAvatarView.kt:313-392 | the content size is measured; either the ring is laid out, or radius and offset are 0 and no record or bounds changes; a redraw is requested |
| CompositionAvatar.CompositionAvatarView.ReplaceDrawable | composition-avatar/src/main/java/cn/yiiguxing/compositionavatar/CompositionAvatarView.kt:207-214 | the slot takes `d` in place; no centre moves; `d` is fitted; the old drawable is detached only if no slot still holds it, so every shown drawable stays attached |
| CompositionAvatar.CompositionAvatarView.SwapDrawable | composition-avatar/src/main/java/cn/yiiguxing/compositionavatar/CompositionAvatarView.kt:208-213 | the slot takes `d`; the old drawable is detached exactly when no slot still holds it, and nothing else leaves the callbacks; with `d` added this is `ReattachUnlessHeld` |
| CompositionAvatar.CompositionAvatarView.AppendSlot | composition-avatar/src/main/java/cn/yiiguxing/compositionavatar/CompositionAvatarView.kt:215-222 | one fresh slot is appended after the old ones, the ring is laid out again, `d` is attached; when the layout has no room, the old records keep their placements, the new record stays unplaced, and `d` and every held drawable keep their bounds |
| CompositionAvatar.CompositionAvatarView.PushSlot | composition-avatar/src/main/java/cn/yiiguxing/compositionavatar/CompositionAvatarView.kt:219 | the list grows by one fresh, unplaced record at its end |
| CompositionAvatar.CompositionAvatarView.AttachDrawable | composition-avatar/src/main/java/cn/yiiguxing/compositionavatar/CompositionAvatarView.kt:222-230 | `d` takes this view as its callback and a redraw is requested |
| CompositionAvatar.CompositionAvatarView.AddDrawableWithId | composition-avatar/src/main/java/cn/yiiguxing/compositionavatar/CompositionAvatarView.kt:206-232 | true exactly when the id is present (not `NO_ID`) or there is room; at capacity nothing changes; a present id replaces that slot in place; otherwise one slot is appended and laid out; when the layout has no room, the old records keep their placements, the new record stays unplaced, and `d` and every held drawable keep their bounds |
| CompositionAvatar.CompositionAvatarView.AddDrawable | composition-avatar/src/main/java/cn/yiiguxing/compositionavatar/CompositionAvatarView.kt:195-197 | below capacity the list becomes the old list plus one `NO_ID` slot; at capacity nothing changes; when the layout has no room, the old records keep their placements, the new record stays unplaced, and `d` and every held drawable keep their bounds |
| CompositionAvatar.CompositionAvatarView.UnlinkAt | composition-avatar/src/main/java/cn/yiiguxing/compositionavatar/CompositionAvatarView.kt:287-290 | the slot leaves the list; its drawable is detached only if no other slot holds it |
| CompositionAvatar.CompositionAvatarView.RemoveDrawableAt | composition-avatar/src/main/java/cn/yiiguxing/compositionavatar/CompositionAvatarView.kt:286-293 | the list is `RemoveAt` of the old one; the removed drawable is returned and detached only if no slot holds it; every shown drawable stays attached; the ring is laid out again; a drawable no slot holds any more keeps its bounds; when the layout has no room (no content size, or no slots left), every old record keeps its placement and every held drawable its bounds |
| CompositionAvatar.CompositionAvatarView.RemoveDrawableById | composition-avatar/src/main/java/cn/yiiguxing/compositionavatar/CompositionAvatarView.kt:265-273 | the first slot with the id, `NO_ID` included, is removed and its drawable returned, detached only if no slot holds it, and the ring laid out again; a drawable no slot holds any more keeps its bounds; when the layout has no room (no content size, or no slots left), every old record keeps its placement and every held drawable its bounds; with no match the result is null and nothing changes |
| CompositionAvatar.CompositionAvatarView.RemoveHeldAt | composition-avatar/src/main/java/cn/yiiguxing/compositionavatar/CompositionAvatarView.kt:251-252 | the matching step of the reverse loop: the filtered suffix grows by one slot, and `d` is detached exactly when no remaining slot holds it |
| CompositionAvatar.CompositionAvatarView.RemoveDrawable | composition-avatar/src/main/java/cn/yiiguxing/compositionavatar/CompositionAvatarView.kt:248-255 | the list becomes `Without(old list, d)`; `d` is detached and the ring laid out when some slot held it; otherwise nothing changes |
| CompositionAvatar.CompositionAvatarView.ClearDrawable | composition-avatar/src/main/java/cn/yiiguxing/compositionavatar/CompositionAvatarView.kt:298-306 | the list is empty and every held drawable detached; every formerly held drawable keeps its bounds; a non-empty list ends with radius and offset 0; an empty list is left alone |
| CompositionAvatar.CompositionAvatarView.OnSizeChanged | composition-avatar/src/main/java/cn/yiiguxing/compositionavatar/CompositionAvatarView.kt:429-432 | the new size is taken and the ring laid out for it; when the layout has no room, every record keeps its placement and every held drawable its bounds |
| CompositionAvatarLegacy.AvatarDrawable.constructor | composition-avatar/src/main/java/cn/yiiguxing/compositionavatar/CompositionAvatarView.java:383-391 | a fresh record has `NO_ID`, no drawable, no placement and empty bounds |
| CompositionAvatarLegacy.AvatarDrawable.Reset | composition-avatar/src/main/java/cn/yiiguxing/compositionavatar/CompositionAvatarView.java:394-402 | placement cleared and bounds emptied; id and drawable kept |
| CompositionAvatarLegacy.AvatarDrawable.SquareBounds | composition-avatar/src/main/java/cn/yiiguxing/compositionavatar/CompositionAvatarView.java:271-272 | emptied bounds, inset by −r and moved to the centre, are the circle's bounding square |
| CompositionAvatarLegacy.InsetOffsetIsSlotSquare | composition-avatar/src/main/java/cn/yiiguxing/compositionavatar/CompositionAvatarView.java:271-272 | inset by −r then offset by the centre turns the empty rectangle into the circle's bounding square |
| CompositionAvatarLegacy.CompositionAvatarView.constructor | composition-avatar/src/main/java/cn/yiiguxing/compositionavatar/CompositionAvatarView.java:55-59 | no slots; gap as `ConfiguredGap` of the attribute; no radius, offset or size yet |
| CompositionAvatarLegacy.CompositionAvatarView.SetGap | composition-avatar/src/main/java/cn/yiiguxing/compositionavatar/CompositionAvatarView.java:99-105 | the gap becomes the clamped value; an unchanged value changes nothing, a changed one requests a redraw |
| CompositionAvatarLegacy.CompositionAvatarView.NumberOfDrawables | composition-avatar/src/main/java/cn/yiiguxing/compositionavatar/CompositionAvatarView.java:113-115 | the slot count, between 0 and 5 |
| CompositionAvatarLegacy.CompositionAvatarView.DrawableSize | composition-avatar/src/main/java/cn/yiiguxing/compositionavatar/CompositionAvatarView.java:117-119 | the diameter rounded to the nearest integer |
| CompositionAvatarLegacy.CompositionAvatarView.GetDrawableAt | composition-avatar/src/main/java/cn/yiiguxing/compositionavatar/CompositionAvatarView.java:133-135 | the drawable of the slot at the index |
| CompositionAvatarLegacy.CompositionAvatarView.FindDrawableById | composition-avatar/src/main/java/cn/yiiguxing/compositionavatar/CompositionAvatarView.java:122-130 | the drawable of the first slot with the id, `NO_ID` included; null when none has it |
| CompositionAvatarLegacy.CompositionAvatarView.FindAvatarDrawableById | composition-avatar/src/main/java/cn/yiiguxing/compositionavatar/CompositionAvatarView.java:138-146 | the first record with the id, `NO_ID` included; null when none has it |
| CompositionAvatarLegacy.CompositionAvatarView.CreateAvatarDrawable | composition-avatar/src/main/java/cn/yiiguxing/compositionavatar/CompositionAvatarView.java:174-179 | a fresh, unplaced record with the id, the drawable and empty bounds |
| CompositionAvatarLegacy.CompositionAvatarView.PlaceSlot | composition-avatar/src/main/java/cn/yiiguxing/compositionavatar/CompositionAvatarView.java:252-276 | one loop step: the record is reset, notched at the previous centre past slot 0, placed at the start point turned once more, and its bounds set to its circle's square |
| CompositionAvatarLegacy.CompositionAvatarView.PlaceRing | composition-avatar/src/main/java/cn/yiiguxing/compositionavatar/CompositionAvatarView.java:246-285 | every slot carries the chained placement and its circle's square, slot 0 the wrap-around notch for N > 2 |
| CompositionAvatarLegacy.CompositionAvatarView.LayOutRing | composition-avatar/src/main/java/cn/yiiguxing/compositionavatar/CompositionAvatarView.java:221-287 | a non-degenerate layout: shared radius and offset, every slot at `SlotPlacement` with its square bounds |
| CompositionAvatarLegacy.CompositionAvatarView.LayoutDrawables | composition-avatar/src/main/java/cn/yiiguxing/compositionavatar/CompositionAvatarView.java:210-291 | the content size is measured; either the ring is laid out, or radius and offset are 0 and no record changes; a redraw is requested |
| CompositionAvatarLegacy.CompositionAvatarView.ReplaceDrawable | composition-avatar/src/main/java/cn/yiiguxing/compositionavatar/CompositionAvatarView.java:154-158 | the slot takes `d` in place; no centre, notch or bounds changes; the old drawable is always detached and `d` attached |
| CompositionAvatarLegacy.CompositionAvatarView.AppendSlot | composition-avatar/src/main/java/cn/yiiguxing/compositionavatar/CompositionAvatarView.java:164-168 | one fresh slot is appended after the old ones, the ring is laid out again, `d` is attached; when the layout has no room, the old records keep their placements and bounds, and the new record stays unplaced with empty bounds |
| CompositionAvatarLegacy.CompositionAvatarView.AddDrawableWithId | composition-avatar/src/main/java/cn/yiiguxing/compositionavatar/CompositionAvatarView.java:152-172 | `NO_ID` skips the lookup; a present id replaces in place with no layout and no redraw; a new id at capacity changes nothing; otherwise one slot is appended and laid out; when the layout has no room, the old records keep their placements and bounds, and the new record stays unplaced with empty bounds |
| CompositionAvatarLegacy.CompositionAvatarView.AddDrawable | composition-avatar/src/main/java/cn/yiiguxing/compositionavatar/CompositionAvatarView.java:148-150 | below capacity the list becomes the old list plus one `NO_ID` slot; at capacity nothing changes; when the layout has no room, the old records keep their placements and bounds, and the new record stays unplaced with empty bounds |
| CompositionAvatarLegacy.CompositionAvatarView.RemoveDrawableAt | composition-avatar/src/main/java/cn/yiiguxing/compositionavatar/CompositionAvatarView.java:202-208 | the list is `RemoveAt` of the old one; the removed drawable is returned and always detached; the ring is laid out again; when the layout has no room (no content size, or no slots left), every old record keeps its placement and bounds |
| CompositionAvatarLegacy.CompositionAvatarView.RemoveDrawableById | composition-avatar/src/main/java/cn/yiiguxing/compositionavatar/CompositionAvatarView.java:190-200 | the first slot with the id, `NO_ID` included, is removed and its drawable returned; when the layout has no room (no content size, or no slots left), every old record keeps its placement and bounds; with no match the result is null and nothing changes |
| CompositionAvatarLegacy.CompositionAvatarView.RemoveHeldAt | composition-avatar/src/main/java/cn/yiiguxing/compositionavatar/CompositionAvatarView.java:184-185 | the matching step of the reverse loop: the filtered suffix grows by one slot and `d` is detached |
| CompositionAvatarLegacy.CompositionAvatarView.RemoveDrawable | composition-avatar/src/main/java/cn/yiiguxing/compositionavatar/CompositionAvatarView.java:181-188 | the list becomes `Without(old list, d)`; `d` is detached and the ring laid out when some slot held it; otherwise nothing changes |
| CompositionAvatarLegacy.CompositionAvatarView.OnSizeChanged | composition-avatar/src/main/java/cn/yiiguxing/compositionavatar/CompositionAvatarView.java:294-297 | the new size is taken and the ring laid out for it; when the layout has no room, every record keeps its placement and bounds |

## Findings

| source | as written | input that shows it | evidently intended | confidence | as-written member | corrected member |
|---|---|---|---|---|---|---|
| composition-avatar/src/main/java/cn/yiiguxing/compositionavatar/CompositionAvatarView.java:202-208 | `removeDrawableAt` always clears the removed drawable's callback | `addDrawable(1, d); addDrawable(2, d); removeDrawableById(1)`: slot 2 still shows `d`, but `d` no longer has the view as its callback, so its invalidations stop redrawing the view | detach only when no remaining slot holds the drawable, as the Kotlin view does with `hasSameDrawable` | medium, not executed | CompositionAvatarLegacy.CompositionAvatarView.RemoveDrawableAt, SlotList.DetachAlwaysCanBreakCover | CompositionAvatar.CompositionAvatarView.RemoveDrawableAt, SlotList.DetachUnlessHeldKeepsCover |
| composition-avatar/src/main/java/cn/yiiguxing/compositionavatar/CompositionAvatarView.java:154-158 | replacing by id always clears the old drawable's callback | `addDrawable(1, p); addDrawable(2, p); addDrawable(1, d)`: slot 2 still shows `p`, but `p` has lost its callback | detach the replaced drawable only when no slot holds it any more | medium, not executed | CompositionAvatarLegacy.CompositionAvatarView.ReplaceDrawable, SlotList.ReattachAlwaysCanBreakCover | CompositionAvatar.CompositionAvatarView.ReplaceDrawable, SlotList.ReattachUnlessHeldKeepsCover |

The Java module keeps the behaviour as written, because it models that file. The Kotlin module is the corrected behaviour. Its `RemoveDrawableAt` and `ReplaceDrawable` promise that when every shown drawable is attached before the call, it still is afterwards.

## Left out

- Floating point: coordinates, radius and gap are `real`. The 32-bit float rounding of every step and the `.toFloat()` conversions are not modelled.
- The trigonometric values for N = 2, 3 and 5 and the matrix rotation are not computed. They are closures in `RingLayout.Numerics`, and the model assumes only that sine and tangent are positive at the angles the formulas use (`RingLayout.Sane`). The matrix in the source accumulates one rotation per slot; the model states the same chain as `Rotated(k)`.
- Drawing is not modelled: `onDraw`, the `Path` mask of each record (`mMaskPath`, `addCircle`, its fill type and its reset in `reset()`), `Paint` and the layer type.
- `onMeasure`, `initForEditMode` and the reading of the XML attributes are not modelled. The constructors take the fit-type index, the gap attribute (absent or a value) and the paddings as parameters.
- The drawable propagation calls are not modelled: `setVisible`, `setState`, `layoutDirection`, `unscheduleDrawable`, `verifyDrawable`, `invalidateDrawable`, `drawableStateChanged` and `jumpDrawablesToCurrentState`.
- Callbacks are the view's ghost `attached` set. A drawable whose callback is later set by another view is not modelled.
- The sample application (image loading, data binding, timers) is not modelled.
- The `gap` and `fitType` getters are not modelled; they are plain field reads.
- `removeDrawableAt` and `getDrawableAt` with an index outside the list throw `IndexOutOfBoundsException` in the source. The model requires a valid index instead.
- CompositionAvatar.CompositionAvatarView.AppendSlot: the source attaches the new drawable after the layout, and the model attaches it before. The layout neither reads nor writes callbacks, so the resulting state is the same.
- CompositionAvatar.CompositionAvatarView.LayoutDrawables: a layout with no size or no slots sets only the radius and offset to 0. Drawable bounds become empty only when `updateDrawableBounds` next runs with radius 0, which `UpdateDrawableBounds` states. This follows the code, not a reading in which every bounds is cleared at once.
- CompositionAvatar.CompositionAvatarView.UpdateDrawableBounds: when one drawable is held by several slots, its bounds end up fitted to the last slot that holds it. The layout contract (`FittedUpTo`) promises only that.
- CompositionAvatar.CompositionAvatarView.RemoveDrawableById and CompositionAvatarLegacy.CompositionAvatarView.RemoveDrawableById: neither version guards against `NO_ID`, so removing by `NO_ID` removes the first slot added without an id. The model keeps this. The same holds for both `findDrawableById`. Only the Kotlin `findAvatarDrawableById` and the Java `addDrawable(id, drawable)` treat `NO_ID` as "no id".
- CompositionAvatar.CompositionAvatarView.RemoveDrawable: the contract does not say what `d`'s bounds are afterwards. When one slot held `d`, the source leaves them as they were. When several did, each removal but the last lays the ring out again while `d` is still held, so `d` keeps the bounds that the layout before the last removal fitted it to. The model states neither case: both need a further invariant over the whole reverse walk, and the loop's proof is kept to the list, the callbacks and the layout.
- CompositionAvatar.CompositionAvatarView.RemoveDrawable: the contract does not say that a walk on a view with no content size leaves the remaining records' placements and the held drawables' bounds as they were, although no layout on that walk changes them. `RemoveDrawableAt`, which each step calls, does state it. Carrying it through the reverse walk needs one more invariant over every record and drawable, and with it the loop's proof did not fit the verifier's resource bound.
- CompositionAvatarLegacy.CompositionAvatarView.RemoveDrawable: the same gap. The contract does not say that on a view with no content size the remaining records keep their placements and bounds. `RemoveDrawableAt` states it for each step.
