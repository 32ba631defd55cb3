/** Constants and the gap rule both versions of the view share. */
module AvatarConfig {
  import opened Wrappers

  /** At most this many drawables are shown. */
  const MAX_DRAWABLE_COUNT: int := 5

  /** The gap used when none is configured, as a fraction of the radius. */
  const DEFAULT_GAP: real := 0.25

  /** `max(0, min(gap, 1))`: the gap fraction is kept within [0, 1]. */
  function ClampGap(gap: real): (g: real)
    ensures 0.0 <= g <= 1.0
    ensures 0.0 <= gap <= 1.0 ==> g == gap
    ensures gap < 0.0 ==> g == 0.0
    ensures gap > 1.0 ==> g == 1.0
  {
    var upper := if gap < 1.0 then gap else 1.0;
    if 0.0 > upper then 0.0 else upper
  }

  /** The gap the `gap` attribute configures: `DEFAULT_GAP` when it is absent, clamped. */
  function ConfiguredGap(attribute: Option<real>): (g: real)
    ensures 0.0 <= g <= 1.0
    ensures attribute.None? ==> g == DEFAULT_GAP
    ensures attribute.Some? ==> g == ClampGap(attribute.value)
  {
    ClampGap(if attribute.Some? then attribute.value else DEFAULT_GAP)
  }
}
