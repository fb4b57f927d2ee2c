/**
 * When `renderCanvas` takes its filter branch (redraw through a CSS
 * filter string) and when, inside that branch, the sharpening pass runs.
 */
module Filters {
  import opened EditorParams

  /** The settings the filter branch looks at, as one value. */
  datatype ColourSettings = ColourSettings(
    filter: string, brightness: int, contrast: int, saturation: int,
    hue: int, blur: real, exposure: int)

  function ColourOf(s: Snapshot): ColourSettings
  {
    ColourSettings(s.selectedFilter, s.brightness, s.contrast, s.saturation, s.hue, s.blur, s.exposure)
  }

  /**
   * The branch test: a named filter other than `'none'`, or brightness,
   * contrast, saturation or exposure away from 100, or hue or blur away
   * from 0. These are exactly the starting values, so the branch runs
   * precisely when some colour setting differs from how the editor starts.
   */
  function NeedsFilterPass(s: Snapshot): (r: bool)
    ensures r <==> ColourOf(s) != ColourOf(Initial())
  {
    s.selectedFilter != "none" || s.brightness != 100 || s.contrast != 100 ||
    s.saturation != 100 || s.hue != 0 || s.blur != 0.0 || s.exposure != 100
  }

  /** The sharpening pass runs inside the filter branch, and only for a positive sharpness. */
  predicate SharpenRuns(s: Snapshot)
  {
    NeedsFilterPass(s) && s.sharpness > 0.0
  }

  /** A sharpness with every colour setting at its neutral value changes nothing: the pass never runs. */
  lemma SharpnessAloneDoesNothing(s: Snapshot)
    requires ColourOf(s) == ColourOf(Initial())
    ensures !NeedsFilterPass(s) && !SharpenRuns(s)
  {
  }

  /** The decision depends on the colour settings only, not on geometry, crop or text. */
  lemma FilterPassDependsOnColourOnly(s: Snapshot, t: Snapshot)
    requires ColourOf(s) == ColourOf(t)
    ensures NeedsFilterPass(s) == NeedsFilterPass(t)
    ensures s.sharpness == t.sharpness ==> SharpenRuns(s) == SharpenRuns(t)
  {
  }
}
