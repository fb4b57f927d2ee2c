/**
 * The editor's parameters: the 24 values that `saveState` records in each
 * history snapshot and that undo and redo restore.
 */
module EditorParams {
  import opened Transform

  /** The keys of the social crop preset table. */
  datatype CropPreset = Facebook | Instagram | YouTube | LinkedIn | Twitter | Original

  /** Where the text overlay is anchored vertically. */
  datatype TextPosition = Top | Center | Bottom

  /**
   * One snapshot of the editor parameters, in the order `saveState` lists
   * them. Zoom is in tenths (10 is a zoom of 1.0); blur and sharpness move
   * in steps of 0.5 and are reals. Colours, the filter and the font are the
   * strings the controls produce; an empty colour means "not set".
   */
  datatype Snapshot = Snapshot(
    brightness: int,
    contrast: int,
    saturation: int,
    hue: int,
    blur: real,
    rotation: int,
    selectedFilter: string,
    zoomTenths: int,
    textOverlay: string,
    textColor: string,
    textSize: int,
    cropPreset: CropPreset,
    isCircleCrop: bool,
    flipHorizontal: bool,
    flipVertical: bool,
    textPosition: TextPosition,
    textShadow: bool,
    textBgColor: string,
    backgroundColor: string,
    sharpness: real,
    exposure: int,
    textFont: string,
    textBold: bool,
    textItalic: bool)

  /** The values the editor starts with, before any edit. */
  function Initial(): (s: Snapshot)
    ensures InBounds(s)
    ensures s.rotation == 0 && s.zoomTenths == 10 && s.cropPreset == Original
  {
    Snapshot(
      100, 100, 100, 0, 0.0, 0, "none", 10,
      "", "#ffffff", 24, Original, false, false, false,
      Center, false, "", "", 0.0, 100, "Arial", false, false)
  }

  /**
   * The ranges the controls keep each number in: the sliders' minimum and
   * maximum, the zoom buttons' clamp and the rotation buttons' reach.
   */
  predicate InBounds(s: Snapshot)
  {
    && 50 <= s.brightness <= 150
    && 50 <= s.contrast <= 150
    && 0 <= s.saturation <= 200
    && 0 <= s.hue <= 360
    && 0.0 <= s.blur <= 10.0
    && RotationValid(s.rotation)
    && ZoomValid(s.zoomTenths)
    && 10 <= s.textSize <= 100
    && 0.0 <= s.sharpness <= 10.0
    && 50 <= s.exposure <= 150
  }
}
