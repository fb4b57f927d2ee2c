/**
 * The numbers `renderCanvas` passes to the canvas for the image itself:
 * the output size from the crop preset table, the centred source
 * rectangle, the destination rectangle and the circle-clip radius.
 *
 * Image and canvas sizes are whole pixels; the draw sizes and offsets are
 * reals, where the browser computes them in floating point.
 */
module Geometry {
  import opened EditorParams

  datatype Size = Size(width: nat, height: nat)

  datatype Rect = Rect(x: real, y: real, width: real, height: real)

  /** The `SOCIAL_CROP_PRESETS` table: every social preset is a square; `original` is 0 x 0. */
  function PresetSize(p: CropPreset): (s: Size)
    ensures s.width == 0 <==> p == Original
    ensures s.width == s.height
  {
    match p
    case Facebook => Size(170, 170)
    case Instagram => Size(110, 110)
    case YouTube => Size(800, 800)
    case LinkedIn => Size(400, 400)
    case Twitter => Size(400, 400)
    case Original => Size(0, 0)
  }

  /** The test `cropPreset !== 'original' && SOCIAL_CROP_PRESETS[cropPreset].width > 0`. */
  predicate UsesPreset(p: CropPreset)
  {
    p != Original && PresetSize(p).width > 0
  }

  /** The canvas size: the preset's size when a preset is used, the image's size otherwise. */
  function CanvasSize(p: CropPreset, img: Size): (c: Size)
    ensures UsesPreset(p) ==> c == PresetSize(p) && c.width > 0 && c.height > 0
    ensures !UsesPreset(p) ==> c == img
    ensures p == Original ==> c == img
  {
    if UsesPreset(p) then PresetSize(p) else img
  }

  /** `a / c <= b` for reals when `a <= b * c` and `c > 0`. */
  lemma DivAtMost(a: real, b: real, c: real)
    requires c > 0.0 && a <= b * c
    ensures a / c <= b
  {
    assert a / c * c == a;
  }

  /** Multiplying by a quotient and then by its divisor gives the plain product. */
  lemma MulQuotient(a: real, b: real, c: real)
    requires c != 0.0
    ensures a * (b / c) * c == a * b
  {
    assert b / c * c == b;
    assert a * (b / c) * c == a * (b / c * c);
  }

  /**
   * The crop of an image at least as wide as the canvas: the full height
   * `h`, a width of `h * (cw / ch)`, and equal margins left and right.
   */
  function CropSides(w: real, h: real, cw: real, ch: real): (r: Rect)
    requires 0.0 <= h && cw > 0.0 && ch > 0.0 && h * cw <= w * ch
    ensures 0.0 <= r.x && r.y == 0.0 && 0.0 <= r.width && r.height == h
    ensures r.x + r.width + r.x == w
    ensures r.width * ch == r.height * cw
  {
    var drawWidth := h * (cw / ch);
    MulQuotient(h, cw, ch);
    assert drawWidth == h * cw / ch;
    DivAtMost(h * cw, w, ch);
    Rect((w - drawWidth) / 2.0, 0.0, drawWidth, h)
  }

  /**
   * The crop of an image at most as wide as the canvas: the full width
   * `w`, a height of `w / (cw / ch)`, and equal margins top and bottom.
   */
  function CropTopBottom(w: real, h: real, cw: real, ch: real): (r: Rect)
    requires 0.0 <= w && cw > 0.0 && ch > 0.0 && w * ch <= h * cw
    ensures r.x == 0.0 && 0.0 <= r.y && r.width == w && 0.0 <= r.height
    ensures r.y + r.height + r.y == h
    ensures r.width * ch == r.height * cw
  {
    var drawHeight := w / (cw / ch);
    assert drawHeight == w * ch / cw;
    MulQuotient(w, ch, cw);
    DivAtMost(w * ch, h, cw);
    Rect(0.0, (h - drawHeight) / 2.0, w, drawHeight)
  }

  /**
   * The source rectangle `(sx, sy, sw, sh)` passed to `drawImage`. With a
   * preset, the image's aspect ratio `w / h` is compared with the canvas's
   * `cw / ch`, here as `w * ch > h * cw`: the canvas sides are positive, so
   * this agrees with the division, also for a zero image height (where
   * JavaScript compares Infinity or NaN). A wider image keeps its height
   * and loses its sides, any other keeps its width and loses top and bottom.
   * Without a preset the whole image is used.
   */
  function SourceRect(p: CropPreset, img: Size): (r: Rect)
    ensures 0.0 <= r.x && 0.0 <= r.y && 0.0 <= r.width && 0.0 <= r.height
    ensures r.x + r.width + r.x == img.width as real
    ensures r.y + r.height + r.y == img.height as real
    ensures UsesPreset(p) ==>
      var c := CanvasSize(p, img);
      && r.width * c.height as real == r.height * c.width as real
      && (r.width == img.width as real || r.height == img.height as real)
    ensures !UsesPreset(p) ==> r == Rect(0.0, 0.0, img.width as real, img.height as real)
  {
    var w, h := img.width as real, img.height as real;
    if UsesPreset(p) then
      var c := CanvasSize(p, img);
      var cw, ch := c.width as real, c.height as real;
      if w * ch > h * cw then CropSides(w, h, cw, ch)
      else CropTopBottom(w, h, cw, ch)
    else
      Rect(0.0, 0.0, w, h)
  }

  /** The destination rectangle: the whole canvas, centred on the origin the canvas was translated to. */
  function DestRect(c: Size): (r: Rect)
    ensures r.x + r.width / 2.0 == 0.0 && r.y + r.height / 2.0 == 0.0
    ensures r.width == c.width as real && r.height == c.height as real
  {
    Rect(-(c.width as real) / 2.0, -(c.height as real) / 2.0, c.width as real, c.height as real)
  }

  /** The circle-clip radius `Math.min(canvasWidth, canvasHeight) / 2`: the largest disc that fits the canvas. */
  function CircleRadius(c: Size): (radius: real)
    ensures 0.0 <= 2.0 * radius <= c.width as real
    ensures 2.0 * radius <= c.height as real
    ensures 2.0 * radius == c.width as real || 2.0 * radius == c.height as real
  {
    (if c.width <= c.height then c.width else c.height) as real / 2.0
  }

  /** The original preset draws the whole image at zero offset onto a canvas of the image's own size. */
  lemma OriginalUsesWholeImage(img: Size)
    ensures CanvasSize(Original, img) == img
    ensures SourceRect(Original, img) == Rect(0.0, 0.0, img.width as real, img.height as real)
  {
  }

  /**
   * An image with the preset's own aspect ratio is not cropped at all:
   * a 200 x 200 image with the Facebook preset gives a 170 x 170 canvas
   * drawn from the whole image.
   */
  lemma SquareImageOnSquarePreset(p: CropPreset, n: nat)
    requires UsesPreset(p)
    ensures SourceRect(p, Size(n, n)) == Rect(0.0, 0.0, n as real, n as real)
    ensures CanvasSize(Facebook, Size(200, 200)) == Size(170, 170)
  {
    var c := PresetSize(p);
    assert c.width == c.height;
    var r := SourceRect(p, Size(n, n));
    assert r.width * c.height as real == r.height * c.width as real;
    assert r.width == r.height by {
      assert (r.width - r.height) * c.height as real == 0.0;
    }
  }
}
