/**
 * The text overlay step of `renderCanvas`: where the caption is anchored,
 * which baseline it is drawn with, the rectangle painted behind it and the
 * CSS font string it is drawn in.
 *
 * The width `measureText` reports is a parameter here. The source measures
 * before it sets the caption's font, so the width is that of the caption in
 * the canvas's font at that moment, not necessarily its drawn width. A caption drawn with baseline `top` at `y`
 * occupies the band `[y, y + size]`; with baseline `middle` it occupies
 * `[y - size / 2, y + size / 2]` (the em box of the font).
 */
module TextOverlay {
  import opened EditorParams
  import opened Geometry

  datatype Option<T> = None | Some(value: T)

  /** The two values the text baseline is set to. */
  datatype Baseline = BaselineTop | BaselineMiddle

  /** A vertical stretch `[lo, hi]` of the canvas. */
  datatype Band = Band(lo: real, hi: real)

  /** Everything the overlay step hands to the canvas for one caption. */
  datatype TextLayout = TextLayout(
    x: real,
    y: real,
    baseline: Baseline,
    background: Option<Rect>,
    font: string)

  /** The anchor height: `size + 10` for `top`, `height - size - 10` for `bottom`, half the height for `center`. */
  function TextY(pos: TextPosition, size: int, canvasHeight: nat): real
  {
    match pos
    case Top => size as real + 10.0
    case Bottom => canvasHeight as real - size as real - 10.0
    case Center => canvasHeight as real / 2.0
  }

  /** `middle` for a centred caption, `top` otherwise. */
  function BaselineOf(pos: TextPosition): (b: Baseline)
    ensures b == BaselineMiddle <==> pos == Center
  {
    if pos == Center then BaselineMiddle else BaselineTop
  }

  /** The band a caption of `size` covers when drawn at `y` with the baseline its position selects. */
  function TextBand(pos: TextPosition, y: real, size: int): (b: Band)
    ensures b.hi - b.lo == size as real
  {
    match BaselineOf(pos)
    case BaselineTop => Band(y, y + size as real)
    case BaselineMiddle => Band(y - size as real / 2.0, y + size as real / 2.0)
  }

  /** The background box is one and a half times the text size high. */
  function BoxHeight(size: int): real
  {
    size as real * 1.5
  }

  /**
   * The top of the background box as the source computes it: centred on
   * the anchor for `center`, 5 above the anchor for `top`, and for `bottom`
   * a box that ENDS 5 below the anchor, as if the caption sat on top of it.
   */
  function BoxTopAsWritten(pos: TextPosition, y: real, size: int): real
  {
    match pos
    case Center => y - BoxHeight(size) / 2.0
    case Top => y - 5.0
    case Bottom => y - BoxHeight(size) + 5.0
  }

  /**
   * The top of the background box as intended: the `bottom` caption is
   * drawn with baseline `top` like the `top` one, so its box starts 5 above
   * the anchor as well. Only the `bottom` case differs from the source.
   */
  function BoxTop(pos: TextPosition, y: real, size: int): (top: real)
    ensures pos != Bottom ==> top == BoxTopAsWritten(pos, y, size)
    ensures pos == Bottom ==> top == BoxTopAsWritten(Top, y, size)
  {
    if pos == Center then y - BoxHeight(size) / 2.0 else y - 5.0
  }

  /** A box `[top, top + height]` contains the band. */
  predicate Covers(top: real, height: real, b: Band)
  {
    top <= b.lo && b.hi <= top + height
  }

  /**
   * With the corrected top, the background box covers the caption in
   * every position for every size the size slider allows (10 and more).
   */
  lemma BoxCoversText(pos: TextPosition, y: real, size: int)
    requires size >= 10
    ensures Covers(BoxTop(pos, y, size), BoxHeight(size), TextBand(pos, y, size))
  {
  }

  /** A centred box covers its caption at any non-negative size; a `top` box needs a size of at least 10. */
  lemma CoverageThreshold(y: real, size: int)
    requires size >= 0
    ensures Covers(BoxTop(Center, y, size), BoxHeight(size), TextBand(Center, y, size))
    ensures Covers(BoxTop(Top, y, size), BoxHeight(size), TextBand(Top, y, size)) <==> size >= 10
  {
  }

  /**
   * As written, the `bottom` box spans `[y - 1.5 size + 5, y + 5]` while the
   * caption spans `[y, y + size]`: for every size above 5 the lower part of
   * the caption hangs below its box, and only 5 of its rows are behind it.
   */
  lemma BottomBoxMissesTextAsWritten(y: real, size: int)
    requires size > 5
    ensures !Covers(BoxTopAsWritten(Bottom, y, size), BoxHeight(size), TextBand(Bottom, y, size))
    ensures BoxTopAsWritten(Bottom, y, size) + BoxHeight(size) == TextBand(Bottom, y, size).lo + 5.0
  {
  }

  /** The default caption size 24 at the bottom of a 400-high canvas: box [335, 371], caption [366, 390]. */
  lemma DefaultBottomCaptionAsWritten()
    ensures var y := TextY(Bottom, 24, 400);
      && y == 366.0
      && BoxTopAsWritten(Bottom, y, 24) == 335.0
      && TextBand(Bottom, y, 24) == Band(366.0, 390.0)
      && !Covers(BoxTopAsWritten(Bottom, y, 24), BoxHeight(24), TextBand(Bottom, y, 24))
  {
  }

  /**
   * A background rectangle with top `top`: `measured + 20` wide, where
   * `measured` is the width `measureText` reported, `1.5 * size` high,
   * centred on the canvas's vertical midline.
   */
  function BoxAt(top: real, size: int, canvasWidth: nat, measured: real): (r: Rect)
    ensures r.width == measured + 20.0 && r.height == BoxHeight(size)
    ensures r.x + r.width / 2.0 == canvasWidth as real / 2.0
    ensures r.y == top
  {
    Rect(canvasWidth as real / 2.0 - (measured + 20.0) / 2.0, top, measured + 20.0, BoxHeight(size))
  }

  /**
   * The overlay step for the current parameters, a canvas of size `c` and
   * the caption's measured width, with the background box's top computed
   * by `boxTop` (the source's rule or the corrected one).
   */
  function LayoutWith(s: Snapshot, c: Size, measured: real, boxTop: (TextPosition, real, int) -> real): Option<TextLayout>
  {
    if s.textOverlay == "" then None
    else
      var y := TextY(s.textPosition, s.textSize, c.height);
      var box := if s.textBgColor == "" then None
        else Some(BoxAt(boxTop(s.textPosition, y, s.textSize), s.textSize, c.width, measured));
      Some(TextLayout(c.width as real / 2.0, y, BaselineOf(s.textPosition), box,
        FontString(s.textBold, s.textItalic, s.textSize, s.textFont)))
  }

  /**
   * The overlay step as written: nothing at all for an empty caption;
   * otherwise the caption centred horizontally at its anchor height, and a
   * background box exactly when a background colour is set, placed by the
   * source's rule `BoxTopAsWritten`.
   */
  function Layout(s: Snapshot, c: Size, measured: real): (r: Option<TextLayout>)
    ensures r == None <==> s.textOverlay == ""
    ensures r.Some? ==>
      && r.value.x + r.value.x == c.width as real
      && r.value.y == TextY(s.textPosition, s.textSize, c.height)
      && (r.value.baseline == BaselineMiddle <==> s.textPosition == Center)
      && (r.value.background.Some? <==> s.textBgColor != "")
      && r.value.font == FontString(s.textBold, s.textItalic, s.textSize, s.textFont)
    ensures r.Some? && r.value.background.Some? ==>
      var box := r.value.background.value;
      && box.y == BoxTopAsWritten(s.textPosition, r.value.y, s.textSize)
      && box.width == measured + 20.0 && box.height == BoxHeight(s.textSize)
      && box.x + box.width / 2.0 == c.width as real / 2.0
  {
    LayoutWith(s, c, measured, BoxTopAsWritten)
  }

  /** The overlay step with the corrected box top; it differs from `Layout` only in the `bottom` box. */
  function LayoutCorrected(s: Snapshot, c: Size, measured: real): (r: Option<TextLayout>)
    ensures r.Some? <==> Layout(s, c, measured).Some?
    ensures r.Some? ==>
      var w := Layout(s, c, measured).value;
      && r.value.(background := None) == w.(background := None)
      && (r.value.background.Some? <==> w.background.Some?)
      && (r.value.background.Some? ==>
            r.value.background.value == w.background.value.(y := BoxTop(s.textPosition, r.value.y, s.textSize)))
    ensures s.textPosition != Bottom ==> r == Layout(s, c, measured)
  {
    LayoutWith(s, c, measured, BoxTop)
  }

  /** As written, a bottom caption with a background colour and a size above 5 is not covered by its box. */
  lemma LayoutBottomBoxMissesText(s: Snapshot, c: Size, measured: real)
    requires s.textOverlay != "" && s.textBgColor != "" && s.textPosition == Bottom && s.textSize > 5
    ensures var r := Layout(s, c, measured);
      && r.Some? && r.value.background.Some?
      && !Covers(r.value.background.value.y, r.value.background.value.height,
            TextBand(s.textPosition, r.value.y, s.textSize))
  {
    BottomBoxMissesTextAsWritten(TextY(Bottom, s.textSize, c.height), s.textSize);
  }

  /** With the corrected box top, every background box drawn for in-range parameters covers the caption. */
  lemma LayoutCorrectedBoxCoversText(s: Snapshot, c: Size, measured: real)
    requires InBounds(s)
    ensures var r := LayoutCorrected(s, c, measured);
      r.Some? && r.value.background.Some? ==>
        Covers(r.value.background.value.y, r.value.background.value.height,
          TextBand(s.textPosition, r.value.y, s.textSize))
  {
    BoxCoversText(s.textPosition, TextY(s.textPosition, s.textSize, c.height), s.textSize);
  }

  /** The top and bottom anchors mirror each other about the centre anchor. */
  lemma AnchorsMirror(size: int, canvasHeight: nat)
    ensures TextY(Top, size, canvasHeight) + TextY(Bottom, size, canvasHeight)
      == TextY(Center, size, canvasHeight) + TextY(Center, size, canvasHeight)
  {
  }

  /**
   * Where the caption lands: a `top` caption leaves `size + 10` above it, a
   * `bottom` caption ends 10 above the bottom edge, a centred caption is
   * centred. On a canvas at least `2 * size + 20` high both stay inside it.
   */
  lemma CaptionPlacement(size: int, canvasHeight: nat)
    requires size >= 0
    ensures TextBand(Top, TextY(Top, size, canvasHeight), size).lo == size as real + 10.0
    ensures TextBand(Bottom, TextY(Bottom, size, canvasHeight), size).hi == canvasHeight as real - 10.0
    ensures var b := TextBand(Center, TextY(Center, size, canvasHeight), size);
      b.lo + b.hi == canvasHeight as real
    ensures canvasHeight >= 2 * size + 20 ==>
      && TextBand(Top, TextY(Top, size, canvasHeight), size).hi <= canvasHeight as real
      && TextBand(Bottom, TextY(Bottom, size, canvasHeight), size).lo >= 0.0
  {
  }

  // ---------------------------------------------------------------------
  // The font string

  predicate IsDigit(ch: char)
  {
    '0' <= ch <= '9'
  }

  predicate AllDigits(s: string)
  {
    forall k | 0 <= k < |s| :: IsDigit(s[k])
  }

  /** The character of a digit. */
  function DigitChar(d: int): (ch: char)
    requires 0 <= d < 10
    ensures IsDigit(ch)
  {
    ['0', '1', '2', '3', '4', '5', '6', '7', '8', '9'][d]
  }

  /** The decimal numeral of `n`, as a template literal prints it: digits only, no leading zero. */
  function Decimal(n: nat): (s: string)
    ensures |s| >= 1 && AllDigits(s)
    ensures s[0] == '0' ==> n == 0
  {
    if n < 10 then [DigitChar(n)] else Decimal(n / 10) + [DigitChar(n % 10)]
  }

  /** A whole number as a template literal prints it: a minus sign, if any, then the decimal numeral. */
  function IntToString(n: int): (s: string)
    ensures |s| >= 1 && (IsDigit(s[0]) || s[0] == '-')
  {
    if n < 0 then "-" + Decimal(-n) else Decimal(n)
  }

  /** The value of a string of digits, most significant first. */
  function Value(s: string): int
  {
    if s == [] then 0 else Value(s[..|s| - 1]) * 10 + (s[|s| - 1] as int - '0' as int)
  }

  /** Reading the numeral back gives the number. */
  lemma {:induction false} DecimalValue(n: nat)
    ensures Value(Decimal(n)) == n
  {
    var s := Decimal(n);
    if n >= 10 {
      DecimalValue(n / 10);
      assert s[..|s| - 1] == Decimal(n / 10);
    }
    assert ['0', '1', '2', '3', '4', '5', '6', '7', '8', '9'][n % 10] as int - '0' as int == n % 10;
  }

  /** The length of the run of digits `s` starts with. */
  function DigitRun(s: string): (k: nat)
    ensures k <= |s| && AllDigits(s[..k])
    ensures k < |s| ==> !IsDigit(s[k])
  {
    if s == [] || !IsDigit(s[0]) then 0
    else
      var k := 1 + DigitRun(s[1..]);
      assert s[..k] == [s[0]] + s[1..][..k - 1];
      k
  }

  /** A numeral followed by a non-digit is read as exactly that numeral. */
  lemma {:induction false} DigitRunOfNumeral(ds: string, rest: string)
    requires AllDigits(ds)
    requires rest == [] || !IsDigit(rest[0])
    ensures DigitRun(ds + rest) == |ds|
  {
    if ds != [] {
      assert (ds + rest)[1..] == ds[1..] + rest;
      DigitRunOfNumeral(ds[1..], rest);
    }
  }

  /** `"bold "` and then `"italic "`, each only when selected. */
  function StylePrefix(bold: bool, italic: bool): string
  {
    (if bold then "bold " else "") + (if italic then "italic " else "")
  }

  /** The size part of the font shorthand: the size in pixels, then `px ` and the family. */
  function SizePart(size: int, family: string): string
  {
    IntToString(size) + "px " + family
  }

  /** The CSS font shorthand the caption is drawn in, e.g. `"bold 24px Arial"`. */
  function FontString(bold: bool, italic: bool, size: int, family: string): string
  {
    StylePrefix(bold, italic) + SizePart(size, family)
  }

  /** The fields a font string is made of. */
  datatype FontSpec = FontSpec(bold: bool, italic: bool, size: int, family: string)

  /** Removes `word` from the front of `f` when it is there, reporting whether it was. */
  function DropWord(word: string, f: string): (bool, string)
  {
    if |f| >= |word| && f[..|word|] == word then (true, f[|word|..]) else (false, f)
  }

  /** Removes the leading style words of a font string, reporting which were there. */
  function StripStyle(f: string): (bool, bool, string)
  {
    var bold := DropWord("bold ", f);
    var italic := DropWord("italic ", bold.1);
    (bold.0, italic.0, italic.1)
  }

  /** Reads a numeral and `px `, returning the number and what follows. */
  function ParseUnsigned(r: string): Option<(int, string)>
  {
    var k := DigitRun(r);
    if k == 0 || |r| < k + 3 || r[k..k + 3] != "px " then None
    else Some((Value(r[..k]), r[k + 3..]))
  }

  /** Reads an optional minus sign, a numeral and `px `, returning the number and what follows. */
  function ParseSize(r: string): Option<(int, string)>
  {
    if |r| > 0 && r[0] == '-' then
      match ParseUnsigned(r[1..])
      case None => None
      case Some((v, rest)) => Some((-v, rest))
    else
      ParseUnsigned(r)
  }

  /** Reading a font string back: the style words, the size in pixels and the family. */
  function ParseFontString(f: string): Option<FontSpec>
  {
    var style := StripStyle(f);
    match ParseSize(style.2)
    case None => None
    case Some(sized) => Some(FontSpec(style.0, style.1, sized.0, sized.1))
  }

  /** A numeral followed by `px ` reads back as its number and what follows. */
  lemma ParseUnsignedRoundTrip(m: nat, family: string)
    ensures ParseUnsigned(Decimal(m) + "px " + family) == Some((m, family))
  {
    DecimalValue(m);
    ParseNumeral(Decimal(m), m, family);
  }

  /** A non-empty run of digits of value `v` followed by `px ` reads back as `v` and what follows. */
  lemma ParseNumeral(ds: string, v: int, family: string)
    requires |ds| > 0 && AllDigits(ds) && Value(ds) == v
    ensures ParseUnsigned(ds + "px " + family) == Some((v, family))
  {
    var r := ds + "px " + family;
    assert r == ds + ("px " + family);
    DigitRunOfNumeral(ds, "px " + family);
    var k := |ds|;
    assert r[..k] == ds;
    assert r[k..k + 3] == "px ";
    assert r[k + 3..] == family;
  }

  /** A negative size part reads back: the minus sign, then the numeral of its magnitude. */
  lemma ParseNegativeSize(n: int, family: string)
    requires n < 0
    ensures ParseSize(SizePart(n, family)) == Some((n, family))
  {
    NegativeNumeral(n, family);
    ParseMinusNumeral(n, family);
  }

  /** A minus sign, the numeral of a magnitude and `px ` read back as the negative size. */
  lemma ParseMinusNumeral(n: int, family: string)
    requires n < 0
    ensures ParseSize(['-'] + (Decimal(-n) + "px " + family)) == Some((n, family))
  {
    ParseUnsignedRoundTrip(-n, family);
    ParseMinus(['-'] + (Decimal(-n) + "px " + family), Decimal(-n) + "px " + family, -n, family);
  }

  /** The size part of a negative size is a minus sign before the size part of its magnitude. */
  lemma NegativeNumeral(n: int, family: string)
    requires n < 0
    ensures SizePart(n, family) == ['-'] + (Decimal(-n) + "px " + family)
  {
  }

  /** A minus sign in front of a size part negates the size read. */
  lemma ParseMinus(r: string, t: string, v: int, rest: string)
    requires r == ['-'] + t
    requires ParseUnsigned(t) == Some((v, rest))
    ensures ParseSize(r) == Some((-v, rest))
  {
    assert r[1..] == t;
  }

  /** The size part of a font string reads back as the size and the family. */
  lemma ParseSizeRoundTrip(n: int, family: string)
    ensures ParseSize(SizePart(n, family)) == Some((n, family))
  {
    if n < 0 {
      ParseNegativeSize(n, family);
    } else {
      assert SizePart(n, family) == Decimal(n) + "px " + family;
      ParseUnsignedRoundTrip(n, family);
    }
  }

  /** A word, when present, is dropped from the front of a rest that starts differently, and only then. */
  lemma DropWordRoundTrip(word: string, present: bool, rest: string)
    requires |word| > 0 && |rest| > 0 && rest[0] != word[0]
    ensures DropWord(word, (if present then word else "") + rest) == (present, rest)
  {
    var f := (if present then word else "") + rest;
    if present {
      assert f[..|word|] == word && f[|word|..] == rest;
    } else {
      assert f == rest;
      assert |f| >= |word| ==> f[..|word|][0] != word[0];
    }
  }

  /** Removing the style words from a font string gives back both flags and the size part. */
  lemma StripStyleRoundTrip(bold: bool, italic: bool, tail: string)
    requires |tail| >= 1 && (IsDigit(tail[0]) || tail[0] == '-')
    ensures StripStyle(StylePrefix(bold, italic) + tail) == (bold, italic, tail)
  {
    var r1 := (if italic then "italic " else "") + tail;
    assert StylePrefix(bold, italic) + tail == (if bold then "bold " else "") + r1;
    DropWordRoundTrip("italic ", italic, tail);
    assert r1[0] != 'b' by {
      if italic {
        assert r1[0] == 'i';
      } else {
        assert r1[0] == tail[0];
      }
    }
    DropWordRoundTrip("bold ", bold, r1);
  }

  /** The font string can be read back, so no two font settings produce the same string. */
  lemma ParseFontStringRoundTrip(bold: bool, italic: bool, size: int, family: string)
    ensures ParseFontString(FontString(bold, italic, size, family)) == Some(FontSpec(bold, italic, size, family))
  {
    StripStyleRoundTrip(bold, italic, SizePart(size, family));
    ParseSizeRoundTrip(size, family);
  }

  /** Different font settings give different font strings. */
  lemma FontStringInjective(a: FontSpec, b: FontSpec)
    requires FontString(a.bold, a.italic, a.size, a.family) == FontString(b.bold, b.italic, b.size, b.family)
    ensures a == b
  {
    ParseFontStringRoundTrip(a.bold, a.italic, a.size, a.family);
    ParseFontStringRoundTrip(b.bold, b.italic, b.size, b.family);
  }
}
