/**
 * The sharpening pass of `renderCanvas`: it walks the interior pixels of
 * the RGBA buffer in row-major order and, for the three colour channels,
 * pushes each byte away from the average of its four axis neighbours by
 * `sharpness / 10` of the difference.
 *
 * The buffer is updated in place while it is being read, so when a byte
 * is computed its left and upper neighbours already hold their sharpened
 * values and its right and lower neighbours still hold the input values.
 * The specification below says exactly that; it is not a convolution of
 * the input buffer.
 */
module Sharpen {

  /** The byte at channel `c` of pixel `(x, y)` in a buffer `w` pixels wide. */
  function Pos(w: nat, x: int, y: int, c: int): int
  {
    (y * w + x) * 4 + c
  }

  /** The column of byte `i`. */
  function Col(w: nat, i: int): int
  {
    if w == 0 then 0 else (i / 4) % w
  }

  /** The row of byte `i`. */
  function Row(w: nat, i: int): int
  {
    if w == 0 then 0 else (i / 4) / w
  }

  /** Integer division with a remainder in range is unique. */
  lemma DivModUnique(n: int, d: int, q: int, r: int)
    requires d > 0 && 0 <= r < d && n == q * d + r
    ensures n / d == q && n % d == r
  {
    var k := q - n / d;
    assert k * d == n % d - r;
    MulBounds(k, d);
  }

  /** A non-zero multiple of a positive number is at least that number in size. */
  lemma MulBounds(k: int, d: int)
    requires d > 0
    ensures k >= 1 ==> k * d >= d
    ensures k <= -1 ==> k * d <= -d
  {
  }

  /** Byte `Pos(w, x, y, c)` lies in column `x`, row `y`, channel `c`. */
  lemma Decode(w: nat, x: int, y: int, c: int)
    requires 0 <= x < w && 0 <= y && 0 <= c < 4
    ensures Pos(w, x, y, c) % 4 == c
    ensures Col(w, Pos(w, x, y, c)) == x && Row(w, Pos(w, x, y, c)) == y
  {
    DivModUnique(Pos(w, x, y, c), 4, y * w + x, c);
    DivModUnique(y * w + x, w, y, x);
  }

  /** A byte is rebuilt from its column, row and channel. */
  lemma Encode(w: nat, i: int)
    requires w > 0 && 0 <= i
    ensures i == Pos(w, Col(w, i), Row(w, i), i % 4)
  {
  }

  /** The bytes of an interior pixel are at least one row and one pixel away from both ends of the buffer. */
  lemma InteriorInBounds(w: nat, h: nat, i: int)
    requires w > 0 && 0 <= i && 1 <= Col(w, i) < w - 1 && 1 <= Row(w, i) < h - 1
    ensures 4 * w + 4 <= i && i + 4 * w + 4 < w * h * 4
  {
    var x, y, c := Col(w, i), Row(w, i), i % 4;
    Encode(w, i);
    assert i == (y * w + x) * 4 + c;
    MulMono(1, y, w);
    MulMono(y, h - 2, w);
    assert (h - 2) * w == h * w - 2 * w;
  }

  /** A colour byte (not alpha) of a pixel that is not on the border. */
  predicate InteriorColour(w: nat, h: nat, i: int)
    ensures InteriorColour(w, h, i) ==> 4 * w + 4 <= i && i + 4 * w + 4 < w * h * 4
  {
    if w > 0 && 0 <= i && i % 4 < 3 && 1 <= Col(w, i) < w - 1 && 1 <= Row(w, i) < h - 1 then
      InteriorInBounds(w, h, i);
      true
    else
      false
  }

  /** `Math.min(255, Math.max(0, v))`. */
  function Clamp255(v: real): (r: real)
    ensures 0.0 <= r <= 255.0
    ensures 0.0 <= v <= 255.0 ==> r == v
    ensures v < 0.0 ==> r == 0.0
    ensures v > 255.0 ==> r == 255.0
  {
    if v < 0.0 then 0.0 else if v > 255.0 then 255.0 else v
  }

  /** Rounding to the nearest integer, ties to the even one. */
  function RoundHalfEven(v: real): (r: int)
    requires 0.0 <= v <= 255.0
    ensures 0 <= r <= 255
    ensures -0.5 <= r as real - v <= 0.5
    ensures (r as real - v == 0.5 || v - r as real == 0.5) ==> r % 2 == 0
  {
    var f := v.Floor;
    var frac := v - f as real;
    if frac < 0.5 then f
    else if frac > 0.5 then f + 1
    else if f % 2 == 0 then f else f + 1
  }

  /** Storing a real into a `Uint8ClampedArray` element: clamp to [0, 255], then round ties to even. */
  function StoreByte(v: real): (r: int)
    ensures 0 <= r <= 255
    ensures v <= 0.0 ==> r == 0
    ensures v >= 255.0 ==> r == 255
    ensures 0.0 <= v <= 255.0 ==> -0.5 <= r as real - v <= 0.5
    ensures 0.0 <= v <= 255.0 && (r as real - v == 0.5 || v - r as real == 0.5) ==> r % 2 == 0
  {
    RoundHalfEven(Clamp255(v))
  }

  /**
   * The new value of one colour byte: `current + (current - average) * factor`
   * with `average` the mean of the four neighbours, stored as a byte. It
   * never moves toward the average, and a zero factor keeps the byte.
   */
  function Sharpened(current: int, left: int, right: int, up: int, down: int, factor: real): (r: int)
    requires 0 <= current <= 255 && factor >= 0.0
    ensures 0 <= r <= 255
    ensures 4 * current >= left + right + up + down ==> r >= current
    ensures 4 * current <= left + right + up + down ==> r <= current
    ensures factor == 0.0 ==> r == current
  {
    var neighbours := (left + right + up + down) as real / 4.0;
    var cur := current as real;
    var v := cur + (cur - neighbours) * factor;
    assert 4 * current >= left + right + up + down ==> cur >= neighbours && v >= cur;
    assert 4 * current <= left + right + up + down ==> cur <= neighbours && v <= cur;
    StoreByte(v)
  }

  /**
   * The byte the loop body stores, in terms of the source's expression
   * `v = current + (current - (left + right + up + down) / 4) * factor`:
   * 0 when `v` is at most 0, 255 when it is at least 255, and otherwise
   * `v` rounded to the nearest integer, ties to the even one.
   */
  lemma SharpenedFormula(current: int, left: int, right: int, up: int, down: int, factor: real)
    requires 0 <= current <= 255 && factor >= 0.0
    ensures var v := current as real + (current as real - (left + right + up + down) as real / 4.0) * factor;
      var r := Sharpened(current, left, right, up, down, factor);
      && (v <= 0.0 ==> r == 0)
      && (v >= 255.0 ==> r == 255)
      && (0.0 <= v <= 255.0 ==> -0.5 <= r as real - v <= 0.5)
      && (0.0 <= v <= 255.0 && (r as real - v == 0.5 || v - r as real == 0.5) ==> r % 2 == 0)
  {
  }

  /** Every element is a byte, as in a `Uint8ClampedArray`. */
  predicate IsBytes(s: seq<int>)
  {
    forall i | 0 <= i < |s| :: 0 <= s[i] <= 255
  }

  /**
   * The buffer `cur`, started from `orig`, once the loops have handled every
   * byte below index `p` (the loops visit colour bytes in increasing index
   * order): each interior colour byte below `p` holds `SharpenedAt`, every
   * other byte still holds its input value.
   */
  ghost predicate Progress(cur: seq<int>, orig: seq<int>, w: nat, h: nat, factor: real, p: int)
    requires |cur| == |orig| == w * h * 4 && IsBytes(orig) && factor >= 0.0
  {
    && (forall i {:trigger InteriorColour(w, h, i)} | 0 <= i < |cur| && InteriorColour(w, h, i) && i < p ::
          cur[i] == SharpenedAt(cur, orig, w, h, factor, i))
    && (forall i | 0 <= i < |cur| && !(InteriorColour(w, h, i) && i < p) :: cur[i] == orig[i])
  }

  /**
   * The value interior colour byte `i` gets: `Sharpened` of its input
   * value, its left and upper neighbours as they are in `cur` and its right
   * and lower neighbours as they were in `orig`.
   */
  function SharpenedAt(cur: seq<int>, orig: seq<int>, w: nat, h: nat, factor: real, i: int): int
    requires |cur| == |orig| == w * h * 4 && IsBytes(orig) && factor >= 0.0
    requires InteriorColour(w, h, i)
  {
    Sharpened(orig[i], cur[i - 4], orig[i + 4], cur[i - 4 * w], orig[i + 4 * w], factor)
  }

  /** Every interior colour byte of `cur` holds `SharpenedAt`: the state the whole pass leaves. */
  ghost predicate SharpenedInterior(cur: seq<int>, orig: seq<int>, w: nat, h: nat, factor: real)
    requires |cur| == |orig| == w * h * 4 && IsBytes(orig) && factor >= 0.0
  {
    forall i {:trigger InteriorColour(w, h, i)} | 0 <= i < |cur| && InteriorColour(w, h, i) ::
      cur[i] == SharpenedAt(cur, orig, w, h, factor, i)
  }

  /** `a * w <= b * w` for `a <= b` and a non-negative `w`. */
  lemma MulMono(a: int, b: int, w: int)
    requires a <= b && w >= 0
    ensures a * w <= b * w
  {
    assert b * w - a * w == (b - a) * w;
  }

  /** The byte about to be written is interior, and it and its right and lower neighbours are not yet written. */
  lemma StepReads(cur: seq<int>, orig: seq<int>, w: nat, h: nat, factor: real, x: int, y: int, c: int)
    requires |cur| == |orig| == w * h * 4 && IsBytes(orig) && factor >= 0.0
    requires 1 <= x < w - 1 && 1 <= y < h - 1 && 0 <= c < 3
    requires Progress(cur, orig, w, h, factor, Pos(w, x, y, c))
    ensures InteriorColour(w, h, Pos(w, x, y, c))
    ensures Pos(w, x, y, c) + 4 * w == Pos(w, x, y + 1, c)
    ensures cur[Pos(w, x, y, c)] == orig[Pos(w, x, y, c)]
    ensures cur[Pos(w, x, y, c) + 4] == orig[Pos(w, x, y, c) + 4]
    ensures cur[Pos(w, x, y, c) + 4 * w] == orig[Pos(w, x, y, c) + 4 * w]
  {
    var p := Pos(w, x, y, c);
    Decode(w, x, y, c);
    assert InteriorColour(w, h, p);
    assert Pos(w, x, y + 1, c) == p + 4 * w;
  }

  /** Writing `SharpenedAt` into the next byte moves the progress on by one byte. */
  lemma StepKeepsProgress(cur: seq<int>, next: seq<int>, orig: seq<int>, w: nat, h: nat, factor: real, p: int)
    requires |cur| == |orig| == w * h * 4 && IsBytes(orig) && factor >= 0.0
    requires Progress(cur, orig, w, h, factor, p)
    requires InteriorColour(w, h, p)
    requires next == cur[p := SharpenedAt(cur, orig, w, h, factor, p)]
    ensures Progress(next, orig, w, h, factor, p + 1)
  {
    forall i | 0 <= i < |next|
      ensures InteriorColour(w, h, i) && i < p + 1 ==> next[i] == SharpenedAt(next, orig, w, h, factor, i)
      ensures !(InteriorColour(w, h, i) && i < p + 1) ==> next[i] == orig[i]
    {
      if i == p {
        assert next[i - 4] == cur[i - 4] && next[i - 4 * w] == cur[i - 4 * w];
        assert next[i] == SharpenedAt(next, orig, w, h, factor, i);
      } else if InteriorColour(w, h, i) && i < p {
        assert next[i - 4] == cur[i - 4] && next[i - 4 * w] == cur[i - 4 * w];
        assert cur[i] == SharpenedAt(cur, orig, w, h, factor, i);
        assert next[i] == SharpenedAt(next, orig, w, h, factor, i);
      } else {
        assert next[i] == cur[i];
      }
    }
  }

  /**
   * One pass of the channel loop at pixel `(x, y)`, whose first byte is
   * `idx`: the five reads are in bounds, and storing `Sharpened` of them
   * into byte `idx + c` moves the progress on by one byte.
   */
  lemma ChannelStep(cur: seq<int>, orig: seq<int>, w: nat, h: nat, factor: real, x: int, y: int, c: int, idx: int)
    requires |cur| == |orig| == w * h * 4 && IsBytes(orig) && factor >= 0.0
    requires 1 <= x < w - 1 && 1 <= y < h - 1 && 0 <= c < 3 && idx == (y * w + x) * 4
    requires Progress(cur, orig, w, h, factor, Pos(w, x, y, c))
    ensures 0 <= idx - w * 4 + c && idx + w * 4 + c < |cur|
    ensures Progress(cur[idx + c := Sharpened(cur[idx + c], cur[idx - 4 + c], cur[idx + 4 + c],
        cur[idx - w * 4 + c], cur[idx + w * 4 + c], factor)], orig, w, h, factor, Pos(w, x, y, c + 1))
  {
    var p := Pos(w, x, y, c);
    StepReads(cur, orig, w, h, factor, x, y, c);
    assert idx + c == p && idx - w * 4 + c == p - 4 * w && idx + w * 4 + c == p + 4 * w;
    var v := Sharpened(cur[idx + c], cur[idx - 4 + c], cur[idx + 4 + c], cur[idx - w * 4 + c], cur[idx + w * 4 + c], factor);
    assert v == SharpenedAt(cur, orig, w, h, factor, p);
    StepKeepsProgress(cur, cur[p := v], orig, w, h, factor, p);
  }

  /** Progress skips over a stretch of bytes none of which is an interior colour byte. */
  lemma SkipGap(cur: seq<int>, orig: seq<int>, w: nat, h: nat, factor: real, p: int, q: int)
    requires |cur| == |orig| == w * h * 4 && IsBytes(orig) && factor >= 0.0
    requires p <= q
    requires forall i | p <= i < q :: !InteriorColour(w, h, i)
    requires Progress(cur, orig, w, h, factor, p)
    ensures Progress(cur, orig, w, h, factor, q)
  {
  }

  /** The alpha byte of a pixel is the byte just before the next pixel's first colour byte, and is not a colour byte. */
  lemma PixelGap(w: nat, h: nat, x: int, y: int)
    requires 0 <= x < w && 0 <= y
    ensures Pos(w, x + 1, y, 0) == Pos(w, x, y, 3) + 1
    ensures forall i | Pos(w, x, y, 3) <= i < Pos(w, x + 1, y, 0) :: !InteriorColour(w, h, i)
  {
    Decode(w, x, y, 3);
  }

  /**
   * From the first pixel the row loop did not visit to the first interior
   * pixel of the next row, there are only border pixels: the right border of
   * row `y` and the left border of row `y + 1`.
   */
  lemma RowGap(w: nat, h: nat, x: int, y: int)
    requires 1 <= x && w - 1 <= x && (x <= w - 1 || x == 1) && 0 <= y
    ensures Pos(w, x, y, 0) <= Pos(w, 1, y + 1, 0)
    ensures forall i | Pos(w, x, y, 0) <= i < Pos(w, 1, y + 1, 0) :: !InteriorColour(w, h, i)
  {
    assert Pos(w, 1, y + 1, 0) == (y * w + w + 1) * 4;
    forall i | Pos(w, x, y, 0) <= i < Pos(w, 1, y + 1, 0)
      ensures !InteriorColour(w, h, i)
    {
      if w > 0 {
        var j := i / 4;
        assert y * w + x <= j <= y * w + w;
        if j < y * w + w {
          DivModUnique(j, w, y, j - y * w);
          assert Col(w, i) == j - y * w;
        } else {
          DivModUnique(j, w, y + 1, 0);
          assert Col(w, i) == 0;
        }
      }
    }
  }

  /** Every interior colour byte lies below the first byte of row `y` when `y` is past the last interior row. */
  lemma InteriorBelow(w: nat, h: nat, y: int, i: int)
    requires y >= h - 1 && InteriorColour(w, h, i)
    ensures i < Pos(w, 1, y, 0)
  {
    var col, row, c := Col(w, i), Row(w, i), i % 4;
    Encode(w, i);
    MulMono(row, y - 1, w);
    assert i == (row * w + col) * 4 + c;
    assert (y - 1) * w == y * w - w;
  }

  /** Once the row loop has passed the last interior row, every interior colour byte is done. */
  lemma AllDone(cur: seq<int>, orig: seq<int>, w: nat, h: nat, factor: real, y: int)
    requires |cur| == |orig| == w * h * 4 && IsBytes(orig) && factor >= 0.0
    requires y >= h - 1
    requires Progress(cur, orig, w, h, factor, Pos(w, 1, y, 0))
    ensures forall i | 0 <= i < |cur| && !InteriorColour(w, h, i) :: cur[i] == orig[i]
    ensures SharpenedInterior(cur, orig, w, h, factor)
  {
    forall i | 0 <= i < |cur| && InteriorColour(w, h, i)
      ensures cur[i] == SharpenedAt(cur, orig, w, h, factor, i)
    {
      InteriorBelow(w, h, y, i);
    }
  }

  /** A progress state holds only bytes. */
  lemma ProgressBytes(cur: seq<int>, orig: seq<int>, w: nat, h: nat, factor: real, p: int)
    requires |cur| == |orig| == w * h * 4 && IsBytes(orig) && factor >= 0.0
    requires Progress(cur, orig, w, h, factor, p)
    ensures IsBytes(cur)
  {
  }

  /** Without an interior (a width or height below 3) there is no interior colour byte. */
  lemma NoInterior(w: nat, h: nat, i: int)
    requires w < 3 || h < 3
    ensures !InteriorColour(w, h, i)
  {
  }

  /**
   * One pass of the `x` loop over interior row `y`: every interior colour
   * byte of the row gets its `SharpenedAt` value, and the progress moves on
   * to the first interior byte of the next row.
   */
  method SharpenRow(data: array<int>, w: nat, h: nat, factor: real, y: int, ghost orig: seq<int>)
    requires data.Length == w * h * 4 && |orig| == w * h * 4 && IsBytes(orig) && factor >= 0.0
    requires 1 <= y < h - 1
    requires Progress(data[..], orig, w, h, factor, Pos(w, 1, y, 0))
    modifies data
    ensures Progress(data[..], orig, w, h, factor, Pos(w, 1, y + 1, 0))
  {
    var x := 1;
    while x < w - 1
      invariant 1 <= x && (x <= w - 1 || x == 1)
      invariant Progress(data[..], orig, w, h, factor, Pos(w, x, y, 0))
    {
      var idx := (y * w + x) * 4;
      var c := 0;
      while c < 3
        invariant 0 <= c <= 3
        invariant Progress(data[..], orig, w, h, factor, Pos(w, x, y, c))
      {
        ChannelStep(data[..], orig, w, h, factor, x, y, c, idx);
        data[idx + c] := Sharpened(data[idx + c], data[idx - 4 + c], data[idx + 4 + c],
          data[idx - w * 4 + c], data[idx + w * 4 + c], factor);
        c := c + 1;
      }
      PixelGap(w, h, x, y);
      SkipGap(data[..], orig, w, h, factor, Pos(w, x, y, 3), Pos(w, x + 1, y, 0));
      x := x + 1;
    }
    RowGap(w, h, x, y);
    SkipGap(data[..], orig, w, h, factor, Pos(w, x, y, 0), Pos(w, 1, y + 1, 0));
  }

  /**
   * The sharpening block: when `sharpness > 0`, the nested `y`/`x`/`c` loops
   * over a `w` x `h` RGBA buffer. Each interior colour byte ends up as
   * `Sharpened` of its own input value, its left and upper neighbours'
   * RESULT values and its right and lower neighbours' INPUT values; every
   * other byte, the border and all alpha bytes, is left as it was.
   */
  method SharpenPass(data: array<int>, w: nat, h: nat, sharpness: real)
    requires data.Length == w * h * 4
    requires IsBytes(data[..])
    requires sharpness >= 0.0
    modifies data
    ensures IsBytes(data[..])
    ensures forall i | 0 <= i < data.Length && !(sharpness > 0.0 && InteriorColour(w, h, i)) ::
      data[i] == old(data[i])
    ensures sharpness > 0.0 ==> SharpenedInterior(data[..], old(data[..]), w, h, sharpness / 10.0)
    ensures sharpness == 0.0 || w < 3 || h < 3 ==> data[..] == old(data[..])
  {
    if sharpness > 0.0 {
      ghost var orig := data[..];
      var factor := sharpness / 10.0;
      var y := 1;
      while y < h - 1
        invariant 1 <= y && (y <= h - 1 || y == 1)
        invariant Progress(data[..], orig, w, h, factor, Pos(w, 1, y, 0))
      {
        SharpenRow(data, w, h, factor, y, orig);
        y := y + 1;
      }
      AllDone(data[..], orig, w, h, factor, y);
      ProgressBytes(data[..], orig, w, h, factor, Pos(w, 1, y, 0));
    }
    forall i | 0 <= i < data.Length && (w < 3 || h < 3) {
      NoInterior(w, h, i);
    }
  }
}
