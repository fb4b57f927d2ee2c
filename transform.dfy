/**
 * The rotate and zoom buttons of the image editor: each press moves one
 * parameter by a fixed step and keeps it inside its range.
 *
 * Rotation is a signed number of degrees, updated with JavaScript's `%`,
 * which truncates toward zero (the remainder takes the sign of the
 * dividend). Zoom is kept in integer tenths (the buttons move it by 0.1,
 * the slider in steps of 10%), so 10 is a zoom of 1.0.
 */
module Transform {

  /** JavaScript's `a % b` for a positive divisor. */
  function JsRem(a: int, b: int): (r: int)
    requires b > 0
    ensures -b < r < b
    ensures a >= 0 ==> r >= 0
    ensures a <= 0 ==> r <= 0
  {
    if a >= 0 then a % b else -((-a) % b)
  }

  datatype Direction = Clockwise | CounterClockwise

  /** The change in degrees of one button press. */
  function Delta(d: Direction): int
  {
    if d == Clockwise then 90 else -90
  }

  /** The rotations the buttons can reach: multiples of 90 strictly between -360 and 360. */
  predicate RotationValid(r: int)
  {
    -360 < r < 360 && r % 90 == 0
  }

  /** Two rotations that differ by whole turns. */
  predicate SameTurn(a: int, b: int)
  {
    (a - b) % 360 == 0
  }

  /** A difference of `k` whole turns is the same turn. */
  lemma SameTurnByTurns(a: int, b: int, k: int)
    requires a - b == 360 * k
    ensures SameTurn(a, b)
  {
  }

  /** `SameTurn` composes: `a ~ b + e` and `b ~ c` give `a ~ c + e`. */
  lemma SameTurnAdd(a: int, b: int, c: int, e: int)
    requires SameTurn(a, b + e) && SameTurn(b, c)
    ensures SameTurn(a, c + e)
  {
    var k1, k2 := (a - (b + e)) / 360, (b - c) / 360;
    assert a - (b + e) == 360 * k1;
    assert b - c == 360 * k2;
    SameTurnByTurns(a, c + e, k1 + k2);
  }

  /** The truncating remainder by 360 differs from its dividend by whole turns. */
  lemma JsRemSameTurn(a: int)
    ensures SameTurn(JsRem(a, 360), a)
  {
  }

  /** The new rotation after one press of a rotate button: `(prev + change) % 360`. */
  function RotateStep(r: int, d: Direction): (r': int)
    ensures RotationValid(r) ==> RotationValid(r')
    ensures SameTurn(r', r + Delta(d))
    ensures r + Delta(d) >= 0 ==> r' >= 0
    ensures r + Delta(d) <= 0 ==> r' <= 0
  {
    JsRemSameTurn(r + Delta(d));
    JsRem(r + Delta(d), 360)
  }

  /** The rotation after `n` presses of the same button. */
  function RotateSteps(r: int, d: Direction, n: nat): int
  {
    if n == 0 then r else RotateStep(RotateSteps(r, d, n - 1), d)
  }

  /** The degrees `n` presses of the same button add: `n * Delta(d)`. */
  function Swept(d: Direction, n: nat): (t: int)
    ensures t == n * Delta(d)
  {
    if d == Clockwise then 90 * n else -90 * n
  }

  /** Any number of presses keeps a valid rotation valid. */
  lemma {:induction false} RotateStepsValid(r: int, d: Direction, n: nat)
    requires RotationValid(r)
    ensures RotationValid(RotateSteps(r, d, n))
  {
    if n > 0 {
      RotateStepsValid(r, d, n - 1);
    }
  }

  /** Any number of presses lands on the rotation `r + n * Delta(d)` up to whole turns. */
  lemma {:induction false} RotateStepsTurn(r: int, d: Direction, n: nat)
    ensures SameTurn(RotateSteps(r, d, n), r + Swept(d, n))
  {
    if n > 0 {
      RotateStepsTurn(r, d, n - 1);
      var prev := RotateSteps(r, d, n - 1);
      assert SameTurn(RotateSteps(r, d, n), prev + Delta(d));
      assert Swept(d, n) == Swept(d, n - 1) + Delta(d);
      SameTurnAdd(RotateSteps(r, d, n), prev, r + Swept(d, n - 1), Delta(d));
    }
  }

  /**
   * Any number of presses keeps a valid rotation valid, and lands on the
   * rotation `r + n * Delta(d)` up to whole turns.
   */
  lemma RotateStepsCongruent(r: int, d: Direction, n: nat)
    requires RotationValid(r)
    ensures RotationValid(RotateSteps(r, d, n))
    ensures SameTurn(RotateSteps(r, d, n), r + Swept(d, n))
  {
    RotateStepsValid(r, d, n);
    RotateStepsTurn(r, d, n);
  }

  /** `4 * k` presses of the same button, k full turns, give back the starting rotation up to whole turns. */
  lemma FullTurnsAreIdentity(r: int, d: Direction, k: nat)
    requires RotationValid(r)
    ensures SameTurn(RotateSteps(r, d, 4 * k), r)
  {
    RotateStepsCongruent(r, d, 4 * k);
    WholeTurnsDrop(RotateSteps(r, d, 4 * k), r, Swept(d, 4 * k), k);
  }

  /** Dropping `k` whole turns, in either direction, keeps the same turn. */
  lemma WholeTurnsDrop(x: int, r: int, t: int, k: int)
    requires SameTurn(x, r + t) && (t == 360 * k || t == -360 * k)
    ensures SameTurn(x, r)
  {
    if t == 360 * k {
      SameTurnByTurns(r + t, r, k);
    } else {
      SameTurnByTurns(r + t, r, -k);
    }
    SameTurnAdd(x, r + t, r, 0);
  }

  /** Clockwise presses from a non-negative rotation never produce a negative one. */
  lemma {:induction false} NonNegativeStaysNonNegative(r: int, n: nat)
    requires r >= 0
    ensures RotateSteps(r, Clockwise, n) >= 0
  {
    if n > 0 {
      NonNegativeStaysNonNegative(r, n - 1);
    }
  }

  /** From a non-negative rotation, four clockwise presses come back to exactly the same value. */
  lemma FourClockwiseFromNonNegative(r: int)
    requires RotationValid(r) && r >= 0
    ensures RotateSteps(r, Clockwise, 4) == r
  {
    RotateStepsCongruent(r, Clockwise, 4);
    NonNegativeStaysNonNegative(r, 4);
    var x := RotateSteps(r, Clockwise, 4);
    SameTurnInOneTurn(x, r);
  }

  /** Two rotations in [0, 360) that differ by whole turns are equal. */
  lemma SameTurnInOneTurn(x: int, r: int)
    requires 0 <= x < 360 && 0 <= r < 360
    requires SameTurn(x, r + 4 * 90)
    ensures x == r
  {
  }

  /** A clockwise press followed by a counter-clockwise one is the identity up to whole turns. */
  lemma ClockwiseThenBack(r: int)
    ensures SameTurn(RotateStep(RotateStep(r, Clockwise), CounterClockwise), r)
  {
    var a := RotateStep(r, Clockwise);
    var b := RotateStep(a, CounterClockwise);
    SameTurnAdd(b, a, r + 90, -90);
  }

  /** The zoom range in tenths: 0.5 to 3.0. */
  const ZoomMin: int := 5
  const ZoomMax: int := 30

  predicate ZoomValid(z: int)
  {
    ZoomMin <= z <= ZoomMax
  }

  /** Zoom in: `Math.min(prev + 0.1, 3)`, in tenths. */
  function ZoomIn(z: int): (r: int)
    ensures r <= ZoomMax
    ensures r == z + 1 || r == ZoomMax
    ensures z + 1 <= ZoomMax ==> r == z + 1
    ensures ZoomValid(z) ==> ZoomValid(r)
  {
    if z + 1 < ZoomMax then z + 1 else ZoomMax
  }

  /** Zoom out: `Math.max(prev - 0.1, 0.5)`, in tenths. */
  function ZoomOut(z: int): (r: int)
    ensures r >= ZoomMin
    ensures r == z - 1 || r == ZoomMin
    ensures z - 1 >= ZoomMin ==> r == z - 1
    ensures ZoomValid(z) ==> ZoomValid(r)
  {
    if z - 1 > ZoomMin then z - 1 else ZoomMin
  }

  /** Zooming out undoes a zoom in that was not cut off at the maximum, and the other way round. */
  lemma ZoomRoundTrip(z: int)
    ensures ZoomMin <= z < ZoomMax ==> ZoomOut(ZoomIn(z)) == z
    ensures ZoomMin < z <= ZoomMax ==> ZoomIn(ZoomOut(z)) == z
  {
  }

  /** The zoom after `n` presses of zoom in. */
  function ZoomInTimes(z: int, n: nat): int
  {
    if n == 0 then z else ZoomIn(ZoomInTimes(z, n - 1))
  }

  /** Pressing zoom in `n` times from a valid zoom adds `n` tenths, stopping at the maximum. */
  lemma {:induction false} ZoomInTimesSaturates(z: int, n: nat)
    requires ZoomValid(z)
    ensures ZoomInTimes(z, n) == if z + n < ZoomMax then z + n else ZoomMax
  {
    if n > 0 {
      ZoomInTimesSaturates(z, n - 1);
    }
  }
}
