/** The dashboard's posture view: pitch and roll of each sensor from its
    accelerometer alone, the difference between leg and chest, and the width
    of the posture bar. The 3-D rendering is not modelled. */
module GyroscopeViz {
  import opened JsonRecords
  import opened Numerics

  /** Euler angles in degrees: `x` is pitch, `y` roll, `z` yaw. */
  datatype Rotation = Rotation(x: real, y: real, z: real)

  function AccelMagnitude(m: MathLib, ax: real, ay: real, az: real): real
  {
    m.sqrt(SumOfSquares(ax, ay, az))
  }

  /** Pitch atan2(y, sqrt(x^2 + z^2)) and roll atan2(-x, z) of a normalised
      vector, in degrees; the yaw cannot be known from gravity and is 0. */
  function UnitOrientation(m: MathLib, x: real, y: real, z: real): (r: Rotation)
    ensures r.z == 0.0
  {
    var pitch := Degrees(m.atan2(y, m.sqrt(x * x + z * z)));
    var roll := Degrees(m.atan2(-x, z));
    Rotation(pitch, roll, 0.0)
  }

  /** `calculateOrientation`: normalise the vector, then take its pitch and
      roll. A zero vector gives all zeros without dividing. */
  function CalculateOrientation(m: MathLib, ax: real, ay: real, az: real): (r: Rotation)
    ensures r.z == 0.0
    ensures AccelMagnitude(m, ax, ay, az) == 0.0 ==> r == Rotation(0.0, 0.0, 0.0)
  {
    var magnitude := AccelMagnitude(m, ax, ay, az);
    if magnitude == 0.0 then Rotation(0.0, 0.0, 0.0)
    else UnitOrientation(m, ax / magnitude, ay / magnitude, az / magnitude)
  }

  /** Pitch and roll depend only on the direction of the vector: scaling it
      by a positive factor changes nothing. */
  lemma OrientationScaleInvariant(m: MathLib, k: real, ax: real, ay: real, az: real)
    requires Lawful(m) && 0.0 < k
    ensures CalculateOrientation(m, k * ax, k * ay, k * az) == CalculateOrientation(m, ax, ay, az)
  {
    var s := SumOfSquares(ax, ay, az);
    SumOfSquaresScaled(k, ax, ay, az);
    assert SumOfSquares(k * ax, k * ay, k * az) == k * k * s;
    SqrtOfScaledSquare(m, k, s);
    assert m.sqrt(SumOfSquares(k * ax, k * ay, k * az)) == m.sqrt(k * k * s);
    var magnitude := AccelMagnitude(m, ax, ay, az);
    var scaled := AccelMagnitude(m, k * ax, k * ay, k * az);
    assert scaled == k * magnitude;
    if magnitude != 0.0 {
      assert k * magnitude != 0.0;
      CancelFactor(k, ax, magnitude);
      CancelFactor(k, ay, magnitude);
      CancelFactor(k, az, magnitude);
      assert (k * ax) / scaled == ax / magnitude;
      assert (k * ay) / scaled == ay / magnitude;
      assert (k * az) / scaled == az / magnitude;
    }
  }

  /** A common positive factor cancels in a quotient. */
  lemma CancelFactor(k: real, a: real, b: real)
    requires 0.0 < k && b != 0.0
    ensures (k * a) / (k * b) == a / b
  {
    var q := a / b;
    assert a == q * b;
    assert k * a == q * (k * b);
  }

  /** The callers' defaults: a missing or falsy `accel_x`/`accel_y` reads as 0
      and `accel_z` as 9.8. */
  function SensorOrientation(m: MathLib, data: Option<Record>): (r: Rotation)
    ensures r.z == 0.0
  {
    CalculateOrientation(m, MaybeNumberOr(data, "accel_x", 0.0), MaybeNumberOr(data, "accel_y", 0.0),
                         MaybeNumberOr(data, "accel_z", 9.8))
  }

  /** The vertical axis the callers pass is never 0, so the magnitude is
      positive and the zero-vector branch is never taken from this view. */
  lemma CallerVectorIsNeverZero(m: MathLib, data: Option<Record>)
    requires Lawful(m)
    ensures MaybeNumberOr(data, "accel_z", 9.8) != 0.0
    ensures AccelMagnitude(m, MaybeNumberOr(data, "accel_x", 0.0), MaybeNumberOr(data, "accel_y", 0.0),
                           MaybeNumberOr(data, "accel_z", 9.8)) > 0.0
  {
    var x, y, z := MaybeNumberOr(data, "accel_x", 0.0), MaybeNumberOr(data, "accel_y", 0.0), MaybeNumberOr(data, "accel_z", 9.8);
    SumOfSquaresIsZeroOnlyAtZero(x, y, z);
    SqrtPositive(m, SumOfSquares(x, y, z));
  }

  /** The squared distance between two (pitch, roll) pairs. */
  function SquaredDistance(leg: Rotation, chest: Rotation): real
  {
    (chest.x - leg.x) * (chest.x - leg.x) + (chest.y - leg.y) * (chest.y - leg.y)
  }

  /** `postureDiff`: the Euclidean distance between the two (pitch, roll) pairs. */
  function PostureDiff(m: MathLib, leg: Rotation, chest: Rotation): (d: real)
    ensures Lawful(m) ==> 0.0 <= d
  {
    m.sqrt(SquaredDistance(leg, chest))
  }

  /** The posture difference is never negative, does not depend on which
      sensor is which, and is 0 exactly when pitch and roll agree. */
  lemma PostureDiffProperties(m: MathLib, leg: Rotation, chest: Rotation)
    requires Lawful(m)
    ensures 0.0 <= PostureDiff(m, leg, chest)
    ensures PostureDiff(m, leg, chest) == PostureDiff(m, chest, leg)
    ensures PostureDiff(m, leg, chest) == 0.0 <==> leg.x == chest.x && leg.y == chest.y
  {
    var dx, dy := chest.x - leg.x, chest.y - leg.y;
    assert (-dx) * (-dx) == dx * dx && (-dy) * (-dy) == dy * dy;
    assert SquaredDistance(leg, chest) == SquaredDistance(chest, leg);
    SquareNonnegative(dx);
    SquareNonnegative(dy);
    SquareIsZeroOnlyAtZero(dx);
    SquareIsZeroOnlyAtZero(dy);
    ZeroSum(dx * dx, dy * dy, 0.0);
    SqrtIsZeroOnlyAtZero(m, SquaredDistance(leg, chest));
  }

  /** The width of the posture bar in percent: `min(postureDiff * 2, 100)`. */
  function BarWidth(postureDiff: real): (width: real)
    ensures width <= 100.0
    ensures 0.0 <= postureDiff ==> 0.0 <= width
    ensures postureDiff < 50.0 ==> width == 2.0 * postureDiff
    ensures postureDiff >= 50.0 ==> width == 100.0
  {
    if postureDiff * 2.0 < 100.0 then postureDiff * 2.0 else 100.0
  }
}
