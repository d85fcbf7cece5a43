/** The decision logic of the Flask backend: the activity classifier, the
    harsh-brake, harsh-acceleration and fall predicates, which created events
    notify Telegram, the events a chest upload raises, and the activity the
    live-data endpoint reports. Database and Telegram I/O are not modelled:
    the latest stored rows are parameters and a created event is a value. */
module Server {
  import opened JsonRecords
  import opened Numerics

  const HarshBrakeThreshold: real := -8.0
  const HarshAccelThreshold: real := 6.0
  const FallDetectionThreshold: real := 15.0

  datatype Activity = Stationary | Walking | Scooter | Motorcycle | Unknown

  /** `calculate_acceleration_magnitude`. */
  function Magnitude(m: MathLib, x: real, y: real, z: real): (magnitude: real)
    requires Lawful(m)
    ensures 0.0 <= magnitude && magnitude * magnitude == SumOfSquares(x, y, z)
  {
    m.sqrt(SumOfSquares(x, y, z))
  }

  /** `max(-1, min(1, c))`. */
  function Clamp(c: real): (r: real)
    ensures -1.0 <= r <= 1.0
    ensures -1.0 <= c <= 1.0 ==> r == c
    ensures c > 1.0 ==> r == 1.0
    ensures c < -1.0 ==> r == -1.0
  {
    if c > 1.0 then 1.0 else if c < -1.0 then -1.0 else c
  }

  /** The accelerometer vector the classifier uses: a falsy `accel_x` or
      `accel_y` reads as 0 and a falsy `accel_z` as gravity, 9.8. */
  function AccelOrGravity(r: Record): (v: (real, real, real))
    ensures v.0 == 0.0 <==> Lookup(r, "accel_x") in {Null, Num(0.0)}
    ensures v.1 == 0.0 <==> Lookup(r, "accel_y") in {Null, Num(0.0)}
    ensures v.2 == 9.8 <==> Lookup(r, "accel_z") in {Null, Num(0.0), Num(9.8)}
    ensures v.2 != 0.0
  {
    (NumberOr(r, "accel_x", 0.0), NumberOr(r, "accel_y", 0.0), NumberOr(r, "accel_z", 9.8))
  }

  /** The angle in degrees between two accelerometer vectors: the arc cosine
      of the clamped normalised dot product, or 0 when either magnitude is at
      most 0.1. */
  function AngleBetween(m: MathLib, l: (real, real, real), c: (real, real, real)): real
    requires Lawful(m)
  {
    var legMag := Magnitude(m, l.0, l.1, l.2);
    var chestMag := Magnitude(m, c.0, c.1, c.2);
    if legMag > 0.1 && chestMag > 0.1 then
      var dot := l.0 * c.0 + l.1 * c.1 + l.2 * c.2;
      Degrees(m.acos(Clamp(dot / (legMag * chestMag))))
    else
      0.0
  }

  /** The posture angle between leg and chest. */
  function AngleDiff(m: MathLib, leg: Record, chest: Record): real
    requires Lawful(m)
  {
    AngleBetween(m, AccelOrGravity(leg), AccelOrGravity(chest))
  }

  /** The posture angle is a proper angle: it lies in [0, 180] degrees, and
      it is 0 whenever either vector is too faint to normalise. */
  lemma AngleDiffRange(m: MathLib, leg: Record, chest: Record)
    requires Lawful(m)
    ensures 0.0 <= AngleDiff(m, leg, chest) <= 180.0
    ensures var l, c := AccelOrGravity(leg), AccelOrGravity(chest);
            Magnitude(m, l.0, l.1, l.2) <= 0.1 || Magnitude(m, c.0, c.1, c.2) <= 0.1 ==> AngleDiff(m, leg, chest) == 0.0
  {
    var l, c := AccelOrGravity(leg), AccelOrGravity(chest);
    var legMag := Magnitude(m, l.0, l.1, l.2);
    var chestMag := Magnitude(m, c.0, c.1, c.2);
    if legMag > 0.1 && chestMag > 0.1 {
      var cosine := Clamp((l.0 * c.0 + l.1 * c.1 + l.2 * c.2) / (legMag * chestMag));
      var a := m.acos(cosine);
      assert 0.0 <= a <= Pi;
      DegreesOfHalfTurn(a);
    }
  }

  /** An angle in [0, pi] radians is in [0, 180] degrees. */
  lemma DegreesOfHalfTurn(a: real)
    requires 0.0 <= a <= Pi
    ensures 0.0 <= Degrees(a) <= 180.0
  {
    var k := 180.0 / Pi;
    assert Pi * k == 180.0;
    MulNonnegative(a, k);
    assert a * k <= Pi * k by {
      MulNonnegative(Pi - a, k);
      assert (Pi - a) * k == Pi * k - a * k;
    }
  }

  /** The leg gyroscope magnitude; it is computed but both of its branches
      give the same answer. */
  function LegGyroMagnitude(m: MathLib, leg: Record): real
    requires Lawful(m)
  {
    Magnitude(m, NumberOr(leg, "gyro_x", 0.0), NumberOr(leg, "gyro_y", 0.0), NumberOr(leg, "gyro_z", 0.0))
  }

  /** `detect_activity_type`: speed bands first (a missing, null or zero speed
      is 0), and above 15 km/h the posture angle separates scooter from
      motorcycle. */
  function DetectActivity(m: MathLib, leg: Record, chest: Record): (a: Activity)
    requires Lawful(m)
    ensures a != Unknown
    ensures a == Stationary <==> NumberOr(chest, "speed", 0.0) < 1.0
  {
    var speed := NumberOr(chest, "speed", 0.0);
    var gyro := LegGyroMagnitude(m, leg);
    var angle := AngleDiff(m, leg, chest);
    if speed < 1.0 then Stationary
    else if 1.0 <= speed <= 15.0 then (if gyro > 0.2 then Walking else Walking)
    else if speed > 15.0 then (if angle < 20.0 then Scooter else Motorcycle)
    else Walking
  }

  /** The classifier's decision table, stated per speed band; its fallback
      and its `UNKNOWN` handler are never reached. */
  lemma DetectActivityBands(m: MathLib, leg: Record, chest: Record)
    requires Lawful(m)
    ensures var speed := NumberOr(chest, "speed", 0.0);
            var a := DetectActivity(m, leg, chest);
            && (a == Stationary <==> speed < 1.0)
            && (a == Walking <==> 1.0 <= speed <= 15.0)
            && (a == Scooter <==> 15.0 < speed && AngleDiff(m, leg, chest) < 20.0)
            && (a == Motorcycle <==> 15.0 < speed && 20.0 <= AngleDiff(m, leg, chest))
            && a != Unknown
  {
  }

  /** Above 15 km/h a vector too faint to normalise gives a posture angle of
      0, so the ride is classified as a scooter whatever the posture. */
  lemma FaintVectorRidesScooter(m: MathLib, leg: Record, chest: Record)
    requires Lawful(m)
    requires NumberOr(chest, "speed", 0.0) > 15.0
    requires var l, c := AccelOrGravity(leg), AccelOrGravity(chest);
             Magnitude(m, l.0, l.1, l.2) <= 0.1 || Magnitude(m, c.0, c.1, c.2) <= 0.1
    ensures DetectActivity(m, leg, chest) == Scooter
  {
    AngleDiffRange(m, leg, chest);
  }

  /** A chest record without a GPS speed (absent, null or 0) is stationary. */
  lemma NoSpeedIsStationary(m: MathLib, leg: Record, chest: Record)
    requires Lawful(m)
    requires "speed" !in chest || chest["speed"] == Null || chest["speed"] == Num(0.0)
    ensures DetectActivity(m, leg, chest) == Stationary
  {
  }

  /** The classification depends on the leg record only through its
      accelerometer: the leg gyroscope never influences it. */
  lemma DetectActivityIgnoresGyro(m: MathLib, leg: Record, leg': Record, chest: Record)
    requires Lawful(m) && AccelOrGravity(leg) == AccelOrGravity(leg')
    ensures DetectActivity(m, leg, chest) == DetectActivity(m, leg', chest)
  {
  }

  /** How far along stationary, walking, riding an activity is. */
  function Rank(a: Activity): nat
  {
    match a
    case Unknown => 0
    case Stationary => 0
    case Walking => 1
    case Scooter => 2
    case Motorcycle => 2
  }

  /** Raising the reported speed never moves the classification back
      towards stationary. */
  lemma FasterIsNeverSlowerActivity(m: MathLib, leg: Record, chest: Record, v: real, w: real)
    requires Lawful(m) && v <= w
    ensures Rank(DetectActivity(m, leg, chest["speed" := Num(v)]))
            <= Rank(DetectActivity(m, leg, chest["speed" := Num(w)]))
  {
    var slow, fast := chest["speed" := Num(v)], chest["speed" := Num(w)];
    assert NumberOr(slow, "speed", 0.0) == v;
    assert NumberOr(fast, "speed", 0.0) == w;
    DetectActivityBands(m, leg, slow);
    DetectActivityBands(m, leg, fast);
  }

  /** `check_harsh_brake`. */
  predicate CheckHarshBrake(accelX: real)
    ensures CheckHarshBrake(accelX) ==> accelX < 0.0
  {
    accelX < HarshBrakeThreshold
  }

  /** `check_harsh_acceleration`. */
  predicate CheckHarshAcceleration(accelX: real)
    ensures CheckHarshAcceleration(accelX) ==> accelX > 0.0
  {
    accelX > HarshAccelThreshold
  }

  /** The two thresholds are strict and far apart: no reading is both a harsh
      brake and a harsh acceleration, and the thresholds themselves are neither. */
  lemma HarshBrakeAndAccelerationExclusive(accelX: real)
    ensures !(CheckHarshBrake(accelX) && CheckHarshAcceleration(accelX))
    ensures !CheckHarshBrake(HarshBrakeThreshold) && !CheckHarshAcceleration(HarshAccelThreshold)
  {
  }

  /** Python `d.get(key, 0)` for an arithmetic operand: an absent key reads
      as 0, while a stored `null` is `None`, on which `**` raises. */
  function AccelOrZero(r: Record, key: string): (v: Option<real>)
    ensures v.None? <==> key in r && r[key] == Null
    ensures key in r && r[key].Num? ==> v == Some(r[key].n)
    ensures key !in r ==> v == Some(0.0)
    ensures v.Some? ==> v.value == NumberOr(r, key, 0.0)
  {
    if key !in r then Some(0.0)
    else match r[key]
      case Null => None
      case Num(n) => Some(n)
  }

  datatype FallCheck = FallCheck(isFall: bool, difference: real)

  /** The magnitude of a record's accelerometer for the fall check, or `None`
      when one of its axes is `null`. */
  function FallMagnitude(m: MathLib, r: Record): Option<real>
    requires Lawful(m)
  {
    var x := AccelOrZero(r, "accel_x");
    var y := AccelOrZero(r, "accel_y");
    var z := AccelOrZero(r, "accel_z");
    if x.None? || y.None? || z.None? then None
    else Some(Magnitude(m, x.value, y.value, z.value))
  }

  /** `check_fall_or_accident`: the absolute difference of the two
      acceleration magnitudes against the threshold; a `null` axis raises
      inside the `try` and reads as no fall with difference 0. */
  function CheckFall(m: MathLib, leg: Record, chest: Record): (f: FallCheck)
    requires Lawful(m)
    ensures f.isFall <==> f.difference > FallDetectionThreshold
    ensures 0.0 <= f.difference
  {
    var legTotal := FallMagnitude(m, leg);
    var chestTotal := FallMagnitude(m, chest);
    if legTotal.None? || chestTotal.None? then FallCheck(false, 0.0)
    else
      var d := legTotal.value - chestTotal.value;
      var difference := if d < 0.0 then -d else d;
      FallCheck(difference > FallDetectionThreshold, difference)
  }

  /** The fall check does not depend on which sensor is which, and a `null`
      axis on either side reports no fall. */
  lemma CheckFallProperties(m: MathLib, leg: Record, chest: Record)
    requires Lawful(m)
    ensures var f := CheckFall(m, leg, chest);
            && f == CheckFall(m, chest, leg)
            && (FallMagnitude(m, leg).None? || FallMagnitude(m, chest).None? ==> f == FallCheck(false, 0.0))
  {
  }

  /** Two records with the same accelerometer reading never look like a fall. */
  lemma SameAccelerationIsNoFall(m: MathLib, leg: Record, chest: Record)
    requires Lawful(m)
    requires forall key :: key in {"accel_x", "accel_y", "accel_z"} ==> AccelOrZero(leg, key) == AccelOrZero(chest, key)
    ensures !CheckFall(m, leg, chest).isFall && CheckFall(m, leg, chest).difference == 0.0
  {
    assert AccelOrZero(leg, "accel_x") == AccelOrZero(chest, "accel_x");
    assert AccelOrZero(leg, "accel_y") == AccelOrZero(chest, "accel_y");
    assert AccelOrZero(leg, "accel_z") == AccelOrZero(chest, "accel_z");
  }

  /** The fall magnitude is the accelerometer's Euclidean norm: a record
      whose three axes are absent or 0, the reading of free fall rather than
      of rest, has magnitude 0. */
  lemma FallMagnitudeOfZeroVector(m: MathLib, r: Record)
    requires Lawful(m)
    requires forall key :: key in {"accel_x", "accel_y", "accel_z"} ==> key !in r || r[key] == Num(0.0)
    ensures FallMagnitude(m, r) == Some(0.0)
  {
    assert AccelOrZero(r, "accel_x") == Some(0.0);
    assert AccelOrZero(r, "accel_y") == Some(0.0);
    assert AccelOrZero(r, "accel_z") == Some(0.0);
    SqrtOfZero(m);
  }

  /** The row `create_event` inserts: GPS position and speed come from the
      chest record, the accelerometer readings from both. */
  datatype EventRow = EventRow(
    eventType: string, severity: string,
    latitude: Json, longitude: Json, speed: Json,
    legAccelX: Json, legAccelY: Json, legAccelZ: Json,
    chestAccelX: Json, chestAccelY: Json, chestAccelZ: Json)

  /** A created event and whether `notify_telegram` was called for it. */
  datatype CreatedEvent = CreatedEvent(row: EventRow, notified: bool)

  /** The notification rule of `create_event`. */
  predicate NotifiesTelegram(severity: string)
  {
    severity in ["HIGH", "CRITICAL"]
  }

  /** `create_event`, without the insert and the description text. */
  function CreateEvent(eventType: string, severity: string, leg: Record, chest: Record): (e: CreatedEvent)
    ensures e.row.eventType == eventType && e.row.severity == severity
    ensures e.notified <==> severity == "HIGH" || severity == "CRITICAL"
    ensures e.row.latitude == Lookup(chest, "latitude") && e.row.longitude == Lookup(chest, "longitude")
    ensures e.row.speed == Lookup(chest, "speed")
  {
    var row := EventRow(eventType, severity,
      Lookup(chest, "latitude"), Lookup(chest, "longitude"), Lookup(chest, "speed"),
      Lookup(leg, "accel_x"), Lookup(leg, "accel_y"), Lookup(leg, "accel_z"),
      Lookup(chest, "accel_x"), Lookup(chest, "accel_y"), Lookup(chest, "accel_z"));
    CreatedEvent(row, NotifiesTelegram(severity))
  }

  /** The outcome of a chest upload: no body (400), recorded together with
      the events it raised (201), or an exception in the handler (500). */
  datatype ChestResponse = NoData | Recorded(events: seq<CreatedEvent>) | HandlerError

  /** `receive_chest_data` after the insert: the events checked against the
      latest leg row, in the order the handler creates them. Comparing a
      `null` leg `accel_x` with the brake threshold raises. */
  function ReceiveChest(m: MathLib, body: Option<Record>, legRows: seq<Record>): (r: ChestResponse)
    requires Lawful(m)
    ensures r == NoData <==> body.None? || body.value == map[]
  {
    if body.None? || body.value == map[] then NoData
    else if legRows == [] then Recorded([])
    else
      var chest, leg := body.value, legRows[0];
      match AccelOrZero(leg, "accel_x")
      case None => HandlerError
      case Some(accelX) =>
        var brake := if CheckHarshBrake(accelX) then [CreateEvent("HARSH_BRAKE", "MEDIUM", leg, chest)] else [];
        var accel := if CheckHarshAcceleration(accelX) then [CreateEvent("HARSH_ACCEL", "LOW", leg, chest)] else [];
        var fall := if CheckFall(m, leg, chest).isFall then [CreateEvent("FALL_DETECTED", "CRITICAL", leg, chest)] else [];
        Recorded(brake + accel + fall)
  }

  /** What a chest upload raises: nothing without a leg row; a harsh brake,
      a harsh acceleration and a fall each exactly when its check holds,
      never both of the first two. */
  lemma ReceiveChestEvents(m: MathLib, chest: Record, legRows: seq<Record>)
    requires Lawful(m) && chest != map[]
    ensures legRows == [] ==> ReceiveChest(m, Some(chest), legRows) == Recorded([])
    ensures legRows != [] && AccelOrZero(legRows[0], "accel_x").None? ==> ReceiveChest(m, Some(chest), legRows) == HandlerError
    ensures legRows != [] && AccelOrZero(legRows[0], "accel_x").Some? ==>
            var leg, accelX := legRows[0], AccelOrZero(legRows[0], "accel_x").value;
            var r := ReceiveChest(m, Some(chest), legRows);
            && r.Recorded? && |r.events| <= 2
            && ((exists e :: e in r.events && e.row.eventType == "HARSH_BRAKE") <==> accelX < -8.0)
            && ((exists e :: e in r.events && e.row.eventType == "HARSH_ACCEL") <==> accelX > 6.0)
            && ((exists e :: e in r.events && e.row.eventType == "FALL_DETECTED") <==> CheckFall(m, leg, chest).isFall)
  {
    if legRows != [] && AccelOrZero(legRows[0], "accel_x").Some? {
      var leg, accelX := legRows[0], AccelOrZero(legRows[0], "accel_x").value;
      HarshBrakeAndAccelerationExclusive(accelX);
      var brake := CreateEvent("HARSH_BRAKE", "MEDIUM", leg, chest);
      var accel := CreateEvent("HARSH_ACCEL", "LOW", leg, chest);
      var fall := CreateEvent("FALL_DETECTED", "CRITICAL", leg, chest);
      var events := ReceiveChest(m, Some(chest), legRows).events;
      assert events == (if accelX < -8.0 then [brake] else [])
                       + (if accelX > 6.0 then [accel] else [])
                       + (if CheckFall(m, leg, chest).isFall then [fall] else []);
    }
  }

  /** Every event of a chest upload has the severity of its kind, a harsh
      brake MEDIUM, a harsh acceleration LOW and a fall CRITICAL; only the
      fall notifies Telegram; and every event carries the chest's position
      and speed. */
  lemma ReceiveChestEventRows(m: MathLib, chest: Record, legRows: seq<Record>)
    requires Lawful(m) && chest != map[]
    ensures var r := ReceiveChest(m, Some(chest), legRows);
            r.Recorded? ==> forall e :: e in r.events ==>
              && (e.row.eventType == "HARSH_BRAKE" ==> e.row.severity == "MEDIUM")
              && (e.row.eventType == "HARSH_ACCEL" ==> e.row.severity == "LOW")
              && (e.row.eventType == "FALL_DETECTED" ==> e.row.severity == "CRITICAL")
              && (e.notified <==> e.row.eventType == "FALL_DETECTED")
              && (e.row.latitude, e.row.longitude, e.row.speed)
                 == (Lookup(chest, "latitude"), Lookup(chest, "longitude"), Lookup(chest, "speed"))
  {
    if legRows != [] && AccelOrZero(legRows[0], "accel_x").Some? {
      var leg := legRows[0];
      var brake := CreateEvent("HARSH_BRAKE", "MEDIUM", leg, chest);
      var accel := CreateEvent("HARSH_ACCEL", "LOW", leg, chest);
      var fall := CreateEvent("FALL_DETECTED", "CRITICAL", leg, chest);
      assert !brake.notified && !accel.notified && fall.notified;
      var events := ReceiveChest(m, Some(chest), legRows).events;
      assert forall e :: e in events ==> e == brake || e == accel || e == fall;
    }
  }

  /** An empty or missing body is refused before anything is stored. */
  lemma EmptyBodyIsRefused(m: MathLib, legRows: seq<Record>)
    requires Lawful(m)
    ensures ReceiveChest(m, None, legRows) == NoData && ReceiveChest(m, Some(map[]), legRows) == NoData
  {
  }

  /** The latest row of a table ordered newest first, or `{}` when it is empty. */
  function Latest(rows: seq<Record>): Record
  {
    if rows == [] then map[] else rows[0]
  }

  /** The `activity` of `get_live_data`: `UNKNOWN` exactly when the latest
      leg or chest record is missing or empty, and otherwise the classifier's
      answer. */
  function LiveActivity(m: MathLib, legRows: seq<Record>, chestRows: seq<Record>): (a: Activity)
    requires Lawful(m)
    ensures a == Unknown <==> Latest(legRows) == map[] || Latest(chestRows) == map[]
    ensures a != Unknown ==> a == DetectActivity(m, Latest(legRows), Latest(chestRows))
  {
    var leg, chest := Latest(legRows), Latest(chestRows);
    if leg != map[] && chest != map[] then DetectActivity(m, leg, chest) else Unknown
  }
}
