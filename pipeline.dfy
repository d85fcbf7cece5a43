/** How the components meet: the records the two nodes post are the records
    the backend classifies and checks, and the events the backend creates are
    the events the dashboard lists. */
module Pipeline {
  import opened JsonRecords
  import opened Numerics
  import Mpu6050
  import LegSensor
  import ChestSensor
  import Server
  import EventsPanel

  /** A leg row as the leg node posts it always has a numeric `accel_x`, so a
      chest upload checked against it never fails in the handler. */
  lemma LegPayloadRowIsNeverHandlerError(m: MathLib, chest: Record, accel: Mpu6050.Vec3, gyro: Mpu6050.Vec3,
                                         temperature: real, older: seq<Record>)
    requires Lawful(m) && chest != map[]
    ensures Server.ReceiveChest(m, Some(chest), [LegSensor.LegPayload(accel, gyro, temperature)] + older).Recorded?
  {
    var legRows := [LegSensor.LegPayload(accel, gyro, temperature)] + older;
    assert legRows[0] == LegSensor.LegPayload(accel, gyro, temperature);
    assert Server.AccelOrZero(legRows[0], "accel_x") == Some(accel.x);
  }

  /** While the chest node's GPS has no speed, or a speed of 0, the posted
      payload classifies as stationary whatever the leg reports. */
  lemma ChestWithoutSpeedIsStationary(m: MathLib, leg: Record, gps: ChestSensor.GpsFix, accel: Mpu6050.Vec3,
                                      gyro: Mpu6050.Vec3, temperature: real)
    requires Lawful(m) && (gps.speed == None || gps.speed == Some(0.0))
    ensures Server.DetectActivity(m, leg, ChestSensor.ChestPayload(gps, accel, gyro, temperature)) == Server.Stationary
  {
    var chest := ChestSensor.ChestPayload(gps, accel, gyro, temperature);
    assert chest["speed"] == Num(0.0);
    Server.NoSpeedIsStationary(m, leg, chest);
  }

  /** The backend names its events in upper case while the dashboard's icon
      table is keyed in lower case, so every event a chest upload creates is
      listed with the default icon; its severity is one the colour table knows. */
  lemma BackendEventsShowDefaultIcon(m: MathLib, chest: Record, legRows: seq<Record>)
    requires Lawful(m)
    ensures var r := Server.ReceiveChest(m, Some(chest), legRows);
            r.Recorded? ==>
              forall e :: e in r.events ==>
                && EventsPanel.EventIcon(e.row.eventType) == EventsPanel.DefaultIcon
                && e.row.severity in EventsPanel.SeverityColors
  {
    var r := Server.ReceiveChest(m, Some(chest), legRows);
    if r.Recorded? {
      forall e | e in r.events
        ensures EventsPanel.EventIcon(e.row.eventType) == EventsPanel.DefaultIcon
        ensures e.row.severity in EventsPanel.SeverityColors
      {
        assert e.row.eventType in {"HARSH_BRAKE", "HARSH_ACCEL", "FALL_DETECTED"};
        EventsPanel.UpperCaseTypesGetDefaultIcon(e.row.eventType);
      }
    }
  }
}
