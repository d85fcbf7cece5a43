/** The leg node: it reads the MPU-6050 and posts the readings alone, with
    no GPS fields and no timestamp (the backend stamps the row). */
module LegSensor {
  import opened JsonRecords
  import Mpu6050

  /** The JSON object the leg node's `send_sensor_data` posts, before
      rounding: exactly the three accelerometer axes, the three gyroscope
      axes and the temperature, every one a number, and no GPS field. */
  function LegPayload(accel: Mpu6050.Vec3, gyro: Mpu6050.Vec3, temperature: real): (payload: Record)
    ensures payload.Keys == {"accel_x", "accel_y", "accel_z", "gyro_x", "gyro_y", "gyro_z", "temperature"}
    ensures forall key :: key in payload ==> payload[key].Num?
  {
    map["accel_x" := Num(accel.x), "accel_y" := Num(accel.y), "accel_z" := Num(accel.z),
        "gyro_x" := Num(gyro.x), "gyro_y" := Num(gyro.y), "gyro_z" := Num(gyro.z),
        "temperature" := Num(temperature)]
  }

  /** The reads of `send_sensor_data`: accelerometer, gyroscope and
      temperature from one register snapshot, posted as the leg payload. */
  function SnapshotPayload(regs: Mpu6050.Registers): Record
  {
    LegPayload(Mpu6050.AccelData(regs), Mpu6050.GyroData(regs), Mpu6050.TempData(regs))
  }

  /** Every posted reading is the faithful image of its register word: each
      axis has the sign of its word and stays within the full-scale range,
      and the temperature reads back the raw word at 0x41. */
  lemma SnapshotPayloadReadsRegisters(regs: Mpu6050.Registers)
    ensures var payload := SnapshotPayload(regs);
            && Mpu6050.ScaledFrom(payload["accel_x"].n, Mpu6050.ReadWord(regs, 0x3B), Mpu6050.AccelRange)
            && Mpu6050.ScaledFrom(payload["accel_y"].n, Mpu6050.ReadWord(regs, 0x3D), Mpu6050.AccelRange)
            && Mpu6050.ScaledFrom(payload["accel_z"].n, Mpu6050.ReadWord(regs, 0x3F), Mpu6050.AccelRange)
            && Mpu6050.ScaledFrom(payload["gyro_x"].n, Mpu6050.ReadWord(regs, 0x43), Mpu6050.GyroRange)
            && Mpu6050.ScaledFrom(payload["gyro_y"].n, Mpu6050.ReadWord(regs, 0x45), Mpu6050.GyroRange)
            && Mpu6050.ScaledFrom(payload["gyro_z"].n, Mpu6050.ReadWord(regs, 0x47), Mpu6050.GyroRange)
            && (payload["temperature"].n - 36.53) * 340.0 == Mpu6050.ReadWord(regs, Mpu6050.TempOut) as real
  {
    Mpu6050.AccelDataFaithful(regs);
    Mpu6050.GyroDataFaithful(regs);
    Mpu6050.TempDataFaithful(regs, regs);
  }
}
