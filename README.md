# Rider telemetry: a verified model of its decision logic

The system is a two-node wearable for scooter and motorcycle riders, a Flask backend and a React dashboard:

- **Leg node** (ESP32): posts MPU-6050 accelerometer, gyroscope and temperature readings.
- **Chest node** (ESP32): posts the same readings together with the latest fix of a NEO-6M GPS receiver. That fix is parsed from NMEA 0183 sentences by `SimpleGPS`.
- **Backend**:
  - classifies the rider's activity from the latest leg and chest rows;
  - raises harsh-brake, harsh-acceleration and fall events when a chest row arrives;
  - notifies Telegram for high-severity events.
- **Dashboard**: lists recent events, shows a posture view of both sensors and links a Telegram account by PIN.

This project models the logic of those components in Dafny and proves what each of them promises.

| file | module | models |
|---|---|---|
| `mpu6050.dfy` | `Mpu6050` | the 16-bit two's-complement register decoding and per-axis scaling shared by both nodes (MPU-6000/MPU-6050 Register Map, sections 4.17 to 4.19) |
| `chest_sensor.dfy` | `ChestSensor` | `SimpleGPS` as a class with its eight fields. One method per NMEA sentence kind (GGA, RMC, VTG). The `try/except: pass` partial-update semantics are modelled exactly. Also the chest payload. |
| `leg_sensor.dfy` | `LegSensor` | the leg payload |
| `server.py` logic in `server.dfy` | `Server` | the activity classifier, the harsh-event and fall predicates, the Telegram notification rule, the events a chest upload raises and the live-data `UNKNOWN` rule |
| `events_panel.dfy` | `EventsPanel` | relative timestamps, the colour and icon lookups with their fallbacks, the event label and the empty state |
| `telegram_link.dfy` | `TelegramLink` | PIN sanitising and the dialog's `pin`/`loading`/`message` state machine, with its `onClose` request, as a class |
| `gyroscope_viz.dfy` | `GyroscopeViz` | orientation from gravity, the callers' defaults, the posture difference and the posture bar |
| `pipeline.dfy` | `Pipeline` | facts that span components: node payloads as the backend reads them, backend events as the dashboard shows them |
| `json_records.dfy`, `numerics.dfy`, `text.dfy` | shared | JSON records with Python/JavaScript falsy defaulting; the abstract `sqrt`/`acos`/`atan2` and real-arithmetic lemmas; `str.split`, prefixes and decimal rendering |

Modelling choices:

- **Floating-point library calls.** `math.sqrt`, `math.acos`, `Math.sqrt` and `Math.atan2` are not computed. They are a `MathLib` value passed in. The proofs rely only on the predicate `Lawful`: the square root of a non-negative number is its non-negative square root, and `acos` maps [-1, 1] into [0, pi].
- **Number parsing.** Python's `float()` and `int()` on an NMEA field are likewise passed in, as functions returning `Option`. `None` stands for the `ValueError` they raise.
- **Reals.** Coordinates, speeds and accelerations are `real`.
- **JSON.** A JSON object is a `map<string, Json>` whose values are numbers or `null`.
- **I/O.** Clocks, HTTP calls and database reads become parameters:
  - the current time `now`;
  - the outcome of the verify-PIN call;
  - the latest leg and chest rows.

The code has no activity hysteresis, no per-type event cool-down, no capped event history, no merging of GPS between the nodes and no staleness tracking. The model follows the code, so none of these appear.

## Model

| member | source | states |
|---|---|---|
| `Mpu6050.ReadRawData` | esp32-code/micropython_leg_sensor.py:51-58 | every decoded reading lies in [-32768, 32767] |
| `Mpu6050.RawWordIsBigEndian` | esp32-code/micropython_leg_sensor.py:55 | `(high << 8) \| low` equals `256 * high + low` for byte inputs |
| `Mpu6050.ReadRawDataValue` | esp32-code/micropython_leg_sensor.py:55-57 | the reading is `256*high + low` when `high < 128`, and 65536 less otherwise |
| `Mpu6050.ReadRawDataSign` | esp32-code/micropython_chest_sensor.py:62-64 | the reading is negative exactly when the high byte is at least 128 |
| `Mpu6050.DecodeEncode` | esp32-code/micropython_leg_sensor.py:55-57 | every value of [-32768, 32767] is the reading of its encoded byte pair, so decoding is onto |
| `Mpu6050.EncodeDecode` | esp32-code/micropython_leg_sensor.py:55-57 | encoding a reading gives back the byte pair it came from |
| `Mpu6050.ReadRawDataInjective` | esp32-code/micropython_leg_sensor.py:55-57 | distinct byte pairs give distinct readings |
| `Mpu6050.BitOrDisjoint` | esp32-code/micropython_leg_sensor.py:55 | or-ing a number below 2^k into a multiple of 2^k adds them |
| `Mpu6050.AccelAxisFaithful` | esp32-code/micropython_leg_sensor.py:60-72 | a raw word times the accelerometer scale has the sign of the word, is 0 exactly when the word is, and stays within +-8 g |
| `Mpu6050.GyroAxisFaithful` | esp32-code/micropython_leg_sensor.py:74-86 | a raw word times the gyroscope scale has the sign of the word, is 0 exactly when the word is, and stays within +-500 deg/s in rad/s |
| `Mpu6050.AccelData` | esp32-code/micropython_chest_sensor.py:67-79 | every accelerometer axis lies within +-8 g |
| `Mpu6050.GyroData` | esp32-code/micropython_chest_sensor.py:81-93 | every gyroscope axis lies within +-500 deg/s in rad/s |
| `Mpu6050.TempData` | esp32-code/micropython_chest_sensor.py:95-100 | the temperature lies in the range a 16-bit word allows, 36.53 degrees plus or minus about 96.4 |
| `Mpu6050.AccelDataFaithful` | esp32-code/micropython_chest_sensor.py:67-79 | the x, y and z axes come from the words at 0x3B, 0x3D and 0x3F: each has its word's sign, is 0 exactly when its word is, and stays within +-8 g |
| `Mpu6050.GyroDataFaithful` | esp32-code/micropython_chest_sensor.py:81-93 | the same for the gyroscope, from the words at 0x43, 0x45 and 0x47, within +-500 deg/s |
| `Mpu6050.TempDataFaithful` | esp32-code/micropython_chest_sensor.py:95-100 | the raw word at 0x41 reads back from the temperature as `(t - 36.53) * 340`, and a larger word gives a warmer reading |
| `ChestSensor.SimpleGps.constructor` | esp32-code/micropython_chest_sensor.py:105-114 | a new parser has every field `None` except satellites and fix quality, which are 0 |
| `ChestSensor.SimpleGps.IsValidFix` | esp32-code/micropython_chest_sensor.py:211-215 | valid exactly when fix quality is positive and both coordinates are known |
| `ChestSensor.InitialFixIsNotValid` | esp32-code/micropython_chest_sensor.py:107-114 | a freshly constructed parser has no valid fix |
| `ChestSensor.SimpleGps.ParseNmea` | esp32-code/micropython_chest_sensor.py:127-137 | the new fields are the dispatch on `$GPGGA`/`$GNGGA`, `$GPRMC`/`$GNRMC`, `$GPVTG`/`$GNVTG` applied to the old ones |
| `ChestSensor.SimpleGps.ParseGga` | esp32-code/micropython_chest_sensor.py:139-178 | the in-place updates of `parse_gga` leave exactly the state of running its six guarded assignments in order, stopping at the first that raises |
| `ChestSensor.SimpleGps.ParseRmc` | esp32-code/micropython_chest_sensor.py:180-194 | the same for `parse_rmc`'s two assignments |
| `ChestSensor.SimpleGps.ParseVtg` | esp32-code/micropython_chest_sensor.py:196-209 | the same for `parse_vtg`'s two assignments |
| `ChestSensor.SimpleGps.Assign` | esp32-code/micropython_chest_sensor.py:145-176 | one guarded `if parts[i]: self.f = conv(parts[i])` step. It raises exactly when the conversion fails, and then nothing is stored. |
| `ChestSensor.Apply` | esp32-code/micropython_chest_sensor.py:145-176 | one guarded assignment changes at most its own field. An empty guard field changes nothing, and a raising conversion leaves the state as it was. |
| `ChestSensor.RaisedStaysRaised` | esp32-code/micropython_chest_sensor.py:177-178 | once an assignment raises, no later assignment runs |
| `ChestSensor.RaisedSkipsNext` | esp32-code/micropython_chest_sensor.py:177-178 | after a raise the next assignment leaves the outcome as it was |
| `ChestSensor.SimpleGps.RunStep` | esp32-code/micropython_chest_sensor.py:144-178 | one guarded assignment on the parser's fields: either the whole sentence ends raised in the current state, or the run of the first k+1 assignments completes in the new state |
| `ChestSensor.Advance` | esp32-code/micropython_chest_sensor.py:144-176 | assignments run in source order, each on the state the previous ones left |
| `ChestSensor.Abort` | esp32-code/micropython_chest_sensor.py:177-178 | a raise ends the sentence in the state the earlier assignments left: nothing is rolled back |
| `ChestSensor.RunChangesOnlyActiveFields` | esp32-code/micropython_chest_sensor.py:145-176 | a run of assignments changes only fields whose guard field was non-empty |
| `ChestSensor.StepChangesOnlyItsTarget` | esp32-code/micropython_chest_sensor.py:145-176 | one more assignment changes at most its own field, and nothing when its guard field is empty |
| `ChestSensor.ActiveFieldsAreTargets` | esp32-code/micropython_chest_sensor.py:145-176 | a run can only change fields that its assignments target |
| `ChestSensor.SoleAssignmentSkipped` | esp32-code/micropython_chest_sensor.py:163-176 | a field written by a single assignment whose guard field is empty is not changed |
| `ChestSensor.GgaSkippedFields` | esp32-code/micropython_chest_sensor.py:163-176 | an empty fix-quality, satellites, HDOP or altitude field means GGA does not write that field |
| `ChestSensor.AfterGgaRunsAll` | esp32-code/micropython_chest_sensor.py:142-143 | a GGA sentence with at least 15 parts runs all six assignments |
| `ChestSensor.GgaTargets` | esp32-code/micropython_chest_sensor.py:145-176 | GGA writes latitude, longitude, fix quality, satellites, HDOP and altitude, in that order |
| `ChestSensor.GgaAbortKeepsEarlierAssignments` | esp32-code/micropython_chest_sensor.py:144-178 | a GGA sentence whose k-th conversion raises keeps what the first k assignments stored and leaves every other field unchanged |
| `ChestSensor.GgaLatitude` | esp32-code/micropython_chest_sensor.py:145-152 | latitude becomes `trunc(v/100) + (v mod 100)/60`, negated exactly for `S`; it is kept when the value or hemisphere is empty or the value is malformed |
| `ChestSensor.GgaLongitude` | esp32-code/micropython_chest_sensor.py:154-160 | longitude is converted the same way and negated exactly for `W`. It is kept when either of its fields is empty, when the value is malformed, or when the latitude conversion raised. |
| `ChestSensor.GgaEmptyFieldsKeepValues` | esp32-code/micropython_chest_sensor.py:163-176 | fix quality, satellites, HDOP and altitude keep their values when their own field is empty |
| `ChestSensor.StepOutcomeSurvives` | esp32-code/micropython_chest_sensor.py:144-178 | the assignments before the k-th change only their own fields, and what the k-th leaves (or the state at an earlier raise) reaches the end of the sentence in every field no later assignment writes |
| `ChestSensor.GgaFixQuality` | esp32-code/micropython_chest_sensor.py:163-164 | fix quality becomes `int(parts[6])` when nothing before it raised and the field is non-empty and converts; otherwise it keeps its value |
| `ChestSensor.GgaSatellites` | esp32-code/micropython_chest_sensor.py:167-168 | satellites becomes `int(parts[7])` on the same terms |
| `ChestSensor.GgaHdop` | esp32-code/micropython_chest_sensor.py:171-172 | HDOP becomes `float(parts[8])` on the same terms |
| `ChestSensor.GgaAltitude` | esp32-code/micropython_chest_sensor.py:175-176 | altitude becomes `float(parts[9])` on the same terms |
| `ChestSensor.GgaCanMakeFixValid` | esp32-code/micropython_chest_sensor.py:144-176 | a GGA sentence whose coordinates and fix quality convert, with a positive fix quality, leaves a valid fix whatever came before |
| `ChestSensor.AfterGga` | esp32-code/micropython_chest_sensor.py:139-178 | GGA writes only position, fix quality, satellites, HDOP and altitude, never speed or heading |
| `ChestSensor.AfterRmc` | esp32-code/micropython_chest_sensor.py:180-194 | RMC writes at most speed and heading |
| `ChestSensor.AfterVtg` | esp32-code/micropython_chest_sensor.py:196-209 | VTG writes at most speed and heading |
| `ChestSensor.AfterNmea` | esp32-code/micropython_chest_sensor.py:127-137 | only a GGA sentence with at least 15 parts, or an RMC or VTG sentence with at least 10, changes anything; every other sentence changes nothing |
| `ChestSensor.RmcSpeedAndHeading` | esp32-code/micropython_chest_sensor.py:186-192 | RMC speed is part 7 in knots times 1.852. Heading is part 8, reached only when the speed conversion did not raise. |
| `ChestSensor.VtgSpeedAndHeading` | esp32-code/micropython_chest_sensor.py:202-207 | VTG speed is part 7 as km/h and heading is part 1, with the same abort rule |
| `ChestSensor.SpeedSentencesKeepValidity` | esp32-code/micropython_chest_sensor.py:180-215 | RMC and VTG never change whether the fix is valid |
| `ChestSensor.SentenceChangesOnlyTargets` | esp32-code/micropython_chest_sensor.py:139-209 | a sentence whose assignments all write fields of a set changes no field outside it |
| `ChestSensor.Trunc` | esp32-code/micropython_chest_sensor.py:147 | Python `int()` truncates toward zero: for x >= 0 the result is the largest whole number not above x, and for x < 0 the smallest not below it |
| `ChestSensor.Mod100` | esp32-code/micropython_chest_sensor.py:148 | Python `x % 100` on a float: the remainder lies in [0, 100) and differs from x by a whole multiple of 100 |
| `ChestSensor.NmeaToDegrees` | esp32-code/micropython_chest_sensor.py:147-149 | the result is the whole part of v/100 plus less than 100/60 of minutes |
| `ChestSensor.NmeaToDegreesOfDegreesAndMinutes` | esp32-code/micropython_chest_sensor.py:147-150 | `dddmm.mmmm` becomes degrees plus minutes/60 |
| `ChestSensor.PayloadSpeed` | esp32-code/micropython_chest_sensor.py:293 | the posted speed is 0 exactly when the fix has no speed or a speed of 0, and is the fix's speed otherwise |
| `ChestSensor.ChestPayload` | esp32-code/micropython_chest_sensor.py:287-306 | the payload always has a numeric speed (0 without a fix speed), and HDOP travels under `accuracy`, not `hdop` |
| `ChestSensor.ChestPayloadShape` | esp32-code/micropython_chest_sensor.py:287-306 | the payload has exactly the seven GPS keys and the seven sensor keys |
| `ChestSensor.SnapshotPayloadReadsRegisters` | esp32-code/micropython_chest_sensor.py:282-306 | the posted accelerometer axes are the faithful images of their register words, and the temperature reads back the raw word at 0x41 |
| `LegSensor.LegPayload` | esp32-code/micropython_leg_sensor.py:158-166 | the leg payload has exactly the three accelerometer axes, the three gyroscope axes and the temperature, all numbers, with no GPS fields and no timestamp |
| `LegSensor.SnapshotPayloadReadsRegisters` | esp32-code/micropython_leg_sensor.py:153-166 | every posted axis is the faithful image of its register word within its full-scale range, and the temperature reads back the raw word at 0x41 |
| `Server.Magnitude` | backend/server.py:42-44 | the magnitude is non-negative and its square is the sum of the squared axes |
| `Server.Clamp` | backend/server.py:85 | the clamped cosine lies in [-1, 1]: it is unchanged when already there, 1 above 1 and -1 below -1 |
| `Server.AccelOrGravity` | backend/server.py:67-76 | an absent, `null` or 0 `accel_x` or `accel_y` reads 0 and nothing else does; `accel_z` reads 9.8 exactly when it is absent, `null`, 0 or 9.8, so it is never 0 |
| `Server.AngleDiffRange` | backend/server.py:67-87 | the posture angle always lies in [0, 180] degrees, and it is 0 whenever either vector's magnitude is at most 0.1 |
| `Server.DetectActivity` | backend/server.py:47-123 | the class is never UNKNOWN, and STATIONARY exactly when the speed is below 1 |
| `Server.FaintVectorRidesScooter` | backend/server.py:81-115 | above 15 km/h, a leg or chest vector of magnitude at most 0.1 makes the angle 0, so the ride is SCOOTER whatever the posture |
| `Server.DetectActivityBands` | backend/server.py:47-123 | STATIONARY iff speed < 1; WALKING iff 1 <= speed <= 15; above 15, SCOOTER iff the angle is below 20, else MOTORCYCLE; never UNKNOWN |
| `Server.NoSpeedIsStationary` | backend/server.py:57-95 | a chest row with an absent, null or 0 speed is STATIONARY |
| `Server.DetectActivityIgnoresGyro` | backend/server.py:60-105 | two leg rows with the same accelerometer vector classify alike, whatever their gyroscopes |
| `Server.FasterIsNeverSlowerActivity` | backend/server.py:94-115 | raising the speed never moves the class back towards stationary |
| `Server.CheckHarshBrake` | backend/server.py:126-128 | a harsh brake is a deceleration: its `accel_x` is negative |
| `Server.CheckHarshAcceleration` | backend/server.py:131-133 | a harsh acceleration has a positive `accel_x` |
| `Server.HarshBrakeAndAccelerationExclusive` | backend/server.py:126-133 | no `accel_x` is both a harsh brake and a harsh acceleration, and the thresholds themselves are neither |
| `Server.AccelOrZero` | backend/server.py:142-151 | `dict.get(key, 0)`: an absent key reads 0, a stored number reads as itself, and only a stored `null` is unusable; where usable it agrees with the `or 0` reading the classifier uses |
| `Server.CheckFall` | backend/server.py:136-161 | a fall is reported exactly when the difference exceeds 15, and the difference is never negative |
| `Server.CheckFallProperties` | backend/server.py:136-161 | the check is symmetric in the two sensors, and a `null` axis gives no fall with difference 0 |
| `Server.SameAccelerationIsNoFall` | backend/server.py:153-157 | identical accelerometer readings never look like a fall |
| `Server.FallMagnitudeOfZeroVector` | backend/server.py:142-151 | a record whose three axes are absent or 0 (free fall, not rest) has magnitude 0 |
| `Server.CreateEvent` | backend/server.py:164-192 | the row carries its type and severity and the chest's position and speed; Telegram is notified exactly for HIGH or CRITICAL |
| `Server.ReceiveChest` | backend/server.py:304-390 | the upload is refused with no data exactly when the body is missing or empty |
| `Server.ReceiveChestEvents` | backend/server.py:348-381 | see the list below the table |
| `Server.ReceiveChestEventRows` | backend/server.py:356-381 | every event has its kind's severity (harsh brake MEDIUM, harsh acceleration LOW, fall CRITICAL), only the fall notifies Telegram, and every event carries the chest's position and speed |
| `Server.EmptyBodyIsRefused` | backend/server.py:328-329 | a missing or empty body is refused |
| `Server.LiveActivity` | backend/server.py:415-419 | the live activity is UNKNOWN exactly when the latest leg or chest row is missing or empty, and otherwise it is `detect_activity_type`'s class for those two rows |
| `EventsPanel.SeverityColor` | frontend/src/components/EventsPanel.js:5-13 | a known severity gets its colour; a missing or unknown one gets the LOW colour; the result is always a colour of the table |
| `EventsPanel.EventIcon` | frontend/src/components/EventsPanel.js:15-25 | a known type gets its icon and any other type the default pin |
| `EventsPanel.UpperCaseTypesGetDefaultIcon` | frontend/src/components/EventsPanel.js:16-24 | a type starting with an upper-case letter always gets the default icon |
| `EventsPanel.Label` | frontend/src/components/EventsPanel.js:70 | same length, and each character is the original with `_` replaced by a space |
| `EventsPanel.LabelProperties` | frontend/src/components/EventsPanel.js:70 | no underscore is left and every other character is kept; relabelling is idempotent; a type without underscores is shown as is |
| `EventsPanel.FormatTimestamp` | frontend/src/components/EventsPanel.js:27-40 | see the list below the table |
| `EventsPanel.FormatTimestampBuckets` | frontend/src/components/EventsPanel.js:30-39 | the four buckets partition all differences: below a minute, below an hour (that many minutes), below a day (that many hours), and the rest |
| `EventsPanel.MinutesToHours` | frontend/src/components/EventsPanel.js:31-36 | flooring to minutes and then to hours is flooring straight to hours |
| `EventsPanel.FormatTimestampBoundaries` | frontend/src/components/EventsPanel.js:33-39 | 59999 ms is just now; 60000 ms is 1m; 3599999 ms is 59m; 3600000 ms is 1h; 86399999 ms is 23h; 86400000 ms is the date |
| `EventsPanel.TimeText` | frontend/src/components/EventsPanel.js:33-37 | under a minute renders as "Just now", minutes as `<m>m ago` and hours as `<h>h ago` |
| `EventsPanel.MinutesTextReadsBack` | frontend/src/components/EventsPanel.js:34 | the minutes text ends in `m ago` and its digits read back as the number of minutes |
| `EventsPanel.Render` | frontend/src/components/EventsPanel.js:46-70 | the empty state shows exactly for a missing or empty list; otherwise there are as many cards as events |
| `EventsPanel.RenderShowsEveryEvent` | frontend/src/components/EventsPanel.js:46-70 | the empty state shows exactly for a missing or empty list. Otherwise there is one card per event, in order, with its label and its time. |
| `TelegramLink.Digits` | frontend/src/components/TelegramLink.js:46 | the filtered text holds only digits and is no longer than the input |
| `TelegramLink.DigitsOfConcat` | frontend/src/components/TelegramLink.js:46 | filtering distributes over concatenation, so digits keep their order |
| `TelegramLink.DigitsOfDigits` | frontend/src/components/TelegramLink.js:46 | a string of digits passes the filter unchanged |
| `TelegramLink.DigitsLength` | frontend/src/components/TelegramLink.js:46 | the filter keeps exactly the digits: its length is the digit count |
| `TelegramLink.SanitizePin` | frontend/src/components/TelegramLink.js:46 | the PIN holds at most six characters, all digits |
| `TelegramLink.SanitizePinProperties` | frontend/src/components/TelegramLink.js:46 | the PIN is the first min(6, number of digits) digits of the input, in order, and sanitising again changes nothing |
| `TelegramLink.SanitizeDropsSeparators` | frontend/src/components/TelegramLink.js:46 | digits typed around a ` - ` separator come out joined |
| `TelegramLink.TextOr` | frontend/src/components/TelegramLink.js:33-38 | a present non-empty message is used, otherwise the fallback |
| `TelegramLink.OutcomeMessage` | frontend/src/components/TelegramLink.js:26-39 | see the list below the table |
| `TelegramLink.TelegramLinkForm.SubmitEnabled` | frontend/src/components/TelegramLink.js:108 | the button is enabled exactly when not loading and the PIN has six characters |
| `TelegramLink.TelegramLinkForm.constructor` | frontend/src/components/TelegramLink.js:8-10 | the dialog starts with an empty PIN, not loading and no message |
| `TelegramLink.TelegramLinkForm.HandlePinChange` | frontend/src/components/TelegramLink.js:45-49 | the field holds the sanitised value and the message is cleared; loading is untouched |
| `TelegramLink.TelegramLinkForm.BeginSubmit` | frontend/src/components/TelegramLink.js:15-21 | a PIN of the wrong length shows "PIN must be 6 digits", does not start loading and sends nothing. Otherwise loading starts, the message is cleared and the PIN is sent. |
| `TelegramLink.TelegramLinkForm.FinishSubmit` | frontend/src/components/TelegramLink.js:26-42 | the message is the outcome's and loading is cleared on every outcome; the success timer is started exactly when the response reports success |
| `TelegramLink.TelegramLinkForm.SuccessTimeout` | frontend/src/components/TelegramLink.js:28-31 | the timer after a successful link clears the PIN and calls `onClose`; loading and the message are untouched |
| `TelegramLink.TelegramLinkForm.HandleSubmit` | frontend/src/components/TelegramLink.js:12-43 | a request is sent iff the PIN had six characters. After it, loading is false and the message is the outcome's. Otherwise the length error shows. The success timer is started exactly when a request was sent and succeeded. The PIN field always keeps the invariant. |
| `TelegramLink.SubmitFromEnabledButton` | frontend/src/components/TelegramLink.js:12-108 | pressing the enabled button always sends the PIN and ends not loading |
| `GyroscopeViz.UnitOrientation` | frontend/src/components/GyroscopeViz.js:46-55 | the yaw is always 0 |
| `GyroscopeViz.CalculateOrientation` | frontend/src/components/GyroscopeViz.js:37-56 | yaw is 0, and a zero-magnitude vector gives (0, 0, 0) without dividing |
| `GyroscopeViz.OrientationScaleInvariant` | frontend/src/components/GyroscopeViz.js:39-50 | scaling the accelerometer vector by a positive factor leaves the orientation unchanged |
| `GyroscopeViz.CancelFactor` | frontend/src/components/GyroscopeViz.js:42-44 | a common positive factor cancels in the normalisation |
| `GyroscopeViz.SensorOrientation` | frontend/src/components/GyroscopeViz.js:58-68 | the callers' orientation has yaw 0 |
| `GyroscopeViz.CallerVectorIsNeverZero` | frontend/src/components/GyroscopeViz.js:58-68 | the callers' vertical axis is never 0, so the magnitude is positive and the zero branch is unreachable from this view |
| `GyroscopeViz.PostureDiff` | frontend/src/components/GyroscopeViz.js:71-74 | the posture difference is never negative |
| `GyroscopeViz.PostureDiffProperties` | frontend/src/components/GyroscopeViz.js:71-74 | the posture difference is non-negative and symmetric in leg and chest; it is 0 exactly when pitch and roll agree |
| `GyroscopeViz.BarWidth` | frontend/src/components/GyroscopeViz.js:144 | the bar is twice the difference below 50 and exactly 100% wide from 50 on, never wider; it is non-negative for a non-negative difference |
| `Pipeline.LegPayloadRowIsNeverHandlerError` | backend/server.py:348-353 | a chest upload checked against a leg row as the leg node posts it never fails in the handler |
| `Pipeline.ChestWithoutSpeedIsStationary` | backend/server.py:57-95 | while the chest GPS has no speed or a speed of 0, the posted chest row classifies as STATIONARY |
| `Pipeline.BackendEventsShowDefaultIcon` | frontend/src/components/EventsPanel.js:15-25 | every event a chest upload creates is listed with the default icon, because its type is upper case and the icon table is keyed in lower case; its severity is in the colour table |
| `JsonRecords.NumberOr` | backend/server.py:57-76 | a present non-zero number is read as itself, and an absent, `null` or 0 value reads as the default, so the result is 0 only when the default is |
| `Text.Split` | esp32-code/micropython_chest_sensor.py:142 | splitting always gives at least one piece, so an empty sentence is one empty part |
| `Text.SplitPiecesHaveNoSeparator` | esp32-code/micropython_chest_sensor.py:142 | no piece contains the separator |
| `Text.JoinSplit` | esp32-code/micropython_chest_sensor.py:142 | joining the pieces with the separator gives back the sentence |
| `Text.SplitCount` | esp32-code/micropython_chest_sensor.py:142 | a sentence has one more piece than it has separators |
| `Text.Decimal` | frontend/src/components/EventsPanel.js:34 | a number renders as a non-empty string of digits with no leading zero |
| `Text.DecimalRoundTrip` | frontend/src/components/EventsPanel.js:34 | the rendered digits read back as the number |

What `Server.ReceiveChestEvents` states about a chest upload:

- Without a leg row, the upload raises nothing.
- If the leg `accel_x` is `null`, the handler fails.
- Otherwise each of the three events is raised exactly when its check holds:
  - `HARSH_BRAKE` when `accel_x` < -8;
  - `HARSH_ACCEL` when `accel_x` > 6;
  - `FALL_DETECTED` when the fall check holds.
- At most two events are raised.

Their severities, notification and position are stated by `Server.ReceiveChestEventRows`.

What `EventsPanel.FormatTimestamp` states, with `d` the whole minutes elapsed:

- Just now exactly when less than a minute has passed, including the future.
- Otherwise the minutes when `d` is in [1, 59].
- Otherwise the hours when they are in [1, 23].
- Otherwise the date exactly from one day on.

What `TelegramLink.OutcomeMessage` states:

- Success is shown iff the server said success, with the fixed success text.
- A failed response shows the server's message or "Invalid or expired PIN".
- A thrown call shows the error's message or "Failed to verify PIN. Please try again.".
- The shown text is never empty.

## Left out

- Network and storage I/O is not modelled:
  - Supabase queries and inserts;
  - Flask routing, CORS and JSON responses;
  - the Telegram send in `notify_telegram`, and its "mark notified" update;
  - the Wi-Fi connection, `requests.post` and the HTTP verify-PIN call.

  The latest rows, `now` and the verify outcome are parameters instead.
- The Telegram bot is not part of this model: all of its handlers are I/O, and its PIN is random.
- ESP32 hardware is not modelled:
  - I2C and UART reads: bytes and sentences are inputs;
  - `SimpleGPS.update`'s reading and ASCII decoding of a UART line;
  - the timed main loops.
- Floating-point detail is not modelled:
  - `round(...)` in the payloads, `toFixed`, and the locale date text (shown as a marker);
  - the exact values of `sqrt`, `acos` and `atan2`;
  - NaN and infinities. Reals stand for floats throughout.
  - Python's `OverflowError`: `x**2` overflows for readings above about 1e154, so `detect_activity_type` would answer UNKNOWN and `check_fall_detection` (False, 0). In the model, squares never overflow.
- JSON values that are strings or booleans are not modelled: a record's values are numbers or `null`.
- `EventsPanel.FormatTimestamp`: `new Date(timestamp)` parsing the backend's ISO timestamp string is not modelled; the timestamp is taken as integer milliseconds. The "Invalid Date" text an unparseable string would produce is not modelled either.
- The description texts `create_event` receives and the `timestamp` the backend adds to rows are not modelled.
- `ChestSensor.SimpleGps.ParseNmea`: the outer `try/except` in `parse_nmea` is not modelled separately. The three sentence methods already swallow every error, so it never fires.
- `Server.CreateEvent`: the insert's failure path (which returns `None`) is not modelled. The function always produces the row.
- `EventsPanel.SeverityColor`: a severity such as `constructor`, which JavaScript finds on `Object.prototype`, is not modelled. In the model only the four table keys are known.
- `EventsPanel.EventIcon`: inherited `Object.prototype` keys are not modelled either.
- The accelerometer and gyroscope scale constants are taken as written. The driver assumes +-8 g and +-500 deg/s without ever configuring those ranges, which is a calibration matter rather than logic.
- `TelegramLink.TelegramLinkForm.HandleSubmit`: the method models a submission during which nothing else happens while the request is awaited. The source leaves the PIN input editable while loading, so an edit made during the await is not modelled, and `pin == old(pin)` holds only for this uninterrupted run.
- `TelegramLink.TelegramLinkForm.SuccessTimeout`: the two-second delay is not modelled; the caller runs the method once `HandleSubmit` reports the timer armed. The `onClose()` call is recorded in `closeRequested`, but the parent's reaction, which sets `isOpen` to false so that the dialog renders nothing, is not modelled. The close button and the overlay click also call `onClose`; they are presentation and are not modelled.
- `EventsPanel.EventView`: `eventType` is always a string in the model. In the source, an event without `event_type` makes `.replace` throw while rendering; that crash is not modelled.
- `GyroscopeViz.UnitOrientation`: only the yaw is stated. Pitch and roll are `atan2` values, about which nothing is assumed.
- The Three.js mesh update, Google Maps, the polling in `App.js`, and the `Dashboard.js`/`MapView.js` views are not modelled. They are presentation only.
