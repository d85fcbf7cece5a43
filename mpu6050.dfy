/** The MPU-6050 driver that both wearable nodes carry: the sensor's output
    registers hold each reading as a big-endian pair of bytes in two's
    complement (MPU-6000/MPU-6050 Register Map, sections 4.17 to 4.19), and
    the driver scales the decoded word to physical units. */
module Mpu6050 {

  newtype byte = x: int | 0 <= x < 256

  /** The register bank as the I2C bus shows it: a read of one byte at an
      address. */
  type Registers = int -> byte

  function Pow2(n: nat): (p: nat)
    ensures p >= 1
  {
    if n == 0 then 1 else 2 * Pow2(n - 1)
  }

  /** Python `x << n` on a non-negative int. */
  function ShiftLeft(x: nat, n: nat): nat
  {
    x * Pow2(n)
  }

  /** Python `a | b` on non-negative ints, bit by bit from the lowest. */
  function BitOr(a: nat, b: nat): nat
  {
    if a == 0 then b
    else if b == 0 then a
    else 2 * BitOr(a / 2, b / 2) + (if a % 2 == 1 || b % 2 == 1 then 1 else 0)
  }

  /** Or-ing a number below 2^k into a multiple of 2^k is addition. */
  lemma {:induction false} BitOrDisjoint(a: nat, b: nat, k: nat)
    requires b < Pow2(k)
    ensures BitOr(a * Pow2(k), b) == a * Pow2(k) + b
  {
    if k == 0 {
      assert b == 0;
      assert a * Pow2(0) == a;
    } else if a == 0 || b == 0 {
      assert a * Pow2(k) == 0 || b == 0;
    } else {
      var p := Pow2(k - 1);
      assert Pow2(k) == 2 * p;
      var x := a * Pow2(k);
      assert x == 2 * (a * p);
      assert x / 2 == a * p && x % 2 == 0;
      assert b / 2 < p;
      BitOrDisjoint(a, b / 2, k - 1);
      assert x != 0;
    }
  }

  /** `read_raw_data`: `(high << 8) | low`, then 65536 subtracted when the
      word is at least 32768. */
  function ReadRawData(high: byte, low: byte): (reading: int)
    ensures -32768 <= reading <= 32767
  {
    RawWordIsBigEndian(high, low);
    var value := BitOr(ShiftLeft(high as nat, 8), low as nat);
    if value >= 32768 then value - 65536 else value
  }

  /** The shift-or joins the bytes big-endian. */
  lemma RawWordIsBigEndian(high: byte, low: byte)
    ensures BitOr(ShiftLeft(high as nat, 8), low as nat) == 256 * high as int + low as int
  {
    assert Pow2(8) == 256;
    BitOrDisjoint(high as nat, low as nat, 8);
  }

  /** The decoded value, in terms of the two bytes. */
  lemma ReadRawDataValue(high: byte, low: byte)
    ensures ReadRawData(high, low)
            == if high < 128 then 256 * high as int + low as int
               else 256 * high as int + low as int - 65536
  {
    RawWordIsBigEndian(high, low);
  }

  /** The sign of the reading is the top bit of the high byte. */
  lemma ReadRawDataSign(high: byte, low: byte)
    ensures ReadRawData(high, low) < 0 <==> high >= 128
  {
    ReadRawDataValue(high, low);
  }

  /** The bytes a signed 16-bit value is stored as: the inverse of the decoding. */
  function Encode(value: int): (bytes: (byte, byte))
    requires -32768 <= value <= 32767
  {
    var word := if value < 0 then value + 65536 else value;
    ((word / 256) as byte, (word % 256) as byte)
  }

  /** Decoding undoes encoding: every value of the range is some pair's reading. */
  lemma DecodeEncode(value: int)
    requires -32768 <= value <= 32767
    ensures ReadRawData(Encode(value).0, Encode(value).1) == value
  {
    var (high, low) := Encode(value);
    ReadRawDataValue(high, low);
  }

  /** Encoding undoes decoding: the reading determines the pair. */
  lemma EncodeDecode(high: byte, low: byte)
    ensures Encode(ReadRawData(high, low)) == (high, low)
  {
    ReadRawDataValue(high, low);
  }

  /** Distinct byte pairs give distinct readings. */
  lemma ReadRawDataInjective(h1: byte, l1: byte, h2: byte, l2: byte)
    requires ReadRawData(h1, l1) == ReadRawData(h2, l2)
    ensures h1 == h2 && l1 == l2
  {
    EncodeDecode(h1, l1);
    EncodeDecode(h2, l2);
  }

  /** A reading of one register pair, high byte first. */
  function ReadWord(regs: Registers, address: int): int
  {
    ReadRawData(regs(address), regs(address + 1))
  }

  datatype Vec3 = Vec3(x: real, y: real, z: real)

  /** m/s^2 per count for the +-8 g range the driver assumes. */
  const AccelScale: real := 8.0 * 9.81 / 32768.0
  /** rad/s per count for the +-500 deg/s range the driver assumes. */
  const GyroScale: real := 500.0 * 3.14159 / (180.0 * 32768.0)

  const AccelXOut: int := 0x3B
  const TempOut: int := 0x41
  const GyroXOut: int := 0x43

  /** `get_accel_data`, `get_gyro_data`: three consecutive words, each times the scale. */
  function ScaledAxes(regs: Registers, first: int, scale: real): Vec3
  {
    Vec3(ReadWord(regs, first) as real * scale,
         ReadWord(regs, first + 2) as real * scale,
         ReadWord(regs, first + 4) as real * scale)
  }

  function AccelData(regs: Registers): (a: Vec3)
    ensures -AccelRange <= a.x <= AccelRange && -AccelRange <= a.y <= AccelRange && -AccelRange <= a.z <= AccelRange
  {
    ScaledAxes(regs, AccelXOut, AccelScale)
  }

  function GyroData(regs: Registers): (g: Vec3)
    ensures -GyroRange <= g.x <= GyroRange && -GyroRange <= g.y <= GyroRange && -GyroRange <= g.z <= GyroRange
  {
    ScaledAxes(regs, GyroXOut, GyroScale)
  }

  /** `get_temp_data`: degrees Celsius. */
  function TempData(regs: Registers): (celsius: real)
    ensures -32768.0 / 340.0 + 36.53 <= celsius <= 32767.0 / 340.0 + 36.53
  {
    ReadWord(regs, TempOut) as real / 340.0 + 36.53
  }

  /** The full-scale ranges: +-8 g in m/s^2 and +-500 deg/s in rad/s. */
  const AccelRange: real := 8.0 * 9.81
  const GyroRange: real := 500.0 * 3.14159 / 180.0

  predicate SameSign(a: real, b: real)
  {
    (a < 0.0 <==> b < 0.0) && (a == 0.0 <==> b == 0.0)
  }

  /** `value` has the sign of the raw word, is 0 exactly when it is, and
      lies within +-`range`. */
  predicate ScaledFrom(value: real, raw: int, range: real)
  {
    SameSign(value, raw as real) && -range <= value <= range
  }

  /** Scaling keeps each axis's sign, a raw zero stays zero, and the result
      never exceeds the full-scale range. */
  lemma AccelAxisFaithful(regs: Registers, address: int)
    ensures var raw := ReadWord(regs, address);
            ScaledFrom(raw as real * AccelScale, raw, AccelRange)
  {
  }

  lemma GyroAxisFaithful(regs: Registers, address: int)
    ensures var raw := ReadWord(regs, address);
            ScaledFrom(raw as real * GyroScale, raw, GyroRange)
  {
  }

  /** Each accelerometer axis comes from its own register pair, x from 0x3B,
      y from 0x3D and z from 0x3F, and is that word's faithful image in +-8 g. */
  lemma AccelDataFaithful(regs: Registers)
    ensures var a := AccelData(regs);
            && ScaledFrom(a.x, ReadWord(regs, 0x3B), AccelRange)
            && ScaledFrom(a.y, ReadWord(regs, 0x3D), AccelRange)
            && ScaledFrom(a.z, ReadWord(regs, 0x3F), AccelRange)
  {
    AccelAxisFaithful(regs, 0x3B);
    AccelAxisFaithful(regs, 0x3D);
    AccelAxisFaithful(regs, 0x3F);
  }

  /** The same for the gyroscope: x from 0x43, y from 0x45, z from 0x47,
      within +-500 deg/s. */
  lemma GyroDataFaithful(regs: Registers)
    ensures var g := GyroData(regs);
            && ScaledFrom(g.x, ReadWord(regs, 0x43), GyroRange)
            && ScaledFrom(g.y, ReadWord(regs, 0x45), GyroRange)
            && ScaledFrom(g.z, ReadWord(regs, 0x47), GyroRange)
  {
    GyroAxisFaithful(regs, 0x43);
    GyroAxisFaithful(regs, 0x45);
    GyroAxisFaithful(regs, 0x47);
  }

  /** The temperature is an increasing affine image of the raw word at 0x41:
      the word reads back from it, and a larger word is a warmer reading. */
  lemma TempDataFaithful(regs: Registers, other: Registers)
    ensures (TempData(regs) - 36.53) * 340.0 == ReadWord(regs, TempOut) as real
    ensures ReadWord(regs, TempOut) < ReadWord(other, TempOut) ==> TempData(regs) < TempData(other)
  {
  }
}
