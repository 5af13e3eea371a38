/**
 * BME280 temperature compensation in 32-bit fixed point, compared with the exact polynomial that
 * section 8.1 of the datasheet BST-BME280-DS002 gives for the same calibration.
 */
module Bme280 {
  type Int16 = n: int | -0x8000 <= n < 0x8000
  type Uint16 = n: int | 0 <= n < 0x1_0000
  type RawReading = n: int | 0 <= n < 0x10_0000

  datatype Calibration = Calibration(t1: Uint16, t2: Int16, t3: Int16)

  predicate FitsInt32(n: int) {
    -0x8000_0000 <= n < 0x8000_0000
  }

  function Abs(n: int): nat {
    if n < 0 then -n else n
  }

  // The shifts of the source are arithmetic, so dividing by a power of two rounds down.

  function Product1(c: Calibration, raw: RawReading): int {
    (raw / 8 - c.t1 * 2) * c.t2
  }

  function Square(c: Calibration, raw: RawReading): int {
    (raw / 16 - c.t1) * (raw / 16 - c.t1)
  }

  function Product2(c: Calibration, raw: RawReading): int {
    Square(c, raw) / 4096 * c.t3
  }

  function FineTemperature(c: Calibration, raw: RawReading): int {
    Product1(c, raw) / 2048 + Product2(c, raw) / 16384
  }

  /** The compensated temperature, in hundredths of a degree Celsius. */
  function CompensateTemperature(c: Calibration, raw: RawReading): int {
    (FineTemperature(c, raw) * 5 + 128) / 256
  }

  /** Every intermediate value of the computation fits in a signed 32-bit integer. */
  predicate NoOverflow(c: Calibration, raw: RawReading) {
    && FitsInt32(Product1(c, raw))
    && FitsInt32(Square(c, raw))
    && FitsInt32(Product2(c, raw))
    && FitsInt32(FineTemperature(c, raw) * 5)
    && FitsInt32(FineTemperature(c, raw) * 5 + 128)
  }

  /** The datasheet's polynomial over exact rationals, in degrees Celsius. */
  function IdealTemperature(c: Calibration, raw: RawReading): real {
    var adc, t1, t2, t3 := raw as real, c.t1 as real, c.t2 as real, c.t3 as real;
    var var1 := (adc / 16384.0 - t1 / 1024.0) * t2;
    var var2 := (adc / 131072.0 - t1 / 8192.0) * (adc / 131072.0 - t1 / 8192.0) * t3;
    (var1 + var2) / 5120.0
  }

  /** The ideal fine temperature scaled by 2^34, as an integer. */
  function ScaledIdeal(c: Calibration, raw: RawReading): int {
    var offset := raw - 16 * c.t1;
    offset * c.t2 * 0x10_0000 + offset * offset * c.t3
  }

  lemma IdealIsScaled(c: Calibration, raw: RawReading)
    ensures IdealTemperature(c, raw) * 5120.0 * 17179869184.0 == ScaledIdeal(c, raw) as real
  {
    var adc, t1, t2, t3 := raw as real, c.t1 as real, c.t2 as real, c.t3 as real;
    var offset := raw - 16 * c.t1;
    var u, w := adc / 16384.0 - t1 / 1024.0, adc / 131072.0 - t1 / 8192.0;
    assert u * 16384.0 == offset as real && w * 131072.0 == offset as real;
    assert u * t2 * 17179869184.0 == (offset as real) * t2 * 1048576.0 by {
      assert u * t2 * 17179869184.0 == (u * 16384.0) * t2 * 1048576.0;
    }
    assert w * w * t3 * 17179869184.0 == (offset as real) * (offset as real) * t3 by {
      assert w * w * t3 * 17179869184.0 == (w * 131072.0) * (w * 131072.0) * t3;
    }
    CastOfProduct(offset, c.t2);
    CastOfProduct(offset, offset);
    CastOfProduct(offset * offset, c.t3);
  }

  lemma CastOfProduct(a: int, b: int)
    ensures (a * b) as real == a as real * b as real
  {
  }

  /** The linear term loses less than 15 units of the fine temperature. */
  lemma LinearTermError(c: Calibration, raw: RawReading)
    ensures -14 * 16384 <= (raw - 16 * c.t1) * c.t2 - 16384 * (Product1(c, raw) / 2048) < 15 * 16384
  {
    var p, rest := raw / 8 - c.t1 * 2, raw % 8;
    var remainder := Product1(c, raw) % 2048;
    assert raw - 16 * c.t1 == 8 * p + rest;
    assert (raw - 16 * c.t1) * c.t2 == 8 * (p * c.t2) + rest * c.t2;
    SmallFactor(rest, c.t2, 7);
  }

  lemma SmallFactor(a: int, b: int, bound: int)
    requires Abs(a) <= bound
    ensures Abs(a * b) <= bound * Abs(b)
  {
    if b >= 0 {
      assert (bound - a) * b >= 0 && (bound + a) * b >= 0;
    } else {
      assert (bound - a) * -b >= 0 && (bound + a) * -b >= 0;
    }
  }

  /** A square that fits in 32 bits bounds its root. */
  lemma RootOfSquare(d: int)
    requires d * d < 0x8000_0000
    ensures Abs(d) <= 46340
  {
    var root: int := Abs(d);
    assert root * root == d * d;
    assert (root - 46341) * (root + 46341) == d * d - 46341 * 46341;
    assert !((root - 46341) * (root + 46341) >= 0);
  }

  /** The quadratic term loses less than 46 units of the fine temperature. */
  lemma QuadraticTermError(c: Calibration, raw: RawReading)
    requires FitsInt32(Square(c, raw))
    ensures var offset := raw - 16 * c.t1;
            -45 * 0x4_0000_0000 < offset * offset * c.t3 - 0x4_0000_0000 * (Product2(c, raw) / 16384)
            < 46 * 0x4_0000_0000
  {
    var offset, d, rest := raw - 16 * c.t1, raw / 16 - c.t1, raw % 16;
    var q, r := Square(c, raw) / 4096, Square(c, raw) % 4096;
    var remainder := Product2(c, raw) % 16384;
    RootOfSquare(d);
    assert offset == 16 * d + rest;
    var slack := 256 * r + 32 * (d * rest) + rest * rest;
    assert offset * offset == 0x10_0000 * q + slack by {
      assert offset * offset == 256 * (d * d) + 32 * (d * rest) + rest * rest;
    }
    assert offset * offset * c.t3 == 0x10_0000 * (q * c.t3) + slack * c.t3;
    SmallFactor(rest, d, 15);
    SmallFactor(rest, rest, 15);
    SmallFactor(slack, c.t3, 23292001);
  }

  /**
   * Whenever no intermediate overflows, the fixed-point result is within 1.7 hundredths of a degree
   * of the exact polynomial, for every reading and every calibration.
   */
  lemma CompensationIsAccurate(c: Calibration, raw: RawReading)
    requires NoOverflow(c, raw)
    ensures -1.7 < CompensateTemperature(c, raw) as real - 100.0 * IdealTemperature(c, raw) < 1.7
  {
    LinearTermError(c, raw);
    QuadraticTermError(c, raw);
    IdealIsScaled(c, raw);
    var fine, hundredths := FineTemperature(c, raw), CompensateTemperature(c, raw);
    var ideal := ScaledIdeal(c, raw);
    assert -59 * 0x4_0000_0000 < ideal - 0x4_0000_0000 * fine < 61 * 0x4_0000_0000;
    assert -127 <= 256 * hundredths - 5 * fine <= 128;
    ScaleDown(hundredths, ideal, IdealTemperature(c, raw));
  }

  lemma ScaleDown(hundredths: int, ideal: int, temperature: real)
    requires temperature * 5120.0 * 17179869184.0 == ideal as real
    requires -432 * 0x4_0000_0000 < 0x4_0000_0000 * 256 * hundredths - 5 * ideal < 424 * 0x4_0000_0000
    ensures -1.7 < hundredths as real - 100.0 * temperature < 1.7
  {
    var difference := 0x4_0000_0000 * 256 * hundredths - 5 * ideal;
    assert difference as real == 4398046511104.0 * (hundredths as real - 100.0 * temperature);
  }

  /** An envelope that rules out overflow for every linear coefficient. */
  lemma EnvelopeFits(c: Calibration, raw: RawReading)
    requires Abs(raw - 16 * c.t1) <= 0x8_0000 - 16
    requires Abs(c.t3) <= 8191
    ensures NoOverflow(c, raw)
  {
    var p, d := raw / 8 - c.t1 * 2, raw / 16 - c.t1;
    SmallFactor(p, c.t2, 65535);
    SmallFactor(d, d, 32767);
    SmallFactor(Square(c, raw) / 4096, c.t3, 262128);
  }

  /** Outside the envelope the square alone can overflow: the largest reading against a zero offset. */
  lemma OverflowWitness()
    ensures !NoOverflow(Calibration(0, 0, 0), 0xF_FFFF)
  {
    assert Square(Calibration(0, 0, 0), 0xF_FFFF) == 0xFFFE_0001;
  }

  /** The last step rounds to the nearest hundredth, upward from a half. */
  lemma LastStepRounds(c: Calibration, raw: RawReading, hundredths: int)
    requires 256 * hundredths - 128 <= 5 * FineTemperature(c, raw) < 256 * hundredths + 128
    ensures CompensateTemperature(c, raw) == hundredths
  {
    hide FineTemperature;
  }

  /**
   * Every shift rounds down and the last step rounds to the nearest, upward from a half: integers
   * that bracket each step in turn end in the compensated temperature.
   */
  lemma CompensationStepByStep(c: Calibration, raw: RawReading, eighth: int, sixteenth: int, linear: int, square: int,
                               quadratic: int, hundredths: int)
    requires 8 * eighth <= raw < 8 * eighth + 8 && 16 * sixteenth <= raw < 16 * sixteenth + 16
    requires 2048 * linear <= (eighth - 2 * c.t1) * c.t2 < 2048 * linear + 2048
    requires 4096 * square <= (sixteenth - c.t1) * (sixteenth - c.t1) < 4096 * square + 4096
    requires 16384 * quadratic <= square * c.t3 < 16384 * quadratic + 16384
    requires 256 * hundredths - 128 <= 5 * (linear + quadratic) < 256 * hundredths + 128
    ensures CompensateTemperature(c, raw) == hundredths
  {
    assert raw / 8 == eighth && raw / 16 == sixteenth;
    assert Product1(c, raw) == (eighth - 2 * c.t1) * c.t2;
    assert Product1(c, raw) / 2048 == linear;
    assert Square(c, raw) / 4096 == square;
    assert Product2(c, raw) / 16384 == quadratic;
    LastStepRounds(c, raw, hundredths);
  }
}
