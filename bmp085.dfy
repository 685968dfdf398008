/** The BMP085/BMP180 routines of i2c_sensor.c: the calibration words read by
    sensor_bmp085_init_temp, the two conversions bmp085_read starts, and the
    integer compensation of the chip's data sheet as the driver writes it, with
    C's 32-bit wrap-around and truncating division written out. */
module Bmp085 {
  import opened I2c
  import opened Sensors
  import opened Decoders
  import Am2321

  // ------------------------------------------------- C integer arithmetic

  const Two31: int := 0x8000_0000
  const Two32: int := 0x1_0000_0000

  /** The int32_t an integer result lands in: wrapped modulo 2^32 into
      [-2^31, 2^31). */
  function S32(x: int): (r: int)
    ensures -Two31 <= r < Two31
  {
    (x + Two31) % Two32 - Two31
  }

  /** A value that fits is kept, and wrapping changes a value by a multiple of
      2^32 only. */
  lemma S32Meaning(x: int)
    ensures -Two31 <= x < Two31 ==> S32(x) == x
    ensures (x - S32(x)) % Two32 == 0
  {
    var k := (x + Two31) / Two32;
    assert x + Two31 == k * Two32 + (x + Two31) % Two32;
    assert x - S32(x) == k * Two32;
  }

  /** The uint32_t an integer result lands in. */
  function U32(x: int): (r: nat)
    ensures r < Two32
    ensures 0 <= x < Two32 ==> r == x
  {
    x % Two32
  }

  function Abs(x: int): nat
  {
    if x < 0 then -x else x
  }

  /** C's `/` on int: the quotient truncated toward zero. */
  function Quot(a: int, b: int): int
    requires b != 0
  {
    var q := Abs(a) / Abs(b);
    if (a < 0) == (b < 0) then q else -q
  }

  /** x <= y keeps its direction under multiplication by a natural number. */
  lemma MulLe(x: nat, y: nat, k: nat)
    requires x <= y
    ensures x * k <= y * k
  {
    assert y * k == x * k + (y - x) * k;
  }

  /** x < y: y * k is at least a whole k above x * k. */
  lemma MulLtStep(x: nat, y: nat, k: nat)
    requires x < y
    ensures x * k + k <= y * k
  {
    MulLe(x + 1, y, k);
    assert (x + 1) * k == x * k + k;
  }

  /** A quotient and remainder with 0 <= r < b are the ones `/` and `%` give. */
  lemma DivUnique(n: nat, b: nat, q: nat, r: nat)
    requires 0 < b && r < b && n == q * b + r
    ensures n / b == q && n % b == r
  {
    var q', r' := n / b, n % b;
    assert n == q' * b + r' && r' < b;
    if q' < q {
      MulLtStep(q', q, b);
    }
    if q < q' {
      MulLtStep(q, q', b);
    }
  }

  /** Dividing a natural number by a positive one never makes it larger. */
  lemma DivLe(a: nat, b: nat)
    requires 0 < b
    ensures a / b <= a
  {
    var q := a / b;
    assert a == q * b + a % b;
    MulLe(1, b, q);
  }

  lemma MulNegLeft(x: int, y: int)
    ensures (-x) * y == -(x * y)
  {
  }

  lemma MulNegRight(x: int, y: int)
    ensures x * (-y) == -(x * y)
  {
  }

  /** The remainder C leaves: the magnitudes' remainder, with the dividend's
      sign. */
  lemma QuotRemainder(a: int, b: int)
    requires b != 0
    ensures a - Quot(a, b) * b == if a >= 0 then Abs(a) % Abs(b) else -(Abs(a) % Abs(b))
  {
    var x, y := Abs(a), Abs(b);
    var q: int := x / y;
    assert x == q * y + x % y;
    if b > 0 {
      if a < 0 {
        assert Quot(a, b) == -q;
        MulNegLeft(q, b);
      }
    } else {
      MulNegRight(q, b);
      if a >= 0 {
        assert Quot(a, b) == -q;
        MulNegLeft(q, b);
      }
    }
  }

  /** What C promises of `/`: a = q * b + rem with the remainder smaller than
      the divisor and of the dividend's sign; and the quotient is never larger
      than the dividend. */
  lemma QuotMeaning(a: int, b: int)
    requires b != 0
    ensures var rem := a - Quot(a, b) * b;
            Abs(rem) < Abs(b) && (a >= 0 ==> rem >= 0) && (a <= 0 ==> rem <= 0)
    ensures Abs(Quot(a, b)) <= Abs(a)
    ensures (a >= 0) == (b > 0) ==> Quot(a, b) >= 0
  {
    QuotRemainder(a, b);
    DivLe(Abs(a), Abs(b));
  }

  /** Dividing by a positive constant shrinks the magnitude by that factor. */
  lemma QuotBound(a: int, b: nat, bound: nat)
    requires b > 0 && Abs(a) <= bound
    ensures Abs(Quot(a, b)) <= bound / b
  {
    assert Abs(Quot(a, b)) == Abs(a) / b;
    DivMonotone(Abs(a), bound, b);
  }

  lemma DivMonotone(x: nat, y: nat, b: nat)
    requires b > 0 && x <= y
    ensures x / b <= y / b
  {
    var qx, qy := x / b, y / b;
    assert x == qx * b + x % b && y == qy * b + y % b;
    if qy < qx {
      MulLtStep(qy, qx, b);
    }
  }
  // -------------------------------------------------------- calibration

  /** The calibration registers the driver reads, one 16-bit word each, in
      order: AC1 to AC6, B1, B2, then MC and MD (the word at 0xba, MB, is
      skipped). */
  const CalibrationRegisters: seq<bv8> := [0xAA, 0xAC, 0xAE, 0xB0, 0xB2, 0xB4, 0xB6, 0xB8, 0xBC, 0xBE]

  /** The static bmp085 struct, as numbers: AC4, AC5 and AC6 are uint16_t, the
      others int16_t. */
  datatype Calibration = Calibration(ac1: int, ac2: int, ac3: int, ac4: nat, ac5: nat, ac6: nat,
                                     b1: int, b2: int, mc: int, md: int)

  predicate Int16(x: int)
  {
    -0x8000 <= x < 0x8000
  }

  predicate ValidCalibration(c: Calibration)
  {
    Int16(c.ac1) && Int16(c.ac2) && Int16(c.ac3) && c.ac4 < 0x1_0000 && c.ac5 < 0x1_0000 && c.ac6 < 0x1_0000
    && Int16(c.b1) && Int16(c.b2) && Int16(c.mc) && Int16(c.md)
  }

  /** Ten words as read into the struct. */
  predicate Words(words: seq<nat>)
  {
    |words| == 10 && forall i :: 0 <= i < 10 ==> words[i] < 0x1_0000
  }

  /** The struct's fields from the words bmp085_read_reg_2 stored in them: the
      signed fields read the word back as two's complement. */
  function CalibrationOf(words: seq<nat>): (c: Calibration)
    requires Words(words)
    ensures ValidCalibration(c)
    ensures c.ac4 == words[3] && c.ac5 == words[4] && c.ac6 == words[5]
    ensures c.ac1 % 0x1_0000 == words[0] && c.ac2 % 0x1_0000 == words[1] && c.ac3 % 0x1_0000 == words[2]
    ensures c.b1 % 0x1_0000 == words[6] && c.b2 % 0x1_0000 == words[7]
    ensures c.mc % 0x1_0000 == words[8] && c.md % 0x1_0000 == words[9]
  {
    Calibration(Signed16(words[0]), Signed16(words[1]), Signed16(words[2]), words[3], words[4], words[5],
                Signed16(words[6]), Signed16(words[7]), Signed16(words[8]), Signed16(words[9]))
  }

  // -------------------------------------------------------- temperature

  /** X1 of the temperature: (ut - AC6) * AC5 / 2^15 in int. */
  function TemperatureX1(c: Calibration, ut: nat): (x1: int)
    requires ValidCalibration(c) && ut < 0x1_0000
    ensures -0x1_0000 <= x1 <= 0x1_0000
  {
    var product := S32((ut - c.ac6) * c.ac5);
    QuotBound(product, 0x8000, Two31);
    Quot(product, 0x8000)
  }

  /** B5 from the uncompensated temperature ut: device_error_1 where the divisor
      X1 + MD of X2 is zero, and otherwise X1 + X2, which cannot overflow. */
  function B5(c: Calibration, ut: nat): (r: Result<int>)
    requires ValidCalibration(c) && ut < 0x1_0000
    ensures r.Err? <==> TemperatureX1(c, ut) + c.md == 0
    ensures r.Err? ==> r.error == DeviceError(1)
    ensures r.Ok? ==> -0x410_0000 <= r.value <= 0x410_0000
  {
    var x1 := TemperatureX1(c, ut);
    if x1 + c.md == 0 then Err(DeviceError(1))
    else
      QuotMeaning(c.mc * 0x800, x1 + c.md);
      var x2 := Quot(c.mc * 0x800, x1 + c.md);
      Ok(x1 + x2)
  }

  /** The cooked temperature, ((B5 + 8) / 16) / 10 degrees. */
  function Celsius(b5: int): (t: real)
    ensures t * 160.0 == b5 as real + 8.0
  {
    ((b5 as real + 8.0) / 16.0) / 10.0
  }

  // ----------------------------------------------------------- pressure

  /** The uncompensated pressure: the 24-bit reading shifted right by 8 - oss,
      with oversampling oss = 3. */
  function Up(b0: bv8, b1: bv8, b2: bv8): (up: nat)
    ensures up < 0x8_0000
  {
    (b0 as nat * 0x1_0000 + b1 as nat * 0x100 + b2 as nat) / 0x20
  }

  /** B6 = B5 - 4000, and (B6 * B6) / 2^12, which B3 and B4 both use. */
  function B6(b5: int): int
  {
    S32(b5 - 4000)
  }

  function B6Squared(b6: int): int
  {
    Quot(S32(b6 * b6), 0x1000)
  }

  /** B3 = ((AC1 * 4 + X3) << oss + 2) / 4. */
  function B3(c: Calibration, b6: int): int
  {
    var x1 := Quot(S32(c.b2 * B6Squared(b6)), 0x800);
    var x2 := Quot(S32(c.ac2 * b6), 0x800);
    var x3 := S32(x1 + x2);
    Quot(S32(S32(S32(c.ac1 * 4 + x3) * 8) + 2), 4)
  }

  /** B4 = AC4 * (X3 + 32768) / 2^15, computed in int and kept in a uint32_t. */
  function B4(c: Calibration, b6: int): nat
  {
    var x1 := Quot(S32(c.ac3 * b6), 0x2000);
    var x2 := Quot(S32(c.b1 * B6Squared(b6)), 0x1_0000);
    var x3 := Quot(S32(x1 + x2 + 2), 4);
    U32(Quot(S32(c.ac4 * (x3 + 0x8000)), 0x8000))
  }

  /** B7 = (UP - B3) * (50000 >> oss), in uint32_t. */
  function B7(up: nat, b3: int): (b7: nat)
    ensures b7 < Two32
  {
    U32(U32(up - b3) * 6250)
  }

  /** The pressure's scaled quotient as the data sheet means it: 2 * B7 / B4,
      computed as (B7 * 2) / B4 while B7 * 2 fits 32 bits and as (B7 / B4) * 2
      once it does not. */
  function Quotient(b7: nat, b4: nat): nat
    requires 0 < b4
  {
    if b7 < Two31 then U32(b7 * 2) / b4 else U32((b7 / b4) * 2)
  }

  /** The same step as i2c_sensor.c writes it: the two branches are the other
      way round, and the one taken when B7's top bit is set doubles twice. */
  function QuotientAsWritten(b7: nat, b4: nat): nat
    requires 0 < b4
  {
    if b7 >= Two31 then U32(U32(b7 * 2) / b4 * 2) else U32((b7 / b4) * 2)
  }

  /** The last five lines of the compensation: p + (X1 + X2 + 3791) / 2^4. */
  function Refine(p: int): int
  {
    var x1 := Quot(p, 0x100);
    var x1' := Quot(S32(S32(x1 * x1) * 3038), 0x1_0000);
    var x2 := Quot(S32(-7357 * p), 0x1_0000);
    S32(p + Quot(S32(x1' + x2 + 3791), 0x10))
  }

  /** The compensated pressure in Pa from B5 and UP: device_error_2 where B4,
      the divisor of the quotient, is zero. */
  function Pressure(c: Calibration, b5: int, up: nat): (r: Result<int>)
    ensures r.Err? <==> B4(c, B6(b5)) == 0
    ensures r.Err? ==> r.error == DeviceError(2)
    ensures r.Ok? ==> -Two31 <= r.value < Two31
  {
    var b6 := B6(b5);
    var b4 := B4(c, b6);
    if b4 == 0 then Err(DeviceError(2))
    else Ok(Refine(S32(Quotient(B7(up, B3(c, b6)), b4))))
  }

  /** The compensated pressure as written. */
  function PressureAsWritten(c: Calibration, b5: int, up: nat): (r: Result<int>)
    ensures r.Err? <==> B4(c, B6(b5)) == 0
    ensures r.Err? ==> r.error == DeviceError(2)
  {
    var b6 := B6(b5);
    var b4 := B4(c, b6);
    if b4 == 0 then Err(DeviceError(2))
    else Ok(Refine(S32(QuotientAsWritten(B7(up, B3(c, b6)), b4))))
  }

  /** The quotient as meant is 2 * B7 / B4 exactly while B7 is below 2^31, and
      at most one below it otherwise, whenever 2 * B7 / B4 fits 32 bits. */
  lemma QuotientClose(b7: nat, b4: nat)
    requires 0 < b4 && b7 < Two32 && (2 * b7) / b4 < Two32
    ensures b7 < Two31 ==> Quotient(b7, b4) == (2 * b7) / b4
    ensures (2 * b7) / b4 - 1 <= Quotient(b7, b4) <= (2 * b7) / b4
  {
    if b7 >= Two31 {
      QuotientHigh(b7, b4);
    }
  }

  /** The branch for a B7 of 2^31 or more: the quotient halved, then doubled. */
  lemma QuotientHigh(b7: nat, b4: nat)
    requires 0 < b4 && Two31 <= b7 < Two32 && (2 * b7) / b4 < Two32
    ensures (2 * b7) / b4 - 1 <= Quotient(b7, b4) <= (2 * b7) / b4
  {
    var q := b7 / b4;
    var m := b7 % b4;
    assert b7 == q * b4 + m && m < b4;
    assert 2 * b7 == (2 * q) * b4 + 2 * m;
    DivStep(2 * b7, b4, 2 * q, 2 * m);
    assert Quotient(b7, b4) == U32(q * 2);
  }

  /** n = k * b + s with 0 <= s < 2 * b: n / b is k or k + 1. */
  lemma DivStep(n: nat, b: nat, k: nat, s: nat)
    requires 0 < b && s < 2 * b && n == k * b + s
    ensures k <= n / b <= k + 1
  {
    if s < b {
      DivUnique(n, b, k, s);
    } else {
      assert (k + 1) * b == k * b + b;
      DivUnique(n, b, k + 1, s - b);
    }
  }

  /** As written, a B7 with its top bit set first loses that bit to the
      doubling and then doubles the quotient once more. */
  lemma AsWrittenTopBit(b7: nat, b4: nat)
    requires 0 < b4 && Two31 <= b7 < Two32
    ensures QuotientAsWritten(b7, b4) == U32((2 * b7 - Two32) / b4 * 2)
  {
    assert U32(b7 * 2) == 2 * b7 - Two32;
  }

  /** B7 = 2^31, B4 = 2^15: the quotient meant is 2^17, the one written is 0. */
  lemma AsWrittenLosesPressure()
    ensures Quotient(Two31, 0x8000) == 0x2_0000
    ensures QuotientAsWritten(Two31, 0x8000) == 0
  {
    AsWrittenTopBit(Two31, 0x8000);
  }
}
