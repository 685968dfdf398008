/** The straight-line integer decoders of i2c_sensor.c: how the bytes a sensor
    hands back become a raw reading. Each decoder is written as the source
    computes it (bit operations on the received bytes) and is paired with an
    independent arithmetic reading of the same bytes or with an encoder it
    inverts. */
module Decoders {
  import opened I2c

  // ------------------------------------------------------------- bytes

  /* Small facts connecting the bit operations of the source with the
     arithmetic they amount to. */

  /** The byte whose value is n. */
  function ByteOf(n: nat): (b: bv8)
    requires n < 256
    ensures b as nat == n
  {
    if n == 0 then 0 else ByteOf(n - 1) + 1
  }

  lemma LowSeven(b: bv8)
    ensures (b & 0x7F) as nat == b as nat % 128
  {
  }

  lemma SignBitSet(raw: bv16)
    ensures raw & 0x8000 != 0 <==> raw >= 0x8000
  {
  }

  lemma SignBitValue(raw: bv16)
    ensures raw >= 0x8000 <==> raw as int >= 0x8000
  {
  }

  lemma SignBit(raw: bv16)
    ensures raw & 0x8000 != 0 <==> raw as int >= 0x8000
  {
    SignBitSet(raw);
    SignBitValue(raw);
  }

  lemma ClearSignBit(raw: bv16)
    requires raw & 0x8000 != 0
    ensures (raw & 0x7FFF) as int == raw as int - 0x8000
  {
  }

  lemma ByteRange(b: bv8)
    ensures b as nat < 256
  {
  }

  lemma ByteEq(a: bv8, b: bv8)
    requires a as nat == b as nat
    ensures a == b
  {
  }

  /** Base-256 digits are unique. */
  lemma DigitsUnique256(a0: nat, a1: nat, b0: nat, b1: nat)
    requires a1 < 256 && b1 < 256
    requires a0 * 256 + a1 == b0 * 256 + b1
    ensures a0 == b0 && a1 == b1
  {
  }

  // ------------------------------------------------------------- words

  /** (hi << 8) | lo: the big-endian 16-bit word of two received bytes, as the
      source computes it. */
  function Word16(hi: bv8, lo: bv8): bv16
  {
    ((hi as bv16) << 8) | (lo as bv16)
  }

  /** The same word as a number. */
  function Word(hi: bv8, lo: bv8): (w: nat)
    ensures w < 0x1_0000
  {
    ByteRange(hi);
    ByteRange(lo);
    hi as nat * 256 + lo as nat
  }

  lemma ShiftOr(hi: bv8, lo: bv8)
    ensures (((hi as bv16) << 8) | (lo as bv16)) as nat == hi as nat * 256 + lo as nat
  {
  }

  /** The shift-and-or of the source is the base-256 number. */
  lemma WordBits(hi: bv8, lo: bv8)
    ensures Word16(hi, lo) as nat == Word(hi, lo)
  {
    ShiftOr(hi, lo);
  }

  /** The two bytes that carry a 16-bit number, most significant first. */
  function WordBytes(w: nat): (bv8, bv8)
    requires w < 0x1_0000
  {
    (ByteOf(w / 256), ByteOf(w % 256))
  }

  lemma WordRoundTrip(w: nat)
    requires w < 0x1_0000
    ensures Word(WordBytes(w).0, WordBytes(w).1) == w
  {
  }

  lemma WordInjective(a0: bv8, a1: bv8, b0: bv8, b1: bv8)
    ensures Word(a0, a1) == Word(b0, b1) ==> a0 == b0 && a1 == b1
  {
    if Word(a0, a1) == Word(b0, b1) {
      ByteRange(a1);
      ByteRange(b1);
      DigitsUnique256(a0 as nat, a1 as nat, b0 as nat, b1 as nat);
      ByteEq(a0, b0);
      ByteEq(a1, b1);
    }
  }

  // ------------------------------------------------------------ LM75

  /** sensor_lm75_read: raw / 256, and 256 less when that exceeds 127. */
  function Lm75Celsius(b0: bv8, b1: bv8): (t: real)
    ensures -129.0 < t <= 127.0
  {
    var c := Word(b0, b1) as real / 256.0;
    if c > 127.0 then c - 256.0 else c
  }

  /** The 16-bit two's complement value of a number below 2^16: the reading an
      LM75-type temperature register holds. */
  function Signed16(w: nat): (v: int)
    requires w < 0x1_0000
    ensures -0x8000 <= v < 0x8000
    ensures v % 0x1_0000 == w
  {
    if w >= 0x8000 then w - 0x1_0000 else w
  }

  /** The wrap above 127 matches the two's complement reading exactly outside the
      raw window 0x7F01 .. 0x7FFF, where the source wraps a reading between 127
      and 128 degrees to one between -129 and -128 degrees. */
  lemma Lm75MatchesTwosComplement(b0: bv8, b1: bv8)
    ensures Lm75Celsius(b0, b1) == Signed16(Word(b0, b1)) as real / 256.0
            <==> !(0x7F00 < Word(b0, b1) < 0x8000)
  {
    var w := Word(b0, b1);
    if 0x7F00 < w < 0x8000 {
      assert Signed16(w) == w;
      assert w as real / 256.0 > 127.0;
    } else if w >= 0x8000 {
      assert w as real / 256.0 > 127.0;
    } else {
      assert w as real / 256.0 <= 127.0;
    }
  }

  /** Bytes 0x19, 0x00 read as raw 6400, 25 degrees. */
  lemma Lm75Example()
    ensures Word(0x19, 0x00) == 6400
    ensures Lm75Celsius(0x19, 0x00) == 25.0
  {
  }

  // ----------------------------------------------------- sign-magnitude

  /** Bit 15 is the sign, the low 15 bits the magnitude (DS1631 and the AM2321
      temperature), read off a 16-bit number. */
  function SignMagnitude(raw: nat): (v: int)
    requires raw < 0x1_0000
    ensures -0x7FFF <= v <= 0x7FFF
  {
    if raw >= 0x8000 then 0x8000 - raw else raw
  }

  /** The source's form of the same reading: test bit 15, then clear it and
      negate. */
  lemma SignMagnitudeBits(raw: bv16)
    ensures SignMagnitude(raw as nat)
            == if raw & 0x8000 != 0 then 0 - (raw & 0x7FFF) as int else raw as int
  {
    SignBit(raw);
    if raw & 0x8000 != 0 {
      ClearSignBit(raw);
    }
  }

  /** The word a sign-magnitude device sends for v. */
  function SignMagnitudeEncode(v: int): (raw: nat)
    requires -0x7FFF <= v <= 0x7FFF
    ensures raw < 0x1_0000
  {
    if v < 0 then 0x8000 - v else v
  }

  lemma SignMagnitudeRoundTrip(v: int)
    requires -0x7FFF <= v <= 0x7FFF
    ensures SignMagnitude(SignMagnitudeEncode(v)) == v
  {
  }

  /** Two words read the same exactly when they are equal or are the two zeros:
      negative zero 0x8000 is the only word the decoding folds onto another. */
  lemma SignMagnitudeInjective(a: nat, b: nat)
    requires a < 0x1_0000 && b < 0x1_0000
    ensures SignMagnitude(a) == SignMagnitude(b)
            <==> a == b || (a == 0 && b == 0x8000) || (a == 0x8000 && b == 0)
  {
  }

  /** sensor_ds1631_read: the magnitude scaled by 1/256, negated when bit 15 is
      set. */
  function Ds1631Celsius(b0: bv8, b1: bv8): (t: real)
    ensures t == SignMagnitude(Word(b0, b1)) as real / 256.0
  {
    var raw := Word16(b0, b1);
    WordBits(b0, b1);
    SignMagnitudeBits(raw);
    if raw & 0x8000 != 0 then ((raw & 0x7FFF) as real) / -256.0 else raw as real / 256.0
  }

  // ------------------------------------------------------------- AM2321

  /** sensor_am2321_read, humidity: raw / 10, capped at 100. */
  function Am2321Humidity(v0: bv8, v1: bv8): (h: real)
    ensures 0.0 <= h <= 100.0
    ensures h == 100.0 <==> Word(v0, v1) >= 1000
    ensures Word(v0, v1) < 1000 ==> h == Word(v0, v1) as real / 10.0
  {
    var c := Word(v0, v1) as real / 10.0;
    if c > 100.0 then 100.0 else c
  }

  /** sensor_am2321_read, temperature: raw_temp, the sign-magnitude value of the
      word, in tenths of a degree. */
  function Am2321RawTemperature(v2: bv8, v3: bv8): (t: int)
    ensures t == SignMagnitude(Word(v2, v3))
  {
    var raw := Word16(v2, v3);
    WordBits(v2, v3);
    SignMagnitudeBits(raw);
    if raw & 0x8000 != 0 then 0 - (raw & 0x7FFF) as int else raw as int
  }

  /** The temperature is negative exactly when the sign bit is set and the
      magnitude is not zero. */
  lemma Am2321TemperatureSign(v2: bv8, v3: bv8)
    ensures Am2321RawTemperature(v2, v3) < 0 <==> v2 as nat >= 0x80 && Word(v2, v3) != 0x8000
  {
  }

  // ----------------------------------------------------------- MAX44009

  /** exponent = (byte 0x03 & 0xf0) >> 4. */
  function Max44009Exponent(b0: bv8): bv8
  {
    (b0 & 0xF0) >> 4
  }

  /** mantissa = ((byte 0x03 & 0x0f) << 4) | (byte 0x04 & 0x0f). */
  function Max44009Mantissa(b0: bv8, b1: bv8): bv8
  {
    ((b0 & 0x0F) << 4) | (b1 & 0x0F)
  }

  /** values[0] = (exponent << 16) | mantissa. */
  function Max44009Pack(exponent: bv8, mantissa: bv8): bv32
  {
    ((exponent as bv32) << 16) | (mantissa as bv32)
  }

  /** The exponent and mantissa taken back out of values[0]. */
  function Max44009Unpack(v: bv32): (bv32, bv32)
  {
    ((v & 0xFFFF_0000) >> 16, v & 0x0000_FFFF)
  }

  /** The detour through values[0] loses nothing, so the raw value may be
      computed from exponent and mantissa directly. */
  lemma Max44009PackRoundTrip(exponent: bv8, mantissa: bv8)
    ensures Max44009Unpack(Max44009Pack(exponent, mantissa))
            == (exponent as bv32, mantissa as bv32)
  {
  }

  /** The end of sensor_max44009_read: raw = exponent * 10000 + mantissa, and
      exponent 15 (overrange) is refused with device_error_2. */
  function Max44009Raw(b0: bv8, b1: bv8): (r: Result<nat>)
    ensures r.Err? <==> b0 & 0xF0 == 0xF0
    ensures r.Err? ==> r.error == DeviceError(2)
    ensures r.Ok? ==> r.value < 150000
  {
    var exponent := Max44009Exponent(b0);
    var mantissa := Max44009Mantissa(b0, b1);
    ByteRange(exponent);
    ByteRange(mantissa);
    if exponent == 15 then Err(DeviceError(2))
    else Ok(exponent as nat * 10000 + mantissa as nat)
  }

  /** The two register bytes (0x03, 0x04) of a reading with the given exponent and
      mantissa; the high nibble of register 0x04 carries nothing and is sent as
      0 here. */
  function Max44009Bytes(exponent: bv8, mantissa: bv8): (bv8, bv8)
    requires exponent < 15
  {
    ((exponent << 4) | (mantissa >> 4), mantissa & 0x0F)
  }

  /** The bytes carry exponent and mantissa, whatever the high nibble of the
      second byte. */
  lemma Max44009BytesRoundTrip(exponent: bv8, mantissa: bv8, junk: bv8)
    requires exponent < 15
    ensures var (b0, b1) := Max44009Bytes(exponent, mantissa);
            Max44009Exponent(b0) == exponent
            && Max44009Mantissa(b0, b1 | (junk & 0xF0)) == mantissa
  {
  }

  /** So the raw reading of those bytes is exponent * 10000 + mantissa. */
  lemma Max44009RawRoundTrip(exponent: bv8, mantissa: bv8, junk: bv8)
    requires exponent < 15
    ensures var (b0, b1) := Max44009Bytes(exponent, mantissa);
            Max44009Raw(b0, b1 | (junk & 0xF0)) == Ok(exponent as nat * 10000 + mantissa as nat)
  {
    Max44009BytesRoundTrip(exponent, mantissa, junk);
  }

  /** Decimal digits below 10000 are unique. */
  lemma DigitsUnique10000(a0: nat, a1: nat, b0: nat, b1: nat)
    requires a1 < 10000 && b1 < 10000
    requires a0 * 10000 + a1 == b0 * 10000 + b1
    ensures a0 == b0 && a1 == b1
  {
  }

  /** Equal raw values come from the same register bytes, up to the unused
      nibble: the raw value is a lossless decimal packing. */
  lemma Max44009RawInjective(a0: bv8, a1: bv8, b0: bv8, b1: bv8)
    requires Max44009Raw(a0, a1).Ok? && Max44009Raw(b0, b1).Ok?
    requires Max44009Raw(a0, a1) == Max44009Raw(b0, b1)
    ensures a0 == b0 && a1 & 0x0F == b1 & 0x0F
  {
    var ea := Max44009Exponent(a0);
    var eb := Max44009Exponent(b0);
    var ma := Max44009Mantissa(a0, a1);
    var mb := Max44009Mantissa(b0, b1);
    ByteRange(ma);
    ByteRange(mb);
    DigitsUnique10000(ea as nat, ma as nat, eb as nat, mb as nat);
    ByteEq(ea, eb);
    ByteEq(ma, mb);
    Max44009FieldsDetermineBytes(a0, a1, b0, b1);
  }

  lemma Max44009FieldsDetermineBytes(a0: bv8, a1: bv8, b0: bv8, b1: bv8)
    requires Max44009Exponent(a0) == Max44009Exponent(b0)
    requires Max44009Mantissa(a0, a1) == Max44009Mantissa(b0, b1)
    ensures a0 == b0 && a1 & 0x0F == b1 & 0x0F
  {
  }

  /** value->raw of sensor_tsl2550_read: channel codes with the valid bit
      masked off, packed as ch0 * 10000 + ch1. */
  function Tsl2550Raw(ch0: bv8, ch1: bv8): (raw: nat)
    ensures raw / 10000 == (ch0 & 0x7F) as nat && raw % 10000 == (ch1 & 0x7F) as nat
  {
    (ch0 & 0x7F) as nat * 10000 + (ch1 & 0x7F) as nat
  }

  // ------------------------------------------------------------- BH1750

  /** sensor_bh1750_init: the measurement-time value goes out as two command
      bytes, 01000hhh with its top three bits and 011lllll with the low five. */
  function Bh1750TimingCommands(timing: bv8): (bv8, bv8)
  {
    (0x40 | ((timing >> 5) & 0x07), 0x60 | ((timing >> 0) & 0x1F))
  }

  /** The device's view: both command prefixes are right and the two fields
      reassemble the timing. */
  lemma Bh1750TimingRoundTrip(timing: bv8)
    ensures var (hi, lo) := Bh1750TimingCommands(timing);
            hi & 0xF8 == 0x40 && lo & 0xE0 == 0x60
            && ((hi & 0x07) << 5) | (lo & 0x1F) == timing
  {
  }

  /** The two windows the source uses: 254 (high sensitivity) and 31. */
  lemma Bh1750TimingExamples()
    ensures Bh1750TimingCommands(254) == (0x47, 0x7E)
    ensures Bh1750TimingCommands(31) == (0x40, 0x7F)
  {
  }

  // ------------------------------------------------------------- BME280

  /** bme280_read: a 20-bit ADC value from three bytes, msb, lsb and the xlsb
      whose low nibble is unused. */
  function Bme280Adc20(msb: bv8, lsb: bv8, xlsb: bv8): (v: nat)
    ensures v == msb as nat * 4096 + lsb as nat * 16 + xlsb as nat / 16
    ensures v < 0x10_0000
  {
    ((((msb as bv32) << 16) | ((lsb as bv32) << 8) | ((xlsb as bv32) << 0)) >> 4) as nat
  }

  /** The three bytes a 20-bit ADC value travels in. */
  function Bme280Adc20Bytes(v: nat): (bv8, bv8, bv8)
    requires v < 0x10_0000
  {
    (ByteOf(v / 4096), ByteOf((v / 16) % 256), ByteOf((v % 16) * 16))
  }

  lemma Bme280Adc20RoundTrip(v: nat)
    requires v < 0x10_0000
    ensures var (msb, lsb, xlsb) := Bme280Adc20Bytes(v); Bme280Adc20(msb, lsb, xlsb) == v
  {
    Adc20Digits(v, v / 4096, (v / 16) % 256, (v % 16) * 16);
  }

  lemma Adc20Digits(v: nat, msb: nat, lsb: nat, xlsb: nat)
    requires msb == v / 4096 && lsb == (v / 16) % 256 && xlsb == (v % 16) * 16
    ensures msb * 4096 + lsb * 16 + xlsb / 16 == v
  {
  }

  /** dig_H4 = (e4 << 4) | (e5 & 0x0f). */
  function Bme280H4(e4: bv8, e5: bv8): (h: int)
    ensures h == e4 as int * 16 + e5 as int % 16
  {
    (((e4 as bv16) << 4) | ((e5 & 0x0F) >> 0) as bv16) as int
  }

  /** dig_H5 = (e6 << 4) | ((e5 & 0xf0) >> 4). */
  function Bme280H5(e5: bv8, e6: bv8): (h: int)
    ensures h == e6 as int * 16 + e5 as int / 16
  {
    (((e6 as bv16) << 4) | ((e5 & 0xF0) >> 4) as bv16) as int
  }

  /** Registers 0xE4, 0xE5, 0xE6 for two 12-bit coefficients that share the
      middle register nibble by nibble. */
  function Bme280HBytes(h4: nat, h5: nat): (bv8, bv8, bv8)
    requires h4 < 4096 && h5 < 4096
  {
    (ByteOf(h4 / 16), ByteOf((h5 % 16) * 16 + h4 % 16), ByteOf(h5 / 16))
  }

  lemma Bme280HDigits(h4: nat, h5: nat, e5: nat)
    requires h4 < 4096 && h5 < 4096 && e5 == (h5 % 16) * 16 + h4 % 16
    ensures (h4 / 16) * 16 + e5 % 16 == h4 && (h5 / 16) * 16 + e5 / 16 == h5
  {
  }

  /** Both coefficients come back out of the shared registers, and both fit the
      int16_t they are stored in; neither can be negative. */
  lemma Bme280HRoundTrip(h4: nat, h5: nat)
    requires h4 < 4096 && h5 < 4096
    ensures var (e4, e5, e6) := Bme280HBytes(h4, h5);
            Bme280H4(e4, e5) == h4 && Bme280H5(e5, e6) == h5
  {
    Bme280HDigits(h4, h5, (h5 % 16) * 16 + h4 % 16);
  }
}
