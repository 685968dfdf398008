/** The sensor table of i2c_sensor.c: the identity and bus address of every
    supported sensor, and the per-bus detection words kept for each of them. */
module SensorTable {

  // i2c_sensor_t: a sensor is its position in device_table.
  const DigipiccoTemperature: nat := 0
  const DigipiccoHumidity: nat := 1
  const Lm75Sensor0: nat := 2
  const Lm75Sensor1: nat := 3
  const Lm75Sensor2: nat := 4
  const Lm75Sensor3: nat := 5
  const Ds1631Sensor6: nat := 6
  const Lm75Sensor7: nat := 7
  const Bmp085Temperature: nat := 8
  const Bmp085Airpressure: nat := 9
  const Tsl2560Sensor0: nat := 10
  const Tsl2550Sensor: nat := 11
  const Bh1750Sensor: nat := 12
  const Htu21Temperature: nat := 13
  const Htu21Humidity: nat := 14
  const Am2321Temperature: nat := 15
  const Am2321Humidity: nat := 16
  const Veml6070Sensor: nat := 17
  const Si114xVisibleLight: nat := 18
  const Si114xInfrared: nat := 19
  const Si114xUltraviolet: nat := 20
  const Bme280Temperature: nat := 21
  const Bme280Humidity: nat := 22
  const Bme280Airpressure: nat := 23
  const Tsl2560Sensor1: nat := 24
  const Max44009Sensor0: nat := 25
  const Veml6075Sensor: nat := 26

  /** i2c_sensor_size. */
  const Count: nat := 27

  /** The address column of device_table. */
  const Addresses: seq<bv8> := [
    0x78, 0x78, 0x48, 0x49, 0x4a, 0x4b, 0x4e, 0x4f, 0x77, 0x77, 0x39, 0x39, 0x23, 0x40,
    0x40, 0x5c, 0x5c, 0x38, 0x60, 0x60, 0x60, 0x76, 0x76, 0x76, 0x29, 0x4a, 0x10]

  function Address(sensor: nat): (a: bv8)
    requires sensor < Count
    ensures a == Addresses[sensor]
  {
    Addresses[sensor]
  }

  /** Chips that answer on the same address as another one in the table. */
  lemma SharedAddresses()
    ensures Address(Tsl2560Sensor0) == Address(Tsl2550Sensor) == 0x39
    ensures Address(Lm75Sensor2) == Address(Max44009Sensor0) == 0x4a
    ensures Address(Tsl2560Sensor1) != 0x39
  {
  }

  // ------------------------------------------------------------ detection words

  /** The 32 bits of a uint32_t detected word, bit n standing for bus n. */
  const Buses: nat := 32

  predicate IsWord(word: seq<bool>)
  {
    |word| == Buses
  }

  /** A detection table: one word per sensor. */
  predicate IsTable(bits: seq<seq<bool>>)
  {
    |bits| == Count && forall sensor :: 0 <= sensor < Count ==> IsWord(bits[sensor])
  }

  const NoBits: seq<bool> := seq(Buses, _ => false)

  /** detected |= 1 << bus */
  function SetBit(word: seq<bool>, bus: nat): (w: seq<bool>)
    requires IsWord(word) && bus < Buses
    ensures IsWord(w) && w[bus]
    ensures forall other :: 0 <= other < Buses && other != bus ==> w[other] == word[other]
  {
    word[bus := true]
  }

  /** detected &= ~(1 << bus) */
  function ClearBit(word: seq<bool>, bus: nat): (w: seq<bool>)
    requires IsWord(word) && bus < Buses
    ensures IsWord(w) && !w[bus]
    ensures forall other :: 0 <= other < Buses && other != bus ==> w[other] == word[other]
  {
    word[bus := false]
  }

  /** i2c_sensor_detected, with the guard the table size asks for: an unknown
      sensor is never detected, and no entry outside the table is read. */
  function Detected(bits: seq<seq<bool>>, bus: nat, sensor: nat): (d: bool)
    requires IsTable(bits) && bus < Buses
    ensures d ==> sensor < Count
    ensures sensor < Count ==> (d <==> bits[sensor][bus])
  {
    if sensor >= Count then false else bits[sensor][bus]
  }

  /** The guard of i2c_sensor_detected as written: it lets a sensor through to
      the lookup device_data[sensor] unless sensor > i2c_sensor_size. */
  function DetectedGuardAsWritten(sensor: nat): (lookup: bool)
    ensures lookup <==> sensor <= Count
  {
    !(sensor > Count)
  }

  /** Sensor i2c_sensor_size passes the written guard, but device_data has only
      i2c_sensor_size entries, so that lookup reads past the end of the array. */
  lemma DetectedGuardOffByOne(bits: seq<seq<bool>>)
    requires IsTable(bits)
    ensures DetectedGuardAsWritten(Count) && !(Count < |bits|)
    ensures forall sensor: nat :: DetectedGuardAsWritten(sensor) && sensor != Count ==> sensor < |bits|
  {
  }
}
