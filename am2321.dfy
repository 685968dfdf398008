/** sensor_am2321_read of i2c_sensor.c: one framed register read fetches both
    humidity and temperature, and the two values are kept between reads, so a
    read that fails hands back what the last good one left. */
module Am2321 {
  import opened I2c
  import opened Decoders
  import opened Sensors

  /** value_t: the raw and the cooked reading. */
  datatype Value = Value(raw: real, cooked: real)

  /** The humidity of registers 0x00 and 0x01: raw in tenths of a percent,
      cooked in percent and capped at 100. */
  function HumidityOf(data: seq<bv8>): (v: Value)
    requires |data| == 4
    ensures v.raw == Word(data[0], data[1]) as real
    ensures 0.0 <= v.cooked <= 100.0
    ensures v.raw < 1000.0 ==> v.cooked * 10.0 == v.raw
    ensures v.raw >= 1000.0 ==> v.cooked == 100.0
  {
    Value(Word(data[0], data[1]) as real, Am2321Humidity(data[0], data[1]))
  }

  /** The temperature of registers 0x02 and 0x03: sign-magnitude tenths of a
      degree, cooked in degrees. */
  function TemperatureOf(data: seq<bv8>): (v: Value)
    requires |data| == 4
    ensures v.raw == SignMagnitude(Word(data[2], data[3])) as real
    ensures v.cooked * 10.0 == v.raw
    ensures v.raw < 0.0 <==> data[2] as nat >= 0x80 && Word(data[2], data[3]) != 0x8000
  {
    Am2321TemperatureSign(data[2], data[3]);
    var raw := Am2321RawTemperature(data[2], data[3]) as real;
    Value(raw, raw / 10.0)
  }

  /** A successful register read hands back exactly the registers asked for. */
  lemma ReadLength(script: seq<Reply>, at: nat, address: bv8, offset: bv8, length: nat)
    requires length <= 28
    ensures var run := Am2321ReadSpec(script, at, address, offset, length);
            run.result.Ok? ==> |run.result.value| == length
  {
  }

  /** The two cached values, sensor_am2321_cached_humidity and
      sensor_am2321_cached_temperature. */
  class Cache {
    var humidity: Value
    var temperature: Value

    /** Static storage starts out zero. */
    constructor ()
      ensures humidity == Value(0.0, 0.0) && temperature == Value(0.0, 0.0)
    {
      humidity := Value(0.0, 0.0);
      temperature := Value(0.0, 0.0);
    }

    /** sensor_am2321_read: read four registers from 0x00; only a good read
        refreshes the cache; the requested value comes from the cache, and the
        result is always ok. */
    method Read(bus: Bus, address: bv8, requestHumidity: bool) returns (r: Result<Value>)
      modifies this, bus
      ensures var run := Am2321ReadSpec(bus.replies, old(bus.position), address, 0x00, 4);
              bus.trace == old(bus.trace) + run.transfers && bus.position == old(bus.position) + |run.transfers|
              && (run.result.Ok? ==> |run.result.value| == 4
                                     && humidity == HumidityOf(run.result.value)
                                     && temperature == TemperatureOf(run.result.value))
              && (run.result.Err? ==> humidity == old(humidity) && temperature == old(temperature))
      ensures r == Ok(if requestHumidity then humidity else temperature)
    {
      ReadLength(bus.replies, bus.position, address, 0x00, 4);
      var values := Am2321ReadRegisters(bus, address, 0x00, 4);
      if values.Ok? {
        humidity := HumidityOf(values.value);
        temperature := TemperatureOf(values.value);
      }
      if requestHumidity {
        r := Ok(humidity);
      } else {
        r := Ok(temperature);
      }
    }
  }
}
