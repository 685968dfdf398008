/** The init routines of the sensor table (device_table[].init_fn): the gate
    each one applies on the detection words of the bus first, then the
    transfers that find and set up the chip. */
module ChipInit {
  import opened I2c
  import Decoders
  import opened SensorTable
  import opened Sensors
  import Max44009

  /** What a routine's gate decides before any transfer: refuse with an error,
      accept at once (a derived channel whose sibling is there), or go on to
      the chip. */
  datatype Gate = Refuse(error: I2cError) | Accept | Proceed

  /** A derived channel: ok exactly when its sibling is detected on the bus. */
  function Sibling(bits: seq<seq<bool>>, bus: nat, sibling: nat): Gate
    requires IsTable(bits) && bus < Buses
  {
    if Detected(bits, bus, sibling) then Accept else Refuse(AddressNak)
  }

  /** A chip that shares its address: device_error_1 while the rival is
      detected. */
  function Rival(detected: bool): Gate
  {
    if detected then Refuse(DeviceError(1)) else Proceed
  }

  /** The gate of each init routine, as the routines are written:
      sensor_digipicco_hum_init, sensor_bmp085_init_pressure,
      sensor_htu21_hum_init, sensor_am2321_hum_init, the SI114x infrared and
      ultraviolet and the BME280 humidity and air-pressure inits test their
      sibling; sensor_tsl2560_init (at 0x39 only), sensor_tsl2550_init,
      sensor_veml6070_init and sensor_max44009_init test their rivals. */
  function GateOf(bits: seq<seq<bool>>, bus: nat, sensor: nat): Gate
    requires IsTable(bits) && bus < Buses && sensor < Count
  {
    if sensor == DigipiccoHumidity then Sibling(bits, bus, DigipiccoTemperature)
    else if sensor == Bmp085Airpressure then Sibling(bits, bus, Bmp085Temperature)
    else if sensor == Tsl2560Sensor0 || sensor == Tsl2560Sensor1 then
      Rival(Address(sensor) == 0x39 && Detected(bits, bus, Tsl2550Sensor))
    else if sensor == Tsl2550Sensor then Rival(Detected(bits, bus, Tsl2560Sensor0))
    else if sensor == Htu21Humidity then Sibling(bits, bus, Htu21Temperature)
    else if sensor == Am2321Humidity then Sibling(bits, bus, Am2321Temperature)
    else if sensor == Veml6070Sensor then
      Rival(Detected(bits, bus, Tsl2550Sensor) || Detected(bits, bus, Tsl2560Sensor0))
    else if sensor == Si114xInfrared || sensor == Si114xUltraviolet then Sibling(bits, bus, Si114xVisibleLight)
    else if sensor == Bme280Humidity || sensor == Bme280Airpressure then Sibling(bits, bus, Bme280Temperature)
    else if sensor == Max44009Sensor0 then Rival(Detected(bits, bus, Lm75Sensor2))
    else Proceed
  }

  /** The same rules as a table: each derived channel and the channel it is
      derived from ... */
  const Derived: map<nat, nat> := map[
    DigipiccoHumidity := DigipiccoTemperature,
    Bmp085Airpressure := Bmp085Temperature,
    Htu21Humidity := Htu21Temperature,
    Am2321Humidity := Am2321Temperature,
    Si114xInfrared := Si114xVisibleLight,
    Si114xUltraviolet := Si114xVisibleLight,
    Bme280Humidity := Bme280Temperature,
    Bme280Airpressure := Bme280Temperature]

  /** ... and each chip that stands down for chips found on its address. */
  const Rivals: map<nat, set<nat>> := map[
    Tsl2560Sensor0 := {Tsl2550Sensor},
    Tsl2550Sensor := {Tsl2560Sensor0},
    Veml6070Sensor := {Tsl2550Sensor, Tsl2560Sensor0},
    Max44009Sensor0 := {Lm75Sensor2}]

  /** Whichever way the rules are written down, they agree. */
  lemma GateMatchesTables(bits: seq<seq<bool>>, bus: nat, sensor: nat)
    requires IsTable(bits) && bus < Buses && sensor < Count
    ensures sensor in Derived ==> GateOf(bits, bus, sensor) == Sibling(bits, bus, Derived[sensor])
    ensures sensor in Rivals ==>
              GateOf(bits, bus, sensor) == Rival(exists rival :: rival in Rivals[sensor] && Detected(bits, bus, rival))
    ensures sensor !in Derived && sensor !in Rivals ==> GateOf(bits, bus, sensor) == Proceed
  {
    if sensor == Veml6070Sensor {
      assert Tsl2550Sensor in Rivals[sensor] && Tsl2560Sensor0 in Rivals[sensor];
    } else if sensor == Tsl2560Sensor0 {
      assert Tsl2550Sensor in Rivals[sensor];
    } else if sensor == Tsl2550Sensor {
      assert Tsl2560Sensor0 in Rivals[sensor];
    } else if sensor == Max44009Sensor0 {
      assert Lm75Sensor2 in Rivals[sensor];
    }
  }

  /** The second TSL2560 sits at 0x29 and never stands down. */
  lemma SecondTsl2560Ungated(bits: seq<seq<bool>>, bus: nat)
    requires IsTable(bits) && bus < Buses
    ensures GateOf(bits, bus, Tsl2560Sensor1) == Proceed
  {
  }

  /** A status-only run of a driver whose value the init routine discards. */
  function Status<T>(run: Run<T>): (r: Run<()>)
    ensures r.transfers == run.transfers && r.result.Ok? == run.result.Ok?
    ensures r.result.Err? ==> r.result.error == run.result.error
  {
    if run.result.Ok? then Run(Ok(()), run.transfers) else Run(Err(run.result.error), run.transfers)
  }

  /** sensor_ds1631_init: select the configuration register with 12-bit
      resolution (0xac 0x0c), then start conversions (0x51). */
  const Ds1631Messages: seq<seq<bv8>> := [[0xAC, 0x0C], [0x51]]

  /** sensor_bh1750_init: power on, reset, the measurement time in two commands
      (254 in high-sensitivity mode, else 31), then continuous high-resolution
      sampling. */
  function Bh1750Messages(highSensitivity: bool): (messages: seq<seq<bv8>>)
    ensures |messages| == 5
  {
    var timing: bv8 := if highSensitivity then 254 else 31;
    var (high, low) := Decoders.Bh1750TimingCommands(timing);
    [[0x01], [0x07], [high], [low], [0x11]]
  }

  lemma Bh1750MessagesExamples()
    ensures Bh1750Messages(true) == [[0x01], [0x07], [0x47], [0x7E], [0x11]]
    ensures Bh1750Messages(false) == [[0x01], [0x07], [0x40], [0x7F], [0x11]]
  {
    Decoders.Bh1750TimingExamples();
  }

  /** The transfers of a routine past its gate. Routines whose chip detection
      this model does not spell out are one Probe exchange. */
  function BodySpec(script: seq<Reply>, at: nat, sensor: nat, highSensitivity: bool): (r: Run<()>)
    requires sensor < Count
    ensures 1 <= |r.transfers|
  {
    var address := Address(sensor);
    if sensor == Ds1631Sensor6 then SendAllSpec(script, at, address, Ds1631Messages)
    else if sensor == Bh1750Sensor then SendAllSpec(script, at, address, Bh1750Messages(highSensitivity))
    else if sensor == Htu21Temperature then Status(Htu21ReadSpec(script, at, address, 0xE3))
    else if sensor == Am2321Temperature then Status(Am2321ReadSpec(script, at, address, 0x08, 2))
    else if sensor == Max44009Sensor0 then Max44009.ChecksSpec(script, at, address, Max44009.Checks)
    else Run(Completed(ReplyAt(script, at)), [Probe(address, sensor)])
  }

  /** entry->init_fn(bus, entry): the gate, then the chip. */
  function ChipInitSpec(script: seq<Reply>, at: nat, bits: seq<seq<bool>>, bus: nat, sensor: nat,
                        highSensitivity: bool): Run<()>
    requires IsTable(bits) && bus < Buses && sensor < Count
  {
    match GateOf(bits, bus, sensor)
    case Refuse(e) => Run(Err(e), [])
    case Accept => Run(Ok(()), [])
    case Proceed => BodySpec(script, at, sensor, highSensitivity)
  }

  /** Derived channels never touch the bus: they are ok exactly when their
      sibling is detected, and address_nak otherwise. */
  lemma DerivedChannels(script: seq<Reply>, at: nat, bits: seq<seq<bool>>, bus: nat, sensor: nat, highSensitivity: bool)
    requires IsTable(bits) && bus < Buses && sensor in Derived
    ensures var run := ChipInitSpec(script, at, bits, bus, sensor, highSensitivity);
            run.transfers == []
            && (run.result.Ok? <==> Detected(bits, bus, Derived[sensor]))
            && (run.result.Err? ==> run.result.error == AddressNak)
  {
    GateMatchesTables(bits, bus, sensor);
  }

  /** A chip whose rival is detected stands down with device_error_1 before any
      transfer; with no rival detected it goes on to the chip as if ungated. */
  lemma RivalChips(script: seq<Reply>, at: nat, bits: seq<seq<bool>>, bus: nat, sensor: nat, highSensitivity: bool)
    requires IsTable(bits) && bus < Buses && sensor in Rivals && sensor < Count
    ensures var run := ChipInitSpec(script, at, bits, bus, sensor, highSensitivity);
            (exists rival :: rival in Rivals[sensor] && Detected(bits, bus, rival))
            ==> run == Run(Err(DeviceError(1)), [])
    ensures var run := ChipInitSpec(script, at, bits, bus, sensor, highSensitivity);
            (forall rival :: rival in Rivals[sensor] ==> !Detected(bits, bus, rival))
            ==> run == BodySpec(script, at, sensor, highSensitivity)
  {
    GateMatchesTables(bits, bus, sensor);
  }

  /** So a TSL2550 and the first TSL2560 never both pass their gates. */
  lemma Tsl2560Tsl2550Exclusive(script: seq<Reply>, at: nat, bits: seq<seq<bool>>, bus: nat, highSensitivity: bool)
    requires IsTable(bits) && bus < Buses
    ensures ChipInitSpec(script, at, bits, bus, Tsl2560Sensor0, highSensitivity).result.Ok?
            ==> !Detected(bits, bus, Tsl2550Sensor)
    ensures ChipInitSpec(script, at, bits, bus, Tsl2550Sensor, highSensitivity).result.Ok?
            ==> !Detected(bits, bus, Tsl2560Sensor0)
  {
  }

  method Ds1631Init(bus: Bus, address: bv8) returns (r: Result<()>)
    modifies bus
    ensures var run := SendAllSpec(bus.replies, old(bus.position), address, Ds1631Messages);
            r == run.result && bus.trace == old(bus.trace) + run.transfers
            && bus.position == old(bus.position) + |run.transfers|
  {
    r := SendAll(bus, address, Ds1631Messages);
  }

  method Bh1750Init(bus: Bus, address: bv8, highSensitivity: bool) returns (r: Result<()>)
    modifies bus
    ensures var run := SendAllSpec(bus.replies, old(bus.position), address, Bh1750Messages(highSensitivity));
            r == run.result && bus.trace == old(bus.trace) + run.transfers
            && bus.position == old(bus.position) + |run.transfers|
  {
    var timing: bv8 := if highSensitivity then 254 else 31;
    var (high, low) := Decoders.Bh1750TimingCommands(timing);
    r := SendAll(bus, address, [[0x01], [0x07], [high], [low], [0x11]]);
  }

  /** The routine past its gate. */
  method Body(bus: Bus, sensor: nat, highSensitivity: bool) returns (r: Result<()>)
    requires sensor < Count
    modifies bus
    ensures var run := BodySpec(bus.replies, old(bus.position), sensor, highSensitivity);
            r == run.result && bus.trace == old(bus.trace) + run.transfers
            && bus.position == old(bus.position) + |run.transfers|
  {
    var address := Address(sensor);
    if sensor == Ds1631Sensor6 {
      r := Ds1631Init(bus, address);
    } else if sensor == Bh1750Sensor {
      r := Bh1750Init(bus, address, highSensitivity);
    } else if sensor == Htu21Temperature {
      var reading := Htu21Read(bus, address, 0xE3);
      r := if reading.Ok? then Ok(()) else Err(reading.error);
    } else if sensor == Am2321Temperature {
      var id := Am2321ReadRegisters(bus, address, 0x08, 2);
      r := if id.Ok? then Ok(()) else Err(id.error);
    } else if sensor == Max44009Sensor0 {
      r := Max44009.Setup(bus, address);
    } else {
      r := bus.Identify(address, sensor);
    }
  }

  /** The init routine of a sensor, gate included. */
  method Init(bus: Bus, bits: seq<seq<bool>>, busNumber: nat, sensor: nat, highSensitivity: bool)
    returns (r: Result<()>)
    requires IsTable(bits) && busNumber < Buses && sensor < Count
    modifies bus
    ensures var run := ChipInitSpec(bus.replies, old(bus.position), bits, busNumber, sensor, highSensitivity);
            r == run.result && bus.trace == old(bus.trace) + run.transfers
            && bus.position == old(bus.position) + |run.transfers|
  {
    match GateOf(bits, busNumber, sensor)
    case Refuse(e) =>
      r := Err(e);
    case Accept =>
      r := Ok(());
    case Proceed =>
      r := Body(bus, sensor, highSensitivity);
  }
}
