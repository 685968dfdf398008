# ESP8266 universal I/O bridge: I2C sensors and the MCP23017 driver, in Dafny

This project models two drivers of the ESP8266 universal I/O bridge firmware and
proves properties of the model.

- **The I2C sensor layer (`i2c_sensor.c`).** The model covers:
  - the table of 27 sensors, and the per-bus detection words that
    `i2c_sensor_init` sets and clears;
  - the bus sweep of `i2c_sensor_init_all` and the lookup
    `i2c_sensor_detected`;
  - the gates the init routines apply. A derived channel needs its sibling. A
    chip that shares an address stands down for its rival;
  - the CRC-8 of the HTU21 and the MODBUS CRC-16 of the AM2321, including the
    AM2321's framed register read with its two 32-attempt retry loops and its
    cached values;
  - the integer decoders of the LM75, DS1631, AM2321, MAX44009, TSL2550,
    BH1750 and BME280;
  - the bounded polling loops of the SI114x, the TSL2550 and the MAX44009;
  - the integer compensation of the BMP085, with C's truncating division and
    32-bit wrap-around written out.
- **The MCP23017 GPIO expander driver (`io_mcp.c`).** The model covers:
  - the pin → (bank, bank pin) split and the register layout with IOCON.BANK = 0;
  - the read-modify-write `clear_set_register`;
  - `io_mcp_init`, `io_mcp_periodic` (the per-pin counter with its debounce),
    `io_mcp_init_pin_mode`, `io_mcp_read_pin` and `io_mcp_write_pin` (the
    output latch cache).

The I2C bus itself is outside the firmware's core, so it is a script. The
`I2c.Bus` class holds a fixed sequence of replies, one per transfer, and records
the transfers the drivers issue. A script that runs out answers like an empty
bus: nobody acknowledges. Every driver is a method on that bus. Each method is
proved to do exactly what a function of the script says (its result, and the
transfers it issued in order). The properties of each driver are lemmas about
that function.

The state the C code keeps in globals becomes classes:
- `device_data[].detected` is `Registry.Registry`;
- the two cached AM2321 values are `Am2321.Cache`;
- `mcp_data_pin_table` and `pin_output_cache` are `McpDriver.Driver`, as two
  `array2`s.

The MCP23017's indexing is kept as written:
- `io_mcp_init` zeroes the pin table row `instance - io_mcp_instance_first`;
- `io_mcp_periodic`, `io_mcp_read_pin` and `io_mcp_write_pin` use row
  `instance`;
- `io_mcp_write_pin` updates the cache through `instance - io_mcp_instance_first`.

The two indexings agree only when the first instance is 0. The model's
contracts show which row each operation touches.

## Model

| member | source | states |
|---|---|---|
| SensorTable.SharedAddresses | i2c_sensor.c:1981-2145 | TSL2560 #0 and the TSL2550 both sit at 0x39, and LM75 #2 and the MAX44009 both sit at 0x4a. The second TSL2560 is elsewhere. |
| SensorTable.SetBit | i2c_sensor.c:2177 | `detected \|= 1 << bus` sets bit `bus` and keeps every other bit. |
| SensorTable.ClearBit | i2c_sensor.c:2159-2172 | `detected &= ~(1 << bus)` clears bit `bus` and keeps every other bit. |
| SensorTable.Detected | i2c_sensor.c:2296-2302 | Corrected lookup. A sensor outside the table is never detected. A known sensor is detected exactly when its bit for the bus is set. |
| SensorTable.DetectedGuardAsWritten | i2c_sensor.c:2298-2299 | The written guard lets every sensor up to and including i2c_sensor_size through to the lookup. |
| SensorTable.DetectedGuardOffByOne | i2c_sensor.c:2298-2301 | Sensor i2c_sensor_size passes the written guard but has no entry in device_data. Every other sensor that passes has one. |
| Tsl2550Tables.Tsl2550TableSizes | i2c_sensor.c:595-628 | The count table has 128 entries and the ratio table has 129. |
| Tsl2550Tables.Tsl2550RatioIndex | i2c_sensor.c:723-729 | The ratio index is at most 128, so it always lies inside the 129-entry ratio table. |
| Tsl2550Tables.Tsl2550RatioIndexRange | i2c_sensor.c:723-729 | The index is 128 exactly when count(ch1) ≥ count(ch0). Below that it is count(ch1)·128 / count(ch0), so the clip to 128 never changes the scaled ratio. |
| Crc.Htu21Crc | i2c_sensor.c:808-828 | The nested bit loop computes the CRC-8 of the data: polynomial 0x31, initial value 0, MSB first. |
| Crc.Crc8FromAppend | i2c_sensor.c:808-828 | Running the CRC-8 over two pieces of data in turn equals running it over their concatenation. |
| Crc.Crc8DetectsSingleByteError | i2c_sensor.c:808-828 | Changing any one byte of the data changes the CRC-8, from any starting register. |
| Crc.Crc8Residue | i2c_sensor.c:808-828 | The CRC-8 of the data followed by its own CRC-8 is 0. |
| Crc.Am2321Crc | i2c_sensor.c:915-936 | The nested bit loop computes the reflected CRC-16: polynomial 0xA001, initial value 0xFFFF. |
| Crc.Crc16FromAppend | i2c_sensor.c:915-936 | Running the CRC-16 over two pieces of data in turn equals running it over their concatenation. |
| Crc.Crc16DetectsSingleByteError | i2c_sensor.c:915-936 | Changing any one byte of the data changes the CRC-16, from any starting register. |
| Crc.Crc16Residue | i2c_sensor.c:915-936 | The CRC-16 of a frame followed by its check word (low byte first) is 0, which is the MODBUS residue. |
| Decoders.WordBits | i2c_sensor.c:184 | `(b0 << 8) \| b1` is the base-256 number b0·256 + b1. |
| Decoders.WordRoundTrip | i2c_sensor.c:184 | Every 16-bit number is the word of its two bytes. |
| Decoders.WordInjective | i2c_sensor.c:184 | Two byte pairs with the same word are the same pair. |
| Decoders.Lm75Celsius | i2c_sensor.c:184-188 | The LM75 temperature (raw/256, less 256 when above 127) lies in (−129, 127]. |
| Decoders.Lm75MatchesTwosComplement | i2c_sensor.c:184-188 | The wrap above 127 equals the 16-bit two's-complement reading divided by 256 exactly when the raw word lies outside 0x7F01 to 0x7FFF. |
| Decoders.Signed16 | i2c_sensor.c:184-188 | The two's-complement reading of a 16-bit word lies in [−2^15, 2^15) and is congruent to the word modulo 2^16. |
| Decoders.SignMagnitude | i2c_sensor.c:112-120 | A sign-magnitude word reads as a value within ±0x7FFF. |
| Decoders.Lm75Example | i2c_sensor.c:184-188 | Bytes 0x19, 0x00 give raw 6400 and 25.0 degrees. |
| Decoders.SignMagnitudeBits | i2c_sensor.c:112-120 | Testing bit 15, clearing it and negating gives the sign-magnitude value of the word. |
| Decoders.SignMagnitudeRoundTrip | i2c_sensor.c:112-120 | The sign-magnitude encoding of any value in ±0x7FFF decodes back to that value. |
| Decoders.SignMagnitudeInjective | i2c_sensor.c:112-120 | Two words decode to the same value exactly when they are equal or are the two zeros. |
| Decoders.Ds1631Celsius | i2c_sensor.c:112-120 | The DS1631 temperature is the sign-magnitude value of the word divided by 256. |
| Decoders.Am2321Humidity | i2c_sensor.c:998-1002 | Humidity is raw/10 below raw 1000. It is exactly 100 when raw ≥ 1000, and always in [0, 100]. |
| Decoders.Am2321RawTemperature | i2c_sensor.c:1004-1013 | The AM2321 raw temperature is the sign-magnitude value of registers 2 and 3. |
| Decoders.Am2321TemperatureSign | i2c_sensor.c:1004-1013 | The temperature is negative exactly when bit 15 is set and the magnitude is not 0. |
| Decoders.Max44009PackRoundTrip | i2c_sensor.c:1880-1890 | Packing exponent and mantissa into values[0] and taking them back out loses nothing. |
| Decoders.Max44009Raw | i2c_sensor.c:1890-1896 | device_error_2 exactly when the exponent nibble is 15. Any other reading is ok and below 150000. |
| Decoders.Max44009BytesRoundTrip | i2c_sensor.c:1880-1882 | Register bytes built from an exponent and a mantissa give back that exponent and mantissa, whatever the unused high nibble of register 0x04. |
| Decoders.Max44009RawRoundTrip | i2c_sensor.c:1880-1894 | Such bytes decode to raw exponent·10000 + mantissa. |
| Decoders.Max44009RawInjective | i2c_sensor.c:1880-1894 | Equal raw values come from the same register 0x03 and the same low nibble of register 0x04. |
| Decoders.Max44009FieldsDetermineBytes | i2c_sensor.c:1880-1891 | Exponent and mantissa together determine register 0x03 and the low nibble of register 0x04. |
| Decoders.Tsl2550Raw | i2c_sensor.c:718-721 | The raw value carries the channel 0 code in its ten-thousands and the channel 1 code below, each with the valid bit removed. |
| Decoders.Bh1750TimingRoundTrip | i2c_sensor.c:771-772 | The two command bytes carry the 0b01000 and 0b011 prefixes, and the device can put the timing back together from their fields. |
| Decoders.Bh1750TimingExamples | i2c_sensor.c:766-772 | Timing 254 is sent as 0x47, 0x7E and timing 31 as 0x40, 0x7F. |
| Decoders.Bme280Adc20 | i2c_sensor.c:1605-1606 | The 20-bit ADC value is msb·4096 + lsb·16 + xlsb/16, below 2^20. |
| Decoders.Bme280Adc20RoundTrip | i2c_sensor.c:1605-1606 | Every 20-bit value is read back from its three bytes. |
| Decoders.Bme280H4 | i2c_sensor.c:1746 | dig_H4 is e4·16 plus the low nibble of e5. |
| Decoders.Bme280H5 | i2c_sensor.c:1747 | dig_H5 is e6·16 plus the high nibble of e5. |
| Decoders.Bme280HRoundTrip | i2c_sensor.c:1746-1747 | Two 12-bit coefficients packed into the shared registers 0xE4 to 0xE6 both come back out. |
| Sensors.AttemptsMeaning | i2c_sensor.c:948-964 | A retry loop stops early only on an acknowledged attempt, and every attempt before its last one failed. |
| Sensors.RegisterReadSpec | i2c_sensor.c:630-641 | A register read succeeds exactly when both transfers are acknowledged, and then returns the byte received. A failure returns the error of its last transfer. |
| Sensors.RegisterRead | i2c_sensor.c:630-641 | The method returns the spec's result and issues exactly the spec's transfers. |
| Sensors.SendAllSpec | i2c_sensor.c:80-96 | A run of sends succeeds exactly when every send is acknowledged. Otherwise it stops at the first refused send with that send's error. |
| Sensors.SendAll | i2c_sensor.c:80-96 | The loop returns the spec's result and issues exactly the spec's transfers. |
| Sensors.Htu21Decode | i2c_sensor.c:841-849 | device_error_1 exactly when byte 2 is not the CRC-8 of bytes 0 and 1. Any other frame is ok. |
| Sensors.Htu21StatusBits | i2c_sensor.c:847-848 | A measurement keeps the fourteen data bits of the word and has its two status bits cleared. |
| Sensors.Htu21IgnoresLastByte | i2c_sensor.c:836-849 | Byte 3 of the four-byte read never affects the result. |
| Sensors.Htu21FrameRoundTrip | i2c_sensor.c:841-849 | A frame the device builds for a measurement decodes to that measurement, masked with 0xFFFC. |
| Sensors.Htu21DetectsCorruption | i2c_sensor.c:841-849 | Corrupting any one of the measurement bytes or the CRC byte of a good frame gives device_error_1. |
| Sensors.Htu21ReadSpec | i2c_sensor.c:830-852 | The command goes out first. The four-byte read follows exactly when the command is acknowledged. Success needs both transfers acknowledged. |
| Sensors.Htu21ReadDelivers | i2c_sensor.c:830-852 | A device that answers with a well-formed frame delivers its measurement with the status bits cleared. |
| Sensors.Htu21Read | i2c_sensor.c:830-852 | The method returns the spec's result and issues exactly the spec's transfers. |
| Sensors.Am2321Check | i2c_sensor.c:969-980 | device_error_2 exactly when the header is not {0x03, length}. device_error_3 exactly when the header is right but the low-first CRC does not match. Otherwise the payload is exactly bytes [2, length+2). |
| Sensors.LowFirst | i2c_sensor.c:972 | A check word received low byte first equals the CRC exactly when both its bytes do. |
| Sensors.Am2321FrameRoundTrip | i2c_sensor.c:969-980 | A frame the device builds for a payload is accepted and gives back that payload. |
| Sensors.Am2321DetectsCorruption | i2c_sensor.c:969-980 | Corrupting any one byte of a good frame makes the check fail. |
| Sensors.Am2321PayloadCorruption | i2c_sensor.c:973-977 | Corrupting any one payload byte of a frame with a correct CRC makes the CRC check fail. |
| Sensors.RetrySendSpec | i2c_sensor.c:948-957 | The request loop issues between one and n transfers. |
| Sensors.RetryReceiveSpec | i2c_sensor.c:959-967 | The reply loop issues between one and n transfers, and a success carries exactly the bytes asked for. |
| Sensors.Am2321Retries | i2c_sensor.c:944-957 | The wake-up is sent once, and the request is repeated until the device first answers. |
| Sensors.Am2321ReadDelivers | i2c_sensor.c:938-983 | A device that answers with a correct frame delivers exactly its payload. |
| Sensors.RetrySend | i2c_sensor.c:948-957 | The request loop returns the spec's result and issues exactly the spec's transfers. |
| Sensors.RetryReceive | i2c_sensor.c:959-967 | The reply loop returns the spec's result and issues exactly the spec's transfers. |
| Sensors.Am2321ReadRegisters | i2c_sensor.c:938-983 | Wake, request, receive, check: the result and transfers are those of the spec. |
| Sensors.Am2321CheckFrame | i2c_sensor.c:969-980 | The method's frame check is the header-then-CRC check. |
| Sensors.Am2321Fetch | i2c_sensor.c:960-980 | The receive retries, then the frame check: the result and transfers are those of the fetch spec. |
| Sensors.Tsl2550AttemptReads | i2c_sensor.c:699-707 | An attempt starts with command 0x43. It succeeds exactly when its four transfers are acknowledged, and then reads channel 0 (0x43), then channel 1 (0x83), returning the two bytes received. |
| Sensors.Tsl2550StopsOnValid | i2c_sensor.c:697-713 | Once an attempt gives a reading with both valid bits, allowing more attempts changes nothing. Any other outcome means the attempts ran out, so one attempt more issues more transfers. |
| Sensors.Tsl2550ValidFirst | i2c_sensor.c:697-713 | When the first attempt is acknowledged and both codes carry the valid bit, the loop returns those two codes after exactly that attempt's four transfers. |
| Sensors.Tsl2550LoopError | i2c_sensor.c:697-716 | A failed read returns the error of the transfer that failed, which is the last one issued. |
| Sensors.Tsl2550InvalidReadingsAccepted | i2c_sensor.c:697-716 | A device that always answers but never sets the valid bits is still read: 16 full attempts, then success with the last codes. |
| Sensors.Tsl2550ReadingOf | i2c_sensor.c:718-729 | The reading carries the raw value of the two codes and a ratio index of at most 128. |
| Sensors.Tsl2550ReadSpec | i2c_sensor.c:686-729 | device_error_1 with no transfer while TSL2560 #0 is detected on the bus. Otherwise 1 to 64 transfers (16 attempts). A reading has a ratio index of at most 128. |
| Sensors.Tsl2550Read | i2c_sensor.c:686-729 | The method returns the spec's result and issues exactly the spec's transfers. |
| Sensors.Tsl2550Loop | i2c_sensor.c:697-713 | The attempt loop returns the spec's result and issues exactly the spec's transfers. |
| Sensors.Tsl2550Attempt | i2c_sensor.c:699-707 | One attempt, channel 0 then channel 1, returns the attempt spec's result and issues exactly its transfers. |
| Sensors.Tsl2550Round | i2c_sensor.c:697-713 | One pass makes one attempt. When the loop leaves, its result is that attempt's. Otherwise the loop goes on after it with one attempt fewer. |
| Am2321.HumidityOf | i2c_sensor.c:998-1002 | Raw humidity is the word of registers 0 and 1. Cooked humidity is raw/10, capped at 100. |
| Am2321.TemperatureOf | i2c_sensor.c:1004-1013 | Raw temperature is the sign-magnitude word of registers 2 and 3, and cooked is raw/10. Raw is negative exactly when the sign bit is set and the magnitude is not 0. |
| Am2321.ReadLength | i2c_sensor.c:979 | A successful register read hands back exactly the number of registers asked for. |
| Am2321.Cache.constructor | i2c_sensor.c:985-986 | Both cached values start at zero. |
| Am2321.Cache.Read | i2c_sensor.c:988-1023 | Always ok. Only a successful register read refreshes both cached values. The requested value comes from the cache. |
| Si114x.WaitIdleSpec | i2c_sensor.c:1221-1237 | The wait issues at most 32 transfers (16 register reads). |
| Si114x.WaitOk | i2c_sensor.c:1221-1237 | The wait succeeds only when its last transfer read chip_stat = 1. |
| Si114x.WaitBusy | i2c_sensor.c:1221-1237 | A chip that answers but never reports idle gets device_error_1 after all 16 reads. |
| Si114x.WaitError | i2c_sensor.c:1221-1237 | Any other error is the error of the read that failed, which is the last transfer. |
| Si114x.WaitIdleAt | i2c_sensor.c:1221-1237 | If the first k reads are acknowledged but not idle and read k reports idle, with k below the attempt budget, the wait succeeds after exactly 2(k+1) transfers. |
| Si114x.WaitIdleSucceeds | i2c_sensor.c:1221-1237 | A chip that reports idle on read k, for k below 16, is waited for successfully in exactly 2(k+1) transfers. |
| Si114x.WaitIdle | i2c_sensor.c:1221-1237 | The polling loop returns the spec's result and issues exactly the spec's transfers. |
| ChipInit.GateMatchesTables | i2c_sensor.c:58-64 | Each init routine's gate is its sibling rule or its rival rule, and every other routine has no gate. The other gates are at lines 380-386, 476-477, 663-664, 907-913, 1053-1059, 1082-1086, 1491-1521, 1784-1803 and 1815-1816. |
| ChipInit.SecondTsl2560Ungated | i2c_sensor.c:476-477 | The TSL2560 at 0x29 never stands down. |
| ChipInit.DerivedChannels | i2c_sensor.c:58-64 | A derived channel issues no transfer. It is ok exactly when its sibling is detected, and address_nak otherwise. The other derived channels are at lines 380-386, 907-913, 1053-1059, 1491-1521 and 1784-1803. |
| ChipInit.RivalChips | i2c_sensor.c:1082-1086 | A detected rival gives device_error_1 with no transfer. With no rival detected, the routine runs as if ungated. The other rival checks are at lines 476-477, 663-664 and 1815-1816. |
| ChipInit.Tsl2560Tsl2550Exclusive | i2c_sensor.c:476-477 | An init of TSL2560 #0 that succeeds implies the TSL2550 is not detected, and the other way round. The TSL2550 side is at lines 663-664. |
| ChipInit.Bh1750MessagesExamples | i2c_sensor.c:751-783 | The BH1750 set-up is power on, reset, the two timing commands, then continuous sampling, for both sensitivities. |
| ChipInit.Ds1631Init | i2c_sensor.c:80-96 | Send 0xac 0x0c, then 0x51, stopping at the first error. |
| ChipInit.Bh1750Init | i2c_sensor.c:742-786 | The five sends of the BH1750 set-up, stopping at the first error. |
| ChipInit.Init | i2c_sensor.c:2170 | The gate, then the chip: the result and transfers are those of the spec. |
| ChipInit.Body | i2c_sensor.c:2170 | Past the gate, the chip's routine returns the body spec's result and issues exactly its transfers. |
| Registry.InitSpec | i2c_sensor.c:2147-2180 | An unknown sensor gives device_error_4 with no transfer. Otherwise the routine selects the bus first and bus 0 last, whatever happens. |
| Registry.After | i2c_sensor.c:2159-2177 | After an init, the sensor's bit for the bus records whether the init succeeded. |
| Registry.AfterKeepsOthers | i2c_sensor.c:2159-2177 | No other bit of any sensor changes. |
| Registry.InitKeepsExclusive | i2c_sensor.c:2147-2180 | No init can leave TSL2560 #0 and the TSL2550 both detected on one bus. |
| Registry.InitDerivedNeedsSibling | i2c_sensor.c:2147-2180 | A derived channel becomes detected only on a bus where its sibling is detected. |
| Registry.SweepKeepsBusZero | i2c_sensor.c:2187-2190 | Once the sweep is past bus 0, the bus-0 bits no longer change. |
| Registry.InitAllAttempts | i2c_sensor.c:2182-2191 | The sweep tries every sensor on bus 0. On each later bus it tries exactly the sensors not detected on bus 0. |
| Registry.Registry.constructor | i2c_sensor.c:2147-2180 | Nothing is detected at start-up. |
| Registry.Registry.Init | i2c_sensor.c:2147-2180 | The method returns the spec's result. It changes the detection table only for a known sensor, and then only the sensor's bit for the bus. |
| Registry.Registry.InitAll | i2c_sensor.c:2182-2191 | The nested loops leave the table, transfers and attempts of the spec. |
| Registry.Registry.Pass | i2c_sensor.c:2188-2190 | The inner loop over every sensor of one bus. The sweep from the next bus on the new table equals the sweep from this bus on the old one. |
| Registry.Registry.Visit | i2c_sensor.c:2189-2190 | One turn of the inner loop. The sweep from the next sensor on the new table equals the sweep from this sensor on the old one. |
| Max44009.CheckSpec | i2c_sensor.c:1818-1852 | One write-and-check step passes exactly when both transfers are acknowledged and the byte read back, masked, equals the expected value. |
| Max44009.ChecksAccept | i2c_sensor.c:1810-1855 | The chip is accepted exactly when every transfer is acknowledged and every read-back passes its check. |
| Max44009.SetupTransfers | i2c_sensor.c:1818-1852 | An accepted chip was sent exactly the four writes, each followed by a one-byte read. |
| Max44009.Setup | i2c_sensor.c:1818-1855 | The four write-and-check steps return the spec's result and issue exactly its transfers. |
| Max44009.RoundSpec | i2c_sensor.c:1867-1884 | One reading takes one to four transfers. A successful one takes four and packs the two bytes into a value below 2^20. |
| Max44009.PackedBound | i2c_sensor.c:1865-1884 | A packed reading never equals either of the loop's two start values, so the first reading can never confirm itself. |
| Max44009.RoundError | i2c_sensor.c:1867-1884 | A failed reading returns the error of its last transfer. |
| Max44009.DecodePacked | i2c_sensor.c:1880-1896 | Decoding values[0] is decoding the two register bytes directly. |
| Max44009.ReadConfirmed | i2c_sensor.c:1865-1899 | Corrected loop. A successful read made at least two readings, the last two agree, and the result decodes them. |
| Max44009.LoopErrors | i2c_sensor.c:1865-1896 | A failed read returns the error of its last transfer, or device_error_2 for exponent 15, or device_error_1 after all eight readings. |
| Max44009.SteadyDevice | i2c_sensor.c:1865-1899 | A device that gives the same bytes every time is read in exactly two readings. |
| Max44009.ReadLength | i2c_sensor.c:1865 | A read makes at most eight readings. |
| Max44009.ReadRaw | i2c_sensor.c:1857-1899 | The corrected loop returns the spec's result and issues exactly the spec's transfers. |
| Max44009.Round | i2c_sensor.c:1867-1883 | One reading returns the reading spec's result and issues exactly its transfers. |
| Max44009.Step | i2c_sensor.c:1865-1884 | One pass of the corrected loop. A failed reading ends the loop with its error. A good one continues the loop from the pair (last value, new reading) with one try fewer. |
| Max44009.AsWrittenReadsOnce | i2c_sensor.c:1865 | The loop as written makes one reading and decodes it. Its device_error_1 cannot happen. |
| Max44009.AsWrittenAcceptsUnconfirmed | i2c_sensor.c:1865 | As written, a single unconfirmed reading is accepted. The corrected loop asks for a second one. |
| Max44009.ReadRawAsWritten | i2c_sensor.c:1857-1899 | The loop as written returns the as-written spec's result and transfers. |
| Max44009.StepAsWritten | i2c_sensor.c:1865-1884 | One pass as written. A good reading continues the loop with both values equal to it, because the increment clause copies values[0] into values[1]. |
| Bmp085.S32Meaning | i2c_sensor.c:253-256 | A value that fits an int32_t is kept, and wrapping changes a value only by a multiple of 2^32. |
| Bmp085.QuotMeaning | i2c_sensor.c:272-324 | C division: a = q·b + rem with \|rem\| < \|b\| and rem carrying a's sign. \|q\| ≤ \|a\|. |
| Bmp085.CalibrationOf | i2c_sensor.c:193-205 | The calibration fields are the words read, and the signed fields read them as two's complement. |
| Bmp085.TemperatureX1 | i2c_sensor.c:272 | X1 of the temperature lies in ±2^16. |
| Bmp085.B5 | i2c_sensor.c:272-279 | device_error_1 exactly when X1 + MD is 0. Otherwise B5 lies in ±0x4100000. |
| Bmp085.Celsius | i2c_sensor.c:284 | The cooked temperature is (B5 + 8)/160. |
| Bmp085.Up | i2c_sensor.c:296-299 | The uncompensated pressure is below 2^19. |
| Bmp085.Pressure | i2c_sensor.c:301-324 | Corrected order. device_error_2 exactly when B4 is 0. Otherwise the pressure is an int32_t. |
| Bmp085.QuotientClose | i2c_sensor.c:315-318 | When the true quotient 2·B7/B4 fits 32 bits, the corrected quotient equals it for B7 < 2^31 and is never more than one below it. |
| Bmp085.B7 | i2c_sensor.c:310 | B7 is an unsigned 32-bit value. |
| Bmp085.PressureAsWritten | i2c_sensor.c:301-324 | As written: device_error_2 exactly when B4 is 0. |
| Bmp085.AsWrittenTopBit | i2c_sensor.c:315-316 | As written, a B7 with its top bit set loses that bit in the doubling, and the quotient is then doubled again. |
| Bmp085.AsWrittenLosesPressure | i2c_sensor.c:315-318 | For B7 = 2^31 and B4 = 2^15 the corrected quotient is 2^17, but the one written is 0. |
| Mcp.Bank | io_mcp.c:191 | The bank is 0 or 1. |
| Mcp.BankPin | io_mcp.c:192 | The bank pin is below 8. |
| Mcp.PinSplit | io_mcp.c:191-192 | Every pin is 8·bank + bankpin. |
| Mcp.PinJoin | io_mcp.c:191-192 | Every (bank, bankpin) is the split of the pin 8·bank + bankpin. |
| Mcp.RegisterAddresses | io_mcp.c:15-52 | The 22 register addresses base + bank are all different. |
| Mcp.MaskBits | io_mcp.c:226 | `1 << bankpin` has exactly the bank pin's bit set. |
| Mcp.ClearSetBits | io_mcp.c:132-133 | Bit by bit, set wins over clear, and a bit in neither mask keeps its value. |
| Mcp.ClearSetSpec | io_mcp.c:109-144 | A failed address send or receive gives io_error with no write. Otherwise the routine writes back (old & ~clear) \| set, and is ok exactly when that write is acknowledged. |
| Mcp.ClearSet | io_mcp.c:109-144 | The read-modify-write returns the spec's result and issues exactly the spec's transfers. |
| Mcp.InitPinModeRefuses | io_mcp.c:277-283 | An unknown mode is always io_error. When the seven clearing calls succeed, it issues exactly their 21 transfers and no more. |
| Mcp.ClearOps | io_mcp.c:226-245 | The clearing calls are seven clear-only calls on IPOL, GPINTEN, DEFVAL, INTCON, GPPU, GPIO and OLAT of the pin's bank. |
| Mcp.PinModeOps | io_mcp.c:219-287 | A pin has a configuration sequence exactly when its mode is known. |
| Mcp.OpsWriteAt | io_mcp.c:109-144 | In a run of clear-set calls that succeeds, call k sends its register and then writes back its clear-set value at transfers 3k and 3k+2. |
| Mcp.InitPinMode | io_mcp.c:219-287 | The clearing calls, then the mode's calls: the result and transfers are those of the spec. |
| Mcp.ClearPin | io_mcp.c:226-245 | The seven clearing calls, stopping at the first failure: the result and transfers are those of the list spec. |
| Mcp.ApplyRest | io_mcp.c:229-245 | The clearing calls from GPINTEN to OLAT, stopping at the first failure: the result and transfers are those of the rest of the list. |
| Mcp.SetMode | io_mcp.c:247-284 | A refused mode gives io_error with no further transfer. Otherwise the mode's calls run, stopping at the first failure. |
| Mcp.SetInput | io_mcp.c:254-267 | For an input or counter pin: IODIR's bit, then the options, with the result and transfers of the mode's call list. |
| Mcp.SetInputOptions | io_mcp.c:260-264 | The pull-up call and then the counter's GPINTEN call, each made only when it applies. |
| Mcp.ClearOpsEffect | io_mcp.c:226-245 | The clearing calls leave the pin's bit 0 in IPOL, GPINTEN, DEFVAL, INTCON, GPPU, GPIO and OLAT, and untouched elsewhere. |
| Mcp.ModeOpsEffect | io_mcp.c:247-284 | Input and counter set the IODIR bit, set GPPU with a pull-up, and set GPINTEN for a counter. Output clears the IODIR bit. Disabled does nothing. |
| Mcp.PinModeEffect | io_mcp.c:219-287 | On the register model, the configuration's calls leave exactly the intended value in the pin's bit of every register of its bank. Mcp.InitPinModeWrites ties this model to the bus. |
| Mcp.ApplyOpsSnoc | io_mcp.c:109-144 | One call more changes only its own register, to the clear-set value of what that register held. |
| Mcp.ReadsBackAt | io_mcp.c:109-144 | On a chip that reads back what it holds, the read of call k returns the register's value after the first k calls. |
| Mcp.ReadsBackWrite | io_mcp.c:109-144 | On such a chip, the value call k writes is the register's value after the first k+1 calls. |
| Mcp.OpsWriteAtPlace | io_mcp.c:109-144 | The write of call k, at transfer 3k+2 after the earlier ones, carries the clear-set value of the byte read at reply 3k+1. |
| Mcp.TwoListsWrite | io_mcp.c:219-287 | When the clearing calls and then the mode's calls succeed, transfer 3k+2 is the write of call k of the joined list. |
| Mcp.WriteInFirst | io_mcp.c:226-245 | A write of the clearing calls keeps its place once the mode's calls follow. |
| Mcp.WriteInSecond | io_mcp.c:247-284 | Call k of the mode's calls writes at transfer 3k+2 of the whole configuration, counting the clearing calls' 3 transfers each. |
| Mcp.InitPinModeWrites | io_mcp.c:219-287 | On a chip that reads back what it holds, a configuration that succeeds writes, in call k, the register value the model gives after the first k+1 calls. |
| Mcp.PinModeOpsShape | io_mcp.c:219-287 | Every call of a configuration is on a register of the pin's bank and touches only the pin's bit. |
| Mcp.PinModeOtherBits | io_mcp.c:219-287 | Every other bit of every register is left as it was. |
| Mcp.PinModeOtherBank | io_mcp.c:219-287 | The registers of the other bank are not touched. |
| McpDriver.ReadWriteCounter | io_mcp.c:373 | A uint32_t counter read as an int and written back is unchanged. The write is at line 418. |
| McpDriver.WriteReadCounter | io_mcp.c:418 | An int written to a counter reads back unchanged. The read is at line 373. |
| McpDriver.TickCounts | io_mcp.c:197-214 | A poll counts a pin at most once. It changes the counter exactly when it counts, and then the debounce becomes `speed`. A non-counter pin is left alone. |
| McpDriver.TicksCounter | io_mcp.c:189-216 | Over successive polls, the counter grows by the number of polls that counted, modulo 2^32. |
| McpDriver.Quiet | io_mcp.c:199-205 | While a counter pin debounces, nothing is counted, and each poll takes 10 off the debounce time, down to 0. |
| McpDriver.Spacing | io_mcp.c:199-214 | After a count, no count happens for speed/10 polls. |
| McpDriver.PollSpec | io_mcp.c:183-187 | The four flag reads give two INTF and two INTCAP bytes in 4 to 8 transfers. |
| McpDriver.PollAnswered | io_mcp.c:183-187 | On a chip that answers, the poll reads INTFA, INTFB, INTCAPA and INTCAPB. |
| McpDriver.PollFlags | io_mcp.c:183-187 | The four flag reads return the poll spec's flags and issue exactly its transfers. |
| McpDriver.ReadPair | io_mcp.c:183-187 | Two register reads, bank A then bank B, return the pair spec's values and issue exactly its transfers. |
| McpDriver.PollSilent | io_mcp.c:183-187 | A chip that does not acknowledge leaves every flag at its stale value. |
| McpDriver.ReadPinValues | io_mcp.c:358-387 | A digital pin reads 0 or 1, the level of its GPIO bit. A counter reads the counter with no transfer. Other modes give io_error. |
| McpDriver.CacheAfterBits | io_mcp.c:400-403 | Writing a pin changes its own bit of the cache byte, to value ≠ 0, and no other bit. |
| McpDriver.WritePinOutput | io_mcp.c:407-413 | An output pin's write puts the whole cache byte of its bank on GPIO of that bank. |
| McpDriver.InitSpec | io_mcp.c:153-160 | The driver writes IOCON = 0x12, then reads IOCON back. It is ok exactly when every transfer is acknowledged and the byte read is 0x12. |
| McpDriver.Driver.constructor | io_mcp.c:59-60 | The pin table and the output cache start at zero. |
| McpDriver.Driver.Init | io_mcp.c:146-173 | On success, the row `instance - first` is zeroed: counters, debounces and both cache bytes. A failure, or any other row, leaves everything as it was. |
| McpDriver.Driver.Periodic | io_mcp.c:175-217 | Every pin of row `instance` takes one tick with the polled flags. The flag is set exactly when a pin counted. Other rows are unchanged. |
| McpDriver.Driver.TickPin | io_mcp.c:189-215 | One pin takes one tick, and nothing else changes. |
| McpDriver.Driver.ReadPin | io_mcp.c:348-388 | No state changes. The result is that of the read spec. |
| McpDriver.Driver.WritePin | io_mcp.c:390-433 | The pin's cache bit is updated even when the mode is refused. A counter pin's counter becomes the value. An output pin writes the cache byte. Nothing else changes. |
| McpDriver.Driver.SetCacheBit | io_mcp.c:400-403 | The pin's cache byte becomes the updated byte. Every other cache byte is unchanged. |

## Left out

- The I2C transport (`i2c_send*`, `i2c_receive`, `i2c_send_receive`, `i2c_select_bus`) is foreign code. It is modelled as a scripted reply per transfer, and `msleep` is left out because it only paces the attempts.
- `io_mcp_init` reads IOCON back with one `i2c_send_receive`. The model writes that as a send of the register number followed by a one-byte receive.
- The floating-point transfer functions are not modelled. These are the digipicco, HTU21, TSL2560, TSL2550 lux, BH1750, VEML6070 and VEML6075 cooked values, the BME280 compensation and the calibration `extracooked`. The model keeps their integer inputs.
- The TSL2560 lux table lookup is left out. It is floating-point work on top of the chip's integer channels.
- Text and HTML formatting (`i2c_sensor_read`, `io_mcp_get_pin_info`) is string plumbing and is left out.
- The configuration flags `tsl_high_sens` and `bh_high_sens` come from external code. They are parameters here (`highSensitivity`).
- Identification sequences are one `Probe` exchange. This covers the digipicco temperature, LM75, BMP085 temperature, TSL2560, TSL2550, VEML6070, SI114x visible light, BME280 temperature and VEML6075 chips. Each gate is modelled exactly. The DS1631, BH1750, HTU21, AM2321 and MAX44009 set-ups are spelled out.
- The SI114x command handshake (`si114x_sendcmd`, `si114x_startstop`, reset and parameters) is left out. Only `si114x_wait_idle` is modelled.
- The bus transfers of `bmp085_read` and of the BMP085 and BME280 calibration reads are not modelled. The BMP085's integer arithmetic on the words they return is modelled, and so is the BME280's register packing.
- The `init_fn == NULL` branch of `i2c_sensor_init` (device_error_5) cannot happen, because every table entry has an init routine. It is left out.
- The sensor numbering follows the order of device_table. The header that declares `i2c_sensor_t` (i2c_sensor.h) is not part of this model.
- Crc.Htu21Crc: requires fewer than 256 bytes. The C byte counter is a uint8_t, so a longer input would never end; the driver always passes 2.
- Crc.Am2321Crc: requires fewer than 256 bytes, for the same reason; the driver passes length + 2.
- Sensors.Am2321ReadRegisters: requires length ≤ 28, because the receive buffer holds 32 bytes; the driver asks for 4 or 2.
- McpDriver.Driver.Periodic: requires `instance < size`, because the pin table is indexed by `instance` and is in bounds only then. The same holds for McpDriver.Driver.ReadPin and McpDriver.Driver.WritePin on a counter pin.
- McpDriver.Driver.WritePin: requires `first <= instance < first + size` because of the cache index `instance - first`.

## Findings

| source | as written | input that shows it | evidently intended | confidence | as-written member | corrected member |
|---|---|---|---|---|---|---|
| i2c_sensor.c:2298 | `if(sensor > i2c_sensor_size) return(false);` | sensor = i2c_sensor_size (27) passes the guard and reads device_data[27], one past the end | `sensor >= i2c_sensor_size` | not executed; high | SensorTable.DetectedGuardOffByOne | SensorTable.Detected |
| i2c_sensor.c:1865 | the increment clause runs `values[1] = values[0]` after each reading, so the two values always agree after one pass | a device answering bytes 0x10 then 0x01 is accepted after a single reading (raw 10001). device_error_1 can never be returned | keep the previous reading before taking a new one, and stop when two readings in a row agree | not executed; high | Max44009.AsWrittenAcceptsUnconfirmed | Max44009.ReadConfirmed |
| i2c_sensor.c:315-318 | `if(b7 & 0x80000000) p = ((b7 * 2) / b4) << 1; else p = (b7 / b4) * 2;` | B7 = 2^31, B4 = 2^15 gives 0 instead of 2^17 | the BMP085 data sheet's order: `(B7 * 2) / B4` below 2^31, `(B7 / B4) * 2` from 2^31 up | not executed; medium | Bmp085.AsWrittenLosesPressure | Bmp085.QuotientClose |
