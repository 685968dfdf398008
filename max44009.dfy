/** The MAX44009 ambient light sensor of i2c_sensor.c: its set-up checks and
    its read loop, which is meant to read the light registers until two
    readings in a row agree. */
module Max44009 {
  import opened I2c
  import opened Decoders
  import opened Sensors

  // ------------------------------------------------------------- set-up

  /** One check of sensor_max44009_init: write a value to a register, read one
      byte back and compare its masked bits with what the chip must answer. */
  datatype Check = Check(register: bv8, value: bv8, mask: bv8, expected: bv8, code: nat)

  /** The four checks, in order: interrupt status 0x00 reads 0x00, interrupt
      enable 0x01 reads back 0x01 after 0xff and 0x00 after 0x00, and the
      configuration register 0x02 reads 1000xxxx after 0x80. */
  const Checks: seq<Check> := [
    Check(0x00, 0xFF, 0xFF, 0x00, 2),
    Check(0x01, 0xFF, 0xFF, 0x01, 2),
    Check(0x01, 0x00, 0xFF, 0x00, 2),
    Check(0x02, 0x80, 0xF0, 0x80, 3)]

  /** The byte read back, masked, is the value the check expects. */
  predicate Matches(b: bv8, c: Check)
  {
    b & c.mask == c.expected
  }

  /** The replies at `at` and `at + 1` complete the check. */
  predicate Passes(script: seq<Reply>, at: nat, c: Check)
  {
    ReplyAt(script, at).Ack? && ReplyAt(script, at + 1).Ack? && Matches(ByteAt(script, at + 1), c)
  }

  function CheckSpec(script: seq<Reply>, at: nat, address: bv8, c: Check): (r: Run<()>)
    ensures |r.transfers| == (if ReplyAt(script, at).Nack? then 1 else 2)
    ensures r.result.Ok? <==> ReplyAt(script, at).Ack? && ReplyAt(script, at + 1).Ack?
                              && Matches(ByteAt(script, at + 1), c)
  {
    var write := Write(address, [c.register, c.value]);
    var sent := ReplyAt(script, at);
    var got := ReplyAt(script, at + 1);
    if sent.Nack? then Run(Err(sent.error), [write])
    else if got.Nack? then Run(Err(got.error), [write, Read(address, 1)])
    else if !Matches(ByteAt(script, at + 1), c) then Run(Err(DeviceError(c.code)), [write, Read(address, 1)])
    else Run(Ok(()), [write, Read(address, 1)])
  }

  /** The checks from the given one on, stopping at the first that fails. */
  function ChecksSpec(script: seq<Reply>, at: nat, address: bv8, checks: seq<Check>): (r: Run<()>)
    ensures |r.transfers| <= 2 * |checks|
    decreases |checks|
  {
    if |checks| == 0 then Run(Ok(()), [])
    else
      var first := CheckSpec(script, at, address, checks[0]);
      if first.result.Err? then first
      else Join(first.transfers, ChecksSpec(script, at + 2, address, checks[1..]))
  }

  /** The chip is accepted exactly when every transfer is acknowledged and every
      byte read back is the expected one. */
  lemma {:induction false} ChecksAccept(script: seq<Reply>, at: nat, address: bv8, checks: seq<Check>)
    ensures ChecksSpec(script, at, address, checks).result.Ok?
            <==> forall i :: 0 <= i < |checks| ==> Passes(script, at + 2 * i, checks[i])
    decreases |checks|
  {
    if |checks| > 0 {
      var first := CheckSpec(script, at, address, checks[0]);
      var rest := ChecksSpec(script, at + 2, address, checks[1..]);
      ChecksAccept(script, at + 2, address, checks[1..]);
      assert ChecksSpec(script, at, address, checks).result.Ok? <==> first.result.Ok? && rest.result.Ok?;
      assert Passes(script, at + 2 * 0, checks[0]) <==> first.result.Ok?;
      forall i | 1 <= i < |checks|
        ensures Passes(script, at + 2 * i, checks[i]) == Passes(script, at + 2 + 2 * (i - 1), checks[1..][i - 1])
      {
        assert at + 2 * i == at + 2 + 2 * (i - 1);
      }
    }
  }

  /** An accepted chip was sent exactly the four writes, each followed by a
      read of one byte. */
  lemma SetupTransfers(script: seq<Reply>, at: nat, address: bv8)
    requires ChecksSpec(script, at, address, Checks).result.Ok?
    ensures ChecksSpec(script, at, address, Checks).transfers
            == [Write(address, [0x00, 0xFF]), Read(address, 1), Write(address, [0x01, 0xFF]), Read(address, 1),
                Write(address, [0x01, 0x00]), Read(address, 1), Write(address, [0x02, 0x80]), Read(address, 1)]
  {
    assert Checks[1..][1..][1..][1..] == [];
  }

  method RunCheck(bus: Bus, address: bv8, c: Check) returns (r: Result<()>)
    modifies bus
    ensures var run := CheckSpec(bus.replies, old(bus.position), address, c);
            r == run.result && bus.trace == old(bus.trace) + run.transfers
            && bus.position == old(bus.position) + |run.transfers|
  {
    var sent := bus.Send(address, [c.register, c.value]);
    if sent.Err? {
      return Err(sent.error);
    }
    var got := bus.Receive(address, 1);
    if got.Err? {
      return Err(got.error);
    }
    assert got.value[0] == ByteAt(bus.replies, old(bus.position) + 1);
    if !Matches(got.value[0], c) {
      return Err(DeviceError(c.code));
    }
    r := Ok(());
  }

  /** One check and the rest of them: the step the set-up takes after each. */
  lemma ChecksStep(script: seq<Reply>, at: nat, address: bv8, checks: seq<Check>)
    requires |checks| > 0
    ensures var first := CheckSpec(script, at, address, checks[0]);
            ChecksSpec(script, at, address, checks)
            == if first.result.Err? then first
               else Join(first.transfers, ChecksSpec(script, at + 2, address, checks[1..]))
  {
  }

  /** sensor_max44009_init after its gate: the four checks, straight-line. */
  method Setup(bus: Bus, address: bv8) returns (r: Result<()>)
    modifies bus
    ensures var run := ChecksSpec(bus.replies, old(bus.position), address, Checks);
            r == run.result && bus.trace == old(bus.trace) + run.transfers
            && bus.position == old(bus.position) + |run.transfers|
  {
    ghost var at := bus.position;
    ghost var before := bus.trace;
    ChecksStep(bus.replies, at, address, Checks);
    ChecksStep(bus.replies, at + 2, address, Checks[1..]);
    ChecksStep(bus.replies, at + 4, address, Checks[2..]);
    ChecksStep(bus.replies, at + 6, address, Checks[3..]);
    assert Checks[1..][1..] == Checks[2..] && Checks[2..][1..] == Checks[3..] && Checks[3..][1..] == [];
    r := RunCheck(bus, address, Check(0x00, 0xFF, 0xFF, 0x00, 2));
    if r.Err? {
      return;
    }
    r := RunCheck(bus, address, Check(0x01, 0xFF, 0xFF, 0x01, 2));
    if r.Err? {
      return;
    }
    r := RunCheck(bus, address, Check(0x01, 0x00, 0xFF, 0x00, 2));
    if r.Err? {
      return;
    }
    r := RunCheck(bus, address, Check(0x02, 0x80, 0xF0, 0x80, 3));
  }

  // ------------------------------------------------------------- reading

  /** The two values the loop starts from: values[0] and values[1]. They differ,
      and no reading can equal either. */
  const Start0: bv32 := 0x7FFF_FFFE
  const Start1: bv32 := 0x7FFF_FFFF

  /** The number of readings the loop makes at most. */
  const Tries: nat := 8

  /** The packed value of the two light registers. */
  function Packed(high: bv8, low: bv8): bv32
  {
    Max44009Pack(Max44009Exponent(high), Max44009Mantissa(high, low))
  }

  lemma PackedBound(high: bv8, low: bv8)
    ensures Packed(high, low) < 0x10_0000
    ensures Packed(high, low) != Start0 && Packed(high, low) != Start1
  {
  }

  /** One reading: register 0x03 (exponent and high mantissa), then register 0x04
      (low mantissa), giving up at the first failing transfer. */
  function RoundSpec(script: seq<Reply>, at: nat, address: bv8): (r: Run<bv32>)
    ensures 1 <= |r.transfers| <= 4
    ensures r.result.Ok? ==> |r.transfers| == 4 && r.result.value < 0x10_0000
  {
    var high := RegisterReadSpec(script, at, address, 0x03);
    if high.result.Err? then Run(Err(high.result.error), high.transfers)
    else
      var low := RegisterReadSpec(script, at + 2, address, 0x04);
      PackedBound(high.result.value, if low.result.Ok? then low.result.value else 0);
      if low.result.Err? then Run(Err(low.result.error), high.transfers + low.transfers)
      else Run(Ok(Packed(high.result.value, low.result.value)), high.transfers + low.transfers)
  }

  /** The end of sensor_max44009_read: exponent and mantissa taken back out of
      values[0]; exponent 15 (overrange) is device_error_2. */
  function Decode(v: bv32): (r: Result<nat>)
  {
    var (exponent, mantissa) := Max44009Unpack(v);
    if exponent == 15 then Err(DeviceError(2))
    else Ok(exponent as nat * 10000 + mantissa as nat)
  }

  lemma Widen(b: bv8)
    ensures (b as bv32) as nat == b as nat
  {
  }

  /** Decoding the packed value is decoding the register bytes directly. */
  lemma DecodePacked(high: bv8, low: bv8)
    ensures Decode(Packed(high, low)) == Max44009Raw(high, low)
  {
    var exponent := Max44009Exponent(high);
    var mantissa := Max44009Mantissa(high, low);
    Max44009PackRoundTrip(exponent, mantissa);
    Widen(exponent);
    Widen(mantissa);
  }

  /** The loop as it is meant to work, from a given state: tries left, the
      previous and the current value, and the transfers so far. Each pass first
      keeps the current value as the previous one, then reads a new one; the
      loop goes on while tries are left and the two differ. Running out of tries
      is device_error_1, even when the last two readings agree, as the check
      after the loop is written. */
  function LoopFrom(script: seq<Reply>, at: nat, address: bv8, tries: nat, previous: bv32, current: bv32,
                    done: seq<Transfer>): (r: Run<nat>)
    decreases tries
  {
    if tries == 0 || current == previous then
      Run(if tries == 0 then Err(DeviceError(1)) else Decode(current), done)
    else
      var round := RoundSpec(script, at, address);
      if round.result.Err? then Run(Err(round.result.error), done + round.transfers)
      else LoopFrom(script, at + 4, address, tries - 1, current, round.result.value, done + round.transfers)
  }

  /** Each reading adds at most four transfers, and the transfers so far are
      kept. */
  lemma {:induction false} LoopLength(script: seq<Reply>, at: nat, address: bv8, tries: nat, previous: bv32,
                                      current: bv32, done: seq<Transfer>)
    ensures var r := LoopFrom(script, at, address, tries, previous, current, done);
            |done| <= |r.transfers| <= |done| + 4 * tries && r.transfers[..|done|] == done
    decreases tries
  {
    if tries > 0 && current != previous {
      var round := RoundSpec(script, at, address);
      if round.result.Ok? {
        var d := done + round.transfers;
        LoopLength(script, at + 4, address, tries - 1, current, round.result.value, d);
        var r := LoopFrom(script, at + 4, address, tries - 1, current, round.result.value, d);
        assert r.transfers[..|done|] == r.transfers[..|d|][..|done|];
      } else {
        assert (done + round.transfers)[..|done|] == done;
      }
    }
  }

  /** sensor_max44009_read, with the previous value kept before each reading. */
  function ReadSpec(script: seq<Reply>, at: nat, address: bv8): (r: Run<nat>)
  {
    LoopFrom(script, at, address, Tries, Start1, Start0, [])
  }

  /** A read makes at most eight readings of four transfers each. */
  lemma ReadLength(script: seq<Reply>, at: nat, address: bv8)
    ensures |ReadSpec(script, at, address).transfers| <= 4 * Tries
  {
    LoopLength(script, at, address, Tries, Start1, Start0, []);
  }

  /** The loop as written: the increment clause copies the new value over the
      previous one, so the loop condition sees them equal after one pass. */
  function AsWrittenFrom(script: seq<Reply>, at: nat, address: bv8, tries: nat, previous: bv32, current: bv32,
                         done: seq<Transfer>): (r: Run<nat>)
    ensures |done| <= |r.transfers| <= |done| + 4 * tries
    decreases tries
  {
    if tries == 0 || current == previous then
      Run(if tries == 0 then Err(DeviceError(1)) else Decode(current), done)
    else
      var round := RoundSpec(script, at, address);
      if round.result.Err? then Run(Err(round.result.error), done + round.transfers)
      else AsWrittenFrom(script, at + 4, address, tries - 1, round.result.value, round.result.value, done + round.transfers)
  }

  function AsWrittenSpec(script: seq<Reply>, at: nat, address: bv8): (r: Run<nat>)
    ensures |r.transfers| <= 32
  {
    AsWrittenFrom(script, at, address, 8, Start1, Start0, [])
  }

  /** As written, the loop reads once and decodes that reading: it never
      compares two readings, and its device_error_1 cannot happen. */
  lemma AsWrittenReadsOnce(script: seq<Reply>, at: nat, address: bv8)
    ensures var round := RoundSpec(script, at, address);
            AsWrittenSpec(script, at, address)
            == if round.result.Err? then Run(Err(round.result.error), round.transfers)
               else Run(Decode(round.result.value), round.transfers)
  {
    var round := RoundSpec(script, at, address);
    assert [] + round.transfers == round.transfers;
    if round.result.Ok? {
      assert AsWrittenSpec(script, at, address)
             == AsWrittenFrom(script, at + 4, address, 7, round.result.value, round.result.value, round.transfers);
    }
  }

  /** A device whose two readings differ: as written, the first is accepted after
      four transfers; meant as it is, a second reading is asked for, and the
      silent bus that follows makes the read fail. */
  lemma AsWrittenAcceptsUnconfirmed()
    ensures var script := [Ack([]), Ack([0x10]), Ack([]), Ack([0x01])];
            AsWrittenSpec(script, 0, 0x4A).result == Ok(10001)
            && ReadSpec(script, 0, 0x4A).result == Err(AddressNak)
  {
    var script := [Ack([]), Ack([0x10]), Ack([]), Ack([0x01])];
    AsWrittenReadsOnce(script, 0, 0x4A);
    assert ByteAt(script, 1) == 0x10 && ByteAt(script, 3) == 0x01;
    var first := RoundSpec(script, 0, 0x4A);
    assert first.result == Ok(Packed(0x10, 0x01));
    DecodePacked(0x10, 0x01);
    assert ReadSpec(script, 0, 0x4A) == LoopFrom(script, 4, 0x4A, 7, Start0, Packed(0x10, 0x01), [] + first.transfers);
    assert RoundSpec(script, 4, 0x4A).result == Err(AddressNak);
  }

  /** A successful read decodes a value that the last two readings both gave:
      from a given state, either no reading was needed (the state already
      agreed) or the last reading repeats the one before it, which is the
      current value when only one reading was made. */
  predicate Confirmed(script: seq<Reply>, at: nat, address: bv8, n: nat, previous: bv32, current: bv32,
                      result: Result<nat>)
  {
    (n == 0 ==> current == previous && result == Decode(current))
    && (n > 0 ==>
          n >= 4
          && var last := RoundSpec(script, at + n - 4, address).result;
             last.Ok? && result == Decode(last.value)
             && (n == 4 ==> last.value == current)
             && (n != 4 ==> n >= 8 && RoundSpec(script, at + n - 8, address).result == last))
  }

  /** Every successful run of the loop is confirmed in that sense. */
  lemma {:induction false} LoopConfirmed(script: seq<Reply>, at: nat, address: bv8, tries: nat, previous: bv32,
                                         current: bv32, done: seq<Transfer>)
    ensures var r := LoopFrom(script, at, address, tries, previous, current, done);
            |done| <= |r.transfers|
            && (r.result.Ok? ==> Confirmed(script, at, address, |r.transfers| - |done|, previous, current, r.result))
    decreases tries
  {
    var r := LoopFrom(script, at, address, tries, previous, current, done);
    LoopLength(script, at, address, tries, previous, current, done);
    if tries > 0 && current != previous {
      var round := RoundSpec(script, at, address);
      if round.result.Ok? {
        var v := round.result.value;
        var d := done + round.transfers;
        var s := LoopFrom(script, at + 4, address, tries - 1, current, v, d);
        assert r == s;
        LoopConfirmed(script, at + 4, address, tries - 1, current, v, d);
        LoopLength(script, at + 4, address, tries - 1, current, v, d);
        if s.result.Ok? {
          ConfirmedStep(script, at, address, previous, current, v, |s.transfers| - |d|, s.result);
        }
      }
    }
  }

  /** One reading `v` in front of a confirmed rest of the loop. */
  lemma ConfirmedStep(script: seq<Reply>, at: nat, address: bv8, previous: bv32, current: bv32, v: bv32, m: nat,
                      result: Result<nat>)
    requires RoundSpec(script, at, address).result == Ok(v)
    requires Confirmed(script, at + 4, address, m, current, v, result)
    ensures Confirmed(script, at, address, m + 4, previous, current, result)
  {
    if m != 0 {
      assert at + 4 + m - 4 == at + (m + 4) - 4;
      if m != 4 {
        assert at + 4 + m - 8 == at + (m + 4) - 8;
      }
    }
  }
  /** From the start state, whose two values differ and cannot come from the
      device, with any number of tries: a successful loop made at least two
      readings, and the last two agree. */
  lemma LoopConfirmedFromStart(script: seq<Reply>, at: nat, address: bv8, tries: nat, r: Run<nat>)
    requires r == LoopFrom(script, at, address, tries, Start1, Start0, [])
    ensures var n := |r.transfers|;
            r.result.Ok? ==>
              8 <= n
              && var last := RoundSpec(script, at + n - 4, address).result;
                 last.Ok? && RoundSpec(script, at + n - 8, address).result == last
                 && r.result == Decode(last.value)
  {
    LoopConfirmed(script, at, address, tries, Start1, Start0, []);
  }

  /** From the start: a successful read made at least two readings, the last two
      agree, and the result is their decoding. */
  lemma ReadConfirmed(script: seq<Reply>, at: nat, address: bv8)
    ensures var r := ReadSpec(script, at, address);
            var n := |r.transfers|;
            r.result.Ok? ==>
              8 <= n
              && var last := RoundSpec(script, at + n - 4, address).result;
                 last.Ok? && RoundSpec(script, at + n - 8, address).result == last
                 && r.result == Decode(last.value)
  {
    LoopConfirmedFromStart(script, at, address, Tries, ReadSpec(script, at, address));
  }

  /** A read fails with the error of its last transfer, with device_error_2 on
      an overrange reading, or with device_error_1 once all eight readings are
      made. */
  lemma {:induction false} LoopErrors(script: seq<Reply>, at: nat, address: bv8, tries: nat, previous: bv32,
                                      current: bv32, done: seq<Transfer>)
    ensures var r := LoopFrom(script, at, address, tries, previous, current, done);
            var n := |r.transfers| - |done|;
            r.result.Err? ==>
              (r.result.error == DeviceError(1) && n == 4 * tries)
              || r.result.error == DeviceError(2)
              || (n > 0 && ReplyAt(script, at + n - 1) == Nack(r.result.error))
    decreases tries
  {
    var r := LoopFrom(script, at, address, tries, previous, current, done);
    if tries > 0 && current != previous {
      var round := RoundSpec(script, at, address);
      if round.result.Ok? {
        assert r == LoopFrom(script, at + 4, address, tries - 1, current, round.result.value, done + round.transfers);
        LoopErrors(script, at + 4, address, tries - 1, current, round.result.value, done + round.transfers);
      } else {
        RoundError(script, at, address);
      }
    }
  }

  lemma RoundError(script: seq<Reply>, at: nat, address: bv8)
    ensures var round := RoundSpec(script, at, address);
            round.result.Err? ==> ReplyAt(script, at + |round.transfers| - 1) == Nack(round.result.error)
  {
  }

  /** A steady device, one that gives the same two register bytes every time, is
      read in exactly two readings. */
  lemma SteadyDevice(script: seq<Reply>, at: nat, address: bv8, high: bv8, low: bv8)
    requires forall i :: 0 <= i < 2 ==>
               ReplyAt(script, at + 4 * i) == Ack([]) && ReplyAt(script, at + 4 * i + 1) == Ack([high])
               && ReplyAt(script, at + 4 * i + 2) == Ack([]) && ReplyAt(script, at + 4 * i + 3) == Ack([low])
    ensures ReadSpec(script, at, address).result == Max44009Raw(high, low)
    ensures |ReadSpec(script, at, address).transfers| == 8
  {
    assert ReplyAt(script, at + 4 * 0 + 1) == Ack([high]);
    assert ReplyAt(script, at + 4 * 0 + 3) == Ack([low]);
    assert ReplyAt(script, at + 4 * 1) == Ack([]);
    assert ReplyAt(script, at + 4 * 1 + 1) == Ack([high]);
    assert ReplyAt(script, at + 4 * 1 + 3) == Ack([low]);
    var first := RoundSpec(script, at, address);
    var second := RoundSpec(script, at + 4, address);
    assert first.result == Ok(Packed(high, low));
    assert second.result == Ok(Packed(high, low));
    PackedBound(high, low);
    DecodePacked(high, low);
  }

  /** One reading from the script, as a method. */
  method Round(bus: Bus, address: bv8) returns (r: Result<bv32>)
    modifies bus
    ensures var run := RoundSpec(bus.replies, old(bus.position), address);
            r == run.result && bus.trace == old(bus.trace) + run.transfers
            && bus.position == old(bus.position) + |run.transfers|
  {
    var high := RegisterRead(bus, address, 0x03);
    if high.Err? {
      return Err(high.error);
    }
    var low := RegisterRead(bus, address, 0x04);
    if low.Err? {
      return Err(low.error);
    }
    r := Ok(Packed(high.value, low.value));
  }

  /** One pass of the meant loop: a reading, and the state the loop goes on
      from. */
  method Step(bus: Bus, address: bv8, tries: nat, ghost previous: bv32, current: bv32, ghost done: seq<Transfer>)
    returns (r: Result<bv32>)
    requires tries > 0 && current != previous
    modifies bus
    ensures var round := RoundSpec(bus.replies, old(bus.position), address);
            r == round.result && bus.trace == old(bus.trace) + round.transfers
            && bus.position == old(bus.position) + |round.transfers|
            && (r.Err? ==> LoopFrom(bus.replies, old(bus.position), address, tries, previous, current, done)
                           == Run(Err(r.error), done + round.transfers))
            && (r.Ok? ==> LoopFrom(bus.replies, old(bus.position), address, tries, previous, current, done)
                          == LoopFrom(bus.replies, bus.position, address, tries - 1, current, r.value, done + round.transfers))
  {
    r := Round(bus, address);
  }

  /** sensor_max44009_read up to the raw value, with values[1] = values[0] done
      with each reading (before values[0] takes the new one) rather than after
      it. */
  method ReadRaw(bus: Bus, address: bv8) returns (r: Result<nat>)
    modifies bus
    ensures var run := ReadSpec(bus.replies, old(bus.position), address);
            r == run.result && bus.trace == old(bus.trace) + run.transfers
            && bus.position == old(bus.position) + |run.transfers|
  {
    ghost var at := bus.position;
    ghost var before := bus.trace;
    ghost var done: seq<Transfer> := [];
    ghost var goal := ReadSpec(bus.replies, at, address);
    var tries: nat := Tries;
    var current: bv32 := Start0;
    var previous: bv32 := Start1;
    while tries > 0 && current != previous
      invariant bus.position == at + |done| && bus.trace == before + done
      invariant LoopFrom(bus.replies, bus.position, address, tries, previous, current, done) == goal
      decreases tries
    {
      ghost var round := RoundSpec(bus.replies, bus.position, address);
      var reading := Step(bus, address, tries, previous, current, done);
      Concat(before, done, round.transfers);
      done := done + round.transfers;
      if reading.Err? {
        return Err(reading.error);
      }
      previous := current;
      current := reading.value;
      tries := tries - 1;
    }
    if tries == 0 {
      return Err(DeviceError(1));
    }
    r := Decode(current);
  }

  /** One pass of the loop as written. */
  method StepAsWritten(bus: Bus, address: bv8, tries: nat, ghost previous: bv32, ghost current: bv32,
                       ghost done: seq<Transfer>) returns (r: Result<bv32>)
    requires tries > 0 && current != previous
    modifies bus
    ensures var round := RoundSpec(bus.replies, old(bus.position), address);
            r == round.result && bus.trace == old(bus.trace) + round.transfers
            && bus.position == old(bus.position) + |round.transfers|
            && (r.Err? ==> AsWrittenFrom(bus.replies, old(bus.position), address, tries, previous, current, done)
                           == Run(Err(r.error), done + round.transfers))
            && (r.Ok? ==> AsWrittenFrom(bus.replies, old(bus.position), address, tries, previous, current, done)
                          == AsWrittenFrom(bus.replies, bus.position, address, tries - 1, r.value, r.value, done + round.transfers))
  {
    r := Round(bus, address);
  }

  /** sensor_max44009_read up to the raw value, as written: the for loop with
      tries--, values[1] = values[0] as its increment. */
  method ReadRawAsWritten(bus: Bus, address: bv8) returns (r: Result<nat>)
    modifies bus
    ensures var run := AsWrittenSpec(bus.replies, old(bus.position), address);
            r == run.result && bus.trace == old(bus.trace) + run.transfers
            && bus.position == old(bus.position) + |run.transfers|
  {
    ghost var at := bus.position;
    ghost var before := bus.trace;
    ghost var done: seq<Transfer> := [];
    ghost var goal := AsWrittenSpec(bus.replies, at, address);
    var tries: nat := Tries;
    var current: bv32 := Start0;
    var previous: bv32 := Start1;
    while tries > 0 && current != previous
      invariant bus.position == at + |done| && bus.trace == before + done
      invariant AsWrittenFrom(bus.replies, bus.position, address, tries, previous, current, done) == goal
      decreases tries
    {
      ghost var round := RoundSpec(bus.replies, bus.position, address);
      var reading := StepAsWritten(bus, address, tries, previous, current, done);
      Concat(before, done, round.transfers);
      done := done + round.transfers;
      if reading.Err? {
        return Err(reading.error);
      }
      current := reading.value;
      tries := tries - 1;
      previous := current;
    }
    if tries == 0 {
      return Err(DeviceError(1));
    }
    r := Decode(current);
  }
}
