/** The state io_mcp.c keeps per MCP23017 instance, and the entry points that
    use it: io_mcp_init, io_mcp_periodic, io_mcp_read_pin and io_mcp_write_pin. */
module McpDriver {
  import opened I2c
  import opened Sensors
  import opened Mcp

  // ------------------------------------------------------ machine integers

  const Modulus: int := 0x1_0000_0000

  /** uint32_t. */
  type U32 = x: int | 0 <= x < 0x1_0000_0000

  /** int, 32 bits wide on the target. */
  type I32 = x: int | -0x8000_0000 <= x < 0x8000_0000

  /** Conversion to uint32_t: reduction modulo 2^32. */
  function Wrap(x: int): U32
  {
    x % Modulus
  }

  /** Conversion of a uint32_t to int as the target's compiler does it: two's
      complement. */
  function Signed(x: U32): I32
  {
    if x < 0x8000_0000 then x else x - Modulus
  }

  /** A counter read back as an int and written again is the same counter ... */
  lemma ReadWriteCounter(x: U32)
    ensures Wrap(Signed(x)) == x
  {
  }

  /** ... and an int written to a counter reads back unchanged. */
  lemma WriteReadCounter(v: I32)
    ensures Signed(Wrap(v)) == v
  {
  }

  // ------------------------------------------------------- per-pin counter

  /** mcp_data_pin_t. */
  datatype PinState = PinState(counter: U32, debounce: U32)

  /** Whether the interrupt flags of a poll show a falling edge on the pin:
      its INTF bit set and its INTCAP bit (the level captured) clear. */
  predicate Fired(intf: seq<bv8>, intcap: seq<bv8>, pin: nat)
    requires |intf| == 2 && |intcap| == 2 && pin < PinCount
  {
    BitOf(intf[Bank(pin) as int], BankPin(pin)) && !BitOf(intcap[Bank(pin) as int], BankPin(pin))
  }

  /** Whether a poll counts the pin: a counter pin, not debouncing, that fired. */
  predicate Counts(config: PinConfig, s: PinState, fired: bool)
  {
    config.mode == Counter && s.debounce == 0 && fired
  }

  /** One poll of one pin (the body of io_mcp_periodic's loop); a poll is
      10 ms, and a count starts a debounce period of `speed` ms. */
  function Tick(config: PinConfig, s: PinState, fired: bool): PinState
  {
    if config.mode != Counter then s
    else if s.debounce != 0 then PinState(s.counter, if s.debounce >= 10 then s.debounce - 10 else 0)
    else if fired then PinState(Wrap(s.counter + 1), Wrap(config.speed))
    else s
  }

  /** Successive polls of one pin. */
  function Ticks(config: PinConfig, s: PinState, fired: seq<bool>): PinState
    decreases |fired|
  {
    if fired == [] then s else Ticks(config, Tick(config, s, fired[0]), fired[1..])
  }

  /** How many of successive polls count the pin. */
  function CountOf(config: PinConfig, s: PinState, fired: seq<bool>): (n: nat)
    ensures n <= |fired|
    decreases |fired|
  {
    if fired == [] then 0
    else (if Counts(config, s, fired[0]) then 1 else 0) + CountOf(config, Tick(config, s, fired[0]), fired[1..])
  }

  /** A poll counts a pin at most once, and changes its counter exactly when
      it counts it; a pin that is not a counter is left alone. */
  lemma TickCounts(config: PinConfig, s: PinState, fired: bool)
    ensures var t := Tick(config, s, fired);
            (Counts(config, s, fired) ==> t.counter == Wrap(s.counter + 1) && t.debounce == Wrap(config.speed))
            && (!Counts(config, s, fired) ==> t.counter == s.counter && t.debounce <= s.debounce)
            && (config.mode != Counter ==> t == s)
  {
  }

  /** Over successive polls the counter goes up by the number of polls that
      counted, modulo 2^32. */
  lemma {:induction false} TicksCounter(config: PinConfig, s: PinState, fired: seq<bool>)
    ensures Ticks(config, s, fired).counter == Wrap(s.counter + CountOf(config, s, fired))
    decreases |fired|
  {
    if fired != [] {
      var t := Tick(config, s, fired[0]);
      TickCounts(config, s, fired[0]);
      TicksCounter(config, t, fired[1..]);
      var n := CountOf(config, t, fired[1..]);
      if Counts(config, s, fired[0]) {
        assert Wrap(Wrap(s.counter + 1) + n) == Wrap(s.counter + 1 + n);
      }
    }
  }

  /** While a counter pin is debouncing nothing is counted, whatever the chip
      reports: each poll takes 10 ms off the debounce time, down to 0. */
  lemma {:induction false} Quiet(config: PinConfig, s: PinState, fired: seq<bool>)
    requires config.mode == Counter && 10 * |fired| < s.debounce + 10
    ensures CountOf(config, s, fired) == 0
    ensures Ticks(config, s, fired) == PinState(s.counter, if s.debounce >= 10 * |fired| then s.debounce - 10 * |fired| else 0)
    decreases |fired|
  {
    if fired != [] {
      var t := Tick(config, s, fired[0]);
      assert s.debounce != 0;
      Quiet(config, t, fired[1..]);
    }
  }

  /** After a count, the next count is at least `speed` ms (speed / 10 polls,
      rounded up) away: the polls in between leave the counter one up. */
  lemma Spacing(config: PinConfig, s: PinState, fired: bool, later: seq<bool>)
    requires Counts(config, s, fired) && 0 <= config.speed < Modulus
    requires 10 * |later| < config.speed + 10
    ensures CountOf(config, s, [fired] + later) == 1
    ensures Ticks(config, s, [fired] + later).counter == Wrap(s.counter + 1)
  {
    var t := Tick(config, s, fired);
    Quiet(config, t, later);
    assert ([fired] + later)[1..] == later;
  }

  // ------------------------------------------------------------------ poll

  /** What io_mcp_periodic reads: INTF and INTCAP of both banks, and the
      transfers it took. */
  datatype Poll = Poll(intf: seq<bv8>, intcap: seq<bv8>, transfers: seq<Transfer>)

  /** The value a read_register call leaves in its variable: the byte read, or
      what the variable held before when the read fails. */
  function Latch(read: Run<bv8>, stale: bv8): bv8
  {
    if read.result.Ok? then read.result.value else stale
  }

  /** The two reads of one register pair (bank A, then bank B), each falling
      back on its stale value when it fails. */
  function PairSpec(script: seq<Reply>, at: nat, address: bv8, base: bv8, staleA: bv8, staleB: bv8): (p: Run<seq<bv8>>)
    ensures p.result.Ok? && |p.result.value| == 2
    ensures 2 <= |p.transfers| <= 4
  {
    var a := RegisterReadSpec(script, at, address, Reg(base, 0));
    var b := RegisterReadSpec(script, at + |a.transfers|, address, Reg(base, 1));
    Run(Ok([Latch(a, staleA), Latch(b, staleB)]), a.transfers + b.transfers)
  }

  /** The four reads of io_mcp_periodic, whose errors are ignored. `stale`
      stands for what intf[0], intf[1], intcap[0] and intcap[1] hold before
      they are read: the C code leaves them uninitialised, so only their low
      byte matters to the bit tests. */
  function PollSpec(script: seq<Reply>, at: nat, address: bv8, stale: seq<bv8>): (p: Poll)
    requires |stale| == 4
    ensures |p.intf| == 2 && |p.intcap| == 2
    ensures 4 <= |p.transfers| <= 8
  {
    var f := PairSpec(script, at, address, Intf, stale[0], stale[1]);
    var c := PairSpec(script, at + |f.transfers|, address, Intcap, stale[2], stale[3]);
    Poll(f.result.value, c.result.value, f.transfers + c.transfers)
  }

  /** On a chip that answers every transfer the poll reads INTFA, INTFB,
      INTCAPA and INTCAPB (0x0e to 0x11) in that order. */
  lemma PollAnswered(script: seq<Reply>, at: nat, address: bv8, stale: seq<bv8>)
    requires |stale| == 4
    requires forall j :: at <= j < at + 8 ==> ReplyAt(script, j).Ack?
    ensures var p := PollSpec(script, at, address, stale);
            p.intf == [ByteAt(script, at + 1), ByteAt(script, at + 3)]
            && p.intcap == [ByteAt(script, at + 5), ByteAt(script, at + 7)]
            && p.transfers == [Write(address, [0x0e]), Read(address, 1), Write(address, [0x0f]), Read(address, 1),
                               Write(address, [0x10]), Read(address, 1), Write(address, [0x11]), Read(address, 1)]
  {
    assert ReplyAt(script, at).Ack? && ReplyAt(script, at + 1).Ack?;
    assert ReplyAt(script, at + 2).Ack? && ReplyAt(script, at + 3).Ack?;
    assert ReplyAt(script, at + 4).Ack? && ReplyAt(script, at + 5).Ack?;
    assert ReplyAt(script, at + 6).Ack? && ReplyAt(script, at + 7).Ack?;
  }

  /** A chip that does not acknowledge leaves every flag at its stale value. */
  lemma PollSilent(script: seq<Reply>, at: nat, address: bv8, stale: seq<bv8>)
    requires |stale| == 4
    requires forall j :: at <= j < at + 4 ==> ReplyAt(script, j).Nack?
    ensures var p := PollSpec(script, at, address, stale);
            p.intf == stale[..2] && p.intcap == stale[2..] && |p.transfers| == 4
  {
    assert ReplyAt(script, at).Nack? && ReplyAt(script, at + 1).Nack?;
    assert ReplyAt(script, at + 2).Nack? && ReplyAt(script, at + 3).Nack?;
  }

  /** Two read_register calls of io_mcp_periodic, bank A then bank B. */
  method ReadPair(bus: Bus, address: bv8, base: bv8, staleA: bv8, staleB: bv8) returns (values: seq<bv8>)
    modifies bus
    ensures var p := PairSpec(bus.replies, old(bus.position), address, base, staleA, staleB);
            values == p.result.value
            && bus.trace == old(bus.trace) + p.transfers && bus.position == old(bus.position) + |p.transfers|
  {
    ghost var before := bus.trace;
    ghost var a := RegisterReadSpec(bus.replies, bus.position, address, Reg(base, 0));
    var first := RegisterRead(bus, address, Reg(base, 0));
    ghost var b := RegisterReadSpec(bus.replies, bus.position, address, Reg(base, 1));
    var second := RegisterRead(bus, address, Reg(base, 1));
    Concat(before, a.transfers, b.transfers);
    values := [if first.Ok? then first.value else staleA, if second.Ok? then second.value else staleB];
  }

  /** The four read_register calls of io_mcp_periodic. */
  method PollFlags(bus: Bus, address: bv8, stale: seq<bv8>) returns (intf: seq<bv8>, intcap: seq<bv8>)
    requires |stale| == 4
    modifies bus
    ensures var p := PollSpec(bus.replies, old(bus.position), address, stale);
            intf == p.intf && intcap == p.intcap
            && bus.trace == old(bus.trace) + p.transfers && bus.position == old(bus.position) + |p.transfers|
  {
    ghost var before := bus.trace;
    ghost var f := PairSpec(bus.replies, bus.position, address, Intf, stale[0], stale[1]);
    intf := ReadPair(bus, address, Intf, stale[0], stale[1]);
    ghost var c := PairSpec(bus.replies, bus.position, address, Intcap, stale[2], stale[3]);
    intcap := ReadPair(bus, address, Intcap, stale[2], stale[3]);
    Concat(before, f.transfers, c.transfers);
  }

  // ----------------------------------------------------------- read / write

  /** The bus side of io_mcp_read_pin: a digital pin reads GPIO of its bank and
      gives its bit as 0 or 1; a counter gives the software counter without a
      transfer; any other mode is io_error. */
  function ReadPinSpec(script: seq<Reply>, at: nat, address: bv8, config: PinConfig, s: PinState, pin: nat): (r: IoRun<I32>)
    requires pin < PinCount
  {
    if config.mode == InputDigital || config.mode == OutputDigital then
      var read := RegisterReadSpec(script, at, address, Reg(Gpio, Bank(pin)));
      IoRun(if read.result.Ok? then IoOk(if BitOf(read.result.value, BankPin(pin)) then 1 else 0) else IoError, read.transfers)
    else if config.mode == Counter then IoRun(IoOk(Signed(s.counter)), [])
    else IoRun(IoError, [])
  }

  /** A digital pin reads 0 or 1, the level of its bit in GPIO when the read
      succeeds; a counter reads its counter back as it was written; other
      modes fail without touching the bus. */
  lemma ReadPinValues(script: seq<Reply>, at: nat, address: bv8, config: PinConfig, s: PinState, pin: nat)
    requires pin < PinCount
    ensures var r := ReadPinSpec(script, at, address, config, s, pin);
            ((config.mode == InputDigital || config.mode == OutputDigital) ==>
               (r.result.IoOk? <==> ReplyAt(script, at).Ack? && ReplyAt(script, at + 1).Ack?)
               && |r.transfers| >= 1 && r.transfers[0] == Write(address, [Reg(Gpio, Bank(pin))])
               && (r.result.IoOk? ==> (r.result.value == 1 <==> BitOf(ByteAt(script, at + 1), BankPin(pin)))
                                      && 0 <= r.result.value <= 1))
            && (config.mode == Counter ==> r.transfers == [] && r.result.IoOk? && Wrap(r.result.value) == s.counter)
            && (config.mode !in {InputDigital, OutputDigital, Counter} ==> r == IoRun(IoError, []))
  {
  }

  /** The bus side of io_mcp_write_pin once the cache byte is updated: an
      output writes the whole cache byte of its bank to GPIO; a counter needs
      no transfer; any other mode is io_error. */
  function WritePinSpec(script: seq<Reply>, at: nat, address: bv8, config: PinConfig, pin: nat, cached: bv8): (r: IoRun<()>)
    requires pin < PinCount
  {
    if config.mode == OutputDigital then
      IoRun(if ReplyAt(script, at).Ack? then IoOk(()) else IoError, [Write(address, [Reg(Gpio, Bank(pin)), cached])])
    else if config.mode == Counter then IoRun(IoOk(()), [])
    else IoRun(IoError, [])
  }

  /** The cache byte after writing a pin: its bit set for a non-zero value,
      cleared for zero. */
  function CacheAfter(cached: bv8, bankpin: bv8, on: bool): bv8
    requires bankpin < 8
  {
    if on then cached | Mask(bankpin) else cached & !Mask(bankpin)
  }

  /** Writing a pin changes its own bit of the cache byte and no other. */
  lemma CacheAfterBits(cached: bv8, bankpin: bv8, on: bool, i: bv8)
    requires bankpin < 8 && i < 8
    ensures BitOf(CacheAfter(cached, bankpin, on), i) == if i == bankpin then on else BitOf(cached, i)
  {
    ClearSetBits(cached, if on then 0 else Mask(bankpin), if on then Mask(bankpin) else 0, i);
    MaskBits(bankpin, i);
    assert !BitOf(0, i);
    assert CacheAfter(cached, bankpin, on) == ClearSetValue(cached, if on then 0 else Mask(bankpin), if on then Mask(bankpin) else 0);
  }

  /** An output pin's write puts the cache byte of its bank on the chip's GPIO
      register, and succeeds exactly when the chip acknowledges. */
  lemma WritePinOutput(script: seq<Reply>, at: nat, address: bv8, config: PinConfig, pin: nat, cached: bv8)
    requires pin < PinCount && config.mode == OutputDigital
    ensures var r := WritePinSpec(script, at, address, config, pin, cached);
            r.transfers == [Write(address, [Reg(Gpio, Bank(pin)), cached])]
            && (r.result.IoOk? <==> ReplyAt(script, at).Ack?)
  {
  }

  // ------------------------------------------------------------------ init

  /** IOCON bits. */
  const Intpol: bv8 := 1
  const Disslw: bv8 := 4

  /** The IOCON value io_mcp_init writes: active-high interrupt output and
      slew rate control off. */
  const IoconValue: bv8 := (1 << Disslw) | (1 << Intpol)

  /** The bus side of io_mcp_init: write IOCON of bank A, read IOCON back
      through the bank B address, and fail unless the value came back. */
  function InitSpec(script: seq<Reply>, at: nat, address: bv8): (r: IoRun<()>)
    ensures |r.transfers| >= 1 && r.transfers[0] == Write(address, [0x0a, 0x12])
    ensures r.result.IoOk? <==> (ReplyAt(script, at).Ack? && ReplyAt(script, at + 1).Ack? && ReplyAt(script, at + 2).Ack?
                                 && ByteAt(script, at + 2) == 0x12)
    ensures r.result.IoOk? ==> r.transfers == [Write(address, [0x0a, 0x12]), Write(address, [0x0b]), Read(address, 1)]
  {
    var write := [Write(address, [Reg(Iocon, 0), IoconValue])];
    if ReplyAt(script, at).Nack? then IoRun(IoError, write)
    else
      var back := RegisterReadSpec(script, at + 1, address, Reg(Iocon, 1));
      IoRun(if back.result.Ok? && back.result.value == IoconValue then IoOk(()) else IoError, write + back.transfers)
  }

  /** The tables of io_mcp.c for the instances first .. first + size - 1:
      mcp_data_pin_table and pin_output_cache. */
  class Driver {
    const first: nat
    const size: nat
    const pins: array2<PinState>
    const cache: array2<bv8>

    ghost predicate Valid()
      reads this
    {
      pins.Length0 == size && pins.Length1 == PinCount && cache.Length0 == size && cache.Length1 == 2
    }

    /** Static storage starts out zero. */
    constructor (first: nat, size: nat)
      ensures Valid() && this.first == first && this.size == size
      ensures forall i, p :: 0 <= i < size && 0 <= p < PinCount ==> pins[i, p] == PinState(0, 0)
      ensures forall i, b :: 0 <= i < size && 0 <= b < 2 ==> cache[i, b] == 0
    {
      this.first := first;
      this.size := size;
      pins := new PinState[size, PinCount]((i, p) => PinState(0, 0));
      cache := new bv8[size, 2]((i, b) => 0);
    }

    /** io_mcp_init: after the IOCON check succeeds, zero the counters and
        debounce times of the instance's 16 pins and its two cache bytes,
        indexed by instance - first; on failure nothing changes. */
    method Init(bus: Bus, instance: nat, address: bv8) returns (r: IoResult<()>)
      requires Valid() && first <= instance < first + size
      modifies bus, pins, cache
      ensures var run := InitSpec(bus.replies, old(bus.position), address);
              r == run.result && bus.trace == old(bus.trace) + run.transfers
              && bus.position == old(bus.position) + |run.transfers|
      ensures r.IoOk? ==> (forall i, p :: i == instance - first && 0 <= p < PinCount ==> pins[i, p] == PinState(0, 0))
                          && cache[instance - first, 0] == 0 && cache[instance - first, 1] == 0
      ensures forall i, p :: 0 <= i < size && 0 <= p < PinCount && (r.IoError? || i != instance - first) ==>
                pins[i, p] == old(pins[i, p])
      ensures forall i, b :: 0 <= i < size && 0 <= b < 2 && (r.IoError? || i != instance - first) ==>
                cache[i, b] == old(cache[i, b])
    {
      ghost var before := bus.trace;
      var sent := bus.Send(address, [Reg(Iocon, 0), IoconValue]);
      if sent.Err? {
        return IoError;
      }
      ghost var back' := RegisterReadSpec(bus.replies, bus.position, address, Reg(Iocon, 1));
      var back := RegisterRead(bus, address, Reg(Iocon, 1));
      Concat(before, [Write(address, [Reg(Iocon, 0), IoconValue])], back'.transfers);
      if back.Err? || back.value != IoconValue {
        return IoError;
      }
      var row := instance - first;
      ghost var trace, position := bus.trace, bus.position;
      for pin := 0 to PinCount
        invariant bus.trace == trace && bus.position == position && unchanged(cache)
        invariant forall p :: 0 <= p < pin ==> pins[row, p] == PinState(0, 0)
        invariant forall i, p :: 0 <= i < size && 0 <= p < PinCount && (i != row || p >= pin) ==>
                    pins[i, p] == old(pins[i, p])
      {
        pins[row, pin] := PinState(0, 0);
      }
      cache[row, 0] := 0;
      cache[row, 1] := 0;
      r := IoOk(());
    }

    /** io_mcp_periodic: poll the interrupt flags, then take each of the 16
        pins through one tick, indexing the pin table by instance as the C code
        does. The result says whether some pin counted (counter_triggered). */
    method Periodic(bus: Bus, instance: nat, address: bv8, configs: seq<PinConfig>, stale: seq<bv8>) returns (triggered: bool)
      requires Valid() && instance < size && |configs| == PinCount && |stale| == 4
      modifies bus, pins
      ensures var p := PollSpec(bus.replies, old(bus.position), address, stale);
              bus.trace == old(bus.trace) + p.transfers && bus.position == old(bus.position) + |p.transfers|
              && (forall q :: 0 <= q < PinCount ==>
                    pins[instance, q] == Tick(configs[q], old(pins[instance, q]), Fired(p.intf, p.intcap, q)))
              && (triggered <==> exists q :: 0 <= q < PinCount && Counts(configs[q], old(pins[instance, q]), Fired(p.intf, p.intcap, q)))
      ensures forall i, q :: 0 <= i < size && 0 <= q < PinCount && i != instance ==> pins[i, q] == old(pins[i, q])
    {
      var intf, intcap := PollFlags(bus, address, stale);
      triggered := false;
      ghost var trace, position := bus.trace, bus.position;
      for pin := 0 to PinCount
        invariant bus.trace == trace && bus.position == position
        invariant forall q :: 0 <= q < pin ==> pins[instance, q] == Tick(configs[q], old(pins[instance, q]), Fired(intf, intcap, q))
        invariant forall i, q :: 0 <= i < size && 0 <= q < PinCount && (i != instance || q >= pin) ==>
                    pins[i, q] == old(pins[i, q])
        invariant triggered <==> exists q :: 0 <= q < pin && Counts(configs[q], old(pins[instance, q]), Fired(intf, intcap, q))
      {
        var counted := TickPin(instance, pin, configs[pin], intf, intcap);
        triggered := triggered || counted;
      }
    }

    /** One pass of io_mcp_periodic's loop: pin `pin` of the instance's row. */
    method TickPin(instance: nat, pin: nat, config: PinConfig, intf: seq<bv8>, intcap: seq<bv8>) returns (counted: bool)
      requires Valid() && instance < size && pin < PinCount && |intf| == 2 && |intcap| == 2
      modifies pins
      ensures pins[instance, pin] == Tick(config, old(pins[instance, pin]), Fired(intf, intcap, pin))
      ensures counted == Counts(config, old(pins[instance, pin]), Fired(intf, intcap, pin))
      ensures forall i, q :: 0 <= i < size && 0 <= q < PinCount && (i != instance || q != pin) ==> pins[i, q] == old(pins[i, q])
    {
      var s := pins[instance, pin];
      counted := false;
      if config.mode == Counter {
        if s.debounce != 0 {
          if s.debounce >= 10 {
            pins[instance, pin] := PinState(s.counter, s.debounce - 10);
          } else {
            pins[instance, pin] := PinState(s.counter, 0);
          }
        } else {
          if Fired(intf, intcap, pin) {
            pins[instance, pin] := PinState(Wrap(s.counter + 1), Wrap(config.speed));
            counted := true;
          }
        }
      }
    }

    /** io_mcp_read_pin: no state changes. */
    method ReadPin(bus: Bus, instance: nat, address: bv8, config: PinConfig, pin: nat) returns (r: IoResult<I32>)
      requires Valid() && pin < PinCount && (config.mode == Counter ==> instance < size)
      modifies bus
      ensures var s := if instance < size then pins[instance, pin] else PinState(0, 0);
              var run := ReadPinSpec(bus.replies, old(bus.position), address, config, s, pin);
              r == run.result && bus.trace == old(bus.trace) + run.transfers
              && bus.position == old(bus.position) + |run.transfers|
    {
      var bank := Bank(pin);
      var bankpin := BankPin(pin);
      if config.mode == InputDigital || config.mode == OutputDigital {
        var tv := RegisterRead(bus, address, Reg(Gpio, bank));
        if tv.Err? {
          return IoError;
        }
        r := IoOk(if tv.value & Mask(bankpin) != 0 then 1 else 0);
      } else if config.mode == Counter {
        r := IoOk(Signed(pins[instance, pin].counter));
      } else {
        r := IoError;
      }
    }

    /** io_mcp_write_pin: set or clear the pin's bit of the cache byte of its
        bank (indexed by instance - first), whatever the mode; then an output
        writes the cache byte to GPIO, a counter takes the value (indexed by
        instance), and any other mode is io_error. */
    method WritePin(bus: Bus, instance: nat, address: bv8, config: PinConfig, pin: nat, value: I32) returns (r: IoResult<()>)
      requires Valid() && pin < PinCount && first <= instance < first + size && (config.mode == Counter ==> instance < size)
      modifies bus, pins, cache
      ensures cache[instance - first, Bank(pin) as int] == CacheAfter(old(cache[instance - first, Bank(pin) as int]), BankPin(pin), value != 0)
      ensures forall i, b :: 0 <= i < size && 0 <= b < 2 && (i != instance - first || b != Bank(pin) as int) ==>
                cache[i, b] == old(cache[i, b])
      ensures config.mode == Counter ==> pins[instance, pin] == PinState(Wrap(value), old(pins[instance, pin].debounce))
      ensures forall i, q :: 0 <= i < size && 0 <= q < PinCount && (config.mode != Counter || i != instance || q != pin) ==>
                pins[i, q] == old(pins[i, q])
      ensures var run := WritePinSpec(bus.replies, old(bus.position), address, config, pin, cache[instance - first, Bank(pin) as int]);
              r == run.result && bus.trace == old(bus.trace) + run.transfers
              && bus.position == old(bus.position) + |run.transfers|
    {
      var bank := Bank(pin) as int;
      var row := instance - first;
      SetCacheBit(row, bank, BankPin(pin), value != 0);
      if config.mode == OutputDigital {
        var sent := bus.Send(address, [Reg(Gpio, bank as bv8), cache[row, bank]]);
        r := if sent.Ok? then IoOk(()) else IoError;
      } else if config.mode == Counter {
        pins[instance, pin] := PinState(Wrap(value), pins[instance, pin].debounce);
        r := IoOk(());
      } else {
        r := IoError;
      }
    }

    /** The cache update of io_mcp_write_pin. */
    method SetCacheBit(row: nat, bank: nat, bankpin: bv8, on: bool)
      requires Valid() && row < size && bank < 2 && bankpin < 8
      modifies cache
      ensures cache[row, bank] == CacheAfter(old(cache[row, bank]), bankpin, on)
      ensures forall i, b :: 0 <= i < size && 0 <= b < 2 && (i != row || b != bank) ==> cache[i, b] == old(cache[i, b])
    {
      if on {
        cache[row, bank] := cache[row, bank] | Mask(bankpin);
      } else {
        cache[row, bank] := cache[row, bank] & !Mask(bankpin);
      }
    }
  }
}
