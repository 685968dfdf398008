/** io_mcp.c: the MCP23017 16-pin GPIO expander as an I/O driver. The chip sits
    on the scripted I2C bus; the driver keeps, per instance, a software counter
    and a debounce per pin and a cache of the two output latches. */
module Mcp {
  import opened I2c
  import opened Sensors
  import opened Decoders

  /** io_error_t: io_ok, or io_error (the message text is not modelled). */
  datatype IoResult<T> = IoOk(value: T) | IoError

  /** What a driver operation does with a given script. */
  datatype IoRun<T> = IoRun(result: IoResult<T>, transfers: seq<Transfer>)

  datatype Option<T> = None | Some(value: T)

  // ---------------------------------------------------------- pins and banks

  /** The chip's 16 pins are two banks (A and B) of eight. */
  const PinCount: nat := 16

  /** bank = (pin & 0x08) >> 3. */
  function Bank(pin: nat): (bank: bv8)
    requires pin < PinCount
    ensures bank < 2
  {
    (ByteOf(pin) & 0x08) >> 3
  }

  /** bankpin = pin & 0x07. */
  function BankPin(pin: nat): (bankpin: bv8)
    requires pin < PinCount
    ensures bankpin < 8
  {
    ByteOf(pin) & 0x07
  }

  lemma SplitNibble(b: bv8)
    requires b < 16
    ensures ((b & 0x08) >> 3) as nat * 8 + (b & 0x07) as nat == b as nat
  {
  }

  /** Bank and bank pin are pin / 8 and pin % 8: every pin is 8 * bank + bankpin ... */
  lemma {:induction false} PinSplit(pin: nat)
    requires pin < PinCount
    ensures pin == 8 * Bank(pin) as nat + BankPin(pin) as nat
  {
    SplitNibble(ByteOf(pin));
  }

  /** ... and every (bank, bankpin) is the bank and bank pin of that pin. */
  lemma PinJoin(bank: nat, bankpin: nat)
    requires bank < 2 && bankpin < 8
    ensures Bank(8 * bank + bankpin) as nat == bank && BankPin(8 * bank + bankpin) as nat == bankpin
  {
    PinSplit(8 * bank + bankpin);
  }

  /** 1 << bankpin. */
  function Mask(bankpin: bv8): bv8
    requires bankpin < 8
  {
    1 << bankpin
  }

  /** Bit i of a register value. */
  predicate BitOf(x: bv8, i: bv8)
    requires i < 8
  {
    x & Mask(i) != 0
  }

  /** The mask has exactly one bit set: the bank pin's. */
  lemma MaskBits(bankpin: bv8, i: bv8)
    requires bankpin < 8 && i < 8
    ensures BitOf(Mask(bankpin), i) <==> i == bankpin
  {
  }

  // --------------------------------------------------------------- registers

  /** The register bases of bank A (IOCON.BANK = 0: bank B is at base + 1). */
  const Iodir: bv8 := 0x00
  const Ipol: bv8 := 0x02
  const Gpinten: bv8 := 0x04
  const Defval: bv8 := 0x06
  const Intcon: bv8 := 0x08
  const Iocon: bv8 := 0x0a
  const Gppu: bv8 := 0x0c
  const Intf: bv8 := 0x0e
  const Intcap: bv8 := 0x10
  const Gpio: bv8 := 0x12
  const Olat: bv8 := 0x14

  const Bases: set<bv8> := {Iodir, Ipol, Gpinten, Defval, Intcon, Iocon, Gppu, Intf, Intcap, Gpio, Olat}

  /** IODIR(s) … OLAT(s): the register of a bank. */
  function Reg(base: bv8, bank: bv8): bv8
    requires bank < 2
  {
    base + bank
  }

  /** The 22 register addresses are all different: a register is one base in
      one bank. */
  lemma RegisterAddresses(base1: bv8, bank1: bv8, base2: bv8, bank2: bv8)
    requires base1 in Bases && base2 in Bases && bank1 < 2 && bank2 < 2
    ensures Reg(base1, bank1) == Reg(base2, bank2) <==> base1 == base2 && bank1 == bank2
  {
  }

  // ------------------------------------------------------ clear_set_register

  /** The value clear_set_register writes back: the clear mask's bits cleared,
      then the set mask's bits set. */
  function ClearSetValue(current: bv8, clearMask: bv8, setMask: bv8): bv8
  {
    (current & !clearMask) | setMask
  }

  /** Bit by bit: set wins over clear, and a bit in neither mask keeps its value. */
  lemma ClearSetBits(current: bv8, clearMask: bv8, setMask: bv8, i: bv8)
    requires i < 8
    ensures BitOf(ClearSetValue(current, clearMask, setMask), i) <==>
              BitOf(setMask, i) || (BitOf(current, i) && !BitOf(clearMask, i))
  {
    var m := Mask(i);
    assert m == 1 || m == 2 || m == 4 || m == 8 || m == 16 || m == 32 || m == 64 || m == 128;
  }

  /** clear_set_register: read the register, write back the new value. A failed
      send of the register number or a failed receive is io_error and nothing is
      written; otherwise the result is that of the write. */
  function ClearSetSpec(script: seq<Reply>, at: nat, address: bv8, register: bv8, clearMask: bv8, setMask: bv8): (r: IoRun<()>)
    ensures 1 <= |r.transfers| <= 3 && r.transfers[0] == Write(address, [register])
    ensures |r.transfers| == 3 <==> ReplyAt(script, at).Ack? && ReplyAt(script, at + 1).Ack?
    ensures |r.transfers| == 3 ==>
              r.transfers[2] == Write(address, [register, ClearSetValue(ByteAt(script, at + 1), clearMask, setMask)])
    ensures |r.transfers| < 3 ==> r.result == IoError
    ensures r.result.IoOk? <==> ReplyAt(script, at).Ack? && ReplyAt(script, at + 1).Ack? && ReplyAt(script, at + 2).Ack?
  {
    var read := RegisterReadSpec(script, at, address, register);
    if read.result.Err? then IoRun(IoError, read.transfers)
    else
      var value := ClearSetValue(read.result.value, clearMask, setMask);
      IoRun(if ReplyAt(script, at + 2).Ack? then IoOk(()) else IoError, read.transfers + [Write(address, [register, value])])
  }

  method ClearSet(bus: Bus, address: bv8, register: bv8, clearMask: bv8, setMask: bv8) returns (r: IoResult<()>)
    modifies bus
    ensures var run := ClearSetSpec(bus.replies, old(bus.position), address, register, clearMask, setMask);
            r == run.result && bus.trace == old(bus.trace) + run.transfers
            && bus.position == old(bus.position) + |run.transfers|
  {
    var value := RegisterRead(bus, address, register);
    if value.Err? {
      return IoError;
    }
    var sent := bus.Send(address, [register, ClearSetValue(value.value, clearMask, setMask)]);
    r := if sent.Ok? then IoOk(()) else IoError;
  }

  /** One clear_set_register call: register, clear mask, set mask. */
  datatype Op = Op(register: bv8, clearMask: bv8, setMask: bv8)

  /** A list of clear_set_register calls, stopping at the first failure. */
  function OpsFrom(script: seq<Reply>, at: nat, address: bv8, ops: seq<Op>, done: seq<Transfer>): (r: IoRun<()>)
    ensures |done| < |r.transfers| || (ops == [] && r.transfers == done)
    decreases |ops|
  {
    if ops == [] then IoRun(IoOk(()), done)
    else
      var one := ClearSetSpec(script, at, address, ops[0].register, ops[0].clearMask, ops[0].setMask);
      if one.result.IoError? then IoRun(IoError, done + one.transfers)
      else OpsFrom(script, at + |one.transfers|, address, ops[1..], done + one.transfers)
  }

  /** A list of calls that succeeds starts with a first call that succeeds in
      three transfers, and goes on with the rest. */
  lemma OpsStep(script: seq<Reply>, at: nat, address: bv8, ops: seq<Op>, done: seq<Transfer>)
    requires ops != []
    ensures var one := ClearSetSpec(script, at, address, ops[0].register, ops[0].clearMask, ops[0].setMask);
            var r := OpsFrom(script, at, address, ops, done);
            r.result.IoOk? ==>
              one.result.IoOk? && |one.transfers| == 3
              && r == OpsFrom(script, at + 3, address, ops[1..], done + one.transfers)
  {
  }

  /** When every call succeeds, there are three transfers per op after what was
      done before. */
  lemma {:induction false} OpsLength(script: seq<Reply>, at: nat, address: bv8, ops: seq<Op>, done: seq<Transfer>)
    ensures var r := OpsFrom(script, at, address, ops, done);
            r.result.IoOk? ==> |r.transfers| == |done| + 3 * |ops| && r.transfers[..|done|] == done
    decreases |ops|
  {
    if ops != [] {
      var one := ClearSetSpec(script, at, address, ops[0].register, ops[0].clearMask, ops[0].setMask);
      OpsStep(script, at, address, ops, done);
      if OpsFrom(script, at, address, ops, done).result.IoOk? {
        var rest := done + one.transfers;
        OpsLength(script, at + 3, address, ops[1..], rest);
        var r := OpsFrom(script, at + 3, address, ops[1..], rest);
        assert r.transfers[..|done|] == r.transfers[..|rest|][..|done|];
      }
    }
  }

  /** ... and the first op is a read of its register and a write of it, the
      write carrying the value read with the op's masks applied ... */
  lemma OpsWriteFirst(script: seq<Reply>, at: nat, address: bv8, ops: seq<Op>, done: seq<Transfer>)
    requires ops != []
    ensures var r := OpsFrom(script, at, address, ops, done);
            r.result.IoOk? ==>
              |done| + 2 < |r.transfers|
              && r.transfers[|done|] == Write(address, [ops[0].register])
              && r.transfers[|done| + 2]
                 == Write(address, [ops[0].register, ClearSetValue(ByteAt(script, at + 1), ops[0].clearMask, ops[0].setMask)])
  {
    var one := ClearSetSpec(script, at, address, ops[0].register, ops[0].clearMask, ops[0].setMask);
    OpsStep(script, at, address, ops, done);
    if OpsFrom(script, at, address, ops, done).result.IoOk? {
      var rest := done + one.transfers;
      OpsLength(script, at + 3, address, ops[1..], rest);
      var r := OpsFrom(script, at + 3, address, ops[1..], rest);
      assert r.transfers[|done|] == r.transfers[..|rest|][|done|] == one.transfers[0];
      assert r.transfers[|done| + 2] == r.transfers[..|rest|][|done| + 2] == one.transfers[2];
    }
  }

  /** ... and so is op k. */
  lemma {:induction false} OpsWriteAt(script: seq<Reply>, at: nat, address: bv8, ops: seq<Op>, done: seq<Transfer>, k: nat)
    requires k < |ops|
    ensures var r := OpsFrom(script, at, address, ops, done);
            r.result.IoOk? ==>
              |done| + 3 * k + 2 < |r.transfers|
              && r.transfers[|done| + 3 * k] == Write(address, [ops[k].register])
              && r.transfers[|done| + 3 * k + 2]
                 == Write(address, [ops[k].register, ClearSetValue(ByteAt(script, at + 3 * k + 1), ops[k].clearMask, ops[k].setMask)])
    decreases k
  {
    if k == 0 {
      OpsWriteFirst(script, at, address, ops, done);
    } else {
      var one := ClearSetSpec(script, at, address, ops[0].register, ops[0].clearMask, ops[0].setMask);
      OpsStep(script, at, address, ops, done);
      if OpsFrom(script, at, address, ops, done).result.IoOk? {
        var rest := done + one.transfers;
        var j := k - 1;
        OpsWriteAt(script, at + 3, address, ops[1..], rest, j);
        assert ops[1..][j] == ops[k];
        assert |rest| + 3 * j == |done| + 3 * k;
        assert at + 3 + 3 * j + 1 == at + 3 * k + 1;
      }
    }
  }

  // --------------------------------------------------- io_mcp_init_pin_mode

  /** The low-level pin modes the driver distinguishes; OtherMode stands for
      every mode it does not support (analog input, PWM, I2C, UART, …). */
  datatype LlMode = Disabled | InputDigital | OutputDigital | Counter | OtherMode

  /** What the driver reads of a pin's configuration. */
  datatype PinConfig = PinConfig(mode: LlMode, pullup: bool, speed: int)

  /** The registers io_mcp_init_pin_mode first clears the pin's bit in, in order. */
  const ClearBases: seq<bv8> := [Ipol, Gpinten, Defval, Intcon, Gppu, Gpio, Olat]

  /** The seven clearing calls every configuration starts with. */
  function ClearOps(bank: bv8, mask: bv8): (ops: seq<Op>)
    requires bank < 2
    ensures |ops| == 7
    ensures forall k :: 0 <= k < 7 ==> ops[k] == Op(Reg(ClearBases[k], bank), mask, 0)
  {
    seq(7, k requires 0 <= k < 7 => Op(Reg(ClearBases[k], bank), mask, 0))
  }

  /** The calls of the mode switch; None for a mode the driver refuses. */
  function ModeOps(config: PinConfig, bank: bv8, mask: bv8): Option<seq<Op>>
    requires bank < 2
  {
    if config.mode == Disabled then Some([])
    else if config.mode == InputDigital || config.mode == Counter then
      Some([Op(Reg(Iodir, bank), 0, mask)]
           + (if config.pullup then [Op(Reg(Gppu, bank), 0, mask)] else [])
           + (if config.mode == Counter then [Op(Reg(Gpinten, bank), 0, mask)] else []))
    else if config.mode == OutputDigital then Some([Op(Reg(Iodir, bank), mask, 0)])
    else None
  }

  /** io_mcp_init_pin_mode: the clearing calls, then the mode's calls; a refused
      mode is io_error once the clearing calls are done. */
  function InitPinModeSpec(script: seq<Reply>, at: nat, address: bv8, config: PinConfig, pin: nat): (r: IoRun<()>)
    requires pin < PinCount
  {
    var bank := Bank(pin);
    var mask := Mask(BankPin(pin));
    var clears := OpsFrom(script, at, address, ClearOps(bank, mask), []);
    if clears.result.IoError? then clears
    else match ModeOps(config, bank, mask)
      case None => IoRun(IoError, clears.transfers)
      case Some(ops) => OpsFrom(script, at + |clears.transfers|, address, ops, clears.transfers)
  }

  /** A refused mode is always io_error, and only after all seven clearing calls
      went through does the driver get to refuse it. */
  lemma InitPinModeRefuses(script: seq<Reply>, at: nat, address: bv8, config: PinConfig, pin: nat)
    requires pin < PinCount && config.mode == OtherMode
    ensures var r := InitPinModeSpec(script, at, address, config, pin);
            r.result == IoError
            && (OpsFrom(script, at, address, ClearOps(Bank(pin), Mask(BankPin(pin))), []).result.IoOk? ==> |r.transfers| == 21)
  {
    OpsLength(script, at, address, ClearOps(Bank(pin), Mask(BankPin(pin))), []);
  }

  /** Call k of a list of clear_set_register calls: ops[k..] remaining to be
      done lead to `goal`, and afterwards either ops[k+1..] still lead there or
      the list has failed with what has been done. */
  method Apply(bus: Bus, address: bv8, op: Op, ghost ops: seq<Op>, ghost k: nat, ghost goal: IoRun<()>,
               ghost before: seq<Transfer>, ghost at: nat, ghost done: seq<Transfer>)
    returns (r: IoResult<()>, ghost done': seq<Transfer>)
    requires k < |ops| && ops[k] == op
    requires bus.position == at + |done| && bus.trace == before + done
    requires OpsFrom(bus.replies, bus.position, address, ops[k..], done) == goal
    modifies bus
    ensures bus.position == at + |done'| && bus.trace == before + done'
    ensures r.IoOk? ==> OpsFrom(bus.replies, bus.position, address, ops[k + 1..], done') == goal
    ensures r.IoError? ==> goal == IoRun(IoError, done')
  {
    ghost var one := ClearSetSpec(bus.replies, bus.position, address, op.register, op.clearMask, op.setMask);
    assert ops[k..][0] == op && ops[k..][1..] == ops[k + 1..];
    r := ClearSet(bus, address, op.register, op.clearMask, op.setMask);
    Concat(before, done, one.transfers);
    done' := done + one.transfers;
  }

  /** The seven clearing calls of io_mcp_init_pin_mode, stopping at the first
      failure: IPOL here, then the interrupt set-up and then the pull-up and
      the output. */
  method ClearPin(bus: Bus, address: bv8, bank: bv8, mask: bv8) returns (r: IoResult<()>)
    requires bank < 2
    modifies bus
    ensures var run := OpsFrom(bus.replies, old(bus.position), address, ClearOps(bank, mask), []);
            r == run.result && bus.trace == old(bus.trace) + run.transfers
            && bus.position == old(bus.position) + |run.transfers|
  {
    ghost var at := bus.position;
    ghost var before := bus.trace;
    var ops := ClearOps(bank, mask);
    ghost var goal := OpsFrom(bus.replies, at, address, ops, []);
    ghost var done: seq<Transfer> := [];
    assert ops[0..] == ops;
    r, done := Apply(bus, address, ops[0], ops, 0, goal, before, at, done);
    if r.IoError? { return; }
    r := ApplyRest(bus, address, ops, goal, before, at, done);
  }

  /** Calls 1 to 6 of the clearing calls, in pairs: the interrupt set-up
      (GPINTEN, DEFVAL), the control and pull-up (INTCON, GPPU) and the output
      (GPIO, OLAT). */
  method ApplyRest(bus: Bus, address: bv8, ops: seq<Op>, ghost goal: IoRun<()>,
                   ghost before: seq<Transfer>, ghost at: nat, ghost done: seq<Transfer>) returns (r: IoResult<()>)
    requires |ops| == 7
    requires bus.position == at + |done| && bus.trace == before + done
    requires OpsFrom(bus.replies, bus.position, address, ops[1..], done) == goal
    modifies bus
    ensures r == goal.result && bus.trace == before + goal.transfers && bus.position == at + |goal.transfers|
  {
    ghost var d := done;
    r, d := ApplyPair(bus, address, ops[1], ops[2], ops, 1, goal, before, at, d);
    if r.IoError? { return; }
    r, d := ApplyPair(bus, address, ops[3], ops[4], ops, 3, goal, before, at, d);
    if r.IoError? { return; }
    r, d := ApplyPair(bus, address, ops[5], ops[6], ops, 5, goal, before, at, d);
    if r.IoError? { return; }
    assert ops[7..] == [] && r.value == ();
  }

  /** Calls k and k + 1 of a list of clear_set_register calls, stopping at the
      first failure. */
  method ApplyPair(bus: Bus, address: bv8, first: Op, second: Op, ghost ops: seq<Op>, ghost k: nat, ghost goal: IoRun<()>,
                   ghost before: seq<Transfer>, ghost at: nat, ghost done: seq<Transfer>)
    returns (r: IoResult<()>, ghost done': seq<Transfer>)
    requires k + 1 < |ops| && ops[k] == first && ops[k + 1] == second
    requires bus.position == at + |done| && bus.trace == before + done
    requires OpsFrom(bus.replies, bus.position, address, ops[k..], done) == goal
    modifies bus
    ensures bus.position == at + |done'| && bus.trace == before + done'
    ensures r.IoOk? ==> OpsFrom(bus.replies, bus.position, address, ops[k + 2..], done') == goal
    ensures r.IoError? ==> goal == IoRun(IoError, done')
  {
    done' := done;
    r, done' := Apply(bus, address, first, ops, k, goal, before, at, done');
    if r.IoError? { return; }
    r, done' := Apply(bus, address, second, ops, k + 1, goal, before, at, done');
  }

  /** The mode switch of io_mcp_init_pin_mode, after the clearing calls. */
  method SetMode(bus: Bus, address: bv8, config: PinConfig, bank: bv8, mask: bv8, ghost before: seq<Transfer>, ghost at: nat, ghost done: seq<Transfer>)
    returns (r: IoResult<()>)
    requires bank < 2
    requires bus.position == at + |done| && bus.trace == before + done
    modifies bus
    ensures var goal := match ModeOps(config, bank, mask)
                        case None => IoRun(IoError, done)
                        case Some(ops) => OpsFrom(bus.replies, old(bus.position), address, ops, done);
            r == goal.result && bus.trace == before + goal.transfers && bus.position == at + |goal.transfers|
  {
    if config.mode == Disabled {
      r := IoOk(());
    } else if config.mode == InputDigital || config.mode == Counter {
      r := SetInput(bus, address, config, bank, mask, before, at, done);
    } else if config.mode == OutputDigital {
      ghost var ops := ModeOps(config, bank, mask).value;
      ghost var goal := OpsFrom(bus.replies, bus.position, address, ops, done);
      assert ops[0..] == ops;
      ghost var d;
      r, d := Apply(bus, address, Op(Reg(Iodir, bank), mask, 0), ops, 0, goal, before, at, done);
      if r.IoError? { return; }
      assert ops[1..] == [] && r.value == ();
    } else {
      r := IoError;
    }
  }

  /** The input and counter branch of the mode switch: IODIR's bit first ... */
  method SetInput(bus: Bus, address: bv8, config: PinConfig, bank: bv8, mask: bv8, ghost before: seq<Transfer>, ghost at: nat, ghost done: seq<Transfer>)
    returns (r: IoResult<()>)
    requires bank < 2 && (config.mode == InputDigital || config.mode == Counter)
    requires bus.position == at + |done| && bus.trace == before + done
    modifies bus
    ensures var goal := OpsFrom(bus.replies, old(bus.position), address, ModeOps(config, bank, mask).value, done);
            r == goal.result && bus.trace == before + goal.transfers && bus.position == at + |goal.transfers|
  {
    ghost var ops := ModeOps(config, bank, mask).value;
    ghost var goal := OpsFrom(bus.replies, bus.position, address, ops, done);
    ghost var d := done;
    assert ops[0..] == ops;
    r, d := Apply(bus, address, Op(Reg(Iodir, bank), 0, mask), ops, 0, goal, before, at, d);
    if r.IoError? { return; }
    r := SetInputOptions(bus, address, config, bank, mask, ops, goal, before, at, d);
  }

  /** ... then GPPU's bit if the pin has a pull-up, and GPINTEN's bit for a
      counter. */
  method SetInputOptions(bus: Bus, address: bv8, config: PinConfig, bank: bv8, mask: bv8, ghost ops: seq<Op>, ghost goal: IoRun<()>,
                         ghost before: seq<Transfer>, ghost at: nat, ghost done: seq<Transfer>)
    returns (r: IoResult<()>)
    requires bank < 2 && (config.mode == InputDigital || config.mode == Counter) && ops == ModeOps(config, bank, mask).value
    requires bus.position == at + |done| && bus.trace == before + done
    requires OpsFrom(bus.replies, bus.position, address, ops[1..], done) == goal
    modifies bus
    ensures r == goal.result && bus.trace == before + goal.transfers && bus.position == at + |goal.transfers|
  {
    ghost var d := done;
    ghost var k := 1;
    r := IoOk(());
    if config.pullup {
      r, d := Apply(bus, address, Op(Reg(Gppu, bank), 0, mask), ops, k, goal, before, at, d);
      if r.IoError? { return; }
      k := k + 1;
    }
    if config.mode == Counter {
      r, d := Apply(bus, address, Op(Reg(Gpinten, bank), 0, mask), ops, k, goal, before, at, d);
      if r.IoError? { return; }
      k := k + 1;
    }
    assert ops[k..] == [] && r.value == ();
  }

  /** io_mcp_init_pin_mode. */
  method InitPinMode(bus: Bus, address: bv8, config: PinConfig, pin: nat) returns (r: IoResult<()>)
    requires pin < PinCount
    modifies bus
    ensures var run := InitPinModeSpec(bus.replies, old(bus.position), address, config, pin);
            r == run.result && bus.trace == old(bus.trace) + run.transfers
            && bus.position == old(bus.position) + |run.transfers|
  {
    var bank := Bank(pin);
    var mask := Mask(BankPin(pin));
    ghost var at := bus.position;
    ghost var before := bus.trace;
    r := ClearPin(bus, address, bank, mask);
    if r.IoError? { return; }
    ghost var done := bus.trace[|before|..];
    assert bus.trace == before + done;
    r := SetMode(bus, address, config, bank, mask, before, at, done);
  }

  // ------------------------------------------- the effect on the register file

  /** The chip's register file: the byte each register address holds. */
  type Registers = bv8 -> bv8

  /** The register file after a list of clear_set_register calls that all
      succeed on a chip that reads back what it holds. */
  function ApplyOps(regs: Registers, ops: seq<Op>): Registers
    decreases |ops|
  {
    if ops == [] then regs else ApplyOps(Update(regs, ops[0]), ops[1..])
  }

  /** One call: its register takes the clear-set value of what it held, every
      other register keeps its value. */
  function Update(regs: Registers, op: Op): Registers
  {
    (r: bv8) => if r == op.register then ClearSetValue(regs(op.register), op.clearMask, op.setMask) else regs(r)
  }

  /** The same, one bit of one register at a time. */
  function Step(b: bool, op: Op, register: bv8, i: bv8): bool
    requires i < 8
  {
    if op.register == register then BitOf(op.setMask, i) || (b && !BitOf(op.clearMask, i)) else b
  }

  function BitAfter(b: bool, ops: seq<Op>, register: bv8, i: bv8): bool
    requires i < 8
    decreases |ops|
  {
    if ops == [] then b else BitAfter(Step(b, ops[0], register, i), ops[1..], register, i)
  }

  lemma {:induction false} ApplyOpsBit(regs: Registers, ops: seq<Op>, register: bv8, i: bv8)
    requires i < 8
    ensures BitOf(ApplyOps(regs, ops)(register), i) == BitAfter(BitOf(regs(register), i), ops, register, i)
    decreases |ops|
  {
    if ops != [] {
      var op := ops[0];
      var regs' := Update(regs, op);
      if op.register == register {
        ClearSetBits(regs(register), op.clearMask, op.setMask, i);
      }
      assert BitOf(regs'(register), i) == Step(BitOf(regs(register), i), op, register, i);
      ApplyOpsBit(regs', ops[1..], register, i);
    }
  }

  lemma {:induction false} BitAfterConcat(b: bool, ops1: seq<Op>, ops2: seq<Op>, register: bv8, i: bv8)
    requires i < 8
    ensures BitAfter(b, ops1 + ops2, register, i) == BitAfter(BitAfter(b, ops1, register, i), ops2, register, i)
    decreases |ops1|
  {
    if ops1 == [] {
      assert ops1 + ops2 == ops2;
    } else {
      assert (ops1 + ops2)[0] == ops1[0] && (ops1 + ops2)[1..] == ops1[1..] + ops2;
      BitAfterConcat(Step(b, ops1[0], register, i), ops1[1..], ops2, register, i);
    }
  }

  /** Calls on other registers or that leave bit i out of both masks do not
      touch bit i. */
  lemma {:induction false} BitAfterUntouched(b: bool, ops: seq<Op>, register: bv8, i: bv8)
    requires i < 8
    requires forall k :: 0 <= k < |ops| ==> ops[k].register != register || (!BitOf(ops[k].clearMask, i) && !BitOf(ops[k].setMask, i))
    ensures BitAfter(b, ops, register, i) == b
    decreases |ops|
  {
    if ops != [] {
      assert ops[0].register != register || (!BitOf(ops[0].clearMask, i) && !BitOf(ops[0].setMask, i));
      forall k | 0 <= k < |ops| - 1
        ensures ops[1..][k].register != register || (!BitOf(ops[1..][k].clearMask, i) && !BitOf(ops[1..][k].setMask, i))
      {
        assert ops[1..][k] == ops[k + 1];
      }
      BitAfterUntouched(Step(b, ops[0], register, i), ops[1..], register, i);
    }
  }

  lemma BitAfterOne(b: bool, op: Op, register: bv8, i: bv8)
    requires i < 8
    ensures BitAfter(b, [op], register, i) == Step(b, op, register, i)
  {
    assert [op][1..] == [];
  }

  /** A list of calls that only clear bit i leaves it set only if none of them
      is on the register. */
  lemma {:induction false} ClearingBit(b: bool, ops: seq<Op>, register: bv8, i: bv8)
    requires i < 8
    requires forall k :: 0 <= k < |ops| ==> ops[k].setMask == 0 && BitOf(ops[k].clearMask, i)
    ensures BitAfter(b, ops, register, i) == (b && forall k :: 0 <= k < |ops| ==> ops[k].register != register)
    decreases |ops|
  {
    if ops != [] {
      assert ops[0].setMask == 0 && BitOf(ops[0].clearMask, i);
      assert !BitOf(0, i);
      var rest := ops[1..];
      forall k | 0 <= k < |rest|
        ensures rest[k].setMask == 0 && BitOf(rest[k].clearMask, i)
      {
        assert rest[k] == ops[k + 1];
      }
      ClearingBit(Step(b, ops[0], register, i), rest, register, i);
      if forall k :: 0 <= k < |rest| ==> rest[k].register != register {
        forall k | 0 < k < |ops|
          ensures ops[k].register != register
        {
          assert ops[k] == rest[k - 1];
        }
      }
    }
  }

  /** The clearing calls leave the pin's bit 0 in IPOL, GPINTEN, DEFVAL, INTCON,
      GPPU, GPIO and OLAT of its bank, and the pin's bit of the other registers of
      the bank alone. */
  lemma ClearOpsEffect(b: bool, bank: bv8, bankpin: bv8, base: bv8)
    requires bank < 2 && bankpin < 8 && base in Bases
    ensures BitAfter(b, ClearOps(bank, Mask(bankpin)), Reg(base, bank), bankpin) == (b && base !in ClearBases)
  {
    var ops := ClearOps(bank, Mask(bankpin));
    var register := Reg(base, bank);
    MaskBits(bankpin, bankpin);
    ClearingBit(b, ops, register, bankpin);
    forall k | 0 <= k < 7
      ensures ops[k].register == register <==> ClearBases[k] == base
    {
      RegisterAddresses(ClearBases[k], bank, base, bank);
    }
  }

  /** The mode's calls: IODIR's bit set for an input or a counter and cleared for
      an output; GPPU's bit set for an input or a counter with pull-up; GPINTEN's
      bit set for a counter. Nothing else changes. */
  lemma ModeOpsEffect(b: bool, config: PinConfig, bank: bv8, bankpin: bv8, base: bv8)
    requires bank < 2 && bankpin < 8 && base in Bases && config.mode != OtherMode
    ensures var input := config.mode == InputDigital || config.mode == Counter;
            BitAfter(b, ModeOps(config, bank, Mask(bankpin)).value, Reg(base, bank), bankpin)
            == if base == Iodir && input then true
               else if base == Iodir && config.mode == OutputDigital then false
               else if base == Gppu && input && config.pullup then true
               else if base == Gpinten && config.mode == Counter then true
               else b
  {
    var mask := Mask(bankpin);
    var register := Reg(base, bank);
    MaskBits(bankpin, bankpin);
    assert !BitOf(0, bankpin);
    RegisterAddresses(Iodir, bank, base, bank);
    RegisterAddresses(Gppu, bank, base, bank);
    RegisterAddresses(Gpinten, bank, base, bank);
    if config.mode == OutputDigital {
      BitAfterOne(b, Op(Reg(Iodir, bank), mask, 0), register, bankpin);
    } else if config.mode != Disabled {
      var dir := [Op(Reg(Iodir, bank), 0, mask)];
      var pull: seq<Op> := if config.pullup then [Op(Reg(Gppu, bank), 0, mask)] else [];
      var enable: seq<Op> := if config.mode == Counter then [Op(Reg(Gpinten, bank), 0, mask)] else [];
      BitAfterConcat(b, dir + pull, enable, register, bankpin);
      BitAfterConcat(b, dir, pull, register, bankpin);
      BitAfterOne(b, dir[0], register, bankpin);
      var afterDir := Step(b, dir[0], register, bankpin);
      if config.pullup {
        BitAfterOne(afterDir, pull[0], register, bankpin);
      }
      if config.mode == Counter {
        BitAfterOne(BitAfter(afterDir, pull, register, bankpin), enable[0], register, bankpin);
      }
    }
  }

  /** The calls io_mcp_init_pin_mode makes when it accepts the mode. */
  function PinModeOps(config: PinConfig, pin: nat): (ops: Option<seq<Op>>)
    requires pin < PinCount
    ensures ops.Some? <==> config.mode != OtherMode
  {
    var bank := Bank(pin);
    var mask := Mask(BankPin(pin));
    match ModeOps(config, bank, mask)
    case None => None
    case Some(m) => Some(ClearOps(bank, mask) + m)
  }

  /** The pin's bit in each register once configured: Some(value) for the
      registers the driver sets, None for those it leaves alone. */
  function Intended(config: PinConfig, base: bv8): Option<bool>
  {
    var input := config.mode == InputDigital || config.mode == Counter;
    if base == Iodir then
      (if input then Some(true) else if config.mode == OutputDigital then Some(false) else None)
    else if base == Gppu then Some(input && config.pullup)
    else if base == Gpinten then Some(config.mode == Counter)
    else if base in {Ipol, Defval, Intcon, Gpio, Olat} then Some(false)
    else None
  }

  /** Configuring a pin takes the pin's bit of a register of its bank through
      the clearing calls and then the mode's calls. */
  lemma PinModeChain(config: PinConfig, pin: nat, regs: Registers, base: bv8)
    requires pin < PinCount && config.mode != OtherMode && base in Bases
    ensures var bank := Bank(pin);
            var register := Reg(base, bank);
            var b0 := BitOf(regs(register), BankPin(pin));
            BitOf(ApplyOps(regs, PinModeOps(config, pin).value)(register), BankPin(pin))
            == BitAfter(b0 && base !in ClearBases, ModeOps(config, bank, Mask(BankPin(pin))).value, register, BankPin(pin))
  {
    var bank := Bank(pin);
    var i := BankPin(pin);
    var mask := Mask(i);
    var register := Reg(base, bank);
    var m := ModeOps(config, bank, mask).value;
    var b0 := BitOf(regs(register), i);
    ApplyOpsBit(regs, ClearOps(bank, mask) + m, register, i);
    BitAfterConcat(b0, ClearOps(bank, mask), m, register, i);
    ClearOpsEffect(b0, bank, i, base);
  }

  /** The clearing calls followed by the mode's calls give the pin's bit its
      intended value. */
  lemma ModeIntended(b: bool, config: PinConfig, bank: bv8, bankpin: bv8, base: bv8)
    requires bank < 2 && bankpin < 8 && base in Bases && config.mode != OtherMode
    ensures BitAfter(b && base !in ClearBases, ModeOps(config, bank, Mask(bankpin)).value, Reg(base, bank), bankpin)
            == match Intended(config, base) case Some(v) => v case None => b
  {
    var cleared := b && base !in ClearBases;
    ModeOpsEffect(cleared, config, bank, bankpin, base);
    if base == Iodir {
      assert cleared == b;
    } else if base in {Iocon, Intf, Intcap} {
      assert cleared == b;
    } else {
      assert !cleared;
    }
  }

  /** Configuring a pin leaves exactly the intended value in the pin's bit of
      each of its bank's registers. */
  lemma PinModeEffect(config: PinConfig, pin: nat, regs: Registers, base: bv8)
    requires pin < PinCount && config.mode != OtherMode && base in Bases
    ensures var register := Reg(base, Bank(pin));
            var after := BitOf(ApplyOps(regs, PinModeOps(config, pin).value)(register), BankPin(pin));
            after == match Intended(config, base) case Some(v) => v case None => BitOf(regs(register), BankPin(pin))
  {
    PinModeChain(config, pin, regs, base);
    ModeIntended(BitOf(regs(Reg(base, Bank(pin))), BankPin(pin)), config, Bank(pin), BankPin(pin), base);
  }

  /** One call more: its register takes the clear-set value of what the calls
      before it left there, and every other register keeps that value. */
  lemma {:induction false} ApplyOpsSnoc(regs: Registers, ops: seq<Op>, op: Op, x: bv8)
    ensures ApplyOps(regs, ops + [op])(x)
            == if x == op.register then ClearSetValue(ApplyOps(regs, ops)(op.register), op.clearMask, op.setMask)
               else ApplyOps(regs, ops)(x)
    decreases |ops|
  {
    if ops == [] {
      assert [op][1..] == [];
    } else {
      assert (ops + [op])[0] == ops[0] && (ops + [op])[1..] == ops[1..] + [op];
      ApplyOpsSnoc(Update(regs, ops[0]), ops[1..], op, x);
    }
  }

  /** A chip that reads back what it holds: starting from `regs`, the read of
      each call (the second of its three transfers) returns what the calls
      before it left in its register. */
  predicate ReadsBack(script: seq<Reply>, at: nat, regs: Registers, ops: seq<Op>)
    decreases |ops|
  {
    ops == [] || (ByteAt(script, at + 1) == regs(ops[0].register) && ReadsBack(script, at + 3, Update(regs, ops[0]), ops[1..]))
  }

  /** On such a chip the read of call k returns the register's value after
      the first k calls of the register file model. */
  lemma {:induction false} ReadsBackAt(script: seq<Reply>, at: nat, regs: Registers, ops: seq<Op>, k: nat)
    requires k < |ops| && ReadsBack(script, at, regs, ops)
    ensures ByteAt(script, at + 3 * k + 1) == ApplyOps(regs, ops[..k])(ops[k].register)
    decreases k
  {
    if k == 0 {
      assert ops[..k] == [];
    } else {
      var j := k - 1;
      ReadsBackAt(script, at + 3, Update(regs, ops[0]), ops[1..], j);
      assert ops[1..][j] == ops[k];
      assert ops[..k][0] == ops[0] && ops[..k][1..] == ops[1..][..j];
      var p: nat := at + 3 + 3 * j + 1;
      assert p == at + 3 * k + 1;
    }
  }

  /** ... so the write of call k carries the register's value after the first
      k + 1 calls. */
  lemma ReadsBackWrite(script: seq<Reply>, at: nat, regs: Registers, ops: seq<Op>, k: nat)
    requires k < |ops| && ReadsBack(script, at, regs, ops)
    ensures ClearSetValue(ByteAt(script, at + 3 * k + 1), ops[k].clearMask, ops[k].setMask)
            == ApplyOps(regs, ops[..k + 1])(ops[k].register)
  {
    ReadsBackAt(script, at, regs, ops, k);
    assert ops[..k + 1] == ops[..k] + [ops[k]];
    ApplyOpsSnoc(regs, ops[..k], ops[k], ops[k].register);
  }

  /** OpsWriteAt with the call, the write's place in the transfers and the
      read's place in the script given by the caller. */
  lemma OpsWriteAtPlace(script: seq<Reply>, at: nat, address: bv8, ops: seq<Op>, done: seq<Transfer>, k: nat, op: Op,
                        write: nat, read: nat)
    requires k < |ops| && op == ops[k] && write == |done| + 3 * k + 2 && read == at + 3 * k + 1
    ensures var r := OpsFrom(script, at, address, ops, done);
            r.result.IoOk? ==>
              write < |r.transfers|
              && r.transfers[write] == Write(address, [op.register, ClearSetValue(ByteAt(script, read), op.clearMask, op.setMask)])
  {
    OpsWriteAt(script, at, address, ops, done, k);
  }

  /** Two lists of calls run one after the other, the first succeeding with
      `done1`: in a run of the second that succeeds, call k of the whole is
      transfers 3k to 3k + 2, its write carrying the value read at 3k + 1 with
      the call's masks applied. */
  lemma TwoListsWrite(script: seq<Reply>, at: nat, address: bv8, ops1: seq<Op>, ops2: seq<Op>, done1: seq<Transfer>,
                      k: nat, op: Op)
    requires k < |ops1| + |ops2| && op == (ops1 + ops2)[k]
    requires OpsFrom(script, at, address, ops1, []).result.IoOk? && OpsFrom(script, at, address, ops1, []).transfers == done1
    ensures var r := OpsFrom(script, at + 3 * |ops1|, address, ops2, done1);
            r.result.IoOk? ==>
              3 * k + 2 < |r.transfers|
              && r.transfers[3 * k + 2] == Write(address, [op.register, ClearSetValue(ByteAt(script, at + 3 * k + 1), op.clearMask, op.setMask)])
  {
    if k < |ops1| {
      WriteInFirst(script, at, address, ops1, ops2, done1, k, op);
    } else {
      OpsLength(script, at, address, ops1, []);
      WriteInSecond(script, at, address, ops1, ops2, done1, k, op);
    }
  }

  /** ... when call k is in the first list, it is transfers 3k to 3k + 2 of
      the first list's run, which the second's run starts with ... */
  lemma WriteInFirst(script: seq<Reply>, at: nat, address: bv8, ops1: seq<Op>, ops2: seq<Op>, done1: seq<Transfer>,
                     k: nat, op: Op)
    requires k < |ops1| && op == (ops1 + ops2)[k]
    requires OpsFrom(script, at, address, ops1, []).result.IoOk? && OpsFrom(script, at, address, ops1, []).transfers == done1
    ensures var r := OpsFrom(script, at + 3 * |ops1|, address, ops2, done1);
            r.result.IoOk? ==>
              3 * k + 2 < |r.transfers|
              && r.transfers[3 * k + 2] == Write(address, [op.register, ClearSetValue(ByteAt(script, at + 3 * k + 1), op.clearMask, op.setMask)])
  {
    assert op == ops1[k];
    OpsWriteAtPlace(script, at, address, ops1, [], k, op, 3 * k + 2, at + 3 * k + 1);
    var w := Write(address, [op.register, ClearSetValue(ByteAt(script, at + 3 * k + 1), op.clearMask, op.setMask)]);
    assert done1[3 * k + 2] == w;
    OpsLength(script, at + 3 * |ops1|, address, ops2, done1);
    var r := OpsFrom(script, at + 3 * |ops1|, address, ops2, done1);
    if r.result.IoOk? {
      assert r.transfers[3 * k + 2] == r.transfers[..|done1|][3 * k + 2] == w;
    }
  }

  /** ... and when it is in the second list, it is transfers 3k to 3k + 2 of
      the second's run, which starts after three transfers per call of the
      first. */
  lemma WriteInSecond(script: seq<Reply>, at: nat, address: bv8, ops1: seq<Op>, ops2: seq<Op>, done: seq<Transfer>,
                      k: nat, op: Op)
    requires |ops1| <= k < |ops1| + |ops2| && op == (ops1 + ops2)[k] && |done| == 3 * |ops1|
    ensures var r := OpsFrom(script, at + 3 * |ops1|, address, ops2, done);
            r.result.IoOk? ==>
              3 * k + 2 < |r.transfers|
              && r.transfers[3 * k + 2] == Write(address, [op.register, ClearSetValue(ByteAt(script, at + 3 * k + 1), op.clearMask, op.setMask)])
  {
    assert op == ops2[k - |ops1|];
    OpsWriteAtPlace(script, at + 3 * |ops1|, address, ops2, done, k - |ops1|, op, 3 * k + 2, at + 3 * k + 1);
  }

  /** io_mcp_init_pin_mode on a chip that reads back what it holds: the write
      of call k in a run that succeeds carries the value of the register file
      model after k + 1 calls. */
  lemma InitPinModeWrites(script: seq<Reply>, at: nat, address: bv8, config: PinConfig, pin: nat, regs: Registers, k: nat)
    requires pin < PinCount && config.mode != OtherMode
    requires k < |PinModeOps(config, pin).value| && ReadsBack(script, at, regs, PinModeOps(config, pin).value)
    ensures var ops := PinModeOps(config, pin).value;
            var r := InitPinModeSpec(script, at, address, config, pin);
            r.result.IoOk? ==>
              3 * k + 2 < |r.transfers|
              && r.transfers[3 * k + 2] == Write(address, [ops[k].register, ApplyOps(regs, ops[..k + 1])(ops[k].register)])
  {
    var bank := Bank(pin);
    var mask := Mask(BankPin(pin));
    var clearing := ClearOps(bank, mask);
    var mode := ModeOps(config, bank, mask).value;
    var ops := PinModeOps(config, pin).value;
    assert ops == clearing + mode;
    ReadsBackWrite(script, at, regs, ops, k);
    var clears := OpsFrom(script, at, address, clearing, []);
    if clears.result.IoOk? {
      OpsLength(script, at, address, clearing, []);
      var r := OpsFrom(script, at + 3 * |clearing|, address, mode, clears.transfers);
      assert InitPinModeSpec(script, at, address, config, pin) == r;
      TwoListsWrite(script, at, address, clearing, mode, clears.transfers, k, ops[k]);
    }
  }

  /** Every call of a pin's configuration is on a register of the pin's bank
      (an even base plus the bank) and touches only the pin's bit. */
  lemma PinModeOpsShape(config: PinConfig, pin: nat)
    requires pin < PinCount && config.mode != OtherMode
    ensures var ops := PinModeOps(config, pin).value;
            forall k :: 0 <= k < |ops| ==>
              ops[k].register & 1 == Bank(pin)
              && (ops[k].clearMask == 0 || ops[k].clearMask == Mask(BankPin(pin)))
              && (ops[k].setMask == 0 || ops[k].setMask == Mask(BankPin(pin)))
  {
    var bank := Bank(pin);
    var mask := Mask(BankPin(pin));
    var c := ClearOps(bank, mask);
    var m := ModeOps(config, bank, mask).value;
    var ops := c + m;
    forall k | 0 <= k < |ops|
      ensures ops[k].register & 1 == bank
              && (ops[k].clearMask == 0 || ops[k].clearMask == mask) && (ops[k].setMask == 0 || ops[k].setMask == mask)
    {
      if k < 7 {
        assert ops[k] == c[k];
      } else {
        assert ops[k] == m[k - 7];
      }
    }
  }

  /** Every other bit of every register is left as it was ... */
  lemma PinModeOtherBits(config: PinConfig, pin: nat, regs: Registers, register: bv8, i: bv8)
    requires pin < PinCount && config.mode != OtherMode && i < 8 && i != BankPin(pin)
    ensures BitOf(ApplyOps(regs, PinModeOps(config, pin).value)(register), i) == BitOf(regs(register), i)
  {
    var ops := PinModeOps(config, pin).value;
    ApplyOpsBit(regs, ops, register, i);
    MaskBits(BankPin(pin), i);
    assert !BitOf(0, i);
    PinModeOpsShape(config, pin);
    BitAfterUntouched(BitOf(regs(register), i), ops, register, i);
  }

  /** ... and the registers of the other bank are not touched at all. */
  lemma PinModeOtherBank(config: PinConfig, pin: nat, regs: Registers, register: bv8, i: bv8)
    requires pin < PinCount && config.mode != OtherMode && i < 8 && register & 1 != Bank(pin)
    ensures BitOf(ApplyOps(regs, PinModeOps(config, pin).value)(register), i) == BitOf(regs(register), i)
  {
    var ops := PinModeOps(config, pin).value;
    ApplyOpsBit(regs, ops, register, i);
    PinModeOpsShape(config, pin);
    BitAfterUntouched(BitOf(regs(register), i), ops, register, i);
  }
}

