/** The bus-driven parts of i2c_sensor.c: the framed and checksummed reads, the
    bounded retry loops, the straight-line initialisation sequences and the
    gating rules between sensors. Every driver is a method on the scripted Bus,
    proved to do exactly what a function of the script says: which result it
    returns and which transfers it issues. A spec function takes the script and
    the position of the driver's first transfer in it. */
module Sensors {
  import opened I2c
  import opened Crc
  import opened Decoders
  import opened SensorTable
  import opened Tsl2550Tables

  /** What a driver does with a given script: its result and the transfers it
      issued, in order. It consumes one reply per transfer. */
  datatype Run<T> = Run(result: Result<T>, transfers: seq<Transfer>)

  /** The run of a driver that first issued the transfers ts. */
  function Join<T>(ts: seq<Transfer>, run: Run<T>): (r: Run<T>)
    ensures r.result == run.result && r.transfers == ts + run.transfers
  {
    Run(run.result, ts + run.transfers)
  }

  lemma JoinJoin<T>(a: seq<Transfer>, b: seq<Transfer>, run: Run<T>)
    ensures Join(a, Join(b, run)) == Join(a + b, run)
  {
    assert a + (b + run.transfers) == (a + b) + run.transfers;
  }

  lemma Concat(a: seq<Transfer>, b: seq<Transfer>, c: seq<Transfer>)
    ensures a + b + c == a + (b + c)
  {
  }

  /** The number of leading acknowledgements among the n replies from `from`. */
  function Acks(script: seq<Reply>, from: nat, n: nat): (k: nat)
    ensures k <= n
    ensures forall j :: from <= j < from + k ==> ReplyAt(script, j).Ack?
    ensures k < n ==> ReplyAt(script, from + k).Nack?
    decreases n
  {
    if n == 0 || ReplyAt(script, from).Nack? then 0 else 1 + Acks(script, from + 1, n - 1)
  }

  /** The attempts a loop of at most n tries makes when it stops at the first
      acknowledged one: the position of the first Ack, or all n. */
  function Attempts(script: seq<Reply>, from: nat, n: nat): (k: nat)
    requires n > 0
    ensures 1 <= k <= n
    decreases n
  {
    if n == 1 || ReplyAt(script, from).Ack? then 1 else 1 + Attempts(script, from + 1, n - 1)
  }

  /** Every attempt before the last failed, and the loop stops early only on an
      acknowledged attempt. */
  lemma {:induction false} AttemptsMeaning(script: seq<Reply>, from: nat, n: nat)
    requires n > 0
    ensures var k := Attempts(script, from, n);
            (forall j :: from <= j < from + k - 1 ==> ReplyAt(script, j).Nack?)
            && (k < n ==> ReplyAt(script, from + k - 1).Ack?)
    decreases n
  {
    if !(n == 1 || ReplyAt(script, from).Ack?) {
      AttemptsMeaning(script, from + 1, n - 1);
    }
  }

  /** The attempts are k when the k - 1 before the last failed and the last one
      is acknowledged or is the n-th. */
  lemma AttemptsStop(script: seq<Reply>, from: nat, n: nat, k: nat)
    requires 0 < k <= n
    requires forall j :: from <= j < from + k - 1 ==> ReplyAt(script, j).Nack?
    requires k == n || ReplyAt(script, from + k - 1).Ack?
    ensures Attempts(script, from, n) == k
  {
    AttemptsMeaning(script, from, n);
  }

  /** One transfer repeated k times. */
  function Repeat(t: Transfer, k: nat): (ts: seq<Transfer>)
    ensures |ts| == k && forall i :: 0 <= i < k ==> ts[i] == t
  {
    seq(k, _ => t)
  }

  lemma RepeatSnoc(t: Transfer, k: nat)
    ensures Repeat(t, k + 1) == Repeat(t, k) + [t]
  {
  }

  /** The writes of a list of messages to one device. */
  function Writes(address: bv8, messages: seq<seq<bv8>>): (ts: seq<Transfer>)
    ensures |ts| == |messages|
    ensures forall i :: 0 <= i < |messages| ==> ts[i] == Write(address, messages[i])
  {
    seq(|messages|, i requires 0 <= i < |messages| => Write(address, messages[i]))
  }

  /** The byte a receive of one byte hands back on reply i (0 when it fails). */
  function ByteAt(script: seq<Reply>, i: nat): bv8
  {
    var reply := ReplyAt(script, i);
    if reply.Ack? && |reply.data| > 0 then reply.data[0] else 0
  }

  /** A register read as the drivers write it: send the register number, then
      receive one byte (sensor_tsl2550_rw, si114x_read_register). */
  function RegisterReadSpec(script: seq<Reply>, at: nat, address: bv8, register: bv8): (r: Run<bv8>)
    ensures |r.transfers| == (if ReplyAt(script, at).Nack? then 1 else 2)
    ensures r.result.Ok? <==> ReplyAt(script, at).Ack? && ReplyAt(script, at + 1).Ack?
    ensures r.result.Ok? ==> r.result.value == ByteAt(script, at + 1)
    ensures r.result.Err? ==> ReplyAt(script, at + |r.transfers| - 1) == Nack(r.result.error)
  {
    var sent := ReplyAt(script, at);
    var got := ReplyAt(script, at + 1);
    if sent.Nack? then Run(Err(sent.error), [Write(address, [register])])
    else if got.Nack? then Run(Err(got.error), [Write(address, [register]), Read(address, 1)])
    else Run(Ok(ByteAt(script, at + 1)), [Write(address, [register]), Read(address, 1)])
  }

  method RegisterRead(bus: Bus, address: bv8, register: bv8) returns (r: Result<bv8>)
    modifies bus
    ensures var run := RegisterReadSpec(bus.replies, old(bus.position), address, register);
            r == run.result && bus.trace == old(bus.trace) + run.transfers
            && bus.position == old(bus.position) + |run.transfers|
  {
    var sent := bus.Send(address, [register]);
    if sent.Err? {
      return Err(sent.error);
    }
    var got := bus.Receive(address, 1);
    if got.Err? {
      return Err(got.error);
    }
    assert got.value[0] == Fit(ReplyAt(bus.replies, old(bus.position) + 1).data, 1)[0];
    r := Ok(got.value[0]);
  }

  // ------------------------------------------------- straight-line sends

  /** A sequence of sends that gives up at the first failure, as the init
      routines do: each send's error, if any, is returned at once. */
  function SendAllSpec(script: seq<Reply>, at: nat, address: bv8, messages: seq<seq<bv8>>): (r: Run<()>)
    ensures r.result.Ok? <==> forall j :: at <= j < at + |messages| ==> ReplyAt(script, j).Ack?
    ensures r.result.Ok? ==> r.transfers == Writes(address, messages)
    ensures r.result.Err? ==>
              var k := |r.transfers| - 1;
              0 <= k < |messages| && r.transfers == Writes(address, messages[..k + 1])
              && ReplyAt(script, at + k) == Nack(r.result.error)
              && forall j :: at <= j < at + k ==> ReplyAt(script, j).Ack?
  {
    var k := Acks(script, at, |messages|);
    if k < |messages| then Run(Err(ReplyAt(script, at + k).error), Writes(address, messages[..k + 1]))
    else
      assert messages[..k] == messages;
      Run(Ok(()), Writes(address, messages))
  }

  lemma WritesSnoc(address: bv8, messages: seq<seq<bv8>>, i: nat)
    requires i < |messages|
    ensures Writes(address, messages[..i + 1]) == Writes(address, messages[..i]) + [Write(address, messages[i])]
  {
  }

  method SendAll(bus: Bus, address: bv8, messages: seq<seq<bv8>>) returns (r: Result<()>)
    modifies bus
    ensures var run := SendAllSpec(bus.replies, old(bus.position), address, messages);
            r == run.result && bus.trace == old(bus.trace) + run.transfers
            && bus.position == old(bus.position) + |run.transfers|
  {
    ghost var at := bus.position;
    ghost var before := bus.trace;
    var i := 0;
    while i < |messages|
      invariant 0 <= i <= |messages|
      invariant forall j :: at <= j < at + i ==> ReplyAt(bus.replies, j).Ack?
      invariant bus.position == at + i
      invariant bus.trace == before + Writes(address, messages[..i])
    {
      WritesSnoc(address, messages, i);
      var sent := bus.Send(address, messages[i]);
      if sent.Err? {
        assert Acks(bus.replies, at, |messages|) == i;
        return Err(sent.error);
      }
      i := i + 1;
    }
    assert messages[..i] == messages;
    r := Ok(());
  }

  // -------------------------------------------------------------- HTU21

  /** The check of sensor_htu21_read on its four received bytes. */
  function Htu21Decode(buf: seq<bv8>): (r: Result<bv16>)
    requires |buf| == 4
    ensures r.Err? <==> buf[2] != Crc8(buf[..2])
    ensures r.Err? ==> r.error == DeviceError(1)
  {
    if buf[2] != Crc8(buf[..2]) then Err(DeviceError(1))
    else Ok(Htu21Measurement(buf[0], buf[1]))
  }

  /** The measurement word with its two status bits cleared. */
  function Htu21Measurement(hi: bv8, lo: bv8): bv16
  {
    Word16(hi, lo) & 0xFFFC
  }

  /** A measurement keeps the fourteen data bits of the word and has its two
      status bits cleared. */
  lemma Htu21StatusBits(buf: seq<bv8>)
    requires |buf| == 4 && Htu21Decode(buf).Ok?
    ensures var v := Htu21Decode(buf).value;
            v >> 2 == Word16(buf[0], buf[1]) >> 2 && v & 3 == 0
  {
  }

  /** Byte 3 of the read is never looked at. */
  lemma Htu21IgnoresLastByte(buf: seq<bv8>, x: bv8)
    requires |buf| == 4
    ensures Htu21Decode(buf[3 := x]) == Htu21Decode(buf)
  {
    assert buf[3 := x][..2] == buf[..2];
  }

  /** The four bytes a device sends for a measurement. */
  function Htu21Frame(measurement: bv16, last: bv8): (buf: seq<bv8>)
    ensures |buf| == 4
  {
    [Hi(measurement), Lo(measurement), Crc8([Hi(measurement), Lo(measurement)]), last]
  }

  lemma HiLo(w: bv16)
    ensures Word16(Hi(w), Lo(w)) == w
  {
  }

  lemma Htu21FrameRoundTrip(measurement: bv16, last: bv8)
    ensures Htu21Decode(Htu21Frame(measurement, last)) == Ok(measurement & 0xFFFC)
  {
    var buf := Htu21Frame(measurement, last);
    assert buf[..2] == [Hi(measurement), Lo(measurement)];
    HiLo(measurement);
  }

  /** A single corrupted byte among the measurement and its checksum is always
      caught. */
  lemma Htu21DetectsCorruption(buf: seq<bv8>, k: nat, x: bv8)
    requires |buf| == 4 && Htu21Decode(buf).Ok?
    requires k < 3 && x != buf[k]
    ensures Htu21Decode(buf[k := x]) == Err(DeviceError(1))
  {
    var bad := buf[k := x];
    if k < 2 {
      Crc8DetectsSingleByteError(0, buf[..2], bad[..2], k);
    } else {
      assert bad[..2] == buf[..2];
    }
  }

  function Htu21ReadSpec(script: seq<Reply>, at: nat, address: bv8, command: bv8): (r: Run<bv16>)
    ensures 1 <= |r.transfers| <= 2 && r.transfers[0] == Write(address, [command])
    ensures |r.transfers| == 2 <==> ReplyAt(script, at).Ack?
    ensures r.result.Ok? ==> ReplyAt(script, at).Ack? && ReplyAt(script, at + 1).Ack?
    ensures r.result.Ok? ==> r.transfers[1] == Read(address, 4)
  {
    var sent := ReplyAt(script, at);
    var got := ReplyAt(script, at + 1);
    if sent.Nack? then Run(Err(sent.error), [Write(address, [command])])
    else if got.Nack? then Run(Err(got.error), [Write(address, [command]), Read(address, 4)])
    else Run(Htu21Decode(Fit(got.data, 4)), [Write(address, [command]), Read(address, 4)])
  }

  /** A device that answers the command with a well-formed frame delivers its
      measurement, status bits cleared, whatever the fourth byte. */
  lemma Htu21ReadDelivers(script: seq<Reply>, at: nat, address: bv8, command: bv8,
                          measurement: bv16, last: bv8)
    requires ReplyAt(script, at).Ack?
    requires ReplyAt(script, at + 1) == Ack(Htu21Frame(measurement, last))
    ensures Htu21ReadSpec(script, at, address, command).result == Ok(measurement & 0xFFFC)
  {
    assert Fit(Htu21Frame(measurement, last), 4) == Htu21Frame(measurement, last);
    Htu21FrameRoundTrip(measurement, last);
  }

  /** sensor_htu21_read: send the measurement command, read four bytes, check
      the CRC-8 of the first two against the third. */
  method Htu21Read(bus: Bus, address: bv8, command: bv8) returns (r: Result<bv16>)
    modifies bus
    ensures var run := Htu21ReadSpec(bus.replies, old(bus.position), address, command);
            r == run.result && bus.trace == old(bus.trace) + run.transfers
            && bus.position == old(bus.position) + |run.transfers|
  {
    var sent := bus.Send(address, [command]);
    if sent.Err? {
      return Err(sent.error);
    }
    var got := bus.Receive(address, 4);
    if got.Err? {
      return Err(got.error);
    }
    var buf := got.value;
    var crc := Htu21Crc(buf[..2]);
    if buf[2] != crc {
      return Err(DeviceError(1));
    }
    r := Ok(Htu21Measurement(buf[0], buf[1]));
  }

  // ------------------------------------------------------------- AM2321

  /** The low-byte-first CRC-16 at [length + 2], [length + 3] matches the one
      computed over bytes [0, length + 2). */
  predicate Am2321CrcOk(buf: seq<bv8>, length: nat)
    requires |buf| == length + 4
  {
    var crc := Crc16(buf[..length + 2]);
    buf[length + 2] == Lo(crc) && buf[length + 3] == Hi(crc)
  }

  /** The check of sensor_am2321_read_registers on its length + 4 received
      bytes: function code and byte count, then the CRC-16 sent low byte
      first, then the payload. */
  function Am2321Check(buf: seq<bv8>, length: nat): (r: Result<seq<bv8>>)
    requires |buf| == length + 4
    ensures r.Err? ==> r.error == DeviceError(2) || r.error == DeviceError(3)
    ensures r == Err(DeviceError(2)) <==> buf[0] != 0x03 || buf[1] as nat != length
    ensures r == Err(DeviceError(3)) <==>
              buf[0] == 0x03 && buf[1] as nat == length && !Am2321CrcOk(buf, length)
    ensures r.Ok? ==> r.value == buf[2..length + 2]
  {
    if buf[0] != 0x03 || buf[1] as nat != length then Err(DeviceError(2))
    else
      var received := LowFirstWord(buf[length + 2], buf[length + 3]);
      var computed := Crc16(buf[..length + 2]);
      LowFirst(buf[length + 2], buf[length + 3], computed);
      if received != computed then Err(DeviceError(3))
      else Ok(buf[2..length + 2])
  }

  /** crc1 = lo | (hi << 8): a check word received low byte first. */
  function LowFirstWord(lo: bv8, hi: bv8): bv16
  {
    (lo as bv16) | ((hi as bv16) << 8)
  }

  lemma LowFirstLo(lo: bv8, hi: bv8)
    ensures Lo(LowFirstWord(lo, hi)) == lo
  {
  }

  lemma LowFirstHi(lo: bv8, hi: bv8)
    ensures Hi(LowFirstWord(lo, hi)) == hi
  {
  }

  lemma LowFirstOf(crc: bv16)
    ensures LowFirstWord(Lo(crc), Hi(crc)) == crc
  {
  }

  /** A CRC sent low byte first matches exactly when both bytes do. */
  lemma LowFirst(lo: bv8, hi: bv8, crc: bv16)
    ensures LowFirstWord(lo, hi) == crc <==> lo == Lo(crc) && hi == Hi(crc)
  {
    LowFirstLo(lo, hi);
    LowFirstHi(lo, hi);
    LowFirstOf(crc);
  }

  /** The frame a device sends for a payload. */
  function Am2321Frame(data: seq<bv8>): (buf: seq<bv8>)
    requires |data| < 253
    ensures |buf| == |data| + 4
  {
    var header := [0x03 as bv8, ByteOf(|data|)] + data;
    var crc := Crc16(header);
    header + [Lo(crc), Hi(crc)]
  }

  lemma Am2321FrameRoundTrip(data: seq<bv8>)
    requires |data| < 253
    ensures Am2321Check(Am2321Frame(data), |data|) == Ok(data)
  {
    var buf := Am2321Frame(data);
    var header := [0x03 as bv8, ByteOf(|data|)] + data;
    assert buf[..|data| + 2] == header;
    assert buf[2..|data| + 2] == data;
  }

  /** Any single corrupted byte of a good frame is refused. */
  lemma Am2321DetectsCorruption(buf: seq<bv8>, length: nat, k: nat, x: bv8)
    requires |buf| == length + 4 && Am2321Check(buf, length).Ok?
    requires k < length + 4 && x != buf[k]
    ensures Am2321Check(buf[k := x], length).Err?
  {
    var bad := buf[k := x];
    var n := length + 2;
    assert buf[0] == 0x03 && buf[1] as nat == length;
    if k < 2 {
      assert bad[0] != 0x03 || bad[1] as nat != length;
    } else if k < n {
      assert bad[0] == buf[0] && bad[1] == buf[1];
      Am2321PayloadCorruption(buf, length, k, x);
    } else {
      assert bad[0] == buf[0] && bad[1] == buf[1];
      Am2321CheckWordCorruption(buf, length, k, x);
    }
  }

  lemma Am2321CheckWordCorruption(buf: seq<bv8>, length: nat, k: nat, x: bv8)
    requires |buf| == length + 4 && Am2321CrcOk(buf, length)
    requires length + 2 <= k < length + 4 && x != buf[k]
    ensures !Am2321CrcOk(buf[k := x], length)
  {
    var n := length + 2;
    assert buf[k := x][..n] == buf[..n];
  }

  lemma Am2321PayloadCorruption(buf: seq<bv8>, length: nat, k: nat, x: bv8)
    requires |buf| == length + 4 && Am2321CrcOk(buf, length)
    requires 2 <= k < length + 2 && x != buf[k]
    ensures !Am2321CrcOk(buf[k := x], length)
  {
    var bad := buf[k := x];
    var n := length + 2;
    assert bad[n] == buf[n] && bad[n + 1] == buf[n + 1];
    Crc16DetectsSingleByteError(0xFFFF, buf[..n], bad[..n], k);
    if Am2321CrcOk(bad, length) {
      LoHiInjective(Crc16(bad[..n]), Crc16(buf[..n]));
    }
  }

  lemma LoHiInjective(a: bv16, b: bv16)
    requires Lo(a) == Lo(b) && Hi(a) == Hi(b)
    ensures a == b
  {
    LowFirstOf(a);
    LowFirstOf(b);
  }

  /** The register read request of sensor_am2321_read_registers: function
      code 0x03, start register, register count. */
  function Am2321RequestBytes(offset: bv8, length: nat): seq<bv8>
    requires length < 256
  {
    [0x03, offset, ByteOf(length)]
  }

  function Am2321Request(address: bv8, offset: bv8, length: nat): Transfer
    requires length < 256
  {
    Write(address, Am2321RequestBytes(offset, length))
  }

  /** A loop of at most n attempts at a send that stops at the first that
      completes; its result is that of the last attempt made. */
  function RetrySendSpec(script: seq<Reply>, at: nat, address: bv8, bytes: seq<bv8>, n: nat): (r: Run<()>)
    requires n > 0
    ensures 1 <= |r.transfers| <= n
  {
    var k := Attempts(script, at, n);
    Run(Completed(ReplyAt(script, at + k - 1)), Repeat(Write(address, bytes), k))
  }

  /** The same loop around a receive. */
  function RetryReceiveSpec(script: seq<Reply>, at: nat, address: bv8, count: nat, n: nat): (r: Run<seq<bv8>>)
    requires n > 0
    ensures 1 <= |r.transfers| <= n
    ensures r.result.Ok? ==> |r.result.value| == count
  {
    var k := Attempts(script, at, n);
    Run(Received(ReplyAt(script, at + k - 1), count), Repeat(Read(address, count), k))
  }

  /** The reply loop of sensor_am2321_read_registers and the frame check. */
  function Am2321FetchSpec(script: seq<Reply>, at: nat, address: bv8, length: nat): Run<seq<bv8>>
    requires length <= 28
  {
    var fetch := RetryReceiveSpec(script, at, address, length + 4, 32);
    if fetch.result.Err? then fetch
    else Run(Am2321Check(fetch.result.value, length), fetch.transfers)
  }

  function Am2321ReadSpec(script: seq<Reply>, at: nat, address: bv8, offset: bv8, length: nat): Run<seq<bv8>>
    requires length <= 28
  {
    var wake := Write(address, [0x00]);
    var request := RetrySendSpec(script, at + 1, address, Am2321RequestBytes(offset, length), 32);
    if request.result.Err? then Run(Err(request.result.error), [wake] + request.transfers)
    else Join([wake] + request.transfers, Am2321FetchSpec(script, at + 1 + |request.transfers|, address, length))
  }

  /** The request is repeated while the device does not answer and stops at the
      first answer: a device that misses a few requests still gets read. */
  lemma Am2321Retries(script: seq<Reply>, at: nat, address: bv8, offset: bv8, length: nat, failures: nat)
    requires length <= 28 && failures < 32
    requires forall j :: at + 1 <= j <= at + failures ==> ReplyAt(script, j).Nack?
    requires ReplyAt(script, at + failures + 1).Ack?
    ensures var run := Am2321ReadSpec(script, at, address, offset, length);
            |run.transfers| >= failures + 2
            && run.transfers[..failures + 2]
               == [Write(address, [0x00])] + Repeat(Am2321Request(address, offset, length), failures + 1)
  {
    AttemptsStop(script, at + 1, 32, failures + 1);
  }

  /** A well-formed frame received at the first try passes the check. */
  lemma Am2321FetchDelivers(script: seq<Reply>, at: nat, address: bv8, data: seq<bv8>)
    requires |data| <= 28
    requires ReplyAt(script, at) == Ack(Am2321Frame(data))
    ensures Am2321FetchSpec(script, at, address, |data|).result == Ok(data)
  {
    assert Attempts(script, at, 32) == 1;
    assert Fit(Am2321Frame(data), |data| + 4) == Am2321Frame(data);
    Am2321FrameRoundTrip(data);
  }

  /** The payload of a successful read is the payload of the frame. */
  lemma Am2321ReadDelivers(script: seq<Reply>, at: nat, address: bv8, offset: bv8, data: seq<bv8>)
    requires |data| <= 28
    requires ReplyAt(script, at + 1).Ack?
    requires ReplyAt(script, at + 2) == Ack(Am2321Frame(data))
    ensures Am2321ReadSpec(script, at, address, offset, |data|).result == Ok(data)
  {
    assert Attempts(script, at + 1, 32) == 1;
    Am2321FetchDelivers(script, at + 2, address, data);
  }

  /** The retry loops of sensor_am2321_read_registers, around a send. */
  method RetrySend(bus: Bus, address: bv8, bytes: seq<bv8>, n: nat) returns (r: Result<()>)
    requires n > 0
    modifies bus
    ensures var run := RetrySendSpec(bus.replies, old(bus.position), address, bytes, n);
            r == run.result && bus.trace == old(bus.trace) + run.transfers
            && bus.position == old(bus.position) + |run.transfers|
  {
    ghost var at := bus.position;
    ghost var before := bus.trace;
    var attempt := n;
    r := Ok(());
    while attempt > 0
      invariant 0 <= attempt <= n
      invariant forall j :: at <= j < at + n - attempt ==> ReplyAt(bus.replies, j).Nack?
      invariant attempt < n ==> r == Completed(ReplyAt(bus.replies, at + n - attempt - 1))
      invariant bus.position == at + n - attempt
      invariant bus.trace == before + Repeat(Write(address, bytes), n - attempt)
    {
      RepeatSnoc(Write(address, bytes), n - attempt);
      r := bus.Send(address, bytes);
      if r.Ok? {
        AttemptsStop(bus.replies, at, n, n - attempt + 1);
        return;
      }
      attempt := attempt - 1;
    }
    AttemptsStop(bus.replies, at, n, n);
  }

  /** The same loop around a receive. */
  method RetryReceive(bus: Bus, address: bv8, count: nat, n: nat) returns (r: Result<seq<bv8>>)
    requires n > 0
    modifies bus
    ensures var run := RetryReceiveSpec(bus.replies, old(bus.position), address, count, n);
            r == run.result && bus.trace == old(bus.trace) + run.transfers
            && bus.position == old(bus.position) + |run.transfers|
  {
    ghost var at := bus.position;
    ghost var before := bus.trace;
    var attempt := n;
    r := Ok([]);
    while attempt > 0
      invariant 0 <= attempt <= n
      invariant forall j :: at <= j < at + n - attempt ==> ReplyAt(bus.replies, j).Nack?
      invariant attempt < n ==> r == Received(ReplyAt(bus.replies, at + n - attempt - 1), count)
      invariant bus.position == at + n - attempt
      invariant bus.trace == before + Repeat(Read(address, count), n - attempt)
    {
      RepeatSnoc(Read(address, count), n - attempt);
      r := bus.Receive(address, count);
      if r.Ok? {
        AttemptsStop(bus.replies, at, n, n - attempt + 1);
        return;
      }
      attempt := attempt - 1;
    }
    AttemptsStop(bus.replies, at, n, n);
  }

  /** sensor_am2321_read_registers: wake the device (ignoring the answer), ask
      for the registers up to 32 times, read the reply up to 32 times, then check
      the frame. The receive buffer holds 32 bytes. */
  method Am2321ReadRegisters(bus: Bus, address: bv8, offset: bv8, length: nat) returns (r: Result<seq<bv8>>)
    requires length <= 28
    modifies bus
    ensures var run := Am2321ReadSpec(bus.replies, old(bus.position), address, offset, length);
            r == run.result && bus.trace == old(bus.trace) + run.transfers
            && bus.position == old(bus.position) + |run.transfers|
  {
    ghost var at := bus.position;
    ghost var before := bus.trace;
    ghost var wake := Write(address, [0x00]);
    var _ := bus.Send(address, [0x00]);
    ghost var request := RetrySendSpec(bus.replies, at + 1, address, Am2321RequestBytes(offset, length), 32);
    var sent := RetrySend(bus, address, Am2321RequestBytes(offset, length), 32);
    Concat(before, [wake], request.transfers);
    ghost var spec := Am2321ReadSpec(bus.replies, at, address, offset, length);
    if sent.Err? {
      assert spec == Run(Err(sent.error), [wake] + request.transfers);
      return Err(sent.error);
    }
    ghost var fetch := Am2321FetchSpec(bus.replies, at + 1 + |request.transfers|, address, length);
    assert spec == Join([wake] + request.transfers, fetch);
    r := Am2321Fetch(bus, address, length);
    Concat(before, [wake] + request.transfers, fetch.transfers);
  }

  method Am2321Fetch(bus: Bus, address: bv8, length: nat) returns (r: Result<seq<bv8>>)
    requires length <= 28
    modifies bus
    ensures var run := Am2321FetchSpec(bus.replies, old(bus.position), address, length);
            r == run.result && bus.trace == old(bus.trace) + run.transfers
            && bus.position == old(bus.position) + |run.transfers|
  {
    var got := RetryReceive(bus, address, length + 4, 32);
    if got.Err? {
      return Err(got.error);
    }
    r := Am2321CheckFrame(got.value, length);
  }

  /** The end of sensor_am2321_read_registers: header, then checksum. */
  method Am2321CheckFrame(buf: seq<bv8>, length: nat) returns (r: Result<seq<bv8>>)
    requires |buf| == length + 4 && length <= 28
    ensures r == Am2321Check(buf, length)
  {
    if buf[0] != 0x03 || buf[1] as nat != length {
      return Err(DeviceError(2));
    }
    var received := LowFirstWord(buf[length + 2], buf[length + 3]);
    var computed := Am2321Crc(buf[..length + 2]);
    if received != computed {
      return Err(DeviceError(3));
    }
    r := Ok(buf[2..length + 2]);
  }
  // ------------------------------------------------------------ TSL2550

  /** One attempt of sensor_tsl2550_read: channel 0 (command 0x43), then
      channel 1 (command 0x83), giving up at the first failing transfer. */
  function Tsl2550AttemptSpec(script: seq<Reply>, at: nat, address: bv8): (r: Run<(bv8, bv8)>)
    ensures 1 <= |r.transfers| <= 4
  {
    var first := RegisterReadSpec(script, at, address, 0x43);
    if first.result.Err? then Run(Err(first.result.error), first.transfers)
    else
      var second := RegisterReadSpec(script, at + 2, address, 0x83);
      if second.result.Err? then Run(Err(second.result.error), first.transfers + second.transfers)
      else Run(Ok((first.result.value, second.result.value)), first.transfers + second.transfers)
  }

  /** An attempt asks for channel 0 first; it succeeds exactly when all four
      transfers are acknowledged, and then holds the two codes received. */
  lemma Tsl2550AttemptReads(script: seq<Reply>, at: nat, address: bv8)
    ensures var r := Tsl2550AttemptSpec(script, at, address);
            r.transfers[0] == Write(address, [0x43])
            && (r.result.Ok? <==> forall j :: at <= j < at + 4 ==> ReplyAt(script, j).Ack?)
            && (r.result.Ok? ==> r.transfers == Tsl2550AllAttempts(address, 1)
                                 && r.result.value == (ByteAt(script, at + 1), ByteAt(script, at + 3)))
  {
  }

  /** Both channel codes carry their valid bit (0x80). */
  predicate Tsl2550Valid(channels: (bv8, bv8))
  {
    channels.0 & 0x80 != 0 && channels.1 & 0x80 != 0
  }

  /** The attempt loop from a given state: `attempts` attempts left, the
      reading of the last attempt and the transfers so far. It leaves early only
      on a valid pair of channel codes; when the attempts run out it ends with
      the reading of the last one, whatever it is. */
  function Tsl2550LoopFrom(script: seq<Reply>, at: nat, address: bv8, attempts: nat,
                           reading: Result<(bv8, bv8)>, done: seq<Transfer>): (r: Run<(bv8, bv8)>)
    ensures |done| <= |r.transfers| <= |done| + 4 * attempts
    decreases attempts
  {
    if attempts == 0 then Run(reading, done)
    else
      var first := Tsl2550AttemptSpec(script, at, address);
      if first.result.Ok? && Tsl2550Valid(first.result.value) then Run(first.result, done + first.transfers)
      else Tsl2550LoopFrom(script, at + |first.transfers|, address, attempts - 1, first.result, done + first.transfers)
  }

  /** At most `attempts` attempts from position `at`. */
  function Tsl2550LoopSpec(script: seq<Reply>, at: nat, address: bv8, attempts: nat): (r: Run<(bv8, bv8)>)
    requires attempts > 0
    ensures 1 <= |r.transfers| <= 4 * attempts
  {
    Tsl2550AttemptSize(script, at, address);
    Tsl2550LoopFrom(script, at, address, attempts, Ok((0, 0)), [])
  }

  lemma Tsl2550AttemptSize(script: seq<Reply>, at: nat, address: bv8)
    ensures |Tsl2550AttemptSpec(script, at, address).transfers| >= 1
  {
  }

  /** The loop leaves early exactly on a valid reading: one attempt more
      changes nothing after a valid reading, and any other outcome (an error or
      codes without both valid bits) only means that the attempts ran out, since
      one attempt more would have gone on. */
  lemma {:induction false} Tsl2550StopsOnValid(script: seq<Reply>, at: nat, address: bv8, attempts: nat,
                                               reading: Result<(bv8, bv8)>, done: seq<Transfer>)
    requires attempts > 0
    ensures var r := Tsl2550LoopFrom(script, at, address, attempts, reading, done);
            var more := Tsl2550LoopFrom(script, at, address, attempts + 1, reading, done);
            (r.result.Ok? && Tsl2550Valid(r.result.value) ==> more == r)
            && (!(r.result.Ok? && Tsl2550Valid(r.result.value)) ==> |more.transfers| > |r.transfers|)
    decreases attempts
  {
    var first := Tsl2550AttemptSpec(script, at, address);
    if !(first.result.Ok? && Tsl2550Valid(first.result.value)) {
      var next := at + |first.transfers|;
      if attempts == 1 {
        Tsl2550AttemptSize(script, next, address);
      } else {
        Tsl2550StopsOnValid(script, next, address, attempts - 1, first.result, done + first.transfers);
      }
    }
  }

  /** A first attempt whose four transfers are acknowledged and whose two codes
      carry the valid bit is returned after those four transfers. */
  lemma Tsl2550ValidFirst(script: seq<Reply>, at: nat, address: bv8, attempts: nat, reading: Result<(bv8, bv8)>,
                          done: seq<Transfer>)
    requires attempts > 0
    requires forall j :: at <= j < at + 4 ==> ReplyAt(script, j).Ack?
    requires ByteAt(script, at + 1) & 0x80 != 0 && ByteAt(script, at + 3) & 0x80 != 0
    ensures Tsl2550LoopFrom(script, at, address, attempts, reading, done)
            == Run(Ok((ByteAt(script, at + 1), ByteAt(script, at + 3))), done + Tsl2550AllAttempts(address, 1))
  {
    Tsl2550AttemptReads(script, at, address);
  }

  /** An attempt that fails hands back the error of its last transfer. */
  lemma Tsl2550AttemptError(script: seq<Reply>, at: nat, address: bv8)
    ensures var r := Tsl2550AttemptSpec(script, at, address);
            r.result.Err? ==> ReplyAt(script, at + |r.transfers| - 1) == Nack(r.result.error)
  {
  }

  /** A failed read hands back the error of the transfer that failed, and that
      transfer is the last one issued: the loop gives up after a failed attempt
      only when it was the last. */
  lemma {:induction false} Tsl2550LoopError(script: seq<Reply>, at: nat, address: bv8, attempts: nat,
                                            reading: Result<(bv8, bv8)>, done: seq<Transfer>)
    requires attempts > 0
    ensures var r := Tsl2550LoopFrom(script, at, address, attempts, reading, done);
            r.result.Err? ==> ReplyAt(script, at + |r.transfers| - |done| - 1) == Nack(r.result.error)
    decreases attempts
  {
    var first := Tsl2550AttemptSpec(script, at, address);
    var r := Tsl2550LoopFrom(script, at, address, attempts, reading, done);
    if (first.result.Ok? && Tsl2550Valid(first.result.value)) || attempts == 1 {
      assert r == Run(first.result, done + first.transfers);
      Tsl2550AttemptError(script, at, address);
    } else {
      var next := at + |first.transfers|;
      assert r == Tsl2550LoopFrom(script, next, address, attempts - 1, first.result, done + first.transfers);
      Tsl2550LoopError(script, next, address, attempts - 1, first.result, done + first.transfers);
    }
  }

  /** A device that always answers but never sets the valid bits is still read:
      after the last attempt the loop ends without an error, and the codes of
      that attempt are used. */
  lemma {:induction false} Tsl2550InvalidReadingsAccepted(script: seq<Reply>, at: nat, address: bv8, attempts: nat,
                                                          reading: Result<(bv8, bv8)>, done: seq<Transfer>)
    requires attempts > 0
    requires forall j :: at <= j < at + 4 * attempts ==> ReplyAt(script, j) == Ack([])
    ensures Tsl2550LoopFrom(script, at, address, attempts, reading, done)
            == Run(Ok((0, 0)), done + Tsl2550AllAttempts(address, attempts))
    decreases attempts
  {
    var r := Tsl2550LoopFrom(script, at, address, attempts, reading, done);
    var first := Tsl2550AllAttempts(address, 1);
    Tsl2550EmptyAttempt(script, at, address);
    assert !Tsl2550Valid((0, 0));
    assert first + Tsl2550AllAttempts(address, attempts - 1) == Tsl2550AllAttempts(address, attempts);
    if attempts == 1 {
      assert r == Run(Ok((0, 0)), done + first);
      assert Tsl2550AllAttempts(address, 0) == [];
    } else {
      assert r == Tsl2550LoopFrom(script, at + 4, address, attempts - 1, Ok((0, 0)), done + first);
      Tsl2550InvalidReadingsAccepted(script, at + 4, address, attempts - 1, Ok((0, 0)), done + first);
      assert (done + first) + Tsl2550AllAttempts(address, attempts - 1)
             == done + Tsl2550AllAttempts(address, attempts);
    }
  }

  lemma Tsl2550EmptyAttempt(script: seq<Reply>, at: nat, address: bv8)
    requires forall j :: at <= j < at + 4 ==> ReplyAt(script, j) == Ack([])
    ensures Tsl2550AttemptSpec(script, at, address) == Run(Ok((0, 0)), Tsl2550AllAttempts(address, 1))
  {
    assert Fit([], 1) == [0];
    assert ByteAt(script, at + 1) == 0;
    assert ByteAt(script, at + 3) == 0;
  }

  /** The transfers of n complete attempts. */
  function Tsl2550AllAttempts(address: bv8, n: nat): (ts: seq<Transfer>)
    ensures |ts| == 4 * n
  {
    if n == 0 then []
    else [Write(address, [0x43]), Read(address, 1), Write(address, [0x83]), Read(address, 1)]
         + Tsl2550AllAttempts(address, n - 1)
  }

  /** The integer part of a TSL2550 reading: value->raw, and the ratio index
      into tsl2550_ratio. */
  datatype Tsl2550Reading = Tsl2550Reading(raw: nat, ratio: nat)

  function Tsl2550ReadingOf(channels: (bv8, bv8)): (r: Tsl2550Reading)
    ensures r.raw == Tsl2550Raw(channels.0, channels.1) && r.ratio <= 128
  {
    LowSeven(channels.0);
    LowSeven(channels.1);
    Tsl2550Reading(Tsl2550Raw(channels.0, channels.1),
                   Tsl2550RatioIndex((channels.0 & 0x7F) as nat, (channels.1 & 0x7F) as nat))
  }

  function Tsl2550ReadSpec(script: seq<Reply>, at: nat, bits: seq<seq<bool>>, bus: nat, address: bv8): (r: Run<Tsl2550Reading>)
    requires IsTable(bits) && bus < Buses
    ensures Detected(bits, bus, Tsl2560Sensor0) ==> r == Run(Err(DeviceError(1)), [])
    ensures !Detected(bits, bus, Tsl2560Sensor0) ==> 1 <= |r.transfers| <= 64
    ensures r.result.Ok? ==> r.result.value.ratio <= 128 && r.result.value.raw < 1280000
  {
    if Detected(bits, bus, Tsl2560Sensor0) then Run(Err(DeviceError(1)), [])
    else
      var loop := Tsl2550LoopSpec(script, at, address, 16);
      if loop.result.Err? then Run(Err(loop.result.error), loop.transfers)
      else Run(Ok(Tsl2550ReadingOf(loop.result.value)), loop.transfers)
  }

  method Tsl2550Attempt(bus: Bus, address: bv8) returns (r: Result<(bv8, bv8)>)
    modifies bus
    ensures var run := Tsl2550AttemptSpec(bus.replies, old(bus.position), address);
            r == run.result && bus.trace == old(bus.trace) + run.transfers
            && bus.position == old(bus.position) + |run.transfers|
  {
    var ch0 := RegisterRead(bus, address, 0x43);
    if ch0.Err? {
      return Err(ch0.error);
    }
    var ch1 := RegisterRead(bus, address, 0x83);
    if ch1.Err? {
      return Err(ch1.error);
    }
    r := Ok((ch0.value, ch1.value));
  }

  /** sensor_tsl2550_read up to the raw value: refused while TSL2560 #0 (same
      address) is detected, then at most 16 attempts. */
  method Tsl2550Read(bus: Bus, bits: seq<seq<bool>>, busNumber: nat, address: bv8) returns (r: Result<Tsl2550Reading>)
    requires IsTable(bits) && busNumber < Buses
    modifies bus
    ensures var run := Tsl2550ReadSpec(bus.replies, old(bus.position), bits, busNumber, address);
            r == run.result && bus.trace == old(bus.trace) + run.transfers
            && bus.position == old(bus.position) + |run.transfers|
  {
    if Detected(bits, busNumber, Tsl2560Sensor0) {
      return Err(DeviceError(1));
    }
    var reading := Tsl2550Loop(bus, address);
    if reading.Err? {
      return Err(reading.error);
    }
    r := Ok(Tsl2550ReadingOf(reading.value));
  }

  /** One pass of the attempt loop: an attempt, and whether the loop leaves
      after it. */
  method Tsl2550Round(bus: Bus, address: bv8, attempt: nat, ghost reading0: Result<(bv8, bv8)>,
                      ghost done: seq<Transfer>) returns (reading: Result<(bv8, bv8)>, stop: bool)
    requires attempt > 0
    modifies bus
    ensures var first := Tsl2550AttemptSpec(bus.replies, old(bus.position), address);
            reading == first.result && bus.trace == old(bus.trace) + first.transfers
            && bus.position == old(bus.position) + |first.transfers|
            && (stop ==> Tsl2550LoopFrom(bus.replies, old(bus.position), address, attempt, reading0, done)
                         == Run(reading, done + first.transfers))
            && (!stop ==> Tsl2550LoopFrom(bus.replies, old(bus.position), address, attempt, reading0, done)
                          == Tsl2550LoopFrom(bus.replies, bus.position, address, attempt - 1, reading, done + first.transfers))
  {
    reading := Tsl2550Attempt(bus, address);
    stop := reading.Ok? && Tsl2550Valid(reading.value);
  }

  /** The attempt loop of sensor_tsl2550_read. */
  method Tsl2550Loop(bus: Bus, address: bv8) returns (reading: Result<(bv8, bv8)>)
    modifies bus
    ensures var run := Tsl2550LoopSpec(bus.replies, old(bus.position), address, 16);
            reading == run.result && bus.trace == old(bus.trace) + run.transfers
            && bus.position == old(bus.position) + |run.transfers|
  {
    ghost var at := bus.position;
    ghost var before := bus.trace;
    ghost var done: seq<Transfer> := [];
    ghost var goal := Tsl2550LoopSpec(bus.replies, at, address, 16);
    reading := Ok((0, 0));
    var attempt := 16;
    while attempt > 0
      invariant 0 <= attempt <= 16
      invariant bus.position == at + |done|
      invariant bus.trace == before + done
      invariant Tsl2550LoopFrom(bus.replies, bus.position, address, attempt, reading, done) == goal
    {
      ghost var first := Tsl2550AttemptSpec(bus.replies, bus.position, address);
      var stop;
      reading, stop := Tsl2550Round(bus, address, attempt, reading, done);
      Concat(before, done, first.transfers);
      done := done + first.transfers;
      if stop {
        break;
      }
      attempt := attempt - 1;
    }
  }
}
