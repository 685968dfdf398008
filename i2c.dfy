/** The I2C transport the sensor drivers sit on, as the drivers see it.
    The bus itself is foreign code: here it is a fixed script of replies, one
    per transfer, and a trace of the transfers the drivers issued. */
module I2c {

  /** i2c_error_t, as far as the drivers distinguish it: a device that does not
      acknowledge, a protocol check that failed (device_error_1 … device_error_5),
      or any other transport failure passed through unchanged. */
  datatype I2cError = AddressNak | DeviceError(n: nat) | BusFault(code: nat)

  datatype Result<T> = Ok(value: T) | Err(error: I2cError)
  {
    predicate IsFailure() { Err? }

    function PropagateFailure<U>(): Result<U>
      requires Err?
    {
      Err(error)
    }

    function Extract(): T
      requires Ok?
    {
      value
    }
  }

  /** What a driver asks of the bus. Probe stands for a chip identification
      sequence that this model does not spell out transfer by transfer. */
  datatype Transfer =
    | SelectBus(bus: nat)
    | Write(address: bv8, bytes: seq<bv8>)
    | Read(address: bv8, count: nat)
    | Probe(address: bv8, sensor: nat)

  /** What the bus answers: the transfer completed (with the bytes read, if any)
      or failed with an error. */
  datatype Reply = Ack(data: seq<bv8>) | Nack(error: I2cError)

  /** The reply to the i-th transfer from now. A bus whose script is used up
      behaves like a bus with nothing attached: nobody acknowledges. */
  function ReplyAt(script: seq<Reply>, i: nat): Reply
  {
    if i < |script| then script[i] else Nack(AddressNak)
  }

  /** The bytes a receive of n bytes hands back: what the device sent, cut or
      zero-padded to the length asked for. */
  function Fit(data: seq<bv8>, n: nat): (r: seq<bv8>)
    ensures |r| == n
    ensures forall i :: 0 <= i < n ==> r[i] == if i < |data| then data[i] else 0
  {
    if n <= |data| then data[..n] else data + seq(n - |data|, _ => 0 as bv8)
  }

  /** The result of a send (or of a bus selection) given the bus's reply. */
  function Completed(reply: Reply): (r: Result<()>)
    ensures r.Ok? <==> reply.Ack?
    ensures r.Err? ==> r.error == reply.error
  {
    if reply.Ack? then Ok(()) else Err(reply.error)
  }

  /** The result of a receive of n bytes given the bus's reply. */
  function Received(reply: Reply, n: nat): (r: Result<seq<bv8>>)
    ensures r.Ok? <==> reply.Ack?
    ensures r.Ok? ==> r.value == Fit(reply.data, n)
    ensures r.Err? ==> r.error == reply.error
  {
    if reply.Ack? then Ok(Fit(reply.data, n)) else Err(reply.error)
  }

  class Bus {
    /** The replies the bus gives, one per transfer, in order. */
    const replies: seq<Reply>
    /** The number of transfers issued so far: the next one gets reply
        ReplyAt(replies, position). */
    var position: nat
    /** Every transfer issued so far, oldest first. */
    var trace: seq<Transfer>

    constructor (script: seq<Reply>)
      ensures replies == script && position == 0 && trace == []
    {
      replies := script;
      position := 0;
      trace := [];
    }

    method Exchange(t: Transfer) returns (reply: Reply)
      modifies this
      ensures reply == ReplyAt(replies, old(position))
      ensures position == old(position) + 1
      ensures trace == old(trace) + [t]
    {
      reply := ReplyAt(replies, position);
      position := position + 1;
      trace := trace + [t];
    }

    /** i2c_send / i2c_send_1 / _2 / _3: write bytes to a device. */
    method Send(address: bv8, bytes: seq<bv8>) returns (r: Result<()>)
      modifies this
      ensures r == Completed(ReplyAt(replies, old(position)))
      ensures position == old(position) + 1
      ensures trace == old(trace) + [Write(address, bytes)]
    {
      var reply := Exchange(Write(address, bytes));
      r := Completed(reply);
    }

    /** i2c_receive: read count bytes from a device. */
    method Receive(address: bv8, count: nat) returns (r: Result<seq<bv8>>)
      modifies this
      ensures r == Received(ReplyAt(replies, old(position)), count)
      ensures r.Ok? ==> |r.value| == count
      ensures position == old(position) + 1
      ensures trace == old(trace) + [Read(address, count)]
    {
      var reply := Exchange(Read(address, count));
      r := Received(reply, count);
    }

    /** The identification and set-up sequence of a chip whose detection this
        model does not spell out, as one exchange. */
    method Identify(address: bv8, sensor: nat) returns (r: Result<()>)
      modifies this
      ensures r == Completed(ReplyAt(replies, old(position)))
      ensures position == old(position) + 1
      ensures trace == old(trace) + [Probe(address, sensor)]
    {
      var reply := Exchange(Probe(address, sensor));
      r := Completed(reply);
    }

    /** i2c_select_bus. */
    method Select(bus: nat) returns (r: Result<()>)
      modifies this
      ensures r == Completed(ReplyAt(replies, old(position)))
      ensures position == old(position) + 1
      ensures trace == old(trace) + [SelectBus(bus)]
    {
      var reply := Exchange(SelectBus(bus));
      r := Completed(reply);
    }
  }
}
