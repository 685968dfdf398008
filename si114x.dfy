/** si114x_wait_idle of i2c_sensor.c: poll the SI114x chip status register
    until the chip reports that it is idle, at most si114x_attempt_count times. */
module Si114x {
  import opened I2c
  import opened Sensors

  /** The chip's fixed bus address, its chip_stat register and the status that
      means idle. */
  const ChipAddress: bv8 := 0x60
  const ChipStat: bv8 := 0x30
  const Idle: bv8 := 1

  /** si114x_attempt_count. */
  const AttemptCount: nat := 16

  /** The poll from a given state: attempts left and the transfers so far. A
      failed register read is returned at once; status 1 ends the wait; running
      out of attempts is device_error_1. */
  function WaitFrom(script: seq<Reply>, at: nat, attempts: nat, done: seq<Transfer>): (r: Run<()>)
    ensures |done| <= |r.transfers| <= |done| + 2 * attempts
    decreases attempts
  {
    if attempts == 0 then Run(Err(DeviceError(1)), done)
    else
      var status := RegisterReadSpec(script, at, ChipAddress, ChipStat);
      if status.result.Err? then Run(Err(status.result.error), done + status.transfers)
      else if status.result.value == Idle then Run(Ok(()), done + status.transfers)
      else WaitFrom(script, at + 2, attempts - 1, done + status.transfers)
  }

  function WaitIdleSpec(script: seq<Reply>, at: nat): (r: Run<()>)
    ensures |r.transfers| <= 2 * AttemptCount
  {
    WaitFrom(script, at, AttemptCount, [])
  }

  /** The wait succeeds only on a status read that returned 1, and that read is
      the last transfer. */
  lemma {:induction false} WaitOk(script: seq<Reply>, at: nat, attempts: nat, done: seq<Transfer>)
    ensures var r := WaitFrom(script, at, attempts, done);
            var n := |r.transfers| - |done|;
            r.result.Ok? ==> n >= 2 && ReplyAt(script, at + n - 1).Ack? && ByteAt(script, at + n - 1) == Idle
    decreases attempts
  {
    if attempts > 0 {
      var status := RegisterReadSpec(script, at, ChipAddress, ChipStat);
      if status.result.Ok? && status.result.value != Idle {
        WaitOk(script, at + 2, attempts - 1, done + status.transfers);
      }
    }
  }

  /** A chip that answers the first k reads with a busy status and read k + 1
      with idle ends the wait with ok after exactly those k + 1 reads. */
  lemma {:induction false} WaitIdleAt(script: seq<Reply>, at: nat, attempts: nat, done: seq<Transfer>, k: nat)
    requires k < attempts
    requires forall i :: 0 <= i < k ==>
               ReplyAt(script, at + 2 * i).Ack? && ReplyAt(script, at + 2 * i + 1).Ack?
               && ByteAt(script, at + 2 * i + 1) != Idle
    requires ReplyAt(script, at + 2 * k).Ack? && ReplyAt(script, at + 2 * k + 1).Ack?
             && ByteAt(script, at + 2 * k + 1) == Idle
    ensures var r := WaitFrom(script, at, attempts, done);
            r.result == Ok(()) && |r.transfers| == |done| + 2 * (k + 1)
    decreases k
  {
    var status := RegisterReadSpec(script, at, ChipAddress, ChipStat);
    if k > 0 {
      assert ReplyAt(script, at + 2 * 0).Ack? && ReplyAt(script, at + 2 * 0 + 1).Ack?;
      assert ByteAt(script, at + 2 * 0 + 1) != Idle;
      forall i | 0 <= i < k - 1
        ensures ReplyAt(script, at + 2 + 2 * i).Ack? && ReplyAt(script, at + 2 + 2 * i + 1).Ack?
                && ByteAt(script, at + 2 + 2 * i + 1) != Idle
      {
        assert at + 2 + 2 * i == at + 2 * (i + 1);
      }
      assert at + 2 + 2 * (k - 1) == at + 2 * k;
      WaitIdleAt(script, at + 2, attempts - 1, done + status.transfers, k - 1);
    }
  }

  /** si114x_wait_idle itself: idle on read k + 1, for k < 16, is ok after
      2(k + 1) transfers. */
  lemma WaitIdleSucceeds(script: seq<Reply>, at: nat, k: nat)
    requires k < AttemptCount
    requires forall i :: 0 <= i < k ==>
               ReplyAt(script, at + 2 * i).Ack? && ReplyAt(script, at + 2 * i + 1).Ack?
               && ByteAt(script, at + 2 * i + 1) != Idle
    requires ReplyAt(script, at + 2 * k).Ack? && ReplyAt(script, at + 2 * k + 1).Ack?
             && ByteAt(script, at + 2 * k + 1) == Idle
    ensures WaitIdleSpec(script, at).result == Ok(()) && |WaitIdleSpec(script, at).transfers| == 2 * (k + 1)
  {
    WaitIdleAt(script, at, AttemptCount, [], k);
  }

  /** A chip that answers every read but never reports idle is given up on with
      device_error_1, after every attempt. */
  lemma {:induction false} WaitBusy(script: seq<Reply>, at: nat, attempts: nat, done: seq<Transfer>)
    requires forall i :: 0 <= i < attempts ==>
               ReplyAt(script, at + 2 * i).Ack? && ReplyAt(script, at + 2 * i + 1).Ack?
               && ByteAt(script, at + 2 * i + 1) != Idle
    ensures WaitFrom(script, at, attempts, done).result == Err(DeviceError(1))
    ensures |WaitFrom(script, at, attempts, done).transfers| == |done| + 2 * attempts
    decreases attempts
  {
    if attempts > 0 {
      assert ReplyAt(script, at + 2 * 0).Ack? && ReplyAt(script, at + 2 * 0 + 1).Ack?;
      assert ByteAt(script, at + 2 * 0 + 1) != Idle;
      var status := RegisterReadSpec(script, at, ChipAddress, ChipStat);
      forall i | 0 <= i < attempts - 1
        ensures ReplyAt(script, at + 2 + 2 * i).Ack? && ReplyAt(script, at + 2 + 2 * i + 1).Ack?
                && ByteAt(script, at + 2 + 2 * i + 1) != Idle
      {
        assert at + 2 + 2 * i == at + 2 * (i + 1);
      }
      WaitBusy(script, at + 2, attempts - 1, done + status.transfers);
    }
  }

  /** Any other error is the error of the read that failed, the last transfer. */
  lemma {:induction false} WaitError(script: seq<Reply>, at: nat, attempts: nat, done: seq<Transfer>)
    ensures var r := WaitFrom(script, at, attempts, done);
            var n := |r.transfers| - |done|;
            r.result.Err? ==>
              (r.result.error == DeviceError(1) && n == 2 * attempts)
              || (n > 0 && ReplyAt(script, at + n - 1) == Nack(r.result.error))
    decreases attempts
  {
    if attempts > 0 {
      var status := RegisterReadSpec(script, at, ChipAddress, ChipStat);
      if status.result.Ok? && status.result.value != Idle {
        WaitError(script, at + 2, attempts - 1, done + status.transfers);
      }
    }
  }

  /** si114x_wait_idle. */
  method WaitIdle(bus: Bus) returns (r: Result<()>)
    modifies bus
    ensures var run := WaitIdleSpec(bus.replies, old(bus.position));
            r == run.result && bus.trace == old(bus.trace) + run.transfers
            && bus.position == old(bus.position) + |run.transfers|
  {
    ghost var at := bus.position;
    ghost var before := bus.trace;
    ghost var done: seq<Transfer> := [];
    ghost var goal := WaitIdleSpec(bus.replies, at);
    var attempt := AttemptCount;
    while attempt > 0
      invariant bus.position == at + |done| && bus.trace == before + done
      invariant WaitFrom(bus.replies, bus.position, attempt, done) == goal
    {
      ghost var status := RegisterReadSpec(bus.replies, bus.position, ChipAddress, ChipStat);
      var value := RegisterRead(bus, ChipAddress, ChipStat);
      Concat(before, done, status.transfers);
      done := done + status.transfers;
      if value.Err? {
        return Err(value.error);
      }
      if value.value == Idle {
        return Ok(());
      }
      attempt := attempt - 1;
    }
    r := Err(DeviceError(1));
  }
}
