/** The sensor registry of i2c_sensor.c: device_data[].detected, one word per
    sensor with a bit per bus, kept by i2c_sensor_init and filled in by
    i2c_sensor_init_all. */
module Registry {
  import opened I2c
  import opened SensorTable
  import opened Sensors
  import ChipInit

  /** i2c_sensor_init as a function of the script: unknown sensors are refused
      with device_error_4; otherwise select the bus, run the init routine, and
      go back to bus 0 whatever happened (the result of that last selection is
      ignored). */
  function InitSpec(script: seq<Reply>, at: nat, bits: seq<seq<bool>>, bus: nat, sensor: nat,
                    highSensitivity: bool): (r: Run<()>)
    requires IsTable(bits) && bus < Buses
    ensures sensor >= Count ==> r == Run(Err(DeviceError(4)), [])
    ensures sensor < Count ==> |r.transfers| >= 2 && r.transfers[0] == SelectBus(bus)
                               && r.transfers[|r.transfers| - 1] == SelectBus(0)
  {
    if sensor >= Count then Run(Err(DeviceError(4)), [])
    else
      var selected := Completed(ReplyAt(script, at));
      if selected.Err? then Run(Err(selected.error), [SelectBus(bus), SelectBus(0)])
      else
        var chip := ChipInit.ChipInitSpec(script, at + 1, bits, bus, sensor, highSensitivity);
        Run(chip.result, [SelectBus(bus)] + chip.transfers + [SelectBus(0)])
  }

  /** The detection table after an init of a known sensor: bit `bus` of its word
      records whether the init succeeded, and every other bit of every word is
      as it was. */
  function After(bits: seq<seq<bool>>, bus: nat, sensor: nat, ok: bool): (next: seq<seq<bool>>)
    requires IsTable(bits) && bus < Buses && sensor < Count
    ensures IsTable(next)
    ensures next[sensor][bus] == ok
  {
    bits[sensor := if ok then SetBit(bits[sensor], bus) else ClearBit(bits[sensor], bus)]
  }

  /** ... and no other bit of the table changes. */
  lemma AfterKeepsOthers(bits: seq<seq<bool>>, bus: nat, sensor: nat, ok: bool, s: nat, b: nat)
    requires IsTable(bits) && bus < Buses && sensor < Count
    requires s < Count && b < Buses && (s != sensor || b != bus)
    ensures After(bits, bus, sensor, ok)[s][b] == bits[s][b]
  {
  }

  /** The TSL2560 at 0x39 and the TSL2550 share an address: never both detected
      on one bus. */
  predicate Exclusive(bits: seq<seq<bool>>)
    requires IsTable(bits)
  {
    forall b :: 0 <= b < Buses ==> !(bits[Tsl2560Sensor0][b] && bits[Tsl2550Sensor][b])
  }

  /** Every init keeps the two apart, whatever the script. */
  lemma InitKeepsExclusive(script: seq<Reply>, at: nat, bits: seq<seq<bool>>, bus: nat, sensor: nat,
                           highSensitivity: bool)
    requires IsTable(bits) && bus < Buses && sensor < Count && Exclusive(bits)
    ensures Exclusive(After(bits, bus, sensor, InitSpec(script, at, bits, bus, sensor, highSensitivity).result.Ok?))
  {
    ChipInit.Tsl2560Tsl2550Exclusive(script, at + 1, bits, bus, highSensitivity);
  }

  /** A derived channel is only ever marked detected on a bus where its sibling
      is detected, and stays so right after. */
  lemma InitDerivedNeedsSibling(script: seq<Reply>, at: nat, bits: seq<seq<bool>>, bus: nat, sensor: nat,
                                highSensitivity: bool)
    requires IsTable(bits) && bus < Buses && sensor in ChipInit.Derived
    ensures var ok := InitSpec(script, at, bits, bus, sensor, highSensitivity).result.Ok?;
            ok ==> After(bits, bus, sensor, ok)[ChipInit.Derived[sensor]][bus]
  {
    ChipInit.DerivedChannels(script, at + 1, bits, bus, sensor, highSensitivity);
  }

  /** What i2c_sensor_init_all leaves: the table, the transfers, and the
      (bus, sensor) pairs it called i2c_sensor_init on, in order. */
  datatype Sweep = Sweep(bits: seq<seq<bool>>, transfers: seq<Transfer>, attempted: seq<(nat, nat)>)

  /** The pair p comes at or after (bus, sensor) in the nested loop order. */
  predicate Later(p: (nat, nat), bus: nat, sensor: nat)
  {
    p.0 > bus || (p.0 == bus && p.1 >= sensor)
  }

  /** The nested loops of i2c_sensor_init_all from a given (bus, sensor) on. On
      bus 0 every sensor is tried; on a later bus only a sensor not detected on
      bus 0. */
  function SweepFrom(script: seq<Reply>, at: nat, bits: seq<seq<bool>>, bus: nat, sensor: nat, busses: nat,
                     highSensitivity: bool, done: seq<Transfer>, attempted: seq<(nat, nat)>): (r: Sweep)
    requires IsTable(bits) && busses <= Buses && bus <= busses && sensor <= Count
    ensures IsTable(r.bits)
    decreases busses - bus, Count - sensor
  {
    if bus == busses then Sweep(bits, done, attempted)
    else if sensor == Count then SweepFrom(script, at, bits, bus + 1, 0, busses, highSensitivity, done, attempted)
    else if bus == 0 || !bits[sensor][0] then
      var run := InitSpec(script, at, bits, bus, sensor, highSensitivity);
      SweepFrom(script, at + |run.transfers|, After(bits, bus, sensor, run.result.Ok?), bus, sensor + 1, busses,
                highSensitivity, done + run.transfers, attempted + [(bus, sensor)])
    else SweepFrom(script, at, bits, bus, sensor + 1, busses, highSensitivity, done, attempted)
  }

  function SweepSpec(script: seq<Reply>, at: nat, bits: seq<seq<bool>>, busses: nat, highSensitivity: bool): (r: Sweep)
    requires IsTable(bits) && busses <= Buses
    ensures IsTable(r.bits)
  {
    SweepFrom(script, at, bits, 0, 0, busses, highSensitivity, [], [])
  }

  /** One turn of the sweep at a pair the loop tries. */
  lemma SweepTry(script: seq<Reply>, at: nat, bits: seq<seq<bool>>, bus: nat, sensor: nat, busses: nat,
                 highSensitivity: bool, done: seq<Transfer>, attempted: seq<(nat, nat)>)
    requires IsTable(bits) && busses <= Buses && bus < busses && sensor < Count && (bus == 0 || !bits[sensor][0])
    ensures var run := InitSpec(script, at, bits, bus, sensor, highSensitivity);
            SweepFrom(script, at, bits, bus, sensor, busses, highSensitivity, done, attempted)
            == SweepFrom(script, at + |run.transfers|, After(bits, bus, sensor, run.result.Ok?), bus, sensor + 1, busses,
                         highSensitivity, done + run.transfers, attempted + [(bus, sensor)])
  {
  }

  /** Once the loop is past bus 0, the bus-0 bits no longer change. */
  lemma {:induction false} SweepKeepsBusZero(script: seq<Reply>, at: nat, bits: seq<seq<bool>>, bus: nat, sensor: nat,
                                             busses: nat, highSensitivity: bool, done: seq<Transfer>,
                                             attempted: seq<(nat, nat)>, s: nat)
    requires IsTable(bits) && busses <= Buses && bus <= busses && sensor <= Count && bus >= 1 && s < Count
    ensures SweepFrom(script, at, bits, bus, sensor, busses, highSensitivity, done, attempted).bits[s][0] == bits[s][0]
    decreases busses - bus, Count - sensor
  {
    var r := SweepFrom(script, at, bits, bus, sensor, busses, highSensitivity, done, attempted);
    if bus == busses {
    } else if sensor == Count {
      assert r == SweepFrom(script, at, bits, bus + 1, 0, busses, highSensitivity, done, attempted);
      SweepKeepsBusZero(script, at, bits, bus + 1, 0, busses, highSensitivity, done, attempted, s);
    } else if !bits[sensor][0] {
      var run := InitSpec(script, at, bits, bus, sensor, highSensitivity);
      var next := After(bits, bus, sensor, run.result.Ok?);
      SweepTry(script, at, bits, bus, sensor, busses, highSensitivity, done, attempted);
      AfterKeepsOthers(bits, bus, sensor, run.result.Ok?, s, 0);
      SweepKeepsBusZero(script, at + |run.transfers|, next, bus, sensor + 1, busses,
                        highSensitivity, done + run.transfers, attempted + [(bus, sensor)], s);
    } else {
      assert r == SweepFrom(script, at, bits, bus, sensor + 1, busses, highSensitivity, done, attempted);
      SweepKeepsBusZero(script, at, bits, bus, sensor + 1, busses, highSensitivity, done, attempted, s);
    }
  }

  /** A pair the loop tries from (bus, sensor) on: still ahead in the loop
      order, and on bus 0 or for a sensor that ends up not detected on bus 0. */
  predicate Planned(p: (nat, nat), bits: seq<seq<bool>>, bus: nat, sensor: nat, busses: nat)
    requires IsTable(bits)
  {
    Later(p, bus, sensor) && p.0 < busses && p.1 < Count && (p.0 == 0 || !bits[p.1][0])
  }

  /** Moving on to the next sensor drops exactly (bus, sensor) from the plan. */
  lemma PlannedNextSensor(p: (nat, nat), bits: seq<seq<bool>>, bus: nat, sensor: nat, busses: nat)
    requires IsTable(bits) && bus < busses && sensor < Count
    ensures Planned(p, bits, bus, sensor, busses) <==>
              Planned(p, bits, bus, sensor + 1, busses) || (p == (bus, sensor) && (bus == 0 || !bits[sensor][0]))
  {
    if p.0 == bus && p.1 == sensor {
      assert p == (bus, sensor);
    } else {
      assert Later(p, bus, sensor) <==> Later(p, bus, sensor + 1);
    }
  }

  /** Past the last sensor the plan continues with sensor 0 of the next bus. */
  lemma PlannedNextBus(p: (nat, nat), bits: seq<seq<bool>>, bus: nat, busses: nat)
    requires IsTable(bits)
    ensures Planned(p, bits, bus, Count, busses) <==> Planned(p, bits, bus + 1, 0, busses)
  {
  }

  /** The pairs tried from (bus, sensor) on are exactly the planned ones. */
  lemma {:induction false} SweepAttempts(script: seq<Reply>, at: nat, bits: seq<seq<bool>>, bus: nat, sensor: nat,
                                         busses: nat, highSensitivity: bool, done: seq<Transfer>,
                                         attempted: seq<(nat, nat)>)
    requires IsTable(bits) && busses <= Buses && bus <= busses && sensor <= Count
    ensures var r := SweepFrom(script, at, bits, bus, sensor, busses, highSensitivity, done, attempted);
            forall p: (nat, nat) :: p in r.attempted <==> p in attempted || Planned(p, r.bits, bus, sensor, busses)
    decreases busses - bus, Count - sensor, 1
  {
    if bus == busses {
    } else if sensor == Count {
      var r := SweepFrom(script, at, bits, bus, sensor, busses, highSensitivity, done, attempted);
      assert r == SweepFrom(script, at, bits, bus + 1, 0, busses, highSensitivity, done, attempted);
      SweepAttempts(script, at, bits, bus + 1, 0, busses, highSensitivity, done, attempted);
      forall p: (nat, nat)
        ensures p in r.attempted <==> p in attempted || Planned(p, r.bits, bus, sensor, busses)
      {
        PlannedNextBus(p, r.bits, bus, busses);
      }
    } else if bus == 0 || !bits[sensor][0] {
      SweepAttemptsTried(script, at, bits, bus, sensor, busses, highSensitivity, done, attempted);
    } else {
      SweepAttemptsSkipped(script, at, bits, bus, sensor, busses, highSensitivity, done, attempted);
    }
  }

  /** The case of SweepAttempts where (bus, sensor) is tried. */
  lemma {:induction false} SweepAttemptsTried(script: seq<Reply>, at: nat, bits: seq<seq<bool>>, bus: nat, sensor: nat,
                                              busses: nat, highSensitivity: bool, done: seq<Transfer>,
                                              attempted: seq<(nat, nat)>)
    requires IsTable(bits) && busses <= Buses && bus < busses && sensor < Count && (bus == 0 || !bits[sensor][0])
    ensures var r := SweepFrom(script, at, bits, bus, sensor, busses, highSensitivity, done, attempted);
            forall p: (nat, nat) :: p in r.attempted <==> p in attempted || Planned(p, r.bits, bus, sensor, busses)
    decreases busses - bus, Count - sensor, 0
  {
    var r := SweepFrom(script, at, bits, bus, sensor, busses, highSensitivity, done, attempted);
    var run := InitSpec(script, at, bits, bus, sensor, highSensitivity);
    var next := After(bits, bus, sensor, run.result.Ok?);
    var more := attempted + [(bus, sensor)];
    SweepTry(script, at, bits, bus, sensor, busses, highSensitivity, done, attempted);
    SweepAttempts(script, at + |run.transfers|, next, bus, sensor + 1, busses,
                  highSensitivity, done + run.transfers, more);
    if bus >= 1 {
      SweepKeepsBusZero(script, at, bits, bus, sensor, busses, highSensitivity, done, attempted, sensor);
    }
    TriedPlan(attempted, r.attempted, r.bits, bus, sensor, busses);
  }

  /** The plan after trying (bus, sensor): its attempt joins those already made. */
  lemma TriedPlan(attempted: seq<(nat, nat)>, final: seq<(nat, nat)>, bits: seq<seq<bool>>, bus: nat, sensor: nat,
                  busses: nat)
    requires IsTable(bits) && bus < busses && sensor < Count && (bus == 0 || !bits[sensor][0])
    requires forall p: (nat, nat) :: p in final <==> p in attempted + [(bus, sensor)] || Planned(p, bits, bus, sensor + 1, busses)
    ensures forall p: (nat, nat) :: p in final <==> p in attempted || Planned(p, bits, bus, sensor, busses)
  {
    forall p: (nat, nat)
      ensures p in final <==> p in attempted || Planned(p, bits, bus, sensor, busses)
    {
      PlannedNextSensor(p, bits, bus, sensor, busses);
      assert p in attempted + [(bus, sensor)] <==> p in attempted || p == (bus, sensor);
    }
  }

  /** The case of SweepAttempts where (bus, sensor) is skipped. */
  lemma {:induction false} SweepAttemptsSkipped(script: seq<Reply>, at: nat, bits: seq<seq<bool>>, bus: nat,
                                                sensor: nat, busses: nat, highSensitivity: bool, done: seq<Transfer>,
                                                attempted: seq<(nat, nat)>)
    requires IsTable(bits) && busses <= Buses && bus < busses && sensor < Count && bus >= 1 && bits[sensor][0]
    ensures var r := SweepFrom(script, at, bits, bus, sensor, busses, highSensitivity, done, attempted);
            forall p: (nat, nat) :: p in r.attempted <==> p in attempted || Planned(p, r.bits, bus, sensor, busses)
    decreases busses - bus, Count - sensor, 0
  {
    var r := SweepFrom(script, at, bits, bus, sensor, busses, highSensitivity, done, attempted);
    assert r == SweepFrom(script, at, bits, bus, sensor + 1, busses, highSensitivity, done, attempted);
    SweepAttempts(script, at, bits, bus, sensor + 1, busses, highSensitivity, done, attempted);
    SweepKeepsBusZero(script, at, bits, bus, sensor + 1, busses, highSensitivity, done, attempted, sensor);
    forall p: (nat, nat)
      ensures p in r.attempted <==> p in attempted || Planned(p, r.bits, bus, sensor, busses)
    {
      PlannedNextSensor(p, r.bits, bus, sensor, busses);
    }
  }

  /** i2c_sensor_init_all tries every sensor on bus 0 and, on every later bus,
      exactly the sensors that are not detected on bus 0. */
  lemma InitAllAttempts(script: seq<Reply>, at: nat, bits: seq<seq<bool>>, busses: nat, highSensitivity: bool)
    requires IsTable(bits) && busses <= Buses
    ensures var r := SweepSpec(script, at, bits, busses, highSensitivity);
            forall bus: nat, sensor: nat :: (bus, sensor) in r.attempted <==>
              bus < busses && sensor < Count && (bus == 0 || !r.bits[sensor][0])
  {
    SweepAttempts(script, at, bits, 0, 0, busses, highSensitivity, [], []);
    var r := SweepSpec(script, at, bits, busses, highSensitivity);
    forall bus: nat, sensor: nat
      ensures (bus, sensor) in r.attempted <==> bus < busses && sensor < Count && (bus == 0 || !r.bits[sensor][0])
    {
      var q: (nat, nat) := (bus, sensor);
      assert q in r.attempted <==> q in [] || Planned(q, r.bits, 0, 0, busses);
      assert Planned(q, r.bits, 0, 0, busses) <==> bus < busses && sensor < Count && (bus == 0 || !r.bits[sensor][0]);
    }
  }

  class Registry {
    /** device_data[sensor].detected for every sensor. */
    var detected: seq<seq<bool>>

    ghost predicate Valid()
      reads this
    {
      IsTable(detected)
    }

    /** Nothing is detected at start-up. */
    constructor ()
      ensures Valid() && forall s, b :: 0 <= s < Count && 0 <= b < Buses ==> !detected[s][b]
    {
      detected := seq(Count, _ => NoBits);
    }

    /** i2c_sensor_init. */
    method Init(bus: Bus, busNumber: nat, sensor: nat, highSensitivity: bool) returns (r: Result<()>)
      requires Valid() && busNumber < Buses
      modifies this, bus
      ensures Valid()
      ensures var run := InitSpec(bus.replies, old(bus.position), old(detected), busNumber, sensor, highSensitivity);
              r == run.result && bus.trace == old(bus.trace) + run.transfers
              && bus.position == old(bus.position) + |run.transfers|
      ensures sensor >= Count ==> detected == old(detected)
      ensures sensor < Count ==> detected == After(old(detected), busNumber, sensor, r.Ok?)
    {
      if sensor >= Count {
        return Err(DeviceError(4));
      }
      ghost var script, at, before, bits := bus.replies, bus.position, bus.trace, detected;
      var selected := bus.Select(busNumber);
      ghost var middle: seq<Transfer>;
      if selected.Err? {
        r := Err(selected.error);
        middle := [];
      } else {
        ghost var chip := ChipInit.ChipInitSpec(script, at + 1, bits, busNumber, sensor, highSensitivity);
        r := ChipInit.Init(bus, detected, busNumber, sensor, highSensitivity);
        middle := chip.transfers;
      }
      ghost var run := InitSpec(script, at, bits, busNumber, sensor, highSensitivity);
      assert run.result == r && run.transfers == [SelectBus(busNumber)] + middle + [SelectBus(0)];
      assert bus.trace == before + [SelectBus(busNumber)] + middle;
      detected := After(detected, busNumber, sensor, r.Ok?);
      var _ := bus.Select(0);
      Concat(before + [SelectBus(busNumber)], middle, [SelectBus(0)]);
      Concat(before, [SelectBus(busNumber)], middle + [SelectBus(0)]);
      assert [SelectBus(busNumber)] + (middle + [SelectBus(0)]) == run.transfers;
    }

    /** One turn of the inner loop of i2c_sensor_init_all: the sweep from
        (busNumber, sensor + 1) on the new state is the sweep from
        (busNumber, sensor) on the old one. */
    method Visit(bus: Bus, busNumber: nat, sensor: nat, busses: nat, highSensitivity: bool,
                 ghost before: seq<Transfer>, ghost at: nat, ghost done: seq<Transfer>,
                 ghost attempted: seq<(nat, nat)>)
      returns (ghost done': seq<Transfer>, ghost attempted': seq<(nat, nat)>)
      requires Valid() && busNumber < busses <= Buses && sensor < Count
      requires bus.trace == before + done && bus.position == at + |done|
      modifies this, bus
      ensures Valid()
      ensures bus.trace == before + done' && bus.position == at + |done'|
      ensures SweepFrom(bus.replies, bus.position, detected, busNumber, sensor + 1, busses, highSensitivity, done', attempted')
              == SweepFrom(bus.replies, old(bus.position), old(detected), busNumber, sensor, busses, highSensitivity,
                           done, attempted)
    {
      done', attempted' := done, attempted;
      if busNumber == 0 || !detected[sensor][0] {
        ghost var run := InitSpec(bus.replies, bus.position, detected, busNumber, sensor, highSensitivity);
        SweepTry(bus.replies, bus.position, detected, busNumber, sensor, busses, highSensitivity, done, attempted);
        var _ := Init(bus, busNumber, sensor, highSensitivity);
        Concat(before, done, run.transfers);
        done' := done + run.transfers;
        attempted' := attempted + [(busNumber, sensor)];
      }
    }

    /** The inner loop of i2c_sensor_init_all: every sensor on one bus. */
    method Pass(bus: Bus, busNumber: nat, busses: nat, highSensitivity: bool,
                ghost before: seq<Transfer>, ghost at: nat, ghost done: seq<Transfer>,
                ghost attempted: seq<(nat, nat)>)
      returns (ghost done': seq<Transfer>, ghost attempted': seq<(nat, nat)>)
      requires Valid() && busNumber < busses <= Buses
      requires bus.trace == before + done && bus.position == at + |done|
      modifies this, bus
      ensures Valid()
      ensures bus.trace == before + done' && bus.position == at + |done'|
      ensures SweepFrom(bus.replies, bus.position, detected, busNumber + 1, 0, busses, highSensitivity, done', attempted')
              == SweepFrom(bus.replies, old(bus.position), old(detected), busNumber, 0, busses, highSensitivity,
                           done, attempted)
    {
      ghost var goal := SweepFrom(bus.replies, bus.position, detected, busNumber, 0, busses, highSensitivity,
                                  done, attempted);
      done', attempted' := done, attempted;
      var s := 0;
      while s < Count
        invariant Valid() && s <= Count
        invariant bus.trace == before + done' && bus.position == at + |done'|
        invariant SweepFrom(bus.replies, bus.position, detected, busNumber, s, busses, highSensitivity,
                            done', attempted') == goal
      {
        done', attempted' := Visit(bus, busNumber, s, busses, highSensitivity, before, at, done', attempted');
        s := s + 1;
      }
    }

    /** i2c_sensor_init_all, over the busses the I2C driver reports. */
    method InitAll(bus: Bus, busses: nat, highSensitivity: bool)
      requires Valid() && busses <= Buses
      modifies this, bus
      ensures Valid()
      ensures var sweep := SweepSpec(bus.replies, old(bus.position), old(detected), busses, highSensitivity);
              detected == sweep.bits && bus.trace == old(bus.trace) + sweep.transfers
              && bus.position == old(bus.position) + |sweep.transfers|
    {
      ghost var at := bus.position;
      ghost var before := bus.trace;
      ghost var goal := SweepSpec(bus.replies, at, detected, busses, highSensitivity);
      ghost var done: seq<Transfer> := [];
      ghost var attempted: seq<(nat, nat)> := [];
      var b := 0;
      while b < busses
        invariant Valid() && b <= busses
        invariant bus.trace == before + done && bus.position == at + |done|
        invariant SweepFrom(bus.replies, bus.position, detected, b, 0, busses, highSensitivity, done, attempted) == goal
      {
        done, attempted := Pass(bus, b, busses, highSensitivity, before, at, done, attempted);
        b := b + 1;
      }
    }
  }
}
