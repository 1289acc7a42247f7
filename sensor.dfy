/** `TrafficSensor` and `SensorReading` (traffic_light_system.py): one of the
    three redundant vehicle detectors of an approach, whose attack state the
    false-data attack changes in place. */
module Sensors {
  import opened Common

  /** One sensor's report for one tick. */
  datatype SensorReading = SensorReading(
    direction: Direction,
    vehicleCount: int,
    sensorId: int,
    isCompromised: bool)

  /** The attack state of a sensor: whether it is compromised and the factor
      it then applies to the true count. */
  datatype SensorState = SensorState(isCompromised: bool, falseDataMultiplier: real)

  /** The multiplier a sensor applies while it is not under attack. */
  const NeutralMultiplier: real := 1.0

  /** The state of a sensor that is not under attack. */
  const Honest: SensorState := SensorState(false, NeutralMultiplier)

  /** The count `detect_vehicles(actual_traffic)` reports from a sensor in
      state `s`, with the `random.randint(-1, 1)` draw of an honest sensor
      passed in as `noise`. An honest sensor is off by at most the noise and
      never reports a negative count; a compromised one reports the backlog
      times its multiplier, truncated toward zero. */
  function Reported(s: SensorState, actualTraffic: int, noise: int): (r: int)
    ensures !s.isCompromised ==> r >= 0
    ensures !s.isCompromised && actualTraffic + noise >= 0 ==> r == actualTraffic + noise
    ensures !s.isCompromised && actualTraffic + noise < 0 ==> r == 0
    ensures !s.isCompromised && actualTraffic >= 0 && -1 <= noise <= 1 ==>
      Max(0, actualTraffic - 1) <= r <= actualTraffic + 1
    ensures s.isCompromised && actualTraffic as real * s.falseDataMultiplier >= 0.0 ==>
      r as real <= actualTraffic as real * s.falseDataMultiplier < r as real + 1.0
    ensures s.isCompromised && actualTraffic as real * s.falseDataMultiplier < 0.0 ==>
      r as real - 1.0 < actualTraffic as real * s.falseDataMultiplier <= r as real
  {
    if s.isCompromised then Trunc(actualTraffic as real * s.falseDataMultiplier)
    else Max(0, actualTraffic + noise)
  }

  /** A compromised sensor with a non-negative whole multiplier reports
      exactly the scaled backlog. */
  lemma CompromisedScales(m: nat, actualTraffic: nat, noise: int)
    ensures Reported(SensorState(true, m as real), actualTraffic, noise) == actualTraffic * m
  {
    var x := actualTraffic as real * m as real;
    assert x == (actualTraffic * m) as real;
  }

  class TrafficSensor {
    const direction: Direction
    const sensorId: int
    var isCompromised: bool
    var falseDataMultiplier: real

    constructor (direction: Direction, sensorId: int)
      ensures this.direction == direction && this.sensorId == sensorId
      ensures Status() == Honest
    {
      this.direction := direction;
      this.sensorId := sensorId;
      isCompromised := false;
      falseDataMultiplier := NeutralMultiplier;
    }

    /** The attack state of the sensor. */
    ghost function Status(): SensorState
      reads this
    {
      SensorState(isCompromised, falseDataMultiplier)
    }

    /** `detect_vehicles(actual_traffic)`: a reading labelled with this
        sensor's approach, id and attack flag, carrying the count `Reported`
        gives for its current state. */
    function DetectVehicles(actualTraffic: int, noise: int): (r: SensorReading)
      reads this
      ensures r.direction == direction && r.sensorId == sensorId
      ensures r.isCompromised == isCompromised
      ensures r.vehicleCount == Reported(Status(), actualTraffic, noise)
    {
      SensorReading(direction, Reported(SensorState(isCompromised, falseDataMultiplier), actualTraffic, noise),
                    sensorId, isCompromised)
    }

    /** `inject_false_data(multiplier)`: the new state depends only on the
        argument, so injecting twice is the same as injecting once. */
    method InjectFalseData(multiplier: real)
      modifies this
      ensures Status() == SensorState(true, multiplier)
    {
      isCompromised := true;
      falseDataMultiplier := multiplier;
    }

    /** `reset()`: back to honest operation; idempotent like the attack. */
    method Reset()
      modifies this
      ensures Status() == Honest
    {
      isCompromised := false;
      falseDataMultiplier := NeutralMultiplier;
    }
  }
}
