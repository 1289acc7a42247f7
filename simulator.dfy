/** `IntersectionSimulator` (traffic_light_system.py): the per-tick pipeline of
    the intersection — arrivals, sensing, validation, timing, the NS/EW phase
    machine, the lights, vehicle discharge and the running metrics — and the
    attacks it can launch. The random arrivals and the honest sensors' noise
    are inputs of a tick. */
module Simulator {
  import opened Common
  import opened Validation
  import opened LightTiming
  import opened Sensors
  import opened Lights
  import opened Controller

  /** `generate_traffic` caps each approach's backlog at this many vehicles. */
  const MaxBacklog: int := 20
  /** A green approach clears up to this many vehicles per tick. */
  const DischargePerTick: int := 5
  const SensorsPerDirection: nat := 3
  const InitialPhaseDuration: int := 30
  /** Defaults of `launch_attack`'s keyword arguments. */
  const DefaultMultiplier: real := 3.0
  const DefaultDelay: real := 10.0
  const DefaultOverrideType: string := "all_green"
  /** The timings the override attack forces. */
  const AllGreenOverride: Timing := Timing(1, 1, 0)
  const AllRedOverride: Timing := Timing(0, 0, 0)

  /** The `metrics` dictionary; `cycleCount` moves in half cycles. */
  datatype Metrics = Metrics(
    totalVehiclesProcessed: int,
    totalWaitTime: int,
    cycleCount: real,
    attacksDetected: int)

  /** The dictionary `run_simulation` returns. */
  datatype Summary = Summary(avgWaitTime: real, throughput: real, totalVehicles: int, cycleCount: real)

  /** `run_simulation(0)` divides by zero when it computes the throughput. */
  datatype SimulationError = ZeroDuration

  datatype Result<T> = Ok(value: T) | Err(error: SimulationError)

  /** The keyword arguments of `launch_attack`; `None` is an absent keyword. */
  datatype AttackParams = AttackParams(
    direction: Option<Direction>,
    multiplier: Option<real>,
    delay: Option<real>,
    overrideType: Option<string>)

  function OrElse<T>(o: Option<T>, default: T): T {
    if o.Some? then o.value else default
  }

  /** The colour `update_lights` gives approach `d` in phase `p`. */
  function LightFor(p: Phase, d: Direction): (s: LightState)
    ensures s == Green <==> AxisOf(d) == p
    ensures s == Red <==> AxisOf(d) != p
  {
    if AxisOf(d) == p then Green else Red
  }

  function PhaseLights(p: Phase): (r: ByDirection<LightState>)
    ensures forall d :: r.Get(d) == Green <==> AxisOf(d) == p
    ensures forall d :: r.Get(d) != Yellow
  {
    ByDirection(LightFor(p, North), LightFor(p, South), LightFor(p, East), LightFor(p, West))
  }

  /** The length of a phase that has just started, from the current timing. */
  function PhaseDuration(p: Phase, t: Timing): (n: int)
    ensures MinGreen <= t.nsGreen <= MaxGreen && MinGreen <= t.ewGreen <= MaxGreen ==>
      MinGreen + t.yellow <= n <= MaxGreen + t.yellow
  {
    if p == NS then t.nsGreen + t.yellow else t.ewGreen + t.yellow
  }

  /** The backlog after `arrivals` new vehicles join it. */
  function Arrive(backlog: int, arrivals: nat): (r: int)
    ensures 0 <= backlog ==> 0 <= r
    ensures r <= MaxBacklog
    ensures backlog + arrivals <= MaxBacklog ==> r == backlog + arrivals
  {
    Min(MaxBacklog, backlog + arrivals)
  }

  /** Vehicles that leave an approach showing `s` in one tick. */
  function Cleared(backlog: int, s: LightState): (r: int)
    ensures 0 <= backlog ==> 0 <= r <= backlog
    ensures s != Green ==> r == 0
    ensures s == Green && 0 <= backlog ==> r == Min(DischargePerTick, backlog)
  {
    if s == Green then Min(DischargePerTick, backlog) else 0
  }

  /** Vehicle-seconds of waiting an approach showing `s` adds in one tick. */
  function Waiting(backlog: int, s: LightState): (w: int)
    ensures s == Green ==> w == 0
    ensures s != Green ==> w == backlog
    ensures 0 <= backlog ==> 0 <= w <= backlog && w + Cleared(backlog, s) <= backlog
    ensures w == 0 || Cleared(backlog, s) == 0
  {
    if s == Green then 0 else backlog
  }

  /** Vehicles cleared over the first `k` approaches in enum order. */
  function ClearedOver(k: nat, backlog: ByDirection<int>, states: ByDirection<LightState>): int
    requires k <= |AllDirections|
  {
    if k == 0 then 0
    else
      var d := AllDirections[k - 1];
      ClearedOver(k - 1, backlog, states) + Cleared(backlog.Get(d), states.Get(d))
  }

  /** Waiting added over the first `k` approaches in enum order. */
  function WaitingOver(k: nat, backlog: ByDirection<int>, states: ByDirection<LightState>): int
    requires k <= |AllDirections|
  {
    if k == 0 then 0
    else
      var d := AllDirections[k - 1];
      WaitingOver(k - 1, backlog, states) + Waiting(backlog.Get(d), states.Get(d))
  }

  /** `generate_traffic` on the whole table. */
  function ArriveAll(backlog: ByDirection<int>, arrivals: ByDirection<nat>): (r: ByDirection<int>)
    ensures forall d :: r.Get(d) == Arrive(backlog.Get(d), arrivals.Get(d))
  {
    ByDirection(
      Arrive(backlog.north, arrivals.north), Arrive(backlog.south, arrivals.south),
      Arrive(backlog.east, arrivals.east), Arrive(backlog.west, arrivals.west))
  }

  /** The backlogs after one tick of discharge under the colours `states`. */
  function Discharged(backlog: ByDirection<int>, states: ByDirection<LightState>): (r: ByDirection<int>)
    ensures forall d :: r.Get(d) == backlog.Get(d) - Cleared(backlog.Get(d), states.Get(d))
  {
    ByDirection(
      backlog.north - Cleared(backlog.north, states.north), backlog.south - Cleared(backlog.south, states.south),
      backlog.east - Cleared(backlog.east, states.east), backlog.west - Cleared(backlog.west, states.west))
  }

  /** Every light set to its colour for phase `p` at time `t`. */
  function AppliedAll(views: ByDirection<LightView>, p: Phase, t: real): (r: ByDirection<LightView>)
    ensures forall d :: r.Get(d) == Applied(views.Get(d), LightFor(p, d), t)
  {
    ByDirection(
      Applied(views.north, LightFor(p, North), t), Applied(views.south, LightFor(p, South), t),
      Applied(views.east, LightFor(p, East), t), Applied(views.west, LightFor(p, West), t))
  }

  /** Every light's dwell time moved on by `deltaTime`. */
  function TickedAll(views: ByDirection<LightView>, deltaTime: real): (r: ByDirection<LightView>)
    ensures forall d :: r.Get(d) == Ticked(views.Get(d), deltaTime)
  {
    ByDirection(
      Ticked(views.north, deltaTime), Ticked(views.south, deltaTime),
      Ticked(views.east, deltaTime), Ticked(views.west, deltaTime))
  }

  /** The counts a group of sensors in the states `states` reports for one
      backlog, sensor by sensor, given each honest sensor's noise. */
  function GroupReports(states: seq<SensorState>, backlog: int, noise: seq<int>): (r: seq<int>)
    requires |noise| == |states|
    ensures |r| == |states|
  {
    if states == [] then []
    else
      var n := |states| - 1;
      GroupReports(states[..n], backlog, noise[..n]) + [Reported(states[n], backlog, noise[n])]
  }

  /** The counts every approach's sensors report for the backlogs. */
  function ReportsAll(states: ByDirection<seq<SensorState>>, backlog: ByDirection<int>, noise: ByDirection<seq<int>>)
    : (r: ByDirection<seq<int>>)
    requires forall d :: |noise.Get(d)| == |states.Get(d)|
    ensures forall d :: r.Get(d) == GroupReports(states.Get(d), backlog.Get(d), noise.Get(d))
  {
    assert |noise.Get(North)| == |states.Get(North)| && |noise.Get(South)| == |states.Get(South)|;
    assert |noise.Get(East)| == |states.Get(East)| && |noise.Get(West)| == |states.Get(West)|;
    ByDirection(
      GroupReports(states.north, backlog.north, noise.north),
      GroupReports(states.south, backlog.south, noise.south),
      GroupReports(states.east, backlog.east, noise.east),
      GroupReports(states.west, backlog.west, noise.west))
  }

  /** Once the false-data attack has compromised every sensor of a group
      with multiplier `m`, each of them reports the backlog scaled by `m`,
      whatever its noise. */
  lemma {:induction false} CompromisedGroupReports(m: real, backlog: int, states: seq<SensorState>, noise: seq<int>)
    requires |noise| == |states|
    requires forall i :: 0 <= i < |states| ==> states[i] == SensorState(true, m)
    ensures forall i :: 0 <= i < |states| ==>
      GroupReports(states, backlog, noise)[i] == Trunc(backlog as real * m)
  {
    if states != [] {
      var n := |states| - 1;
      CompromisedGroupReports(m, backlog, states[..n], noise[..n]);
      assert Reported(states[n], backlog, noise[n]) == Trunc(backlog as real * m);
      assert GroupReports(states, backlog, noise) ==
        GroupReports(states[..n], backlog, noise[..n]) + [Reported(states[n], backlog, noise[n])];
    }
  }

  /** Three equal reports `v`: without tolerance `v` is what the controller
      uses; with tolerance a `v` over the lane capacity fails the
      plausibility check on all three sensors and the controller falls back
      on the approach's history. */
  lemma InflatedReportsOutcome(h: seq<int>, v: int)
    ensures Validate(false, h, [v, v, v]) == v
    ensures v > ThresholdMaxVehicles ==> Validate(true, h, [v, v, v]) == Fallback(h)
  {
    NoToleranceFollowsUniformReports(h, [v, v, v], v);
    if v > ThresholdMaxVehicles {
      AllImplausibleFallsBack(h, [v, v, v]);
    }
  }

  /** The false-data attack with its default multiplier of 3.0 on an
      approach holding seven or more vehicles: every sensor reports three
      times the backlog, which is over the lane capacity, so tolerance mode
      replaces it with the fallback while plain averaging passes it on. */
  lemma DefaultFalseDataOutcome(backlog: nat, noise: seq<int>, h: seq<int>)
    requires |noise| == SensorsPerDirection
    requires backlog >= 7
    ensures var s := SensorState(true, DefaultMultiplier);
      var v := 3 * backlog;
      && GroupReports([s, s, s], backlog, noise) == [v, v, v]
      && Validate(false, h, [v, v, v]) == v
      && Validate(true, h, [v, v, v]) == Fallback(h)
  {
    DefaultAttackReports(backlog, noise);
    InflatedReportsOutcome(h, 3 * backlog);
  }

  /** The false-data attack with its default multiplier of 3.0 on an
      approach holding at most six vehicles: the reports of 3B are within
      the lane capacity, so once ten counts are known only the anomaly test
      stands between them and the controller. Reports more than three
      deviations `sd` from the history mean are replaced by the mean's
      truncation; reports within three deviations are taken as they are. */
  lemma ModestFalseDataOutcome(backlog: nat, noise: seq<int>, h: seq<int>, sd: real)
    requires |noise| == SensorsPerDirection
    requires backlog <= 6
    requires |h| >= AnomalyMinHistory
    requires sd >= 0.0 && sd * sd == Variance(h)
    ensures var s := SensorState(true, DefaultMultiplier);
      var v := 3 * backlog;
      && GroupReports([s, s, s], backlog, noise) == [v, v, v]
      && (RealAbs(v as real - Mean(h)) > AnomalyThresholdSigma * sd ==> Validate(true, h, [v, v, v]) == TruncMean(h))
      && (RealAbs(v as real - Mean(h)) <= AnomalyThresholdSigma * sd ==> Validate(true, h, [v, v, v]) == v)
  {
    var v := 3 * backlog;
    var counts := [v, v, v];
    var far := RealAbs(v as real - Mean(h)) > AnomalyThresholdSigma * sd;
    DefaultAttackReports(backlog, noise);
    assert Validate(true, h, counts) == if far then TruncMean(h) else v by {
      assert multiset(counts)[v] == 3;
      MajorityWinsVote(counts, v);
      AnomalyReplacesVote(h, counts, sd);
    }
  }

  /** Every sensor of a group compromised with the default multiplier
      reports exactly three times the backlog. */
  lemma DefaultAttackReports(backlog: nat, noise: seq<int>)
    requires |noise| == SensorsPerDirection
    ensures var s := SensorState(true, DefaultMultiplier);
      GroupReports([s, s, s], backlog, noise) == [3 * backlog, 3 * backlog, 3 * backlog]
  {
    var v := 3 * backlog;
    assert Trunc(backlog as real * DefaultMultiplier) == v by {
      assert backlog as real * DefaultMultiplier == v as real;
    }
    var s := SensorState(true, DefaultMultiplier);
    CompromisedGroupReports(DefaultMultiplier, backlog, [s, s, s], noise);
    var r := GroupReports([s, s, s], backlog, noise);
    assert r[0] == v && r[1] == v && r[2] == v;
    assert r == [v, v, v];
  }

  /** The readings `collect_sensor_data` takes from the sensors of approach
      `d`, in sensor order: sensor `i` is in state `states[i]` and draws
      `noise[i]`. */
  function GroupReadings(d: Direction, states: seq<SensorState>, backlog: int, noise: seq<int>)
    : (r: seq<SensorReading>)
    requires |noise| == |states|
    ensures |r| == |states|
  {
    if states == [] then []
    else
      var n := |states| - 1;
      GroupReadings(d, states[..n], backlog, noise[..n]) +
        [SensorReading(d, Reported(states[n], backlog, noise[n]), n, states[n].isCompromised)]
  }

  /** The readings of the first `k` approaches in enum order, approach
      after approach. */
  function ReadingsOver(k: nat, states: ByDirection<seq<SensorState>>, backlog: ByDirection<int>,
                        noise: ByDirection<seq<int>>): seq<SensorReading>
    requires k <= |AllDirections|
    requires forall d :: |noise.Get(d)| == |states.Get(d)|
  {
    if k == 0 then []
    else
      var d := AllDirections[k - 1];
      ReadingsOver(k - 1, states, backlog, noise) + GroupReadings(d, states.Get(d), backlog.Get(d), noise.Get(d))
  }

  /** The readings of one more approach follow those of the approaches
      before it. */
  lemma ReadingsOverStep(k: nat, states: ByDirection<seq<SensorState>>, backlog: ByDirection<int>,
                         noise: ByDirection<seq<int>>)
    requires k < |AllDirections|
    requires forall d :: |noise.Get(d)| == |states.Get(d)|
    ensures var d := AllDirections[k];
      ReadingsOver(k + 1, states, backlog, noise) ==
        ReadingsOver(k, states, backlog, noise) + GroupReadings(d, states.Get(d), backlog.Get(d), noise.Get(d))
  {
  }

  /** Grouping the readings of one approach gives back that approach's
      reported counts, and nothing for the other approaches. */
  lemma {:induction false} GroupReadingsCounts(d: Direction, states: seq<SensorState>, backlog: int,
                                               noise: seq<int>, e: Direction)
    requires |noise| == |states|
    ensures CountsFor(GroupReadings(d, states, backlog, noise), e) ==
      if e == d then GroupReports(states, backlog, noise) else []
  {
    if states != [] {
      var n := |states| - 1;
      GroupReadingsCounts(d, states[..n], backlog, noise[..n], e);
      CountsForAppend(GroupReadings(d, states[..n], backlog, noise[..n]),
        SensorReading(d, Reported(states[n], backlog, noise[n]), n, states[n].isCompromised), e);
    }
  }

  /** Over the first `k` approaches, every approach among them has as its
      group exactly its sensors' reported counts, and the others have none. */
  lemma {:induction false} ReadingsOverCounts(k: nat, states: ByDirection<seq<SensorState>>,
                                              backlog: ByDirection<int>, noise: ByDirection<seq<int>>, e: Direction)
    requires k <= |AllDirections|
    requires forall d :: |noise.Get(d)| == |states.Get(d)|
    ensures CountsFor(ReadingsOver(k, states, backlog, noise), e) ==
      if DirectionIndex(e) < k then GroupReports(states.Get(e), backlog.Get(e), noise.Get(e)) else []
  {
    if k > 0 {
      var last := AllDirections[k - 1];
      var front := ReadingsOver(k - 1, states, backlog, noise);
      var group := GroupReadings(last, states.Get(last), backlog.Get(last), noise.Get(last));
      var reports := GroupReports(states.Get(e), backlog.Get(e), noise.Get(e));
      var inFront, inGroup := DirectionIndex(e) < k - 1, e == last;
      assert CountsFor(front, e) == if inFront then reports else [] by {
        ReadingsOverCounts(k - 1, states, backlog, noise, e);
      }
      assert CountsFor(group, e) == if inGroup then reports else [] by {
        GroupReadingsCounts(last, states.Get(last), backlog.Get(last), noise.Get(last), e);
      }
      assert (DirectionIndex(e) < k <==> inFront || inGroup) && !(inFront && inGroup) by {
        DirectionIndexOf(k - 1);
      }
      CountsForJoin(front, group, e, inFront, inGroup, reports);
      ReadingsOverStep(k - 1, states, backlog, noise);
    }
  }

  /** One more approach's readings after the earlier ones: the group of `e`
      comes from whichever of the two parts holds `e`'s readings. */
  lemma CountsForJoin(front: seq<SensorReading>, group: seq<SensorReading>, e: Direction,
                      inFront: bool, inGroup: bool, reports: seq<int>)
    requires CountsFor(front, e) == if inFront then reports else []
    requires CountsFor(group, e) == if inGroup then reports else []
    requires !(inFront && inGroup)
    ensures CountsFor(front + group, e) == if inFront || inGroup then reports else []
  {
    CountsForConcat(front, group, e);
    if inFront {
      assert reports + [] == reports;
    } else {
      assert [] + CountsFor(group, e) == CountsFor(group, e);
    }
  }

  /** The readings of one tick, grouped by approach, are the approaches'
      reported counts. */
  lemma CollectedCounts(states: ByDirection<seq<SensorState>>, backlog: ByDirection<int>,
                        noise: ByDirection<seq<int>>, d: Direction)
    requires forall d :: |noise.Get(d)| == |states.Get(d)|
    ensures CountsFor(ReadingsOver(|AllDirections|, states, backlog, noise), d) ==
      ReportsAll(states, backlog, noise).Get(d)
  {
    ReadingsOverCounts(|AllDirections|, states, backlog, noise, d);
  }

  /** In phase `p` the two approaches of the active axis each clear up to
      five vehicles, and the two stopped approaches add their whole backlog
      to the waiting total. */
  lemma PhaseDischarge(backlog: ByDirection<int>, p: Phase)
    requires forall d :: 0 <= backlog.Get(d) <= MaxBacklog
    ensures ClearedOver(|AllDirections|, backlog, PhaseLights(p)) ==
      if p == NS then Min(DischargePerTick, backlog.north) + Min(DischargePerTick, backlog.south)
      else Min(DischargePerTick, backlog.east) + Min(DischargePerTick, backlog.west)
    ensures WaitingOver(|AllDirections|, backlog, PhaseLights(p)) ==
      if p == NS then backlog.east + backlog.west else backlog.north + backlog.south
    ensures 0 <= ClearedOver(|AllDirections|, backlog, PhaseLights(p)) <= 2 * DischargePerTick
    ensures 0 <= WaitingOver(|AllDirections|, backlog, PhaseLights(p)) <= 2 * MaxBacklog
  {
    var s := PhaseLights(p);
    SumOverAll(backlog, s);
    assert backlog.north == backlog.Get(North) && backlog.south == backlog.Get(South);
    assert backlog.east == backlog.Get(East) && backlog.west == backlog.Get(West);
  }

  /** The totals over all four approaches, written out approach by approach. */
  lemma SumOverAll(backlog: ByDirection<int>, s: ByDirection<LightState>)
    ensures ClearedOver(|AllDirections|, backlog, s) ==
      Cleared(backlog.north, s.north) + Cleared(backlog.south, s.south) +
      Cleared(backlog.east, s.east) + Cleared(backlog.west, s.west)
    ensures WaitingOver(|AllDirections|, backlog, s) ==
      Waiting(backlog.north, s.north) + Waiting(backlog.south, s.south) +
      Waiting(backlog.east, s.east) + Waiting(backlog.west, s.west)
  {
    assert ClearedOver(1, backlog, s) == Cleared(backlog.north, s.north);
    assert ClearedOver(2, backlog, s) == ClearedOver(1, backlog, s) + Cleared(backlog.south, s.south);
    assert ClearedOver(3, backlog, s) == ClearedOver(2, backlog, s) + Cleared(backlog.east, s.east);
    assert WaitingOver(1, backlog, s) == Waiting(backlog.north, s.north);
    assert WaitingOver(2, backlog, s) == WaitingOver(1, backlog, s) + Waiting(backlog.south, s.south);
    assert WaitingOver(3, backlog, s) == WaitingOver(2, backlog, s) + Waiting(backlog.east, s.east);
  }

  /** The figures `run_simulation` reports. The average wait divides by the
      processed count, or by one when nothing was processed; the throughput
      is per minute of simulated time. */
  function Summarize(m: Metrics, duration: nat): (r: Result<Summary>)
    ensures r.Err? <==> duration == 0
    ensures r.Ok? ==>
      && r.value.avgWaitTime * Max(1, m.totalVehiclesProcessed) as real == m.totalWaitTime as real
      && r.value.throughput * duration as real == 60.0 * m.totalVehiclesProcessed as real
      && r.value.totalVehicles == m.totalVehiclesProcessed
      && r.value.cycleCount == m.cycleCount
  {
    if duration == 0 then Err(ZeroDuration)
    else
      var avg := m.totalWaitTime as real / Max(1, m.totalVehiclesProcessed) as real;
      var throughput := m.totalVehiclesProcessed as real / (duration as real / 60.0);
      Ok(Summary(avg, throughput, m.totalVehiclesProcessed, m.cycleCount))
  }

  class IntersectionSimulator {
    const sensors: ByDirection<seq<TrafficSensor>>
    const lights: ByDirection<TrafficLight>
    const controller: TrafficController
    var actualTraffic: ByDirection<int>
    var currentTime: real
    var currentPhase: Phase
    var phaseStartTime: real
    var phaseDuration: int
    var metrics: Metrics

    ghost function LightSet(): set<object> {
      {lights.north, lights.south, lights.east, lights.west}
    }

    ghost function SensorSet(): set<object> {
      set s: TrafficSensor | s in sensors.north + sensors.south + sensors.east + sensors.west :: s as object
    }

    /** Three sensors and one light per approach, each labelled with its
        approach (so no object is shared between approaches), every light's
        log consistent, the controller's histories within capacity, and every
        backlog between 0 and the cap. */
    ghost predicate Valid()
      reads this, controller, LightSet()
    {
      && Wired()
      && lights.north.Valid() && lights.south.Valid() && lights.east.Valid() && lights.west.Valid()
      && controller.Valid()
      && Bounded(actualTraffic)
    }

    /** Three sensors and one light per approach, each labelled with its
        approach and the sensors numbered in order. */
    ghost predicate Wired() {
      && (forall d :: GroupWired(d, sensors.Get(d)))
      && (forall d :: lights.Get(d).direction == d)
    }

    /** The three sensors of approach `d`, labelled with it and numbered in
        order. */
    static ghost predicate GroupWired(d: Direction, group: seq<TrafficSensor>) {
      && |group| == SensorsPerDirection
      && forall i :: 0 <= i < |group| ==> group[i].direction == d && group[i].sensorId == i
    }

    /** Every backlog lies between 0 and the lane cap. */
    static ghost predicate Bounded(backlog: ByDirection<int>) {
      forall d :: 0 <= backlog.Get(d) <= MaxBacklog
    }

    /** The colours the lights show. */
    ghost function LightStates(): ByDirection<LightState>
      reads LightSet()
    {
      ByDirection(lights.north.state, lights.south.state, lights.east.state, lights.west.state)
    }

    /** The lights' fields. */
    ghost function LightViews(): ByDirection<LightView>
      reads LightSet()
    {
      ByDirection(lights.north.View(), lights.south.View(), lights.east.View(), lights.west.View())
    }

    /** The attack states of every approach's sensors, in sensor order. */
    ghost function SensorStates(): (r: ByDirection<seq<SensorState>>)
      requires forall d :: |sensors.Get(d)| == SensorsPerDirection
      reads sensors.north, sensors.south, sensors.east, sensors.west
      ensures forall d :: r.Get(d) == GroupStates(sensors.Get(d))
    {
      assert |sensors.Get(North)| == |sensors.Get(South)| == SensorsPerDirection;
      assert |sensors.Get(East)| == |sensors.Get(West)| == SensorsPerDirection;
      ByDirection(
        GroupStates(sensors.north), GroupStates(sensors.south),
        GroupStates(sensors.east), GroupStates(sensors.west))
    }

    static ghost function GroupStates(group: seq<TrafficSensor>): (r: seq<SensorState>)
      requires |group| == SensorsPerDirection
      reads group
      ensures |r| == SensorsPerDirection
    {
      [group[0].Status(), group[1].Status(), group[2].Status()]
    }

    constructor (useTolerance: bool)
      ensures Valid()
      ensures fresh(controller) && fresh(LightSet()) && fresh(SensorSet())
      ensures controller.useTolerance == useTolerance && controller.sensorHistory == Uniform([])
      ensures controller.signalOverride == None && controller.communicationDelay == 0.0
      ensures forall d :: lights.Get(d).View() == LightView(Red, 0.0, [])
      ensures forall d, i :: 0 <= i < SensorsPerDirection ==>
        sensors.Get(d)[i].Status() == Honest
      ensures actualTraffic == Uniform(0) && currentTime == 0.0
      ensures currentPhase == NS && phaseStartTime == 0.0 && phaseDuration == InitialPhaseDuration
      ensures metrics == Metrics(0, 0, 0.0, 0)
    {
      var sensorTable := NewSensorTable();
      var lightTable := NewLights();
      sensors := sensorTable;
      lights := lightTable;
      controller := new TrafficController(useTolerance);
      actualTraffic := Uniform(0);
      currentTime := 0.0;
      currentPhase := NS;
      phaseStartTime := 0.0;
      phaseDuration := InitialPhaseDuration;
      metrics := Metrics(0, 0, 0.0, 0);
    }

    /** The four fresh lights, all RED with an empty log. */
    static method NewLights() returns (table: ByDirection<TrafficLight>)
      ensures fresh(table.north) && fresh(table.south) && fresh(table.east) && fresh(table.west)
      ensures forall d :: table.Get(d).direction == d && table.Get(d).View() == LightView(Red, 0.0, [])
      ensures table.north.Valid() && table.south.Valid() && table.east.Valid() && table.west.Valid()
    {
      var n := new TrafficLight(North);
      var s := new TrafficLight(South);
      var e := new TrafficLight(East);
      var w := new TrafficLight(West);
      table := ByDirection(n, s, e, w);
    }

    /** Three fresh, honest sensors for every approach. */
    static method NewSensorTable() returns (table: ByDirection<seq<TrafficSensor>>)
      ensures forall d :: |table.Get(d)| == SensorsPerDirection
      ensures forall d, i :: 0 <= i < SensorsPerDirection ==>
        && fresh(table.Get(d)[i]) && table.Get(d)[i].direction == d && table.Get(d)[i].sensorId == i
        && table.Get(d)[i].Status() == Honest
      ensures forall s :: s in table.north + table.south + table.east + table.west ==> fresh(s)
    {
      var n := NewSensors(North);
      var s := NewSensors(South);
      var e := NewSensors(East);
      var w := NewSensors(West);
      table := ByDirection(n, s, e, w);
    }

    /** The three fresh, honest sensors of approach `d`, numbered 0 to 2. */
    static method NewSensors(d: Direction) returns (group: seq<TrafficSensor>)
      ensures |group| == SensorsPerDirection
      ensures forall i :: 0 <= i < SensorsPerDirection ==>
        && fresh(group[i]) && group[i].direction == d && group[i].sensorId == i
        && group[i].Status() == Honest
    {
      group := [];
      for i := 0 to SensorsPerDirection
        invariant |group| == i
        invariant forall j :: 0 <= j < i ==>
          && fresh(group[j]) && group[j].direction == d && group[j].sensorId == j
          && group[j].Status() == Honest
      {
        var sensor := new TrafficSensor(d, i);
        group := group + [sensor];
      }
    }

    /** `generate_traffic`: the new vehicles of each approach, in enum
        order, join its backlog, which is capped at twenty. The random draw
        is the input `arrivals`; the caller stores the resulting table. */
    static method GenerateTraffic(traffic: ByDirection<int>, arrivals: ByDirection<nat>)
      returns (backlog: ByDirection<int>)
      ensures backlog == ArriveAll(traffic, arrivals)
    {
      OverlaidInOrder(traffic, ArriveAll(traffic, arrivals));
      backlog := traffic;
      for k := 0 to |AllDirections|
        invariant backlog == Overlaid(k, traffic, ArriveAll(traffic, arrivals))
      {
        var d := AllDirections[k];
        backlog := backlog.Set(d, Min(MaxBacklog, backlog.Get(d) + arrivals.Get(d)));
      }
    }

    /** `collect_sensor_data`: every sensor of every approach reports once,
        approach after approach (see CollectedCounts for what the readings
        add up to). */
    method CollectSensorData(noise: ByDirection<seq<int>>) returns (readings: seq<SensorReading>)
      requires Wired()
      requires forall d :: |noise.Get(d)| == SensorsPerDirection
      ensures readings == ReadingsOver(|AllDirections|, SensorStates(), actualTraffic, noise)
    {
      ghost var states := SensorStates();
      readings := [];
      for k := 0 to |AllDirections|
        invariant readings == ReadingsOver(k, states, actualTraffic, noise)
      {
        var d := AllDirections[k];
        var group := ReadDirection(d, sensors.Get(d), actualTraffic.Get(d), noise.Get(d), states.Get(d));
        ReadingsOverStep(k, states, actualTraffic, noise);
        readings := readings + group;
      }
    }

    /** The inner loop of `collect_sensor_data`: the readings of the three
        sensors of approach `d`, which hold its `backlog`. */
    static method ReadDirection(d: Direction, group: seq<TrafficSensor>, backlog: int, noise: seq<int>,
                                ghost states: seq<SensorState>)
      returns (readings: seq<SensorReading>)
      requires GroupWired(d, group) && |noise| == SensorsPerDirection
      requires states == GroupStates(group)
      ensures readings == GroupReadings(d, states, backlog, noise)
    {
      readings := [];
      for i := 0 to |group|
        invariant readings == GroupReadings(d, states[..i], backlog, noise[..i])
      {
        var reading := group[i].DetectVehicles(backlog, noise[i]);
        assert states[..i + 1][..i] == states[..i];
        assert noise[..i + 1][..i] == noise[..i];
        readings := readings + [reading];
      }
      assert states[..|group|] == states;
      assert noise[..|group|] == noise;
    }

    /** `update_lights`: the two lights of the active axis are set to GREEN
        and the other two to RED, all at the current time. */
    method UpdateLights()
      requires Valid()
      modifies LightSet()
      ensures Valid()
      ensures LightViews() == AppliedAll(old(LightViews()), currentPhase, currentTime)
      ensures LightStates() == PhaseLights(currentPhase)
    {
      LightsDistinct();
      ghost var before := ByDirection(lights.north.View(), lights.south.View(), lights.east.View(), lights.west.View());
      if currentPhase == NS {
        lights.north.SetState(Green, currentTime);
        lights.south.SetState(Green, currentTime);
        lights.east.SetState(Red, currentTime);
        lights.west.SetState(Red, currentTime);
      } else {
        lights.north.SetState(Red, currentTime);
        lights.south.SetState(Red, currentTime);
        lights.east.SetState(Green, currentTime);
        lights.west.SetState(Green, currentTime);
      }
      forall d
        ensures LightViews().Get(d) == AppliedAll(before, currentPhase, currentTime).Get(d)
      {
      }
      TablesEqual(LightViews(), AppliedAll(before, currentPhase, currentTime));
    }

    /** The lights of different approaches are different objects. */
    lemma LightsDistinct()
      requires Valid()
      ensures lights.north != lights.south && lights.north != lights.east && lights.north != lights.west
      ensures lights.south != lights.east && lights.south != lights.west && lights.east != lights.west
    {
      assert lights.Get(North).direction == North && lights.Get(South).direction == South;
      assert lights.Get(East).direction == East && lights.Get(West).direction == West;
    }

    /** `process_vehicles`: a GREEN approach clears up to five vehicles,
        which count as processed; a stopped approach adds its backlog to the
        waiting total. */
    method ProcessVehicles()
      requires Valid()
      modifies this`actualTraffic, this`metrics
      ensures Valid()
      ensures actualTraffic == Discharged(old(actualTraffic), LightStates())
      ensures metrics == old(metrics).(
        totalVehiclesProcessed := old(metrics.totalVehiclesProcessed) + ClearedOver(|AllDirections|, old(actualTraffic), LightStates()),
        totalWaitTime := old(metrics.totalWaitTime) + WaitingOver(|AllDirections|, old(actualTraffic), LightStates()))
    {
      var colours := ByDirection(
        lights.north.GetState(), lights.south.GetState(), lights.east.GetState(), lights.west.GetState());
      var backlog, totals := Discharge(actualTraffic, colours, metrics);
      actualTraffic, metrics := backlog, totals;
    }

    /** The loop of `process_vehicles`, over the approaches in order, from
        the backlogs `traffic` and the totals `start`, where approach `d`
        shows `colours.Get(d)`: a green approach clears up to five vehicles,
        any other adds its backlog to the waiting total. */
    static method Discharge(traffic: ByDirection<int>, colours: ByDirection<LightState>, start: Metrics)
      returns (backlog: ByDirection<int>, totals: Metrics)
      ensures backlog == Discharged(traffic, colours)
      ensures totals == start.(
        totalVehiclesProcessed := start.totalVehiclesProcessed + ClearedOver(|AllDirections|, traffic, colours),
        totalWaitTime := start.totalWaitTime + WaitingOver(|AllDirections|, traffic, colours))
    {
      OverlaidInOrder(traffic, Discharged(traffic, colours));
      backlog, totals := traffic, start;
      for k := 0 to |AllDirections|
        invariant backlog == Overlaid(k, traffic, Discharged(traffic, colours))
        invariant totals == start.(
          totalVehiclesProcessed := start.totalVehiclesProcessed + ClearedOver(k, traffic, colours),
          totalWaitTime := start.totalWaitTime + WaitingOver(k, traffic, colours))
      {
        var d := AllDirections[k];
        ghost var now := traffic.Get(d);
        assert backlog.Get(d) == now;
        assert Overlaid(k + 1, traffic, Discharged(traffic, colours)) ==
          backlog.Set(d, now - Cleared(now, colours.Get(d)));
        assert ClearedOver(k + 1, traffic, colours) == ClearedOver(k, traffic, colours) + Cleared(now, colours.Get(d));
        assert WaitingOver(k + 1, traffic, colours) == WaitingOver(k, traffic, colours) + Waiting(now, colours.Get(d));
        if colours.Get(d) == Green {
          var cleared := Min(DischargePerTick, backlog.Get(d));
          backlog := backlog.Set(d, backlog.Get(d) - cleared);
          totals := totals.(totalVehiclesProcessed := totals.totalVehiclesProcessed + cleared);
        } else {
          TablesEqual(backlog, backlog.Set(d, backlog.Get(d)));
          totals := totals.(totalWaitTime := totals.totalWaitTime + backlog.Get(d));
        }
      }
    }

    /** The closing loop of `step`: every light's dwell time moves on. */
    method UpdateLightTimers(deltaTime: real)
      requires Valid()
      modifies LightSet()
      ensures Valid()
      ensures LightViews() == TickedAll(old(LightViews()), deltaTime)
    {
      LightsDistinct();
      ghost var before := ByDirection(lights.north.View(), lights.south.View(), lights.east.View(), lights.west.View());
      lights.north.UpdateTime(deltaTime);
      lights.south.UpdateTime(deltaTime);
      lights.east.UpdateTime(deltaTime);
      lights.west.UpdateTime(deltaTime);
      forall d
        ensures LightViews().Get(d) == TickedAll(before, deltaTime).Get(d)
      {
      }
      TablesEqual(LightViews(), TickedAll(before, deltaTime));
    }

    /** `step(delta_time)`: one tick of the intersection. The arrivals of the
        tick and the noise of each honest sensor are inputs; the ghost
        results name the intermediate values of the tick: the backlog after
        arrivals, the counts the sensors report, the validated counts, the
        timing, and whether the phase changed. */
    method Step(arrivals: ByDirection<nat>, noise: ByDirection<seq<int>>, deltaTime: real)
      returns (ghost arrived: ByDirection<int>, ghost reports: ByDirection<seq<int>>,
               ghost validated: ByDirection<int>, ghost timing: Timing, ghost switched: bool)
      requires Valid()
      requires forall d :: |noise.Get(d)| == SensorsPerDirection
      modifies this, controller`sensorHistory, LightSet()
      ensures Valid()
      ensures currentTime == old(currentTime) + deltaTime
      // arrivals, sensing and validation
      ensures arrived == ArriveAll(old(actualTraffic), arrivals)
      ensures reports == ReportsAll(old(SensorStates()), arrived, noise)
      ensures forall d {:trigger ValidatedCount(controller.useTolerance, old(controller.sensorHistory).Get(d), reports.Get(d))} ::
        validated.Get(d) == ValidatedCount(controller.useTolerance, old(controller.sensorHistory).Get(d), reports.Get(d))
      ensures forall d {:trigger UpdatedHistory(controller.useTolerance, old(controller.sensorHistory).Get(d), reports.Get(d))} ::
        controller.sensorHistory.Get(d) ==
          UpdatedHistory(controller.useTolerance, old(controller.sensorHistory).Get(d), reports.Get(d))
      ensures controller.useTolerance && old(controller.HistoryPlausible()) ==>
        controller.HistoryPlausible() && forall d :: validated.Get(d) <= ThresholdMaxVehicles
      ensures timing == controller.CalculateLightTiming(validated)
      // the phase machine
      ensures switched <==> currentTime - old(phaseStartTime) >= old(phaseDuration) as real
      ensures switched ==>
        && currentPhase == Flip(old(currentPhase))
        && phaseStartTime == currentTime
        && phaseDuration == PhaseDuration(currentPhase, timing)
        && metrics.cycleCount == old(metrics.cycleCount) + 0.5
      ensures !switched ==>
        && currentPhase == old(currentPhase)
        && phaseStartTime == old(phaseStartTime)
        && phaseDuration == old(phaseDuration)
        && metrics.cycleCount == old(metrics.cycleCount)
      // the lights
      ensures LightStates() == PhaseLights(currentPhase)
      ensures LightViews() == TickedAll(AppliedAll(old(LightViews()), currentPhase, currentTime), deltaTime)
      // discharge and metrics
      ensures actualTraffic == Discharged(arrived, PhaseLights(currentPhase))
      ensures metrics.totalVehiclesProcessed ==
        old(metrics.totalVehiclesProcessed) + ClearedOver(|AllDirections|, arrived, PhaseLights(currentPhase))
      ensures metrics.totalWaitTime ==
        old(metrics.totalWaitTime) + WaitingOver(|AllDirections|, arrived, PhaseLights(currentPhase))
      ensures metrics.attacksDetected == old(metrics.attacksDetected)
    {
      var arrivedNow, validatedNow, reported := Sense(arrivals, noise);
      arrived, reports, validated := arrivedNow, reported, validatedNow;
      timing, switched := Control(validatedNow, deltaTime);
    }

    /** The first half of `step`: vehicles arrive, the sensors report on the
        new backlog and the controller validates the reports. */
    method Sense(arrivals: ByDirection<nat>, noise: ByDirection<seq<int>>)
      returns (arrived: ByDirection<int>, validated: ByDirection<int>, ghost reports: ByDirection<seq<int>>)
      requires Valid()
      requires forall d :: |noise.Get(d)| == SensorsPerDirection
      modifies this`actualTraffic, controller`sensorHistory
      ensures Valid()
      ensures arrived == ArriveAll(old(actualTraffic), arrivals) && actualTraffic == arrived
      ensures reports == ReportsAll(old(SensorStates()), arrived, noise)
      ensures forall d {:trigger ValidatedCount(controller.useTolerance, old(controller.sensorHistory).Get(d), reports.Get(d))} ::
        validated.Get(d) == ValidatedCount(controller.useTolerance, old(controller.sensorHistory).Get(d), reports.Get(d))
      ensures forall d {:trigger UpdatedHistory(controller.useTolerance, old(controller.sensorHistory).Get(d), reports.Get(d))} ::
        controller.sensorHistory.Get(d) ==
          UpdatedHistory(controller.useTolerance, old(controller.sensorHistory).Get(d), reports.Get(d))
      ensures controller.useTolerance && old(controller.HistoryPlausible()) ==>
        controller.HistoryPlausible() && forall d :: validated.Get(d) <= ThresholdMaxVehicles
      ensures currentTime == old(currentTime) && currentPhase == old(currentPhase)
      ensures phaseStartTime == old(phaseStartTime) && phaseDuration == old(phaseDuration)
      ensures metrics == old(metrics) && LightViews() == old(LightViews())
    {
      ghost var states := SensorStates();
      var readings;
      arrived, readings := Observe(arrivals, noise);
      reports := ReportsAll(states, arrived, noise);
      validated := controller.ProcessSensorData(readings);
    }

    /** Arrivals and sensing: the backlog gains the tick's arrivals, and the
        readings the sensors then take count, for every approach, what its
        sensors report on the new backlog. */
    method Observe(arrivals: ByDirection<nat>, noise: ByDirection<seq<int>>)
      returns (arrived: ByDirection<int>, readings: seq<SensorReading>)
      requires Valid()
      requires forall d :: |noise.Get(d)| == SensorsPerDirection
      modifies this`actualTraffic
      ensures Valid()
      ensures arrived == ArriveAll(old(actualTraffic), arrivals) && actualTraffic == arrived
      ensures forall d :: CountsFor(readings, d) == ReportsAll(SensorStates(), arrived, noise).Get(d)
    {
      arrived := GenerateTraffic(actualTraffic, arrivals);
      actualTraffic := arrived;
      readings := CollectSensorData(noise);
      forall d
        ensures CountsFor(readings, d) == ReportsAll(SensorStates(), arrived, noise).Get(d)
      {
        CollectedCounts(SensorStates(), arrived, noise, d);
      }
    }

    /** The second half of `step`: the timing is computed from the validated
        counts, the phase advances if it is due, the lights follow the phase,
        the green approaches discharge and every light's dwell time moves on. */
    method Control(validated: ByDirection<int>, deltaTime: real) returns (ghost timing: Timing, ghost switched: bool)
      requires Valid()
      modifies this`currentTime, this`currentPhase, this`phaseStartTime, this`phaseDuration, this`metrics,
        this`actualTraffic, LightSet()
      ensures Valid()
      ensures currentTime == old(currentTime) + deltaTime && unchanged(controller)
      ensures timing == controller.CalculateLightTiming(validated)
      ensures switched <==> currentTime - old(phaseStartTime) >= old(phaseDuration) as real
      ensures switched ==>
        && currentPhase == Flip(old(currentPhase))
        && phaseStartTime == currentTime
        && phaseDuration == PhaseDuration(currentPhase, timing)
        && metrics.cycleCount == old(metrics.cycleCount) + 0.5
      ensures !switched ==>
        && currentPhase == old(currentPhase)
        && phaseStartTime == old(phaseStartTime)
        && phaseDuration == old(phaseDuration)
        && metrics.cycleCount == old(metrics.cycleCount)
      ensures LightStates() == PhaseLights(currentPhase)
      ensures LightViews() == TickedAll(AppliedAll(old(LightViews()), currentPhase, currentTime), deltaTime)
      ensures actualTraffic == Discharged(old(actualTraffic), PhaseLights(currentPhase))
      ensures metrics.totalVehiclesProcessed ==
        old(metrics.totalVehiclesProcessed) + ClearedOver(|AllDirections|, old(actualTraffic), PhaseLights(currentPhase))
      ensures metrics.totalWaitTime ==
        old(metrics.totalWaitTime) + WaitingOver(|AllDirections|, old(actualTraffic), PhaseLights(currentPhase))
      ensures metrics.attacksDetected == old(metrics.attacksDetected)
    {
      var lightTiming := controller.CalculateLightTiming(validated);
      timing := lightTiming;
      switched := AdvancePhase(deltaTime, lightTiming);
      Actuate(deltaTime);
    }

    /** The clock and the phase check of `step`: the clock moves on (nothing
        between the two reads it), and once the current phase has run for
        its duration, the other axis gets the green, for its green time plus
        the yellow time, and half a cycle is counted. */
    method AdvancePhase(deltaTime: real, timing: Timing) returns (ghost switched: bool)
      requires Valid()
      modifies this`currentTime, this`currentPhase, this`phaseStartTime, this`phaseDuration, this`metrics
      ensures Valid()
      ensures currentTime == old(currentTime) + deltaTime
      ensures switched <==> currentTime - old(phaseStartTime) >= old(phaseDuration) as real
      ensures switched ==>
        && currentPhase == Flip(old(currentPhase))
        && phaseStartTime == currentTime
        && phaseDuration == PhaseDuration(currentPhase, timing)
        && metrics == old(metrics).(cycleCount := old(metrics.cycleCount) + 0.5)
      ensures !switched ==>
        && currentPhase == old(currentPhase)
        && phaseStartTime == old(phaseStartTime)
        && phaseDuration == old(phaseDuration)
        && metrics == old(metrics)
      ensures actualTraffic == old(actualTraffic) && LightViews() == old(LightViews())
    {
      currentTime := currentTime + deltaTime;
      var timeInPhase := currentTime - phaseStartTime;
      switched := timeInPhase >= phaseDuration as real;
      if timeInPhase >= phaseDuration as real {
        currentPhase := if currentPhase == NS then EW else NS;
        phaseStartTime := currentTime;
        if currentPhase == NS {
          phaseDuration := timing.nsGreen + timing.yellow;
        } else {
          phaseDuration := timing.ewGreen + timing.yellow;
        }
        metrics := metrics.(cycleCount := metrics.cycleCount + 0.5);
      }
    }

    /** The second half of `step`: the lights follow the phase, the green
        approaches discharge, and every light's dwell time moves on. */
    method Actuate(deltaTime: real)
      requires Valid()
      modifies this`actualTraffic, this`metrics, LightSet()
      ensures Valid()
      ensures LightStates() == PhaseLights(currentPhase)
      ensures LightViews() == TickedAll(AppliedAll(old(LightViews()), currentPhase, currentTime), deltaTime)
      ensures actualTraffic == Discharged(old(actualTraffic), PhaseLights(currentPhase))
      ensures metrics == old(metrics).(
        totalVehiclesProcessed :=
          old(metrics.totalVehiclesProcessed) + ClearedOver(|AllDirections|, old(actualTraffic), PhaseLights(currentPhase)),
        totalWaitTime :=
          old(metrics.totalWaitTime) + WaitingOver(|AllDirections|, old(actualTraffic), PhaseLights(currentPhase)))
      ensures currentTime == old(currentTime) && currentPhase == old(currentPhase)
      ensures phaseStartTime == old(phaseStartTime) && phaseDuration == old(phaseDuration)
    {
      UpdateLights();
      ProcessVehicles();
      UpdateLightTimers(deltaTime);
    }

    /** `run_simulation(duration)`: `duration` one-second ticks, then the
        summary of the metrics. Tick `t` draws `arrivals[t]` and `noise[t]`.
        The clock moves on by the duration, attacks are never counted, and
        each tick clears at most ten vehicles, adds at most forty
        vehicle-seconds of waiting and completes at most half a cycle. */
    method RunSimulation(duration: nat, arrivals: seq<ByDirection<nat>>, noise: seq<ByDirection<seq<int>>>)
      returns (r: Result<Summary>)
      requires Valid()
      requires |arrivals| == duration && |noise| == duration
      requires forall t, d :: 0 <= t < |noise| ==> |noise[t].Get(d)| == SensorsPerDirection
      modifies this, controller`sensorHistory, LightSet()
      ensures Valid()
      ensures r == Summarize(metrics, duration)
      ensures currentTime == old(currentTime) + duration as real
      ensures metrics.attacksDetected == old(metrics.attacksDetected)
      ensures old(metrics.totalVehiclesProcessed) <= metrics.totalVehiclesProcessed
                <= old(metrics.totalVehiclesProcessed) + 2 * DischargePerTick * duration
      ensures old(metrics.totalWaitTime) <= metrics.totalWaitTime
                <= old(metrics.totalWaitTime) + 2 * MaxBacklog * duration
      ensures old(metrics.cycleCount) <= metrics.cycleCount <= old(metrics.cycleCount) + 0.5 * duration as real
      ensures controller.useTolerance == old(controller.useTolerance)
      ensures controller.useTolerance && old(controller.HistoryPlausible()) ==> controller.HistoryPlausible()
    {
      for t := 0 to duration
        invariant Valid()
        invariant currentTime == old(currentTime) + t as real
        invariant metrics.attacksDetected == old(metrics.attacksDetected)
        invariant old(metrics.totalVehiclesProcessed) <= metrics.totalVehiclesProcessed
                    <= old(metrics.totalVehiclesProcessed) + 2 * DischargePerTick * t
        invariant old(metrics.totalWaitTime) <= metrics.totalWaitTime
                    <= old(metrics.totalWaitTime) + 2 * MaxBacklog * t
        invariant old(metrics.cycleCount) <= metrics.cycleCount <= old(metrics.cycleCount) + 0.5 * t as real
        invariant controller.useTolerance == old(controller.useTolerance)
        invariant controller.useTolerance && old(controller.HistoryPlausible()) ==> controller.HistoryPlausible()
      {
        Tick(arrivals[t], noise[t]);
      }
      r := Summarize(metrics, duration);
    }

    /** `step()` with its default delta of one second, as `run_simulation`
        calls it: the clock moves on by one second, at most ten vehicles
        clear, at most forty vehicle-seconds of waiting are added and at most
        half a cycle completes. */
    method Tick(arrivals: ByDirection<nat>, noise: ByDirection<seq<int>>)
      requires Valid()
      requires forall d :: |noise.Get(d)| == SensorsPerDirection
      modifies this, controller`sensorHistory, LightSet()
      ensures Valid()
      ensures currentTime == old(currentTime) + 1.0
      ensures metrics.attacksDetected == old(metrics.attacksDetected)
      ensures old(metrics.totalVehiclesProcessed) <= metrics.totalVehiclesProcessed
                <= old(metrics.totalVehiclesProcessed) + 2 * DischargePerTick
      ensures old(metrics.totalWaitTime) <= metrics.totalWaitTime <= old(metrics.totalWaitTime) + 2 * MaxBacklog
      ensures old(metrics.cycleCount) <= metrics.cycleCount <= old(metrics.cycleCount) + 0.5
      ensures controller.useTolerance == old(controller.useTolerance)
      ensures controller.useTolerance && old(controller.HistoryPlausible()) ==> controller.HistoryPlausible()
    {
      ghost var before := actualTraffic;
      ghost var arrived, reports, validated, timing, switched;
      arrived, reports, validated, timing, switched := Step(arrivals, noise, 1.0);
      assert Bounded(arrived) by {
        forall d ensures 0 <= arrived.Get(d) <= MaxBacklog {
          assert 0 <= before.Get(d);
        }
      }
      PhaseDischarge(arrived, currentPhase);
    }

    /** `launch_attack(attack_type, ...)`. "false_data" compromises the three
        sensors of one approach (north unless named) with the multiplier
        (3.0 unless given); "delay" sets the controller's communication delay
        (10 seconds unless given); "override" installs the all-green timing,
        or the all-red one for any other override type; any other attack
        type changes nothing. */
    method LaunchAttack(attackType: string, params: AttackParams)
      requires Valid()
      modifies sensors.north, sensors.south, sensors.east, sensors.west
      modifies controller`communicationDelay, controller`signalOverride
      ensures Valid()
      ensures attackType == "false_data" ==>
        var s := SensorState(true, OrElse(params.multiplier, DefaultMultiplier));
        && SensorStates() == old(SensorStates()).Set(OrElse(params.direction, North), [s, s, s])
        && unchanged(controller)
      ensures attackType == "delay" ==>
        && SensorStates() == old(SensorStates())
        && controller.communicationDelay == OrElse(params.delay, DefaultDelay)
        && controller.signalOverride == old(controller.signalOverride)
      ensures attackType == "override" ==>
        && SensorStates() == old(SensorStates())
        && controller.communicationDelay == old(controller.communicationDelay)
        && controller.signalOverride ==
             Some(if OrElse(params.overrideType, DefaultOverrideType) == "all_green"
                  then AllGreenOverride else AllRedOverride)
      ensures attackType != "false_data" && attackType != "delay" && attackType != "override" ==>
        SensorStates() == old(SensorStates()) && unchanged(controller)
    {
      if attackType == "false_data" {
        CompromiseApproach(OrElse(params.direction, North), OrElse(params.multiplier, DefaultMultiplier));
      } else if attackType == "delay" {
        controller.InjectCommunicationDelay(OrElse(params.delay, DefaultDelay));
      } else if attackType == "override" {
        if OrElse(params.overrideType, DefaultOverrideType) == "all_green" {
          controller.InjectSignalOverride(AllGreenOverride);
        } else {
          controller.InjectSignalOverride(AllRedOverride);
        }
      }
    }

    /** The false-data attack on approach `target`: each of its sensors in
        turn is compromised with multiplier `m`; no other sensor changes. */
    method CompromiseApproach(target: Direction, m: real)
      requires Wired()
      modifies sensors.Get(target)
      ensures var s := SensorState(true, m);
        SensorStates() == old(SensorStates()).Set(target, [s, s, s])
    {
      var group := sensors.Get(target);
      for i := 0 to |group|
        invariant forall j :: 0 <= j < i ==> group[j].Status() == SensorState(true, m)
        invariant forall j :: i <= j < |group| ==> group[j].Status() == old(group[j].Status())
      {
        group[i].InjectFalseData(m);
      }
      ghost var s := SensorState(true, m);
      assert GroupStates(group) == [s, s, s];
      forall d | d != target
        ensures GroupStates(sensors.Get(d)) == old(GroupStates(sensors.Get(d)))
      {
        var others := sensors.Get(d);
        assert others[0] !in group && others[1] !in group && others[2] !in group;
      }
      TablesEqual(SensorStates(), old(SensorStates()).Set(target, [s, s, s]));
    }
  }
}
