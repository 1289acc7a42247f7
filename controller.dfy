/** `TrafficController` (traffic_light_system.py): fuses the readings of each
    approach into one validated count, keeps a bounded history of those
    counts per approach, and turns the counts into green times. It also holds
    the state of the delay and override attacks. */
module Controller {
  import opened Common
  import opened Validation
  import opened LightTiming
  import opened Sensors

  /** What one reading adds to the group of direction `d`: its count if
      it is for `d`, nothing otherwise. */
  function OwnCount(r: SensorReading, d: Direction): seq<int> {
    if r.direction == d then [r.vehicleCount] else []
  }

  /** The reported counts of the readings for direction `d`, in the order the
      readings arrived (the group `readings_by_direction[d]`). */
  function CountsFor(readings: seq<SensorReading>, d: Direction): (c: seq<int>)
    ensures |c| <= |readings|
  {
    if readings == [] then []
    else CountsFor(readings[..|readings| - 1], d) + OwnCount(readings[|readings| - 1], d)
  }

  /** The group of `d` holds the count of every reading for `d` and no
      other count. */
  lemma {:induction false} CountsForMembers(readings: seq<SensorReading>, d: Direction)
    ensures forall r :: r in readings && r.direction == d ==> r.vehicleCount in CountsFor(readings, d)
    ensures forall x :: x in CountsFor(readings, d) ==>
      exists r :: r in readings && r.direction == d && r.vehicleCount == x
  {
    if readings != [] {
      var init := readings[..|readings| - 1];
      CountsForMembers(init, d);
      assert readings == init + [readings[|readings| - 1]];
    }
  }

  /** A reading arriving after the others extends its direction's group only. */
  lemma CountsForAppend(readings: seq<SensorReading>, r: SensorReading, d: Direction)
    ensures CountsFor(readings + [r], d) == CountsFor(readings, d) + OwnCount(r, d)
  {
    assert (readings + [r])[..|readings|] == readings;
  }

  /** Grouping a batch made of two parts keeps the parts' order. */
  lemma {:induction false} CountsForConcat(a: seq<SensorReading>, b: seq<SensorReading>, d: Direction)
    ensures CountsFor(a + b, d) == CountsFor(a, d) + CountsFor(b, d)
    decreases |b|
  {
    if b != [] {
      var last := b[|b| - 1];
      var init := b[..|b| - 1];
      assert a + b == (a + init) + [last];
      assert b == init + [last];
      CountsForAppend(a + init, last, d);
      CountsForAppend(init, last, d);
      CountsForConcat(a, init, d);
      assert CountsFor(a + b, d) == (CountsFor(a, d) + CountsFor(init, d)) + OwnCount(last, d);
    } else {
      assert a + b == a;
    }
  }

  /** The validated count of one direction: 0 for an empty group. */
  function ValidatedCount(useTolerance: bool, h: seq<int>, counts: seq<int>): (n: int)
    ensures counts == [] ==> n == 0
    ensures counts != [] && !useTolerance ==> InRange(counts, n)
  {
    if counts == [] then 0 else Validate(useTolerance, h, counts)
  }

  /** That direction's history afterwards: untouched for an empty group. */
  function UpdatedHistory(useTolerance: bool, h: seq<int>, counts: seq<int>): (r: seq<int>)
    ensures counts == [] ==> r == h
    ensures counts != [] ==> r != [] && r[|r| - 1] == ValidatedCount(useTolerance, h, counts)
  {
    if counts == [] then h else Record(h, Validate(useTolerance, h, counts))
  }

  ghost predicate AllAtMost(h: seq<int>, bound: int) {
    forall i :: 0 <= i < |h| ==> h[i] <= bound
  }

  /** One tick of the controller on one direction: the history stays within
      its capacity, the count is recorded as the newest entry, and with
      tolerance on the lane-capacity bound on the history carries over to
      the validated count and to the new history. */
  lemma ValidationStep(useTolerance: bool, h: seq<int>, counts: seq<int>)
    requires |h| <= HistoryCapacity
    ensures counts == [] ==> ValidatedCount(useTolerance, h, counts) == 0 && UpdatedHistory(useTolerance, h, counts) == h
    ensures counts != [] && !useTolerance ==> ValidatedCount(useTolerance, h, counts) == TruncMean(counts)
    ensures var h' := UpdatedHistory(useTolerance, h, counts);
      && |h'| <= HistoryCapacity
      && (counts != [] ==> h'[|h'| - 1] == ValidatedCount(useTolerance, h, counts))
      && (counts != [] && |h| == HistoryCapacity ==> h'[..|h'| - 1] == h[1..])
    ensures useTolerance && AllAtMost(h, ThresholdMaxVehicles) ==>
      && ValidatedCount(useTolerance, h, counts) <= ThresholdMaxVehicles
      && AllAtMost(UpdatedHistory(useTolerance, h, counts), ThresholdMaxVehicles)
  {
    if counts != [] {
      var v := Validate(useTolerance, h, counts);
      assert UpdatedHistory(useTolerance, h, counts) == Record(h, v);
      if useTolerance && AllAtMost(h, ThresholdMaxVehicles) {
        ToleranceAtMostThreshold(h, counts);
        RecordAtMost(h, v, ThresholdMaxVehicles);
      }
    }
  }

  /** Recording a count within a bound keeps a history within it. */
  lemma RecordAtMost(h: seq<int>, v: int, bound: int)
    requires AllAtMost(h, bound) && v <= bound
    ensures AllAtMost(Record(h, v), bound)
  {
    var r := Record(h, v);
    forall i | 0 <= i < |r|
      ensures r[i] <= bound
    {
      if i == |r| - 1 {
      } else if |h| < HistoryCapacity {
        assert r[i] == h[i];
      } else {
        assert r[i] == h[i + 1];
      }
    }
  }

  /** The grouping loop of `process_sensor_data`: every reading's count
      joins its direction's group, in arrival order. */
  method GroupByDirection(readings: seq<SensorReading>) returns (groups: ByDirection<seq<int>>)
    ensures forall d :: groups.Get(d) == CountsFor(readings, d)
  {
    groups := Uniform([]);
    for i := 0 to |readings|
      invariant forall d :: groups.Get(d) == CountsFor(readings[..i], d)
    {
      var r := readings[i];
      assert readings[..i + 1][..i] == readings[..i];
      groups := groups.Set(r.direction, groups.Get(r.direction) + [r.vehicleCount]);
    }
    assert readings[..|readings|] == readings;
  }

  /** `process_sensor_data` on the whole table of reported counts. */
  function ValidatedAll(useTolerance: bool, histories: ByDirection<seq<int>>, reports: ByDirection<seq<int>>)
    : (r: ByDirection<int>)
    ensures forall d :: r.Get(d) == ValidatedCount(useTolerance, histories.Get(d), reports.Get(d))
  {
    ByDirection(
      ValidatedCount(useTolerance, histories.north, reports.north),
      ValidatedCount(useTolerance, histories.south, reports.south),
      ValidatedCount(useTolerance, histories.east, reports.east),
      ValidatedCount(useTolerance, histories.west, reports.west))
  }

  /** The histories `process_sensor_data` leaves behind. */
  function UpdatedAll(useTolerance: bool, histories: ByDirection<seq<int>>, reports: ByDirection<seq<int>>)
    : (r: ByDirection<seq<int>>)
    ensures forall d :: r.Get(d) == UpdatedHistory(useTolerance, histories.Get(d), reports.Get(d))
  {
    ByDirection(
      UpdatedHistory(useTolerance, histories.north, reports.north),
      UpdatedHistory(useTolerance, histories.south, reports.south),
      UpdatedHistory(useTolerance, histories.east, reports.east),
      UpdatedHistory(useTolerance, histories.west, reports.west))
  }

  /** With tolerance on, the lane-capacity bound on every history carries
      over to every validated count and every new history. */
  lemma ToleranceBoundsAll(useTolerance: bool, before: ByDirection<seq<int>>, groups: ByDirection<seq<int>>,
                           after: ByDirection<seq<int>>, validated: ByDirection<int>)
    requires forall d :: |before.Get(d)| <= HistoryCapacity
    requires forall d :: validated.Get(d) == ValidatedCount(useTolerance, before.Get(d), groups.Get(d))
    requires forall d :: after.Get(d) == UpdatedHistory(useTolerance, before.Get(d), groups.Get(d))
    requires useTolerance && forall d :: AllAtMost(before.Get(d), ThresholdMaxVehicles)
    ensures forall d :: AllAtMost(after.Get(d), ThresholdMaxVehicles) && validated.Get(d) <= ThresholdMaxVehicles
  {
    forall d
      ensures AllAtMost(after.Get(d), ThresholdMaxVehicles) && validated.Get(d) <= ThresholdMaxVehicles
    {
      ValidationStep(useTolerance, before.Get(d), groups.Get(d));
    }
  }

  class TrafficController {
    var useTolerance: bool
    var communicationDelay: real
    var signalOverride: Option<Timing>
    var sensorHistory: ByDirection<seq<int>>

    ghost predicate Valid()
      reads this
    {
      forall d :: |sensorHistory.Get(d)| <= HistoryCapacity
    }

    /** Every recorded count is within the lane limit. */
    ghost predicate HistoryPlausible()
      reads this
    {
      forall d :: AllAtMost(sensorHistory.Get(d), ThresholdMaxVehicles)
    }

    constructor (useTolerance: bool)
      ensures Valid() && HistoryPlausible()
      ensures this.useTolerance == useTolerance
      ensures communicationDelay == 0.0 && signalOverride == None
      ensures sensorHistory == Uniform([])
    {
      this.useTolerance := useTolerance;
      communicationDelay := 0.0;
      signalOverride := None;
      sensorHistory := Uniform([]);
    }

    /** `process_sensor_data(sensor_readings)`: group the readings by
        direction, validate each non-empty group and record it in that
        direction's history. */
    method ProcessSensorData(readings: seq<SensorReading>) returns (validated: ByDirection<int>)
      requires Valid()
      modifies this`sensorHistory
      ensures Valid()
      ensures forall d ::
        validated.Get(d) == ValidatedCount(useTolerance, old(sensorHistory.Get(d)), CountsFor(readings, d))
      ensures forall d ::
        sensorHistory.Get(d) == UpdatedHistory(useTolerance, old(sensorHistory.Get(d)), CountsFor(readings, d))
      ensures useTolerance && old(HistoryPlausible()) ==>
        HistoryPlausible() && forall d :: validated.Get(d) <= ThresholdMaxVehicles
    {
      var groups := GroupByDirection(readings);
      ghost var before := sensorHistory;
      ghost var counts := ValidatedAll(useTolerance, before, groups);
      ghost var histories := UpdatedAll(useTolerance, before, groups);
      OverlaidInOrder(Uniform(0), counts);
      OverlaidInOrder(before, histories);
      validated := Uniform(0);
      for k := 0 to |AllDirections|
        invariant Valid()
        invariant validated == Overlaid(k, Uniform(0), counts)
        invariant sensorHistory == Overlaid(k, before, histories)
      {
        var d := AllDirections[k];
        var count := ValidateDirection(d, groups.Get(d));
        validated := validated.Set(d, count);
      }
      if useTolerance && old(HistoryPlausible()) {
        ToleranceBoundsAll(useTolerance, before, groups, sensorHistory, validated);
      }
    }

    /** The loop body of `process_sensor_data` for direction `d`. */
    method ValidateDirection(d: Direction, counts: seq<int>) returns (count: int)
      requires Valid()
      modifies this`sensorHistory
      ensures Valid()
      ensures count == ValidatedCount(useTolerance, old(sensorHistory.Get(d)), counts)
      ensures sensorHistory == old(sensorHistory).Set(d, UpdatedHistory(useTolerance, old(sensorHistory.Get(d)), counts))
    {
      var history := sensorHistory.Get(d);
      if counts == [] {
        count := 0;
        assert sensorHistory == sensorHistory.Set(d, history);
      } else {
        count := if useTolerance then ToleranceChecks(history, counts) else TruncMean(counts);
        sensorHistory := sensorHistory.Set(d, Record(history, count));
      }
    }


    /** `calculate_light_timing(traffic_data)`: a stored override wins
        outright; otherwise the green budget is shared by axis. */
    function CalculateLightTiming(trafficData: ByDirection<int>): (t: Timing)
      reads this
      ensures signalOverride.Some? ==> t == signalOverride.value
      ensures signalOverride.None? ==>
        && t.yellow == YellowTime
        && MinGreen <= t.nsGreen <= MaxGreen && MinGreen <= t.ewGreen <= MaxGreen
        && (AxisTraffic(trafficData, NS) + AxisTraffic(trafficData, EW) == 0 ==>
              t == Timing(MinGreen, MinGreen, YellowTime))
        && (AxisTraffic(trafficData, NS) + AxisTraffic(trafficData, EW) != 0 ==>
              t.nsGreen + t.ewGreen == TotalGreen)
    {
      match signalOverride
      case Some(forced) => forced
      case None => ProportionalTiming(AxisTraffic(trafficData, NS), AxisTraffic(trafficData, EW))
    }

    /** `inject_communication_delay`: stored only; nothing reads it. */
    method InjectCommunicationDelay(delaySeconds: real)
      modifies this`communicationDelay
      ensures communicationDelay == delaySeconds
    {
      communicationDelay := delaySeconds;
    }

    /** `inject_signal_override`. */
    method InjectSignalOverride(overrideTiming: Timing)
      modifies this`signalOverride
      ensures signalOverride == Some(overrideTiming)
    {
      signalOverride := Some(overrideTiming);
    }

    /** `reset_attacks`. */
    method ResetAttacks()
      modifies this`communicationDelay, this`signalOverride
      ensures communicationDelay == 0.0 && signalOverride == None
    {
      communicationDelay := 0.0;
      signalOverride := None;
    }

    /** `enable_tolerance`. */
    method EnableTolerance()
      modifies this`useTolerance
      ensures useTolerance
    {
      useTolerance := true;
    }

    /** `disable_tolerance`. */
    method DisableTolerance()
      modifies this`useTolerance
      ensures !useTolerance
    {
      useTolerance := false;
    }
  }

  /** Validated vehicles on one axis: `NORTH + SOUTH` or `EAST + WEST`. */
  function AxisTraffic(trafficData: ByDirection<int>, p: Phase): (n: int)
    ensures (forall d :: 0 <= trafficData.Get(d)) ==> 0 <= n
  {
    if p == NS then trafficData.Get(North) + trafficData.Get(South)
    else trafficData.Get(East) + trafficData.Get(West)
  }

  /** Only the axis's own two approaches enter its sum. */
  lemma AxisTrafficOwnApproaches(trafficData: ByDirection<int>, p: Phase, d: Direction, x: int)
    ensures AxisOf(d) != p ==> AxisTraffic(trafficData.Set(d, x), p) == AxisTraffic(trafficData, p)
    ensures AxisOf(d) == p ==>
      AxisTraffic(trafficData.Set(d, x), p) == AxisTraffic(trafficData, p) - trafficData.Get(d) + x
  {
  }
}
