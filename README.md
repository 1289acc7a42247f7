# Smart traffic light system — a verified model of the control loop

This project models the control loop of the four-way intersection in
`src/traffic_light_system.py`: redundant vehicle sensors, one signal per
approach, a controller that fuses sensor readings into validated counts and
green times, and the simulator that runs one tick after another and can
launch cyberattacks.

- The four approaches (North, South, East and West) are always in that enum
  order. Every per-direction dictionary becomes a total table,
  `ByDirection<T>`.
- `TrafficSensor` (module `Sensors`) is a class whose attack state is
  changed in place. What it reports is the function `Reported` of that
  state, the true backlog and the sensor's noise draw.
- `TrafficLight` (module `Lights`) is a class with a state, a dwell-time
  accumulator and an append-only transition log. Its methods are proved
  against the functions `Applied` and `Ticked`. The invariant `Valid`
  states that the log, read from RED, chains through real changes to the
  current state.
- The controller's validation arithmetic is pure (module `Validation`):
  - the threshold filter at 20;
  - the history-mean or 5 fallback;
  - the median vote, with insertion sort standing in for `sorted`;
  - the truncated mean;
  - the three-sigma anomaly test, written as a comparison of squares;
  - the bounded history (capacity 100, oldest dropped).
- The green-time allocation is pure (module `LightTiming`): 90 s shared in
  proportion to axis traffic, with each share clamped to [30, 60].
- `TrafficController` (module `Controller`) holds the tolerance flag, the
  stored delay, the stored override and the per-direction histories.
  `process_sensor_data` is a method that loops over the directions in order
  and updates the histories in place.
- `IntersectionSimulator` (module `Simulator`) owns the sensors, lights,
  controller, backlogs, clock, phase and metrics. It is made up of:
  - `Step`: one tick;
  - `RunSimulation`: many ticks and the summary;
  - `LaunchAttack`: the three attacks.

  Its invariant `Valid` states four things: every approach has its three
  sensors, numbered 0 to 2; every light has a consistent log; every
  history is within capacity; and every backlog lies in [0, 20].

Python's `int(a / b)` truncates toward zero. It is modelled as `TruncDiv`
and `Trunc`, so negative operands are handled as Python does.

The model also proves a property the code never states: the tolerance mode
locks onto a steady history (`SteadyHistoryLocksIn`). Once a direction's
history holds at least ten identical counts `c`, its standard deviation is
zero. Every different vote is then an anomaly and is replaced by `c`, so
that direction is validated as `c` from then on, whatever its sensors
report.

## Model

| member | source | states |
|---|---|---|
| Common.TruncDiv | cps-simulation-main/cps-simulation-main/src/traffic_light_system.py:161 | `int(a / b)`: the magnitude is the floor of \|a\| / \|b\| and the sign is that of the exact quotient (truncation toward zero) |
| Common.Trunc | cps-simulation-main/cps-simulation-main/src/traffic_light_system.py:59 | `int(x)` on a real: the greatest integer not above x for x ≥ 0, the least integer not below x for x < 0 |
| Common.Flip | cps-simulation-main/cps-simulation-main/src/traffic_light_system.py:394 | the other phase: the result always differs from the phase it flips |
| Common.TruncMeanWithin | cps-simulation-main/cps-simulation-main/src/traffic_light_system.py:161 | `int(sum / len)` lies between the smallest and the largest of the values it averages |
| Common.TruncMeanAtMost | cps-simulation-main/cps-simulation-main/src/traffic_light_system.py:161 | the truncated mean of counts that are all ≤ hi is ≤ hi |
| Common.TruncMeanAtLeast | cps-simulation-main/cps-simulation-main/src/traffic_light_system.py:161 | the truncated mean of counts that are all ≥ lo is ≥ lo |
| Common.TruncMeanConstant | cps-simulation-main/cps-simulation-main/src/traffic_light_system.py:161 | the truncated mean of identical counts c is c |
| Sensors.Reported | cps-simulation-main/cps-simulation-main/src/traffic_light_system.py:57-63 | an honest sensor reports backlog + noise, or 0 if that is negative; with noise in {-1, 0, 1} the report lies in [max(0, B-1), B+1]; a compromised sensor reports backlog × multiplier truncated toward zero |
| Sensors.CompromisedScales | cps-simulation-main/cps-simulation-main/src/traffic_light_system.py:59 | with a whole non-negative multiplier m, a compromised sensor reports exactly backlog · m, whatever its noise |
| Sensors.TrafficSensor.constructor | cps-simulation-main/cps-simulation-main/src/traffic_light_system.py:41-45 | a new sensor keeps its direction and id and is honest with multiplier 1.0 |
| Sensors.TrafficSensor.DetectVehicles | cps-simulation-main/cps-simulation-main/src/traffic_light_system.py:47-71 | the reading carries the sensor's direction, id and compromised flag, and the count `Reported` gives for its state |
| Sensors.TrafficSensor.InjectFalseData | cps-simulation-main/cps-simulation-main/src/traffic_light_system.py:73-81 | the new state is (compromised, multiplier) whatever the old one was, so a second injection changes nothing |
| Sensors.TrafficSensor.Reset | cps-simulation-main/cps-simulation-main/src/traffic_light_system.py:83-86 | the sensor is honest with multiplier 1.0 again, whatever its state was |
| Validation.WithinThreshold | cps-simulation-main/cps-simulation-main/src/traffic_light_system.py:182 | the survivors are exactly the readings ≤ 20, with their multiplicities; none exceeds 20 |
| Validation.SortAscending | cps-simulation-main/cps-simulation-main/src/traffic_light_system.py:191 | `sorted` returns a permutation of its input |
| Validation.InsertSorted | cps-simulation-main/cps-simulation-main/src/traffic_light_system.py:191 | inserting into an ascending sequence keeps it ascending |
| Validation.SortAscendingSorted | cps-simulation-main/cps-simulation-main/src/traffic_light_system.py:191 | `sorted` returns its input in ascending order |
| Validation.Median | cps-simulation-main/cps-simulation-main/src/traffic_light_system.py:191-192 | `sorted(counts)[len // 2]` is one of the counts |
| Validation.Vote | cps-simulation-main/cps-simulation-main/src/traffic_light_system.py:188-195 | the vote lies between the smallest and largest surviving reading, and with three or more survivors it is one of them (the median); MedianBetween and MajorityIsMedian say which one |
| Validation.MedianBetween | cps-simulation-main/cps-simulation-main/src/traffic_light_system.py:189-192 | `counts[len // 2]` of the sorted survivors is one of them and lies within any bounds of them |
| Validation.MajorityIsMedian | cps-simulation-main/cps-simulation-main/src/traffic_light_system.py:189-192 | a value held by a strict majority of the survivors is the median vote |
| Validation.Fallback | cps-simulation-main/cps-simulation-main/src/traffic_light_system.py:211-218 | an empty history gives 5; otherwise the history's truncated mean, which stays ≤ 20 and ≥ 0 when the history does |
| Validation.Mean | cps-simulation-main/cps-simulation-main/src/traffic_light_system.py:200 | the history mean times the history length is the history sum |
| Validation.Variance | cps-simulation-main/cps-simulation-main/src/traffic_light_system.py:201-202 | the population variance is never negative, so its square root exists |
| Validation.Anomalous | cps-simulation-main/cps-simulation-main/src/traffic_light_system.py:198-205 | a reading flagged as anomalous differs from the history mean; StdDevForm shows the squared test is the `abs(v - mean) > 3 * std_dev` test, and SteadyHistory gives it for a constant history |
| Validation.ToleranceChecks | cps-simulation-main/cps-simulation-main/src/traffic_light_system.py:172-209 | with no plausible reading the result is the fallback; otherwise it lies between the smallest and largest plausible reading, unless at least ten history entries are known and the result is their truncated mean (the anomaly path); ToleranceAtMostThreshold, ToleranceNonNegative, MajorityOfSensorsDecides and SteadyHistoryLocksIn state its bounds and outcomes |
| Validation.Validate | cps-simulation-main/cps-simulation-main/src/traffic_light_system.py:156-161 | without tolerance the count lies between the lowest and highest report (the truncated average); with tolerance it is the result of `_apply_tolerance_checks` |
| Validation.Record | cps-simulation-main/cps-simulation-main/src/traffic_light_system.py:165-168 | the count is appended as the newest entry; when the history was full, exactly the oldest entry is dropped; the length never exceeds 100 |
| Validation.StdDevForm | cps-simulation-main/cps-simulation-main/src/traffic_light_system.py:198-205 | the squared test (v - mean)² > 9 · variance holds exactly when \|v - mean\| > 3 · sd, for the non-negative square root sd of the variance |
| Validation.SteadyHistory | cps-simulation-main/cps-simulation-main/src/traffic_light_system.py:198-207 | for a history of identical counts c, the mean is c and the variance 0; v is an anomaly exactly when v ≠ c; `int(mean)` is c |
| Validation.ToleranceAtMostThreshold | cps-simulation-main/cps-simulation-main/src/traffic_light_system.py:182-209 | with every history entry ≤ 20, the tolerance checks yield a count ≤ 20, whatever the readings |
| Validation.AllImplausibleFallsBack | cps-simulation-main/cps-simulation-main/src/traffic_light_system.py:184-186 | when every reading exceeds 20, the result is the fallback (history mean, or 5), with no anomaly check on that path |
| Validation.ToleranceNonNegative | cps-simulation-main/cps-simulation-main/src/traffic_light_system.py:172-209 | with a non-negative history and non-negative readings, the validated count is non-negative |
| Validation.MajorityOfSensorsDecides | cps-simulation-main/cps-simulation-main/src/traffic_light_system.py:182-209 | a plausible value reported by a strict majority of the sensors is the validated count unless the anomaly test rejects it: one faulty sensor in three is outvoted |
| Validation.MajorityWinsVote | cps-simulation-main/cps-simulation-main/src/traffic_light_system.py:182-195 | a plausible value reported by a strict majority of the readings survives the filter and is the vote, whether the median or the truncated average decides |
| Validation.AnomalyReplacesVote | cps-simulation-main/cps-simulation-main/src/traffic_light_system.py:197-209 | for any history of ten or more counts with standard deviation sd: a vote more than 3·sd from the history mean is replaced by `int(mean)`, and a vote within 3·sd is kept |
| Validation.UniformReportsPassVote | cps-simulation-main/cps-simulation-main/src/traffic_light_system.py:189-209 | before ten counts are known, identical readings v ≤ 20 are validated as v: the vote alone does not stop a coordinated attack |
| Validation.SteadyHistoryLocksIn | cps-simulation-main/cps-simulation-main/src/traffic_light_system.py:198-207 | against at least ten identical history entries c, the tolerance checks return c for any readings, and recording c keeps the history steady |
| Validation.NoToleranceFollowsUniformReports | cps-simulation-main/cps-simulation-main/src/traffic_light_system.py:161 | without tolerance, identical readings v are validated as v |
| LightTiming.ClampGreen | cps-simulation-main/cps-simulation-main/src/traffic_light_system.py:249-252 | `max(30, min(60, g))` lies in [30, 60] and leaves g unchanged when it already does |
| LightTiming.ProportionalTiming | cps-simulation-main/cps-simulation-main/src/traffic_light_system.py:235-254 | yellow is 5 and both greens lie in [30, 60]; zero traffic gives 30/30; otherwise the greens add up to 90 |
| LightTiming.AllTrafficNorthSouth | cps-simulation-main/cps-simulation-main/src/traffic_light_system.py:245-254 | all traffic on the north-south axis gives 60/30 |
| LightTiming.AllTrafficEastWest | cps-simulation-main/cps-simulation-main/src/traffic_light_system.py:245-254 | all traffic on the east-west axis gives 30/60 |
| LightTiming.RawShareAtLeastHalf | cps-simulation-main/cps-simulation-main/src/traffic_light_system.py:246-248 | the unclamped north-south share is at least 45 exactly when north-south has at least as much traffic |
| LightTiming.GreenFollowsDemand | cps-simulation-main/cps-simulation-main/src/traffic_light_system.py:245-252 | north-south gets at least as much green as east-west exactly when it has at least as much traffic |
| Lights.ChainedExtend | cps-simulation-main/cps-simulation-main/src/traffic_light_system.py:100-106 | a record that leaves the current state for a different one extends a consistent log |
| Lights.Applied | cps-simulation-main/cps-simulation-main/src/traffic_light_system.py:98-108 | the light shows the requested state afterwards; the same state leaves it untouched; the log only grows, by at most one record |
| Lights.Ticked | cps-simulation-main/cps-simulation-main/src/traffic_light_system.py:110-112 | the dwell time grows by exactly the delta, and the state and the log stay as they were |
| Lights.AppliedKeepsLog | cps-simulation-main/cps-simulation-main/src/traffic_light_system.py:98-108 | setting the current state changes nothing; setting a different one appends exactly one record (old state, new state, timestamp, dwell time), keeps every earlier record, sets the state and zeroes the dwell time; the log stays consistent |
| Lights.AppliedTwice | cps-simulation-main/cps-simulation-main/src/traffic_light_system.py:98-108 | setting the same state twice in a row logs nothing the second time |
| Lights.TickedKeepsLog | cps-simulation-main/cps-simulation-main/src/traffic_light_system.py:110-112 | `update_time` changes neither the state nor the log, and keeps it consistent |
| Lights.TrafficLight.constructor | cps-simulation-main/cps-simulation-main/src/traffic_light_system.py:92-96 | a new light is RED with zero dwell time and an empty log |
| Lights.TrafficLight.SetState | cps-simulation-main/cps-simulation-main/src/traffic_light_system.py:98-108 | the light's new fields are `Applied` of its old fields, and its log stays consistent |
| Lights.TrafficLight.UpdateTime | cps-simulation-main/cps-simulation-main/src/traffic_light_system.py:110-112 | only the dwell time moves, by exactly delta |
| Controller.CountsForAppend | cps-simulation-main/cps-simulation-main/src/traffic_light_system.py:145-147 | a later reading extends only its own direction's group |
| Controller.CountsForConcat | cps-simulation-main/cps-simulation-main/src/traffic_light_system.py:145-147 | grouping two batches in a row is grouping each, concatenated in order |
| Controller.CountsFor | cps-simulation-main/cps-simulation-main/src/traffic_light_system.py:145-147 | the group of `d` is no longer than the batch of readings; CountsForMembers, CountsForAppend and CountsForConcat give its contents and order |
| Controller.CountsForMembers | cps-simulation-main/cps-simulation-main/src/traffic_light_system.py:145-147 | the group of `d` holds the count of every reading for `d` and no count that is not from a reading for `d` |
| Controller.GroupByDirection | cps-simulation-main/cps-simulation-main/src/traffic_light_system.py:145-147 | every direction's group is that direction's reported counts, in arrival order |
| Controller.ValidationStep | cps-simulation-main/cps-simulation-main/src/traffic_light_system.py:151-168 | an empty group yields 0 and leaves the history untouched; without tolerance the count is the truncated mean; a non-empty group's count becomes the newest history entry, and on overflow exactly the oldest is dropped; with tolerance, a history ≤ 20 keeps the count and the new history ≤ 20 |
| Controller.ValidatedCount | cps-simulation-main/cps-simulation-main/src/traffic_light_system.py:151-161 | an approach without readings gets 0; without tolerance its count lies between its lowest and highest report |
| Controller.UpdatedHistory | cps-simulation-main/cps-simulation-main/src/traffic_light_system.py:151-168 | an approach without readings keeps its history; otherwise the newest entry is the validated count (ValidationStep gives the capacity bound and the dropped oldest entry) |
| Controller.RecordAtMost | cps-simulation-main/cps-simulation-main/src/traffic_light_system.py:165-168 | recording a count within a bound keeps a history within it |
| Controller.ToleranceBoundsAll | cps-simulation-main/cps-simulation-main/src/traffic_light_system.py:151-168 | with tolerance on, the ≤ 20 bound on every history carries over to every validated count and every new history |
| Controller.TrafficController.constructor | cps-simulation-main/cps-simulation-main/src/traffic_light_system.py:124-132 | no delay, no override, empty histories, the given tolerance flag |
| Controller.TrafficController.ProcessSensorData | cps-simulation-main/cps-simulation-main/src/traffic_light_system.py:134-170 | every direction's validated count and new history are those of its own group against its old history; histories stay within 100; with tolerance on, the ≤ 20 bound on histories is kept and holds for every validated count |
| Controller.TrafficController.ValidateDirection | cps-simulation-main/cps-simulation-main/src/traffic_light_system.py:152-168 | one direction's validated count is computed, and only that direction's history changes |
| Controller.TrafficController.CalculateLightTiming | cps-simulation-main/cps-simulation-main/src/traffic_light_system.py:220-254 | a stored override is returned as is; otherwise yellow is 5, both greens lie in [30, 60], zero traffic gives 30/30, and other traffic gives greens that add up to 90 |
| Controller.AxisTraffic | cps-simulation-main/cps-simulation-main/src/traffic_light_system.py:235-236 | the axis sum of non-negative counts is non-negative |
| Controller.AxisTrafficOwnApproaches | cps-simulation-main/cps-simulation-main/src/traffic_light_system.py:235-236 | changing the count of an approach on the other axis leaves the sum as it is, and changing one on this axis changes the sum by exactly the difference |
| Controller.TrafficController.InjectCommunicationDelay | cps-simulation-main/cps-simulation-main/src/traffic_light_system.py:256-258 | the delay is stored and nothing else changes |
| Controller.TrafficController.InjectSignalOverride | cps-simulation-main/cps-simulation-main/src/traffic_light_system.py:260-262 | the override is stored and nothing else changes |
| Controller.TrafficController.ResetAttacks | cps-simulation-main/cps-simulation-main/src/traffic_light_system.py:264-267 | the delay is 0 and the override is gone |
| Controller.TrafficController.EnableTolerance | cps-simulation-main/cps-simulation-main/src/traffic_light_system.py:269-271 | tolerance is on |
| Controller.TrafficController.DisableTolerance | cps-simulation-main/cps-simulation-main/src/traffic_light_system.py:273-275 | tolerance is off |
| Simulator.LightFor | cps-simulation-main/cps-simulation-main/src/traffic_light_system.py:343-354 | an approach is GREEN exactly when its axis is the active phase, and RED exactly when it is not |
| Simulator.PhaseLights | cps-simulation-main/cps-simulation-main/src/traffic_light_system.py:343-354 | an approach is GREEN exactly when it is on the active axis, and no light is ever set to YELLOW |
| Simulator.PhaseDuration | cps-simulation-main/cps-simulation-main/src/traffic_light_system.py:397-401 | with both greens in [30, 60] the new phase lasts between 30 and 60 seconds plus the yellow time |
| Simulator.Arrive | cps-simulation-main/cps-simulation-main/src/traffic_light_system.py:324 | the backlog after arrivals never exceeds 20, stays non-negative, and is the plain sum when that fits |
| Simulator.Cleared | cps-simulation-main/cps-simulation-main/src/traffic_light_system.py:359-362 | a GREEN approach clears min(5, backlog) and no more than its backlog; any other clears nothing |
| Simulator.Waiting | cps-simulation-main/cps-simulation-main/src/traffic_light_system.py:364-366 | a GREEN approach adds nothing to the wait total and any other adds its whole backlog; so a non-negative backlog adds between 0 and the backlog, and an approach never both clears and waits |
| Simulator.ArriveAll | cps-simulation-main/cps-simulation-main/src/traffic_light_system.py:316-324 | every approach's backlog receives its own arrivals under the cap |
| Simulator.Discharged | cps-simulation-main/cps-simulation-main/src/traffic_light_system.py:358-364 | every approach loses exactly what it clears |
| Simulator.CompromisedGroupReports | cps-simulation-main/cps-simulation-main/src/traffic_light_system.py:57-59 | once all sensors of a group are compromised with multiplier m, each reports the backlog × m truncated, whatever its noise |
| Simulator.InflatedReportsOutcome | cps-simulation-main/cps-simulation-main/src/traffic_light_system.py:156-186 | three equal reports v: without tolerance v is used; with tolerance a v above 20 is replaced by the fallback |
| Simulator.DefaultFalseDataOutcome | cps-simulation-main/cps-simulation-main/src/traffic_light_system.py:448-452 | the default false-data attack on an approach holding 7 or more vehicles makes all three sensors report 3 × backlog; plain averaging passes that on, and tolerance replaces it with the fallback |
| Simulator.ModestFalseDataOutcome | cps-simulation-main/cps-simulation-main/src/traffic_light_system.py:197-207 | the default 3.0 attack on a backlog of at most six gives reports of 3B, which pass the lane-capacity filter; with ten or more history counts the controller uses `int(mean)` when 3B is more than 3·sd from the mean and 3B otherwise |
| Simulator.DefaultAttackReports | cps-simulation-main/cps-simulation-main/src/traffic_light_system.py:57-59 | every sensor of a group compromised with the default multiplier 3.0 reports exactly three times the backlog, whatever its noise |
| Simulator.GroupReadingsCounts | cps-simulation-main/cps-simulation-main/src/traffic_light_system.py:336-338 | grouping one approach's readings gives its sensors' reported counts, and nothing for the other approaches |
| Simulator.ReadingsOverCounts | cps-simulation-main/cps-simulation-main/src/traffic_light_system.py:332-339 | after the first k approaches, each of them has its sensors' counts as its group and the others have none |
| Simulator.CollectedCounts | cps-simulation-main/cps-simulation-main/src/traffic_light_system.py:332-339 | the readings of one tick, grouped by approach, are exactly what each approach's sensors report |
| Simulator.PhaseDischarge | cps-simulation-main/cps-simulation-main/src/traffic_light_system.py:356-366 | in phase NS, north and south each clear min(5, backlog) while east and west add their backlog to the waiting total (the other way round for EW); at most 10 clear and at most 40 wait per tick |
| Simulator.Summarize | cps-simulation-main/cps-simulation-main/src/traffic_light_system.py:428-438 | a zero duration is an error; otherwise the average wait is total wait / max(1, processed), the throughput is processed per minute of duration, and the counters are passed through |
| Simulator.IntersectionSimulator.constructor | cps-simulation-main/cps-simulation-main/src/traffic_light_system.py:283-312 | fresh honest sensors and RED lights, a fresh controller with the given flag, empty backlogs, clock 0, phase NS for 30 s, zero metrics; the invariant holds |
| Simulator.IntersectionSimulator.NewSensors | cps-simulation-main/cps-simulation-main/src/traffic_light_system.py:287-289 | three fresh honest sensors of the approach, numbered 0, 1, 2 |
| Simulator.IntersectionSimulator.GenerateTraffic | cps-simulation-main/cps-simulation-main/src/traffic_light_system.py:316-324 | the loop over the approaches yields every backlog plus its arrivals, capped at 20 |
| Simulator.IntersectionSimulator.CollectSensorData | cps-simulation-main/cps-simulation-main/src/traffic_light_system.py:332-339 | the readings are every approach's sensors in order, each reporting on its approach's backlog |
| Simulator.IntersectionSimulator.ReadDirection | cps-simulation-main/cps-simulation-main/src/traffic_light_system.py:336-338 | the inner loop's readings are those of the approach's three sensors, in order |
| Simulator.IntersectionSimulator.UpdateLights | cps-simulation-main/cps-simulation-main/src/traffic_light_system.py:341-354 | the active axis's two lights are GREEN and the other two RED, each light updated by `set_state` at the current time |
| Simulator.IntersectionSimulator.ProcessVehicles | cps-simulation-main/cps-simulation-main/src/traffic_light_system.py:356-366 | every backlog loses what its light lets through; the processed total grows by the cleared vehicles and the wait total by the stopped backlogs |
| Simulator.IntersectionSimulator.Discharge | cps-simulation-main/cps-simulation-main/src/traffic_light_system.py:358-366 | the loop over the approaches yields the discharged backlogs and the processed and waiting totals |
| Simulator.IntersectionSimulator.UpdateLightTimers | cps-simulation-main/cps-simulation-main/src/traffic_light_system.py:411-413 | every light's dwell time moves on by delta |
| Simulator.IntersectionSimulator.Step | cps-simulation-main/cps-simulation-main/src/traffic_light_system.py:368-413 | one tick: the clock moves on; arrivals are capped; reports, validated counts and histories follow the sensors and the controller; the phase flips exactly when the elapsed time reaches its duration, and then takes the new axis's green plus yellow and adds half a cycle; the lights match the phase; the backlogs and metrics follow the discharge; the invariant (backlogs in [0, 20]) holds |
| Simulator.IntersectionSimulator.Sense | cps-simulation-main/cps-simulation-main/src/traffic_light_system.py:378-384 | arrivals, sensing and validation of one tick, with the clock, phase, lights and metrics untouched |
| Simulator.IntersectionSimulator.Observe | cps-simulation-main/cps-simulation-main/src/traffic_light_system.py:377-381 | the backlogs receive the arrivals, and the readings group into exactly what the sensors report on the new backlogs |
| Simulator.IntersectionSimulator.Control | cps-simulation-main/cps-simulation-main/src/traffic_light_system.py:386-413 | the timing comes from the validated counts, then the phase check, lights, discharge and timers follow, with the controller untouched |
| Simulator.IntersectionSimulator.AdvancePhase | cps-simulation-main/cps-simulation-main/src/traffic_light_system.py:390-403 | the phase flips exactly when the elapsed time reaches the phase duration; on a flip the new duration is the new axis's green + yellow and the cycle count grows by 0.5 |
| Simulator.IntersectionSimulator.Actuate | cps-simulation-main/cps-simulation-main/src/traffic_light_system.py:405-413 | the lights follow the phase, the green approaches discharge, and every dwell time moves on |
| Simulator.IntersectionSimulator.Tick | cps-simulation-main/cps-simulation-main/src/traffic_light_system.py:425-426 | one default step of one second: at most 10 vehicles processed, at most 40 added to the wait total, at most half a cycle; the ≤ 20 history bound of tolerance mode is kept |
| Simulator.IntersectionSimulator.RunSimulation | cps-simulation-main/cps-simulation-main/src/traffic_light_system.py:415-438 | after `duration` ticks the clock has moved on by `duration`; the totals grow by at most 10, 40 and 0.5 per tick; attacks are never counted; the tolerance bound is kept; the result is `Summarize` of the final metrics |
| Simulator.IntersectionSimulator.LaunchAttack | cps-simulation-main/cps-simulation-main/src/traffic_light_system.py:440-464 | false_data compromises exactly the three sensors of the target approach (NORTH and 3.0 unless given); delay stores the delay (10.0 unless given); override stores {1, 1, 0} for all_green and {0, 0, 0} for anything else; an unknown type changes nothing |
| Simulator.IntersectionSimulator.CompromiseApproach | cps-simulation-main/cps-simulation-main/src/traffic_light_system.py:450-452 | every sensor of the target approach is compromised with the multiplier and no other sensor changes |

## Left out

- Randomness: the arrivals of a tick and each honest sensor's `randint(-1, 1)` noise are inputs of `Step`, `Tick` and `RunSimulation`. The Poisson-like weights of `generate_traffic` and `_factorial` (lines 316-330) are not modelled. Only the cap at 20 is kept.
- The wall-clock `timestamp` of a `SensorReading` (line 68) is dropped: nothing reads it.
- Floating point: time, dwell times, the cycle count, the multiplier, the delay and the summary figures are exact reals. Float rounding is not modelled.
- `int(90 * ns_ratio)` (lines 246-248) is computed as the exact truncated quotient of 90 · ns by the total. A float product that rounds just below a whole number would give one less; that is not modelled.
- The square root of the variance (line 202) is not computed. The anomaly test compares squares, and `StdDevForm` proves the two tests equal.
- The communication delay is only stored and cleared: nothing in the tick reads it, so the model gives it no effect.
- The `attacks_detected` metric is never updated by the code, and the model keeps it constant.
- Simulator.IntersectionSimulator.RunSimulation: `run_simulation(0)` divides by zero when it computes the throughput. The code has no guard on the duration, so `run_simulation(0)` raises ZeroDivisionError. The model returns `Err(ZeroDuration)` in that case.
- Simulator.IntersectionSimulator.RunSimulation: its contract gives per-tick bounds on the metrics, not their exact values. The exact per-tick values are what `Step` states.
- Simulator.IntersectionSimulator.Tick: states the same bounds for one tick. The exact effect is what `Step` states.
- The keyword arguments of `launch_attack` become the record `AttackParams`, where an absent keyword is `None`.
- Simulator.IntersectionSimulator.RunSimulation: the duration is a `nat`. With a negative duration the code runs no tick and returns a throughput ≤ 0 (−0.0 when nothing was processed); the model does not accept that input.
- Default arguments other than those of `launch_attack` are required parameters: the multiplier of `inject_false_data` (3.0), `use_tolerance` (False) and the duration of `run_simulation` (100). `Tick` stands for `step()` with its default delta of 1.0.
- The phase strings "NS" and "EW" become the datatype `Phase`, and the timing dictionary becomes the record `Timing`.
- `get_state` is the field read `GetState`. It carries no contract of its own.
- `Valid` (wiring of sensors and lights, consistent light logs, bounded histories and backlogs) is established by the constructor and kept by every method. The source states no such precondition.
- `src/visualizer.py` (plotting and CSV output) and `src/main.py` (the scenario script, printing and JSON output) are not part of this model.
