/** `TrafficLight` (traffic_light_system.py): the signal of one approach, with
    its dwell-time accumulator and its append-only log of transitions. */
module Lights {
  import opened Common

  /** One entry of `state_history`: the state left, the state entered, when,
      and how long the state left had been held. */
  datatype Transition = Transition(from: LightState, to: LightState, timestamp: real, duration: real)

  /** The fields of a light at one moment. */
  datatype LightView = LightView(state: LightState, timeInState: real, stateHistory: seq<Transition>)

  /** What `set_state(new_state, timestamp)` makes of a light. */
  function Applied(v: LightView, newState: LightState, timestamp: real): (w: LightView)
    ensures w.state == newState
    ensures newState == v.state ==> w == v
    ensures v.stateHistory <= w.stateHistory && |w.stateHistory| <= |v.stateHistory| + 1
  {
    if newState == v.state then v
    else LightView(newState, 0.0, v.stateHistory + [Transition(v.state, newState, timestamp, v.timeInState)])
  }

  /** What `update_time(delta_time)` makes of a light. */
  function Ticked(v: LightView, deltaTime: real): (w: LightView)
    ensures w.state == v.state && w.stateHistory == v.stateHistory
    ensures w.timeInState - v.timeInState == deltaTime
  {
    v.(timeInState := v.timeInState + deltaTime)
  }

  /** The log describes the light's life: it starts from RED, each record is
      a real change, consecutive records chain, and the last one ends in the
      current state. */
  ghost predicate ChainValid(v: LightView) {
    Chained(Red, v.stateHistory, v.state)
  }

  /** Read in order from state `s`, every record of `h` leaves the state the
      previous one entered and enters a different one, ending in `e`. */
  ghost predicate Chained(s: LightState, h: seq<Transition>, e: LightState)
    decreases |h|
  {
    if h == [] then s == e
    else h[0].from == s && h[0].from != h[0].to && Chained(h[0].to, h[1..], e)
  }

  /** A record that leaves the last state for a different one extends the
      chain to the new state. */
  lemma {:induction false} ChainedExtend(s: LightState, h: seq<Transition>, e: LightState, t: Transition)
    requires Chained(s, h, e) && t.from == e && t.to != e
    ensures Chained(s, h + [t], t.to)
    decreases |h|
  {
    if h == [] {
      assert [t][1..] == [];
    } else {
      ChainedExtend(h[0].to, h[1..], e, t);
      assert (h + [t])[1..] == h[1..] + [t];
    }
  }

  /** `set_state` keeps the log a faithful account of the light's changes:
      exactly one record is added when the state changes and none otherwise,
      earlier records are kept as they were, and the new record carries the
      state left and its dwell time. */
  lemma AppliedKeepsLog(v: LightView, newState: LightState, timestamp: real)
    requires ChainValid(v)
    ensures var w := Applied(v, newState, timestamp);
      && ChainValid(w)
      && (newState == v.state ==> w == v)
      && w.state == newState
      && |w.stateHistory| == |v.stateHistory| + (if newState == v.state then 0 else 1)
      && w.stateHistory[..|v.stateHistory|] == v.stateHistory
      && (newState != v.state ==>
            w.stateHistory[|v.stateHistory|] == Transition(v.state, newState, timestamp, v.timeInState)
            && w.timeInState == 0.0)
  {
    var w := Applied(v, newState, timestamp);
    if newState != v.state {
      var t := Transition(v.state, newState, timestamp, v.timeInState);
      ChainedExtend(Red, v.stateHistory, v.state, t);
      assert w.stateHistory[..|v.stateHistory|] == v.stateHistory;
    }
  }

  /** Setting the same state twice in a row logs nothing the second time. */
  lemma AppliedTwice(v: LightView, newState: LightState, t1: real, t2: real)
    ensures Applied(Applied(v, newState, t1), newState, t2) == Applied(v, newState, t1)
  {
  }

  /** The dwell-time accumulator moves on by exactly the elapsed time and
      nothing else changes. */
  lemma TickedKeepsLog(v: LightView, deltaTime: real)
    requires ChainValid(v)
    ensures ChainValid(Ticked(v, deltaTime))
    ensures Ticked(v, deltaTime).state == v.state && Ticked(v, deltaTime).stateHistory == v.stateHistory
  {
  }

  class TrafficLight {
    const direction: Direction
    var state: LightState
    var timeInState: real
    var stateHistory: seq<Transition>

    ghost function View(): LightView
      reads this
    {
      LightView(state, timeInState, stateHistory)
    }

    ghost predicate Valid()
      reads this
    {
      ChainValid(View())
    }

    constructor (direction: Direction)
      ensures Valid()
      ensures this.direction == direction
      ensures View() == LightView(Red, 0.0, [])
    {
      this.direction := direction;
      state := Red;
      timeInState := 0.0;
      stateHistory := [];
    }

    /** `set_state(new_state, timestamp)`: a record is appended exactly when
        the state changes, and it carries the dwell time of the state left. */
    method SetState(newState: LightState, timestamp: real)
      requires Valid()
      modifies this
      ensures Valid()
      ensures View() == Applied(old(View()), newState, timestamp)
    {
      AppliedKeepsLog(View(), newState, timestamp);
      if newState != state {
        stateHistory := stateHistory + [Transition(state, newState, timestamp, timeInState)];
        state := newState;
        timeInState := 0.0;
      }
    }

    /** `update_time(delta_time)`: only the dwell time moves. */
    method UpdateTime(deltaTime: real)
      requires Valid()
      modifies this`timeInState
      ensures Valid()
      ensures View() == Ticked(old(View()), deltaTime)
    {
      timeInState := timeInState + deltaTime;
    }

    /** `get_state()`. */
    function GetState(): LightState
      reads this
    {
      state
    }
  }
}
