/**
  The device machine: `off`, `waiting`, `sleeping`, with `off` the only final
  state, driven by a fixed list of user commands.
 */
module DeviceExample {
  import opened FiniteStateMachine

  datatype DeviceState = Off | Waiting | Sleeping
  datatype UserCommand = TurnOn | TurnOff | PutToSleep | Awake

  function DeviceTransitions(): Table<DeviceState, UserCommand>
  {
    map[
      Off := map[TurnOn := Waiting],
      Waiting := map[TurnOff := Off, PutToSleep := Sleeping],
      Sleeping := map[Awake := Waiting]
    ]
  }

  function DeviceDefinition(): (d: Definition<DeviceState, UserCommand>)
    ensures WellFormed(d)
  {
    Definition([Off, Waiting, Sleeping], Off, [Off], DeviceTransitions())
  }

  function DemoSignals(): seq<UserCommand>
  {
    [TurnOn, PutToSleep, Awake, TurnOff]
  }

  /**
    The demo: every command is accepted, the machine goes
    off -> waiting -> sleeping -> waiting -> off, and it is in a final state
    exactly before the first command and after the last.
   */
  method DeviceScenario() returns (r: RunResult<DeviceState>, finalAtStart: bool, finalAtEnd: bool)
    ensures r == RunResult([Off, Waiting, Sleeping, Waiting, Off], None)
    ensures finalAtStart && finalAtEnd
    ensures forall i :: 0 <= i < |r.trace| ==>
      (r.trace[i] in DeviceDefinition().finalStates <==> i == 0 || i == |r.trace| - 1)
  {
    var m := new StateMachine(DeviceDefinition());
    finalAtStart := m.IsInFinalState();
    r := Drive(m, DemoSignals());
    finalAtEnd := m.IsInFinalState();
  }

  /** From `off`, `putToSleep` is refused with the second error and the state stays `off`. */
  method RefusedSignalScenario() returns (outcome: Result<DeviceState>, state: DeviceState)
    ensures outcome == Failure(SignalNotAllowed) && state == Off
  {
    var m := new StateMachine(DeviceDefinition());
    outcome := m.Process(PutToSleep);
    state := m.currentState;
  }

  /**
    A table with no entry for `waiting`: once there, the next command fails
    with the first error, the run stops, and the machine stays in `waiting`.
   */
  method StuckStateScenario() returns (r: RunResult<DeviceState>, state: DeviceState)
    ensures r == RunResult([Off, Waiting], Some(NoTransitionsFromState))
    ensures state == Waiting
  {
    var stuck := Definition([Off, Waiting, Sleeping], Off, [Off], map[Off := map[TurnOn := Waiting]]);
    var m := new StateMachine(stuck);
    r := Drive(m, [TurnOn, TurnOff, TurnOn]);
    state := m.currentState;
  }
}
