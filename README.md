# Deterministic finite-state machine, in Dafny

This project models the `StateMachine` engine of `src/finite-state-machine.ts`.
A definition holds a state alphabet, an initial state, a list of final states and a
two-level transition table (state, then signal, to target state). The runtime copies
the definition and keeps one mutable field, `currentState`. It starts at the initial
state. `process(signal)` moves it by one table lookup or throws one of two errors.
`isInFinalState()` asks whether the current state is final. The file ends with a
device example that is driven by a fixed list of commands; it is modelled as
concrete scenarios.

Files:

- `finite_state_machine.dfy`, module `FiniteStateMachine`. It holds the datatypes
  (`Definition`, `StepError`, `Result`, `RunResult`), the pure step function `Step`,
  the run function `Run`, and the class `StateMachine` with its constructor, `Process`
  and `IsInFinalState`. It also holds the driver loop `Drive` and the lemmas.
- `device_example.dfy`, module `DeviceExample`. It holds the device states and
  commands, the device definition, and three scenarios.

Modelling choices:

- The two `throw`s of `process` become a returned `Result`. `Failure(NoTransitionsFromState)`
  is the error of lines 43-45. `Failure(SignalNotAllowed)` is the error of lines 48-50.
  On failure `currentState` is left unchanged, as it is in the code, where the throw
  comes before the assignment.
- The definition fields are `const` in the class, so `Process` cannot change them.
- The demo's `forEach` is the method `Drive`. A throw would end the `forEach` at the
  refused signal, so `Drive` stops at the first failure and reports it.
- The code performs no validation of the definition, so there is no "invalid
  definition" error. "The initial state and every target are in `states`"
  (`WellFormed`, `TargetsIn`) appears only as the hypothesis of the closure results.
- A state whose entry is present but empty (`{}`) fails with the second error, not
  the first: `{}` is not `null`, so the check at line 43 passes, and `{}[signal]` is
  `undefined`, so the check at line 48 throws (`EmptyEntryRejectsSignal`). Only a
  state absent from the table gives the first error (`StuckStateScenario`).

## Model

| member | source | states |
|---|---|---|
| `FiniteStateMachine.Step` | src/finite-state-machine.ts:41-53 | a state with no sub-map fails with NoTransitionsFromState, and only then; a present sub-map without the signal fails with SignalNotAllowed, and only then; success exactly when both lookups hit, with the table's target |
| `FiniteStateMachine.Contains` | src/finite-state-machine.ts:56 | the scan with `===` over the final states is true iff the element is in the list |
| `FiniteStateMachine.Run` | src/finite-state-machine.ts:91-97 | the trace of a run starts at the start state; each consecutive pair is a successful step on the next signal; with no error every signal was consumed; with an error the last state refuses the next signal with that error |
| `FiniteStateMachine.EmptyEntryRejectsSignal` | src/finite-state-machine.ts:42-50 | a present but empty sub-map fails with SignalNotAllowed, not NoTransitionsFromState |
| `FiniteStateMachine.RunStaysInStates` | src/finite-state-machine.ts:36-52 | if every target is in `states` and the start is too, every state a run visits is in `states` |
| `FiniteStateMachine.RunAppend` | src/finite-state-machine.ts:91-97 | driving with `a + b` equals driving with `a`, then, if no signal was refused, driving with `b` from where `a` stopped |
| `FiniteStateMachine.StateMachine.constructor` | src/finite-state-machine.ts:30-37 | the fields equal the supplied definition's; `currentState` is the initial state, and it is in `states` when the definition is well formed |
| `FiniteStateMachine.StateMachine.Process` | src/finite-state-machine.ts:41-53 | the outcome is `Step` of the old state; both failures leave `currentState` unchanged; success sets it to `transitions[old state][signal]`; membership in `states` is kept when every target is in `states` |
| `FiniteStateMachine.StateMachine.IsInFinalState` | src/finite-state-machine.ts:55-57 | true iff `currentState` is in `finalStates`; a function that only reads, so repeated calls agree |
| `FiniteStateMachine.Drive` | src/finite-state-machine.ts:91-97 | the loop's result is `Run` from the starting state; the machine ends in the trace's last state; it stays in `states` when it starts there and every target is in `states` |
| `FiniteStateMachine.ProcessIsDeterministic` | src/finite-state-machine.ts:41-53 | two machines with the same table and state, given the same signal, report the same outcome and end in the same state |
| `DeviceExample.DeviceDefinition` | src/finite-state-machine.ts:66-82 | the device definition is well formed: `off` is a state and every target is a state |
| `DeviceExample.DeviceScenario` | src/finite-state-machine.ts:86-97 | `[turnOn, putToSleep, awake, turnOff]` drives off, waiting, sleeping, waiting, off with no error; the machine is final at the start and the end and at no step in between |
| `DeviceExample.RefusedSignalScenario` | src/finite-state-machine.ts:47-50 | from `off`, `putToSleep` fails with SignalNotAllowed and the state stays `off` |
| `DeviceExample.StuckStateScenario` | src/finite-state-machine.ts:42-45 | with no table entry for `waiting`, the run `[turnOn, turnOff, turnOn]` stops at `waiting` with NoTransitionsFromState |

## Left out

- Logging: `console.info` in the constructor (line 38) and the demo's `console.warn`
  lines (84-100) are output only and do not change state.
- Error messages: the text of the two errors (lines 44 and 49) is not modelled. Only
  which of the two errors occurs is modelled.
- TypeScript typing: the `State extends string` label types and the `Stream` alias
  (line 16) become type parameters and `seq`. A target stored as `null` or `undefined`
  is not modelled. Keys inherited from `Object.prototype` are not modelled either.
  A key is either in the table or absent.
- Aliasing and public fields: the constructor stores references to the caller's
  arrays and table, and the TypeScript fields are public and writable. The model
  copies the definition by value into `const` fields. So it does not capture a
  caller mutating the definition after construction.
- Exceptions: a throw becomes a returned `Failure`. In the demo, an uncaught throw
  would end the script. `Drive` instead returns the error with the trace so far.
