/**
  A deterministic finite-state-machine engine: a definition (states, initial
  state, final states, transition table) and a runtime object whose only
  mutable field is the current state, advanced one signal at a time.
 */
module FiniteStateMachine {

  datatype Option<T> = None | Some(value: T)

  /** The two ways `process` can fail. */
  datatype StepError =
    | NoTransitionsFromState  // the current state has no sub-map in the table
    | SignalNotAllowed        // the sub-map exists but has no entry for the signal

  /** Outcome of one `process` call: the new state, or which error was thrown. */
  datatype Result<S> = Success(value: S) | Failure(error: StepError)

  /** The transition table: state -> (signal -> target state). */
  type Table<S(==), G(==)> = map<S, map<G, S>>

  /** The declarative description handed to the constructor. */
  datatype Definition<S(==), G(==)> = Definition(
    states: seq<S>,
    initialState: S,
    finalStates: seq<S>,
    transitions: Table<S, G>)

  /** Independent reading of the table as a relation: `s --g--> s'`. */
  ghost predicate Transition<S, G>(t: Table<S, G>, s: S, g: G, s': S)
  {
    s in t && g in t[s] && t[s][g] == s'
  }

  /** Every target the table names is one of `states`. */
  ghost predicate TargetsIn<S, G>(states: seq<S>, t: Table<S, G>)
  {
    forall s, g :: s in t && g in t[s] ==> t[s][g] in states
  }

  /** The closure hypothesis under which the current state never leaves the alphabet. */
  ghost predicate WellFormed<S, G>(d: Definition<S, G>)
  {
    d.initialState in d.states && TargetsIn(d.states, d.transitions)
  }

  /** One `process` step as a value: the two-level table lookup. */
  function Step<S(==), G(==)>(t: Table<S, G>, s: S, g: G): (r: Result<S>)
    ensures r == Failure(NoTransitionsFromState) <==> s !in t
    ensures r == Failure(SignalNotAllowed) <==> s in t && g !in t[s]
    ensures r.Success? <==> s in t && g in t[s]
    ensures r.Success? ==> Transition(t, s, g, r.value)
  {
    if s !in t then Failure(NoTransitionsFromState)
    else if g !in t[s] then Failure(SignalNotAllowed)
    else Success(t[s][g])
  }

  /** Membership by scanning, as `Array.prototype.some` with `===` does. */
  function Contains<T(==)>(xs: seq<T>, x: T): (b: bool)
    ensures b <==> x in xs
  {
    if xs == [] then false else xs[0] == x || Contains(xs[1..], x)
  }

  function Last<T>(s: seq<T>): T
    requires |s| > 0
  {
    s[|s| - 1]
  }

  /**
    What driving a machine with a list of signals produces: the states it was
    in (the start state first, then the state after each accepted signal) and,
    if some signal was refused, the error that stopped the run.
   */
  datatype RunResult<S> = RunResult(trace: seq<S>, error: Option<StepError>)

  /** Feeding `signals` one at a time from `s`, stopping at the first failure. */
  function Run<S(==), G(==)>(t: Table<S, G>, s: S, signals: seq<G>): (r: RunResult<S>)
    ensures |r.trace| >= 1 && r.trace[0] == s
    ensures r.error.None? ==> |r.trace| == |signals| + 1
    ensures r.error.Some? ==>
      |r.trace| <= |signals| &&
      Step(t, Last(r.trace), signals[|r.trace| - 1]) == Failure(r.error.value)
    ensures forall i :: 0 <= i < |r.trace| - 1 ==>
      Step(t, r.trace[i], signals[i]) == Success(r.trace[i + 1])
    decreases |signals|
  {
    if signals == [] then RunResult([s], None)
    else
      match Step(t, s, signals[0])
      case Failure(e) => RunResult([s], Some(e))
      case Success(s') =>
        var rest := Run(t, s', signals[1..]);
        RunResult([s] + rest.trace, rest.error)
  }

  /** An empty sub-map is present, so the error is the second one, not the first. */
  lemma EmptyEntryRejectsSignal<S, G>(t: Table<S, G>, s: S, g: G)
    requires s in t && t[s] == map[]
    ensures Step(t, s, g) == Failure(SignalNotAllowed)
  {
  }

  /** If the table's targets are all in `states`, so is every state a run visits. */
  lemma {:induction false} RunStaysInStates<S, G>(
    states: seq<S>, t: Table<S, G>, s: S, signals: seq<G>)
    requires TargetsIn(states, t) && s in states
    ensures forall x :: x in Run(t, s, signals).trace ==> x in states
    decreases |signals|
  {
    if signals != [] {
      match Step(t, s, signals[0])
      case Failure(_) =>
      case Success(s') =>
        RunStaysInStates(states, t, s', signals[1..]);
    }
  }

  /** Driving with `a + b` is driving with `a`, then (if nothing failed) with `b`. */
  lemma {:induction false} RunAppend<S, G>(t: Table<S, G>, s: S, a: seq<G>, b: seq<G>)
    ensures
      var ra := Run(t, s, a);
      Run(t, s, a + b) ==
        if ra.error.Some? then ra
        else
          var rb := Run(t, Last(ra.trace), b);
          RunResult(ra.trace + rb.trace[1..], rb.error)
    decreases |a|
  {
    if a == [] {
      assert a + b == b;
    } else {
      assert (a + b)[0] == a[0];
      assert (a + b)[1..] == a[1..] + b;
      match Step(t, s, a[0])
      case Failure(_) =>
      case Success(s') =>
        RunAppend(t, s', a[1..], b);
    }
  }

  /** The runtime: the definition's fields, fixed, and the one mutable `currentState`. */
  class StateMachine<S(==), G(==)> {
    const states: seq<S>
    const initialState: S
    const finalStates: seq<S>
    const transitions: Table<S, G>

    var currentState: S

    /** The definition this machine was built from. */
    function Def(): Definition<S, G>
    {
      Definition(states, initialState, finalStates, transitions)
    }

    constructor (definition: Definition<S, G>)
      ensures Def() == definition
      ensures currentState == definition.initialState
      ensures WellFormed(definition) ==> currentState in states
    {
      states := definition.states;
      initialState := definition.initialState;
      finalStates := definition.finalStates;
      transitions := definition.transitions;
      currentState := definition.initialState;
    }

    /**
      Advances by `signal`: fails without moving when the current state has no
      sub-map or the sub-map has no entry for `signal`; otherwise moves to the
      table's target. The definition fields are constants, so nothing else changes.
     */
    method Process(signal: G) returns (r: Result<S>)
      modifies this
      ensures r == Step(transitions, old(currentState), signal)
      ensures old(currentState) !in transitions ==>
        r == Failure(NoTransitionsFromState) && currentState == old(currentState)
      ensures old(currentState) in transitions && signal !in transitions[old(currentState)] ==>
        r == Failure(SignalNotAllowed) && currentState == old(currentState)
      ensures r.Success? ==>
        currentState == r.value == transitions[old(currentState)][signal]
      ensures r.Failure? ==> currentState == old(currentState)
      ensures TargetsIn(states, transitions) && old(currentState) in states ==>
        currentState in states
    {
      if currentState !in transitions {
        return Failure(NoTransitionsFromState);
      }
      var allowed := transitions[currentState];
      if signal !in allowed {
        return Failure(SignalNotAllowed);
      }
      currentState := allowed[signal];
      r := Success(currentState);
    }

    /** True exactly when the current state is one of the final states. */
    function IsInFinalState(): (b: bool)
      reads this
      ensures b <==> currentState in finalStates
    {
      Contains(finalStates, currentState)
    }
  }

  /**
    The driver loop: feeds `signals` to `m` in order, recording the state before
    each signal and after the last accepted one; a refused signal ends the loop
    with `m` left in the state it was in.
   */
  method Drive<S(==), G(==)>(m: StateMachine<S, G>, signals: seq<G>) returns (r: RunResult<S>)
    modifies m
    ensures r == Run(m.transitions, old(m.currentState), signals)
    ensures m.currentState == Last(r.trace)
    ensures TargetsIn(m.states, m.transitions) && old(m.currentState) in m.states ==>
      m.currentState in m.states
  {
    ghost var s0 := m.currentState;
    var trace := [m.currentState];
    var error: Option<StepError> := None;
    var i := 0;
    while i < |signals| && error.None?
      invariant 0 <= i <= |signals|
      invariant |trace| == i + 1 && Last(trace) == m.currentState
      invariant error.None? ==>
        var rest := Run(m.transitions, m.currentState, signals[i..]);
        Run(m.transitions, s0, signals) == RunResult(trace[..i] + rest.trace, rest.error)
      invariant error.Some? ==> Run(m.transitions, s0, signals) == RunResult(trace, error)
      decreases |signals| - i, error.None?
    {
      var before := m.currentState;
      var outcome := m.Process(signals[i]);
      assert signals[i..][0] == signals[i];
      assert signals[i..][1..] == signals[i + 1..];
      assert trace[..i] + [before] == trace;
      if outcome.Failure? {
        error := Some(outcome.error);
      } else {
        trace := trace + [m.currentState];
        assert trace[..i + 1] == trace[..i] + [before];
        i := i + 1;
      }
    }
    if error.None? {
      assert signals[i..] == [];
      assert trace[..i] + [m.currentState] == trace;
    }
    r := RunResult(trace, error);
    if TargetsIn(m.states, m.transitions) && s0 in m.states {
      RunStaysInStates(m.states, m.transitions, s0, signals);
      assert Last(r.trace) in r.trace;
    }
  }

  /**
    Determinism: two machines over the same table, in the same state, given the
    same signal, report the same outcome and end in the same state.
   */
  method ProcessIsDeterministic<S(==), G(==)>(a: StateMachine<S, G>, b: StateMachine<S, G>, signal: G)
    returns (ra: Result<S>, rb: Result<S>)
    requires a != b
    requires a.transitions == b.transitions && a.currentState == b.currentState
    modifies a, b
    ensures ra == rb && a.currentState == b.currentState
  {
    ra := a.Process(signal);
    rb := b.Process(signal);
  }
}
