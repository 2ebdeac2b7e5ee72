/**
 * The workout's lifecycle as the phone and the watch share it: five states
 * with integer raw values, and a manager that moves to whatever state it is
 * told.
 */
module WorkoutStateModel {
  import opened Wrappers

  datatype WorkoutState =
    | WaitingForPhone
    | WorkoutDefined
    | WaitingForWatchStart
    | InProgress
    | Completed

  /**
   * The `Int` raw value: the cases are numbered from 0 in declaration order,
   * so `workoutDefined`, `waitingForWatchStart` and `inProgress` are 1, 2 and 3;
   * `RawValueRoundTrip` and `RawValueInjective` pin every value down.
   */
  function RawValue(s: WorkoutState): (r: int)
    ensures 0 <= r <= 4
    ensures r == 0 <==> s == WaitingForPhone
    ensures r == 4 <==> s == Completed
  {
    match s
    case WaitingForPhone => 0
    case WorkoutDefined => 1
    case WaitingForWatchStart => 2
    case InProgress => 3
    case Completed => 4
  }

  /** `WorkoutState(rawValue:)`: the state with that raw value, if there is one. */
  function FromRawValue(raw: int): (r: Option<WorkoutState>)
    ensures r.Some? <==> 0 <= raw <= 4
    ensures r.Some? ==> RawValue(r.value) == raw
  {
    if raw == 0 then Some(WaitingForPhone)
    else if raw == 1 then Some(WorkoutDefined)
    else if raw == 2 then Some(WaitingForWatchStart)
    else if raw == 3 then Some(InProgress)
    else if raw == 4 then Some(Completed)
    else None
  }

  /** Decoding a state's raw value gives the state back. */
  lemma {:induction false} RawValueRoundTrip(s: WorkoutState)
    ensures FromRawValue(RawValue(s)) == Some(s)
  {
    match s
    case WaitingForPhone =>
    case WorkoutDefined =>
    case WaitingForWatchStart =>
    case InProgress =>
    case Completed =>
  }

  /** Different states have different raw values. */
  lemma {:induction false} RawValueInjective(s: WorkoutState, t: WorkoutState)
    ensures RawValue(s) == RawValue(t) ==> s == t
  {
    RawValueRoundTrip(s);
    RawValueRoundTrip(t);
  }

  /** The shared manager of the current state. */
  class WorkoutStateManager {
    var currentState: WorkoutState

    /** A new manager waits for the phone. */
    constructor()
      ensures currentState == WaitingForPhone
    {
      currentState := WaitingForPhone;
    }

    /**
     * `transitionTo`: every transition is accepted, backward ones included;
     * the new state depends on the requested state alone, so repeating a
     * transition changes nothing.
     */
    method TransitionTo(newState: WorkoutState)
      modifies this
      ensures currentState == newState
    {
      currentState := newState;
      NotifyDevices();
    }

    /** `notifyDevices`: a stub with no effect. */
    method NotifyDevices()
    {
    }
  }
}
