/** `RuleActuationStrategy`: an on/off thing driven by two expressions, whose values are given with each question. */
module Rule {
  import opened Words
  import opened PowerManager

  datatype State = State(state: Option<bool>, nextState: Option<bool>)

  /** The values of the two expressions when they are evaluated. */
  datatype Env = Env(on: bool, off: bool)

  function WantsDown(s: State, env: Env): (bool, State) {
    var s' := if env.off then s.(nextState := Some(false)) else s;
    (s'.nextState == Some(false) && s'.state != s'.nextState, s')
  }

  function WantsUp(s: State, env: Env): (bool, State) {
    var s' := if env.on then s.(nextState := Some(true)) else s;
    (s'.nextState == Some(true) && s'.state != s'.nextState, s')
  }

  function Adjusted(s: State, step: Step): State {
    match step
    case Keep => s
    case Down => s.(state := Some(false))
    case Up => s.(state := Some(true))
  }

  class RuleActuationStrategy {
    var state: Option<bool>
    var nextState: Option<bool>

    ghost function Value(): State
      reads this
    {
      State(state, nextState)
    }

    constructor ()
      ensures Value() == State(None, None)
    {
      state, nextState := None, None;
    }

    method WantsToStepDown(env: Env) returns (r: bool)
      modifies this`nextState
      ensures (r, Value()) == WantsDown(old(Value()), env)
    {
      if env.off {
        nextState := Some(false);
      }
      return nextState.Some? && !nextState.value && state != nextState;
    }

    method WantsToStepUp(env: Env) returns (r: bool)
      modifies this`nextState
      ensures (r, Value()) == WantsUp(old(Value()), env)
    {
      if env.on {
        nextState := Some(true);
      }
      return nextState.Some? && nextState.value && state != nextState;
    }

    /** Returns the published power control, if any. */
    method Adjust(step: Step) returns (powerControl: Option<bool>)
      modifies this`state
      ensures Value() == Adjusted(old(Value()), step) && powerControl == state
    {
      match step {
        case Keep =>
        case Down => state := Some(false);
        case Up => state := Some(true);
      }
      return state;
    }
  }

  /** One question, with or without permission to act on the answer. */
  datatype Turn = AskDown(env: Env, granted: bool) | AskUp(env: Env, granted: bool)

  function AfterTurn(s: State, t: Turn): State {
    match t
    case AskDown(env, granted) =>
      var (wants, s') := WantsDown(s, env);
      if wants && granted then Adjusted(s', Down) else s'
    case AskUp(env, granted) =>
      var (wants, s') := WantsUp(s, env);
      if wants && granted then Adjusted(s', Up) else s'
  }

  function AfterTurns(s: State, turns: seq<Turn>): State {
    if turns == [] then s else AfterTurn(AfterTurns(s, turns[..|turns| - 1]), turns[|turns| - 1])
  }

  /** The request that is pending or served: the last expression that was true when it was looked at. */
  function LastRequest(turns: seq<Turn>): Option<bool> {
    if turns == [] then None
    else
      match turns[|turns| - 1]
      case AskDown(env, _) => if env.off then Some(false) else LastRequest(turns[..|turns| - 1])
      case AskUp(env, _) => if env.on then Some(true) else LastRequest(turns[..|turns| - 1])
  }

  /** The last request that met permission: the question was the one for its direction, and it was granted. */
  function LastServed(turns: seq<Turn>): Option<bool> {
    if turns == [] then None
    else
      var request, earlier := LastRequest(turns), LastServed(turns[..|turns| - 1]);
      match turns[|turns| - 1]
      case AskDown(_, granted) => if granted && request == Some(false) then request else earlier
      case AskUp(_, granted) => if granted && request == Some(true) then request else earlier
  }

  /**
   * Over every run from the start: a request stays latched until the opposite expression is true, however often
   * it is denied; the state is the last request that met permission; and the strategy asks for a step exactly
   * when the latched request differs from it.
   */
  lemma {:induction false} RequestsAreLatched(turns: seq<Turn>)
    ensures var s := AfterTurns(State(None, None), turns);
            && s.nextState == LastRequest(turns)
            && s.state == LastServed(turns)
            && (WantsDown(s, Env(false, false)).0 <==> s.nextState == Some(false) && s.state != Some(false))
            && (WantsUp(s, Env(false, false)).0 <==> s.nextState == Some(true) && s.state != Some(true))
  {
    if turns != [] {
      RequestsAreLatched(turns[..|turns| - 1]);
    }
  }

  function Steps(s: State, turns: seq<Turn>): seq<Step> {
    if turns == [] then []
    else
      var before, rest := AfterTurns(s, turns[..|turns| - 1]), Steps(s, turns[..|turns| - 1]);
      match turns[|turns| - 1]
      case AskDown(env, granted) => if WantsDown(before, env).0 && granted then rest + [Down] else rest
      case AskUp(env, granted) => if WantsUp(before, env).0 && granted then rest + [Up] else rest
  }

  /** Steps strictly alternate: the thing is never switched to what it already is. */
  lemma {:induction false} StepsAlternate(turns: seq<Turn>)
    ensures var steps, s := Steps(State(None, None), turns), AfterTurns(State(None, None), turns);
            && (forall k :: 0 < k < |steps| ==> steps[k] != steps[k - 1])
            && (forall k :: 0 <= k < |steps| ==> steps[k] != Keep)
            && s.state == if steps == [] then None else Some(steps[|steps| - 1] == Up)
  {
    if turns != [] {
      StepsAlternate(turns[..|turns| - 1]);
    }
  }
}
