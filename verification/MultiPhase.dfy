/** `MultiPhaseStrategy`: a relay with several phases, switched in circular order. */
module MultiPhase {
  import opened Words
  import opened PowerManager

  /** Fixed at construction; the limit duration is in the clock's unit. */
  datatype Config = Config(thresholds: seq<int>, hystereses: seq<int>, limitDuration: int)

  datatype State = State(
    config: Config,
    currentStates: seq<bool>, timestamps: seq<int>,
    nextStepUpPhase: nat, nextStepDownPhase: nat,
    deliveredEnergy: int, currentDay: int,
    isInputActive: bool, phaseLimit: int, phaseLimitTimepoint: int)

  /** What the strategy reads when asked: the thing's properties, the site's grid power and the clock. */
  datatype Env = Env(inputs: seq<bool>, reported: seq<bool>, longTermGridPower: real, now: int)

  predicate Sound(s: State) {
    var n := |s.config.thresholds|;
    && n > 0 && |s.config.hystereses| == |s.currentStates| == |s.timestamps| == n
    && s.nextStepUpPhase < n && s.nextStepDownPhase < n
    && 0 <= s.phaseLimit <= n
  }

  function Initial(config: Config): State {
    var n := |config.thresholds|;
    State(config, seq(n, _ => false), seq(n, _ => 0), 0, 0, 0, 0, false, n, 0)
  }

  function Count(states: seq<bool>): nat {
    if states == [] then 0 else Count(states[..|states| - 1]) + if states[|states| - 1] then 1 else 0
  }

  predicate WantsDown(s: State, env: Env)
    requires Sound(s)
  {
    && |env.inputs| == |s.config.thresholds| == |env.reported|
    && env.reported[s.nextStepDownPhase]
    && (!s.isInputActive || env.longTermGridPower > 0.0)
  }

  function Decremented(s: State, now: int): State {
    if s.phaseLimit == 0 then s
    else s.(phaseLimitTimepoint := now, phaseLimit := if s.phaseLimit - 1 > 0 then s.phaseLimit - 1 else 0)
  }

  function Incremented(s: State, now: int): State {
    var n := |s.config.thresholds|;
    if s.phaseLimit >= n || now - s.phaseLimitTimepoint < s.config.limitDuration then s
    else s.(phaseLimitTimepoint := now, phaseLimit := if s.phaseLimit + 1 < n then s.phaseLimit + 1 else n)
  }

  /** Asking for a step up may raise the phase limit. */
  function WantsUp(s: State, env: Env): (r: (bool, State))
    requires Sound(s)
  {
    if |env.inputs| != |s.config.thresholds| || |env.reported| != |s.config.thresholds| then (false, s)
    else if env.reported[s.nextStepUpPhase] then (false, s)
    else if !env.inputs[s.nextStepUpPhase] then (false, s)
    else
      var s' := Incremented(s, env.now);
      if Count(env.reported) >= s'.phaseLimit then (false, s')
      else
        var i := s.nextStepUpPhase;
        (env.longTermGridPower < (-s.config.thresholds[i] - s.config.hystereses[i]) as real, s')
  }

  function DayOf(ts: int): int {
    TruncDiv(ts, SECONDS_PER_DAY)
  }

  /** A change of day forgets the delivered energy, not the running phases. */
  function NewDay(s: State, ts: int): State {
    if DayOf(ts) == s.currentDay then s else s.(currentDay := DayOf(ts), deliveredEnergy := 0)
  }

  function Stepped(s: State, step: Step, ts: int): (r: State)
    requires Sound(s)
    ensures Sound(r)
  {
    var n := |s.config.thresholds|;
    match step
    case Keep => s
    case Down =>
      var i := s.nextStepDownPhase;
      s.(deliveredEnergy := s.deliveredEnergy + (ts - s.timestamps[i]) * s.config.thresholds[i],
         currentStates := s.currentStates[i := false],
         nextStepDownPhase := (i + 1) % n)
    case Up =>
      var i := s.nextStepUpPhase;
      s.(timestamps := s.timestamps[i := ts],
         currentStates := s.currentStates[i := true],
         nextStepUpPhase := (i + 1) % n)
  }

  function Adjusted(s: State, step: Step, ts: int): (r: State)
    requires Sound(s)
    ensures Sound(r)
  {
    Stepped(NewDay(s, ts), step, ts)
  }

  /** Power of the first `k` phases that are on. */
  function PowerTo(s: State, k: nat): int
    requires Sound(s) && k <= |s.currentStates|
  {
    if k == 0 then 0 else PowerTo(s, k - 1) + if s.currentStates[k - 1] then s.config.thresholds[k - 1] else 0
  }

  function Power(s: State): int
    requires Sound(s)
  {
    PowerTo(s, |s.currentStates|)
  }

  /** Energy of the first `k` phases that are on, since they came on, in Ws. */
  function RunningTo(s: State, ts: int, k: nat): int
    requires Sound(s) && k <= |s.currentStates|
  {
    if k == 0 then 0
    else
      RunningTo(s, ts, k - 1) +
        if s.currentStates[k - 1] then (ts - s.timestamps[k - 1]) * s.config.thresholds[k - 1] else 0
  }

  function Energy(s: State, ts: int): int
    requires Sound(s)
  {
    s.deliveredEnergy + RunningTo(s, ts, |s.currentStates|)
  }

  /** The edge detector on the digital inputs: losing the inputs lowers the phase limit. */
  function OnInputs(s: State, values: seq<bool>, now: int): State {
    var allTrue := forall i :: 0 <= i < |values| ==> values[i];
    var s' := if s.isInputActive && !allTrue then Decremented(s, now) else s;
    s'.(isInputActive := allTrue)
  }

  datatype Published = Published(multistateSelector: seq<bool>, power: int, energy: int)

  class MultiPhaseStrategy {
    const config: Config
    var currentStates: seq<bool>
    var timestamps: seq<int>
    var nextStepUpPhase: nat
    var nextStepDownPhase: nat
    var deliveredEnergy: int
    var currentDay: int
    var isInputActive: bool
    var phaseLimit: int
    var phaseLimitTimepoint: int

    ghost function Value(): State
      reads this
    {
      State(config, currentStates, timestamps, nextStepUpPhase, nextStepDownPhase, deliveredEnergy, currentDay,
            isInputActive, phaseLimit, phaseLimitTimepoint)
    }

    constructor (config: Config)
      requires |config.thresholds| == |config.hystereses| > 0
      ensures Value() == Initial(config) && Sound(Value())
      ensures (forall i :: 0 <= i < |currentStates| ==> !currentStates[i]) && |currentStates| == |config.thresholds|
      ensures nextStepUpPhase == nextStepDownPhase == 0 && phaseLimit == |config.thresholds| && !isInputActive
    {
      this.config := config;
      currentStates := seq(|config.thresholds|, _ => false);
      timestamps := seq(|config.thresholds|, _ => 0);
      nextStepUpPhase, nextStepDownPhase, deliveredEnergy, currentDay := 0, 0, 0, 0;
      isInputActive, phaseLimit, phaseLimitTimepoint := false, |config.thresholds|, 0;
    }

    method OnDigitalInput(values: seq<bool>, now: int)
      modifies this
      ensures Value() == OnInputs(old(Value()), values, now)
    {
      var allTrue := forall i :: 0 <= i < |values| ==> values[i];
      if isInputActive && !allTrue {
        DecrementPhaseLimit(now);
      }
      isInputActive := allTrue;
    }

    method DecrementPhaseLimit(now: int)
      modifies this`phaseLimit, this`phaseLimitTimepoint
      ensures Value() == Decremented(old(Value()), now)
    {
      if phaseLimit == 0 {
        return;
      }
      phaseLimitTimepoint := now;
      phaseLimit := if phaseLimit - 1 > 0 then phaseLimit - 1 else 0;
    }

    method IncrementPhaseLimit(now: int)
      modifies this`phaseLimit, this`phaseLimitTimepoint
      ensures Value() == Incremented(old(Value()), now)
    {
      if phaseLimit >= |config.thresholds| {
        return;
      }
      if now - phaseLimitTimepoint < config.limitDuration {
        return;
      }
      phaseLimitTimepoint := now;
      phaseLimit := if phaseLimit + 1 < |config.thresholds| then phaseLimit + 1 else |config.thresholds|;
    }

    method WantsToStepDown(env: Env) returns (r: bool)
      requires Sound(Value())
      ensures r == WantsDown(Value(), env)
      ensures r <==>
        && |env.inputs| == |env.reported| == |config.thresholds|
        && env.reported[nextStepDownPhase] && (isInputActive ==> env.longTermGridPower > 0.0)
    {
      if |env.inputs| != |config.thresholds| || |env.reported| != |config.thresholds| {
        return false;
      }
      if !env.reported[nextStepDownPhase] {
        return false;
      }
      if !isInputActive {
        return true;
      }
      return env.longTermGridPower > 0.0;
    }

    method WantsToStepUp(env: Env) returns (r: bool)
      requires Sound(Value())
      modifies this`phaseLimit, this`phaseLimitTimepoint
      ensures (r, Value()) == WantsUp(old(Value()), env)
    {
      if |env.inputs| != |config.thresholds| || |env.reported| != |config.thresholds| {
        return false;
      }
      if env.reported[nextStepUpPhase] {
        return false;
      }
      if !env.inputs[nextStepUpPhase] {
        return false;
      }
      IncrementPhaseLimit(env.now);
      var phaseCount := 0;
      for i := 0 to |env.reported|
        invariant phaseCount == Count(env.reported[..i])
      {
        assert env.reported[..i + 1][..i] == env.reported[..i];
        if env.reported[i] {
          phaseCount := phaseCount + 1;
        }
      }
      assert env.reported[..|env.reported|] == env.reported;
      if phaseCount >= phaseLimit {
        return false;
      }
      return env.longTermGridPower < (-config.thresholds[nextStepUpPhase] - config.hystereses[nextStepUpPhase]) as real;
    }

    method TakeStep(step: Step, ts: int)
      requires Sound(Value())
      modifies this
      ensures Value() == Adjusted(old(Value()), step, ts)
    {
      var day := DayOf(ts);
      if day != currentDay {
        currentDay := day;
        deliveredEnergy := 0;
      }
      match step {
        case Keep =>
        case Down =>
          var i := nextStepDownPhase;
          deliveredEnergy := deliveredEnergy + (ts - timestamps[i]) * config.thresholds[i];
          currentStates := currentStates[i := false];
          nextStepDownPhase := (i + 1) % |currentStates|;
        case Up =>
          var i := nextStepUpPhase;
          timestamps := timestamps[i := ts];
          currentStates := currentStates[i := true];
          nextStepUpPhase := (i + 1) % |currentStates|;
      }
    }

    method Adjust(step: Step, ts: int) returns (p: Published)
      requires Sound(Value())
      modifies this
      ensures Value() == Adjusted(old(Value()), step, ts)
      ensures p == Published(currentStates, Power(Value()), TruncDiv(Energy(Value(), ts), 60000))
    {
      TakeStep(step, ts);
      ghost var s := Value();
      assert Sound(s);
      var currentPower := 0;
      for i := 0 to |currentStates|
        invariant currentPower == PowerTo(s, i)
      {
        if currentStates[i] {
          currentPower := currentPower + config.thresholds[i];
        }
      }
      var currentEnergy := 0;
      for i := 0 to |currentStates|
        invariant currentEnergy == RunningTo(s, ts, i)
      {
        if currentStates[i] {
          currentEnergy := currentEnergy + (ts - timestamps[i]) * config.thresholds[i];
        }
      }
      p := Published(currentStates, currentPower, TruncDiv(deliveredEnergy + currentEnergy, 60000));
    }
  }
}
