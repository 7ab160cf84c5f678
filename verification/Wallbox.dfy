/** `WallboxStrategy`, the hysteresis controller of an EV charger, and the hysteresis it is configured with. */
module Wallbox {
  import opened Words
  import opened RealArith
  import opened PowerManager

  datatype ThingStatus = unknown | off | idle | waiting | charging | throttled | complete | error | service

  /** `offsetTable`: its first entry stands for "off". */
  const OFFSET_TABLE: seq<int> := [-32768, -2000, -1000, 0, 1000, 2000, 5000, 10000, 32767]

  /** `ConfigRepository::hysteresisFor` with the two configured values. */
  function HysteresisFor(power: int, absolute: int, percent: int): (h: int)
    ensures h >= absolute
    ensures var share := power * percent;
            && (share >= 0 ==> share < 100 * h + 50 && (h == absolute || 100 * h - 50 <= share))
            && (share <= 0 ==> share <= 100 * h + 50 && (h == absolute || 100 * h - 50 < share))
  {
    var relative := Round((power * percent) as real / 100.0);
    if absolute > relative then absolute else relative
  }

  datatype State = State(
    onePhaseHysteresis: int, threePhaseHysteresis: int,
    powerMeasured: real, voltages: seq<int>, powerOffset: int, status: ThingStatus,
    phases: int, current: int, nextPhases: int)

  datatype Env = Env(longTermGridPower: real, shortTermGridPower: real)

  predicate Sound(s: State) {
    |s.voltages| == 3 && s.phases in {0, 1, 3} && s.nextPhases in {0, 1, 3}
  }

  function AllVoltages(s: State): int
    requires |s.voltages| == 3
  {
    s.voltages[0] + s.voltages[1] + s.voltages[2]
  }

  function ComputePhases(s: State, availablePower: real, applyHysteresis: bool): int
    requires |s.voltages| == 3
  {
    var one := if applyHysteresis then s.onePhaseHysteresis else 0;
    var three := if applyHysteresis then s.threePhaseHysteresis else 0;
    if availablePower - three as real > (6 * AllVoltages(s)) as real then 3
    else if availablePower - one as real > (6 * s.voltages[0]) as real then 1
    else 0
  }

  function Max0(x: int): int {
    if x > 0 then x else 0
  }

  /** The number of phases `wantsToStepDown` computes. */
  function DownTarget(s: State, env: Env): int
    requires |s.voltages| == 3
  {
    if s.powerOffset == OFFSET_TABLE[0] then 0
    else ComputePhases(s, Max0(s.powerOffset) as real + s.powerMeasured - env.longTermGridPower, false)
  }

  /** The number of phases `wantsToStepUp` computes. */
  function UpTarget(s: State, env: Env): int
    requires |s.voltages| == 3
  {
    ComputePhases(s, s.powerOffset as real + s.powerMeasured - env.longTermGridPower, true)
  }

  function WantsDown(s: State, env: Env): (bool, State)
    requires |s.voltages| == 3
  {
    (DownTarget(s, env) < s.phases, s.(nextPhases := DownTarget(s, env)))
  }

  predicate MayStepUp(status: ThingStatus) {
    status == waiting || status == charging
  }

  function WantsUp(s: State, env: Env): (bool, State)
    requires |s.voltages| == 3
  {
    if !MayStepUp(s.status) then (false, s)
    else (UpTarget(s, env) > s.phases, s.(nextPhases := UpTarget(s, env)))
  }

  /** Conversion of a double to int: toward zero. */
  function Truncate(x: real): int {
    if x >= 0.0 then x.Floor else -((-x).Floor)
  }

  /** Volts that one ampere is multiplied with; the source leaves a division by 0 V undefined. */
  function Volts(s: State): int
    requires |s.voltages| == 3
  {
    if s.phases == 1 then s.voltages[0] else AllVoltages(s)
  }

  function ComputeCurrent(s: State, availablePower: real): int
    requires |s.voltages| == 3 && (s.phases in {1, 3} ==> Volts(s) != 0)
  {
    if s.phases in {1, 3} then Truncate(availablePower / Volts(s) as real) else 0
  }

  function ShortTermPower(s: State, env: Env): real {
    Max0(s.powerOffset) as real + s.powerMeasured - env.shortTermGridPower
  }

  function Switched(s: State, step: Step): State {
    if step == Keep then s else s.(phases := s.nextPhases)
  }

  function Adjusted(s: State, step: Step, env: Env): State
    requires |s.voltages| == 3 && (Switched(s, step).phases in {1, 3} ==> Volts(Switched(s, step)) != 0)
  {
    var s' := Switched(s, step);
    s'.(current := ComputeCurrent(s', ShortTermPower(s, env)))
  }

  /** News from the charger: a map of properties, each present or not; the power is already averaged. */
  datatype Properties = Properties(
    power: Option<real>, voltages: Option<seq<int>>, offset: Option<nat>, status: Option<ThingStatus>)

  /** Three voltages, and an index into the offset table. */
  predicate WellTyped(p: Properties) {
    (p.voltages.Some? ==> |p.voltages.value| == 3) && (p.offset.Some? ==> p.offset.value < |OFFSET_TABLE|)
  }

  function Informed(s: State, p: Properties): State
    requires WellTyped(p)
  {
    s.(powerMeasured := p.power.UnwrapOr(s.powerMeasured),
       voltages := p.voltages.UnwrapOr(s.voltages),
       powerOffset := if p.offset.Some? then OFFSET_TABLE[p.offset.value] else s.powerOffset,
       status := p.status.UnwrapOr(s.status))
  }

  class WallboxStrategy {
    const onePhaseHysteresis: int
    const threePhaseHysteresis: int
    var powerMeasured: real
    var voltages: seq<int>
    var powerOffset: int
    var status: ThingStatus
    var phases: int
    var current: int
    var nextPhases: int

    ghost function Value(): State
      reads this
    {
      State(onePhaseHysteresis, threePhaseHysteresis, powerMeasured, voltages, powerOffset, status,
            phases, current, nextPhases)
    }

    constructor (absolute: int, percent: int, voltages: seq<int>, powerOffset: int)
      requires |voltages| == 3
      ensures Sound(Value()) && phases == current == nextPhases == 0 && status == unknown && powerMeasured == 0.0
      ensures this.voltages == voltages && this.powerOffset == powerOffset
      ensures onePhaseHysteresis == HysteresisFor(6 * 230, absolute, percent)
      ensures threePhaseHysteresis == HysteresisFor(3 * 6 * 230, absolute, percent)
    {
      onePhaseHysteresis := HysteresisFor(6 * 230, absolute, percent);
      threePhaseHysteresis := HysteresisFor(3 * 6 * 230, absolute, percent);
      powerMeasured, this.voltages, this.powerOffset, status := 0.0, voltages, powerOffset, unknown;
      phases, current, nextPhases := 0, 0, 0;
    }

    method OnProperties(p: Properties)
      requires WellTyped(p)
      modifies this`powerMeasured, this`voltages, this`powerOffset, this`status
      ensures Value() == Informed(old(Value()), p)
      ensures powerMeasured == (if p.power.Some? then p.power.value else old(powerMeasured))
      ensures voltages == (if p.voltages.Some? then p.voltages.value else old(voltages))
      ensures status == (if p.status.Some? then p.status.value else old(status))
      ensures p.offset.None? ==> powerOffset == old(powerOffset)
      ensures p.offset.Some? ==>
                powerOffset == [-32768, -2000, -1000, 0, 1000, 2000, 5000, 10000, 32767][p.offset.value]
    {
      if p.power.Some? {
        powerMeasured := p.power.value;
      }
      if p.voltages.Some? {
        voltages := p.voltages.value;
      }
      if p.offset.Some? {
        powerOffset := OFFSET_TABLE[p.offset.value];
      }
      if p.status.Some? {
        OnStatus(p.status.value);
      }
    }

    method OnStatus(status: ThingStatus)
      modifies this`status
      ensures Value() == old(Value()).(status := status)
    {
      this.status := status;
    }

    method WantsToStepDown(env: Env) returns (r: bool)
      requires |voltages| == 3
      modifies this`nextPhases
      ensures (r, Value()) == WantsDown(old(Value()), env)
    {
      if powerOffset == OFFSET_TABLE[0] {
        nextPhases := 0;
      } else {
        var longTermAvailablePower := Max0(powerOffset) as real + powerMeasured - env.longTermGridPower;
        nextPhases := DoComputePhases(longTermAvailablePower, false);
      }
      return nextPhases < phases;
    }

    method WantsToStepUp(env: Env) returns (r: bool)
      requires |voltages| == 3
      modifies this`nextPhases
      ensures (r, Value()) == WantsUp(old(Value()), env)
    {
      if status != waiting && status != charging {
        return false;
      }
      var longTermAvailablePower := powerOffset as real + powerMeasured - env.longTermGridPower;
      nextPhases := DoComputePhases(longTermAvailablePower, true);
      return nextPhases > phases;
    }

    method DoComputePhases(availablePower: real, applyHysteresis: bool) returns (r: int)
      requires |voltages| == 3
      ensures r == ComputePhases(Value(), availablePower, applyHysteresis)
    {
      var one := if applyHysteresis then onePhaseHysteresis else 0;
      var three := if applyHysteresis then threePhaseHysteresis else 0;
      if availablePower - three as real > (6 * (voltages[0] + voltages[1] + voltages[2])) as real {
        return 3;
      } else if availablePower - one as real > (6 * voltages[0]) as real {
        return 1;
      } else {
        return 0;
      }
    }

    /** Returns the current that is published. */
    method Adjust(step: Step, env: Env) returns (amperes: int)
      requires |voltages| == 3 && (Switched(Value(), step).phases in {1, 3} ==> Volts(Switched(Value(), step)) != 0)
      modifies this`phases, this`current
      ensures Value() == Adjusted(old(Value()), step, env) && amperes == current
      ensures phases == if step == Keep then old(phases) else nextPhases
      ensures var available :=
                (if powerOffset > 0 then powerOffset else 0) as real + powerMeasured - env.shortTermGridPower;
              && (phases == 1 ==> amperes == Truncate(available / voltages[0] as real))
              && (phases == 3 ==> amperes == Truncate(available / (voltages[0] + voltages[1] + voltages[2]) as real))
              && (phases != 1 && phases != 3 ==> amperes == 0)
    {
      if step != Keep {
        phases := nextPhases;
      }
      var shortTermAvailablePower := Max0(powerOffset) as real + powerMeasured - env.shortTermGridPower;
      match phases {
        case 1 => current := Truncate(shortTermAvailablePower / voltages[0] as real);
        case 3 => current := Truncate(shortTermAvailablePower / (voltages[0] + voltages[1] + voltages[2]) as real);
        case _ => current := 0;
      }
      return current;
    }
  }

  // ---- Properties --------------------------------------------------------------------------

  /** More power never means fewer phases. */
  lemma PhasesMonotone(s: State, p: real, q: real, hysteresis: bool)
    requires |s.voltages| == 3 && p <= q
    ensures ComputePhases(s, p, hysteresis) <= ComputePhases(s, q, hysteresis)
  {
  }

  lemma HysteresisCosts(s: State, p: real)
    requires |s.voltages| == 3 && s.onePhaseHysteresis >= 0 && s.threePhaseHysteresis >= 0
    ensures ComputePhases(s, p, true) <= ComputePhases(s, p, false)
  {
  }

  /** A step up that was asked for raises the phases, a step down lowers them, and they stay 0, 1 or 3. */
  lemma StepsMove(s: State, env: Env)
    requires Sound(s)
    ensures Sound(WantsDown(s, env).1) && Sound(WantsUp(s, env).1)
    ensures WantsDown(s, env).0 ==> Switched(WantsDown(s, env).1, Down).phases < s.phases
    ensures WantsUp(s, env).0 ==> Switched(WantsUp(s, env).1, Up).phases > s.phases
    ensures forall step :: Sound(Switched(s, step))
  {
  }

  /** One sample with frozen inputs, seen by the phases alone: asked for a step and granted it, or not. */
  datatype Turn = AskDown(granted: bool) | AskUp(granted: bool)

  function AfterTurn(s: State, env: Env, t: Turn): State
    requires |s.voltages| == 3
  {
    match t
    case AskDown(granted) =>
      var (wants, s') := WantsDown(s, env);
      if wants && granted then Switched(s', Down) else s'
    case AskUp(granted) =>
      var (wants, s') := WantsUp(s, env);
      if wants && granted then Switched(s', Up) else s'
  }

  /** The number of steps in a run of turns. */
  function StepsTaken(s: State, env: Env, turns: seq<Turn>): nat
    requires |s.voltages| == 3
    decreases |turns|
  {
    if turns == [] then 0
    else
      var s' := AfterTurn(s, env, turns[0]);
      (if s'.phases != s.phases then 1 else 0) + StepsTaken(s', env, turns[1..])
  }

  /** The phases a step up leads to are not more than those a step down would keep. */
  predicate Settles(s: State, env: Env)
    requires |s.voltages| == 3
  {
    MayStepUp(s.status) ==> UpTarget(s, env) <= DownTarget(s, env)
  }

  /** The two targets and the status depend on the frozen inputs only. */
  ghost predicate SameInputs(s: State, r: State) {
    s == r.(phases := s.phases, nextPhases := s.nextPhases)
  }

  lemma TurnKeepsInputs(s: State, env: Env, t: Turn)
    requires |s.voltages| == 3
    ensures SameInputs(AfterTurn(s, env, t), s)
  {
  }

  lemma SameTargets(s: State, r: State, env: Env)
    requires |s.voltages| == |r.voltages| == 3 && SameInputs(s, r)
    ensures DownTarget(s, env) == DownTarget(r, env) && UpTarget(s, env) == UpTarget(r, env)
  {
  }

  lemma {:induction false} AtRest(s: State, env: Env, turns: seq<Turn>)
    requires |s.voltages| == 3 && DownTarget(s, env) >= s.phases
    requires MayStepUp(s.status) ==> UpTarget(s, env) <= s.phases
    ensures StepsTaken(s, env, turns) == 0
    decreases |turns|
  {
    if turns != [] {
      TurnKeepsInputs(s, env, turns[0]);
      AtRest(AfterTurn(s, env, turns[0]), env, turns[1..]);
    }
  }

  lemma {:induction false} AtMostOneStep(s: State, env: Env, turns: seq<Turn>)
    requires |s.voltages| == 3 && Settles(s, env)
    ensures StepsTaken(s, env, turns) <= 1
    decreases |turns|
  {
    if turns != [] {
      var s' := AfterTurn(s, env, turns[0]);
      TurnKeepsInputs(s, env, turns[0]);
      if s'.phases != s.phases {
        AtRest(s', env, turns[1..]);
      } else {
        AtMostOneStep(s', env, turns[1..]);
      }
    }
  }

  /** `n` requests that are granted, up and down in turn, ending with a step down. */
  function Swing(n: nat): seq<Turn> {
    if n == 0 then [] else [if n % 2 == 0 then AskUp(true) else AskDown(true)] + Swing(n - 1)
  }

  lemma TargetsSwing(s: State, env: Env)
    requires |s.voltages| == 3 && !Settles(s, env)
    ensures AfterTurn(s.(phases := DownTarget(s, env)), env, AskUp(true)).phases == UpTarget(s, env)
    ensures AfterTurn(s.(phases := UpTarget(s, env)), env, AskDown(true)).phases == DownTarget(s, env)
  {
    hide ComputePhases;
    var low, high := s.(phases := DownTarget(s, env)), s.(phases := UpTarget(s, env));
    SameTargets(low, s, env);
    SameTargets(high, s, env);
  }

  lemma {:induction false} SwingTakes(s: State, env: Env, r: State, n: nat)
    requires |s.voltages| == |r.voltages| == 3 && !Settles(s, env) && SameInputs(r, s)
    requires r.phases == if n % 2 == 0 then DownTarget(s, env) else UpTarget(s, env)
    ensures StepsTaken(r, env, Swing(n)) == n
    decreases n
  {
    hide DownTarget, UpTarget;
    if n > 0 {
      var turn := if n % 2 == 0 then AskUp(true) else AskDown(true);
      var next := AfterTurn(r, env, turn);
      TargetsSwing(s, env);
      TurnKeepsInputs(r, env, turn);
      SamePhasesSameTurn(r, s.(phases := r.phases), env, turn);
      SwingTakes(s, env, next, n - 1);
      assert Swing(n)[0] == turn && Swing(n)[1..] == Swing(n - 1);
      TargetsDiffer(s, env);
    }
  }

  lemma TargetsDiffer(s: State, env: Env)
    requires |s.voltages| == 3 && !Settles(s, env)
    ensures DownTarget(s, env) < UpTarget(s, env)
  {
  }

  /** The phases after a turn do not depend on the phases proposed before. */
  lemma SamePhasesSameTurn(s: State, r: State, env: Env, t: Turn)
    requires |s.voltages| == |r.voltages| == 3 && SameInputs(s, r) && s.phases == r.phases
    ensures AfterTurn(s, env, t).phases == AfterTurn(r, env, t).phases
  {
    SameTargets(s, r, env);
    hide ComputePhases;
  }

  /**
   * The offset does not stand for "off", or the status forbids a step up, or the power left after the offset of
   * 32768 W reaches neither threshold.
   */
  predicate Calm(s: State, env: Env)
    requires |s.voltages| == 3
  {
    || s.powerOffset != OFFSET_TABLE[0]
    || !MayStepUp(s.status)
    || (var surplus := s.powerMeasured - env.longTermGridPower;
        && surplus <= (32768 + s.onePhaseHysteresis + 6 * s.voltages[0]) as real
        && surplus <= (32768 + s.threePhaseHysteresis + 6 * AllVoltages(s)) as real)
  }

  /**
   * Stability in terms of the inputs: for non-negative hysteresis and with all inputs frozen, the wallbox takes at
   * most one step in every run, from whatever number of phases it starts, if and only if the inputs are calm.
   */
  lemma StableIffCalm(s: State, env: Env)
    requires Sound(s) && s.onePhaseHysteresis >= 0 && s.threePhaseHysteresis >= 0
    ensures Calm(s, env) <==>
              forall phases, turns :: phases in {0, 1, 3} ==> StepsTaken(s.(phases := phases), env, turns) <= 1
  {
    hide StepsTaken, ComputePhases;
    SettlesIffCalm(s, env);
    StableIffSettles(s, env);
  }

  lemma SettlesIffCalm(s: State, env: Env)
    requires |s.voltages| == 3 && s.onePhaseHysteresis >= 0 && s.threePhaseHysteresis >= 0
    ensures Settles(s, env) <==> Calm(s, env)
  {
    if s.powerOffset != OFFSET_TABLE[0] {
      HysteresisSettles(s, env);
    }
  }

  /** Inputs that are not calm make it swing without end: for every n some run takes n steps. */
  lemma OffSwings(s: State, env: Env, n: nat) returns (phases: int, turns: seq<Turn>)
    requires Sound(s) && s.onePhaseHysteresis >= 0 && s.threePhaseHysteresis >= 0 && !Calm(s, env)
    ensures phases in {0, 1, 3} && StepsTaken(s.(phases := phases), env, turns) == n
  {
    SettlesIffCalm(s, env);
    TargetsArePhases(s, env);
    phases, turns := if n % 2 == 0 then DownTarget(s, env) else UpTarget(s, env), Swing(n);
    SwingTakes(s, env, s.(phases := phases), n);
  }

  /** Stability in terms of what is computed, for any hysteresis. */
  lemma StableIffSettles(s: State, env: Env)
    requires Sound(s)
    ensures Settles(s, env) <==>
              forall phases, turns :: phases in {0, 1, 3} ==> StepsTaken(s.(phases := phases), env, turns) <= 1
  {
    hide StepsTaken, ComputePhases;
    if Settles(s, env) {
      forall phases, turns | phases in {0, 1, 3} ensures StepsTaken(s.(phases := phases), env, turns) <= 1 {
        SameTargets(s.(phases := phases), s, env);
        AtMostOneStep(s.(phases := phases), env, turns);
      }
    } else {
      SwingTakes(s, env, s.(phases := DownTarget(s, env)), 2);
      TargetsArePhases(s, env);
    }
  }

  lemma TargetsArePhases(s: State, env: Env)
    requires |s.voltages| == 3
    ensures DownTarget(s, env) in {0, 1, 3} && UpTarget(s, env) in {0, 1, 3}
  {
  }

  /** Non-negative hysteresis and an offset other than "off" are enough. */
  lemma HysteresisSettles(s: State, env: Env)
    requires |s.voltages| == 3 && s.onePhaseHysteresis >= 0 && s.threePhaseHysteresis >= 0
    requires s.powerOffset != OFFSET_TABLE[0]
    ensures Settles(s, env)
  {
    var p := s.powerOffset as real + s.powerMeasured - env.longTermGridPower;
    var q := Max0(s.powerOffset) as real + s.powerMeasured - env.longTermGridPower;
    HysteresisCosts(s, p);
    PhasesMonotone(s, p, q, false);
  }

  lemma FloorScales(q: real, v: int)
    requires v > 0
    ensures (q.Floor * v) as real <= q * v as real < ((q.Floor + 1) * v) as real
  {
    Multiply(q.Floor, q, v);
    MultiplyStrictly(q.Floor + 1, q, v);
  }

  lemma Quotient(x: real, v: real)
    requires v > 0.0
    ensures x / v * v == x && -(x / v) * v == -x
  {
  }

  lemma Negated(n: int, v: int)
    ensures -n * v == -(n * v) && (-n - 1) * v == -((n + 1) * v)
  {
  }

  lemma TruncateScales(x: real, v: int)
    requires v > 0
    ensures var n := Truncate(x / v as real);
            && (x >= 0.0 ==> (n * v) as real <= x < ((n + 1) * v) as real)
            && (x <= 0.0 ==> ((n - 1) * v) as real < x <= (n * v) as real)
  {
    var q := x / v as real;
    Quotient(x, v as real);
    SameSign(x, q, v as real);
    TruncatedPart(x, q, v);
  }

  lemma TruncatedPart(x: real, q: real, v: int)
    requires v > 0 && q * v as real == x && -q * v as real == -x
    requires (x >= 0.0 <==> q >= 0.0) && (x <= 0.0 <==> q <= 0.0)
    ensures var n := Truncate(q);
            && (x >= 0.0 ==> (n * v) as real <= x < ((n + 1) * v) as real)
            && (x <= 0.0 ==> ((n - 1) * v) as real < x <= (n * v) as real)
  {
    if q >= 0.0 {
      FloorScales(q, v);
      if x == 0.0 {
        assert q.Floor == 0;
      }
    } else {
      FloorScales(-q, v);
      Negated((-q).Floor, v);
    }
  }

  lemma SameSign(x: real, q: real, v: real)
    requires v > 0.0 && q * v == x
    ensures (x >= 0.0 <==> q >= 0.0) && (x <= 0.0 <==> q <= 0.0)
  {
  }

  lemma TruncateMonotone(x: real, y: real)
    requires x <= y
    ensures Truncate(x) <= Truncate(y)
  {
  }

  lemma QuotientMonotone(x: real, y: real, v: real)
    requires x <= y && v > 0.0
    ensures x / v <= y / v
  {
  }

  /**
   * The commanded power is what may be drawn cut toward zero, by less than one ampere: the offset if it is positive,
   * plus the measured power, less the short term grid power. Only a step changes the phases, to the last computed
   * ones, and no current flows without phases.
   */
  lemma CommandedPower(s: State, step: Step, env: Env)
    requires Sound(s)
    requires var phases := if step == Keep then s.phases else s.nextPhases;
             && (phases == 1 ==> s.voltages[0] > 0)
             && (phases == 3 ==> s.voltages[0] + s.voltages[1] + s.voltages[2] > 0)
    ensures var r := Adjusted(s, step, env);
            var volts := if r.phases == 1 then s.voltages[0] else s.voltages[0] + s.voltages[1] + s.voltages[2];
            var drawn := r.current * volts;
            var available :=
              (if s.powerOffset > 0 then s.powerOffset else 0) as real + s.powerMeasured - env.shortTermGridPower;
            && r == s.(phases := if step == Keep then s.phases else s.nextPhases, current := r.current)
            && (r.phases == 0 ==> r.current == 0)
            && (r.phases > 0 && available >= 0.0 ==> drawn as real <= available < (drawn + volts) as real)
            && (r.phases > 0 && available <= 0.0 ==> (drawn - volts) as real < available <= drawn as real)
  {
    var r := Adjusted(s, step, env);
    if r.phases in {1, 3} {
      TruncateScales(ShortTermPower(s, env), Volts(r));
      assert (r.current + 1) * Volts(r) == r.current * Volts(r) + Volts(r);
      assert (r.current - 1) * Volts(r) == r.current * Volts(r) - Volts(r);
    }
  }

  /** Drawing more from the grid never raises the current. */
  lemma ImportNeverRaises(s: State, step: Step, less: Env, more: Env)
    requires Sound(s) && less.shortTermGridPower <= more.shortTermGridPower
    requires Switched(s, step).phases in {1, 3} ==> Volts(Switched(s, step)) > 0
    ensures Adjusted(s, step, more).current <= Adjusted(s, step, less).current
  {
    var r := Switched(s, step);
    if r.phases in {1, 3} {
      var low, high, v := ShortTermPower(s, more), ShortTermPower(s, less), Volts(r) as real;
      QuotientMonotone(low, high, v);
      TruncateMonotone(low / v, high / v);
    }
  }

  /**
   * What a charger asks for. For a step down it compares the available power with 6 A on one and on three phases
   * without hysteresis, and the first offset always leads to 0 phases; for a step up, only while it waits or charges,
   * with hysteresis, and there a negative offset counts as well.
   */
  lemma AsksDownIff(s: State, env: Env)
    requires Sound(s)
    ensures var one, three := s.voltages[0], s.voltages[0] + s.voltages[1] + s.voltages[2];
            var available :=
              (if s.powerOffset > 0 then s.powerOffset else 0) as real + s.powerMeasured - env.longTermGridPower;
            var r := WantsDown(s, env);
            && (r.0 <==>
                  || (s.phases > 0 && s.powerOffset == -32768)
                  || (s.phases == 3 && available <= (6 * three) as real)
                  || (s.phases == 1 && available <= (6 * three) as real && available <= (6 * one) as real))
            && r.1 == s.(nextPhases := r.1.nextPhases) && r.1.nextPhases in {0, 1, 3}
            && (r.1.nextPhases == 3 <==> s.powerOffset != -32768 && available > (6 * three) as real)
            && (r.1.nextPhases == 0 <==>
                  s.powerOffset == -32768 || (available <= (6 * three) as real && available <= (6 * one) as real))
  {
  }

  lemma AsksUpIff(s: State, env: Env)
    requires Sound(s)
    ensures var one := 6 * s.voltages[0] + s.onePhaseHysteresis;
            var three := 6 * (s.voltages[0] + s.voltages[1] + s.voltages[2]) + s.threePhaseHysteresis;
            var available := s.powerOffset as real + s.powerMeasured - env.longTermGridPower;
            var ready := s.status == waiting || s.status == charging;
            var r := WantsUp(s, env);
            && (r.0 <==>
                  && ready
                  && ((s.phases < 3 && available > three as real) || (s.phases == 0 && available > one as real)))
            && r.1 == s.(nextPhases := r.1.nextPhases) && (!ready ==> r.1 == s)
            && (ready ==>
                  && r.1.nextPhases in {0, 1, 3}
                  && (r.1.nextPhases == 3 <==> available > three as real)
                  && (r.1.nextPhases == 0 <==> available <= three as real && available <= one as real))
  {
  }
}
