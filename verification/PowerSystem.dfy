/** The power manager with any mix of its three strategies: what every run of the whole system keeps. */
module PowerSystem {
  import opened PowerManager
  import opened PowerManagerTheorems
  import MultiPhase
  import opened MultiPhaseTheorems
  import MultiPhaseEnergy
  import Wallbox
  import Rule

  /** A strategy and the thing it belongs to. */
  datatype Strategy =
    | Relay(id: nat, t: Traced)
    | Charger(id: nat, w: Wallbox.State)
    | Switch(id: nat, r: Rule.State)

  /** One sample of the site, the clock, the relays' inputs and reported states and the truth of the rules, by thing. */
  datatype SiteEnv = SiteEnv(
    ts: int, now: int, longTermGridPower: real, shortTermGridPower: real,
    inputs: map<nat, seq<bool>>, reported: map<nat, seq<bool>>, on: set<nat>, off: set<nat>)

  function OfThing(m: map<nat, seq<bool>>, id: nat): seq<bool> {
    if id in m then m[id] else []
  }

  function RelayEnv(id: nat, e: SiteEnv): MultiPhase.Env {
    MultiPhase.Env(OfThing(e.inputs, id), OfThing(e.reported, id), e.longTermGridPower, e.now)
  }

  function ChargerEnv(e: SiteEnv): Wallbox.Env {
    Wallbox.Env(e.longTermGridPower, e.shortTermGridPower)
  }

  function DownOf(s: Strategy, e: SiteEnv): (bool, Strategy) {
    match s
    case Relay(id, t) => (MultiPhase.Sound(t.s) && MultiPhase.WantsDown(t.s, RelayEnv(id, e)), s)
    case Charger(id, w) =>
      if !Wallbox.Sound(w) then (false, s)
      else var (wants, w') := Wallbox.WantsDown(w, ChargerEnv(e)); (wants, Charger(id, w'))
    case Switch(id, r) =>
      var (wants, r') := Rule.WantsDown(r, Rule.Env(id in e.on, id in e.off));
      (wants, Switch(id, r'))
  }

  function UpOf(s: Strategy, e: SiteEnv): (bool, Strategy) {
    match s
    case Relay(id, t) =>
      if !MultiPhase.Sound(t.s) then (false, s)
      else
        var (wants, s') := MultiPhase.WantsUp(t.s, RelayEnv(id, e));
        (wants, Relay(id, WithLimit(t, s', e.now)))
    case Charger(id, w) =>
      if !Wallbox.Sound(w) then (false, s)
      else var (wants, w') := Wallbox.WantsUp(w, ChargerEnv(e)); (wants, Charger(id, w'))
    case Switch(id, r) =>
      var (wants, r') := Rule.WantsUp(r, Rule.Env(id in e.on, id in e.off));
      (wants, Switch(id, r'))
  }

  function AdjustOf(s: Strategy, step: Step, e: SiteEnv): Strategy {
    match s
    case Relay(id, t) => if MultiPhase.Sound(t.s) then Relay(id, TakeStep(t, step, e.ts)) else s
    case Charger(id, w) =>
      if Wallbox.Sound(w) && Wallbox.Volts(Wallbox.Switched(w, step)) != 0
      then Charger(id, Wallbox.Adjusted(w, step, ChargerEnv(e)))
      else Charger(id, Wallbox.Switched(w, step))
    case Switch(id, r) => Switch(id, Rule.Adjusted(r, step))
  }

  const STRATEGIES: Behaviour<Strategy, SiteEnv> := Behaviour(DownOf, UpOf, AdjustOf)

  /** News from the thing behind a strategy. */
  datatype Message =
    | DigitalInput(values: seq<bool>, now: int)
    | ChargerNews(p: Wallbox.Properties)

  function Hear(s: Strategy, m: Message): Strategy {
    match (s, m)
    case (Relay(id, t), DigitalInput(values, now)) =>
      Relay(id, WithLimit(t, MultiPhase.OnInputs(t.s, values, now), now))
    case (Charger(id, w), ChargerNews(p)) => if Wallbox.WellTyped(p) then Charger(id, Wallbox.Informed(w, p)) else s
    case (_, _) => s
  }

  /** Circular order and phase limit of every relay, and 0, 1 or 3 phases of every charger. */
  ghost predicate Good(s: Strategy) {
    match s
    case Relay(_, t) => Circular(t) && Limited(t)
    case Charger(_, w) => Wallbox.Sound(w)
    case Switch(_, _) => true
  }

  lemma CircularIgnores(t: Traced, r: Traced)
    requires Circular(t) && MultiPhase.Sound(r.s) && r.on == t.on && r.off == t.off
    requires r.s.config == t.s.config && r.s.currentStates == t.s.currentStates
    requires r.s.nextStepUpPhase == t.s.nextStepUpPhase && r.s.nextStepDownPhase == t.s.nextStepDownPhase
    ensures Circular(r)
  {
  }

  lemma LimitedIgnores(t: Traced, r: Traced)
    requires Limited(t) && MultiPhase.Sound(r.s) && r.changes == t.changes && r.s.config == t.s.config
    requires r.s.phaseLimit == t.s.phaseLimit && r.s.phaseLimitTimepoint == t.s.phaseLimitTimepoint
    ensures Limited(r)
  {
  }

  lemma RelayUpAskedGood(id: nat, t: Traced, e: SiteEnv)
    requires Circular(t) && Limited(t)
    ensures Good(UpOf(Relay(id, t), e).1)
  {
    hide Circular, Limited;
    SoundOf(t);
    var s' := MultiPhase.WantsUp(t.s, RelayEnv(id, e)).1;
    var r := WithLimit(t, s', e.now);
    CircularIgnores(t, r);
    if s' == t.s {
      LimitedIgnores(t, r);
    } else {
      LimitChangeKept(t, MultiPhase.Incremented(t.s, e.now), e.now);
    }
  }

  lemma SoundOf(t: Traced)
    requires Circular(t) || Limited(t)
    ensures MultiPhase.Sound(t.s)
  {
  }

  lemma RelayHearsGood(id: nat, t: Traced, m: Message)
    requires Circular(t) && Limited(t)
    ensures Good(Hear(Relay(id, t), m))
  {
    if m.DigitalInput? {
      hide Circular, Limited;
      SoundOf(t);
      var s' := MultiPhase.OnInputs(t.s, m.values, m.now);
      var r := WithLimit(t, s', m.now);
      CircularIgnores(t, r);
      if s' == t.s.(isInputActive := s'.isInputActive) {
        LimitedIgnores(t, r);
      } else {
        var d := WithLimit(t, MultiPhase.Decremented(t.s, m.now), m.now);
        LimitChangeKept(t, MultiPhase.Decremented(t.s, m.now), m.now);
        LimitedIgnores(d, r);
      }
    }
  }

  lemma RelayStepGood(id: nat, t: Traced, step: Step, e: SiteEnv)
    requires Circular(t) && Limited(t)
    requires step == Down ==> t.s.currentStates[t.s.nextStepDownPhase]
    requires step == Up ==> !t.s.currentStates[t.s.nextStepUpPhase]
    ensures Good(AdjustOf(Relay(id, t), step, e))
  {
    StepKeepsCircularIff(t, e.ts);
    LimitedIgnores(t, TakeStep(t, step, e.ts));
  }

  /**
   * The report can be relied on where the guards look: a phase reported on at the down pointer is commanded on,
   * and a phase commanded on at the up pointer is reported on.
   */
  predicate Trusted(s: Strategy, e: SiteEnv) {
    s.Relay? && MultiPhase.Sound(s.t.s) ==>
      var m, reported := s.t.s, OfThing(e.reported, s.id);
      |reported| == |m.config.thresholds| ==>
        && (reported[m.nextStepDownPhase] ==> m.currentStates[m.nextStepDownPhase])
        && (m.currentStates[m.nextStepUpPhase] ==> reported[m.nextStepUpPhase])
  }

  lemma RelayCallsGood(id: nat, t: Traced, e: SiteEnv)
    requires Circular(t) && Limited(t)
    ensures var s := Relay(id, t);
            && Good(DownOf(s, e).1) && Good(UpOf(s, e).1) && Good(AdjustOf(s, Keep, e))
            && (Trusted(s, e) ==> StepsSafely(STRATEGIES, s => Good(s), s, e))
  {
    hide Circular, Limited;
    var s := Relay(id, t);
    SoundOf(t);
    RelayUpAskedGood(id, t, e);
    RelayStepGood(id, t, Keep, e);
    if Trusted(s, e) {
      if DownOf(s, e).0 {
        RelayStepGood(id, t, Down, e);
      }
      if UpOf(s, e).0 {
        RelayStepGood(id, UpOf(s, e).1.t, Up, e);
      }
    }
  }

  lemma ChargerCallsGood(id: nat, w: Wallbox.State, e: SiteEnv)
    requires Wallbox.Sound(w)
    ensures var s := Charger(id, w);
            && Good(DownOf(s, e).1) && Good(UpOf(s, e).1) && Good(AdjustOf(s, Keep, e))
            && StepsSafely(STRATEGIES, s => Good(s), s, e)
  {
    var down := Wallbox.WantsDown(w, ChargerEnv(e)).1;
    var up, both := Wallbox.WantsUp(w, ChargerEnv(e)).1, Wallbox.WantsUp(down, ChargerEnv(e)).1;
    Wallbox.StepsMove(w, ChargerEnv(e));
    Wallbox.StepsMove(down, ChargerEnv(e));
    hide Wallbox.WantsDown, Wallbox.WantsUp, Wallbox.Sound;
    ChargerStepGood(id, w, e);
    ChargerStepGood(id, down, e);
    ChargerStepGood(id, both, e);
  }

  lemma ChargerStepGood(id: nat, w: Wallbox.State, e: SiteEnv)
    requires Wallbox.Sound(w)
    ensures forall step :: Good(AdjustOf(Charger(id, w), step, e))
  {
    Wallbox.StepsMove(w, ChargerEnv(e));
  }

  lemma CallsKeepGood(s: Strategy, e: SiteEnv)
    requires Good(s)
    ensures Good(DownOf(s, e).1) && Good(UpOf(s, e).1) && Good(AdjustOf(s, Keep, e))
    ensures Trusted(s, e) ==> StepsSafely(STRATEGIES, s => Good(s), s, e)
  {
    match s {
      case Relay(id, t) =>
        hide DownOf, UpOf, AdjustOf;
        RelayCallsGood(id, t, e);
      case Charger(id, w) =>
        hide DownOf, UpOf, AdjustOf;
        ChargerCallsGood(id, w, e);
      case Switch(_, _) =>
    }
  }

  /** Being asked, being told to keep, and news keep the invariants; steps do where the report can be relied on. */
  lemma GoodIsGuarded()
    ensures Guarded(STRATEGIES, s => Good(s))
    ensures forall s, m :: Good(s) ==> Good(Hear(s, m))
    ensures forall s, e :: Good(s) && Trusted(s, e) ==> StepsSafely(STRATEGIES, s => Good(s), s, e)
  {
    hide DownOf, UpOf, AdjustOf, Good, StepsSafely, Trusted;
    forall s, e | Good(s)
      ensures Good(DownOf(s, e).1) && Good(UpOf(s, e).1) && Good(AdjustOf(s, Keep, e))
      ensures Trusted(s, e) ==> StepsSafely(STRATEGIES, s => Good(s), s, e)
    {
      CallsKeepGood(s, e);
    }
    forall s, m | Good(s) ensures Good(Hear(s, m)) {
      HearsGood(s, m);
    }
  }

  lemma HearsGood(s: Strategy, m: Message)
    requires Good(s)
    ensures Good(Hear(s, m))
  {
    if s.Relay? {
      RelayHearsGood(s.id, s.t, m);
    }
  }

  /** Along the run, at every sample past the shorter debounce time, every report can be relied on. */
  ghost predicate TrustedAlong(start: Run<Strategy>, events: seq<Event<SiteEnv, Message>>) {
    events != [] ==>
      var earlier, ev := events[..|events| - 1], events[|events| - 1];
      var r := RunAll(STRATEGIES, Hear, start, earlier);
      && TrustedAlong(start, earlier)
      && (ev.Sample? && ev.ts >= r.lastStepTs + STEP_DOWN_DEBOUNCE_SECONDS ==>
            forall j :: 0 <= j < |r.states| ==> Trusted(r.states[j], ev.e))
  }

  /**
   * In every run of the whole system, with arbitrary samples, clocks, measurements, rules and reports that can be
   * relied on when a step is due, every relay keeps its circular order and its phase limit and every charger its
   * number of phases.
   */
  lemma {:induction false} SystemRun(start: Run<Strategy>, events: seq<Event<SiteEnv, Message>>)
    requires TrustedAlong(start, events)
    requires forall j :: 0 <= j < |start.states| ==> Good(start.states[j])
    ensures var r := RunAll(STRATEGIES, Hear, start, events);
            |r.states| == |start.states| && forall j :: 0 <= j < |r.states| ==> Good(r.states[j])
    ensures SafeAlong(STRATEGIES, Hear, s => Good(s), start, events)
  {
    hide Trusted, Good, Tick;
    if events != [] {
      SystemRun(start, events[..|events| - 1]);
    }
    GoodIsGuarded();
    RunKeeps(STRATEGIES, Hear, s => Good(s), start, events);
  }
}
