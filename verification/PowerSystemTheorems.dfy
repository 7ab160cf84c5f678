/** Energy, phase limit and clock of the relays while the power manager runs them. */
module PowerSystemTheorems {
  import opened Words
  import opened ModArith
  import opened PowerManager
  import opened PowerManagerTheorems
  import opened MultiPhase
  import opened MultiPhaseTheorems
  import opened MultiPhaseEnergy
  import opened PowerSystem
  import opened Spacing

  /** A newly built relay strategy meets the invariants. */
  lemma FreshIsGood(id: nat, config: Config)
    requires |config.thresholds| == |config.hystereses| > 0
    ensures Good(Relay(id, Fresh(config)))
  {
    TurnOfZero(|config.thresholds|);
  }

  // ---- Energy ------------------------------------------------------------------------------

  /** What the energy must be at `to`, from what it was at `from`. */
  function Owed(s: State, from: int, to: int): int
    requires Sound(s)
  {
    Energy(s, from) + Power(s) * (to - from) - if DayOf(to) == s.currentDay then 0 else s.deliveredEnergy
  }

  lemma AskedOwes(t: Traced, id: nat, e: SiteEnv, from: int, to: int)
    requires Sound(t.s)
    ensures var s' := UpOf(Relay(id, t), e).1.t.s;
            Sound(s') && s'.currentStates == t.s.currentStates && s'.nextStepUpPhase == t.s.nextStepUpPhase
            && s'.nextStepDownPhase == t.s.nextStepDownPhase && Owed(s', from, to) == Owed(t.s, from, to)
  {
    AskingKeepsEnergy(t.s, RelayEnv(id, e), [], 0, from, |t.s.currentStates|);
  }

  /** One guarded `adjust` pays exactly what is owed. */
  lemma AdjustPays(t: Traced, id: nat, step: Step, e: SiteEnv, from: int)
    requires Sound(t.s)
    requires step == Down ==> t.s.currentStates[t.s.nextStepDownPhase]
    requires step == Up ==> !t.s.currentStates[t.s.nextStepUpPhase]
    ensures var r := AdjustOf(Relay(id, t), step, e);
            r.Relay? && Sound(r.t.s) && Energy(r.t.s, e.ts) == Owed(t.s, from, e.ts)
  {
    EnergyConserved(t.s, from, step, e.ts);
  }

  /**
   * Conservation in the running system: over one sample the energy of every relay grows by its power before
   * the sample times the elapsed seconds, whoever steps; only a change of day drops the delivered energy.
   */
  lemma SampleConservesEnergy(last: int, states: seq<Strategy>, ts: int, e: SiteEnv, j: nat, from: int)
    requires j < |states| && states[j].Relay? && Sound(states[j].t.s)
    requires ts >= last + STEP_DOWN_DEBOUNCE_SECONDS ==> Trusted(states[j], e)
    ensures var r := Tick(STRATEGIES, last, states, ts, e).states[j];
            r.Relay? && Sound(r.t.s) && Energy(r.t.s, e.ts) == Owed(states[j].t.s, from, e.ts)
  {
    hide Tick, Energy, Owed, Trusted;
    var d := TickMeaning(STRATEGIES, last, states, ts, e);
    RelayPays(states[j], e, d, j, from);
  }

  lemma RelayPays(s: Strategy, e: SiteEnv, d: Decision, j: nat, from: int)
    requires s.Relay? && Sound(s.t.s)
    requires d == StepDown(j) ==> PowerManagerTheorems.WantsDown(STRATEGIES, s, e) && Trusted(s, e)
    requires d == StepUp(j) ==> PowerManagerTheorems.WantsUp(STRATEGIES, s, e) && Trusted(s, e)
    ensures var r := FinalState(STRATEGIES, s, e, d, j);
            r.Relay? && Sound(r.t.s) && Energy(r.t.s, e.ts) == Owed(s.t.s, from, e.ts)
  {
    hide Energy, Owed;
    var t, id := s.t, s.id;
    var asked := UpOf(s, e).1.t;
    AskedOwes(t, id, e, from, e.ts);
    AdjustPays(t, id, Keep, e, from);
    AdjustPays(asked, id, Keep, e, from);
    if d == StepDown(j) {
      AdjustPays(t, id, Down, e, from);
    }
    if d == StepUp(j) {
      AdjustPays(asked, id, Up, e, from);
    }
  }

  /** When the energy of relay `j` was last brought up to date: its last sample, or `from` before the first. */
  function LastSample(events: seq<Event<SiteEnv, Message>>, from: int): int {
    if events == [] then from
    else
      match events[|events| - 1]
      case Sample(_, e) => e.ts
      case News(_, _) => LastSample(events[..|events| - 1], from)
  }

  /** Strategy `j` after a run, if it is a relay. */
  function RelayAfter(start: Run<Strategy>, events: seq<Event<SiteEnv, Message>>, j: nat): Option<State> {
    var r := RunAll(STRATEGIES, Hear, start, events);
    if j < |r.states| && r.states[j].Relay? && Sound(r.states[j].t.s) then Some(r.states[j].t.s) else None
  }

  /** Power times elapsed seconds, summed over the samples of a run. */
  function PowerTime(start: Run<Strategy>, events: seq<Event<SiteEnv, Message>>, j: nat, from: int): int {
    if events == [] then 0
    else
      var earlier := events[..|events| - 1];
      var s := RelayAfter(start, earlier, j);
      PowerTime(start, earlier, j, from) +
        match events[|events| - 1]
        case Sample(_, e) => if s.Some? then Power(s.value) * (e.ts - LastSample(earlier, from)) else 0
        case News(_, _) => 0
  }

  /** Delivered energy that the changes of day of a run drop. */
  function DroppedEnergy(start: Run<Strategy>, events: seq<Event<SiteEnv, Message>>, j: nat): int {
    if events == [] then 0
    else
      var earlier := events[..|events| - 1];
      var s := RelayAfter(start, earlier, j);
      DroppedEnergy(start, earlier, j) +
        match events[|events| - 1]
        case Sample(_, e) => if s.Some? && DayOf(e.ts) != s.value.currentDay then s.value.deliveredEnergy else 0
        case News(_, _) => 0
  }

  lemma NewsKeepsEnergy(s: Strategy, m: Message, ts: int)
    requires s.Relay? && Sound(s.t.s)
    ensures var r := Hear(s, m); r.Relay? && Sound(r.t.s) && Energy(r.t.s, ts) == Energy(s.t.s, ts)
  {
    if m.DigitalInput? {
      AskingKeepsEnergy(s.t.s, Env([], [], 0.0, 0), m.values, m.now, ts, |s.t.s.currentStates|);
    }
  }

  /**
   * Conservation over every run: the energy of a relay is what it was, plus the sum of power times time over all
   * samples, less what the changes of day dropped, whatever steps are taken and whatever news comes in between.
   */
  lemma {:induction false} RunConservesEnergy(
    start: Run<Strategy>, events: seq<Event<SiteEnv, Message>>, j: nat, from: int)
    requires TrustedAlong(start, events)
    requires j < |start.states| && start.states[j].Relay? && Sound(start.states[j].t.s)
    ensures var s := RelayAfter(start, events, j);
            && s.Some? && |RunAll(STRATEGIES, Hear, start, events).states| == |start.states|
            && Energy(s.value, LastSample(events, from))
               == Energy(start.states[j].t.s, from) + PowerTime(start, events, j, from)
                  - DroppedEnergy(start, events, j)
  {
    hide Energy, Power, Hear, Tick, Trusted;
    if events != [] {
      var n := |events| - 1;
      var r := RunAll(STRATEGIES, Hear, start, events[..n]);
      RunConservesEnergy(start, events[..n], j, from);
      match events[n] {
        case Sample(ts, e) =>
          SampleConservesEnergy(r.lastStepTs, r.states, ts, e, j, LastSample(events[..n], from));
        case News(who, m) =>
          if who == j {
            NewsKeepsEnergy(r.states[j], m, LastSample(events[..n], from));
          }
      }
    }
  }

  lemma UpInLog(n: nat, d: Decision, j: nat)
    requires Adjust(j, Up) in LogOf(n, d)
    ensures d == StepUp(j)
  {
    var log := LogOf(n, d);
    assert forall k :: 0 < k < |log| ==> log[k].step == Keep;
    var k :| 0 <= k < |log| && log[k] == Adjust(j, Up);
  }

  lemma SteppedUpWithinLimit(s: Strategy, e: SiteEnv, j: nat)
    requires s.Relay? && Sound(s.t.s) && PowerManagerTheorems.WantsUp(STRATEGIES, s, e)
    requires OfThing(e.reported, s.id) == s.t.s.currentStates
    ensures var r := FinalState(STRATEGIES, s, e, StepUp(j), j);
            r.Relay? && Count(r.t.s.currentStates) <= r.t.s.phaseLimit
  {
    UpStaysWithinLimit(s.t.s, RelayEnv(s.id, e), e.ts);
  }

  /** After a sample in which a relay that reports truly stepped up, at most `_phaseLimit` of its phases are on. */
  lemma StepUpStaysWithinLimit(last: int, states: seq<Strategy>, ts: int, e: SiteEnv, j: nat)
    requires j < |states| && states[j].Relay? && Sound(states[j].t.s)
    requires Adjust(j, Up) in Tick(STRATEGIES, last, states, ts, e).log
    requires OfThing(e.reported, states[j].id) == states[j].t.s.currentStates
    ensures var r := Tick(STRATEGIES, last, states, ts, e).states[j];
            r.Relay? && Count(r.t.s.currentStates) <= r.t.s.phaseLimit
  {
    hide Tick, LogOf, FinalState;
    var d := TickMeaning(STRATEGIES, last, states, ts, e);
    UpInLog(|states|, d, j);
    SteppedUpWithinLimit(states[j], e, j);
  }

  // ---- The clock ---------------------------------------------------------------------------

  /** The changes of the limit are in order of time and none is later than `clock`. */
  ghost predicate Dated(s: Strategy, clock: int) {
    s.Relay? ==> Chronological(s.t.changes) && forall k :: 0 <= k < |s.t.changes| ==> s.t.changes[k].time <= clock
  }

  lemma CallsKeepDates(s: Strategy, e: SiteEnv)
    requires Dated(s, e.now)
    ensures Dated(DownOf(s, e).1, e.now) && Dated(UpOf(s, e).1, e.now)
    ensures forall step :: Dated(AdjustOf(s, step, e), e.now)
  {
  }

  lemma SampleKeepsDates(s: Strategy, e: SiteEnv, d: Decision, j: nat)
    requires Dated(s, e.now)
    ensures Dated(FinalState(STRATEGIES, s, e, d, j), e.now)
  {
    hide Dated;
    CallsKeepDates(s, e);
    CallsKeepDates(DownOf(s, e).1, e);
    CallsKeepDates(UpOf(s, e).1, e);
    CallsKeepDates(UpOf(DownOf(s, e).1, e).1, e);
  }

  /** The clock when an event is handled; events without one leave it where it was. */
  function ClockAt(ev: Event<SiteEnv, Message>, before: int): int {
    match ev
    case Sample(_, e) => e.now
    case News(_, m) => if m.DigitalInput? then m.now else before
  }

  function Clock(events: seq<Event<SiteEnv, Message>>, start: int): int {
    if events == [] then start else ClockAt(events[|events| - 1], Clock(events[..|events| - 1], start))
  }

  ghost predicate ClockRuns(events: seq<Event<SiteEnv, Message>>, start: int) {
    events != [] ==>
      var earlier := events[..|events| - 1];
      ClockRuns(earlier, start) && Clock(earlier, start) <= Clock(events, start)
  }

  lemma EventKeepsDates(r: Run<Strategy>, ev: Event<SiteEnv, Message>, before: int)
    requires before <= ClockAt(ev, before) && forall j :: 0 <= j < |r.states| ==> Dated(r.states[j], before)
    ensures var r' := Next(STRATEGIES, Hear, r, ev);
            |r'.states| == |r.states| && forall j :: 0 <= j < |r'.states| ==> Dated(r'.states[j], ClockAt(ev, before))
  {
    match ev {
      case Sample(ts, e) =>
        var d := TickMeaning(STRATEGIES, r.lastStepTs, r.states, ts, e);
        forall j | 0 <= j < |r.states| ensures Dated(Next(STRATEGIES, Hear, r, ev).states[j], e.now) {
          SampleKeepsDates(r.states[j], e, d, j);
        }
      case News(_, _) =>
    }
  }

  lemma {:induction false} RunKeepsDates(start: Run<Strategy>, events: seq<Event<SiteEnv, Message>>, clock: int)
    requires ClockRuns(events, clock) && forall j :: 0 <= j < |start.states| ==> Dated(start.states[j], clock)
    ensures var r := RunAll(STRATEGIES, Hear, start, events);
            |r.states| == |start.states| && forall j :: 0 <= j < |r.states| ==> Dated(r.states[j], Clock(events, clock))
  {
    hide Dated, Tick;
    if events != [] {
      var n := |events| - 1;
      RunKeepsDates(start, events[..n], clock);
      EventKeepsDates(RunAll(STRATEGIES, Hear, start, events[..n]), events[n], Clock(events[..n], clock));
    }
  }

  /**
   * In every run of the system whose clock does not run backwards, the phase limit of a relay is raised at most
   * (to - from) / duration + 1 times in any window of time.
   */
  lemma LimitRaisesInWindow(
    start: Run<Strategy>, events: seq<Event<SiteEnv, Message>>, clock: int, j: nat, from: int, to: int)
    requires TrustedAlong(start, events) && ClockRuns(events, clock) && from <= to && j < |start.states|
    requires forall i :: 0 <= i < |start.states| ==> Good(start.states[i]) && Dated(start.states[i], clock)
    ensures j < |RunAll(STRATEGIES, Hear, start, events).states|
    ensures var s := RunAll(STRATEGIES, Hear, start, events).states[j];
            s.Relay? && s.t.s.config.limitDuration > 0 ==>
              CountIn(Increases(s.t.changes), from, to) <= (to - from) / s.t.s.config.limitDuration + 1
  {
    SystemRun(start, events);
    RunKeepsDates(start, events, clock);
    var s := RunAll(STRATEGIES, Hear, start, events).states[j];
    if s.Relay? && s.t.s.config.limitDuration > 0 {
      IncreasesInWindow(s.t, from, to);
    }
  }
}
