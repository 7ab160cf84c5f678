/** When each strategy asks for a step and what its calls do, in terms of what it reads, and what it means for runs. */
module StrategyLaws {
  import opened Words
  import opened PowerManager
  import opened PowerManagerTheorems
  import opened MultiPhase
  import opened MultiPhaseTheorems
  import opened PowerSystem
  import opened PowerSystemTheorems
  import Wallbox
  import Rule

  // ---- Relays ------------------------------------------------------------------------------

  /** The phases that are on. */
  ghost function On(states: seq<bool>): set<nat> {
    set i: nat | i < |states| && states[i]
  }

  lemma OnSnoc(states: seq<bool>)
    requires states != []
    ensures var n := |states| - 1;
            n !in On(states[..n]) && On(states) == if states[n] then On(states[..n]) + {n} else On(states[..n])
  {
  }

  lemma {:induction false} CountIsNumber(states: seq<bool>)
    ensures Count(states) == |On(states)|
  {
    if states == [] {
      assert On(states) == {};
    } else {
      hide On;
      OnSnoc(states);
      CountIsNumber(states[..|states| - 1]);
    }
  }

  /** Inputs and reports of relay `id` are there and fit its `n` phases. */
  predicate Read(id: nat, n: nat, e: SiteEnv) {
    id in e.inputs && id in e.reported && |e.inputs[id]| == n && |e.reported[id]| == n
  }

  /** Asked down: the next phase is reported on, and the inputs are lost or the site imports. */
  lemma RelayAsksDownIff(id: nat, t: Traced, e: SiteEnv)
    requires Sound(t.s)
    ensures DownOf(Relay(id, t), e).1 == Relay(id, t)
    ensures DownOf(Relay(id, t), e).0 <==>
              && Read(id, |t.s.config.thresholds|, e)
              && e.reported[id][t.s.nextStepDownPhase]
              && (!t.s.isInputActive || e.longTermGridPower > 0.0)
  {
  }

  /** The limit goes up by one when it is below the number of phases and the duration since its last change is over. */
  predicate LimitDue(s: State, now: int) {
    s.phaseLimit < |s.config.thresholds| && now >= s.phaseLimitTimepoint + s.config.limitDuration
  }

  /**
   * Asked up: the next phase is reported off and its input is on, the phases reported on are fewer than the limit,
   * which may first go up by one, and the site exports more than the phase needs plus its hysteresis.
   */
  lemma RelayAsksUpIff(id: nat, t: Traced, e: SiteEnv)
    requires Sound(t.s)
    ensures var n, next := |t.s.config.thresholds|, t.s.nextStepUpPhase;
            var asked := Read(id, n, e) && !e.reported[id][next] && e.inputs[id][next];
            var raised := asked && LimitDue(t.s, e.now);
            var limit := if raised then t.s.phaseLimit + 1 else t.s.phaseLimit;
            && (UpOf(Relay(id, t), e).0 <==>
                  && asked && |On(e.reported[id])| < limit
                  && -e.longTermGridPower > (t.s.config.thresholds[next] + t.s.config.hystereses[next]) as real)
            && UpOf(Relay(id, t), e).1
               == Relay(id, t.(s := t.s.(phaseLimit := limit,
                                         phaseLimitTimepoint := if raised then e.now else t.s.phaseLimitTimepoint),
                               changes := t.changes + if raised then [LimitChange(e.now, true)] else []))
  {
    if Read(id, |t.s.config.thresholds|, e) {
      CountIsNumber(e.reported[id]);
    }
  }

  /** News from the inputs: the falling edge lowers a limit above 0 by one; nothing else does. */
  lemma RelayHears(id: nat, t: Traced, values: seq<bool>, now: int)
    requires Sound(t.s)
    ensures var r, all := Hear(Relay(id, t), DigitalInput(values, now)), forall i :: 0 <= i < |values| ==> values[i];
            var lowered := t.s.isInputActive && !all && t.s.phaseLimit > 0;
            r == Relay(id, t.(
              s := t.s.(isInputActive := all,
                        phaseLimit := if lowered then t.s.phaseLimit - 1 else t.s.phaseLimit,
                        phaseLimitTimepoint := if lowered then now else t.s.phaseLimitTimepoint),
              changes := t.changes + if lowered then [LimitChange(now, false)] else []))
  {
  }

  lemma CalendarDay(ts: int)
    ensures var d := DayOf(ts);
            && (ts >= 0 ==> 86400 * d <= ts < 86400 * (d + 1))
            && (ts <= 0 ==> 86400 * (d - 1) < ts <= 86400 * d)
  {
  }

  lemma NextInCircle(i: nat, n: nat)
    requires i < n
    ensures (i + 1) % n == if i + 1 == n then 0 else i + 1
  {
  }

  lemma StepFrame(s: State, step: Step, ts: int)
    requires Sound(s)
    ensures var r := MultiPhase.Adjusted(s, step, ts);
            r == s.(currentStates := r.currentStates, timestamps := r.timestamps, deliveredEnergy := r.deliveredEnergy,
                    nextStepUpPhase := r.nextStepUpPhase, nextStepDownPhase := r.nextStepDownPhase,
                    currentDay := DayOf(ts))
  {
    hide DayOf;
  }

  /** A step and the pointers: the one it uses moves on by one in the circle, and every call notes the day. */
  lemma RelayAdjusts(id: nat, t: Traced, step: Step, e: SiteEnv)
    requires Sound(t.s)
    ensures var r, n := AdjustOf(Relay(id, t), step, e), |t.s.config.thresholds|;
            var up, down := t.s.nextStepUpPhase, t.s.nextStepDownPhase;
            && r.Relay? && r.id == id && Sound(r.t.s) && r.t.changes == t.changes
            && r.t.on == t.on + (if step == Up then [up] else [])
            && r.t.off == t.off + (if step == Down then [down] else [])
            && r.t.s == t.s.(currentStates := r.t.s.currentStates, timestamps := r.t.s.timestamps,
                             nextStepUpPhase := if step != Up then up else if up + 1 == n then 0 else up + 1,
                             nextStepDownPhase := if step != Down then down else if down + 1 == n then 0 else down + 1,
                             deliveredEnergy := r.t.s.deliveredEnergy, currentDay := DayOf(e.ts))
  {
    hide MultiPhase.Adjusted;
    StepFrame(t.s, step, e.ts);
    StepEffect(t.s, step, e.ts);
    NextInCircle(t.s.nextStepUpPhase, |t.s.config.thresholds|);
    NextInCircle(t.s.nextStepDownPhase, |t.s.config.thresholds|);
  }

  /** A step, phase by phase: an Up switches its phase on and notes the time, a Down switches its phase off. */
  lemma PhasesAfter(id: nat, t: Traced, step: Step, e: SiteEnv, i: nat)
    requires Sound(t.s) && i < |t.s.config.thresholds|
    ensures var s := AdjustOf(Relay(id, t), step, e).t.s;
            var switchedOn := step == Up && i == t.s.nextStepUpPhase;
            var switchedOff := step == Down && i == t.s.nextStepDownPhase;
            && |s.currentStates| == |s.timestamps| == |t.s.config.thresholds|
            && s.currentStates[i] == (switchedOn || (t.s.currentStates[i] && !switchedOff))
            && s.timestamps[i] == if switchedOn then e.ts else t.s.timestamps[i]
  {
    hide DayOf;
  }

  // ---- Chargers and switches ---------------------------------------------------------------

  lemma ChargerAsksIff(id: nat, w: Wallbox.State, e: SiteEnv)
    requires Wallbox.Sound(w)
    ensures var one, three := w.voltages[0], w.voltages[0] + w.voltages[1] + w.voltages[2];
            var usable := w.powerMeasured - e.longTermGridPower;
            var kept := usable + if w.powerOffset > 0 then w.powerOffset as real else 0.0;
            var offered := usable + w.powerOffset as real;
            && (DownOf(Charger(id, w), e).0 <==>
                  || (w.phases > 0 && w.powerOffset == -32768)
                  || (w.phases == 3 && kept <= (6 * three) as real)
                  || (w.phases == 1 && kept <= (6 * three) as real && kept <= (6 * one) as real))
            && (UpOf(Charger(id, w), e).0 <==>
                  && (w.status == Wallbox.waiting || w.status == Wallbox.charging)
                  && ((w.phases < 3 && offered > (6 * three + w.threePhaseHysteresis) as real)
                      || (w.phases == 0 && offered > (6 * one + w.onePhaseHysteresis) as real)))
  {
    Wallbox.AsksDownIff(w, ChargerEnv(e));
    Wallbox.AsksUpIff(w, ChargerEnv(e));
  }

  /** What a charger draws after an `adjust` in the system. */
  lemma ChargerDraws(id: nat, w: Wallbox.State, step: Step, e: SiteEnv)
    requires Wallbox.Sound(w) && forall k :: 0 <= k < 3 ==> w.voltages[k] > 0
    ensures var r := AdjustOf(Charger(id, w), step, e);
            var available :=
              (if w.powerOffset > 0 then w.powerOffset else 0) as real + w.powerMeasured - e.shortTermGridPower;
            && r.Charger? && r.id == id
            && var volts := if r.w.phases == 1 then w.voltages[0] else w.voltages[0] + w.voltages[1] + w.voltages[2];
            var drawn := r.w.current * volts;
            && r.w == w.(phases := if step == Keep then w.phases else w.nextPhases, current := r.w.current)
            && (r.w.phases == 0 ==> r.w.current == 0)
            && (r.w.phases > 0 && available >= 0.0 ==> drawn as real <= available < (drawn + volts) as real)
            && (r.w.phases > 0 && available <= 0.0 ==> (drawn - volts) as real < available <= drawn as real)
  {
    Wallbox.CommandedPower(w, step, ChargerEnv(e));
  }

  /** A rule asks for what the last true expression requested, while that differs from what was last set. */
  lemma SwitchAsksIff(id: nat, r: Rule.State, e: SiteEnv)
    ensures DownOf(Switch(id, r), e).0 <==>
              (id in e.off || r.nextState == Some(false)) && r.state != Some(false)
    ensures UpOf(Switch(id, r), e).0 <==>
              (id in e.on || r.nextState == Some(true)) && r.state != Some(true)
    ensures DownOf(Switch(id, r), e).1 == Switch(id, r.(nextState := if id in e.off then Some(false) else r.nextState))
    ensures UpOf(Switch(id, r), e).1 == Switch(id, r.(nextState := if id in e.on then Some(true) else r.nextState))
    ensures forall step ::
              AdjustOf(Switch(id, r), step, e)
              == Switch(id, r.(state := if step == Keep then r.state else Some(step == Up)))
  {
  }

  // ---- Samples and runs --------------------------------------------------------------------

  lemma DownInLog(n: nat, d: Decision, j: nat)
    requires Adjust(j, Down) in LogOf(n, d)
    ensures d == StepDown(j)
  {
    var log := LogOf(n, d);
    assert forall k :: 0 < k < |log| ==> log[k].step == Keep;
    var k :| 0 <= k < |log| && log[k] == Adjust(j, Down);
  }

  /** Whenever a relay steps down, its next phase was reported on, and its inputs were lost or the site imported. */
  lemma DownHasReason(last: int, states: seq<Strategy>, ts: int, e: SiteEnv, j: nat)
    requires j < |states| && states[j].Relay? && Sound(states[j].t.s)
    requires Adjust(j, Down) in Tick(STRATEGIES, last, states, ts, e).log
    ensures var s, id := states[j].t.s, states[j].id;
            && ts >= last + 120
            && Read(id, |s.config.thresholds|, e) && e.reported[id][s.nextStepDownPhase]
            && (!s.isInputActive || e.longTermGridPower > 0.0)
  {
    hide Tick, LogOf, FinalState, Sound, DownOf, UpOf;
    var d := TickMeaning(STRATEGIES, last, states, ts, e);
    DownInLog(|states|, d, j);
    RelayAsksDownIff(states[j].id, states[j].t, e);
  }

  /** Whenever a relay steps up, its next phase was off and enabled, and the site exported more than it takes. */
  lemma UpHasReason(last: int, states: seq<Strategy>, ts: int, e: SiteEnv, j: nat)
    requires j < |states| && states[j].Relay? && Sound(states[j].t.s)
    requires Adjust(j, Up) in Tick(STRATEGIES, last, states, ts, e).log
    ensures var s, id := states[j].t.s, states[j].id;
            var next := s.nextStepUpPhase;
            && ts >= last + 180
            && Read(id, |s.config.thresholds|, e) && !e.reported[id][next] && e.inputs[id][next]
            && -e.longTermGridPower > (s.config.thresholds[next] + s.config.hystereses[next]) as real
  {
    hide Tick, LogOf, FinalState, Sound, DownOf, UpOf;
    var d := TickMeaning(STRATEGIES, last, states, ts, e);
    UpInLog(|states|, d, j);
    RelayAsksDownIff(states[j].id, states[j].t, e);
    RelayAsksUpIff(states[j].id, states[j].t, e);
  }

  /** The site does not import, and the inputs of relay `j` are not lost. */
  ghost predicate Undisturbed(ev: Event<SiteEnv, Message>, j: nat) {
    match ev
    case Sample(_, e) => e.longTermGridPower <= 0.0
    case News(who, m) => who == j && m.DigitalInput? ==> forall i :: 0 <= i < |m.values| ==> m.values[i]
  }

  /** No phase of `r` has gone off since `s`. */
  ghost predicate NothingShed(s: Strategy, r: Strategy) {
    && s.Relay? && r.Relay? && Sound(s.t.s) && Sound(r.t.s) && r.t.s.isInputActive
    && r.t.off == s.t.off && |r.t.s.currentStates| == |s.t.s.currentStates|
    && forall i :: 0 <= i < |s.t.s.currentStates| && s.t.s.currentStates[i] ==> r.t.s.currentStates[i]
  }

  lemma KeepsPhasesOn(id: nat, t: Traced, step: Step, e: SiteEnv)
    requires Sound(t.s) && step != Down && t.s.isInputActive
    ensures NothingShed(Relay(id, t), AdjustOf(Relay(id, t), step, e))
  {
    RelayAdjusts(id, t, step, e);
    hide AdjustOf;
    forall i: nat | i < |t.s.config.thresholds| && t.s.currentStates[i]
      ensures AdjustOf(Relay(id, t), step, e).t.s.currentStates[i]
    {
      PhasesAfter(id, t, step, e, i);
    }
  }

  lemma SampleShedsNothing(start: Strategy, s: Strategy, e: SiteEnv, d: Decision, j: nat)
    requires NothingShed(start, s) && e.longTermGridPower <= 0.0
    requires d == StepDown(j) ==> PowerManagerTheorems.WantsDown(STRATEGIES, s, e)
    ensures NothingShed(start, FinalState(STRATEGIES, s, e, d, j))
  {
    RelayAsksDownIff(s.id, s.t, e);
    RelayAsksUpIff(s.id, s.t, e);
    hide DownOf, UpOf, AdjustOf, Sound, Read, LimitDue;
    var asked := UpOf(s, e).1;
    KeepsPhasesOn(s.id, s.t, Keep, e);
    KeepsPhasesOn(s.id, asked.t, Keep, e);
    KeepsPhasesOn(s.id, asked.t, Up, e);
  }

  /**
   * In every run in which the site does not import and its inputs stay on, no phase of a relay is ever switched off.
   */
  lemma {:induction false} NothingShedWhileExporting(
    start: Run<Strategy>, events: seq<Event<SiteEnv, Message>>, j: nat)
    requires j < |start.states| && start.states[j].Relay? && Sound(start.states[j].t.s)
    requires start.states[j].t.s.isInputActive && forall k :: 0 <= k < |events| ==> Undisturbed(events[k], j)
    ensures var r := RunAll(STRATEGIES, Hear, start, events);
            |r.states| == |start.states| && NothingShed(start.states[j], r.states[j])
  {
    hide Tick, NothingShed, FinalState;
    if events == [] {
      assert NothingShed(start.states[j], start.states[j]) by { NothingYetShed(start.states[j]); }
    } else {
      var n := |events| - 1;
      var r := RunAll(STRATEGIES, Hear, start, events[..n]);
      NothingShedWhileExporting(start, events[..n], j);
      assert Undisturbed(events[n], j);
      match events[n] {
        case Sample(ts, e) =>
          var d := TickMeaning(STRATEGIES, r.lastStepTs, r.states, ts, e);
          SampleShedsNothing(start.states[j], r.states[j], e, d, j);
        case News(who, m) =>
          if who == j {
            NewsShedsNothing(start.states[j], r.states[j], m);
          }
      }
    }
  }

  lemma NothingYetShed(s: Strategy)
    requires s.Relay? && Sound(s.t.s) && s.t.s.isInputActive
    ensures NothingShed(s, s)
  {
  }

  lemma NewsShedsNothing(start: Strategy, s: Strategy, m: Message)
    requires NothingShed(start, s) && (m.DigitalInput? ==> forall i :: 0 <= i < |m.values| ==> m.values[i])
    ensures NothingShed(start, Hear(s, m))
  {
    if m.DigitalInput? {
      RelayHears(s.id, s.t, m.values, m.now);
    }
  }

  /** The site never exports more than a phase of relay `s` takes with its hysteresis. */
  predicate Withheld(s: State, e: SiteEnv)
    requires Sound(s)
  {
    forall i :: 0 <= i < |s.config.thresholds| ==>
      -e.longTermGridPower <= (s.config.thresholds[i] + s.config.hystereses[i]) as real
  }

  ghost predicate NothingAdded(s: Strategy, r: Strategy) {
    s.Relay? && r.Relay? && Sound(s.t.s) && Sound(r.t.s) && r.t.s.config == s.t.s.config && r.t.on == s.t.on
  }

  lemma SampleAddsNothing(start: Strategy, s: Strategy, e: SiteEnv, d: Decision, j: nat)
    requires NothingAdded(start, s) && Withheld(start.t.s, e)
    requires d == StepUp(j) ==> PowerManagerTheorems.WantsUp(STRATEGIES, s, e)
    ensures NothingAdded(start, FinalState(STRATEGIES, s, e, d, j))
  {
    RelayAsksDownIff(s.id, s.t, e);
    RelayAsksUpIff(s.id, s.t, e);
    hide DownOf, UpOf, AdjustOf, Sound, Read, LimitDue;
    var asked := UpOf(s, e).1;
    assert s.t.s.nextStepUpPhase < |start.t.s.config.thresholds| by { UpPointer(s.t.s); }
    assert Sound(asked.t.s) by { AskedSound(s, e); }
    RelayAdjusts(s.id, s.t, Keep, e);
    RelayAdjusts(s.id, s.t, Down, e);
    RelayAdjusts(s.id, asked.t, Keep, e);
  }

  lemma UpPointer(s: State)
    requires Sound(s)
    ensures s.nextStepUpPhase < |s.config.thresholds|
  {
  }

  lemma AskedSound(s: Strategy, e: SiteEnv)
    requires s.Relay? && Sound(s.t.s)
    ensures UpOf(s, e).1.Relay? && Sound(UpOf(s, e).1.t.s)
  {
  }

  /** In every run in which the site exports too little for any of its phases, a relay never switches one on. */
  lemma {:induction false} NothingAddedWithoutSurplus(
    start: Run<Strategy>, events: seq<Event<SiteEnv, Message>>, j: nat)
    requires j < |start.states| && start.states[j].Relay? && Sound(start.states[j].t.s)
    requires forall k :: 0 <= k < |events| && events[k].Sample? ==> Withheld(start.states[j].t.s, events[k].e)
    ensures var r := RunAll(STRATEGIES, Hear, start, events);
            |r.states| == |start.states| && NothingAdded(start.states[j], r.states[j])
  {
    hide Tick, FinalState, Withheld;
    if events != [] {
      var n := |events| - 1;
      var r := RunAll(STRATEGIES, Hear, start, events[..n]);
      NothingAddedWithoutSurplus(start, events[..n], j);
      match events[n] {
        case Sample(ts, e) =>
          var d := TickMeaning(STRATEGIES, r.lastStepTs, r.states, ts, e);
          SampleAddsNothing(start.states[j], r.states[j], e, d, j);
        case News(_, _) =>
      }
    }
  }

  // ---- The day -----------------------------------------------------------------------------

  lemma FinalDay(s: Strategy, e: SiteEnv, d: Decision, j: nat)
    requires s.Relay? && Sound(s.t.s)
    ensures var r := FinalState(STRATEGIES, s, e, d, j);
            r.Relay? && Sound(r.t.s) && r.t.s.currentDay == DayOf(e.ts)
  {
    RelayAsksDownIff(s.id, s.t, e);
    AskedSound(s, e);
    hide DownOf, UpOf, AdjustOf, Sound;
    var asked := UpOf(s, e).1;
    RelayAdjusts(s.id, s.t, Keep, e);
    RelayAdjusts(s.id, s.t, Down, e);
    RelayAdjusts(s.id, asked.t, Keep, e);
    RelayAdjusts(s.id, asked.t, Up, e);
  }

  lemma NewsKeepsDay(s: Strategy, m: Message)
    requires s.Relay? && Sound(s.t.s)
    ensures var r := Hear(s, m); r.Relay? && Sound(r.t.s) && r.t.s.currentDay == s.t.s.currentDay
  {
  }

  lemma DayIs(ts: int, d: nat)
    requires 86400 * d <= ts < 86400 * (d + 1)
    ensures DayOf(ts) == d
  {
  }

  /** Samples of the calendar day `d` only. */
  ghost predicate WithinDay(events: seq<Event<SiteEnv, Message>>, d: nat) {
    forall k :: 0 <= k < |events| && events[k].Sample? ==> 86400 * d <= events[k].e.ts < 86400 * (d + 1)
  }

  /** Within one day a run drops no energy; the strategy knows the day of the last sample. */
  lemma {:induction false} NothingDroppedWithinDay(
    start: Run<Strategy>, events: seq<Event<SiteEnv, Message>>, j: nat, d: nat)
    requires j < |start.states| && start.states[j].Relay? && Sound(start.states[j].t.s)
    requires WithinDay(events, d) && start.states[j].t.s.currentDay == d
    ensures var s := RelayAfter(start, events, j);
            && |RunAll(STRATEGIES, Hear, start, events).states| == |start.states|
            && s.Some? && s.value.currentDay == d && DroppedEnergy(start, events, j) == 0
  {
    hide Tick, FinalState, DayOf, Hear;
    if events != [] {
      var n := |events| - 1;
      var r := RunAll(STRATEGIES, Hear, start, events[..n]);
      NothingDroppedWithinDay(start, events[..n], j, d);
      match events[n] {
        case Sample(ts, e) =>
          var decision := TickMeaning(STRATEGIES, r.lastStepTs, r.states, ts, e);
          FinalDay(r.states[j], e, decision, j);
          DayIs(e.ts, d);
        case News(who, m) =>
          if who == j {
            NewsKeepsDay(r.states[j], m);
          }
      }
    }
  }

  /** The energy of a relay within one day of a run: what it was plus the sum of power times time. */
  lemma EnergyWithinDay(start: Run<Strategy>, events: seq<Event<SiteEnv, Message>>, j: nat, from: int, d: nat)
    requires TrustedAlong(start, events) && WithinDay(events, d)
    requires j < |start.states| && start.states[j].Relay? && Sound(start.states[j].t.s)
    requires start.states[j].t.s.currentDay == d
    ensures var s := RelayAfter(start, events, j);
            && s.Some?
            && Energy(s.value, LastSample(events, from))
               == Energy(start.states[j].t.s, from) + PowerTime(start, events, j, from)
  {
    NothingDroppedWithinDay(start, events, j, d);
    RunConservesEnergy(start, events, j, from);
  }
}
