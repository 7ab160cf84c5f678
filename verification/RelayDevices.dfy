/**
 * Relays that are real devices: each sample sets one of their relays, and the guards see what the device reports.
 * When samples come often enough, the debounce time leaves every device the calls it needs to catch up.
 */
module RelayDevices {
  import opened PowerManager
  import opened PowerManagerTheorems
  import opened MultiPhase
  import opened PowerSystem
  import opened PowerSystemTheorems
  import opened Shelly

  /** The device behind relay strategy `j` after a run: every sample publishes the commanded states to it. */
  function DeviceAfter(start: Run<Strategy>, d: Device, events: seq<Event<SiteEnv, Message>>, j: nat): Device {
    if events == [] then d
    else
      var before, s := DeviceAfter(start, d, events[..|events| - 1], j), RelayAfter(start, events, j);
      if events[|events| - 1].Sample? && s.Some? && before.phaseToSet < |s.value.currentStates| == |before.relays|
      then Set(before, s.value.currentStates)
      else before
  }

  /** Samples are at most `gap` seconds apart, and every relay thing reports the state of its device. */
  ghost predicate WellPolled(
    start: Run<Strategy>, devices: seq<Device>, events: seq<Event<SiteEnv, Message>>, from: int, gap: nat)
    requires |devices| == |start.states|
  {
    events != [] ==>
      var earlier, ev := events[..|events| - 1], events[|events| - 1];
      var r := RunAll(STRATEGIES, Hear, start, earlier);
      && WellPolled(start, devices, earlier, from, gap)
      && (ev.Sample? ==>
            && ev.ts == ev.e.ts <= LastSample(earlier, from) + gap
            && forall j :: 0 <= j < |r.states| && j < |devices| && r.states[j].Relay? ==>
                 OfThing(ev.e.reported, r.states[j].id) == DeviceAfter(start, devices[j], earlier, j).relays)
  }

  /** At first every device is as commanded, and it can be set completely within the shorter debounce time. */
  ghost predicate WellStarted(start: Run<Strategy>, devices: seq<Device>, gap: nat) {
    && |devices| == |start.states|
    && forall j :: 0 <= j < |start.states| ==> Good(start.states[j]) && Fits(start.states[j], devices[j], gap)
  }

  ghost predicate Fits(s: Strategy, d: Device, gap: nat) {
    s.Relay? ==>
      && d.relays == s.t.s.currentStates && d.phaseToSet < |d.relays|
      && |d.relays| * gap <= STEP_DOWN_DEBOUNCE_SECONDS
  }

  // ---- Catching up -------------------------------------------------------------------------

  function Repeat(states: seq<bool>, m: nat): (r: seq<seq<bool>>)
    ensures |r| == m
  {
    seq(m, _ => states)
  }

  /** `m` calls with the commanded states have been made, the last of them at `now`, since a step at `since`. */
  ghost predicate Behind(d: Device, states: seq<bool>, now: int, gap: nat, base: Device, m: nat, since: int) {
    && m >= 1 && base.phaseToSet < |base.relays| == |states|
    && d == SetAll(base, Repeat(states, m))
    && now - since <= (m - 1) * gap
  }

  /** The device is as commanded, or on its way there since a step not later than the last step of all. */
  ghost predicate CatchingUp(d: Device, states: seq<bool>, lastStepTs: int, now: int, gap: nat) {
    && d.phaseToSet < |d.relays| == |states|
    && (d.relays == states
        || exists base: Device, m: nat, since: int ::
             since <= lastStepTs && Behind(d, states, now, gap, base, m, since))
  }

  lemma RepeatSnoc(states: seq<bool>, m: nat)
    ensures Repeat(states, m + 1)[..m] == Repeat(states, m) && Repeat(states, m + 1)[m] == states
  {
  }

  lemma KeepCatches(d: Device, states: seq<bool>, lastStepTs: int, now: int, gap: nat, lastStepTs': int, now': int)
    requires CatchingUp(d, states, lastStepTs, now, gap) && lastStepTs <= lastStepTs' && now' <= now + gap
    ensures CatchingUp(Set(d, states), states, lastStepTs', now', gap)
  {
    if d.relays != states {
      var base: Device, m: nat, since: int :| since <= lastStepTs && Behind(d, states, now, gap, base, m, since);
      RepeatSnoc(states, m);
      assert m * gap == (m - 1) * gap + gap;
      assert Behind(Set(d, states), states, now', gap, base, m + 1, since);
    }
  }

  lemma StepCatches(d: Device, states: seq<bool>, ts: int, gap: nat)
    requires d.phaseToSet < |d.relays| == |states|
    ensures CatchingUp(Set(d, states), states, ts, ts, gap)
  {
    RepeatSnoc(states, 0);
    assert Repeat(states, 1)[..0] == [];
    assert Behind(Set(d, states), states, ts, gap, d, 1, ts);
  }

  /** Once the shorter debounce time has passed since the last step, the device is as commanded. */
  lemma CaughtUp(d: Device, states: seq<bool>, lastStepTs: int, now: int, gap: nat, ts: int)
    requires CatchingUp(d, states, lastStepTs, now, gap) && |states| * gap <= STEP_DOWN_DEBOUNCE_SECONDS
    requires ts >= lastStepTs + STEP_DOWN_DEBOUNCE_SECONDS && ts <= now + gap
    ensures d.relays == states
  {
    if d.relays != states {
      var base: Device, m: nat, since: int :| since <= lastStepTs && Behind(d, states, now, gap, base, m, since);
      var n := |states|;
      EnoughCalls(m, n, gap, ts - since);
      assert Repeat(states, m) == Repeat(states, m - n) + Repeat(states, n);
      Converges(base, Repeat(states, m - n), states, Repeat(states, n));
    }
  }

  lemma EnoughCalls(m: nat, n: nat, gap: nat, elapsed: int)
    requires m >= 1 && elapsed <= (m - 1) * gap + gap && n * gap <= STEP_DOWN_DEBOUNCE_SECONDS <= elapsed
    ensures m >= n
  {
    assert (m - 1) * gap + gap == m * gap && (m + 1) * gap == m * gap + gap;
    assert gap == 0 ==> m * gap == 0;
    if m < n {
      Times(m + 1, n, gap);
    }
  }

  lemma Times(a: nat, b: nat, gap: nat)
    requires a <= b
    ensures a * gap <= b * gap
  {
  }

  // ---- Samples and runs --------------------------------------------------------------------

  /** The same relay thing with as many phases. */
  ghost predicate SameRelay(s: Strategy, r: Strategy) {
    && s.Relay? && r.Relay? && r.id == s.id && Sound(s.t.s) && Sound(r.t.s) && r.t.s.config == s.t.s.config
    && |r.t.s.currentStates| == |s.t.s.currentStates|
  }

  lemma AskingChangesNothing(s: Strategy, e: SiteEnv)
    requires s.Relay? && Sound(s.t.s)
    ensures DownOf(s, e).1 == s
    ensures var r := UpOf(s, e).1; SameRelay(s, r) && r.t.s.currentStates == s.t.s.currentStates
  {
  }

  lemma AdjustEffect(s: Strategy, step: Step, e: SiteEnv)
    requires s.Relay? && Sound(s.t.s)
    ensures var r := AdjustOf(s, step, e);
            SameRelay(s, r) && (step == Keep ==> r.t.s.currentStates == s.t.s.currentStates)
  {
  }

  lemma FinalEffect(s: Strategy, e: SiteEnv, d: Decision, j: nat)
    requires s.Relay? && Sound(s.t.s)
    ensures var r := FinalState(STRATEGIES, s, e, d, j);
            && SameRelay(s, r)
            && (d != StepDown(j) && d != StepUp(j) ==> r.t.s.currentStates == s.t.s.currentStates)
  {
    hide DownOf, UpOf, AdjustOf;
    AskingChangesNothing(s, e);
    var asked := UpOf(s, e).1;
    AdjustEffect(s, Keep, e);
    AdjustEffect(s, Down, e);
    AdjustEffect(asked, Keep, e);
    AdjustEffect(asked, Up, e);
  }

  /** What a sample does to the commanded states of relay `j`. */
  lemma SampleEffect(last: int, states: seq<Strategy>, ts: int, e: SiteEnv, j: nat) returns (stepped: bool)
    requires j < |states| && states[j].Relay? && Sound(states[j].t.s)
    ensures var o := Tick(STRATEGIES, last, states, ts, e);
            && SameRelay(states[j], o.states[j]) && o.lastStepTs >= last
            && (if stepped then o.lastStepTs == ts else o.states[j].t.s.currentStates == states[j].t.s.currentStates)
  {
    hide Tick, FinalState, SameRelay;
    var d := TickMeaning(STRATEGIES, last, states, ts, e);
    FinalEffect(states[j], e, d, j);
    stepped := d == StepDown(j) || d == StepUp(j);
  }

  lemma {:induction false} DeviceCatchesUp(
    start: Run<Strategy>, devices: seq<Device>, events: seq<Event<SiteEnv, Message>>, from: int, gap: nat, j: nat)
    requires WellStarted(start, devices, gap) && WellPolled(start, devices, events, from, gap)
    requires j < |start.states| && start.states[j].Relay?
    ensures var r, s := RunAll(STRATEGIES, Hear, start, events), RelayAfter(start, events, j);
            && |r.states| == |start.states| && s.Some?
            && |s.value.currentStates| == |start.states[j].t.s.currentStates|
            && CatchingUp(DeviceAfter(start, devices[j], events, j), s.value.currentStates,
                          r.lastStepTs, LastSample(events, from), gap)
  {
    hide CatchingUp, Tick;
    if events == [] {
      FirstCaughtUp(start, devices, from, gap, j);
    } else {
      var n := |events| - 1;
      var r := RunAll(STRATEGIES, Hear, start, events[..n]);
      DeviceCatchesUp(start, devices, events[..n], from, gap, j);
      var d, s := DeviceAfter(start, devices[j], events[..n], j), r.states[j].t.s;
      CatchingFits(d, s.currentStates, r.lastStepTs, LastSample(events[..n], from), gap);
      match events[n] {
        case Sample(ts, e) =>
          var stepped := SampleEffect(r.lastStepTs, r.states, ts, e, j);
          var o := Tick(STRATEGIES, r.lastStepTs, r.states, ts, e);
          if stepped {
            StepCatches(d, o.states[j].t.s.currentStates, ts, gap);
          } else {
            KeepCatches(d, s.currentStates, r.lastStepTs, LastSample(events[..n], from), gap, o.lastStepTs, ts);
          }
        case News(_, _) =>
      }
    }
  }

  lemma CatchingFits(d: Device, states: seq<bool>, lastStepTs: int, now: int, gap: nat)
    requires CatchingUp(d, states, lastStepTs, now, gap)
    ensures d.phaseToSet < |d.relays| == |states|
  {
  }

  lemma FirstCaughtUp(start: Run<Strategy>, devices: seq<Device>, from: int, gap: nat, j: nat)
    requires WellStarted(start, devices, gap) && j < |start.states| && start.states[j].Relay?
    ensures Sound(start.states[j].t.s)
    ensures CatchingUp(devices[j], start.states[j].t.s.currentStates, start.lastStepTs, from, gap)
  {
    assert Good(start.states[j]) && Fits(start.states[j], devices[j], gap);
  }

  /** Whenever a step is due, every device reports exactly what is commanded. */
  lemma ReportsAreTrue(
    start: Run<Strategy>, devices: seq<Device>, events: seq<Event<SiteEnv, Message>>, from: int, gap: nat,
    ts: int, e: SiteEnv, j: nat)
    requires WellStarted(start, devices, gap) && WellPolled(start, devices, events + [Sample(ts, e)], from, gap)
    requires ts >= RunAll(STRATEGIES, Hear, start, events).lastStepTs + STEP_DOWN_DEBOUNCE_SECONDS
    requires j < |start.states| && start.states[j].Relay?
    ensures var s, r := RelayAfter(start, events, j), RunAll(STRATEGIES, Hear, start, events);
            && s.Some? && Trusted(r.states[j], e)
            && OfThing(e.reported, r.states[j].id) == s.value.currentStates
  {
    hide CatchingUp, Tick;
    var all := events + [Sample(ts, e)];
    assert all[..|events|] == events;
    var r := RunAll(STRATEGIES, Hear, start, events);
    DeviceCatchesUp(start, devices, events, from, gap, j);
    assert Fits(start.states[j], devices[j], gap);
    var d := DeviceAfter(start, devices[j], events, j);
    CaughtUp(d, r.states[j].t.s.currentStates, r.lastStepTs, LastSample(events, from), gap, ts);
  }

  /**
   * The assumption on reports is discharged: when all relays are devices that start as commanded, and samples come
   * often enough for a device to be set completely within 120 s, every report can be relied on whenever a step is due.
   */
  lemma {:induction false} PolledIsTrusted(
    start: Run<Strategy>, devices: seq<Device>, events: seq<Event<SiteEnv, Message>>, from: int, gap: nat)
    requires WellStarted(start, devices, gap) && WellPolled(start, devices, events, from, gap)
    ensures |RunAll(STRATEGIES, Hear, start, events).states| == |start.states|
    ensures TrustedAlong(start, events)
  {
    hide Tick, Trusted;
    if events != [] {
      var n := |events| - 1;
      var r := RunAll(STRATEGIES, Hear, start, events[..n]);
      PolledIsTrusted(start, devices, events[..n], from, gap);
      if events[n].Sample? && events[n].ts >= r.lastStepTs + STEP_DOWN_DEBOUNCE_SECONDS {
        assert events == events[..n] + [Sample(events[n].ts, events[n].e)];
        forall j | 0 <= j < |r.states| ensures Trusted(r.states[j], events[n].e) {
          if start.states[j].Relay? {
            ReportsAreTrue(start, devices, events[..n], from, gap, events[n].ts, events[n].e, j);
          } else {
            OthersTrusted(start, events[..n], j, events[n].e);
          }
        }
      }
    }
  }

  /** A strategy that is no relay never becomes one. */
  lemma {:induction false} OthersTrusted(start: Run<Strategy>, events: seq<Event<SiteEnv, Message>>, j: nat, e: SiteEnv)
    requires j < |start.states| && !start.states[j].Relay?
    ensures var r := RunAll(STRATEGIES, Hear, start, events);
            |r.states| == |start.states| && !r.states[j].Relay? && Trusted(r.states[j], e)
  {
    hide Tick;
    if events != [] {
      var n := |events| - 1;
      var r := RunAll(STRATEGIES, Hear, start, events[..n]);
      OthersTrusted(start, events[..n], j, e);
      match events[n] {
        case Sample(ts, env) =>
          hide FinalState;
          var d := TickMeaning(STRATEGIES, r.lastStepTs, r.states, ts, env);
          OtherStaysOther(r.states[j], env, d, j);
        case News(_, _) =>
      }
    }
  }

  lemma OtherStaysOther(s: Strategy, e: SiteEnv, d: Decision, j: nat)
    requires !s.Relay?
    ensures !FinalState(STRATEGIES, s, e, d, j).Relay?
  {
  }

  /**
   * The whole system with devices: every relay keeps its circular order and its limit, every charger its phases,
   * and after a step up of a relay at most `_phaseLimit` of its phases are on.
   */
  lemma PolledSystemRun(
    start: Run<Strategy>, devices: seq<Device>, events: seq<Event<SiteEnv, Message>>, from: int, gap: nat)
    requires WellStarted(start, devices, gap) && WellPolled(start, devices, events, from, gap)
    ensures var r := RunAll(STRATEGIES, Hear, start, events);
            |r.states| == |start.states| && forall j :: 0 <= j < |r.states| ==> Good(r.states[j])
  {
    PolledIsTrusted(start, devices, events, from, gap);
    SystemRun(start, events);
  }

  lemma PolledUpWithinLimit(
    start: Run<Strategy>, devices: seq<Device>, events: seq<Event<SiteEnv, Message>>, from: int, gap: nat,
    ts: int, e: SiteEnv, j: nat)
    requires WellStarted(start, devices, gap) && WellPolled(start, devices, events + [Sample(ts, e)], from, gap)
    requires j < |start.states| && start.states[j].Relay?
    requires var r := RunAll(STRATEGIES, Hear, start, events);
             Adjust(j, Up) in Tick(STRATEGIES, r.lastStepTs, r.states, ts, e).log
    ensures var s := RelayAfter(start, events + [Sample(ts, e)], j);
            s.Some? && Count(s.value.currentStates) <= s.value.phaseLimit
  {
    hide Tick, CatchingUp, LogOf, Trusted;
    var all := events + [Sample(ts, e)];
    assert all[..|events|] == events;
    var r := RunAll(STRATEGIES, Hear, start, events);
    DeviceCatchesUp(start, devices, events, from, gap, j);
    DeviceCatchesUp(start, devices, all, from, gap, j);
    var d := TickMeaning(STRATEGIES, r.lastStepTs, r.states, ts, e);
    UpInLog(|r.states|, d, j);
    ReportsAreTrue(start, devices, events, from, gap, ts, e, j);
    StepUpStaysWithinLimit(r.lastStepTs, r.states, ts, e, j);
  }
}
