/** Properties of `MultiPhaseStrategy` over whole runs: circular order, phase limit, energy. */
module MultiPhaseTheorems {
  import opened ModArith
  import opened PowerManager
  import opened MultiPhase
  import opened Spacing

  datatype LimitChange = LimitChange(time: int, up: bool)

  /** A strategy with its history: phases in the order they came on and went off, changes of the limit. */
  datatype Traced = Traced(s: State, on: seq<nat>, off: seq<nat>, changes: seq<LimitChange>)

  function Fresh(config: Config): Traced {
    Traced(Initial(config), [], [], [])
  }

  /** Records a change of the limit between `t.s` and `s`. */
  function WithLimit(t: Traced, s: State, now: int): Traced {
    t.(s := s, changes := if s.phaseLimit == t.s.phaseLimit then t.changes
                          else t.changes + [LimitChange(now, s.phaseLimit > t.s.phaseLimit)])
  }

  function TakeStep(t: Traced, step: Step, ts: int): Traced
    requires Sound(t.s)
  {
    t.(s := Adjusted(t.s, step, ts),
       on := if step == Up then t.on + [t.s.nextStepUpPhase] else t.on,
       off := if step == Down then t.off + [t.s.nextStepDownPhase] else t.off)
  }

  // ---- The circular allocator --------------------------------------------------------------

  /**
   * Phase k mod n is the k-th to come on; phases go off in the order they came on; and the phases that are
   * on are those that have come on and not yet gone off, at most n of them.
   */
  ghost predicate Circular(t: Traced) {
    && Sound(t.s)
    && var n := |t.s.config.thresholds|;
    && (forall k :: 0 <= k < |t.on| ==> t.on[k] == Turn(k, n))
    && t.off <= t.on && |t.on| - |t.off| <= n
    && t.s.nextStepUpPhase == Turn(|t.on|, n) && t.s.nextStepDownPhase == Turn(|t.off|, n)
    && forall i :: 0 <= i < n ==> (t.s.currentStates[i] <==> i in t.on[|t.off|..])
  }

  lemma OldestIsNext(t: Traced)
    requires Circular(t)
    ensures t.s.currentStates[t.s.nextStepDownPhase] <==> |t.off| < |t.on|
    ensures |t.off| < |t.on| ==> t.on[|t.off|] == t.s.nextStepDownPhase && t.s.nextStepDownPhase !in t.on[|t.off| + 1..]
  {
    hide Turn;
    var n, a := |t.s.config.thresholds|, |t.off|;
    if a < |t.on| {
      assert t.on[a..][0] == t.on[a];
      forall k | a < k < |t.on| ensures t.on[k] != t.on[a] {
        TurnsDistinct(a, k, n);
      }
    }
  }

  lemma NextIsFree(t: Traced)
    requires Circular(t)
    ensures t.s.currentStates[t.s.nextStepUpPhase] <==> |t.on| - |t.off| == |t.s.config.thresholds|
  {
    hide Turn;
    var n, a, b := |t.s.config.thresholds|, |t.off|, |t.on|;
    if b - a == n {
      TurnBack(b, n);
      assert t.on[a..][0] == t.on[a];
    } else if t.s.nextStepUpPhase in t.on[a..] {
      var k :| 0 <= k < b - a && t.on[a..][k] == t.s.nextStepUpPhase;
      TurnsDistinct(a + k, b, n);
      assert false;
    }
  }

  /** What a step leaves, phase by phase. */
  lemma StepEffect(s: State, step: Step, ts: int)
    requires Sound(s)
    ensures var r, n := Adjusted(s, step, ts), |s.config.thresholds|;
            && Sound(r) && r.config == s.config
            && r.nextStepUpPhase == (if step == Up then (s.nextStepUpPhase + 1) % n else s.nextStepUpPhase)
            && r.nextStepDownPhase == (if step == Down then (s.nextStepDownPhase + 1) % n else s.nextStepDownPhase)
            && forall i :: 0 <= i < n ==>
                 r.currentStates[i] == if step == Up && i == s.nextStepUpPhase then true
                                       else if step == Down && i == s.nextStepDownPhase then false
                                       else s.currentStates[i]
  {
  }

  lemma DownKeepsCircular(t: Traced, ts: int)
    requires Circular(t) && t.s.currentStates[t.s.nextStepDownPhase]
    ensures Circular(TakeStep(t, Down, ts))
  {
    hide Turn, Adjusted;
    OldestIsNext(t);
    StepEffect(t.s, Down, ts);
    var a := |t.off|;
    TurnSucc(a, |t.s.config.thresholds|);
    var r := TakeStep(t, Down, ts);
    assert t.on[a..] == [t.on[a]] + t.on[a + 1..];
    assert r.off == t.on[..a + 1];
  }

  lemma UpKeepsCircular(t: Traced, ts: int)
    requires Circular(t) && !t.s.currentStates[t.s.nextStepUpPhase]
    ensures Circular(TakeStep(t, Up, ts))
  {
    hide Turn, Adjusted;
    NextIsFree(t);
    StepEffect(t.s, Up, ts);
    TurnSucc(|t.on|, |t.s.config.thresholds|);
    var r := TakeStep(t, Up, ts);
    SuffixGrows(t.on, t.s.nextStepUpPhase, |t.off|);
    assert r.off <= t.on <= r.on;
  }

  lemma SuffixGrows(on: seq<nat>, x: nat, a: nat)
    requires a <= |on|
    ensures forall i :: i in (on + [x])[a..] <==> i in on[a..] || i == x
  {
    assert (on + [x])[a..] == on[a..] + [x];
  }

  lemma KeepKeepsCircular(t: Traced, ts: int)
    requires Circular(t)
    ensures Circular(TakeStep(t, Keep, ts))
  {
    hide Turn, Adjusted;
    StepEffect(t.s, Keep, ts);
  }

  lemma NoDownWhenOff(t: Traced, ts: int)
    requires Circular(t) && !t.s.currentStates[t.s.nextStepDownPhase]
    ensures !Circular(TakeStep(t, Down, ts))
  {
    hide Turn, Adjusted;
    OldestIsNext(t);
    assert |TakeStep(t, Down, ts).off| > |TakeStep(t, Down, ts).on|;
  }

  lemma NoUpWhenOn(t: Traced, ts: int)
    requires Circular(t) && t.s.currentStates[t.s.nextStepUpPhase]
    ensures !Circular(TakeStep(t, Up, ts))
  {
    hide Turn, Adjusted;
    NextIsFree(t);
    StepEffect(t.s, Up, ts);
    assert |TakeStep(t, Up, ts).on| - |t.off| > |t.s.config.thresholds|;
  }

  /** A step keeps the circular order if and only if the commanded state of its phase agrees with it. */
  lemma StepKeepsCircularIff(t: Traced, ts: int)
    requires Circular(t)
    ensures Circular(TakeStep(t, Keep, ts))
    ensures Circular(TakeStep(t, Down, ts)) <==> t.s.currentStates[t.s.nextStepDownPhase]
    ensures Circular(TakeStep(t, Up, ts)) <==> !t.s.currentStates[t.s.nextStepUpPhase]
  {
    hide TakeStep;
    KeepKeepsCircular(t, ts);
    if t.s.currentStates[t.s.nextStepDownPhase] {
      DownKeepsCircular(t, ts);
    } else {
      NoDownWhenOff(t, ts);
    }
    if t.s.currentStates[t.s.nextStepUpPhase] {
      NoUpWhenOn(t, ts);
    } else {
      UpKeepsCircular(t, ts);
    }
  }

  /** The phases that are on form the circular interval from `_nextStepDownPhase` up to `_nextStepUpPhase`. */
  lemma OnPhasesAreInterval(t: Traced, i: nat)
    requires Circular(t) && i < |t.s.config.thresholds|
    ensures var n := |t.s.config.thresholds|;
            && t.s.nextStepDownPhase == Turn(|t.off|, n) && t.s.nextStepUpPhase == Turn(|t.on|, n)
            && |t.off| <= |t.on| <= |t.off| + n
            && (t.s.currentStates[i] <==> exists k :: |t.off| <= k < |t.on| && Turn(k, n) == i)
  {
    hide Turn;
    var n, a := |t.s.config.thresholds|, |t.off|;
    if i in t.on[a..] {
      var k :| 0 <= k < |t.on| - a && t.on[a..][k] == i;
      assert t.on[a + k] == Turn(a + k, n);
    }
    if k :| a <= k < |t.on| && Turn(k, n) == i {
      assert t.on[a..][k - a] == t.on[k];
    }
  }

  lemma {:induction false} TurnsTaken(on: seq<nat>, n: nat, i: nat)
    requires n > 0 && i < n && forall k :: 0 <= k < |on| ==> on[k] == Turn(k, n)
    ensures multiset(on)[i] == |on| / n + if i < Turn(|on|, n) then 1 else 0
  {
    hide Turn;
    if on == [] {
      ModUnique(0, n, 0, 0);
      TurnOfZero(n);
    } else {
      var m := |on| - 1;
      TurnsTaken(on[..m], n, i);
      assert on == on[..m] + [on[m]];
      TurnSucc(m, n);
    }
  }

  lemma TurnOfZero(n: nat)
    requires n > 0
    ensures Turn(0, n) == 0
  {
  }

  /** Lifetime switch-on counts of any two phases differ by at most one. */
  lemma FairWear(t: Traced, i: nat, j: nat)
    requires Circular(t) && i < |t.s.config.thresholds| && j < |t.s.config.thresholds|
    ensures multiset(t.on)[i] <= multiset(t.on)[j] + 1
  {
    hide Turn;
    TurnsTaken(t.on, |t.s.config.thresholds|, i);
    TurnsTaken(t.on, |t.s.config.thresholds|, j);
  }

  // ---- The phase limit ---------------------------------------------------------------------

  /** Every increase comes at least `duration` after the change before it; the first change is no increase. */
  ghost predicate Relaxed(changes: seq<LimitChange>, duration: int) {
    changes != [] ==>
      var before, c := changes[..|changes| - 1], changes[|changes| - 1];
      && Relaxed(before, duration)
      && (c.up ==> before != [] && before[|before| - 1].time + duration <= c.time)
  }

  ghost predicate Limited(t: Traced) {
    && Sound(t.s)
    && Relaxed(t.changes, t.s.config.limitDuration)
    && (t.changes == [] ==> t.s.phaseLimit == |t.s.config.thresholds|)
    && (t.changes != [] ==> t.s.phaseLimitTimepoint == t.changes[|t.changes| - 1].time)
  }

  lemma LimitChangeKept(t: Traced, s: State, now: int)
    requires Limited(t) && (s == Decremented(t.s, now) || s == Incremented(t.s, now))
    ensures Limited(WithLimit(t, s, now))
  {
    var r := WithLimit(t, s, now);
    if r.changes != t.changes {
      assert r.changes[..|r.changes| - 1] == t.changes;
    }
  }

  lemma {:induction false} CountChange(states: seq<bool>, i: nat)
    requires i < |states| && !states[i]
    ensures Count(states[i := true]) == Count(states) + 1
  {
    var n := |states| - 1;
    var after := states[i := true];
    if i == n {
      assert after[..n] == states[..n];
    } else {
      assert after[..n] == states[..n][i := true];
      CountChange(states[..n], i);
    }
  }

  /** A step up that was asked for, with reported = commanded, leaves at most `_phaseLimit` phases on. */
  lemma UpStaysWithinLimit(s: State, env: Env, ts: int)
    requires Sound(s) && env.reported == s.currentStates && WantsUp(s, env).0
    ensures var r := Adjusted(WantsUp(s, env).1, Up, ts);
            Count(r.currentStates) == Count(s.currentStates) + 1 <= r.phaseLimit
  {
    CountChange(s.currentStates, s.nextStepUpPhase);
  }

  function Increases(changes: seq<LimitChange>): seq<int> {
    if changes == [] then []
    else
      var before, c := Increases(changes[..|changes| - 1]), changes[|changes| - 1];
      if c.up then before + [c.time] else before
  }

  ghost predicate Chronological(changes: seq<LimitChange>) {
    forall i, j :: 0 <= i < j < |changes| ==> changes[i].time <= changes[j].time
  }

  lemma {:induction false} IncreasesSpaced(changes: seq<LimitChange>, duration: nat)
    requires Relaxed(changes, duration) && Chronological(changes)
    ensures Spaced(Increases(changes), duration)
    ensures var u := Increases(changes); u != [] ==> changes != [] && u[|u| - 1] <= changes[|changes| - 1].time
  {
    if changes != [] {
      var n := |changes| - 1;
      IncreasesSpaced(changes[..n], duration);
      var before := Increases(changes[..n]);
      if changes[n].up {
        var u := Increases(changes);
        forall i | 0 < i < |u| ensures u[i - 1] + duration <= u[i] {
          if i < |before| { assert before[i - 1] + duration <= before[i]; }
        }
      }
    }
  }

  /** With a clock that does not run backwards, increases of the limit in any window are bounded linearly. */
  lemma IncreasesInWindow(t: Traced, from: int, to: int)
    requires Limited(t) && Chronological(t.changes) && t.s.config.limitDuration > 0 && from <= to
    ensures CountIn(Increases(t.changes), from, to) <= (to - from) / t.s.config.limitDuration + 1
  {
    var d := t.s.config.limitDuration;
    IncreasesSpaced(t.changes, d);
    WindowBound(Increases(t.changes), d, from, to);
    var c := CountIn(Increases(t.changes), from, to);
    if c > 0 {
      DivAtLeast(to - from, d, c - 1);
    }
  }
}
