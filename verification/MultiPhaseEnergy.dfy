/** Energy accounting of `MultiPhaseStrategy::adjust`. */
module MultiPhaseEnergy {
  import opened Words
  import opened PowerManager
  import opened MultiPhase

  /** Running energy grows by power times time. */
  lemma {:induction false} RunningGrows(s: State, from: int, to: int, k: nat)
    requires Sound(s) && k <= |s.currentStates|
    ensures RunningTo(s, to, k) == RunningTo(s, from, k) + PowerTo(s, k) * (to - from)
  {
    if k > 0 {
      RunningGrows(s, from, to, k - 1);
      var th, t := s.config.thresholds[k - 1], s.timestamps[k - 1];
      Distribute(PowerTo(s, k - 1), th, to - from, to - t, from - t);
    }
  }

  lemma Distribute(p: int, th: int, d: int, x: int, y: int)
    requires x == y + d
    ensures (p + th) * d == p * d + th * d && x * th == y * th + th * d
  {
  }

  /** What phase `i` contributes while it is on. */
  function Share(s: State, ts: int, i: nat): int
    requires Sound(s) && i < |s.currentStates|
  {
    (ts - s.timestamps[i]) * s.config.thresholds[i]
  }

  /** States that differ only in phase `i` differ in running energy by what that phase contributes. */
  lemma {:induction false} OnePhaseChanged(s: State, r: State, ts: int, i: nat, k: nat)
    requires Sound(s) && Sound(r) && r.config == s.config && i < |s.currentStates| && k <= |s.currentStates|
    requires forall j :: 0 <= j < |s.currentStates| && j != i ==>
               r.currentStates[j] == s.currentStates[j] && r.timestamps[j] == s.timestamps[j]
    ensures RunningTo(r, ts, k) - RunningTo(s, ts, k)
         == if i < k
            then (if r.currentStates[i] then Share(r, ts, i) else 0)
                 - (if s.currentStates[i] then Share(s, ts, i) else 0)
            else 0
  {
    if k > 0 {
      OnePhaseChanged(s, r, ts, i, k - 1);
    }
  }

  /** Whether a step keeps the books: the commanded state agrees, or the phase has nothing to account for. */
  predicate BooksAgree(s: State, step: Step, ts: int)
    requires Sound(s)
  {
    match step
    case Keep => true
    case Down => s.currentStates[s.nextStepDownPhase] || Share(s, ts, s.nextStepDownPhase) == 0
    case Up => !s.currentStates[s.nextStepUpPhase] || Share(s, ts, s.nextStepUpPhase) == 0
  }

  /** At the moment of a step the total energy is unchanged if and only if the books agree. */
  lemma StepKeepsEnergyIff(s: State, step: Step, ts: int)
    requires Sound(s)
    ensures Energy(Stepped(s, step, ts), ts) == Energy(s, ts) <==> BooksAgree(s, step, ts)
  {
    hide Energy, Share;
    match step {
      case Keep =>
      case Down => DownBooks(s, ts);
      case Up => UpBooks(s, ts);
    }
  }

  /** A step down moves the share of its phase from running to delivered. */
  lemma DownBooks(s: State, ts: int)
    requires Sound(s)
    ensures var i := s.nextStepDownPhase;
            Energy(Stepped(s, Down, ts), ts) == Energy(s, ts) + if s.currentStates[i] then 0 else Share(s, ts, i)
  {
    hide RunningTo;
    OnePhaseChanged(s, Stepped(s, Down, ts), ts, s.nextStepDownPhase, |s.currentStates|);
  }

  /** A step up starts its phase afresh. */
  lemma UpBooks(s: State, ts: int)
    requires Sound(s)
    ensures var i := s.nextStepUpPhase;
            Energy(Stepped(s, Up, ts), ts) == Energy(s, ts) - if s.currentStates[i] then Share(s, ts, i) else 0
  {
    hide RunningTo;
    OnePhaseChanged(s, Stepped(s, Up, ts), ts, s.nextStepUpPhase, |s.currentStates|);
  }

  lemma {:induction false} DayKeepsRunning(s: State, ts: int, at: int, k: nat)
    requires Sound(s) && k <= |s.currentStates|
    ensures RunningTo(NewDay(s, ts), at, k) == RunningTo(s, at, k)
  {
    if k > 0 {
      DayKeepsRunning(s, ts, at, k - 1);
    }
  }

  /**
   * Conservation: from one `adjust` to the next the energy grows by the power published before, times the
   * elapsed seconds; at a change of day it loses the delivered energy first; and it does so exactly when
   * the books agree.
   */
  lemma EnergyConserved(s: State, from: int, step: Step, to: int)
    requires Sound(s)
    ensures Energy(Adjusted(s, step, to), to)
         == Energy(s, from) + Power(s) * (to - from) - (if DayOf(to) == s.currentDay then 0 else s.deliveredEnergy)
        <==> BooksAgree(s, step, to)
  {
    var n := |s.currentStates|;
    RunningGrows(s, from, to, n);
    DayKeepsRunning(s, to, to, n);
    StepKeepsEnergyIff(NewDay(s, to), step, to);
  }

  /** Asking, and news from the inputs, do not touch what is accounted. */
  lemma {:induction false} AskingKeepsEnergy(s: State, env: Env, values: seq<bool>, now: int, ts: int, k: nat)
    requires Sound(s) && k <= |s.currentStates|
    ensures Sound(WantsUp(s, env).1) && Sound(OnInputs(s, values, now))
    ensures RunningTo(WantsUp(s, env).1, ts, k) == RunningTo(OnInputs(s, values, now), ts, k) == RunningTo(s, ts, k)
    ensures PowerTo(WantsUp(s, env).1, k) == PowerTo(OnInputs(s, values, now), k) == PowerTo(s, k)
  {
    if k > 0 {
      AskingKeepsEnergy(s, env, values, now, ts, k - 1);
    }
  }

  lemma {:induction false} PowerChanged(s: State, r: State, i: nat, k: nat)
    requires Sound(s) && Sound(r) && r.config == s.config && i < |s.currentStates| && k <= |s.currentStates|
    requires forall j :: 0 <= j < |s.currentStates| && j != i ==> r.currentStates[j] == s.currentStates[j]
    ensures PowerTo(r, k) - PowerTo(s, k)
         == if i < k && r.currentStates[i] != s.currentStates[i]
            then if r.currentStates[i] then s.config.thresholds[i] else -s.config.thresholds[i]
            else 0
  {
    if k > 0 {
      PowerChanged(s, r, i, k - 1);
    }
  }

  /** An Up adds the power of the phase it switches on, a Down takes off that of the phase it switches off. */
  lemma PowerAfterStep(s: State, step: Step, ts: int)
    requires Sound(s)
    ensures var up, down := s.nextStepUpPhase, s.nextStepDownPhase;
            Power(Adjusted(s, step, ts)) - Power(s)
            == if step == Up && !s.currentStates[up] then s.config.thresholds[up]
               else if step == Down && s.currentStates[down] then -s.config.thresholds[down]
               else 0
  {
    hide DayOf;
    var i := if step == Up then s.nextStepUpPhase else s.nextStepDownPhase;
    PowerChanged(s, Adjusted(s, step, ts), i, |s.currentStates|);
  }

  /** With all phases off there is no power and only delivered energy. */
  lemma {:induction false} AllOff(s: State, ts: int, k: nat)
    requires Sound(s) && k <= |s.currentStates| && forall i :: 0 <= i < k ==> !s.currentStates[i]
    ensures PowerTo(s, k) == 0 && RunningTo(s, ts, k) == 0
  {
    if k > 0 {
      AllOff(s, ts, k - 1);
    }
  }
}
