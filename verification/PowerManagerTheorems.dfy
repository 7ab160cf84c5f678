/** What one sample does, and what every run of samples keeps, for arbitrary strategies. */
module PowerManagerTheorems {
  import opened Words
  import opened PowerManager
  import opened Spacing

  datatype Decision = NoStep | StepDown(who: nat) | StepUp(who: nat)

  predicate WantsDown<S, E>(b: Behaviour<S, E>, s: S, e: E) {
    b.down(s, e).0
  }

  /** Asked for a step up after having been asked for a step down. */
  predicate WantsUp<S, E>(b: Behaviour<S, E>, s: S, e: E) {
    b.up(b.down(s, e).1, e).0
  }

  /**
   * Arbitration: a step down goes to the last strategy of the list that wants one; only if there is none
   * does a step up go to the first that wants one; each only when its debounce time of 120 s or 180 s has passed.
   */
  ghost predicate Arbitrated<S, E>(b: Behaviour<S, E>, last: int, states: seq<S>, ts: int, e: E, d: Decision) {
    match d
    case StepDown(i) =>
      && ts >= last + 120 && i < |states| && WantsDown(b, states[i], e)
      && forall j :: i < j < |states| ==> !WantsDown(b, states[j], e)
    case StepUp(i) =>
      && ts >= last + 180 && i < |states| && WantsUp(b, states[i], e)
      && (forall j :: 0 <= j < i ==> !WantsUp(b, states[j], e))
      && (forall j :: 0 <= j < |states| ==> !WantsDown(b, states[j], e))
    case NoStep =>
      && (ts >= last + 120 ==> forall j :: 0 <= j < |states| ==> !WantsDown(b, states[j], e))
      && (ts >= last + 180 ==> forall j :: 0 <= j < |states| ==> !WantsUp(b, states[j], e))
  }

  /** The calls strategy `j` receives, in order. */
  function FinalState<S, E>(b: Behaviour<S, E>, s: S, e: E, d: Decision, j: nat): S {
    match d
    case NoStep => b.adjust(b.up(b.down(s, e).1, e).1, Keep, e)
    case StepDown(i) =>
      if j == i then b.adjust(b.down(s, e).1, Down, e)
      else if j > i then b.adjust(b.up(b.down(s, e).1, e).1, Keep, e)
      else b.adjust(b.up(s, e).1, Keep, e)
    case StepUp(i) =>
      if j == i then b.adjust(b.up(b.down(s, e).1, e).1, Up, e)
      else if j < i then b.adjust(b.up(b.down(s, e).1, e).1, Keep, e)
      else b.adjust(b.down(s, e).1, Keep, e)
  }

  function LogOf(n: nat, d: Decision): seq<Adjust> {
    match d
    case NoStep => Keeps(Order(n))
    case StepDown(i) => if i < n then [Adjust(i, Down)] + Keeps(Without(Order(n), i)) else []
    case StepUp(i) => if i < n then [Adjust(i, Up)] + Keeps(Without(Order(n), i)) else []
  }

  lemma {:induction false} ScanDownMeaning<S, E>(b: Behaviour<S, E>, states: seq<S>, e: E, k: nat, open: bool)
    requires k <= |states|
    ensures var r := ScanDown(b, states, e, k, open);
            var stop := if r.hit.Some? then r.hit.value else 0;
            && (forall j :: 0 <= j < |states| ==>
                  r.states[j] == if stop <= j < k then b.down(states[j], e).1 else states[j])
            && (match r.hit
                case Some(i) => open && WantsDown(b, states[i], e)
                                && forall j :: i < j < k ==> !WantsDown(b, states[j], e)
                case None => open ==> forall j :: 0 <= j < k ==> !WantsDown(b, states[j], e))
    decreases k
  {
    if k > 0 {
      var (willing, s) := b.down(states[k - 1], e);
      if !(willing && open) {
        ScanDownMeaning(b, states[k - 1 := s], e, k - 1, open);
      }
    }
  }

  ghost predicate Distinct(order: seq<nat>) {
    forall i, j :: 0 <= i < j < |order| ==> order[i] != order[j]
  }

  /** Position of the scan when it stops. */
  function Stop<S>(r: Scan<S>, order: seq<nat>): nat {
    if r.hit.Some? then r.hit.value + 1 else |order|
  }

  lemma {:induction false} ScanUpMeaning<S, E>(
    b: Behaviour<S, E>, states: seq<S>, e: E, order: seq<nat>, k: nat, open: bool)
    requires k <= |order| && Indexes(order, |states|) && Distinct(order)
    ensures var r := ScanUp(b, states, e, order, k, open);
            && (forall p :: k <= p < |order| ==>
                  r.states[order[p]] == if p < Stop(r, order) then b.up(states[order[p]], e).1 else states[order[p]])
            && (forall j :: 0 <= j < |states| && (forall p :: k <= p < |order| ==> order[p] != j) ==>
                  r.states[j] == states[j])
            && (match r.hit
                case Some(h) => k <= h && open && b.up(states[order[h]], e).0
                                && forall p :: k <= p < h ==> !b.up(states[order[p]], e).0
                case None => open ==> forall p :: k <= p < |order| ==> !b.up(states[order[p]], e).0)
    decreases |order| - k
  {
    if k < |order| {
      var (willing, s) := b.up(states[order[k]], e);
      if !(willing && open) {
        ScanUpMeaning(b, states[order[k] := s], e, order, k + 1, open);
      }
    }
  }

  lemma {:induction false} KeepAllMeaning<S, E>(b: Behaviour<S, E>, states: seq<S>, e: E, order: seq<nat>)
    requires Indexes(order, |states|) && Distinct(order)
    ensures var r := KeepAll(b, states, e, order);
            && (forall p :: 0 <= p < |order| ==> r[order[p]] == b.adjust(states[order[p]], Keep, e))
            && (forall j :: 0 <= j < |states| && j !in order ==> r[j] == states[j])
  {
    if order != [] {
      var n := |order| - 1;
      KeepAllMeaning(b, states, e, order[..n]);
      assert order[n] !in order[..n];
      assert forall p :: 0 <= p < n ==> order[..n][p] == order[p];
    }
  }

  /** Where strategy `j` stands once strategy `i` has left the list. */
  function Place(i: nat, j: nat): int {
    if j < i then j else j - 1
  }

  lemma OrderFacts(n: nat, i: nat)
    requires i < n
    ensures Distinct(Order(n)) && Distinct(Without(Order(n), i))
    ensures forall j: nat :: j < n && j != i ==> 0 <= Place(i, j) < n - 1 && Without(Order(n), i)[Place(i, j)] == j
    ensures i !in Without(Order(n), i)
  {
  }

  /** One sample: the decision follows the arbitration rule and every strategy receives exactly its calls. */
  lemma TickMeaning<S, E>(b: Behaviour<S, E>, last: int, states: seq<S>, ts: int, e: E) returns (d: Decision)
    ensures Arbitrated(b, last, states, ts, e, d)
    ensures var r := Tick(b, last, states, ts, e);
            && r.lastStepTs == (if d == NoStep then last else ts)
            && r.log == LogOf(|states|, d)
            && forall j :: 0 <= j < |states| ==> r.states[j] == FinalState(b, states[j], e, d, j)
  {
    var n := |states|;
    var open := ts >= last + STEP_DOWN_DEBOUNCE_SECONDS;
    var scan := ScanDown(b, states, e, n, open);
    ScanDownMeaning(b, states, e, n, open);
    if scan.hit.Some? {
      d := StepDown(scan.hit.value);
      TickAfterDown(b, last, states, ts, e, scan.hit.value);
    } else {
      d := TickWithoutDown(b, last, states, ts, e);
    }
  }

  lemma TickAfterDown<S, E>(b: Behaviour<S, E>, last: int, states: seq<S>, ts: int, e: E, i: nat)
    requires ScanDown(b, states, e, |states|, ts >= last + STEP_DOWN_DEBOUNCE_SECONDS).hit == Some(i)
    ensures i < |states|
    ensures var r := Tick(b, last, states, ts, e);
            && r.lastStepTs == ts && r.log == LogOf(|states|, StepDown(i))
            && forall j :: 0 <= j < |states| ==> r.states[j] == FinalState(b, states[j], e, StepDown(i), j)
  {
    var n := |states|;
    ScanDownMeaning(b, states, e, n, ts >= last + STEP_DOWN_DEBOUNCE_SECONDS);
    var (o, order) := DownPhase(b, last, states, ts, e);
    OrderFacts(n, i);
    ScanUpMeaning(b, o.states, e, order, 0, false);
    var (u, rest) := UpPhase(b, o, order, ts, e);
    KeepAllMeaning(b, u.states, e, rest);
    forall j | 0 <= j < n
      ensures Tick(b, last, states, ts, e).states[j] == FinalState(b, states[j], e, StepDown(i), j)
    {
      if j != i {
        assert order[Place(i, j)] == j;
      }
    }
  }

  lemma TickWithoutDown<S, E>(b: Behaviour<S, E>, last: int, states: seq<S>, ts: int, e: E) returns (d: Decision)
    requires ScanDown(b, states, e, |states|, ts >= last + STEP_DOWN_DEBOUNCE_SECONDS).hit == None
    ensures !d.StepDown? && Arbitrated(b, last, states, ts, e, d)
    ensures var r := Tick(b, last, states, ts, e);
            && r.lastStepTs == (if d == NoStep then last else ts) && r.log == LogOf(|states|, d)
            && forall j :: 0 <= j < |states| ==> r.states[j] == FinalState(b, states[j], e, d, j)
  {
    var asked := ScanDown(b, states, e, |states|, ts >= last + STEP_DOWN_DEBOUNCE_SECONDS).states;
    ScanDownMeaning(b, states, e, |states|, ts >= last + STEP_DOWN_DEBOUNCE_SECONDS);
    d := AfterAsking(b, last, states, asked, ts, e);
  }

  /** The second half of a sample in which nobody steps down: all have been asked. */
  lemma AfterAsking<S, E>(b: Behaviour<S, E>, last: int, states: seq<S>, asked: seq<S>, ts: int, e: E)
    returns (d: Decision)
    requires |asked| == |states| && forall j :: 0 <= j < |states| ==> asked[j] == b.down(states[j], e).1
    ensures !d.StepDown?
    ensures d.StepUp? ==>
              && ts >= last + STEP_UP_DEBOUNCE_SECONDS && d.who < |states| && WantsUp(b, states[d.who], e)
              && forall j :: 0 <= j < d.who ==> !WantsUp(b, states[j], e)
    ensures d.NoStep? && ts >= last + STEP_UP_DEBOUNCE_SECONDS ==>
              forall j :: 0 <= j < |states| ==> !WantsUp(b, states[j], e)
    ensures var phase := UpPhase(b, Outcome(last, asked, []), Order(|states|), ts, e);
            && phase.0.lastStepTs == (if d == NoStep then last else ts)
            && phase.0.log + Keeps(phase.1) == LogOf(|states|, d)
            && forall j :: 0 <= j < |states| ==>
                 KeepAll(b, phase.0.states, e, phase.1)[j] == FinalState(b, states[j], e, d, j)
  {
    hide ScanUp, KeepAll, LogOf, FinalState, WantsUp;
    var order := Order(|states|);
    var scan := ScanUp(b, asked, e, order, 0, ts >= last + STEP_UP_DEBOUNCE_SECONDS);
    d := AskUpwards(b, states, asked, e, ts >= last + STEP_UP_DEBOUNCE_SECONDS);
    var (u, rest) := UpPhase(b, Outcome(last, asked, []), order, ts, e);
    assert d.StepUp? ==> order[d.who] == d.who;
    ModulateAll(b, states, scan.states, u.states, e, rest, d);
  }

  lemma AskUpwards<S, E>(b: Behaviour<S, E>, states: seq<S>, asked: seq<S>, e: E, open: bool) returns (d: Decision)
    requires |asked| == |states| && forall j :: 0 <= j < |states| ==> asked[j] == b.down(states[j], e).1
    ensures var scan := ScanUp(b, asked, e, Order(|states|), 0, open);
            && d == (if scan.hit.Some? then StepUp(scan.hit.value) else NoStep)
            && (forall j :: 0 <= j < |states| ==>
                  scan.states[j] == if d.NoStep? || j <= d.who then b.up(b.down(states[j], e).1, e).1
                                    else b.down(states[j], e).1)
            && (d.StepUp? ==> open && WantsUp(b, states[d.who], e)
                              && forall j :: 0 <= j < d.who ==> !WantsUp(b, states[j], e))
            && (d.NoStep? ==> open ==> forall j :: 0 <= j < |states| ==> !WantsUp(b, states[j], e))
  {
    var order := Order(|states|);
    var scan := ScanUp(b, asked, e, order, 0, open);
    ScanUpMeaning(b, asked, e, order, 0, open);
    d := if scan.hit.Some? then StepUp(scan.hit.value) else NoStep;
    forall j | 0 <= j < |states|
      ensures scan.states[j] == if d.NoStep? || j <= d.who then b.up(b.down(states[j], e).1, e).1
                                else b.down(states[j], e).1
    {
      assert order[j] == j;
    }
    forall j | 0 <= j < |states| && open && (d.StepUp? ==> j < d.who) ensures !WantsUp(b, states[j], e) {
      assert order[j] == j && !b.up(asked[order[j]], e).0;
    }
  }

  lemma ModulateAll<S, E>(
    b: Behaviour<S, E>, states: seq<S>, scanned: seq<S>, stepped: seq<S>, e: E, rest: seq<nat>, d: Decision)
    requires |scanned| == |stepped| == |states| && !d.StepDown?
    requires d.StepUp? ==> d.who < |states| && rest == Without(Order(|states|), d.who)
                           && stepped == scanned[d.who := b.adjust(scanned[d.who], Up, e)]
    requires d.NoStep? ==> rest == Order(|states|) && stepped == scanned
    requires forall j :: 0 <= j < |states| ==>
               scanned[j] == if d.NoStep? || j <= d.who then b.up(b.down(states[j], e).1, e).1
                             else b.down(states[j], e).1
    ensures Indexes(rest, |states|)
    ensures (if d.StepUp? then [Adjust(d.who, Up)] else []) + Keeps(rest) == LogOf(|states|, d)
    ensures forall j :: 0 <= j < |states| ==> KeepAll(b, stepped, e, rest)[j] == FinalState(b, states[j], e, d, j)
  {
    var n := |states|;
    if d.StepUp? {
      OrderFacts(n, d.who);
    }
    assert Distinct(rest);
    KeepAllMeaning(b, stepped, e, rest);
    forall j | 0 <= j < n ensures KeepAll(b, stepped, e, rest)[j] == FinalState(b, states[j], e, d, j) {
      if d.NoStep? {
        assert rest[j] == j;
      } else if j != d.who {
        assert rest[Place(d.who, j)] == j;
      }
    }
  }

  // ---- Invariants over runs ----------------------------------------------------------------

  /** `inv` survives being asked, and being told to keep, at any time. */
  ghost predicate Guarded<S(!new), E(!new)>(b: Behaviour<S, E>, inv: S -> bool) {
    forall s, e :: inv(s) ==> inv(b.down(s, e).1) && inv(b.up(s, e).1) && inv(b.adjust(s, Keep, e))
  }

  /** `inv` survives the steps that the strategy asks for in this sample. */
  ghost predicate StepsSafely<S, E>(b: Behaviour<S, E>, inv: S -> bool, s: S, e: E) {
    && (WantsDown(b, s, e) ==> inv(b.adjust(b.down(s, e).1, Down, e)))
    && (WantsUp(b, s, e) ==> inv(b.adjust(b.up(b.down(s, e).1, e).1, Up, e)))
  }

  /** Steps matter only once the shorter debounce time has passed. */
  ghost predicate AllStepSafely<S, E>(b: Behaviour<S, E>, inv: S -> bool, last: int, states: seq<S>, ts: int, e: E) {
    ts >= last + STEP_DOWN_DEBOUNCE_SECONDS ==> forall j :: 0 <= j < |states| ==> StepsSafely(b, inv, states[j], e)
  }

  lemma TickKeeps<S(!new), E(!new)>(b: Behaviour<S, E>, inv: S -> bool, last: int, states: seq<S>, ts: int, e: E)
    requires Guarded(b, inv) && forall j :: 0 <= j < |states| ==> inv(states[j])
    requires AllStepSafely(b, inv, last, states, ts, e)
    ensures forall j :: 0 <= j < |states| ==> inv(Tick(b, last, states, ts, e).states[j])
  {
    hide Tick;
    var d := TickMeaning(b, last, states, ts, e);
    forall j | 0 <= j < |states| ensures inv(Tick(b, last, states, ts, e).states[j]) {
      var s := states[j];
      assert inv(b.down(s, e).1) && inv(b.up(b.down(s, e).1, e).1) && inv(b.up(s, e).1);
    }
  }

  /** What can happen: a sample of the site, or news from the thing behind one strategy. */
  datatype Event<+E, +X> = Sample(ts: int, e: E) | News(who: nat, x: X)

  datatype StepAt = StepAt(ts: int, step: Step, who: nat)

  datatype Run<S> = Run(lastStepTs: int, states: seq<S>, steps: seq<StepAt>)

  /** The steps among the adjust calls of one sample. */
  function StepsIn(log: seq<Adjust>, ts: int): seq<StepAt> {
    if log == [] then []
    else
      var before, a := StepsIn(log[..|log| - 1], ts), log[|log| - 1];
      if a.step == Keep then before else before + [StepAt(ts, a.step, a.target)]
  }

  function Next<S, E, X>(b: Behaviour<S, E>, news: (S, X) -> S, r: Run<S>, ev: Event<E, X>): Run<S> {
    match ev
    case Sample(ts, e) =>
      var o := Tick(b, r.lastStepTs, r.states, ts, e);
      Run(o.lastStepTs, o.states, r.steps + StepsIn(o.log, ts))
    case News(who, x) =>
      if who < |r.states| then r.(states := r.states[who := news(r.states[who], x)]) else r
  }

  function RunAll<S, E, X>(b: Behaviour<S, E>, news: (S, X) -> S, start: Run<S>, events: seq<Event<E, X>>): Run<S> {
    if events == [] then start
    else Next(b, news, RunAll(b, news, start, events[..|events| - 1]), events[|events| - 1])
  }

  /** Along the whole run, whenever the debounce time has passed the steps asked for keep `inv`. */
  ghost predicate SafeAlong<S, E, X>(
    b: Behaviour<S, E>, news: (S, X) -> S, inv: S -> bool, start: Run<S>, events: seq<Event<E, X>>)
  {
    events != [] ==>
      var earlier, ev := events[..|events| - 1], events[|events| - 1];
      var r := RunAll(b, news, start, earlier);
      && SafeAlong(b, news, inv, start, earlier)
      && (ev.Sample? ==> AllStepSafely(b, inv, r.lastStepTs, r.states, ev.ts, ev.e))
  }

  /** Every reachable state of every strategy satisfies what its calls preserve, as long as its steps are safe. */
  lemma {:induction false} RunKeeps<S(!new), E(!new), X(!new)>(
    b: Behaviour<S, E>, news: (S, X) -> S, inv: S -> bool, start: Run<S>, events: seq<Event<E, X>>)
    requires Guarded(b, inv) && (forall s, x :: inv(s) ==> inv(news(s, x)))
    requires SafeAlong(b, news, inv, start, events)
    requires forall j :: 0 <= j < |start.states| ==> inv(start.states[j])
    ensures var r := RunAll(b, news, start, events);
            |r.states| == |start.states| && forall j :: 0 <= j < |r.states| ==> inv(r.states[j])
  {
    hide Tick, AllStepSafely;
    if events != [] {
      var before := RunAll(b, news, start, events[..|events| - 1]);
      RunKeeps(b, news, inv, start, events[..|events| - 1]);
      match events[|events| - 1] {
        case Sample(ts, e) => TickKeeps(b, inv, before.lastStepTs, before.states, ts, e);
        case News(_, _) =>
      }
    }
  }

  lemma {:induction false} OnlyKeeps(order: seq<nat>, ts: int)
    ensures StepsIn(Keeps(order), ts) == []
  {
    if order != [] {
      OnlyKeeps(order[..|order| - 1], ts);
      assert Keeps(order)[..|order| - 1] == Keeps(order[..|order| - 1]);
    }
  }

  lemma {:induction false} StepThenKeeps(a: Adjust, order: seq<nat>, ts: int)
    requires a.step != Keep
    ensures StepsIn([a] + Keeps(order), ts) == [StepAt(ts, a.step, a.target)]
  {
    var log := [a] + Keeps(order);
    if order == [] {
      assert log == [a] && [a][..0] == [];
    } else {
      StepThenKeeps(a, order[..|order| - 1], ts);
      assert log[..|log| - 1] == [a] + Keeps(order[..|order| - 1]);
    }
  }

  function StepsOf(d: Decision, ts: int): seq<StepAt> {
    match d
    case NoStep => []
    case StepDown(i) => [StepAt(ts, Down, i)]
    case StepUp(i) => [StepAt(ts, Up, i)]
  }

  /** A sample causes at most one step in total. */
  lemma StepsOfTick<S, E>(b: Behaviour<S, E>, last: int, states: seq<S>, ts: int, e: E) returns (d: Decision)
    ensures Arbitrated(b, last, states, ts, e, d)
    ensures Tick(b, last, states, ts, e).lastStepTs == if d == NoStep then last else ts
    ensures StepsIn(Tick(b, last, states, ts, e).log, ts) == StepsOf(d, ts)
  {
    d := TickMeaning(b, last, states, ts, e);
    match d {
      case NoStep => OnlyKeeps(Order(|states|), ts);
      case StepDown(i) => StepThenKeeps(Adjust(i, Down), Without(Order(|states|), i), ts);
      case StepUp(i) => StepThenKeeps(Adjust(i, Up), Without(Order(|states|), i), ts);
    }
  }

  ghost predicate Adjusted(log: seq<Adjust>, j: nat) {
    exists k :: 0 <= k < |log| && log[k].target == j
  }

  /** On every sample each listed strategy receives exactly one `adjust`. */
  lemma OneAdjustEach<S, E>(b: Behaviour<S, E>, last: int, states: seq<S>, ts: int, e: E)
    ensures var log := Tick(b, last, states, ts, e).log;
            && |log| == |states|
            && (forall j :: 0 <= j < |states| ==> Adjusted(log, j))
            && (forall k, l :: 0 <= k < l < |log| ==> log[k].target != log[l].target)
  {
    var d := TickMeaning(b, last, states, ts, e);
    LogCovers(|states|, d);
  }

  lemma LogCovers(n: nat, d: Decision)
    requires d.NoStep? || d.who < n
    ensures var log := LogOf(n, d);
            && |log| == n
            && (forall j :: 0 <= j < n ==> Adjusted(log, j))
            && (forall k, l :: 0 <= k < l < n ==> log[k].target != log[l].target)
  {
    var log := LogOf(n, d);
    if d == NoStep {
      forall j | 0 <= j < n ensures Adjusted(log, j) {
        assert log[j].target == j;
      }
    } else {
      var i, rest := d.who, Without(Order(n), d.who);
      OrderFacts(n, i);
      assert log[0].target == i;
      assert forall k :: 0 < k < n ==> log[k].target == rest[k - 1];
      forall j | 0 <= j < n ensures Adjusted(log, j) {
        if j != i {
          assert rest[Place(i, j)] == j;
          assert log[Place(i, j) + 1].target == j;
        }
      }
    }
  }

  function WaitFor(step: Step): int {
    if step == Down then 120 else 180
  }

  lemma DecisionWaits<S, E>(b: Behaviour<S, E>, last: int, states: seq<S>, ts: int, e: E, d: Decision)
    requires Arbitrated(b, last, states, ts, e, d) && d != NoStep
    ensures ts >= last + WaitFor(if d.StepDown? then Down else Up)
  {
  }

  /** Time of the last step, or of whatever counts as the step before the first. */
  function LastStep(steps: seq<StepAt>, start: int): int {
    if steps == [] then start else steps[|steps| - 1].ts
  }

  /** Each step comes at least its debounce time after the one before. */
  ghost predicate Debounced(steps: seq<StepAt>, start: int) {
    steps != [] ==>
      var before, s := steps[..|steps| - 1], steps[|steps| - 1];
      LastStep(before, start) + WaitFor(s.step) <= s.ts && Debounced(before, start)
  }

  ghost predicate InStep<S>(r: Run<S>, start: int) {
    Debounced(r.steps, start) && r.lastStepTs == LastStep(r.steps, start)
  }

  lemma AppendStep(steps: seq<StepAt>, start: int, s: StepAt)
    requires Debounced(steps, start) && LastStep(steps, start) + WaitFor(s.step) <= s.ts
    ensures Debounced(steps + [s], start)
  {
    assert (steps + [s])[..|steps|] == steps;
  }

  lemma SampleInStep<S, E, X>(b: Behaviour<S, E>, news: (S, X) -> S, r: Run<S>, ts: int, e: E, start: int)
    requires InStep(r, start)
    ensures var r' := Next(b, news, r, Sample(ts, e)); InStep(r', start) && |r'.steps| <= |r.steps| + 1
  {
    hide Tick, StepsIn, Arbitrated, Debounced;
    var d := StepsOfTick(b, r.lastStepTs, r.states, ts, e);
    assert r.steps + [] == r.steps;
    if d != NoStep {
      DecisionWaits(b, r.lastStepTs, r.states, ts, e, d);
      AppendStep(r.steps, start, StepAt(ts, if d.StepDown? then Down else Up, d.who));
    }
  }

  /** In every run each Down comes at least 120 s and each Up at least 180 s after the step before it. */
  lemma {:induction false} RunDebounced<S, E, X>(
    b: Behaviour<S, E>, news: (S, X) -> S, start: Run<S>, events: seq<Event<E, X>>)
    requires start.steps == []
    ensures var r := RunAll(b, news, start, events);
            Debounced(r.steps, start.lastStepTs) && InStep(r, start.lastStepTs) && |r.steps| <= |events|
  {
    hide Tick, Debounced;
    if events == [] {
      assert Debounced([], start.lastStepTs) by { NothingYet(start.lastStepTs); }
    } else {
      var before := RunAll(b, news, start, events[..|events| - 1]);
      RunDebounced(b, news, start, events[..|events| - 1]);
      match events[|events| - 1] {
        case Sample(ts, e) => SampleInStep(b, news, before, ts, e, start.lastStepTs);
        case News(_, _) =>
      }
    }
  }

  /** Each step by itself: how long before it the step before it was taken. */
  lemma {:induction false} StepsWait(steps: seq<StepAt>, start: int, k: nat)
    requires Debounced(steps, start) && k < |steps|
    ensures steps[k].step == Up ==> LastStep(steps[..k], start) + 180 <= steps[k].ts
    ensures steps[k].step == Down ==> LastStep(steps[..k], start) + 120 <= steps[k].ts
  {
    var n := |steps| - 1;
    if k < n {
      StepsWait(steps[..n], start, k);
      assert steps[..n][..k] == steps[..k];
    }
  }

  /** In every run an Up comes at least 180 s and a Down at least 120 s after the step before it. */
  lemma RunWaits<S, E, X>(b: Behaviour<S, E>, news: (S, X) -> S, start: Run<S>, events: seq<Event<E, X>>, k: nat)
    requires start.steps == [] && k < |RunAll(b, news, start, events).steps|
    ensures var steps := RunAll(b, news, start, events).steps;
            var before := if k == 0 then start.lastStepTs else steps[k - 1].ts;
            && (steps[k].step == Up ==> steps[k].ts >= before + 180)
            && (steps[k].step == Down ==> steps[k].ts >= before + 120)
  {
    hide RunAll, Debounced;
    RunDebounced(b, news, start, events);
    StepsWait(RunAll(b, news, start, events).steps, start.lastStepTs, k);
  }

  ghost predicate SomeWantsDown<S, E>(b: Behaviour<S, E>, states: seq<S>, e: E) {
    exists j :: 0 <= j < |states| && WantsDown(b, states[j], e)
  }

  ghost predicate SomeWantsUp<S, E>(b: Behaviour<S, E>, states: seq<S>, e: E) {
    exists j :: 0 <= j < |states| && WantsUp(b, states[j], e)
  }

  /**
   * When a sample of a run causes a step: a Down if and only if some strategy wants one and the last step of the run
   * was at least 120 s ago; an Up if and only if none wants a Down, some wants an Up, and it was at least 180 s ago.
   * The step is taken by a strategy that wants it.
   */
  lemma SampleStepsIff<S, E, X>(
    b: Behaviour<S, E>, news: (S, X) -> S, start: Run<S>, events: seq<Event<E, X>>, ts: int, e: E)
    requires start.steps == []
    ensures var r, r' := RunAll(b, news, start, events), RunAll(b, news, start, events + [Sample(ts, e)]);
            var last := if r.steps == [] then start.lastStepTs else r.steps[|r.steps| - 1].ts;
            var down := SomeWantsDown(b, r.states, e) && ts >= last + 120;
            var up := !SomeWantsDown(b, r.states, e) && SomeWantsUp(b, r.states, e) && ts >= last + 180;
            && |r'.steps| == |r.steps| + (if down || up then 1 else 0)
            && r'.steps[..|r.steps|] == r.steps
            && (down || up ==>
                  var s := r'.steps[|r.steps|];
                  && s.ts == ts && s.step == (if down then Down else Up) && s.who < |r.states|
                  && if down then WantsDown(b, r.states[s.who], e) else WantsUp(b, r.states[s.who], e))
  {
    hide Tick, StepsIn, Debounced;
    RunDebounced(b, news, start, events);
    assert (events + [Sample(ts, e)])[..|events|] == events;
    var r := RunAll(b, news, start, events);
    var d := StepsOfTick(b, r.lastStepTs, r.states, ts, e);
  }

  lemma NothingYet(start: int)
    ensures Debounced([], start)
  {
  }

  function Times(steps: seq<StepAt>): (r: seq<int>)
    ensures |r| == |steps|
  {
    seq(|steps|, k requires 0 <= k < |steps| => steps[k].ts)
  }

  lemma {:induction false} DebouncedSpaced(steps: seq<StepAt>, start: int)
    requires Debounced(steps, start)
    ensures Spaced(Times(steps), 120)
  {
    if steps != [] {
      var n := |steps| - 1;
      DebouncedSpaced(steps[..n], start);
      assert Times(steps)[..n] == Times(steps[..n]);
      assert forall i :: 0 <= i < n ==> Times(steps)[i] == Times(steps[..n])[i];
    }
  }

  /** In every run, any window of W seconds holds at most W/120 + 1 steps of all strategies together. */
  lemma StepsInWindow<S, E, X>(
    b: Behaviour<S, E>, news: (S, X) -> S, start: Run<S>, events: seq<Event<E, X>>, from: int, to: int)
    requires start.steps == [] && from <= to
    ensures CountIn(Times(RunAll(b, news, start, events).steps), from, to) <= (to - from) / 120 + 1
  {
    RunDebounced(b, news, start, events);
    var steps := RunAll(b, news, start, events).steps;
    DebouncedSpaced(steps, start.lastStepTs);
    WindowBound(Times(steps), 120, from, to);
  }
}
