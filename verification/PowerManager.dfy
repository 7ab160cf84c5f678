/**
 * The power manager's reaction to one sample of the site, for arbitrary strategies. A strategy is a state of
 * type S with three operations; `wantsToStepDown` and `wantsToStepUp` may change the state as well.
 */
module PowerManager {
  import opened Words

  datatype Step = Keep | Down | Up

  const STEP_UP_DEBOUNCE_SECONDS := 180
  const STEP_DOWN_DEBOUNCE_SECONDS := 120

  datatype Behaviour<!S, !E> = Behaviour(
    down: (S, E) -> (bool, S),
    up: (S, E) -> (bool, S),
    adjust: (S, Step, E) -> S)

  /** An `adjust` call: which strategy, which step. */
  datatype Adjust = Adjust(target: nat, step: Step)

  datatype Scan<S> = Scan(states: seq<S>, hit: Option<nat>)

  /** The list of strategies by position, and the list without its element at `k`. */
  function Order(n: nat): seq<nat> {
    seq(n, i => i)
  }

  function Without<T>(s: seq<T>, k: nat): seq<T>
    requires k < |s|
  {
    s[..k] + s[k + 1..]
  }

  ghost predicate Indexes(order: seq<nat>, n: nat) {
    forall k :: 0 <= k < |order| ==> order[k] < n
  }

  /** Asks the first `k` strategies from the last one backwards, until one may and wants to step down. */
  function ScanDown<S, E>(b: Behaviour<S, E>, states: seq<S>, e: E, k: nat, open: bool): (r: Scan<S>)
    requires k <= |states|
    ensures |r.states| == |states| && (r.hit.Some? ==> r.hit.value < k)
    decreases k
  {
    if k == 0 then Scan(states, None)
    else
      var (willing, s) := b.down(states[k - 1], e);
      var asked := states[k - 1 := s];
      if willing && open then Scan(asked, Some(k - 1)) else ScanDown(b, asked, e, k - 1, open)
  }

  /** Asks the listed strategies from position `k` on, until one may and wants to step up. */
  function ScanUp<S, E>(b: Behaviour<S, E>, states: seq<S>, e: E, order: seq<nat>, k: nat, open: bool): (r: Scan<S>)
    requires k <= |order| && Indexes(order, |states|)
    ensures |r.states| == |states| && (r.hit.Some? ==> r.hit.value < |order|)
    decreases |order| - k
  {
    if k == |order| then Scan(states, None)
    else
      var (willing, s) := b.up(states[order[k]], e);
      var asked := states[order[k] := s];
      if willing && open then Scan(asked, Some(k)) else ScanUp(b, asked, e, order, k + 1, open)
  }

  function KeepAll<S, E>(b: Behaviour<S, E>, states: seq<S>, e: E, order: seq<nat>): (r: seq<S>)
    requires Indexes(order, |states|)
    ensures |r| == |states|
  {
    if order == [] then states
    else
      var before := KeepAll(b, states, e, order[..|order| - 1]);
      var i := order[|order| - 1];
      before[i := b.adjust(before[i], Keep, e)]
  }

  function Keeps(order: seq<nat>): (r: seq<Adjust>)
    ensures |r| == |order|
  {
    seq(|order|, k requires 0 <= k < |order| => Adjust(order[k], Keep))
  }

  datatype Outcome<S> = Outcome(lastStepTs: int, states: seq<S>, log: seq<Adjust>)

  function DownPhase<S, E>(b: Behaviour<S, E>, lastStepTs: int, states: seq<S>, ts: int, e: E)
    : (r: (Outcome<S>, seq<nat>))
    ensures |r.0.states| == |states| && Indexes(r.1, |states|)
  {
    var d := ScanDown(b, states, e, |states|, ts >= lastStepTs + STEP_DOWN_DEBOUNCE_SECONDS);
    match d.hit
    case None => (Outcome(lastStepTs, d.states, []), Order(|states|))
    case Some(i) =>
      (Outcome(ts, d.states[i := b.adjust(d.states[i], Down, e)], [Adjust(i, Down)]), Without(Order(|states|), i))
  }

  function UpPhase<S, E>(b: Behaviour<S, E>, o: Outcome<S>, order: seq<nat>, ts: int, e: E): (r: (Outcome<S>, seq<nat>))
    requires Indexes(order, |o.states|)
    ensures |r.0.states| == |o.states| && Indexes(r.1, |o.states|)
  {
    var u := ScanUp(b, o.states, e, order, 0, ts >= o.lastStepTs + STEP_UP_DEBOUNCE_SECONDS);
    match u.hit
    case None => (Outcome(o.lastStepTs, u.states, o.log), order)
    case Some(k) =>
      var i := order[k];
      (Outcome(ts, u.states[i := b.adjust(u.states[i], Up, e)], o.log + [Adjust(i, Up)]), Without(order, k))
  }

  function Tick<S, E>(b: Behaviour<S, E>, lastStepTs: int, states: seq<S>, ts: int, e: E): (r: Outcome<S>)
    ensures |r.states| == |states|
  {
    var (d, order) := DownPhase(b, lastStepTs, states, ts, e);
    var (u, rest) := UpPhase(b, d, order, ts, e);
    Outcome(u.lastStepTs, KeepAll(b, u.states, e, rest), u.log + Keeps(rest))
  }

  class PowerManager<S, E> {
    const behaviour: Behaviour<S, E>
    var lastStepTs: int
    /** The strategies of the repository, in its order. */
    var strategies: seq<S>

    constructor (behaviour: Behaviour<S, E>, strategies: seq<S>)
      ensures this.behaviour == behaviour && this.strategies == strategies && lastStepTs == 0
    {
      this.behaviour := behaviour;
      this.strategies := strategies;
      lastStepTs := 0;
    }

    method StepDown(order: seq<nat>, ts: int, e: E) returns (order': seq<nat>, log: seq<Adjust>)
      requires order == Order(|strategies|)
      modifies this
      ensures (Outcome(lastStepTs, strategies, log), order')
           == DownPhase(behaviour, old(lastStepTs), old(strategies), ts, e)
      ensures lastStepTs == if log == [] then old(lastStepTs) else ts
      ensures forall a | a in log :: a.step == Down && ts >= old(lastStepTs) + 120
    {
      order', log := order, [];
      var k := |order|;
      ghost var open := ts >= lastStepTs + STEP_DOWN_DEBOUNCE_SECONDS;
      while k > 0
        invariant 0 <= k <= |order| == |strategies| && lastStepTs == old(lastStepTs)
        invariant ScanDown(behaviour, strategies, e, k, open)
               == ScanDown(behaviour, old(strategies), e, |old(strategies)|, open)
      {
        k := k - 1;
        var i := order[k];
        var (willing, s) := behaviour.down(strategies[i], e);
        strategies := strategies[i := s];
        if willing && ts >= lastStepTs + STEP_DOWN_DEBOUNCE_SECONDS {
          lastStepTs := ts;
          strategies := strategies[i := behaviour.adjust(strategies[i], Down, e)];
          log := [Adjust(i, Down)];
          order' := order[..k] + order[k + 1..];
          return;
        }
      }
    }

    method StepUp(order: seq<nat>, log: seq<Adjust>, ts: int, e: E) returns (order': seq<nat>, log': seq<Adjust>)
      requires Indexes(order, |strategies|)
      modifies this
      ensures (Outcome(lastStepTs, strategies, log'), order')
           == UpPhase(behaviour, Outcome(old(lastStepTs), old(strategies), log), order, ts, e)
      ensures forall a | a in log' :: a in log || (a.step == Up && ts >= old(lastStepTs) + 180)
    {
      order', log' := order, log;
      var k := 0;
      ghost var open := ts >= lastStepTs + STEP_UP_DEBOUNCE_SECONDS;
      while k < |order|
        invariant k <= |order| && |strategies| == |old(strategies)| && lastStepTs == old(lastStepTs)
        invariant ScanUp(behaviour, strategies, e, order, k, open)
               == ScanUp(behaviour, old(strategies), e, order, 0, open)
      {
        var i := order[k];
        var (willing, s) := behaviour.up(strategies[i], e);
        strategies := strategies[i := s];
        if willing && ts >= lastStepTs + STEP_UP_DEBOUNCE_SECONDS {
          lastStepTs := ts;
          strategies := strategies[i := behaviour.adjust(strategies[i], Up, e)];
          log' := log + [Adjust(i, Up)];
          order' := order[..k] + order[k + 1..];
          return;
        }
        k := k + 1;
      }
    }

    method Modulate(order: seq<nat>, log: seq<Adjust>, e: E) returns (log': seq<Adjust>)
      requires Indexes(order, |strategies|)
      modifies this`strategies
      ensures strategies == KeepAll(behaviour, old(strategies), e, order) && log' == log + Keeps(order)
      ensures forall a | a in log' :: a in log || a.step == Keep
    {
      log' := log;
      for k := 0 to |order|
        invariant |strategies| == |old(strategies)|
        invariant strategies == KeepAll(behaviour, old(strategies), e, order[..k])
        invariant log' == log + Keeps(order[..k])
      {
        assert order[..k + 1][..k] == order[..k];
        var i := order[k];
        strategies := strategies[i := behaviour.adjust(strategies[i], Keep, e)];
        log' := log' + [Adjust(i, Keep)];
      }
      assert order[..|order|] == order;
    }

    /** One sample of the site: a scan for a step down, a scan for a step up, and the rest modulate. */
    method OnSiteProperties(ts: int, e: E) returns (log: seq<Adjust>)
      modifies this
      ensures Outcome(lastStepTs, strategies, log) == Tick(behaviour, old(lastStepTs), old(strategies), ts, e)
      ensures forall a | a in log :: a.step != Keep ==> ts >= old(lastStepTs) + if a.step == Down then 120 else 180
    {
      hide DownPhase, UpPhase, KeepAll;
      var order := Order(|strategies|);
      order, log := StepDown(order, ts, e);
      order, log := StepUp(order, log, ts, e);
      log := Modulate(order, log, e);
    }
  }
}
