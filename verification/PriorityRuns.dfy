/** The power manager over the repository's changing list: strategies come and go, and priority decides who steps. */
module PriorityRuns {
  import opened Words
  import opened PowerManager
  import opened PowerManagerTheorems
  import opened Repository

  /** A sample of the site, news from a thing, and changes of the list. */
  datatype ListEvent<+S, +E, +X> =
    | Sampled(ts: int, e: E)
    | Told(thingId: string, x: X)
    | Added(thingId: string, priority: int, s: S)
    | Removed(thingId: string)

  datatype ListRun<S> = ListRun(lastStepTs: int, list: seq<Entry<S>>, changes: nat, steps: seq<StepAt>)

  /** A behaviour of strategies acts on list entries through the strategy inside. */
  function OnEntries<S, E>(b: Behaviour<S, E>): Behaviour<Entry<S>, E> {
    Behaviour(
      (l: Entry<S>, e: E) => var (wants, s) := b.down(l.strategy, e); (wants, l.(strategy := s)),
      (l: Entry<S>, e: E) => var (wants, s) := b.up(l.strategy, e); (wants, l.(strategy := s)),
      (l: Entry<S>, step: Step, e: E) => l.(strategy := b.adjust(l.strategy, step, e)))
  }

  function Tell<S, X>(list: seq<Entry<S>>, news: (S, X) -> S, thingId: string, x: X): (r: seq<Entry<S>>)
    ensures |r| == |list|
  {
    seq(|list|, i requires 0 <= i < |list| =>
      if list[i].thingId == thingId then list[i].(strategy := news(list[i].strategy, x)) else list[i])
  }

  function NextList<S, E, X>(b: Behaviour<S, E>, news: (S, X) -> S, r: ListRun<S>, ev: ListEvent<S, E, X>): ListRun<S> {
    match ev
    case Sampled(ts, e) =>
      var o := Tick(OnEntries(b), r.lastStepTs, r.list, ts, e);
      r.(lastStepTs := o.lastStepTs, list := o.states, steps := r.steps + StepsIn(o.log, ts))
    case Told(thingId, x) => r.(list := Tell(r.list, news, thingId, x))
    case Added(thingId, priority, s) =>
      r.(list := Sort(r.list + [Entry(thingId, priority, r.changes, s)]), changes := r.changes + 1)
    case Removed(thingId) => r.(list := Erase(r.list, thingId), changes := r.changes + 1)
  }

  function RunList<S, E, X>(
    b: Behaviour<S, E>, news: (S, X) -> S, start: int, events: seq<ListEvent<S, E, X>>): ListRun<S>
  {
    if events == [] then ListRun(start, [], 0, [])
    else NextList(b, news, RunList(b, news, start, events[..|events| - 1]), events[|events| - 1])
  }

  // ---- The list as the repository has it ---------------------------------------------------

  /** An entry without the state of its strategy. */
  function Key<S>(l: Entry<S>): Entry<()> {
    Entry(l.thingId, l.priority, l.stamp, ())
  }

  function Keys<S>(list: seq<Entry<S>>): (r: seq<Entry<()>>)
    ensures |r| == |list|
  {
    seq(|list|, i requires 0 <= i < |list| => Key(list[i]))
  }

  function ChangesOf<S, E, X>(events: seq<ListEvent<S, E, X>>): seq<Change<()>> {
    if events == [] then []
    else
      var before := ChangesOf(events[..|events| - 1]);
      match events[|events| - 1]
      case Added(thingId, priority, _) => before + [Add(thingId, priority, ())]
      case Removed(thingId) => before + [Remove(thingId)]
      case _ => before
  }

  lemma KeysSnoc<S>(list: seq<Entry<S>>, l: Entry<S>)
    ensures Keys(list + [l]) == Keys(list) + [Key(l)]
  {
  }

  lemma {:induction false} KeysInsert<S(!new)>(list: seq<Entry<S>>, l: Entry<S>)
    ensures Keys(Insert(list, l)) == Insert(Keys(list), Key(l))
  {
    hide Keys;
    if list == [] || list[|list| - 1].priority >= l.priority {
      KeysSnoc(list, l);
      KeysAt(list);
    } else {
      var n := |list| - 1;
      KeysAt(list);
      KeysInsert(list[..n], l);
      KeysSnoc(Insert(list[..n], l), list[n]);
    }
  }

  lemma KeysAt<S>(list: seq<Entry<S>>)
    ensures list != [] ==>
              var n := |list| - 1; Keys(list)[n] == Key(list[n]) && Keys(list)[..n] == Keys(list[..n])
  {
  }

  lemma {:induction false} KeysSort<S(!new)>(list: seq<Entry<S>>)
    ensures Keys(Sort(list)) == Sort(Keys(list))
  {
    hide Insert;
    if list != [] {
      var n := |list| - 1;
      KeysAt(list);
      KeysSort(list[..n]);
      KeysInsert(Sort(list[..n]), list[n]);
    }
  }

  lemma {:induction false} KeysErase<S(!new)>(list: seq<Entry<S>>, thingId: string)
    ensures Keys(Erase(list, thingId)) == Erase(Keys(list), thingId)
  {
    hide Keys;
    if list == [] {
      NoKeys<S>();
    } else {
      var n := |list| - 1;
      KeysAt(list);
      KeysErase(list[..n], thingId);
      KeysSnoc(Erase(list[..n], thingId), list[n]);
    }
  }

  lemma NoKeys<S>()
    ensures Keys<S>([]) == []
  {
  }

  /** Samples leave the list in place, entry by entry. */
  lemma SampleKeepsKeys<S(!new), E(!new)>(b: Behaviour<S, E>, last: int, list: seq<Entry<S>>, ts: int, e: E)
    ensures Keys(Tick(OnEntries(b), last, list, ts, e).states) == Keys(list)
  {
    hide Tick;
    var d := TickMeaning(OnEntries(b), last, list, ts, e);
    forall j | 0 <= j < |list| ensures Key(Tick(OnEntries(b), last, list, ts, e).states[j]) == Key(list[j]) {
      FinalKeepsKey(b, list[j], e, d, j);
    }
  }

  lemma FinalKeepsKey<S, E>(b: Behaviour<S, E>, l: Entry<S>, e: E, d: Decision, j: nat)
    ensures Key(FinalState(OnEntries(b), l, e, d, j)) == Key(l)
  {
  }

  /** Whatever is sampled and told in between, the list is the repository's. */
  lemma {:induction false} ListIsRepository<S(!new), E(!new), X(!new)>(
    b: Behaviour<S, E>, news: (S, X) -> S, start: int, events: seq<ListEvent<S, E, X>>)
    ensures var r := RunList(b, news, start, events);
            Keys(r.list) == After(ChangesOf(events)) && r.changes == |ChangesOf(events)|
  {
    hide Tick, Sort, Erase, Keys, OnEntries;
    if events == [] {
      NoKeys<S>();
    } else {
      var n := |events| - 1;
      var r, changes := RunList(b, news, start, events[..n]), ChangesOf(events[..n]);
      ListIsRepository(b, news, start, events[..n]);
      match events[n] {
        case Sampled(ts, e) => SampleKeepsKeys(b, r.lastStepTs, r.list, ts, e);
        case Told(thingId, x) => TellKeepsKeys(r.list, news, thingId, x);
        case Added(thingId, priority, s) =>
          var l := Entry(thingId, priority, r.changes, s);
          KeysSort(r.list + [l]);
          KeysSnoc(r.list, l);
          var change: Change<()> := Add(thingId, priority, ());
          assert (changes + [change])[..|changes|] == changes;
        case Removed(thingId) =>
          KeysErase(r.list, thingId);
          var change: Change<()> := Remove(thingId);
          assert (changes + [change])[..|changes|] == changes;
      }
    }
  }

  lemma TellKeepsKeys<S, X>(list: seq<Entry<S>>, news: (S, X) -> S, thingId: string, x: X)
    ensures Keys(Tell(list, news, thingId, x)) == Keys(list)
  {
  }

  lemma ArrangedByKeys<S(!new)>(list: seq<Entry<S>>)
    requires Arranged(Keys(list))
    ensures Arranged(list)
  {
    forall i, j | 0 <= i < j < |list| ensures Before(list[i], list[j]) {
      assert Before(Keys(list)[i], Keys(list)[j]);
    }
  }

  // ---- Priority decides --------------------------------------------------------------------

  ghost predicate WillingDown<S, E>(b: Behaviour<S, E>, l: Entry<S>, e: E) {
    b.down(l.strategy, e).0
  }

  ghost predicate WillingUp<S, E>(b: Behaviour<S, E>, l: Entry<S>, e: E) {
    b.up(b.down(l.strategy, e).1, e).0
  }

  /**
   * Arbitration by priority: a step down goes to the willing strategy of least priority, the latest among equals; only
   * if none is willing does a step up go to the willing one of greatest priority, the earliest among equals; each only
   * when its debounce time of 120 s or 180 s has passed, and then some willing strategy does step.
   */
  ghost predicate DecidedByPriority<S, E>(
    b: Behaviour<S, E>, last: int, list: seq<Entry<S>>, ts: int, e: E, d: Decision)
  {
    && (d.StepDown? ==>
          && ts >= last + 120 && d.who < |list| && WillingDown(b, list[d.who], e)
          && forall j :: 0 <= j < |list| && j != d.who && WillingDown(b, list[j], e) ==> Before(list[j], list[d.who]))
    && (d.StepUp? ==>
          && ts >= last + 180 && d.who < |list| && WillingUp(b, list[d.who], e)
          && (forall j :: 0 <= j < |list| ==> !WillingDown(b, list[j], e))
          && forall j :: 0 <= j < |list| && j != d.who && WillingUp(b, list[j], e) ==> Before(list[d.who], list[j]))
    && (d.NoStep? && ts >= last + 120 ==>
          forall j :: 0 <= j < |list| ==> !WillingDown(b, list[j], e))
    && (d.NoStep? && ts >= last + 180 ==>
          forall j :: 0 <= j < |list| ==> !WillingUp(b, list[j], e))
  }

  lemma ArrangedDecides<S(!new), E(!new)>(
    b: Behaviour<S, E>, last: int, list: seq<Entry<S>>, ts: int, e: E, d: Decision)
    requires Arranged(list) && Arbitrated(OnEntries(b), last, list, ts, e, d)
    ensures DecidedByPriority(b, last, list, ts, e, d)
  {
    forall l: Entry<S>
      ensures WantsDown(OnEntries(b), l, e) == WillingDown(b, l, e) && WantsUp(OnEntries(b), l, e) == WillingUp(b, l, e)
    {
    }
    hide OnEntries, WantsDown, WantsUp, WillingDown, WillingUp, Before;
    assert forall i, j :: 0 <= i < j < |list| ==> Before(list[i], list[j]);
  }

  /** What a decision makes of an entry is what it makes of the strategy inside. */
  lemma FinalEntry<S, E>(b: Behaviour<S, E>, l: Entry<S>, e: E, d: Decision, j: nat)
    ensures FinalState(OnEntries(b), l, e, d, j) == l.(strategy := FinalState(b, l.strategy, e, d, j))
  {
  }

  /**
   * At every sample of every run of changes, news and samples, the decision follows the priorities of the strategies
   * listed at that moment, and all entries end in the state that the decision implies.
   */
  lemma PriorityDecides<S(!new), E(!new), X(!new)>(
    b: Behaviour<S, E>, news: (S, X) -> S, start: int, events: seq<ListEvent<S, E, X>>, ts: int, e: E)
    returns (d: Decision)
    ensures var r := RunList(b, news, start, events);
            && Arranged(r.list)
            && DecidedByPriority(b, r.lastStepTs, r.list, ts, e, d)
            && var o := Tick(OnEntries(b), r.lastStepTs, r.list, ts, e);
               && o.log == LogOf(|r.list|, d)
               && |o.states| == |r.list|
               && forall j :: 0 <= j < |r.list| ==>
                    o.states[j] == r.list[j].(strategy := FinalState(b, r.list[j].strategy, e, d, j))
  {
    hide Tick, Arranged, DecidedByPriority, LogOf, FinalState, OnEntries, Arbitrated;
    var r := RunList(b, news, start, events);
    ListIsRepository(b, news, start, events);
    RepositoryRun(ChangesOf(events));
    ArrangedByKeys(r.list);
    d := TickMeaning(OnEntries(b), r.lastStepTs, r.list, ts, e);
    ArrangedDecides(b, r.lastStepTs, r.list, ts, e, d);
    forall j | 0 <= j < |r.list|
      ensures FinalState(OnEntries(b), r.list[j], e, d, j)
           == r.list[j].(strategy := FinalState(b, r.list[j].strategy, e, d, j))
    {
      FinalEntry(b, r.list[j], e, d, j);
    }
  }

  /** News reaches every strategy of its thing and no other, and leaves the list in place. */
  lemma NewsReachesItsThing<S, E, X>(
    b: Behaviour<S, E>, news: (S, X) -> S, start: int, events: seq<ListEvent<S, E, X>>, thingId: string, x: X)
    ensures var list := RunList(b, news, start, events).list;
            var told := RunList(b, news, start, events + [Told(thingId, x)]).list;
            && |told| == |list|
            && forall i :: 0 <= i < |list| ==>
                 && told[i] == list[i].(strategy := told[i].strategy)
                 && (list[i].thingId == thingId ==> told[i].strategy == news(list[i].strategy, x))
                 && (list[i].thingId != thingId ==> told[i].strategy == list[i].strategy)
  {
    assert (events + [Told(thingId, x)])[..|events|] == events;
  }

  // ---- Debounce and invariants -------------------------------------------------------------

  /** Steps keep their distance however the list changes in between. */
  lemma {:induction false} ListRunDebounced<S, E, X>(
    b: Behaviour<S, E>, news: (S, X) -> S, start: int, events: seq<ListEvent<S, E, X>>)
    ensures var r := RunList(b, news, start, events);
            Debounced(r.steps, start) && r.lastStepTs == LastStep(r.steps, start)
  {
    hide Tick, Debounced, StepsIn, Arbitrated, Sort, Erase, OnEntries;
    if events == [] {
      NothingYet(start);
    } else {
      var n := |events| - 1;
      var r := RunList(b, news, start, events[..n]);
      ListRunDebounced(b, news, start, events[..n]);
      match events[n] {
        case Sampled(ts, e) =>
          var d := StepsOfTick(OnEntries(b), r.lastStepTs, r.list, ts, e);
          assert r.steps + [] == r.steps;
          if d != NoStep {
            DecisionWaits(OnEntries(b), r.lastStepTs, r.list, ts, e, d);
            AppendStep(r.steps, start, StepAt(ts, if d.StepDown? then Down else Up, d.who));
          }
        case _ =>
      }
    }
  }

  lemma ListRunWaits<S, E, X>(
    b: Behaviour<S, E>, news: (S, X) -> S, start: int, events: seq<ListEvent<S, E, X>>, k: nat)
    requires k < |RunList(b, news, start, events).steps|
    ensures var steps := RunList(b, news, start, events).steps;
            var before := if k == 0 then start else steps[k - 1].ts;
            && (steps[k].step == Up ==> steps[k].ts >= before + 180)
            && (steps[k].step == Down ==> steps[k].ts >= before + 120)
  {
    hide RunList, Debounced;
    ListRunDebounced(b, news, start, events);
    StepsWait(RunList(b, news, start, events).steps, start, k);
  }

  ghost predicate AllHold<S>(list: seq<Entry<S>>, inv: S -> bool) {
    forall l | l in list :: inv(l.strategy)
  }

  /** Added strategies satisfy `inv`, and steps asked for once the debounce time has passed keep it. */
  ghost predicate SafeList<S, E, X>(
    b: Behaviour<S, E>, news: (S, X) -> S, inv: S -> bool, start: int, events: seq<ListEvent<S, E, X>>)
  {
    events != [] ==>
      var earlier, ev := events[..|events| - 1], events[|events| - 1];
      var r := RunList(b, news, start, earlier);
      && SafeList(b, news, inv, start, earlier)
      && (ev.Added? ==> inv(ev.s))
      && (ev.Sampled? && ev.ts >= r.lastStepTs + STEP_DOWN_DEBOUNCE_SECONDS ==>
            forall l | l in r.list :: StepsSafely(b, inv, l.strategy, ev.e))
  }

  lemma SampleHolds<S(!new), E(!new)>(b: Behaviour<S, E>, inv: S -> bool, last: int, list: seq<Entry<S>>, ts: int, e: E)
    requires Guarded(b, inv) && AllHold(list, inv)
    requires ts >= last + STEP_DOWN_DEBOUNCE_SECONDS ==> forall l | l in list :: StepsSafely(b, inv, l.strategy, e)
    ensures AllHold(Tick(OnEntries(b), last, list, ts, e).states, inv)
  {
    hide Tick;
    var inside := (l: Entry<S>) => inv(l.strategy);
    GuardedInside(b, inv, inside);
    assert AllStepSafely(OnEntries(b), inside, last, list, ts, e) by {
      if ts >= last + STEP_DOWN_DEBOUNCE_SECONDS {
        forall j | 0 <= j < |list| ensures StepsSafely(OnEntries(b), inside, list[j], e) {
          assert list[j] in list;
          SafeInside(b, inv, inside, list[j], e);
        }
      }
    }
    TickKeeps(OnEntries(b), inside, last, list, ts, e);
  }

  lemma GuardedInside<S(!new), E(!new)>(b: Behaviour<S, E>, inv: S -> bool, inside: Entry<S> -> bool)
    requires Guarded(b, inv) && forall l :: inside(l) == inv(l.strategy)
    ensures Guarded(OnEntries(b), inside)
  {
  }

  lemma SafeInside<S(!new), E>(b: Behaviour<S, E>, inv: S -> bool, inside: Entry<S> -> bool, l: Entry<S>, e: E)
    requires StepsSafely(b, inv, l.strategy, e) && forall x :: inside(x) == inv(x.strategy)
    ensures StepsSafely(OnEntries(b), inside, l, e)
  {
  }

  /** What the calls of a strategy preserve holds of every listed strategy, through all changes of the list. */
  lemma {:induction false} ListRunKeeps<S(!new), E(!new), X(!new)>(
    b: Behaviour<S, E>, news: (S, X) -> S, inv: S -> bool, start: int, events: seq<ListEvent<S, E, X>>)
    requires Guarded(b, inv) && (forall s, x :: inv(s) ==> inv(news(s, x))) && SafeList(b, news, inv, start, events)
    ensures AllHold(RunList(b, news, start, events).list, inv)
  {
    hide Tick, Sort, Erase, Guarded, StepsSafely, OnEntries;
    if events != [] {
      var n := |events| - 1;
      var r := RunList(b, news, start, events[..n]);
      ListRunKeeps(b, news, inv, start, events[..n]);
      match events[n] {
        case Sampled(ts, e) => SampleHolds(b, inv, r.lastStepTs, r.list, ts, e);
        case Told(thingId, x) =>
          assert forall i :: 0 <= i < |r.list| ==> r.list[i] in r.list;
        case Added(thingId, priority, s) =>
          SortMembers(r.list + [Entry(thingId, priority, r.changes, s)]);
        case Removed(thingId) => EraseMembers(r.list, thingId);
      }
    }
  }

  lemma {:induction false} SortMembers<S(!new)>(list: seq<Entry<S>>)
    ensures forall l :: l in Sort(list) <==> l in list
  {
    hide Insert;
    if list != [] {
      var n := |list| - 1;
      SortMembers(list[..n]);
      SortDescends(list[..n]);
      InsertDescends(Sort(list[..n]), list[n]);
      assert list == list[..n] + [list[n]];
    }
  }

  lemma {:induction false} EraseMembers<S(!new)>(list: seq<Entry<S>>, thingId: string)
    ensures forall l :: l in Erase(list, thingId) <==> l in list && l.thingId != thingId
  {
    if list != [] {
      EraseMembers(list[..|list| - 1], thingId);
      assert list == list[..|list| - 1] + [list[|list| - 1]];
    }
  }
}
