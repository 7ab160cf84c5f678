/** The relays, chargers and rules of the system under the repository's changing list. */
module SystemRuns {
  import opened PowerManager
  import opened PowerManagerTheorems
  import opened Repository
  import opened PriorityRuns
  import opened PowerSystem

  type SystemEvent = ListEvent<Strategy, SiteEnv, Message>

  /** Strategies are added in good state, and reports can be relied on whenever a step is due. */
  ghost predicate TrustedList(start: int, events: seq<SystemEvent>) {
    events != [] ==>
      var earlier, ev := events[..|events| - 1], events[|events| - 1];
      var r := RunList(STRATEGIES, Hear, start, earlier);
      && TrustedList(start, earlier)
      && (ev.Added? ==> Good(ev.s))
      && (ev.Sampled? && ev.ts >= r.lastStepTs + STEP_DOWN_DEBOUNCE_SECONDS ==>
            forall l | l in r.list :: Trusted(l.strategy, ev.e))
  }

  /**
   * The whole system with strategies that come and go: over every run every listed relay keeps its circular order and
   * its phase limit and every listed charger its number of phases, and the list is the repository's, by priority.
   */
  lemma {:induction false} ListSystemRun(start: int, events: seq<SystemEvent>)
    requires TrustedList(start, events)
    ensures var r := RunList(STRATEGIES, Hear, start, events);
            && (forall l | l in r.list :: Good(l.strategy))
            && Arranged(r.list) && Keys(r.list) == After(ChangesOf(events))
    ensures SafeList(STRATEGIES, Hear, s => Good(s), start, events)
  {
    hide Good, Trusted, Tick, Arranged, Keys, After;
    GoodIsGuarded();
    if events != [] {
      ListSystemRun(start, events[..|events| - 1]);
    }
    ListRunKeeps(STRATEGIES, Hear, s => Good(s), start, events);
    ListIsRepository(STRATEGIES, Hear, start, events);
    RepositoryRun(ChangesOf(events));
    ArrangedByKeys(RunList(STRATEGIES, Hear, start, events).list);
  }
}
