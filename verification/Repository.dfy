/** `StrategyRepository`: the list of strategies, sorted by priority. */
module Repository {
  /** A listed strategy and its state. Strategies are told apart by the moment they were added. */
  datatype Entry<+S> = Entry(thingId: string, priority: int, stamp: nat, strategy: S)

  /** The order of `std::list::sort` with the source's comparator, ties left in place. */
  predicate Before<S>(a: Entry<S>, b: Entry<S>) {
    a.priority > b.priority || (a.priority == b.priority && a.stamp < b.stamp)
  }

  ghost predicate Arranged<S>(s: seq<Entry<S>>) {
    forall i, j :: 0 <= i < j < |s| ==> Before(s[i], s[j])
  }

  /** Highest priority first. */
  ghost predicate Descending<S>(s: seq<Entry<S>>) {
    forall i, j :: 0 <= i < j < |s| ==> s[i].priority >= s[j].priority
  }

  /** The strategies of one priority, in their order. */
  function Having<S>(s: seq<Entry<S>>, priority: int): seq<Entry<S>> {
    if s == [] then []
    else
      var rest := Having(s[..|s| - 1], priority);
      if s[|s| - 1].priority == priority then rest + [s[|s| - 1]] else rest
  }

  /** Places a strategy behind all of the same or higher priority. */
  function Insert<S>(s: seq<Entry<S>>, e: Entry<S>): seq<Entry<S>> {
    if s == [] || s[|s| - 1].priority >= e.priority then s + [e]
    else Insert(s[..|s| - 1], e) + [s[|s| - 1]]
  }

  /** `std::list::sort` is stable, so its result is the one of inserting the strategies one after the other. */
  function Sort<S>(s: seq<Entry<S>>): seq<Entry<S>> {
    if s == [] then [] else Insert(Sort(s[..|s| - 1]), s[|s| - 1])
  }

  function Erase<S>(s: seq<Entry<S>>, thingId: string): seq<Entry<S>> {
    if s == [] then []
    else
      var rest := Erase(s[..|s| - 1], thingId);
      if s[|s| - 1].thingId == thingId then rest else rest + [s[|s| - 1]]
  }

  class StrategyRepository<S(!new)> {
    var strategies: seq<Entry<S>>

    constructor ()
      ensures strategies == []
    {
      strategies := [];
    }

    /** From whatever order, the list ends up by priority, the new strategy behind all others of its own. */
    method AddStrategy(strategy: Entry<S>)
      modifies this
      ensures strategies == Sort(old(strategies) + [strategy]) && Descending(strategies)
      ensures forall p :: Having(strategies, p)
                       == Having(old(strategies), p) + if strategy.priority == p then [strategy] else []
    {
      hide Sort, Having, Descending;
      SortAdded(strategies, strategy);
      strategies := strategies + [strategy];
      strategies := Sort(strategies);
    }

    method OnThingRemoved(thingId: string)
      modifies this
      ensures strategies == Erase(old(strategies), thingId)
    {
      var kept: seq<Entry<S>> := [];
      for i := 0 to |strategies|
        invariant kept == Erase(strategies[..i], thingId)
      {
        assert strategies[..i + 1][..i] == strategies[..i];
        if strategies[i].thingId != thingId {
          kept := kept + [strategies[i]];
        }
      }
      assert strategies[..|strategies|] == strategies;
      strategies := kept;
    }
  }

  lemma DescendingSnoc<S(!new)>(s: seq<Entry<S>>, last: Entry<S>)
    requires Descending(s) && forall x | x in s :: x.priority >= last.priority
    ensures Descending(s + [last])
  {
    forall i | 0 <= i < |s| ensures s[i].priority >= last.priority {
      assert s[i] in s;
    }
  }

  lemma {:induction false} InsertDescends<S(!new)>(s: seq<Entry<S>>, e: Entry<S>)
    requires Descending(s)
    ensures Descending(Insert(s, e)) && forall x :: x in Insert(s, e) <==> x in s || x == e
  {
    if s != [] {
      var n := |s| - 1;
      assert s == s[..n] + [s[n]];
      if s[n].priority < e.priority {
        InsertDescends(s[..n], e);
        DescendingSnoc(Insert(s[..n], e), s[n]);
      } else {
        DescendingSnoc(s, e);
      }
    }
  }

  lemma {:induction false} InsertHaving<S(!new)>(s: seq<Entry<S>>, e: Entry<S>, p: int)
    requires Descending(s)
    ensures Having(Insert(s, e), p) == Having(s, p) + if e.priority == p then [e] else []
  {
    if s == [] || s[|s| - 1].priority >= e.priority {
      assert (s + [e])[..|s|] == s;
    } else {
      var n := |s| - 1;
      InsertHaving(s[..n], e, p);
      var front := Insert(s[..n], e);
      assert (front + [s[n]])[..|front|] == front;
      if s[n].priority == p {
        assert e.priority != p;
      }
    }
  }

  lemma {:induction false} SortDescends<S(!new)>(s: seq<Entry<S>>)
    ensures Descending(Sort(s))
  {
    if s != [] {
      SortDescends(s[..|s| - 1]);
      InsertDescends(Sort(s[..|s| - 1]), s[|s| - 1]);
    }
  }

  /** Sorting keeps the strategies of one priority, all of them in their order. */
  lemma {:induction false} SortStable<S(!new)>(s: seq<Entry<S>>, p: int)
    ensures Having(Sort(s), p) == Having(s, p)
  {
    if s != [] {
      SortStable(s[..|s| - 1], p);
      SortDescends(s[..|s| - 1]);
      InsertHaving(Sort(s[..|s| - 1]), s[|s| - 1], p);
    }
  }

  lemma SortAdded<S(!new)>(s: seq<Entry<S>>, e: Entry<S>)
    ensures Descending(Sort(s + [e]))
    ensures forall p :: Having(Sort(s + [e]), p) == Having(s, p) + if e.priority == p then [e] else []
  {
    hide Sort;
    SortDescends(s + [e]);
    forall p ensures Having(Sort(s + [e]), p) == Having(s, p) + if e.priority == p then [e] else [] {
      SortStable(s + [e], p);
      HavingSnoc(s, e, p);
    }
  }

  lemma HavingSnoc<S(!new)>(s: seq<Entry<S>>, e: Entry<S>, p: int)
    ensures Having(s + [e], p) == Having(s, p) + if e.priority == p then [e] else []
  {
    assert (s + [e])[..|s|] == s;
  }

  datatype Change<+S> = Add(thingId: string, priority: int, strategy: S) | Remove(thingId: string)

  /** The list after a run of changes; the number of changes so far stamps the strategies. */
  function After<S>(changes: seq<Change<S>>): seq<Entry<S>> {
    if changes == [] then []
    else
      var before := After(changes[..|changes| - 1]);
      match changes[|changes| - 1]
      case Add(thingId, priority, strategy) => Sort(before + [Entry(thingId, priority, |changes| - 1, strategy)])
      case Remove(thingId) => Erase(before, thingId)
  }

  /** Strategy `e` was added by change number `e.stamp` and its thing has not been removed since. */
  ghost predicate Alive<S>(changes: seq<Change<S>>, e: Entry<S>) {
    && e.stamp < |changes| && changes[e.stamp] == Add(e.thingId, e.priority, e.strategy)
    && forall k :: e.stamp < k < |changes| ==> changes[k] != Remove(e.thingId)
  }

  lemma ArrangedSnoc<S(!new)>(s: seq<Entry<S>>, last: Entry<S>)
    requires Arranged(s) && forall x | x in s :: Before(x, last)
    ensures Arranged(s + [last])
  {
    var r := s + [last];
    forall i, j | 0 <= i < j < |r| ensures Before(r[i], r[j]) {
      if j == |s| {
        assert s[i] in s;
      }
    }
  }

  lemma ArrangedInit<S(!new)>(rest: seq<Entry<S>>, last: Entry<S>)
    requires Arranged(rest + [last])
    ensures Arranged(rest) && forall x | x in rest :: Before(x, last)
  {
    var s := rest + [last];
    assert forall i :: 0 <= i < |rest| ==> s[i] == rest[i];
    forall x | x in rest ensures Before(x, last) {
      var i :| 0 <= i < |rest| && rest[i] == x;
      assert Before(s[i], s[|rest|]);
    }
  }

  /** Sorting leaves a sorted list as it is. */
  lemma {:induction false} SortSorted<S(!new)>(s: seq<Entry<S>>)
    requires Arranged(s)
    ensures Sort(s) == s
  {
    if s != [] {
      hide Arranged, Insert;
      var rest, last := s[..|s| - 1], s[|s| - 1];
      assert s == rest + [last];
      ArrangedInit(rest, last);
      SortSorted(rest);
      InsertLast(rest, last);
    }
  }

  lemma InsertLast<S(!new)>(rest: seq<Entry<S>>, last: Entry<S>)
    requires forall x | x in rest :: Before(x, last)
    ensures Insert(rest, last) == rest + [last]
  {
    if rest != [] {
      assert rest[|rest| - 1] in rest;
    }
  }

  lemma {:induction false} InsertArranges<S(!new)>(s: seq<Entry<S>>, e: Entry<S>)
    requires Arranged(s) && forall x | x in s :: x.stamp < e.stamp
    ensures Arranged(Insert(s, e)) && forall x :: x in Insert(s, e) <==> x in s || x == e
  {
    hide Arranged;
    if s == [] {
      ArrangedSingle(e);
    } else {
      var n := |s| - 1;
      assert s == s[..n] + [s[n]];
      ArrangedInit(s[..n], s[n]);
      if s[n].priority < e.priority {
        InsertArranges(s[..n], e);
        ArrangedSnoc(Insert(s[..n], e), s[n]);
      } else {
        ArrangedSnoc(s, e);
      }
    }
  }

  lemma ArrangedSingle<S(!new)>(e: Entry<S>)
    ensures Arranged([e]) && [] + [e] == [e]
  {
  }

  lemma {:induction false} EraseArranges<S(!new)>(s: seq<Entry<S>>, thingId: string)
    requires Arranged(s)
    ensures Arranged(Erase(s, thingId)) && forall x :: x in Erase(s, thingId) <==> x in s && x.thingId != thingId
  {
    if s != [] {
      hide Arranged;
      assert s == s[..|s| - 1] + [s[|s| - 1]];
      ArrangedInit(s[..|s| - 1], s[|s| - 1]);
      EraseArranges(s[..|s| - 1], thingId);
      if s[|s| - 1].thingId != thingId {
        ArrangedSnoc(Erase(s[..|s| - 1], thingId), s[|s| - 1]);
      }
    }
  }

  /**
   * After every run of adds and removals the list is sorted by descending priority with ties in the order of
   * arrival, and it holds exactly the strategies whose things have not been removed since.
   */
  lemma {:induction false} RepositoryRun<S(!new)>(changes: seq<Change<S>>)
    ensures Arranged(After(changes))
    ensures forall e :: e in After(changes) <==> Alive(changes, e)
  {
    if changes != [] {
      var n := |changes| - 1;
      var earlier := changes[..n];
      RepositoryRun(earlier);
      var before := After(earlier);
      match changes[n] {
        case Add(thingId, priority, strategy) =>
          var e := Entry(thingId, priority, n, strategy);
          assert forall x | x in before :: Alive(earlier, x);
          assert (before + [e])[..|before|] == before;
          SortSorted(before);
          InsertArranges(before, e);
        case Remove(thingId) =>
          EraseArranges(before, thingId);
      }
      forall e ensures e in After(changes) <==> Alive(changes, e) {
        AliveStep(changes, e);
      }
    }
  }

  lemma AliveStep<S(!new)>(changes: seq<Change<S>>, e: Entry<S>)
    requires changes != []
    ensures var n := |changes| - 1;
            Alive(changes, e) <==>
              match changes[n]
              case Add(thingId, priority, strategy) =>
                Alive(changes[..n], e) || e == Entry(thingId, priority, n, strategy)
              case Remove(thingId) => Alive(changes[..n], e) && e.thingId != thingId
  {
    var n := |changes| - 1;
    assert forall k :: 0 <= k < n ==> changes[..n][k] == changes[k];
  }
}
