/** Measurements that arrive after their day has passed: what the archive of the day still sees of them. */
module LatePuts {
  import opened Words
  import opened OrderedMap
  import opened Downsampling
  import opened Recorder
  import opened RecordingTheorems
  import opened Database
  import opened Archive
  import opened DatabaseTheorems

  /** As `Fair`, but measurements may belong to any day, and the clock may be set back. */
  ghost predicate Loose(st: Store, e: Event, width: nat) {
    match e
    case Measure(_, dp) => |dp| == width
    case Ask(day) => day <= LAST_DAY
    case Erase(day) => day <= LAST_DAY && Get(st.days, day, []) != []
    case Today(_) => true
    case Reboot => true
  }

  ghost predicate LooseRun(events: seq<Event>, width: nat, factor: nat)
    requires factor > 0
  {
    events != [] ==>
      var before := events[..|events| - 1];
      LooseRun(before, width, factor) && Loose(Run(before, factor), events[|events| - 1], width)
  }

  /** The number of events before the one that archived the day; all of them if none did. */
  ghost function ArchivedAt(events: seq<Event>, factor: nat, day: nat): (a: nat)
    requires factor > 0
    ensures a <= |events|
  {
    if events == [] then 0
    else
      var n := |events| - 1;
      if Get(Run(events[..n], factor).days, day, []) != [] then ArchivedAt(events[..n], factor, day)
      else if Get(Run(events, factor).days, day, []) != [] then n
      else |events|
  }

  /** What was recorded before the day was archived. */
  ghost function SeenAtArchive(events: seq<Event>, factor: nat, day: nat): Dataset
    requires factor > 0
  {
    RecordAll(Puts(events[..ArchivedAt(events, factor, day)])).rows
  }

  ghost predicate Shaped(st: Store, seen: Recording, width: nat) {
    && Sorted(st.log.rows) && Uniform(st.log.rows, width)
    && Sorted(seen.rows) && Uniform(seen.rows, width) && st.log.last == seen.last
  }

  lemma PutsStep(events: seq<Event>)
    requires events != []
    ensures var n := |events| - 1; RecordAll(Puts(events)) == SeenAfter(RecordAll(Puts(events[..n])), events[n])
  {
    hide Recorded;
    var n := |events| - 1;
    var before := Puts(events[..n]);
    if events[n].Measure? || events[n].Reboot? {
      assert Puts(events)[..|before|] == before;
    }
  }

  lemma RecordShaped(s: Recording, ts: nat, dp: Datapoint)
    requires Sorted(s.rows) && Uniform(s.rows, |dp|)
    ensures var r := Recorded(s, Record(ts, dp)); Sorted(r.rows) && Uniform(r.rows, |dp|)
  {
    hide Put;
    PutMembers(s.rows, ts, dp);
    PutUniform(s.rows, ts, dp);
  }

  lemma NextShaped(st: Store, seen: Recording, e: Event, width: nat, factor: nat)
    requires factor > 0 && Shaped(st, seen, width) && Loose(st, e, width)
    ensures Shaped(Next(st, e, factor), SeenAfter(seen, e), width)
  {
    hide Put, Recorded, ArchiveAfter, WithoutDay;
    match e {
      case Measure(ts, dp) =>
        RecordShaped(st.log, ts, dp);
        RecordShaped(seen, ts, dp);
        SameLast(st.log, seen, ts, dp);
      case Erase(day) =>
        var a, b := DaySlices(st.log.rows, day);
      case Reboot => RestartKeepsRows(st.log, seen);
      case _ =>
    }
  }

  lemma SameLast(s: Recording, r: Recording, ts: nat, dp: Datapoint)
    requires s.last == r.last
    ensures Recorded(s, Record(ts, dp)).last == Recorded(r, Record(ts, dp)).last
  {
  }

  lemma RestartKeepsRows(s: Recording, r: Recording)
    ensures Recorded(s, Restart) == s.(last := []) && Recorded(r, Restart) == r.(last := [])
  {
  }

  /** While a day is not archived, its stored rows are those recorded on it. */
  lemma UnarchivedStep(st: Store, seen: Recording, e: Event, width: nat, factor: nat, day: nat)
    requires factor > 0 && Shaped(st, seen, width) && Loose(st, e, width) && day <= LAST_DAY
    requires Get(st.days, day, []) == [] && OfDay(st.log.rows, day) == OfDay(seen.rows, day)
    ensures var r := Next(st, e, factor);
            if Get(r.days, day, []) == [] then OfDay(r.log.rows, day) == OfDay(SeenAfter(seen, e).rows, day)
            else e == Ask(day) && Get(r.days, day, []) == RecordedBytes(seen.rows, day, factor)
  {
    hide OfDay, Put, Get, RecordedBytes, WithoutDay, Sorted, Uniform;
    match e {
      case Measure(ts, dp) =>
        PutDay(st.log.rows, ts, dp, day);
        PutDay(seen.rows, ts, dp, day);
      case Ask(asked) => AskedStep(st, seen, asked, width, factor, day);
      case Erase(erased) => EraseDay(st.log.rows, erased, day);
      case _ =>
    }
  }

  lemma AskedStep(st: Store, seen: Recording, asked: nat, width: nat, factor: nat, day: nat)
    requires factor > 0 && Shaped(st, seen, width) && asked <= LAST_DAY && day <= LAST_DAY
    requires Get(st.days, day, []) == [] && OfDay(st.log.rows, day) == OfDay(seen.rows, day)
    ensures var r := Next(st, Ask(asked), factor);
            && r.log == st.log
            && (Get(r.days, day, []) != [] ==>
                  asked == day && Get(r.days, day, []) == RecordedBytes(seen.rows, day, factor))
  {
    hide OfDay, Put, Get, Readable, Sorted, Uniform;
    DayReadable(st.log.rows, asked, width);
    SameArchive(st.log.rows, seen.rows, day, width, factor);
    GetAfterPut(st.days, asked, RecordedBytes(st.log.rows, asked, factor), day, []);
  }

  lemma {:induction false} LooseDay(events: seq<Event>, width: nat, factor: nat, day: nat)
    requires factor > 0 && LooseRun(events, width, factor) && day <= LAST_DAY
    ensures var st, a := Run(events, factor), ArchivedAt(events, factor, day);
            && Shaped(st, RecordAll(Puts(events)), width)
            && if Get(st.days, day, []) == []
               then a == |events| && OfDay(st.log.rows, day) == OfDay(RecordAll(Puts(events)).rows, day)
               else a < |events| && events[a] == Ask(day)
                    && Get(st.days, day, []) == RecordedBytes(SeenAtArchive(events, factor, day), day, factor)
  {
    hide Next, Get, Shaped, OfDay, RecordedBytes, RecordAll, Puts, Loose;
    if events == [] {
      NothingYetShaped(width, factor, day);
    } else {
      var n := |events| - 1;
      var before, e := events[..n], events[n];
      var st, seen := Run(before, factor), RecordAll(Puts(before));
      LooseDay(before, width, factor, day);
      PutsStep(events);
      NextShaped(st, seen, e, width, factor);
      if Get(st.days, day, []) != [] {
        NextStable(st, e, factor, day);
        assert events[..ArchivedAt(before, factor, day)] == before[..ArchivedAt(before, factor, day)];
      } else {
        UnarchivedStep(st, seen, e, width, factor, day);
        assert events[..|events|] == events;
      }
    }
  }

  lemma NothingYetShaped(width: nat, factor: nat, day: nat)
    requires factor > 0
    ensures var st := Run([], factor);
            && Shaped(st, RecordAll(Puts([])), width) && Get(st.days, day, []) == []
            && OfDay(st.log.rows, day) == OfDay(RecordAll(Puts([])).rows, day)
  {
  }

  /**
   * Over every run in which measurements may be late: a day is answered with the archive of what was recorded on it
   * before it was archived, and of all that was recorded if it is archived only now.
   */
  lemma LateAnswer(events: seq<Event>, width: nat, factor: nat, day: nat)
    requires factor > 0 && LooseRun(events, width, factor) && day <= LAST_DAY
    ensures Readable(SeenAtArchive(events, factor, day), day)
    ensures Answer(Run(events, factor), day, factor)
         == if ArchivedAt(events, factor, day) < |events| || day < Run(events, factor).today
            then ArchiveBytes(OfDay(SeenAtArchive(events, factor, day), day), factor)
            else []
  {
    hide Run, RecordAll, Puts, OfDay, ArchiveBytes, Shaped;
    var st, seen := Run(events, factor), RecordAll(Puts(events));
    LooseDay(events, width, factor, day);
    SeenReadable(events, width, factor, day);
    if Get(st.days, day, []) != [] {
      NextStable(st, Ask(day), factor, day);
    } else {
      assert events[..|events|] == events;
      AnswerNow(st, seen, width, factor, day);
    }
  }

  lemma AnswerNow(st: Store, seen: Recording, width: nat, factor: nat, day: nat)
    requires factor > 0 && Shaped(st, seen, width) && day <= LAST_DAY
    requires Get(st.days, day, []) == [] && OfDay(st.log.rows, day) == OfDay(seen.rows, day)
    ensures Answer(st, day, factor) == if day < st.today then RecordedBytes(seen.rows, day, factor) else []
  {
    hide OfDay, Put, Get, Readable, Sorted, Uniform;
    DayReadable(st.log.rows, day, width);
    SameArchive(st.log.rows, seen.rows, day, width, factor);
    GetAfterPut(st.days, day, RecordedBytes(st.log.rows, day, factor), day, []);
  }

  lemma {:induction false} LoosePrefix(events: seq<Event>, width: nat, factor: nat, k: nat)
    requires factor > 0 && LooseRun(events, width, factor) && k <= |events|
    ensures LooseRun(events[..k], width, factor)
  {
    if k < |events| {
      LoosePrefix(events[..|events| - 1], width, factor, k);
      assert events[..|events| - 1][..k] == events[..k];
    } else {
      assert events[..k] == events;
    }
  }

  lemma SeenReadable(events: seq<Event>, width: nat, factor: nat, day: nat)
    requires factor > 0 && LooseRun(events, width, factor) && day <= LAST_DAY
    ensures Readable(SeenAtArchive(events, factor, day), day)
  {
    hide Run, RecordAll, Puts, OfDay, LooseRun;
    var a := ArchivedAt(events, factor, day);
    LoosePrefix(events, width, factor, a);
    LooseDay(events[..a], width, factor, day);
    DayReadable(SeenAtArchive(events, factor, day), day, width);
  }

  // ---- Which puts are missing --------------------------------------------------------------

  lemma {:induction false} PutsPrefix(events: seq<Event>, a: nat)
    requires a <= |events|
    ensures Puts(events[..a]) <= Puts(events)
  {
    if a < |events| {
      PutsPrefix(events[..|events| - 1], a);
      assert events[..|events| - 1][..a] == events[..a];
    } else {
      assert events[..a] == events;
    }
  }

  /** With increasing timestamps, a change is in the table of a prefix exactly when it was put by then. */
  lemma ChangeInPrefix(ops: seq<Op>, m: nat, k: nat)
    requires Rising(ops) && m <= |ops| && k < |ops| && ops[k].Record? && Cached(ops[..k]) != ops[k].dp
    ensures Pair(ops[k].ts, ops[k].dp) in RecordAll(ops[..m]).rows <==> k < m
  {
    hide RecordAll, Cached;
    var p, part := Pair(ops[k].ts, ops[k].dp), ops[..m];
    assert Rising(part);
    StoredAreChanges(part, p);
    if k < m {
      assert part[..k] == ops[..k];
      assert ChangeAt(part, k, p);
    }
    forall j: nat | ChangeAt(part, j, p) ensures j == k {
      assert ops[j] == Record(ops[k].ts, ops[k].dp);
    }
  }

  /** A recorded put of the day is missing from its answer if and only if the day was archived before it. */
  lemma LatePutMissingIff(events: seq<Event>, width: nat, factor: nat, day: nat, k: nat)
    requires factor > 0 && LooseRun(events, width, factor) && day <= LAST_DAY && Rising(Puts(events))
    requires var ops := Puts(events);
             && k < |ops| && ops[k].Record? && ops[k].ts / SECONDS_PER_DAY == day
             && Cached(ops[..k]) != ops[k].dp
    ensures var ops := Puts(events);
            Pair(ops[k].ts, ops[k].dp) in OfDay(SeenAtArchive(events, factor, day), day)
            <==> k < |Puts(events[..ArchivedAt(events, factor, day)])|
  {
    hide Run, RecordAll, Puts, OfDay, Cached, Rising, LooseRun;
    var ops, a := Puts(events), ArchivedAt(events, factor, day);
    var seen := SeenAtArchive(events, factor, day);
    PutsPrefix(events, a);
    assert Puts(events[..a]) == ops[..|Puts(events[..a])|];
    ChangeInPrefix(ops, |Puts(events[..a])|, k);
    SeenReadable(events, width, factor, day);
    OfDayMembers(seen, day, Pair(ops[k].ts, ops[k].dp));
  }

  /** The answer tells all that was recorded on the day if and only if no later put of the day was recorded. */
  lemma LateDayIff(events: seq<Event>, width: nat, factor: nat, day: nat)
    requires factor > 0 && LooseRun(events, width, factor) && day <= LAST_DAY && Rising(Puts(events))
    ensures var ops, m := Puts(events), |Puts(events[..ArchivedAt(events, factor, day)])|;
            OfDay(SeenAtArchive(events, factor, day), day) == OfDay(RecordAll(ops).rows, day)
            <==> forall k :: m <= k < |ops| && ops[k].Record? && ops[k].ts / SECONDS_PER_DAY == day
                   ==> Cached(ops[..k]) == ops[k].dp
  {
    hide Run, RecordAll, Puts, OfDay, Cached, Rising, LooseRun, OnDay;
    var ops, a := Puts(events), ArchivedAt(events, factor, day);
    PutsPrefix(events, a);
    var m := |Puts(events[..a])|;
    assert Puts(events[..a]) == ops[..m];
    SeenReadable(events, width, factor, day);
    LooseDay(events, width, factor, day);
    PrefixDayIff(ops, m, day);
  }

  lemma PrefixDayIff(ops: seq<Op>, m: nat, day: nat)
    requires Rising(ops) && m <= |ops| && day <= LAST_DAY
    requires Sorted(RecordAll(ops[..m]).rows) && Sorted(RecordAll(ops).rows)
    ensures OfDay(RecordAll(ops[..m]).rows, day) == OfDay(RecordAll(ops).rows, day)
            <==> forall k :: m <= k < |ops| && ops[k].Record? && ops[k].ts / SECONDS_PER_DAY == day
                   ==> Cached(ops[..k]) == ops[k].dp
  {
    hide RecordAll, OfDay, Cached, Rising;
    var part, all := RecordAll(ops[..m]).rows, RecordAll(ops).rows;
    assert ops[..|ops|] == ops;
    if OfDay(part, day) == OfDay(all, day) {
      forall k | m <= k < |ops| && ops[k].Record? && ops[k].ts / SECONDS_PER_DAY == day
        ensures Cached(ops[..k]) == ops[k].dp
      {
        if Cached(ops[..k]) != ops[k].dp {
          ChangeInPrefix(ops, m, k);
          ChangeInPrefix(ops, |ops|, k);
          OfDayMembers(part, day, Pair(ops[k].ts, ops[k].dp));
          OfDayMembers(all, day, Pair(ops[k].ts, ops[k].dp));
        }
      }
    }
    if forall k :: m <= k < |ops| && ops[k].Record? && ops[k].ts / SECONDS_PER_DAY == day
         ==> Cached(ops[..k]) == ops[k].dp
    {
      forall p ensures p in OfDay(part, day) <==> p in OfDay(all, day) {
        OfDayMembers(part, day, p);
        OfDayMembers(all, day, p);
        if OnDay(p, day) {
          SameInPrefix(ops, m, day, p);
        }
      }
      OfDayMembers(part, day, Pair(0, []));
      OfDayMembers(all, day, Pair(0, []));
      SortedEqual(OfDay(part, day), OfDay(all, day));
    }
  }

  lemma SameInPrefix(ops: seq<Op>, m: nat, day: nat, p: Pair<Datapoint>)
    requires Rising(ops) && m <= |ops| && OnDay(p, day)
    requires forall k :: m <= k < |ops| && ops[k].Record? && ops[k].ts / SECONDS_PER_DAY == day
               ==> Cached(ops[..k]) == ops[k].dp
    ensures p in RecordAll(ops[..m]).rows <==> p in RecordAll(ops).rows
  {
    hide RecordAll, Cached;
    var part := ops[..m];
    assert Rising(part);
    StoredAreChanges(part, p);
    StoredAreChanges(ops, p);
    forall k: nat ensures ChangeAt(part, k, p) <==> ChangeAt(ops, k, p) {
      assert k < m ==> part[..k] == ops[..k];
    }
  }
}
