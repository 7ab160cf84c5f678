/**
 * The database over whole runs: an archived day is complete, never stale, and never computed twice. It is the
 * archive of what change-only recording stored, which is less than what was put where a value is repeated.
 */
module DatabaseTheorems {
  import opened Words
  import opened OrderedMap
  import opened Downsampling
  import opened Recorder
  import opened RecordingTheorems
  import opened Database
  import opened Lists
  import opened CborReader
  import opened Archive
  import opened ArchiveTheorem
  import opened Cbor
  import opened ReadBack
  import Delta

  /** One property of one thing, its archive at one resolution, and the current day. */
  datatype Store = Store(log: Recording, days: Rows<seq<byte>>, today: nat)

  datatype Event = Measure(ts: nat, dp: Datapoint) | Ask(day: nat) | Erase(day: nat) | Today(day: nat) | Reboot

  ghost function Next(st: Store, e: Event, factor: nat): Store
    requires factor > 0
  {
    match e
    case Measure(ts, dp) => st.(log := Recorded(st.log, Record(ts, dp)))
    case Ask(day) =>
      if Readable(st.log.rows, day) then st.(days := ArchiveAfter(st.log.rows, st.days, day, factor, st.today)) else st
    case Erase(day) => st.(log := st.log.(rows := WithoutDay(st.log.rows, day)))
    case Today(day) => st.(today := day)
    case Reboot => st.(log := Recorded(st.log, Restart))
  }

  ghost function Run(events: seq<Event>, factor: nat): Store
    requires factor > 0
  {
    if events == [] then Store(Recording([], []), [], 0)
    else Next(Run(events[..|events| - 1], factor), events[|events| - 1], factor)
  }

  /** The puts, whether or not they have been erased since, and the restarts between them. */
  function Puts(events: seq<Event>): seq<Op> {
    if events == [] then []
    else
      var before := Puts(events[..|events| - 1]);
      match events[|events| - 1]
      case Measure(ts, dp) => before + [Record(ts, dp)]
      case Reboot => before + [Restart]
      case _ => before
  }

  /** The bytes for a day answered from these rows. */
  ghost function RecordedBytes(rows: Dataset, day: nat, factor: nat): seq<byte>
    requires factor > 0
  {
    if Readable(rows, day) then ArchiveBytes(OfDay(rows, day), factor) else []
  }

  ghost function Answer(st: Store, day: nat, factor: nat): seq<byte>
    requires factor > 0
  {
    Get(Next(st, Ask(day), factor).days, day, [])
  }

  /**
   * The clock does not go back, measurements do not belong to a past day and have the same number of components,
   * and raw data is erased only after it has been archived.
   */
  ghost predicate Fair(st: Store, e: Event, width: nat) {
    match e
    case Measure(ts, dp) => |dp| == width && ts / SECONDS_PER_DAY >= st.today
    case Ask(day) => day <= LAST_DAY
    case Erase(day) => day <= LAST_DAY && Get(st.days, day, []) != []
    case Today(day) => day >= st.today
    case Reboot => true
  }

  ghost predicate FairRun(events: seq<Event>, width: nat, factor: nat)
    requires factor > 0
  {
    events != [] ==>
      var before := events[..|events| - 1];
      FairRun(before, width, factor) && Fair(Run(before, factor), events[|events| - 1], width)
  }

  /** An archived day has passed and holds all that was recorded on it; of any other day nothing has been erased. */
  ghost predicate DayKept(st: Store, seen: Dataset, day: nat, factor: nat)
    requires factor > 0
  {
    if Get(st.days, day, []) == [] then OfDay(st.log.rows, day) == OfDay(seen, day)
    else day < st.today && Get(st.days, day, []) == RecordedBytes(seen, day, factor)
  }

  ghost predicate Kept(st: Store, seen: Recording, width: nat, factor: nat)
    requires factor > 0
  {
    && Sorted(st.log.rows) && Uniform(st.log.rows, width)
    && Sorted(seen.rows) && Uniform(seen.rows, width) && st.log.last == seen.last
    && forall day: nat :: day <= LAST_DAY ==> DayKept(st, seen.rows, day, factor)
  }

  lemma DayReadable(rows: Dataset, day: nat, width: nat)
    requires Sorted(rows) && Uniform(rows, width) && day <= LAST_DAY
    ensures Readable(rows, day) && (OfDay(rows, day) != [] ==> Width(OfDay(rows, day)) == width)
  {
    hide OfDay, WithoutDay;
    var a, b := DaySlices(rows, day);
  }

  lemma PutUniform(m: Dataset, k: nat, v: Datapoint)
    requires Sorted(m) && Uniform(m, |v|)
    ensures Uniform(Put(m, k, v), |v|)
  {
    hide Put;
    PutMembers(m, k, v);
    var r := Put(m, k, v);
    forall i | 0 <= i < |r| ensures |r[i].value| == |v| {
      assert r[i] in r;
      assert r[i] in m ==> |r[i].value| == |v|;
    }
  }

  lemma MeasureKeeps(st: Store, seen: Recording, ts: nat, dp: Datapoint, width: nat, factor: nat)
    requires factor > 0 && Kept(st, seen, width, factor) && Fair(st, Measure(ts, dp), width)
    ensures Kept(Next(st, Measure(ts, dp), factor), Recorded(seen, Record(ts, dp)), width, factor)
  {
    hide OfDay, Put, Get, RecordedBytes;
    var r := Next(st, Measure(ts, dp), factor);
    var after := Recorded(seen, Record(ts, dp));
    if st.log.last != dp {
      PutMembers(st.log.rows, ts, dp);
      PutMembers(seen.rows, ts, dp);
      PutUniform(st.log.rows, ts, dp);
      PutUniform(seen.rows, ts, dp);
      forall day: nat | day <= LAST_DAY ensures DayKept(r, after.rows, day, factor) {
        assert DayKept(st, seen.rows, day, factor);
        PutDay(st.log.rows, ts, dp, day);
        PutDay(seen.rows, ts, dp, day);
        SameArchive(seen.rows, after.rows, day, width, factor);
      }
    } else {
      forall day: nat | day <= LAST_DAY ensures DayKept(r, after.rows, day, factor) {
        assert DayKept(st, seen.rows, day, factor);
      }
    }
  }

  lemma SameArchive(m: Dataset, n: Dataset, day: nat, width: nat, factor: nat)
    requires factor > 0 && day <= LAST_DAY
    requires Sorted(m) && Uniform(m, width) && Sorted(n) && Uniform(n, width)
    ensures OfDay(m, day) == OfDay(n, day) ==> RecordedBytes(m, day, factor) == RecordedBytes(n, day, factor)
  {
    hide OfDay;
    DayReadable(m, day, width);
    DayReadable(n, day, width);
  }

  lemma AskKeeps(st: Store, seen: Recording, asked: nat, width: nat, factor: nat)
    requires factor > 0 && Kept(st, seen, width, factor) && asked <= LAST_DAY
    ensures Kept(Next(st, Ask(asked), factor), seen, width, factor)
    ensures Answer(st, asked, factor) == if asked < st.today then RecordedBytes(seen.rows, asked, factor) else []
  {
    hide OfDay, Put, Get, Readable, Sorted, Uniform;
    DayReadable(st.log.rows, asked, width);
    SameArchive(st.log.rows, seen.rows, asked, width, factor);
    var bytes := RecordedBytes(st.log.rows, asked, factor);
    GetAfterPut(st.days, asked, bytes, asked, []);
    assert DayKept(st, seen.rows, asked, factor);
    var r := Next(st, Ask(asked), factor);
    hide RecordedBytes;
    forall day: nat | day <= LAST_DAY ensures DayKept(r, seen.rows, day, factor) {
      GetAfterPut(st.days, asked, bytes, day, []);
      assert DayKept(st, seen.rows, day, factor);
    }
  }

  lemma EraseKeeps(st: Store, seen: Recording, erased: nat, width: nat, factor: nat)
    requires factor > 0 && Kept(st, seen, width, factor) && Fair(st, Erase(erased), width)
    ensures Kept(Next(st, Erase(erased), factor), seen, width, factor)
  {
    hide OfDay, WithoutDay, Get, RecordedBytes;
    var r := Next(st, Erase(erased), factor);
    var a, b := DaySlices(st.log.rows, erased);
    forall day: nat | day <= LAST_DAY ensures DayKept(r, seen.rows, day, factor) {
      assert DayKept(st, seen.rows, day, factor);
      EraseDay(st.log.rows, erased, day);
    }
  }

  /** What has been recorded after an event, had nothing ever been erased. */
  function SeenAfter(seen: Recording, e: Event): Recording {
    match e
    case Measure(ts, dp) => Recorded(seen, Record(ts, dp))
    case Reboot => Recorded(seen, Restart)
    case _ => seen
  }

  lemma NextKeeps(st: Store, seen: Recording, e: Event, width: nat, factor: nat)
    requires factor > 0 && Kept(st, seen, width, factor) && Fair(st, e, width)
    ensures Kept(Next(st, e, factor), SeenAfter(seen, e), width, factor)
  {
    match e {
      case Measure(ts, dp) => MeasureKeeps(st, seen, ts, dp, width, factor);
      case Ask(day) => AskKeeps(st, seen, day, width, factor);
      case Erase(day) => EraseKeeps(st, seen, day, width, factor);
      case Today(_) =>
        hide OfDay, Get, RecordedBytes;
        forall day: nat | day <= LAST_DAY ensures DayKept(Next(st, e, factor), seen.rows, day, factor) {
          assert DayKept(st, seen.rows, day, factor);
        }
      case Reboot =>
        hide OfDay, Get, RecordedBytes;
        forall day: nat | day <= LAST_DAY ensures DayKept(Next(st, e, factor), seen.rows, day, factor) {
          assert DayKept(st, seen.rows, day, factor);
        }
    }
  }

  lemma {:induction false} RunKept(events: seq<Event>, width: nat, factor: nat)
    requires factor > 0 && FairRun(events, width, factor)
    ensures Kept(Run(events, factor), RecordAll(Puts(events)), width, factor)
  {
    hide Next, Kept, Recorded;
    if events == [] {
      FreshKept(width, factor);
    } else {
      var before, last := events[..|events| - 1], events[|events| - 1];
      RunKept(before, width, factor);
      NextKeeps(Run(before, factor), RecordAll(Puts(before)), last, width, factor);
      if last.Measure? || last.Reboot? {
        assert Puts(events)[..|Puts(before)|] == Puts(before);
      }
    }
  }

  lemma FreshKept(width: nat, factor: nat)
    requires factor > 0
    ensures Kept(Store(Recording([], []), [], 0), Recording([], []), width, factor)
  {
  }

  /**
   * At any point of any run a day that has passed is answered with the archive of all that was recorded on it,
   * whatever has been asked or erased before, and a day that has not passed is not answered.
   */
  lemma AnswerComplete(events: seq<Event>, width: nat, factor: nat, day: nat)
    requires factor > 0 && FairRun(events, width, factor) && day <= LAST_DAY
    ensures var st, seen := Run(events, factor), RecordAll(Puts(events)).rows;
            && Readable(seen, day)
            && Answer(st, day, factor) == if day < st.today then ArchiveBytes(OfDay(seen, day), factor) else []
  {
    hide Run, RecordAll, Answer;
    var st, seen := Run(events, factor), RecordAll(Puts(events));
    RunKept(events, width, factor);
    AskKeeps(st, seen, day, width, factor);
    DayReadable(seen.rows, day, width);
  }

  /** Only a day without rows has an empty archive. */
  lemma ArchiveEmptyIff(raw: Dataset, factor: nat)
    requires Sorted(raw) && Uniform(raw, Width(raw)) && factor > 0
    ensures ArchiveBytes(raw, factor) == [] <==> raw == []
  {
    hide Downsampled;
    DownsampledKeys(raw, factor, 10);
    var deltas := Delta.Compressed(Downsampled(raw, factor, 10));
    assert deltas == [] <==> raw == [];
    if deltas != [] {
      hide Delta.Compressed, ArrayItems;
      var arrays := Arrays(deltas);
      EncodeItemsConcat(ArrayItems(arrays[0]), ArraysItems(arrays[1..]));
      ArrayNotEmpty(arrays[0]);
    }
  }

  lemma {:induction false} PutsFit(events: seq<Event>, width: nat, factor: nat)
    requires factor > 0 && FairRun(events, width, factor)
    ensures forall k :: 0 <= k < |Puts(events)| && Puts(events)[k].Record? ==> |Puts(events)[k].dp| == width
  {
    if events != [] {
      PutsFit(events[..|events| - 1], width, factor);
    }
  }

  lemma {:induction false} EverythingUniform(ops: seq<Op>, width: nat)
    requires InTime(ops) && forall k :: 0 <= k < |ops| && ops[k].Record? ==> |ops[k].dp| == width
    ensures Sorted(Everything(ops)) && Uniform(Everything(ops), width)
  {
    hide Put;
    if ops != [] {
      var n := |ops| - 1;
      EverythingUniform(ops[..n], width);
      if ops[n].Record? {
        PutMembers(Everything(ops[..n]), ops[n].ts, ops[n].dp);
        PutUniform(Everything(ops[..n]), ops[n].ts, ops[n].dp);
      }
    }
  }

  /**
   * Against everything that was put: when timestamps do not go back, the rows behind the answer for a day are all
   * that was put on it if and only if no put of that day is missing, in the sense of `MissingOn`; and then the
   * answer is the archive of everything put.
   */
  lemma AnswerTellsAllIff(events: seq<Event>, width: nat, factor: nat, day: nat)
    requires factor > 0 && FairRun(events, width, factor) && day <= LAST_DAY
    requires InTime(Puts(events)) && day < Run(events, factor).today
    ensures var ops := Puts(events);
            && Readable(RecordAll(ops).rows, day) && Readable(Everything(ops), day)
            && Answer(Run(events, factor), day, factor) == ArchiveBytes(OfDay(RecordAll(ops).rows, day), factor)
            && (OfDay(RecordAll(ops).rows, day) == OfDay(Everything(ops), day)
                <==> !exists k: nat :: MissingOn(ops, k, day))
  {
    hide Run, RecordAll, Everything, Answer, MissingOn, InTime, OfDay, ArchiveBytes;
    var ops := Puts(events);
    AnswerComplete(events, width, factor, day);
    PutsFit(events, width, factor);
    EverythingUniform(ops, width);
    DayReadable(Everything(ops), day, width);
    DayRecordedIff(ops, day);
  }

  /** A day that has passed is answered with nothing if and only if all that was put on it only repeated the cache. */
  lemma SilentDayIff(events: seq<Event>, width: nat, factor: nat, day: nat)
    requires factor > 0 && FairRun(events, width, factor) && day <= LAST_DAY
    requires Rising(Puts(events)) && day < Run(events, factor).today
    ensures var ops := Puts(events);
            Answer(Run(events, factor), day, factor) == [] <==>
              forall k :: 0 <= k < |ops| && ops[k].Record? && ops[k].ts / SECONDS_PER_DAY == day
                ==> Cached(ops[..k]) == ops[k].dp
  {
    hide Run, Answer, OfDay, RecordAll, Cached, ArchiveBytes, Rising, OnDay;
    var ops := Puts(events);
    AnswerComplete(events, width, factor, day);
    ArchiveEmptyIff(OfDay(RecordAll(ops).rows, day), factor);
    RunKept(events, width, factor);
    DayEmptyIff(ops, day);
  }

  lemma DayEmptyIff(ops: seq<Op>, day: nat)
    requires Rising(ops) && Sorted(RecordAll(ops).rows) && day <= LAST_DAY
    ensures OfDay(RecordAll(ops).rows, day) == [] <==>
              forall k :: 0 <= k < |ops| && ops[k].Record? && ops[k].ts / SECONDS_PER_DAY == day
                ==> Cached(ops[..k]) == ops[k].dp
  {
    hide OfDay, RecordAll, Cached, Rising;
    var rows := RecordAll(ops).rows;
    if OfDay(rows, day) == [] {
      forall k | 0 <= k < |ops| && ops[k].Record? && ops[k].ts / SECONDS_PER_DAY == day
        ensures Cached(ops[..k]) == ops[k].dp
      {
        var p := Pair(ops[k].ts, ops[k].dp);
        OfDayMembers(rows, day, p);
        StoredAreChanges(ops, p);
        assert ops[k] == Record(p.key, p.value);
        assert Cached(ops[..k]) != p.value ==> ChangeAt(ops, k, p);
      }
    } else {
      var p := OfDay(rows, day)[0];
      OfDayMembers(rows, day, p);
      StoredAreChanges(ops, p);
      var k: nat :| ChangeAt(ops, k, p);
      assert ops[k].Record? && Cached(ops[..k]) != ops[k].dp;
    }
  }

  lemma RunSnoc(events: seq<Event>, e: Event, width: nat, factor: nat)
    requires factor > 0
    ensures Run(events + [e], factor) == Next(Run(events, factor), e, factor)
    ensures Next(Run(events, factor), e, factor).today == if e.Today? then e.day else Run(events, factor).today
    ensures FairRun(events + [e], width, factor)
            <==> FairRun(events, width, factor) && Fair(Run(events, factor), e, width)
    ensures Puts(events + [e])
         == Puts(events) + if e.Measure? then [Record(e.ts, e.dp)] else if e.Reboot? then [Restart] else []
  {
    assert (events + [e])[..|events|] == events;
  }

  lemma MidnightTables(ops: seq<Op>)
    requires ops == [Record(10, [7]), Record(86410, [7])]
    ensures OfDay(Everything(ops), 1) == [Pair(86410, [7])] && OfDay(RecordAll(ops).rows, 1) == []
  {
    var one: seq<Op> := [Record(10, [7])];
    assert ops[..1] == one && one[..0] == [];
    assert RecordAll(one) == Recording([Pair(10, [7])], [7]) == RecordAll(ops);
    assert Everything(one) == [Pair(10, [7])];
    var all: Dataset := [Pair(10, [7]), Pair(86410, [7])];
    assert Everything(ops) == all;
    assert all[1..] == [Pair(86410, [7])] && all[1..][1..] == [];
    assert StartOf(1) == 86400 && EndOf(1) == 172800;
    assert Scan(all, 86400, 172800) == Scan(all[1..], 86400, 172800) == [Pair(86410, [7])] + TakeBelow([], 172800);
  }

  /** A value held over midnight: day 1 has a put, and yet it is answered with nothing. */
  lemma HeldOverMidnight(factor: nat) returns (events: seq<Event>)
    requires factor > 0
    ensures FairRun(events, 1, factor) && Run(events, factor).today == 2 && Rising(Puts(events))
    ensures OfDay(Everything(Puts(events)), 1) == [Pair(86410, [7])] && OfDay(RecordAll(Puts(events)).rows, 1) == []
    ensures Answer(Run(events, factor), 1, factor) == []
  {
    hide RecordAll, Everything, OfDay, Answer, Next;
    var none: seq<Event> := [];
    var one := none + [Measure(10, [7])];
    var two := one + [Today(1)];
    var three := two + [Measure(86410, [7])];
    events := three + [Today(2)];
    var ops: seq<Op> := [Record(10, [7]), Record(86410, [7])];
    RunSnoc(none, Measure(10, [7]), 1, factor);
    RunSnoc(one, Today(1), 1, factor);
    RunSnoc(two, Measure(86410, [7]), 1, factor);
    RunSnoc(three, Today(2), 1, factor);
    assert Puts(one) == [] + [Record(10, [7])] && Puts(events) == ops;
    MidnightTables(ops);
    SilentDayIff(events, 1, factor, 1);
  }

  /** Once a day has been answered, every later answer is the same, in runs of any kind. */
  lemma {:induction false} AnswerStable(events: seq<Event>, more: seq<Event>, factor: nat, day: nat)
    requires factor > 0 && Get(Run(events, factor).days, day, []) != []
    ensures Get(Run(events + more, factor).days, day, []) == Get(Run(events, factor).days, day, [])
    ensures Answer(Run(events + more, factor), day, factor) == Get(Run(events, factor).days, day, [])
  {
    hide Get, Next;
    if more == [] {
      assert events + more == events;
    } else {
      var n := |more| - 1;
      AnswerStable(events, more[..n], factor, day);
      var all := events + more;
      assert all[..|all| - 1] == events + more[..n] && all[|all| - 1] == more[n];
      NextStable(Run(events + more[..n], factor), more[n], factor, day);
    }
    NextStable(Run(events + more, factor), Ask(day), factor, day);
  }

  lemma NextStable(st: Store, e: Event, factor: nat, day: nat)
    requires factor > 0 && Get(st.days, day, []) != []
    ensures Get(Next(st, e, factor).days, day, []) == Get(st.days, day, [])
  {
    hide Get, Put, ArchiveBytes;
    if e.Ask? && Readable(st.log.rows, e.day) {
      GetAfterPut(st.days, e.day, ArchiveBytes(OfDay(st.log.rows, e.day), factor), day, []);
    }
  }

  lemma DayFits(rows: Dataset, day: nat)
    requires Sorted(rows) && Readable(rows, day) && day <= LAST_DAY
    ensures Delta.Valid(OfDay(rows, day)) && InDay(OfDay(rows, day), day)
  {
    hide OfDay, WithoutDay, OnDay;
    var a, b := DaySlices(rows, day);
    forall i | a <= i < b ensures SECONDS_PER_DAY * day <= rows[i].key < SECONDS_PER_DAY * (day + 1) {
      OnDayBounds(rows[i], day);
    }
  }

  /**
   * From the measurements to the chart: at 5 minutes the client decodes the answer for a day that has passed, and
   * its charts follow the buckets of what was recorded on that day if and only if these change by what int16 holds.
   * When timestamps do not go back, that is everything put on the day if and only if no put of it is missing.
   */
  lemma ChartOfRun(events: seq<Event>, width: nat, day: nat) returns (charts: seq<seq<FlSpot>>)
    requires FairRun(events, width, 300) && day <= LAST_DAY && day < Run(events, 300).today
    ensures ArchivedCharts(Answer(Run(events, 300), day, 300)) == Ok(charts)
    ensures var raw := OfDay(RecordAll(Puts(events)).rows, day);
            && Delta.Valid(raw)
            && var buckets := Downsampled(raw, 300, 10);
               (ChartsCorrect(charts, buckets, day, Width(raw)) <==> SmallSteps(buckets))
    ensures var ops := Puts(events);
            InTime(ops) ==>
              (OfDay(RecordAll(ops).rows, day) == OfDay(Everything(ops), day)
               <==> !exists k: nat :: MissingOn(ops, k, day))
  {
    hide Run, RecordAll, Answer, OfDay, ArchivedCharts, Downsampled, ChartsCorrect, SmallSteps, ArchiveBytes;
    AnswerComplete(events, width, 300, day);
    RunKept(events, width, 300);
    var seen := RecordAll(Puts(events)).rows;
    DayFits(seen, day);
    charts := EndToEnd(OfDay(seen, day), day);
    if InTime(Puts(events)) {
      hide InTime, Everything, MissingOn;
      DayRecordedIff(Puts(events), day);
    }
  }
}
