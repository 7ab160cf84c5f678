/** What change-only recording loses against recording everything, exactly. */
module RecordingTheorems {
  import opened Words
  import opened OrderedMap
  import opened Downsampling
  import opened Recorder

  lemma HoldAtEnd(m: Dataset, t: int)
    requires NoneAfter(m, t)
    ensures Hold(m, t, []) == Latest(m)
  {
  }

  /** The table is sorted, and a cached value is its latest one. */
  ghost predicate InShape(s: Recording) {
    Sorted(s.rows) && (s.last != [] ==> Latest(s.rows) == s.last)
  }

  lemma StepInShape(s: Recording, op: Op, t: int)
    requires InShape(s) && NoneAfter(s.rows, if op.Record? then op.ts else t) && (op.Record? ==> op.ts <= t)
    ensures InShape(Recorded(s, op)) && NoneAfter(Recorded(s, op).rows, t)
  {
    hide Put;
    if op.Record? {
      HoldAfterPut(s.rows, op.ts, op.dp, 0);
    }
  }

  /** Both tables are sorted and end with the run, and a value that is cached is the latest stored one. */
  lemma {:induction false} TablesInTime(ops: seq<Op>)
    requires InTime(ops)
    ensures InShape(RecordAll(ops)) && Sorted(Everything(ops))
    ensures forall t: int :: AllBy(ops, t) ==> NoneAfter(RecordAll(ops).rows, t) && NoneAfter(Everything(ops), t)
  {
    hide Put, InShape, Recorded, Sorted;
    if ops == [] {
      EmptyInShape();
    } else {
      var n := |ops| - 1;
      var s, full := RecordAll(ops[..n]), Everything(ops[..n]);
      TablesInTime(ops[..n]);
      LastInTime(ops);
      hide AllBy;
      if ops[n].Record? {
        StepInShape(s, ops[n], ops[n].ts);
        HoldAfterPut(full, ops[n].ts, ops[n].dp, 0);
      } else {
        StepInShape(s, ops[n], if s.rows == [] then 0 else s.rows[|s.rows| - 1].key);
      }
      forall t: int | AllBy(ops, t) ensures NoneAfter(RecordAll(ops).rows, t) && NoneAfter(Everything(ops), t) {
        StepInShape(s, ops[n], t);
      }
    }
  }

  lemma EmptyInShape()
    ensures InShape(Recording([], [])) && Sorted<Datapoint>([])
  {
  }

  lemma LastInTime(ops: seq<Op>)
    requires InTime(ops) && ops != []
    ensures var n := |ops| - 1;
            && (ops[n].Record? ==> AllBy(ops[..n], ops[n].ts))
            && forall t: int :: AllBy(ops, t) ==> AllBy(ops[..n], t) && (ops[n].Record? ==> ops[n].ts <= t)
  {
  }

  /** No later put has the same timestamp, so none overwrites the row of put `k`. */
  ghost predicate Final(ops: seq<Op>, k: nat) {
    && k < |ops| && ops[k].Record?
    && forall j :: k < j < |ops| && ops[j].Record? ==> ops[j].ts != ops[k].ts
  }

  // ---- Sample and hold ---------------------------------------------------------------------

  /**
   * Put `k` is an empty datapoint that meets an unset cache, while the table still ends with something else:
   * the comparison with the cache takes it for unchanged.
   */
  predicate Lost(ops: seq<Op>, k: nat) {
    && k < |ops| && ops[k].Record? && ops[k].dp == []
    && RecordAll(ops[..k]).last == [] && Latest(RecordAll(ops[..k]).rows) != []
  }

  ghost predicate LostBelow(ops: seq<Op>, k: nat, bound: int) {
    Lost(ops, k) && Final(ops, k) && ops[k].ts < bound
  }

  ghost predicate SomeLostBelow(ops: seq<Op>, bound: int) {
    exists k: nat :: LostBelow(ops, k, bound)
  }

  ghost predicate Agree(ops: seq<Op>, t: int) {
    Hold(RecordAll(ops).rows, t, []) == Hold(Everything(ops), t, [])
  }

  ghost predicate AgreeBelow(ops: seq<Op>, bound: int) {
    forall t: int :: t < bound ==> Agree(ops, t)
  }

  lemma EarlierLost(ops: seq<Op>, k: nat, bound: int)
    requires ops != [] && k < |ops| - 1
    ensures var n := |ops| - 1;
            LostBelow(ops, k, bound)
            <==> LostBelow(ops[..n], k, bound) && (ops[n].Record? ==> ops[n].ts != ops[k].ts)
  {
    var n := |ops| - 1;
    assert ops[..n][..k] == ops[..k];
    assert forall j :: 0 <= j < n ==> ops[..n][j] == ops[j];
  }

  /** Up to its own time a put changes nothing. */
  lemma AgreeBefore(ops: seq<Op>, t: int)
    requires InTime(ops) && ops != [] && (ops[|ops| - 1].Record? ==> t < ops[|ops| - 1].ts)
    ensures Agree(ops, t) <==> Agree(ops[..|ops| - 1], t)
  {
    hide Put, Hold;
    var before := ops[..|ops| - 1];
    TablesInTime(before);
    match ops[|ops| - 1] {
      case Record(ts, dp) =>
        HoldAfterPut(RecordAll(before).rows, ts, dp, t);
        HoldAfterPut(Everything(before), ts, dp, t);
      case Restart =>
    }
  }

  /** From its time on the tables agree unless the put is lost. */
  lemma AgreeAfter(ops: seq<Op>, t: int)
    requires InTime(ops) && ops != [] && ops[|ops| - 1].Record? && t >= ops[|ops| - 1].ts
    ensures Agree(ops, t) <==> !Lost(ops, |ops| - 1)
  {
    hide Put;
    var before, ts, dp := ops[..|ops| - 1], ops[|ops| - 1].ts, ops[|ops| - 1].dp;
    TablesInTime(before);
    assert AllBy(before, ts) && AllBy(before, t);
    HoldAtEnd(RecordAll(before).rows, t);
    hide Hold;
    HoldAfterPut(RecordAll(before).rows, ts, dp, t);
    HoldAfterPut(Everything(before), ts, dp, t);
  }

  lemma {:induction false} AgreeBelowIff(ops: seq<Op>, bound: int)
    requires InTime(ops)
    ensures AgreeBelow(ops, bound) <==> !SomeLostBelow(ops, bound)
  {
    hide Agree, Lost, InTime, LostBelow;
    if ops == [] {
      NothingLost(bound);
    } else if ops[|ops| - 1].Restart? || bound <= ops[|ops| - 1].ts {
      UnfoldInTime(ops);
      AgreeBelowIff(ops[..|ops| - 1], bound);
      LastMattersNot(ops, bound);
    } else {
      UnfoldInTime(ops);
      AgreeBelowIff(ops[..|ops| - 1], ops[|ops| - 1].ts);
      LastDecides(ops, bound);
    }
  }

  lemma UnfoldInTime(ops: seq<Op>)
    requires InTime(ops) && ops != []
    ensures InTime(ops[..|ops| - 1])
  {
  }

  lemma NothingLost(bound: int)
    ensures AgreeBelow([], bound) && !SomeLostBelow([], bound)
  {
  }

  lemma LastMattersNot(ops: seq<Op>, bound: int)
    requires InTime(ops) && ops != [] && (ops[|ops| - 1].Record? ==> bound <= ops[|ops| - 1].ts)
    ensures AgreeBelow(ops, bound) <==> AgreeBelow(ops[..|ops| - 1], bound)
    ensures SomeLostBelow(ops, bound) <==> SomeLostBelow(ops[..|ops| - 1], bound)
  {
    hide Agree, Lost;
    var n := |ops| - 1;
    forall t: int | t < bound ensures Agree(ops, t) <==> Agree(ops[..n], t) {
      AgreeBefore(ops, t);
    }
    forall k: nat ensures LostBelow(ops, k, bound) <==> LostBelow(ops[..n], k, bound) {
      if k < n {
        EarlierLost(ops, k, bound);
      } else {
        NotBeyond(ops[..n], k, bound);
      }
    }
  }

  lemma NotBeyond(ops: seq<Op>, k: nat, bound: int)
    requires k >= |ops|
    ensures !LostBelow(ops, k, bound)
  {
  }

  lemma LastDecides(ops: seq<Op>, bound: int)
    requires InTime(ops) && ops != [] && ops[|ops| - 1].Record? && bound > ops[|ops| - 1].ts
    ensures var n := |ops| - 1;
            && (AgreeBelow(ops, bound) <==> AgreeBelow(ops[..n], ops[n].ts) && !Lost(ops, n))
            && (SomeLostBelow(ops, bound) <==> SomeLostBelow(ops[..n], ops[n].ts) || Lost(ops, n))
  {
    hide Agree, Lost;
    var n := |ops| - 1;
    var ts := ops[n].ts;
    forall t: int ensures Agree(ops, t) <==> if t < ts then Agree(ops[..n], t) else !Lost(ops, n) {
      if t < ts { AgreeBefore(ops, t); } else { AgreeAfter(ops, t); }
    }
    assert AgreeBelow(ops, bound) ==> Agree(ops, ts);
    forall k: nat ensures LostBelow(ops, k, bound) <==> if k == n then Lost(ops, n) else LostBelow(ops[..n], k, ts) {
      if k < n {
        EarlierLost(ops, k, bound);
        assert ops[..n][k] == ops[k];
      } else if k > n {
        NotBeyond(ops, k, bound);
        NotBeyond(ops[..n], k, ts);
      } else {
        NotBeyond(ops[..n], k, ts);
      }
    }
    if LostBelow(ops, n, bound) {
    } else if k: nat :| LostBelow(ops[..n], k, ts) {
      assert LostBelow(ops, k, bound);
    }
  }

  /**
   * Change-only recording refines full recording, exactly: for timestamps that do not go back, and restarts at any
   * point, the stored rows show at every time what all datapoints put would show, if and only if no put is lost
   * that stands for its second.
   */
  lemma RecordingRefines(ops: seq<Op>)
    requires InTime(ops)
    ensures (forall t: int :: Hold(RecordAll(ops).rows, t, []) == Hold(Everything(ops), t, []))
            <==> !exists k: nat :: Lost(ops, k) && Final(ops, k)
  {
    hide Lost, Final, InTime, RecordAll, Everything;
    if k: nat :| Lost(ops, k) && Final(ops, k) {
      var t := LossShows(ops, k);
    } else {
      forall t: int ensures Hold(RecordAll(ops).rows, t, []) == Hold(Everything(ops), t, []) {
        AgreeBelowIff(ops, t + 1);
        assert Agree(ops, t);
      }
    }
  }

  lemma LossShows(ops: seq<Op>, k: nat) returns (t: int)
    requires InTime(ops) && Lost(ops, k) && Final(ops, k)
    ensures Hold(RecordAll(ops).rows, t, []) != Hold(Everything(ops), t, [])
  {
    hide Lost, Final, InTime, Hold, RecordAll, Everything;
    LostIsPut(ops, k);
    AgreeBelowIff(ops, ops[k].ts + 1);
    assert LostBelow(ops, k, ops[k].ts + 1);
    t :| t < ops[k].ts + 1 && !Agree(ops, t);
  }

  lemma LostIsPut(ops: seq<Op>, k: nat)
    requires Lost(ops, k)
    ensures k < |ops| && ops[k].Record?
  {
  }

  lemma {:induction false} InTimePrefix(ops: seq<Op>, k: nat)
    requires InTime(ops) && k <= |ops|
    ensures InTime(ops[..k])
  {
    if k < |ops| {
      InTimePrefix(ops[..|ops| - 1], k);
      assert ops[..|ops| - 1][..k] == ops[..k];
    } else {
      assert ops[..k] == ops;
    }
  }

  /** Without a restart the cache is the latest stored value. */
  lemma {:induction false} CacheIsLatest(ops: seq<Op>)
    requires InTime(ops) && forall j :: 0 <= j < |ops| ==> ops[j].Record?
    ensures RecordAll(ops).last == Latest(RecordAll(ops).rows)
  {
    hide Put;
    if ops != [] {
      var n := |ops| - 1;
      CacheIsLatest(ops[..n]);
      TablesInTime(ops[..n]);
      assert ops[n].Record?;
      HoldAfterPut(RecordAll(ops[..n]).rows, ops[n].ts, ops[n].dp, 0);
    }
  }

  /** Runs without a restart, and runs without empty datapoints, lose nothing. */
  lemma NothingLostIn(ops: seq<Op>, t: int)
    requires InTime(ops)
    requires || (forall j :: 0 <= j < |ops| ==> ops[j].Record?)
             || (forall j :: 0 <= j < |ops| && ops[j].Record? ==> ops[j].dp != [])
    ensures Hold(RecordAll(ops).rows, t, []) == Hold(Everything(ops), t, [])
  {
    forall k: nat ensures !Lost(ops, k) {
      if k < |ops| && forall j :: 0 <= j < |ops| ==> ops[j].Record? {
        InTimePrefix(ops, k);
        CacheIsLatest(ops[..k]);
      }
    }
    RecordingRefines(ops);
  }

  /** After any run that ends with a value stored, a restart and an empty datapoint show the difference. */
  lemma EmptyAfterRestart(ops: seq<Op>, ts: nat)
    requires InTime(ops) && AllBy(ops, ts) && Latest(RecordAll(ops).rows) != []
    ensures var more := ops + [Restart] + [Record(ts, [])];
            InTime(more) && Hold(RecordAll(more).rows, ts, []) != Hold(Everything(more), ts, [])
  {
    var restarted := ops + [Restart];
    var more := restarted + [Record(ts, [])];
    assert restarted[..|ops|] == ops && more[..|restarted|] == restarted;
    assert InTime(restarted) && AllBy(restarted, ts);
    assert Lost(more, |restarted|);
    AgreeAfter(more, ts);
  }

  // ---- Rows --------------------------------------------------------------------------------

  /** Put `k` repeats what is cached, and its row is not already the last one. */
  predicate Missing(ops: seq<Op>, k: nat) {
    && k < |ops| && ops[k].Record? && RecordAll(ops[..k]).last == ops[k].dp
    && var rows := RecordAll(ops[..k]).rows;
       rows == [] || rows[|rows| - 1] != Pair(ops[k].ts, ops[k].dp)
  }

  ghost predicate MissingAt(ops: seq<Op>, k: nat, x: nat) {
    Missing(ops, k) && Final(ops, k) && ops[k].ts == x
  }

  ghost predicate MissingOn(ops: seq<Op>, k: nat, day: nat) {
    Missing(ops, k) && Final(ops, k) && ops[k].ts / SECONDS_PER_DAY == day
  }

  ghost predicate SomeMissingAt(ops: seq<Op>, x: nat) {
    exists k: nat :: MissingAt(ops, k, x)
  }

  /** The two tables have the same row under key `x`, or none. */
  ghost predicate SameRow(m: Dataset, n: Dataset, x: nat) {
    forall v: Datapoint :: Pair(x, v) in m <==> Pair(x, v) in n
  }

  ghost predicate SameAt(ops: seq<Op>, x: nat) {
    SameRow(RecordAll(ops).rows, Everything(ops), x)
  }

  lemma EarlierMissing(ops: seq<Op>, k: nat, x: nat)
    requires ops != [] && k < |ops| - 1
    ensures var n := |ops| - 1;
            MissingAt(ops, k, x) <==> MissingAt(ops[..n], k, x) && (ops[n].Record? ==> ops[n].ts != x)
  {
    var n := |ops| - 1;
    assert ops[..n][..k] == ops[..k];
    assert forall j :: 0 <= j < n ==> ops[..n][j] == ops[j];
  }

  /** A put leaves the rows of other keys. */
  lemma SameElsewhere(ops: seq<Op>, x: nat)
    requires InTime(ops) && ops != [] && (ops[|ops| - 1].Record? ==> ops[|ops| - 1].ts != x)
    ensures SameAt(ops, x) <==> SameAt(ops[..|ops| - 1], x)
  {
    hide Put;
    var before := ops[..|ops| - 1];
    TablesInTime(before);
    match ops[|ops| - 1] {
      case Record(ts, dp) =>
        PutMembers(RecordAll(before).rows, ts, dp);
        PutMembers(Everything(before), ts, dp);
      case Restart =>
    }
  }

  /** Under its own key a put is present in both tables unless it is missing. */
  lemma SameHere(ops: seq<Op>)
    requires InTime(ops) && ops != [] && ops[|ops| - 1].Record?
    ensures SameAt(ops, ops[|ops| - 1].ts) <==> !Missing(ops, |ops| - 1)
  {
    hide Put;
    var n := |ops| - 1;
    TablesInTime(ops[..n]);
    assert AllBy(ops[..n], ops[n].ts);
    SameHereIn(RecordAll(ops[..n]), Everything(ops[..n]), ops[n].ts, ops[n].dp);
  }

  lemma SameHereIn(s: Recording, full: Dataset, ts: nat, dp: Datapoint)
    requires Sorted(s.rows) && NoneAfter(s.rows, ts) && Sorted(full)
    ensures SameRow(Recorded(s, Record(ts, dp)).rows, Put(full, ts, dp), ts)
            <==> !(s.last == dp && (s.rows == [] || s.rows[|s.rows| - 1] != Pair(ts, dp)))
  {
    hide Put, Sorted, NoneAfter;
    PutMembers(full, ts, dp);
    assert forall v: Datapoint :: Pair(ts, v) in Put(full, ts, dp) <==> v == dp;
    if s.last == dp {
      OnlyLast(s.rows, ts);
      assert Pair(ts, dp) in Put(full, ts, dp);
    } else {
      PutMembers(s.rows, ts, dp);
    }
  }

  /** In a table that ends by `ts`, only the last row can have that key. */
  lemma OnlyLast(m: Dataset, ts: nat)
    requires Sorted(m) && NoneAfter(m, ts)
    ensures forall v: Datapoint :: Pair(ts, v) in m <==> m != [] && m[|m| - 1] == Pair(ts, v)
  {
  }

  lemma {:induction false} SameAtIff(ops: seq<Op>, x: nat)
    requires InTime(ops)
    ensures SameAt(ops, x) <==> !SomeMissingAt(ops, x)
  {
    hide SameAt, Missing, InTime, MissingAt;
    if ops == [] {
      NothingMissing(x);
    } else {
      var n := |ops| - 1;
      UnfoldInTime(ops);
      SameAtIff(ops[..n], x);
      LastAt(ops, x);
    }
  }

  lemma NothingMissing(x: nat)
    ensures SameAt([], x) && !SomeMissingAt([], x)
  {
  }

  lemma LastAt(ops: seq<Op>, x: nat)
    requires InTime(ops) && ops != []
    ensures var n := |ops| - 1;
            if ops[n].Record? && ops[n].ts == x
            then (SameAt(ops, x) <==> !Missing(ops, n)) && (SomeMissingAt(ops, x) <==> Missing(ops, n))
            else (SameAt(ops, x) <==> SameAt(ops[..n], x)) && (SomeMissingAt(ops, x) <==> SomeMissingAt(ops[..n], x))
  {
    hide SameAt, Missing;
    var n := |ops| - 1;
    forall k: nat ensures MissingAt(ops, k, x) <==>
        if ops[n].Record? && ops[n].ts == x then k == n && Missing(ops, n) else MissingAt(ops[..n], k, x)
    {
      if k < n {
        EarlierMissing(ops, k, x);
      } else {
        MissingInRange(ops, k, x);
        MissingInRange(ops[..n], k, x);
      }
    }
    if ops[n].Record? && ops[n].ts == x {
      SameHere(ops);
      assert Missing(ops, n) ==> MissingAt(ops, n, x);
    } else {
      SameElsewhere(ops, x);
    }
  }

  lemma MissingInRange(ops: seq<Op>, k: nat, x: nat)
    ensures MissingAt(ops, k, x) ==> k < |ops| && ops[k].Record? && ops[k].ts == x
  {
  }

  /**
   * A day of the stored table is that day of everything put if and only if no put of that day is missing
   * that stands for its second.
   */
  lemma DayRecordedIff(ops: seq<Op>, day: nat)
    requires InTime(ops) && day <= LAST_DAY
    ensures OfDay(RecordAll(ops).rows, day) == OfDay(Everything(ops), day)
            <==> !exists k: nat :: MissingOn(ops, k, day)
  {
    hide Missing, Final, InTime, OfDay, RecordAll, Everything, OnDay;
    TablesInTime(ops);
    if k: nat :| MissingOn(ops, k, day) {
      DifferentDays(ops, k, day);
    } else {
      var m, n := RecordAll(ops).rows, Everything(ops);
      forall p ensures p in OfDay(m, day) <==> p in OfDay(n, day) {
        OfDayMembers(m, day, p);
        OfDayMembers(n, day, p);
        if OnDay(p, day) {
          NoneMissingAt(ops, p, day);
        }
      }
      OfDayMembers(m, day, Pair(0, []));
      OfDayMembers(n, day, Pair(0, []));
      SortedEqual(OfDay(m, day), OfDay(n, day));
    }
  }

  lemma NoneMissingAt(ops: seq<Op>, p: Pair<Datapoint>, day: nat)
    requires InTime(ops) && OnDay(p, day)
    requires !exists k: nat :: MissingOn(ops, k, day)
    ensures p in RecordAll(ops).rows <==> p in Everything(ops)
  {
    hide Missing, Final, InTime, RecordAll, Everything;
    SameAtIff(ops, p.key);
    assert forall k: nat :: MissingAt(ops, k, p.key) ==> MissingOn(ops, k, day);
    assert p == Pair(p.key, p.value);
  }

  lemma DifferentDays(ops: seq<Op>, k: nat, day: nat)
    requires InTime(ops) && day <= LAST_DAY
    requires MissingOn(ops, k, day)
    ensures OfDay(RecordAll(ops).rows, day) != OfDay(Everything(ops), day)
  {
    hide Final, InTime, OfDay, RecordAll, Everything;
    TablesInTime(ops);
    var m, n, x := RecordAll(ops).rows, Everything(ops), ops[k].ts;
    SameAtIff(ops, x);
    assert MissingAt(ops, k, x);
    var v: Datapoint :| Pair(x, v) in m <==> Pair(x, v) !in n;
    OfDayMembers(m, day, Pair(x, v));
    OfDayMembers(n, day, Pair(x, v));
  }

  // ---- Strictly increasing timestamps ------------------------------------------------------

  /** The cached value: the datapoint put just before, unless that was a restart or nothing. */
  function Cached(ops: seq<Op>): Datapoint {
    if ops == [] || ops[|ops| - 1].Restart? then [] else ops[|ops| - 1].dp
  }

  ghost predicate Rising(ops: seq<Op>) {
    forall i, j :: 0 <= i < j < |ops| && ops[i].Record? && ops[j].Record? ==> ops[i].ts < ops[j].ts
  }

  lemma CacheIs(ops: seq<Op>)
    ensures RecordAll(ops).last == Cached(ops)
  {
  }

  lemma {:induction false} RisingInTime(ops: seq<Op>)
    requires Rising(ops)
    ensures InTime(ops) && forall k: nat :: k < |ops| && ops[k].Record? ==> Final(ops, k)
  {
    if ops != [] {
      RisingInTime(ops[..|ops| - 1]);
    }
  }

  lemma RepeatIsMissing(ops: seq<Op>, k: nat)
    requires Rising(ops)
    ensures Missing(ops, k) <==> k < |ops| && ops[k].Record? && Cached(ops[..k]) == ops[k].dp
  {
    if k < |ops| && ops[k].Record? {
      var before := ops[..k];
      CacheIs(before);
      RisingInTime(before);
      TablesInTime(before);
      if ops[k].ts > 0 {
        assert AllBy(before, ops[k].ts - 1);
      } else {
        assert AllBy(before, -1);
      }
    }
  }

  /**
   * For increasing timestamps: a day of the stored table is that day of everything put if and only if no datapoint
   * of that day repeats the one put just before it. A value held over midnight is such a repeat.
   */
  lemma DayRepeatsNothingIff(ops: seq<Op>, day: nat)
    requires Rising(ops) && day <= LAST_DAY
    ensures OfDay(RecordAll(ops).rows, day) == OfDay(Everything(ops), day)
            <==> forall k :: 0 <= k < |ops| && ops[k].Record? && ops[k].ts / SECONDS_PER_DAY == day
                   ==> Cached(ops[..k]) != ops[k].dp
  {
    hide Missing, Final, InTime, OfDay, RecordAll, Everything, Cached, Rising;
    RisingInTime(ops);
    DayRecordedIff(ops, day);
    forall k: nat
      ensures MissingOn(ops, k, day) <==>
        k < |ops| && ops[k].Record? && ops[k].ts / SECONDS_PER_DAY == day && Cached(ops[..k]) == ops[k].dp
    {
      RepeatIsMissing(ops, k);
    }
  }

  ghost predicate ChangeAt(ops: seq<Op>, k: nat, p: Pair<Datapoint>) {
    k < |ops| && ops[k] == Record(p.key, p.value) && Cached(ops[..k]) != p.value
  }

  /** For increasing timestamps the stored rows are, of all datapoints put, those that differ from the one before. */
  lemma {:induction false} StoredAreChanges(ops: seq<Op>, p: Pair<Datapoint>)
    requires Rising(ops)
    ensures p in RecordAll(ops).rows <==> exists k: nat :: ChangeAt(ops, k, p)
  {
    hide Put, Cached;
    if ops != [] {
      var n := |ops| - 1;
      var before := ops[..n];
      StoredAreChanges(before, p);
      RisingInTime(ops);
      TablesInTime(before);
      CacheIs(before);
      StoredStep(ops, p);
      assert ChangeAt(ops, n, p) <==> ops[n] == Record(p.key, p.value) && RecordAll(before).last != p.value;
      forall k: nat | k != n ensures ChangeAt(ops, k, p) <==> ChangeAt(before, k, p) {
        assert k < n ==> before[..k] == ops[..k];
      }
    }
  }

  lemma StoredStep(ops: seq<Op>, p: Pair<Datapoint>)
    requires Rising(ops) && ops != [] && Sorted(RecordAll(ops[..|ops| - 1]).rows)
    ensures var n := |ops| - 1;
            p in RecordAll(ops).rows <==>
              || p in RecordAll(ops[..n]).rows
              || (ops[n] == Record(p.key, p.value) && RecordAll(ops[..n]).last != p.value)
  {
    hide Put;
    var n := |ops| - 1;
    var before := ops[..n];
    RisingInTime(ops);
    TablesInTime(before);
    if ops[n].Record? {
      assert AllBy(before, ops[n].ts - 1);
      PutMembers(RecordAll(before).rows, ops[n].ts, ops[n].dp);
      KeysBy(RecordAll(before).rows, ops[n].ts - 1);
    }
  }

  lemma KeysBy(m: Dataset, t: int)
    requires Sorted(m) && NoneAfter(m, t)
    ensures forall p | p in m :: p.key <= t
  {
  }
}
