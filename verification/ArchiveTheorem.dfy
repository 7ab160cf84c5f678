/** What the web client's chart of an archived day shows, and when it is right. */
module ArchiveTheorem {
  import opened Words
  import opened OrderedMap
  import opened Downsampling
  import opened Delta
  import opened Cbor
  import opened CborReader
  import opened Lists
  import opened ReadBack
  import opened Archive

  /** Bucket numbers of one day at 5 minutes. */
  ghost predicate InSlots(c: Dataset, day: nat) {
    forall k :: 0 <= k < |c| ==> SLOTS_PER_DAY * day <= c[k].key < SLOTS_PER_DAY * (day + 1)
  }

  lemma SlotOf(t: nat, day: nat)
    requires SECONDS_PER_DAY * day <= t < SECONDS_PER_DAY * (day + 1)
    ensures SLOTS_PER_DAY * day <= t / 300 < SLOTS_PER_DAY * (day + 1)
  {
  }

  /** All buckets of one day fall into the client's 288 slots. */
  lemma BucketsInSlots(raw: Dataset, day: nat)
    requires Sorted(raw) && Uniform(raw, Width(raw)) && InDay(raw, day)
    ensures InSlots(Downsampled(raw, 300, 10), day)
  {
    DownsampledKeys(raw, 300, 10);
    var r := Downsampled(raw, 300, 10);
    forall i | 0 <= i < |r| ensures SLOTS_PER_DAY * day <= r[i].key < SLOTS_PER_DAY * (day + 1) {
      assert HasKey(r, r[i].key);
      var j :| 0 <= j < |Keyed(raw, 300)| && Keyed(raw, 300)[j].key == r[i].key;
      SlotOf(raw[j].key, day);
    }
  }

  lemma {:induction false} ChangesInSlots(ds: Dataset, last: Datapoint, day: nat)
    requires InSlots(ds, day)
    ensures InSlots(ChangesFrom(ds, last), day)
  {
    if ds != [] {
      ChangesInSlots(ds[1..], if ds[0].value == last then last else ds[0].value, day);
    }
  }

  lemma {:induction false} Spread(c: Dataset, k: nat)
    requires Sorted(c) && k < |c|
    ensures c[k].key >= c[0].key + k
  {
    if k > 0 {
      Spread(c, k - 1);
    }
  }

  /** The spots trace the step function through the points. */
  ghost predicate IsChart(spots: seq<FlSpot>, ts: seq<int>, vs: seq<int>, day: nat)
    requires |ts| == |vs| > 0
  {
    && |spots| == SLOTS_PER_DAY
    && forall i :: 0 <= i < SLOTS_PER_DAY ==>
         spots[i].x == i && spots[i].y % 10 == 0 && Shows(ts, vs, SLOTS_PER_DAY * day + i, spots[i].y / 10)
  }

  lemma DayStartOf(ts: seq<int>, day: nat)
    requires ts != [] && SLOTS_PER_DAY * day <= ts[0] < SLOTS_PER_DAY * (day + 1)
    ensures DayStart(ts) == SLOTS_PER_DAY * day
  {
  }

  lemma ChartOf(ts: seq<int>, vs: seq<int>, day: nat) returns (spots: seq<FlSpot>)
    requires |ts| == |vs| > 0 && Increasing(ts)
    requires forall k :: 0 <= k < |ts| ==> SLOTS_PER_DAY * day <= ts[k] < SLOTS_PER_DAY * (day + 1)
    ensures Spots(ts, vs) == Ok(spots) && IsChart(spots, ts, vs, day)
  {
    hide Shows, DayStart, SpotsFrom;
    DayStartOf(ts, day);
    var dayStart := SLOTS_PER_DAY * day;
    SpotsShow(ts, vs, dayStart, 0, Cursor(0, 0));
    spots := SpotsFrom(ts, vs, dayStart, 0, Cursor(0, 0)).value;
    forall i | 0 <= i < SLOTS_PER_DAY ensures Shows(ts, vs, dayStart + i, spots[i].y / 10) {
      assert dayStart + 0 + i == dayStart + i;
    }
  }

  lemma ShowsAtPoint(ts: seq<int>, vs: seq<int>, k: nat, y: int)
    requires |ts| == |vs| && k < |ts| && Increasing(ts) && Shows(ts, vs, ts[k], y)
    ensures y == vs[k]
  {
    assert k + 1 < |ts| ==> ts[k] < ts[k + 1];
    assert Current(ts, ts[k], k);
  }

  /** A chart through the points `vs` shows what `e` says, drawn through `truth`, exactly when the points agree. */
  lemma ChartRightIffPointsRight(
    ts: seq<int>, vs: seq<int>, truth: seq<int>, day: nat, spots: seq<FlSpot>, e: int -> int)
    requires |ts| == |vs| == |truth| > 0 && Increasing(ts)
    requires forall k :: 0 <= k < |ts| ==> SLOTS_PER_DAY * day <= ts[k] < SLOTS_PER_DAY * (day + 1)
    requires IsChart(spots, ts, vs, day)
    requires forall slot :: Shows(ts, truth, slot, e(slot))
    ensures (forall i :: 0 <= i < SLOTS_PER_DAY ==> spots[i] == FlSpot(i, 10 * e(SLOTS_PER_DAY * day + i)))
            <==> vs == truth
  {
    hide Shows;
    if vs == truth {
      forall i | 0 <= i < SLOTS_PER_DAY ensures spots[i] == FlSpot(i, 10 * e(SLOTS_PER_DAY * day + i)) {
        var slot := SLOTS_PER_DAY * day + i;
        ShowsDetermine(ts, vs, slot, spots[i].y / 10, e(slot));
      }
    }
    if forall i :: 0 <= i < SLOTS_PER_DAY ==> spots[i] == FlSpot(i, 10 * e(SLOTS_PER_DAY * day + i)) {
      forall k | 0 <= k < |ts| ensures vs[k] == truth[k] {
        var i := ts[k] - SLOTS_PER_DAY * day;
        assert ts[k] == SLOTS_PER_DAY * day + i;
        ShowsAtPoint(ts, vs, k, spots[i].y / 10);
        ShowsAtPoint(ts, truth, k, e(ts[k]));
      }
    }
  }

  function ColumnSum(c: Dataset, s: nat): (r: seq<int>)
    requires Uniform(c, Width(c))
    ensures |r| == |c|
  {
    PrefixSums(Column(Steps(c), s))
  }

  lemma KeysIncrease(c: Dataset)
    requires Sorted(c)
    ensures Increasing(Timestamps(c))
  {
  }

  lemma SumsRecoverKeys(c: Dataset)
    requires Valid(c)
    ensures PrefixSums(Timestamps(Steps(c))) == Timestamps(c)
  {
    hide Steps, SumTo;
    assert forall k :: 0 <= k < |c| ==> Timestamps(c)[k] == c[k].key;
    hide Timestamps;
    forall k | 0 <= k < |c| ensures SumTo(Timestamps(Steps(c)), k + 1) == c[k].key {
      TimestampSums(c, k);
    }
  }

  lemma SumsRecoverColumn(c: Dataset, s: nat)
    requires Valid(c) && s < Width(c) && c != []
    ensures ColumnSum(c, s) == Column(c, s) <==> StepsFit(c, s, |c|)
  {
    hide Steps, SumTo, At;
    assert forall k :: 0 <= k < |c| ==> Column(c, s)[k] == At(c[k].value, s);
    hide Column;
    ColumnSums(c, s, |c| - 1);
    assert StepsFit(c, s, |c|) <==> StepsFit(c, s, |c| - 1);
    if ColumnSum(c, s) == Column(c, s) {
      forall k | 0 <= k < |c| ensures SumTo(Column(Steps(c), s), k + 1) == At(c[k].value, s) {
        assert ColumnSum(c, s)[k] == Column(c, s)[k];
      }
    }
  }

  ghost predicate ColumnCorrect(spots: seq<FlSpot>, buckets: Dataset, s: nat, day: nat) {
    |spots| == SLOTS_PER_DAY
    && forall i :: 0 <= i < SLOTS_PER_DAY ==> spots[i] == FlSpot(i, 10 * Expected(buckets, s, SLOTS_PER_DAY * day + i))
  }

  lemma ExpectedThroughTruth(buckets: Dataset, s: nat, e: int -> int)
    requires Valid(buckets) && buckets != [] && forall slot :: e(slot) == Expected(buckets, s, slot)
    ensures var c := ChangePoints(buckets);
            c != [] && forall slot :: Shows(Timestamps(c), Column(c, s), slot, e(slot))
  {
    hide Expected, Valid, Shows;
    var c := ChangePoints(buckets);
    forall slot ensures Shows(Timestamps(c), Column(c, s), slot, e(slot)) {
      ExpectedShows(buckets, s, slot, Column(c, s));
    }
  }

  lemma ChangeChart(c: Dataset, s: nat, day: nat, e: int -> int) returns (spots: seq<FlSpot>)
    requires Valid(c) && c != [] && InSlots(c, day) && s < Width(c)
    requires forall slot :: Shows(Timestamps(c), Column(c, s), slot, e(slot))
    ensures Spots(Timestamps(c), ColumnSum(c, s)) == Ok(spots) && |spots| == SLOTS_PER_DAY
    ensures (forall i :: 0 <= i < SLOTS_PER_DAY ==> spots[i] == FlSpot(i, 10 * e(SLOTS_PER_DAY * day + i)))
            <==> StepsFit(c, s, |c|)
  {
    hide Shows, Spots, StepsFit, Column, ColumnSum, Sorted, Uniform, Increasing;
    KeysIncrease(c);
    SumsRecoverColumn(c, s);
    spots := ChartOf(Timestamps(c), ColumnSum(c, s), day);
    ChartRightIffPointsRight(Timestamps(c), ColumnSum(c, s), Column(c, s), day, spots, e);
  }

  /** The chart of one component is right if and only if none of its steps wrapped. */
  lemma ColumnIff(buckets: Dataset, s: nat, day: nat) returns (spots: seq<FlSpot>)
    requires Valid(buckets) && buckets != [] && InSlots(buckets, day) && s < Width(buckets)
    ensures Valid(ChangePoints(buckets)) && Width(ChangePoints(buckets)) == Width(buckets)
    ensures var c := ChangePoints(buckets);
            && Spots(Timestamps(c), ColumnSum(c, s)) == Ok(spots)
            && (ColumnCorrect(spots, buckets, s, day) <==> StepsFit(c, s, |c|))
  {
    hide Shows, Spots, StepsFit, Column, ColumnSum, Sorted, Uniform, Expected;
    ChangePointsKeep(buckets);
    ChangesInSlots(buckets[1..], buckets[0].value, day);
    var e := slot => Expected(buckets, s, slot);
    ExpectedThroughTruth(buckets, s, e);
    spots := ChangeChart(ChangePoints(buckets), s, day, e);
  }

  lemma {:induction false} ChartsOk(timestamps: seq<int>, columns: seq<seq<int>>, charts: seq<seq<FlSpot>>)
    requires timestamps != [] && |charts| == |columns|
    requires forall s :: 0 <= s < |columns| ==> Spots(timestamps, columns[s]) == Ok(charts[s])
    ensures Charts(timestamps, columns) == Ok(charts)
  {
    hide Spots;
    if columns != [] {
      var n := |columns| - 1;
      ChartsOk(timestamps, columns[..n], charts[..n]);
      assert charts == charts[..n] + [charts[n]];
    }
  }

  ghost predicate ChartsCorrect(charts: seq<seq<FlSpot>>, buckets: Dataset, day: nat, width: nat) {
    |charts| == width && forall s :: 0 <= s < width ==> ColumnCorrect(charts[s], buckets, s, day)
  }

  lemma StepsFitIffSmall(c: Dataset, width: nat)
    requires Uniform(c, width)
    ensures SmallSteps(c) <==> forall s :: 0 <= s < width ==> StepsFit(c, s, |c|)
  {
    if SmallSteps(c) {
      forall s | 0 <= s < width ensures StepsFit(c, s, |c|) {
        forall j | 1 <= j < |c| ensures Fits16(At(c[j].value, s) as int - At(c[j - 1].value, s) as int) {
          assert SmallStep(c[j].value, c[j - 1].value);
        }
      }
    }
    if forall s :: 0 <= s < width ==> StepsFit(c, s, |c|) {
      forall j | 1 <= j < |c| ensures SmallStep(c[j].value, c[j - 1].value) {
        forall s | 0 <= s < width ensures -0x8000 <= c[j].value[s] as int - c[j - 1].value[s] as int < 0x8000 {
          assert StepsFit(c, s, |c|);
          assert Fits16(At(c[j].value, s) as int - At(c[j - 1].value, s) as int);
        }
      }
    }
  }

  /** Reading back what was written for a day yields one chart for each component. */
  lemma ChartsOfBytes(buckets: Dataset, day: nat, charts: seq<seq<FlSpot>>)
    requires Valid(buckets) && buckets != [] && InSlots(buckets, day) && Valid(ChangePoints(buckets))
    requires |charts| == Width(buckets)
    requires var c := ChangePoints(buckets);
             forall s :: 0 <= s < |charts| ==> Spots(Timestamps(c), ColumnSum(c, s)) == Ok(charts[s])
    ensures ArchivedCharts(CborEncoded(Compressed(buckets))) == Ok(charts)
  {
    CompressedSteps(buckets);
    ChangePointsKeep(buckets);
    hide Spots, Steps, ColumnSum, ArchivedCharts, CborEncoded, Compressed, Sorted;
    ChangesInSlots(buckets[1..], buckets[0].value, day);
    ChartsOfSteps(ChangePoints(buckets), day, charts);
  }

  lemma ChartsOfSteps(c: Dataset, day: nat, charts: seq<seq<FlSpot>>)
    requires Valid(c) && c != [] && InSlots(c, day) && |charts| == Width(c)
    requires forall s :: 0 <= s < |charts| ==> Spots(Timestamps(c), ColumnSum(c, s)) == Ok(charts[s])
    ensures ArchivedCharts(CborEncoded(Steps(c))) == Ok(charts)
  {
    FewPoints(c, day);
    StepsStorable(c);
    hide Spots, SumTo, Steps, CborEncoded, ReadArrays, Sorted, Timestamps, Column, Charts;
    hide AllPrefixSums, Arrays, ColumnSum;
    ReaderUndoesWriter(Steps(c));
    var columns := SumsOfArrays(c);
    ChartsOk(Timestamps(c), columns, charts);
  }

  /** What the reader makes of the arrays: the keys, and one column of sums for each component. */
  lemma SumsOfArrays(c: Dataset) returns (columns: seq<seq<int>>)
    requires Valid(c) && c != []
    ensures AllPrefixSums(Arrays(Steps(c))) == [Timestamps(c)] + columns && Timestamps(c) != []
    ensures |columns| == Width(c) && forall s :: 0 <= s < |columns| ==> columns[s] == ColumnSum(c, s)
  {
    SumsRecoverKeys(c);
    StepsWidth(c);
    hide Steps, Timestamps, Column, PrefixSums, AllPrefixSums, Arrays, Sorted;
    columns := SumsOfData(Steps(c));
  }

  lemma StepsWidth(c: Dataset)
    requires Valid(c) && c != []
    ensures Steps(c) != [] && Width(Steps(c)) == Width(c)
  {
    hide Sorted;
  }

  lemma SumsOfData(data: DeltaDataset) returns (columns: seq<seq<int>>)
    requires data != []
    ensures AllPrefixSums(Arrays(data)) == [PrefixSums(Timestamps(data))] + columns && |columns| == Width(data)
    ensures forall s :: 0 <= s < |columns| ==> columns[s] == PrefixSums(Column(data, s))
  {
    hide Timestamps, Column, PrefixSums;
    columns := AllPrefixSums(Arrays(data))[1..];
  }

  lemma FewPoints(c: Dataset, day: nat)
    requires Sorted(c) && c != [] && InSlots(c, day)
    ensures |c| <= SLOTS_PER_DAY
  {
    Spread(c, |c| - 1);
  }

  lemma StepsStorable(c: Dataset)
    requires Valid(c) && c != []
    ensures Uniform(Steps(c), Width(c)) && Width(Steps(c)) == Width(c)
    ensures forall k :: 0 <= k < |c| ==> Steps(c)[k].key < 0x1_0000_0000
  {
    hide Sorted;
    forall k | 0 <= k < |c| ensures |Steps(c)[k].value| == Width(c) && Steps(c)[k].key < 0x1_0000_0000 {
      if k > 0 {
        assert Steps(c)[k] == Pair(U32(c[k].key - c[k - 1].key), Difference(c[k].value, c[k - 1].value));
      }
    }
  }

  /**
   * End to end: the client always decodes an archived day, and its charts show 10 times the last bucket at or
   * before each slot, up to the last changed one, if and only if consecutive buckets differ by what int16 holds.
   */
  lemma EndToEnd(raw: Dataset, day: nat) returns (charts: seq<seq<FlSpot>>)
    requires Valid(raw) && InDay(raw, day)
    ensures ArchivedCharts(ArchiveBytes(raw, 300)) == Ok(charts)
    ensures var buckets := Downsampled(raw, 300, 10);
            ChartsCorrect(charts, buckets, day, Width(raw)) <==> SmallSteps(buckets)
  {
    var buckets := Downsampled(raw, 300, 10);
    DownsampledKeys(raw, 300, 10);
    BucketsInSlots(raw, day);
    if raw == [] {
      charts := [];
    } else {
      DownsampledValid(raw);
      charts := DecodedCharts(buckets, day);
      SmallChanges(buckets[1..], buckets[0]);
      assert [buckets[0]] + buckets[1..] == buckets;
    }
  }

  lemma DownsampledValid(raw: Dataset)
    requires Valid(raw)
    ensures Valid(Downsampled(raw, 300, 10)) && Width(Downsampled(raw, 300, 10)) == Width(raw)
  {
    DownsampledKeys(raw, 300, 10);
    var r := Downsampled(raw, 300, 10);
    forall i | 0 <= i < |r| ensures r[i].key < 0x1_0000_0000 {
      assert HasKey(r, r[i].key);
      var j :| 0 <= j < |Keyed(raw, 300)| && Keyed(raw, 300)[j].key == r[i].key;
    }
  }

  lemma DecodedCharts(buckets: Dataset, day: nat) returns (charts: seq<seq<FlSpot>>)
    requires Valid(buckets) && buckets != [] && InSlots(buckets, day)
    ensures ArchivedCharts(CborEncoded(Compressed(buckets))) == Ok(charts)
    ensures ChartsCorrect(charts, buckets, day, Width(buckets)) <==> SmallSteps(ChangePoints(buckets))
  {
    hide ColumnCorrect, StepsFit, Spots, ArchivedCharts;
    var c := ChangePoints(buckets);
    ChangePointsKeep(buckets);
    charts := [];
    while |charts| < Width(buckets)
      invariant |charts| <= Width(buckets)
      invariant forall s :: 0 <= s < |charts| ==>
                  && Spots(Timestamps(c), ColumnSum(c, s)) == Ok(charts[s])
                  && (ColumnCorrect(charts[s], buckets, s, day) <==> StepsFit(c, s, |c|))
    {
      var spots := ColumnIff(buckets, |charts|, day);
      charts := charts + [spots];
    }
    ChartsOfBytes(buckets, day, charts);
    StepsFitIffSmall(c, Width(buckets));
  }

  lemma SingleMean(v: int16)
    ensures Average([[v]], 1, 1) == [v]
  {
    MeanBounds([[v]], 0, v, v);
  }

  lemma WrappedBuckets(raw: Dataset)
    requires raw == [Pair(0, [-20000]), Pair(300, [20000])]
    ensures Downsampled(raw, 300, 10) == [Pair(0, [-20000]), Pair(1, [20000])]
    ensures !SmallSteps(Downsampled(raw, 300, 10))
  {
    hide Average, Buckets;
    var keyed := Keyed(raw, 300);
    assert keyed == [Pair(0, [-20000]), Pair(1, [20000])];
    TwoBuckets([-20000], [20000]);
    SingleMean(-20000);
    SingleMean(20000);
    var m: Rows<seq<Datapoint>> := [Pair(0, [[-20000]]), Pair(1, [[20000]])];
    TwoAverages(m);
    var r := Downsampled(raw, 300, 10);
    assert r == [Pair(0, [-20000]), Pair(1, [20000])];
    assert r[1].value[0] as int - r[0].value[0] as int == 40000;
    assert !SmallStep(r[1].value, r[0].value);
  }

  /** Two samples in different buckets. */
  lemma TwoBuckets(v: Datapoint, w: Datapoint)
    ensures Buckets([Pair(0, v), Pair(1, w)]) == [Pair(0, [v]), Pair(1, [w])]
  {
    var one: Dataset := [Pair(0, v)];
    var two: Dataset := [Pair(0, v), Pair(1, w)];
    assert two[..1] == one && one[..0] == [];
    assert Buckets(one) == [Pair(0, [v])] by { assert [] + [v] == [v]; }
    assert Get(Buckets(one), 1, []) == [] by { assert Buckets(one)[..0] == []; }
    assert [] + [w] == [w];
  }

  lemma TwoAverages(m: Rows<seq<Datapoint>>)
    requires |m| == 2 && WellFilled(m)
    ensures Averages(m, 1, 1)
         == [Pair(m[0].key, Average(m[0].value, 1, 1)), Pair(m[1].key, Average(m[1].value, 1, 1))]
  {
    hide Average;
  }

  /** A day on which the chart is wrong: one step of 400 kW does not fit into the int16 of the delta list. */
  lemma WrappedDay() returns (raw: Dataset, charts: seq<seq<FlSpot>>)
    ensures Valid(raw) && InDay(raw, 0)
    ensures ArchivedCharts(ArchiveBytes(raw, 300)) == Ok(charts)
    ensures !ChartsCorrect(charts, Downsampled(raw, 300, 10), 0, Width(raw))
  {
    hide ArchivedCharts, ChartsCorrect, SmallSteps, Downsampled;
    raw := [Pair(0, [-20000]), Pair(300, [20000])];
    WrappedBuckets(raw);
    charts := EndToEnd(raw, 0);
  }

  lemma {:induction false} LastChangeFrom(ds: Dataset, last: Datapoint)
    requires Sorted(ds)
    ensures var c := ChangesFrom(ds, last);
            && (if c == [] then last else c[|c| - 1].value) == (if ds == [] then last else ds[|ds| - 1].value)
            && (c != [] ==> c[|c| - 1].key <= ds[|ds| - 1].key)
  {
    if ds != [] {
      LastChangeFrom(ds[1..], ds[0].value);
    }
  }

  /**
   * The tail: the chart follows the buckets up to the last one if and only if the last bucket is itself
   * a change, or the value that has stopped changing is 0.
   */
  lemma TailShown(buckets: Dataset, s: nat)
    requires Valid(buckets) && buckets != []
    ensures var c, end := ChangePoints(buckets), buckets[|buckets| - 1];
            (forall slot :: slot <= end.key ==> Expected(buckets, s, slot) == At(Hold(buckets, slot, []), s))
            <==> (c[|c| - 1].key == end.key || At(end.value, s) == 0)
  {
    var c, end := ChangePoints(buckets), buckets[|buckets| - 1];
    ChangePointsKeep(buckets);
    LastChange(buckets);
    assert Hold(buckets, end.key, []) == end.value;
    if c[|c| - 1].key < end.key {
      assert Expected(buckets, s, end.key) == 0;
      forall slot | c[|c| - 1].key < slot <= end.key ensures Hold(buckets, slot, []) == end.value {
        SameHold(buckets, slot);
      }
    }
  }

  /**
   * The tail of the decoded chart: where no step wraps, it follows the buckets up to the last one if and only if
   * the last bucket is itself a change, or the value that has stopped changing is 0.
   */
  lemma ChartTail(raw: Dataset, day: nat, s: nat) returns (charts: seq<seq<FlSpot>>)
    requires Valid(raw) && InDay(raw, day) && raw != [] && s < Width(raw) && SmallSteps(Downsampled(raw, 300, 10))
    ensures ArchivedCharts(ArchiveBytes(raw, 300)) == Ok(charts)
    ensures |charts| == Width(raw) && |charts[s]| == SLOTS_PER_DAY
    ensures Downsampled(raw, 300, 10) != [] && ChangePoints(Downsampled(raw, 300, 10)) != []
    ensures var buckets := Downsampled(raw, 300, 10);
            var c, end := ChangePoints(buckets), buckets[|buckets| - 1];
            FollowsUpTo(charts[s], buckets, s, day, end.key) <==> (c[|c| - 1].key == end.key || At(end.value, s) == 0)
  {
    hide Downsampled, ArchivedCharts, ArchiveBytes, SmallSteps;
    charts := EndToEnd(raw, day);
    DownsampledKeys(raw, 300, 10);
    DownsampledValid(raw);
    BucketsInSlots(raw, day);
    TailOfColumn(charts[s], Downsampled(raw, 300, 10), s, day);
  }

  /** In every slot of the day up to `last`, the spots show the value held by the buckets. */
  ghost predicate FollowsUpTo(spots: seq<FlSpot>, buckets: Dataset, s: nat, day: nat, last: int)
    requires |spots| == SLOTS_PER_DAY
  {
    forall i :: 0 <= i < SLOTS_PER_DAY && SLOTS_PER_DAY * day + i <= last ==>
      spots[i].y == 10 * At(Hold(buckets, SLOTS_PER_DAY * day + i, []), s)
  }

  lemma TailOfColumn(spots: seq<FlSpot>, buckets: Dataset, s: nat, day: nat)
    requires Valid(buckets) && buckets != [] && InSlots(buckets, day) && ColumnCorrect(spots, buckets, s, day)
    ensures var c, end := ChangePoints(buckets), buckets[|buckets| - 1];
            && c != []
            && (FollowsUpTo(spots, buckets, s, day, end.key) <==> (c[|c| - 1].key == end.key || At(end.value, s) == 0))
  {
    var c, end := ChangePoints(buckets), buckets[|buckets| - 1];
    LastChange(buckets);
    TailShown(buckets, s);
    hide ChangePoints, Valid, At;
    assert Hold(buckets, end.key, []) == end.value;
    hide Hold;
    var i := end.key - SLOTS_PER_DAY * day;
    assert spots[i] == FlSpot(i, 10 * Expected(buckets, s, SLOTS_PER_DAY * day + i));
    assert SLOTS_PER_DAY * day + i == end.key;
    assert c[|c| - 1].key < end.key ==> Expected(buckets, s, end.key) == 0;
  }

  lemma LastChange(buckets: Dataset)
    requires Valid(buckets) && buckets != []
    ensures var c, end := ChangePoints(buckets), buckets[|buckets| - 1];
            c != [] && c[|c| - 1].key <= end.key && c[|c| - 1].value == end.value
  {
    hide Uniform;
    assert Sorted(buckets[1..]);
    LastChangeFrom(buckets[1..], buckets[0].value);
  }
}
