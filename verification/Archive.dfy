/** The whole archive path: raw day, downsample, delta, CBOR bytes, web client, chart. */
module Archive {
  import opened Words
  import opened OrderedMap
  import opened Downsampling
  import opened Delta
  import opened Cbor
  import opened CborReader
  import opened Lists
  import opened ReadBack

  /** What `ArchiveDayUseCase` stores for a day, `factor` being the resolution in seconds. */
  function ArchiveBytes(raw: Dataset, factor: nat): seq<byte>
    requires Sorted(raw) && Uniform(raw, Width(raw)) && factor > 0
  {
    DownsampledKeys(raw, factor, 10);
    CborEncoded(Compressed(Downsampled(raw, factor, 10)))
  }

  method ArchiveDay(raw: Dataset, factor: nat) returns (bytes: seq<byte>)
    requires Sorted(raw) && Uniform(raw, Width(raw)) && factor > 0
    ensures bytes == ArchiveBytes(raw, factor)
  {
    DownsampledKeys(raw, factor, 10);
    var buckets := Downsample(raw, factor, 10);
    var deltas := DeltaCompress(buckets);
    bytes := CborEncode(deltas);
  }

  /** The differences between consecutive rows, the first row as it is. */
  function Steps(c: Dataset): (r: DeltaDataset)
    requires Uniform(c, Width(c))
    ensures |r| == |c|
  {
    seq(|c|, k requires 0 <= k < |c| =>
      if k == 0 then c[0] else Pair(U32(c[k].key - c[k - 1].key), Difference(c[k].value, c[k - 1].value)))
  }

  lemma {:induction false} StepsFrom(ds: Dataset, t: nat, v: Datapoint, k: nat)
    requires Uniform(ds, |v|) && k < |CompressFrom(ds, t, v)|
    ensures var c := [Pair(t, v)] + ChangesFrom(ds, v);
            && |c| == |CompressFrom(ds, t, v)| + 1 && |c[k].value| == |c[k + 1].value| == |v|
            && CompressFrom(ds, t, v)[k] == Pair(U32(c[k + 1].key - c[k].key), Difference(c[k + 1].value, c[k].value))
  {
    hide U32, Difference, AllZero;
    SameLength(ds, t, v);
    DifferenceFaithful(ds[0].value, v);
    if ds[0].value == v {
      StepsFrom(ds[1..], t, v, k);
    } else if k > 0 {
      StepsFrom(ds[1..], ds[0].key, ds[0].value, k - 1);
      assert [ds[0]] == [Pair(ds[0].key, ds[0].value)];
    }
  }

  lemma {:induction false} SameLength(ds: Dataset, t: nat, v: Datapoint)
    requires Uniform(ds, |v|)
    ensures |CompressFrom(ds, t, v)| == |ChangesFrom(ds, v)|
  {
    if ds != [] {
      DifferenceFaithful(ds[0].value, v);
      if ds[0].value == v {
        SameLength(ds[1..], t, v);
      } else {
        SameLength(ds[1..], ds[0].key, ds[0].value);
      }
    }
  }

  lemma CompressedStepAt(ds: Dataset, k: nat)
    requires Valid(ds) && Valid(ChangePoints(ds)) && |Compressed(ds)| == |ChangePoints(ds)| && k < |ChangePoints(ds)|
    ensures Compressed(ds)[k] == Steps(ChangePoints(ds))[k]
  {
    hide U32, Difference, CompressFrom, ChangesFrom, Sorted;
    if k > 0 {
      StepsFrom(ds[1..], ds[0].key, ds[0].value, k - 1);
      assert [ds[0]] == [Pair(ds[0].key, ds[0].value)];
    }
  }

  /** The compressed list holds exactly the steps between change points. */
  lemma CompressedSteps(ds: Dataset)
    requires Valid(ds)
    ensures Valid(ChangePoints(ds)) && Compressed(ds) == Steps(ChangePoints(ds))
  {
    hide Steps, CompressFrom, ChangesFrom;
    ChangePointsKeep(ds);
    if ds != [] {
      SameLength(ds[1..], ds[0].key, ds[0].value);
      var c := ChangePoints(ds);
      assert |Compressed(ds)| == |c|;
      hide Compressed, ChangePoints;
      forall k | 0 <= k < |c| ensures Compressed(ds)[k] == Steps(c)[k] {
        CompressedStepAt(ds, k);
      }
    }
  }

  lemma TimestampStep(c: Dataset, k: nat)
    requires Valid(c) && 0 < k < |c|
    ensures Timestamps(Steps(c))[k] == c[k].key - c[k - 1].key
  {
    TimestampBack(c[k - 1].key, c[k].key);
  }

  lemma {:induction false} TimestampSums(c: Dataset, k: nat)
    requires Valid(c) && k < |c|
    ensures SumTo(Timestamps(Steps(c)), k + 1) == c[k].key
  {
    var ts := Timestamps(Steps(c));
    assert SumTo(ts, 0) == 0;
    if k > 0 {
      hide Valid, Timestamps;
      TimestampSums(c, k - 1);
      TimestampStep(c, k);
    }
  }

  /** Component `s` of every step up to row `k` fits into an int16. */
  ghost predicate StepsFit(c: Dataset, s: nat, k: nat) {
    forall j :: 1 <= j <= k && j < |c| ==> Fits16(At(c[j].value, s) as int - At(c[j - 1].value, s) as int)
  }

  ghost predicate SumsExact(c: Dataset, s: nat, k: nat)
    requires Valid(c)
  {
    forall j :: 0 <= j <= k && j < |c| ==> SumTo(Column(Steps(c), s), j + 1) == At(c[j].value, s)
  }

  lemma StepComponent(c: Dataset, s: nat, k: nat)
    requires Valid(c) && 0 < k < |c| && s < Width(c)
    ensures Column(Steps(c), s)[k] == Wrap16(At(c[k].value, s) as int - At(c[k - 1].value, s) as int)
  {
  }

  /** The reader's running sums are exact up to row `k` if and only if no step up to there has wrapped. */
  lemma {:induction false} ColumnSums(c: Dataset, s: nat, k: nat)
    requires Valid(c) && k < |c| && s < Width(c)
    ensures SumsExact(c, s, k) <==> StepsFit(c, s, k)
  {
    hide Wrap16, At;
    var col := Column(Steps(c), s);
    assert SumTo(col, 0) == 0;
    if k == 0 {
      assert SumTo(col, 1) == col[0] == At(c[0].value, s);
    } else {
      ColumnSums(c, s, k - 1);
      StepComponent(c, s, k);
      WrappedDifference(At(c[k].value, s), At(c[k - 1].value, s));
      assert SumTo(col, k + 1) == SumTo(col, k) + col[k];
      assert SumsExact(c, s, k) <==> SumsExact(c, s, k - 1) && SumTo(col, k + 1) == At(c[k].value, s);
      assert StepsFit(c, s, k)
        <==> StepsFit(c, s, k - 1) && Fits16(At(c[k].value, s) as int - At(c[k - 1].value, s) as int);
    }
  }

  /** Point `k` is the one that shows at `slot`: the last one at or before it, and none after the end. */
  ghost predicate Current(ts: seq<int>, slot: int, k: int) {
    && 0 <= k < |ts| && ts[k] <= slot
    && (k + 1 < |ts| ==> slot < ts[k + 1])
    && (k + 1 == |ts| ==> slot == ts[k])
  }

  /** `y` is what a step function through the points shows at `slot`: nothing outside the first and last point. */
  ghost predicate Shows(ts: seq<int>, vs: seq<int>, slot: int, y: int)
    requires |ts| == |vs| > 0
  {
    && (slot < ts[0] || slot > ts[|ts| - 1] ==> y == 0)
    && forall k :: Current(ts, slot, k) ==> y == vs[k]
  }

  ghost predicate Increasing(ts: seq<int>) {
    forall i, j :: 0 <= i < j < |ts| ==> ts[i] < ts[j]
  }

  /** The cursor before `slot`: the points before it are used up, and the last of them is showing. */
  ghost predicate CursorAt(ts: seq<int>, vs: seq<int>, slot: int, c: Cursor)
    requires |ts| == |vs|
  {
    && c.srcIndex <= |ts|
    && (forall k :: 0 <= k < c.srcIndex ==> ts[k] < slot)
    && (forall k :: c.srcIndex <= k < |ts| ==> slot <= ts[k])
    && (c.srcIndex < |ts| ==> c.lastY == if c.srcIndex == 0 then 0 else vs[c.srcIndex - 1])
  }

  lemma CursorStep(ts: seq<int>, vs: seq<int>, slot: int, c: Cursor)
    requires |ts| == |vs| > 0 && Increasing(ts) && CursorAt(ts, vs, slot, c)
    ensures var r := Advance(ts, vs, slot, c);
            r.Ok? && CursorAt(ts, vs, slot + 1, r.value) && Shows(ts, vs, slot, r.value.lastY)
  {
    if c.srcIndex < |ts| {
      assert forall k :: c.srcIndex < k < |ts| ==> ts[c.srcIndex] < ts[k];
    }
  }

  lemma {:induction false} SpotsShow(ts: seq<int>, vs: seq<int>, dayStart: int, i: nat, c: Cursor)
    requires |ts| == |vs| > 0 && Increasing(ts) && CursorAt(ts, vs, dayStart + i, c) && i <= SLOTS_PER_DAY
    ensures var r := SpotsFrom(ts, vs, dayStart, i, c);
            && r.Ok? && |r.value| == SLOTS_PER_DAY - i
            && forall j :: 0 <= j < |r.value| ==>
                 r.value[j].x == i + j && r.value[j].y % 10 == 0 && Shows(ts, vs, dayStart + i + j, r.value[j].y / 10)
    decreases SLOTS_PER_DAY - i
  {
    hide Shows, CursorAt, Advance;
    if i < SLOTS_PER_DAY {
      CursorStep(ts, vs, dayStart + i, c);
      var c' := Advance(ts, vs, dayStart + i, c).value;
      SpotsShow(ts, vs, dayStart, i + 1, c');
      var rest := SpotsFrom(ts, vs, dayStart, i + 1, c').value;
      var all := [FlSpot(i, c'.lastY * 10)] + rest;
      assert SpotsFrom(ts, vs, dayStart, i, c) == Ok(all);
      forall j | 0 <= j < |all|
        ensures all[j].x == i + j && all[j].y % 10 == 0 && Shows(ts, vs, dayStart + i + j, all[j].y / 10)
      {
        if j > 0 {
          assert all[j] == rest[j - 1];
          assert dayStart + i + j == dayStart + (i + 1) + (j - 1);
        }
      }
    }
  }

  ghost predicate InDay(raw: Dataset, day: nat) {
    forall i :: 0 <= i < |raw| ==> SECONDS_PER_DAY * day <= raw[i].key < SECONDS_PER_DAY * (day + 1)
  }

  /** Consecutive values differ by what an int16 can hold. */
  ghost predicate SmallStep(a: Datapoint, b: Datapoint) {
    forall s :: 0 <= s < |a| && s < |b| ==> -0x8000 <= a[s] as int - b[s] as int < 0x8000
  }

  ghost predicate SmallSteps(ds: Dataset) {
    forall j :: 1 <= j < |ds| ==> SmallStep(ds[j].value, ds[j - 1].value)
  }

  lemma {:induction false} SmallChanges(ds: Dataset, first: Pair<Datapoint>)
    ensures SmallSteps([first] + ds) <==> SmallSteps([first] + ChangesFrom(ds, first.value))
  {
    hide SmallStep;
    if ds != [] {
      var rest, whole := ds[1..], [first] + ds;
      assert whole == [first] + ([ds[0]] + rest);
      SplitSteps(first, ds[0], rest);
      if ds[0].value == first.value {
        assert SmallStep(ds[0].value, first.value) by { SameStep(first.value); }
        SmallChanges(rest, first);
        SwapHead(first, ds[0], rest);
      } else {
        SmallChanges(rest, ds[0]);
        SplitSteps(first, ds[0], ChangesFrom(rest, ds[0].value));
      }
    }
  }

  lemma SameStep(v: Datapoint)
    ensures SmallStep(v, v)
  {
  }

  lemma SplitSteps(a: Pair<Datapoint>, b: Pair<Datapoint>, rest: Dataset)
    ensures SmallSteps([a] + ([b] + rest)) <==> SmallStep(b.value, a.value) && SmallSteps([b] + rest)
  {
    hide SmallStep;
    var whole, tail := [a] + ([b] + rest), [b] + rest;
    assert forall j :: 1 <= j < |whole| ==> whole[j] == tail[j - 1];
    if SmallStep(b.value, a.value) && SmallSteps(tail) {
      forall j | 1 <= j < |whole| ensures SmallStep(whole[j].value, whole[j - 1].value) {
        if j > 1 { assert SmallStep(tail[j - 1].value, tail[j - 2].value); }
      }
    }
    if SmallSteps(whole) {
      assert SmallStep(whole[1].value, whole[0].value);
      forall j | 1 <= j < |tail| ensures SmallStep(tail[j].value, tail[j - 1].value) {
        assert SmallStep(whole[j + 1].value, whole[j].value);
      }
    }
  }

  lemma SwapHead(a: Pair<Datapoint>, b: Pair<Datapoint>, rest: Dataset)
    requires a.value == b.value
    ensures SmallSteps([a] + rest) <==> SmallSteps([b] + rest)
  {
    hide SmallStep;
    var x, y := [a] + rest, [b] + rest;
    assert forall j :: 0 <= j < |x| ==> x[j].value == y[j].value;
  }

  /** The value the chart is meant to show: what the buckets hold, between the first bucket and the last change. */
  function Expected(buckets: Dataset, s: nat, slot: int): int {
    var c := ChangePoints(buckets);
    if c == [] || slot > c[|c| - 1].key then 0 else At(Hold(buckets, slot, []), s)
  }

  /** Outside the change points nothing is expected. */
  lemma ExpectedOutside(buckets: Dataset, s: nat, slot: int)
    requires Valid(buckets) && buckets != []
    ensures var c := ChangePoints(buckets);
            c != [] && (slot < c[0].key || slot > c[|c| - 1].key ==> Expected(buckets, s, slot) == 0)
  {
    var c := ChangePoints(buckets);
    assert c != [];
    ChangePointsKeep(buckets);
    SameHold(buckets, slot);
    hide ChangePoints, Hold;
    if slot < c[0].key {
      HoldBefore(c, slot, []);
    }
  }

  /** Point `k` is expected as long as it is current. */
  lemma ExpectedAt(buckets: Dataset, s: nat, slot: int, k: int)
    requires Valid(buckets) && buckets != [] && Current(Timestamps(ChangePoints(buckets)), slot, k)
    ensures var c := ChangePoints(buckets); Expected(buckets, s, slot) == At(c[k].value, s)
  {
    var c := ChangePoints(buckets);
    ChangePointsKeep(buckets);
    SameHold(buckets, slot);
    KeyAt(c, k);
    hide ChangePoints, Hold, Timestamps;
    HoldReads(c, k, slot, []);
    assert c[k].key <= c[|c| - 1].key;
  }

  lemma KeyAt(c: Dataset, k: int)
    ensures 0 <= k < |c| ==> Timestamps(c)[k] == c[k].key
    ensures 0 <= k + 1 < |c| ==> Timestamps(c)[k + 1] == c[k + 1].key
  {
  }

  lemma ExpectedShows(buckets: Dataset, s: nat, slot: int, vs: seq<int>)
    requires Valid(buckets) && buckets != []
    requires var c := ChangePoints(buckets); |vs| == |c| && forall k :: 0 <= k < |c| ==> vs[k] == At(c[k].value, s)
    ensures Shows(Timestamps(ChangePoints(buckets)), vs, slot, Expected(buckets, s, slot))
  {
    var c := ChangePoints(buckets);
    hide ChangePoints, Valid, At, Expected, Current;
    ExpectedOutside(buckets, s, slot);
    assert Timestamps(c)[0] == c[0].key && Timestamps(c)[|c| - 1] == c[|c| - 1].key;
    forall k | Current(Timestamps(c), slot, k)
      ensures 0 <= k < |c| ==> Expected(buckets, s, slot) == vs[k]
    {
      ExpectedAt(buckets, s, slot, k);
    }
    assert forall k :: Current(Timestamps(c), slot, k) ==> 0 <= k < |c| by { CurrentInRange(Timestamps(c), slot); }
  }

  lemma CurrentInRange(ts: seq<int>, slot: int)
    ensures forall k :: Current(ts, slot, k) ==> 0 <= k < |ts|
  {
  }

  lemma SameHold(buckets: Dataset, slot: int)
    requires Valid(buckets)
    ensures Hold(ChangePoints(buckets), slot, []) == Hold(buckets, slot, [])
  {
    CompressionRoundTrip(buckets);
    CompressionKeepsMeaning(buckets, slot, []);
  }

  /** Two step functions through the same points agree everywhere exactly when the points agree. */
  lemma ShowsDetermine(ts: seq<int>, vs: seq<int>, slot: int, y: int, z: int)
    requires |ts| == |vs| > 0 && Increasing(ts) && Shows(ts, vs, slot, y) && Shows(ts, vs, slot, z)
    ensures y == z
  {
    if ts[0] <= slot <= ts[|ts| - 1] {
      var k := LastBefore(ts, slot, |ts|);
      assert Current(ts, slot, k);
    }
  }

  lemma {:induction false} LastBefore(ts: seq<int>, slot: int, n: nat) returns (k: nat)
    requires 0 < n <= |ts| && Increasing(ts) && ts[0] <= slot && (n < |ts| ==> slot < ts[n])
    ensures k < n && ts[k] <= slot && (k + 1 < |ts| ==> slot < ts[k + 1])
  {
    if ts[n - 1] <= slot {
      k := n - 1;
    } else {
      k := LastBefore(ts, slot, n - 1);
    }
  }
}
