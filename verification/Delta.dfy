/** `DatabaseUtil::deltaCompress` and `deltaDecompress`. */
module Delta {
  import opened Words
  import opened OrderedMap
  import opened Downsampling

  type DeltaDataset = seq<Pair<Datapoint>>

  /** `int16_t` difference, wrap-around included. */
  function Difference(a: Datapoint, b: Datapoint): (d: Datapoint)
    requires |a| == |b|
    ensures |d| == |a|
  {
    seq(|a|, i requires 0 <= i < |a| => Wrap16(a[i] as int - b[i] as int))
  }

  function Sum(a: Datapoint, d: Datapoint): (r: Datapoint)
    requires |a| == |d|
    ensures |r| == |a|
  {
    seq(|a|, i requires 0 <= i < |a| => Wrap16(a[i] as int + d[i] as int))
  }

  predicate AllZero(d: Datapoint) {
    forall i :: 0 <= i < |d| ==> d[i] == 0
  }

  lemma DifferenceFaithful(a: Datapoint, b: Datapoint)
    requires |a| == |b|
    ensures AllZero(Difference(a, b)) <==> a == b
    ensures Sum(b, Difference(a, b)) == a
  {
    forall i | 0 <= i < |a|
      ensures Sum(b, Difference(a, b))[i] == a[i] && (Difference(a, b)[i] == 0 <==> a[i] == b[i])
    {
      WrappedDifference(a[i], b[i]);
    }
  }

  /** Timestamps are `uint32_t`, every datapoint has the width of the first. */
  ghost predicate Valid(ds: Dataset) {
    Sorted(ds) && Uniform(ds, Width(ds)) && forall i :: 0 <= i < |ds| ==> ds[i].key < 0x1_0000_0000
  }

  function CompressFrom(ds: Dataset, lastTimestamp: nat, last: Datapoint): (r: DeltaDataset)
    requires Uniform(ds, |last|)
    ensures Uniform(r, |last|)
  {
    if ds == [] then []
    else
      var d := Difference(ds[0].value, last);
      if AllZero(d) then CompressFrom(ds[1..], lastTimestamp, last)
      else [Pair(U32(ds[0].key - lastTimestamp), d)] + CompressFrom(ds[1..], ds[0].key, ds[0].value)
  }

  function Compressed(ds: Dataset): (r: DeltaDataset)
    requires Uniform(ds, Width(ds))
    ensures Uniform(r, Width(ds)) && Width(r) == Width(ds)
  {
    if ds == [] then [] else [ds[0]] + CompressFrom(ds[1..], ds[0].key, ds[0].value)
  }

  method DeltaCompress(dataset: Dataset) returns (deltaDataset: DeltaDataset)
    requires Uniform(dataset, Width(dataset))
    ensures deltaDataset == Compressed(dataset)
  {
    deltaDataset := [];
    var lastTimestamp: nat, lastDatapoint: Datapoint := 0, [];
    var first := true;
    for j := 0 to |dataset|
      invariant first <==> j == 0
      invariant first ==> deltaDataset == []
      invariant !first ==> |lastDatapoint| == Width(dataset)
      invariant !first ==>
                  Compressed(dataset) == deltaDataset + CompressFrom(dataset[j..], lastTimestamp, lastDatapoint)
    {
      var timestamp, datapoint := dataset[j].key, dataset[j].value;
      assert dataset[j..][1..] == dataset[j + 1..];
      if first {
        deltaDataset := deltaDataset + [Pair(timestamp, datapoint)];
        lastTimestamp, lastDatapoint, first := timestamp, datapoint, false;
      } else {
        var deltaTimestamp := U32(timestamp - lastTimestamp);
        var deltaDatapoint: Datapoint := [];
        for i := 0 to |datapoint|
          invariant deltaDatapoint == Difference(datapoint, lastDatapoint)[..i]
        {
          deltaDatapoint := deltaDatapoint + [Wrap16(datapoint[i] as int - lastDatapoint[i] as int)];
        }
        assert deltaDatapoint == Difference(datapoint, lastDatapoint);
        if AllZero(deltaDatapoint) {
          continue;
        }
        deltaDataset := deltaDataset + [Pair(deltaTimestamp, deltaDatapoint)];
        lastTimestamp, lastDatapoint := timestamp, datapoint;
      }
    }
  }

  function DecompressFrom(deltas: DeltaDataset, timestamp: nat, current: Datapoint, samples: Dataset): Dataset
    requires Uniform(deltas, |current|)
  {
    if deltas == [] then samples
    else
      var t, v := U32(timestamp + deltas[0].key), Sum(current, deltas[0].value);
      DecompressFrom(deltas[1..], t, v, Put(samples, t, v))
  }

  function Decompressed(deltas: DeltaDataset): Dataset
    requires Uniform(deltas, Width(deltas))
  {
    if deltas == [] then []
    else
      var t, v := U32(deltas[0].key), deltas[0].value;
      DecompressFrom(deltas[1..], t, v, Put([], t, v))
  }

  method DeltaDecompress(deltaData: DeltaDataset) returns (samples: Dataset)
    requires Uniform(deltaData, Width(deltaData))
    ensures samples == Decompressed(deltaData)
  {
    samples := [];
    var currentTimestamp: uint32, currentValue: Datapoint := 0, [];
    var first := true;
    for j := 0 to |deltaData|
      invariant first <==> j == 0
      invariant first ==> samples == [] && currentTimestamp == 0
      invariant !first ==> |currentValue| == Width(deltaData)
      invariant !first ==>
                  Decompressed(deltaData) == DecompressFrom(deltaData[j..], currentTimestamp, currentValue, samples)
    {
      assert deltaData[j..][1..] == deltaData[j + 1..];
      var deltaValue := deltaData[j].value;
      currentTimestamp := U32(currentTimestamp + deltaData[j].key);
      if first {
        currentValue, first := deltaValue, false;
      } else {
        var vec: Datapoint := [];
        for i := 0 to |deltaValue|
          invariant vec == Sum(currentValue, deltaValue)[..i]
        {
          vec := vec + [Wrap16(currentValue[i] as int + deltaValue[i] as int)];
        }
        assert vec == Sum(currentValue, deltaValue);
        currentValue := vec;
      }
      samples := Put(samples, currentTimestamp, currentValue);
    }
  }

  /** The rows whose value differs from the previous row's. */
  function ChangesFrom(ds: Dataset, last: Datapoint): Dataset {
    if ds == [] then []
    else if ds[0].value == last then ChangesFrom(ds[1..], last)
    else [ds[0]] + ChangesFrom(ds[1..], ds[0].value)
  }

  /** The first row and every row whose value differs from its predecessor's. */
  function ChangePoints(ds: Dataset): Dataset {
    if ds == [] then [] else [ds[0]] + ChangesFrom(ds[1..], ds[0].value)
  }

  /** Membership states `ChangePoints` without its recursion. */
  lemma {:induction false} ChangesFromMeaning(ds: Dataset, last: Datapoint, i: nat)
    requires Sorted(ds) && i < |ds|
    ensures ds[i] in ChangesFrom(ds, last) <==> ds[i].value != if i == 0 then last else ds[i - 1].value
    ensures forall p | p in ChangesFrom(ds, last) :: p in ds
  {
    var rest, next := ds[1..], ds[0].value;
    assert ds == [ds[0]] + rest;
    if i > 0 {
      ChangesFromMeaning(rest, if next == last then last else next, i - 1);
      assert rest[i - 1] == ds[i];
    } else if rest != [] {
      ChangesFromMeaning(rest, if next == last then last else next, 0);
      assert ds[0] !in rest;
    }
  }

  lemma ChangePointsMeaning(ds: Dataset, i: nat)
    requires Sorted(ds) && i < |ds|
    ensures ds[i] in ChangePoints(ds) <==> (i == 0 || ds[i].value != ds[i - 1].value)
    ensures forall p | p in ChangePoints(ds) :: p in ds
  {
    assert ds == [ds[0]] + ds[1..];
    if 1 < |ds| {
      ChangesFromMeaning(ds[1..], ds[0].value, if i > 0 then i - 1 else 0);
    }
  }

  ghost predicate Below(ds: Dataset, limit: int) {
    forall i :: 0 <= i < |ds| ==> ds[i].key < limit
  }

  ghost predicate Above(ds: Dataset, bound: int) {
    forall i :: 0 <= i < |ds| ==> bound < ds[i].key
  }

  lemma {:induction false} ChangesKeep(ds: Dataset, last: Datapoint, bound: int, limit: int)
    requires Sorted(ds) && Above(ds, bound) && Below(ds, limit) && Uniform(ds, |last|)
    ensures var c := ChangesFrom(ds, last);
            Sorted(c) && Above(c, bound) && Below(c, limit) && Uniform(c, |last|)
  {
    if ds != [] {
      if ds[0].value == last {
        ChangesKeep(ds[1..], last, bound, limit);
      } else {
        ChangesKeep(ds[1..], ds[0].value, ds[0].key, limit);
      }
    }
  }

  lemma ChangePointsKeep(ds: Dataset)
    requires Valid(ds)
    ensures Valid(ChangePoints(ds)) && Width(ChangePoints(ds)) == Width(ds)
  {
    if ds != [] {
      ChangesKeep(ds[1..], ds[0].value, ds[0].key, 0x1_0000_0000);
    }
  }

  lemma {:induction false} RestoreFrom(ds: Dataset, t: nat, v: Datapoint, samples: Dataset)
    requires Sorted(ds) && Above(ds, t) && Below(ds, 0x1_0000_0000) && Uniform(ds, |v|)
    requires samples != [] && samples[|samples| - 1].key <= t
    ensures DecompressFrom(CompressFrom(ds, t, v), t, v, samples) == samples + ChangesFrom(ds, v)
  {
    hide Difference, Sum, AllZero, U32;
    if ds != [] {
      DifferenceFaithful(ds[0].value, v);
      if ds[0].value == v {
        RestoreFrom(ds[1..], t, v, samples);
      } else {
        ReadDelta(ds[0], CompressFrom(ds[1..], ds[0].key, ds[0].value), t, v, samples);
        RestoreFrom(ds[1..], ds[0].key, ds[0].value, samples + [ds[0]]);
      }
    }
  }

  lemma TimestampBack(t: nat, k: nat)
    requires t <= k < 0x1_0000_0000
    ensures U32(k - t) == k - t && U32(t + U32(k - t)) == k
  {
  }

  /** The reader of one delta appends the row it was made from. */
  lemma ReadDelta(row: Pair<Datapoint>, rest: DeltaDataset, t: nat, v: Datapoint, samples: Dataset)
    requires t < row.key < 0x1_0000_0000 && |row.value| == |v| && Uniform(rest, |v|)
    requires samples != [] && samples[|samples| - 1].key <= t
    ensures var delta := Pair(U32(row.key - t), Difference(row.value, v));
            && Uniform([delta] + rest, |v|)
            && DecompressFrom([delta] + rest, t, v, samples)
               == DecompressFrom(rest, row.key, row.value, samples + [row])
  {
    hide Difference, Sum, U32;
    DifferenceFaithful(row.value, v);
    TimestampBack(t, row.key);
    var deltas := [Pair(U32(row.key - t), Difference(row.value, v))] + rest;
    assert deltas[1..] == rest;
    assert Put(samples, row.key, row.value) == samples + [row];
  }

  /** Decompression recovers exactly the change points, wrapped differences included. */
  lemma CompressionRoundTrip(ds: Dataset)
    requires Valid(ds)
    ensures Decompressed(Compressed(ds)) == ChangePoints(ds)
  {
    if ds != [] {
      assert Compressed(ds)[1..] == CompressFrom(ds[1..], ds[0].key, ds[0].value);
      assert U32(ds[0].key) == ds[0].key;
      assert Put([], ds[0].key, ds[0].value) == [ds[0]];
      RestoreFrom(ds[1..], ds[0].key, ds[0].value, [ds[0]]);
    }
  }

  lemma {:induction false} HoldChanges(ds: Dataset, last: Datapoint, t: int)
    requires Sorted(ds) && Uniform(ds, |last|) && Below(ds, 0x1_0000_0000)
    ensures Hold(ChangesFrom(ds, last), t, last) == Hold(ds, t, last)
  {
    if ds != [] {
      var first, rest := ds[0], ds[1..];
      HoldFirst(ds, t, last);
      if first.value == last {
        HoldChanges(rest, last, t);
      } else {
        ChangesKeep(rest, first.value, first.key, 0x1_0000_0000);
        HoldFirst(ChangesFrom(ds, last), t, last);
        if first.key <= t {
          HoldChanges(rest, first.value, t);
        } else {
          HoldBefore(rest, t, last);
          HoldBefore(ChangesFrom(rest, first.value), t, last);
        }
      }
    }
  }

  lemma HoldChangePoints(ds: Dataset, t: int, default: Datapoint)
    requires Valid(ds) && ds != []
    ensures Hold(ChangePoints(ds), t, default) == Hold(ds, t, default)
  {
    var first, rest := ds[0], ds[1..];
    ChangePointsKeep(ds);
    hide Hold;
    HoldFirst(ds, t, default);
    HoldFirst(ChangePoints(ds), t, default);
    assert ChangePoints(ds)[1..] == ChangesFrom(rest, first.value);
    hide ChangePoints, ChangesFrom;
    if first.key <= t {
      HoldChanges(rest, first.value, t);
    } else {
      HoldBefore(rest, t, default);
      ChangesKeep(rest, first.value, first.key, 0x1_0000_0000);
      HoldBefore(ChangesFrom(rest, first.value), t, default);
    }
  }

  /** Sampled at any time, the decompressed rows hold the same value as the original ones. */
  lemma CompressionKeepsMeaning(ds: Dataset, t: int, default: Datapoint)
    requires Valid(ds)
    ensures Hold(Decompressed(Compressed(ds)), t, default) == Hold(ds, t, default)
  {
    CompressionRoundTrip(ds);
    hide Compressed, Decompressed, Hold;
    if ds != [] {
      HoldChangePoints(ds, t, default);
    }
  }

  lemma {:induction false} CompressChanges(ds: Dataset, t: nat, v: Datapoint)
    requires Uniform(ds, |v|) && Uniform(ChangesFrom(ds, v), |v|)
    ensures CompressFrom(ChangesFrom(ds, v), t, v) == CompressFrom(ds, t, v)
  {
    if ds != [] {
      DifferenceFaithful(ds[0].value, v);
      var c := ChangesFrom(ds, v);
      if ds[0].value == v {
        CompressChanges(ds[1..], t, v);
      } else {
        assert c[1..] == ChangesFrom(ds[1..], ds[0].value);
        CompressChanges(ds[1..], ds[0].key, ds[0].value);
      }
    }
  }

  /** Compressing what decompression returns gives the same delta list again. */
  lemma CompressionIdempotent(ds: Dataset)
    requires Valid(ds)
    ensures Valid(Decompressed(Compressed(ds)))
    ensures Compressed(Decompressed(Compressed(ds))) == Compressed(ds)
  {
    CompressionRoundTrip(ds);
    ChangePointsKeep(ds);
    if ds != [] {
      ChangesKeep(ds[1..], ds[0].value, ds[0].key, 0x1_0000_0000);
      CompressChanges(ds[1..], ds[0].key, ds[0].value);
      assert ChangePoints(ds)[1..] == ChangesFrom(ds[1..], ds[0].value);
    }
  }
}
