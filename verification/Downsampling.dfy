/** `DatabaseUtil::downsample`: averages per time bucket, rounded to whole units. */
module Downsampling {
  import opened Words
  import opened OrderedMap
  import opened RealArith
  import opened Choice

  type Datapoint = seq<int16>
  type Dataset = Rows<Datapoint>

  /** Every datapoint has the same number of components. */
  ghost predicate Uniform(ds: Dataset, width: nat) {
    forall i :: 0 <= i < |ds| ==> |ds[i].value| == width
  }

  ghost predicate SameWidth(dps: seq<Datapoint>, width: nat) {
    forall dp | dp in dps :: |dp| == width
  }

  /** Component `i`; the summing loop passes over components a datapoint does not have. */
  function At(dp: Datapoint, i: nat): int16 {
    if i < |dp| then dp[i] else 0
  }

  /** The sum of component `i`. */
  function Total(dps: seq<Datapoint>, i: nat): int {
    if dps == [] then 0 else Total(dps[..|dps| - 1], i) + At(dps[|dps| - 1], i)
  }

  /** Mean of component `i`, divided by `divisor` (integer-valued sums are exact doubles). */
  function Mean(dps: seq<Datapoint>, i: nat, divisor: nat): real
    requires dps != [] && divisor > 0
  {
    Total(dps, i) as real / |dps| as real / divisor as real
  }

  lemma {:induction false} TotalBounds(dps: seq<Datapoint>, i: nat, lo: int, hi: int)
    requires forall dp | dp in dps :: lo <= At(dp, i) <= hi
    ensures lo * |dps| <= Total(dps, i) <= hi * |dps|
  {
    if dps != [] {
      var n := |dps| - 1;
      TotalBounds(dps[..n], i, lo, hi);
      assert dps[n] in dps && lo <= At(dps[n], i) <= hi;
      hide At;
      OneMore(lo, n);
      OneMore(hi, n);
    }
  }

  lemma OneMore(x: int, n: nat)
    ensures x * (n + 1) == x * n + x
  {
  }

  lemma RealCancel(a: real, b: real, n: real)
    requires n > 0.0 && a * n <= b * n
    ensures a <= b
  {
  }

  lemma QuotientBounds(total: int, n: nat, lo: int, hi: int)
    requires n > 0 && lo * n <= total <= hi * n
    ensures lo as real <= total as real / n as real <= hi as real
  {
    var q := total as real / n as real;
    assert (lo * n) as real <= q * n as real <= (hi * n) as real;
    RealCancel(lo as real, q, n as real);
    RealCancel(q, hi as real, n as real);
  }

  lemma ShrinkBounds(x: real, k: nat, lo: int, hi: int)
    requires k > 0 && lo <= 0 <= hi && lo as real <= x <= hi as real
    ensures lo as real <= x / k as real <= hi as real
  {
    var q := x / k as real;
    assert q * k as real == x;
    assert lo as real * k as real <= lo as real;
    assert hi as real <= hi as real * k as real;
    RealCancel(lo as real, q, k as real);
    RealCancel(q, hi as real, k as real);
  }

  lemma RoundBounds(x: real, lo: int, hi: int)
    requires lo as real <= x <= hi as real
    ensures lo <= Round(x) <= hi
  {
  }

  /** The rounded mean of int16 components is an int16, so the cast in the source keeps its value. */
  lemma MeanFits(dps: seq<Datapoint>, i: nat, divisor: nat)
    requires dps != [] && divisor > 0
    ensures Fits16(Round(Mean(dps, i, divisor)))
  {
    TotalBounds(dps, i, -0x8000, 0x7FFF);
    QuotientBounds(Total(dps, i), |dps|, -0x8000, 0x7FFF);
    ShrinkBounds(Total(dps, i) as real / |dps| as real, divisor, -0x8000, 0x7FFF);
    RoundBounds(Mean(dps, i, divisor), -0x8000, 0x7FFF);
  }

  function RoundedMean(dps: seq<Datapoint>, i: nat, divisor: nat): int16
    requires dps != [] && divisor > 0
  {
    MeanFits(dps, i, divisor);
    Round(Mean(dps, i, divisor))
  }

  function Average(dps: seq<Datapoint>, width: nat, divisor: nat): (dp: Datapoint)
    requires dps != [] && divisor > 0
    ensures |dp| == width
  {
    seq(width, i requires 0 <= i < width => RoundedMean(dps, i, divisor))
  }

  lemma {:induction false} DivMonotone(a: nat, b: nat, d: nat)
    requires a <= b && d > 0
    ensures a / d <= b / d
  {
    assert a == d * (a / d) + a % d && b == d * (b / d) + b % d;
    if a / d > b / d {
      MulMonotone(d, b / d + 1, a / d);
      assert false;
    }
  }

  lemma MulMonotone(d: nat, x: nat, y: nat)
    requires x <= y
    ensures d * x <= d * y
  {
  }

  /** The samples under their bucket numbers `timestamp / timeDivisor`. */
  function Keyed(samples: Dataset, timeDivisor: nat): (r: Dataset)
    requires timeDivisor > 0
    ensures |r| == |samples|
  {
    seq(|samples|, i requires 0 <= i < |samples| => Pair(samples[i].key / timeDivisor, samples[i].value))
  }

  ghost predicate Ascending(keyed: Dataset) {
    forall i, j :: 0 <= i < j < |keyed| ==> keyed[i].key <= keyed[j].key
  }

  lemma KeyedAscending(samples: Dataset, timeDivisor: nat)
    requires Sorted(samples) && timeDivisor > 0
    ensures Ascending(Keyed(samples, timeDivisor))
  {
    forall i, j | 0 <= i < j < |samples| ensures samples[i].key / timeDivisor <= samples[j].key / timeDivisor {
      DivMonotone(samples[i].key, samples[j].key, timeDivisor);
    }
  }

  /** The first loop: `buckets[bucketTimestamp].push_back(dataPoint)`. */
  function Buckets(keyed: Dataset): Rows<seq<Datapoint>> {
    if keyed == [] then []
    else
      var m, last := Buckets(keyed[..|keyed| - 1]), keyed[|keyed| - 1];
      Put(m, last.key, Get(m, last.key, []) + [last.value])
  }

  ghost predicate WellFilled(m: Rows<seq<Datapoint>>) {
    forall i :: 0 <= i < |m| ==> m[i].value != []
  }

  /** The datapoints filed under `k`, in order. */
  function Bucket(keyed: Dataset, k: nat): seq<Datapoint> {
    if keyed == [] then []
    else
      var earlier, last := Bucket(keyed[..|keyed| - 1], k), keyed[|keyed| - 1];
      if last.key == k then earlier + [last.value] else earlier
  }

  lemma {:induction false} BucketOrder(keyed: Dataset)
    requires Ascending(keyed)
    ensures var m := Buckets(keyed);
            && Sorted(m) && WellFilled(m)
            && (keyed != [] ==> m != [] && m[|m| - 1].key == keyed[|keyed| - 1].key)
            && (keyed == [] ==> m == [])
  {
    if keyed != [] {
      var n := |keyed| - 1;
      BucketOrder(keyed[..n]);
      assert n > 0 ==> keyed[n - 1].key <= keyed[n].key;
      var m := Buckets(keyed[..n]);
      PutLast(m, keyed[n].key, Get(m, keyed[n].key, []) + [keyed[n].value]);
    }
  }

  lemma PutLast(m: Rows<seq<Datapoint>>, k: nat, v: seq<Datapoint>)
    requires Sorted(m) && WellFilled(m) && v != [] && (m != [] ==> m[|m| - 1].key <= k)
    ensures var r := Put(m, k, v); Sorted(r) && WellFilled(r) && r != [] && r[|r| - 1].key == k
  {
  }

  lemma {:induction false} BucketContents(keyed: Dataset, k: nat)
    requires Ascending(keyed)
    ensures Get(Buckets(keyed), k, []) == Bucket(keyed, k)
  {
    if keyed != [] {
      var earlier, last := keyed[..|keyed| - 1], keyed[|keyed| - 1];
      BucketContents(earlier, k);
      BucketContents(earlier, last.key);
      BucketOrder(earlier);
      var m := Buckets(earlier);
      GetAfterPut(m, last.key, Get(m, last.key, []) + [last.value], k, []);
    }
  }

  lemma {:induction false} BucketUniform(keyed: Dataset, k: nat, width: nat)
    requires Uniform(keyed, width)
    ensures SameWidth(Bucket(keyed, k), width)
    ensures Bucket(keyed, k) != [] <==> HasKey(keyed, k)
  {
    if keyed != [] {
      var n := |keyed| - 1;
      BucketUniform(keyed[..n], k, width);
      if HasKey(keyed[..n], k) {
        var i :| 0 <= i < n && keyed[..n][i].key == k;
        assert keyed[i].key == k;
      }
      if i :| 0 <= i < n && keyed[i].key == k {
        assert keyed[..n][i].key == k;
      }
    }
  }

  /** What the buckets contain: one row for each bucket number that occurs, holding its samples in order. */
  lemma BucketsCharacterised(keyed: Dataset, width: nat)
    requires Ascending(keyed) && Uniform(keyed, width)
    ensures var m := Buckets(keyed);
            && Sorted(m)
            && (forall i :: 0 <= i < |m| ==> m[i].value == Bucket(keyed, m[i].key) && m[i].value != [])
            && (forall i :: 0 <= i < |m| ==> SameWidth(m[i].value, width))
            && (forall k :: HasKey(m, k) <==> HasKey(keyed, k))
  {
    var m := Buckets(keyed);
    BucketOrder(keyed);
    forall i | 0 <= i < |m| ensures m[i].value == Bucket(keyed, m[i].key) && SameWidth(m[i].value, width) {
      GetMember(m, i, []);
      BucketContents(keyed, m[i].key);
      BucketUniform(keyed, m[i].key, width);
    }
    forall k ensures HasKey(m, k) <==> HasKey(keyed, k) {
      BucketContents(keyed, k);
      BucketUniform(keyed, k, width);
      if HasKey(keyed, k) {
        var i := GetFinds(m, k, []);
      }
      if i :| 0 <= i < |m| && m[i].key == k {
        GetMember(m, i, []);
      }
    }
  }

  lemma {:induction false} BucketRows(
    keyed: Dataset, k: nat, wanted: Pair<Datapoint> -> bool, value: Pair<Datapoint> -> Datapoint)
    returns (chosen: seq<nat>)
    requires forall p :: (wanted(p) <==> p.key == k) && value(p) == p.value
    ensures Chooses(keyed, wanted, chosen) && Yields(keyed, value, chosen, Bucket(keyed, k))
  {
    chosen := [];
    if keyed != [] {
      var n := |keyed| - 1;
      var earlier := BucketRows(keyed[..n], k, wanted, value);
      ChooseNext(keyed[..n], wanted, value, earlier, Bucket(keyed[..n], k), keyed[n]);
      assert keyed[..n] + [keyed[n]] == keyed;
      chosen := if keyed[n].key == k then earlier + [n] else earlier;
    }
  }

  /**
   * The bucket of `k`, sample by sample: an ascending choice of positions, all of those and only those whose time
   * divided by `timeDivisor` is `k`.
   */
  lemma BucketIsChoice(samples: Dataset, timeDivisor: nat, k: nat) returns (chosen: seq<nat>)
    requires timeDivisor > 0
    ensures var bucket := Bucket(Keyed(samples, timeDivisor), k);
            && |chosen| == |bucket|
            && (forall i :: 0 <= i < |chosen| ==> chosen[i] < |samples| && bucket[i] == samples[chosen[i]].value)
            && (forall i, j :: 0 <= i < j < |chosen| ==> chosen[i] < chosen[j])
            && (forall i: nat :: i < |samples| ==> (i in chosen <==> samples[i].key / timeDivisor == k))
  {
    var keyed := Keyed(samples, timeDivisor);
    forall i: nat | i < |samples|
      ensures keyed[i].key == samples[i].key / timeDivisor && keyed[i].value == samples[i].value
    {
      assert keyed[i] == Pair(samples[i].key / timeDivisor, samples[i].value);
    }
    hide Keyed, Bucket;
    chosen := BucketRows(keyed, k, (p: Pair<Datapoint>) => p.key == k, (p: Pair<Datapoint>) => p.value);
  }

  /** The second loop: every bucket replaced by the average of its datapoints. */
  function Averages(m: Rows<seq<Datapoint>>, width: nat, divisor: nat): (r: Dataset)
    requires divisor > 0 && WellFilled(m)
    ensures |r| == |m| && forall i :: 0 <= i < |m| ==> r[i] == Pair(m[i].key, Average(m[i].value, width, divisor))
  {
    if m == [] then []
    else
      var last := m[|m| - 1];
      Averages(m[..|m| - 1], width, divisor) + [Pair(last.key, Average(last.value, width, divisor))]
  }

  function Width(ds: Dataset): nat {
    if ds == [] then 0 else |ds[0].value|
  }

  function Downsampled(samples: Dataset, timeDivisor: nat, watts: nat): Dataset
    requires Sorted(samples) && Uniform(samples, Width(samples)) && timeDivisor > 0 && watts >= 10
  {
    KeyedAscending(samples, timeDivisor);
    BucketsCharacterised(Keyed(samples, timeDivisor), Width(samples));
    Averages(Buckets(Keyed(samples, timeDivisor)), Width(samples), watts / 10)
  }

  /** `v` is `t / m` rounded to the nearest integer, a half away from zero. */
  predicate Nearest(t: int, m: nat, v: int) {
    if t >= 0 then 2 * m * v - m <= 2 * t < 2 * m * v + m else 2 * m * v - m < 2 * t <= 2 * m * v + m
  }

  lemma MeanTimes(t: int, n: nat, d: nat)
    requires n > 0 && d > 0
    ensures n * d > 0 && t as real / n as real / d as real * (n * d) as real == t as real
  {
    var q := t as real / n as real;
    assert (n * d) as real == d as real * n as real;
    assert q / d as real * d as real == q;
    assert q * n as real == t as real;
  }

  /** Comparing the quotient `q` of `t` by `m` with the half `w / 2`. */
  lemma ComparedHalf(q: real, m: nat, t: int, w: int)
    requires m > 0 && q * m as real == t as real
    ensures 0.5 * w as real <= q <==> w * m <= 2 * t
    ensures q <= 0.5 * w as real <==> 2 * t <= w * m
  {
    var k, x := m as real, 0.5 * w as real;
    Scaled(x, q, k);
    Scaled(q, x, k);
    assert (w * m) as real == w as real * k == 2.0 * (x * k);
  }

  lemma Scaled(x: real, y: real, k: real)
    requires k > 0.0
    ensures x <= y <==> x * k <= y * k
  {
  }

  lemma RoundIsNearest(q: real, m: nat, t: int, v: int)
    requires m > 0 && q * m as real == t as real
    ensures Nearest(t, m, v) <==> v == Round(q)
  {
    ComparedHalf(q, m, t, 2 * v - 1);
    ComparedHalf(q, m, t, 2 * v + 1);
    ComparedHalf(q, m, t, 0);
    assert (2 * v - 1) * m == 2 * m * v - m && (2 * v + 1) * m == 2 * m * v + m;
    RoundUnique(q, v);
  }

  lemma RoundUnique(q: real, v: int)
    ensures v == Round(q) <==>
              if q >= 0.0 then v as real - 0.5 <= q < v as real + 0.5 else v as real - 0.5 < q <= v as real + 0.5
  {
  }

  lemma RoundedMeanIsNearest(dps: seq<Datapoint>, i: nat, divisor: nat)
    requires dps != [] && divisor > 0
    ensures forall v :: Nearest(Total(dps, i), |dps| * divisor, v) <==> v == RoundedMean(dps, i, divisor)
  {
    hide Nearest, Total;
    var t, n := Total(dps, i), |dps|;
    MeanTimes(t, n, divisor);
    forall v ensures Nearest(t, n * divisor, v) <==> v == RoundedMean(dps, i, divisor) {
      RoundIsNearest(Mean(dps, i, divisor), n * divisor, t, v);
    }
  }

  lemma AverageIsNearest(dps: seq<Datapoint>, width: nat, divisor: nat)
    requires dps != [] && divisor > 0
    ensures forall i :: 0 <= i < width ==> Nearest(Total(dps, i), |dps| * divisor, Average(dps, width, divisor)[i])
  {
    hide Nearest, Total;
    forall i | 0 <= i < width ensures Nearest(Total(dps, i), |dps| * divisor, Average(dps, width, divisor)[i]) {
      RoundedMeanIsNearest(dps, i, divisor);
    }
  }

  lemma RoundedMeanIs(dps: seq<Datapoint>, i: nat, divisor: nat)
    requires dps != [] && divisor > 0
    ensures Fits16(Round(Mean(dps, i, divisor))) && RoundedMean(dps, i, divisor) == Round(Mean(dps, i, divisor))
  {
    MeanFits(dps, i, divisor);
  }

  lemma NothingTotal(width: nat)
    ensures forall i :: 0 <= i < width ==> Total([], i) == 0
  {
  }

  lemma OneMoreTotal(dps: seq<Datapoint>, j: nat)
    requires j < |dps|
    ensures forall i :: 0 <= i < |dps[j]| ==> Total(dps[..j + 1], i) == Total(dps[..j], i) + dps[j][i]
  {
    assert dps[..j + 1][..j] == dps[..j];
  }

  method AverageOf(dps: seq<Datapoint>, width: nat, divisor: nat) returns (dp: Datapoint)
    requires dps != [] && divisor > 0
    requires SameWidth(dps, width)
    ensures dp == Average(dps, width, divisor)
    ensures forall i :: 0 <= i < width ==> Nearest(Total(dps, i), |dps| * divisor, dp[i])
  {
    hide Nearest, Round, RoundedMean, Total;
    var sum := new real[width](_ => 0.0);
    NothingTotal(width);
    for j := 0 to |dps|
      invariant forall i :: 0 <= i < width ==> sum[i] == Total(dps[..j], i) as real
    {
      assert dps[j] in dps;
      OneMoreTotal(dps, j);
      for i := 0 to |dps[j]|
        invariant forall h :: 0 <= h < i ==> sum[h] == Total(dps[..j + 1], h) as real
        invariant forall h :: i <= h < width ==> sum[h] == Total(dps[..j], h) as real
      {
        sum[i] := sum[i] + dps[j][i] as real;
      }
    }
    assert dps[..|dps|] == dps;
    dp := [];
    for i := 0 to width
      invariant |dp| == i && forall h :: 0 <= h < i ==> dp[h] == RoundedMean(dps, h, divisor)
      invariant forall h :: i <= h < width ==> sum[h] == Total(dps, h) as real
    {
      sum[i] := sum[i] / |dps| as real;
      sum[i] := sum[i] / divisor as real;
      assert sum[i] == Mean(dps, i, divisor);
      RoundedMeanIs(dps, i, divisor);
      dp := dp + [Round(sum[i])];
    }
    assert dp == Average(dps, width, divisor);
    AverageIsNearest(dps, width, divisor);
  }

  method FillBuckets(samples: Dataset, timeDivisor: nat) returns (buckets: Rows<seq<Datapoint>>)
    requires timeDivisor > 0
    ensures buckets == Buckets(Keyed(samples, timeDivisor))
  {
    hide Put, Get;
    ghost var keyed := Keyed(samples, timeDivisor);
    buckets := [];
    for j := 0 to |samples|
      invariant buckets == Buckets(keyed[..j])
    {
      assert keyed[..j + 1][..j] == keyed[..j];
      var bucketTimestamp := samples[j].key / timeDivisor;
      buckets := Put(buckets, bucketTimestamp, Get(buckets, bucketTimestamp, []) + [samples[j].value]);
    }
    assert keyed[..|samples|] == keyed;
  }

  method AverageBuckets(buckets: Rows<seq<Datapoint>>, ghost width: nat, divisor: nat) returns (aggregates: Dataset)
    requires divisor > 0 && Sorted(buckets) && WellFilled(buckets)
    requires forall i :: 0 <= i < |buckets| ==> SameWidth(buckets[i].value, width)
    ensures aggregates == Averages(buckets, width, divisor)
  {
    ghost var whole := Averages(buckets, width, divisor);
    aggregates := [];
    for j := 0 to |buckets|
      invariant aggregates == whole[..j]
    {
      assert SameWidth(buckets[j].value, width);
      assert buckets[j].value[0] in buckets[j].value;
      var average := AverageOf(buckets[j].value, |buckets[j].value[0]|, divisor);
      PutAtEnd(aggregates, buckets[j].key, average);
      aggregates := Put(aggregates, buckets[j].key, average);
    }
  }

  method Downsample(samples: Dataset, timeDivisor: nat, watts: nat) returns (aggregates: Dataset)
    requires Sorted(samples) && Uniform(samples, Width(samples)) && timeDivisor > 0 && watts >= 10
    ensures aggregates == Downsampled(samples, timeDivisor, watts)
  {
    var buckets := FillBuckets(samples, timeDivisor);
    KeyedAscending(samples, timeDivisor);
    BucketsCharacterised(Keyed(samples, timeDivisor), Width(samples));
    aggregates := AverageBuckets(buckets, Width(samples), watts / 10);
  }

  lemma PutAtEnd(m: Dataset, k: nat, v: Datapoint)
    requires forall i :: 0 <= i < |m| ==> m[i].key < k
    ensures Put(m, k, v) == m + [Pair(k, v)]
  {
  }

  /** One row for each bucket number that occurs, in ascending order. */
  lemma DownsampledKeys(samples: Dataset, timeDivisor: nat, watts: nat)
    requires Sorted(samples) && Uniform(samples, Width(samples)) && timeDivisor > 0 && watts >= 10
    ensures var r := Downsampled(samples, timeDivisor, watts);
            && Sorted(r) && Uniform(r, Width(samples)) && Width(r) == Width(samples)
            && (r == [] <==> samples == [])
            && (forall k :: HasKey(r, k) <==> HasKey(Keyed(samples, timeDivisor), k))
  {
    var r, keyed := Downsampled(samples, timeDivisor, watts), Keyed(samples, timeDivisor);
    var m := Buckets(keyed);
    KeyedAscending(samples, timeDivisor);
    BucketsCharacterised(keyed, Width(samples));
    BucketOrder(keyed);
    assert |r| == |m|;
    forall k ensures HasKey(r, k) <==> HasKey(m, k) {
      if i :| 0 <= i < |m| && m[i].key == k { assert r[i].key == k; }
      if i :| 0 <= i < |r| && r[i].key == k { assert m[i].key == k; }
    }
  }

  /**
   * Each downsampled component is within 1/2 of the mean of its bucket, and with the default of 10 watts
   * it lies between the smallest and the largest of its samples.
   */
  lemma DownsampleBounds(samples: Dataset, timeDivisor: nat, watts: nat, row: nat, i: nat, lo: int, hi: int)
    requires Sorted(samples) && Uniform(samples, Width(samples)) && timeDivisor > 0 && watts >= 10
    requires row < |Downsampled(samples, timeDivisor, watts)| && i < Width(samples)
    ensures var r := Downsampled(samples, timeDivisor, watts)[row];
            var bucket := Bucket(Keyed(samples, timeDivisor), r.key);
            && |r.value| == Width(samples) && bucket != [] && SameWidth(bucket, Width(samples))
            && r.value[i] as real - 0.5 <= Mean(bucket, i, watts / 10) <= r.value[i] as real + 0.5
            && (watts < 20 && (forall dp | dp in bucket :: lo <= At(dp, i) <= hi) ==> lo <= r.value[i] <= hi)
  {
    var bucket := BucketOfRow(samples, timeDivisor, watts, row);
    if watts < 20 && forall dp | dp in bucket :: lo <= At(dp, i) <= hi {
      assert watts / 10 == 1;
      MeanBounds(bucket, i, lo, hi);
    }
  }

  /**
   * The value of every row, exactly and in whole numbers: the total of its bucket over the number of samples and the
   * unit, rounded to the nearest integer with halves away from zero.
   */
  lemma RowIsNearest(samples: Dataset, timeDivisor: nat, watts: nat, row: nat, i: nat)
    requires Sorted(samples) && Uniform(samples, Width(samples)) && timeDivisor > 0 && watts >= 10
    requires row < |Downsampled(samples, timeDivisor, watts)| && i < Width(samples)
    ensures var r := Downsampled(samples, timeDivisor, watts)[row];
            var bucket := Bucket(Keyed(samples, timeDivisor), r.key);
            && bucket != [] && |r.value| == Width(samples)
            && forall v :: Nearest(Total(bucket, i), |bucket| * (watts / 10), v) <==> v == r.value[i]
  {
    hide Nearest, Downsampled, Keyed, Bucket, Total;
    var bucket := BucketOfRow(samples, timeDivisor, watts, row);
    RoundedMeanIsNearest(bucket, i, watts / 10);
  }

  lemma BucketOfRow(samples: Dataset, timeDivisor: nat, watts: nat, row: nat) returns (bucket: seq<Datapoint>)
    requires Sorted(samples) && Uniform(samples, Width(samples)) && timeDivisor > 0 && watts >= 10
    requires row < |Downsampled(samples, timeDivisor, watts)|
    ensures var r := Downsampled(samples, timeDivisor, watts)[row];
            && bucket == Bucket(Keyed(samples, timeDivisor), r.key) && bucket != []
            && SameWidth(bucket, Width(samples))
            && r.value == Average(bucket, Width(samples), watts / 10)
  {
    KeyedAscending(samples, timeDivisor);
    BucketsCharacterised(Keyed(samples, timeDivisor), Width(samples));
    bucket := Buckets(Keyed(samples, timeDivisor))[row].value;
  }

  lemma MeanBounds(bucket: seq<Datapoint>, i: nat, lo: int, hi: int)
    requires bucket != [] && forall dp | dp in bucket :: lo <= At(dp, i) <= hi
    ensures lo <= RoundedMean(bucket, i, 1) <= hi
  {
    TotalBounds(bucket, i, lo, hi);
    QuotientBounds(Total(bucket, i), |bucket|, lo, hi);
    RoundBounds(Mean(bucket, i, 1), lo, hi);
  }
}
