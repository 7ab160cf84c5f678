/** Downsampling in two stages against downsampling at once. */
module TwoStage {
  import opened Words
  import opened OrderedMap
  import opened Downsampling
  import opened RealArith

  lemma DivDiv(t: nat, a: nat, b: nat)
    requires a > 0 && b > 0
    ensures a * b > 0 && t / a / b == t / (a * b)
  {
    var q := t / a;
    var p := q / b;
    assert t == a * q + t % a && q == b * p + q % b;
    Grouped(t, a, b, p, q % b, t % a);
  }

  lemma Grouped(t: nat, a: nat, b: nat, p: nat, s: nat, r: nat)
    requires a > 0 && s < b && r < a && t == a * (b * p + s) + r
    ensures a * b > 0 && t / (a * b) == p
  {
    Recombine(a, b, p, s, r);
    var d, rest := a * b, a * s + r;
    QuotientUnique(t, d, p, rest);
  }

  lemma Recombine(a: nat, b: nat, p: nat, s: nat, r: nat)
    requires a > 0 && s < b && r < a
    ensures a * b > 0
    ensures a * (b * p + s) + r == a * b * p + (a * s + r)
    ensures 0 <= a * s + r < a * b
  {
    MulMonotone(a, s + 1, b);
    assert a * (s + 1) == a * s + a;
    assert a * (b * p + s) == a * (b * p) + a * s;
  }

  lemma QuotientUnique(t: nat, d: nat, p: nat, r: nat)
    requires d > 0 && r < d && t == d * p + r
    ensures t / d == p
  {
    var q := t / d;
    assert t == d * q + t % d;
    if q < p {
      MulMonotone(d, q + 1, p);
      assert false;
    }
    if p < q {
      MulMonotone(d, p + 1, q);
      assert false;
    }
  }

  lemma KeyedTwice(samples: Dataset, a: nat, b: nat)
    requires a > 0 && b > 0
    ensures a * b > 0 && Keyed(Keyed(samples, a), b) == Keyed(samples, a * b)
  {
    assert a * b > 0 by { MulMonotone(a, 1, b); }
    forall i | 0 <= i < |samples| ensures samples[i].key / a / b == samples[i].key / (a * b) {
      DivDiv(samples[i].key, a, b);
    }
  }

  /** Strictly increasing lists with the same members are the same list. */
  lemma {:induction false} SameMembers(x: seq<nat>, y: seq<nat>)
    requires forall i, j :: 0 <= i < j < |x| ==> x[i] < x[j]
    requires forall i, j :: 0 <= i < j < |y| ==> y[i] < y[j]
    requires forall k :: k in x <==> k in y
    ensures x == y
  {
    assert x != [] ==> x[|x| - 1] in y;
    assert y != [] ==> y[|y| - 1] in x;
    if x != [] {
      var x', y' := x[..|x| - 1], y[..|y| - 1];
      var last := x[|x| - 1];
      assert last == y[|y| - 1];
      assert x == x' + [last] && y == y' + [last];
      assert last !in x' && last !in y';
      forall k ensures k in x' <==> k in y' {
        assert k in x <==> k in x' || k == last;
        assert k in y <==> k in y' || k == last;
      }
      SameMembers(x', y');
    }
  }

  function Keys<V>(m: Rows<V>): (r: seq<nat>)
    ensures |r| == |m|
  {
    seq(|m|, i requires 0 <= i < |m| => m[i].key)
  }

  lemma KeysMember<V>(m: Rows<V>, k: nat)
    ensures k in Keys(m) <==> HasKey(m, k)
  {
    if k in Keys(m) {
      var i :| 0 <= i < |m| && Keys(m)[i] == k;
      assert m[i].key == k;
    }
    if i :| 0 <= i < |m| && m[i].key == k {
      assert Keys(m)[i] == k;
    }
  }

  /** Two stages produce the same bucket numbers as one. */
  lemma TwoStageKeys(samples: Dataset, a: nat, b: nat)
    requires Sorted(samples) && Uniform(samples, Width(samples)) && a > 0 && b > 0 && a * b > 0
    ensures var first := Downsampled(samples, a, 10);
            && Sorted(first) && Uniform(first, Width(first)) && Width(first) == Width(samples)
            && Keys(Downsampled(first, b, 10)) == Keys(Downsampled(samples, a * b, 10))
  {
    DownsampledKeys(samples, a, 10);
    var first := Downsampled(samples, a, 10);
    DownsampledKeys(first, b, 10);
    DownsampledKeys(samples, a * b, 10);
    KeyedTwice(samples, a, b);
    var two, one := Downsampled(first, b, 10), Downsampled(samples, a * b, 10);
    var keyed := Keyed(samples, a);
    forall k ensures k in Keys(two) <==> k in Keys(one) {
      KeysMember(two, k);
      KeysMember(one, k);
      SameCoarseKeys(first, keyed, b, k);
    }
    SameMembers(Keys(two), Keys(one));
  }

  lemma SameCoarseKeys(first: Dataset, keyed: Dataset, b: nat, k: nat)
    requires b > 0 && forall q :: HasKey(first, q) <==> HasKey(keyed, q)
    ensures HasKey(Keyed(first, b), k) <==> HasKey(Keyed(keyed, b), k)
  {
    if i :| 0 <= i < |first| && Keyed(first, b)[i].key == k {
      assert HasKey(first, first[i].key);
      var j :| 0 <= j < |keyed| && keyed[j].key == first[i].key;
      assert Keyed(keyed, b)[j].key == k;
    }
    if j :| 0 <= j < |keyed| && Keyed(keyed, b)[j].key == k {
      assert HasKey(keyed, keyed[j].key);
      var i :| 0 <= i < |first| && first[i].key == keyed[j].key;
      assert Keyed(first, b)[i].key == k;
    }
  }

  /** The datapoints of the rows whose key satisfies `g`, in order. */
  function Select(ds: Dataset, g: nat -> bool): seq<Datapoint> {
    if ds == [] then []
    else
      var earlier, last := Select(ds[..|ds| - 1], g), ds[|ds| - 1];
      if g(last.key) then earlier + [last.value] else earlier
  }

  lemma {:induction false} CoarseBucket(ds: Dataset, b: nat, k: nat, g: nat -> bool)
    requires b > 0 && forall t: nat :: g(t) <==> t / b == k
    ensures Bucket(Keyed(ds, b), k) == Select(ds, g)
  {
    if ds != [] {
      CoarseBucket(ds[..|ds| - 1], b, k, g);
      assert Keyed(ds, b)[..|ds| - 1] == Keyed(ds[..|ds| - 1], b);
    }
  }

  /** The total of component `i` over all fine buckets in group `g`. */
  function GroupTotal(m: Rows<seq<Datapoint>>, g: nat -> bool, i: nat): int {
    if m == [] then 0
    else
      var last := m[|m| - 1];
      GroupTotal(m[..|m| - 1], g, i) + if g(last.key) then Total(last.value, i) else 0
  }

  function GroupSize(m: Rows<seq<Datapoint>>, g: nat -> bool): nat {
    if m == [] then 0
    else
      var last := m[|m| - 1];
      GroupSize(m[..|m| - 1], g) + if g(last.key) then |last.value| else 0
  }

  lemma TotalSnoc(dps: seq<Datapoint>, dp: Datapoint, i: nat)
    ensures Total(dps + [dp], i) == Total(dps, i) + At(dp, i)
  {
    assert (dps + [dp])[..|dps|] == dps;
  }

  /** Regrouping the fine buckets loses and duplicates no sample. */
  lemma {:induction false} GroupingConserves(keyed: Dataset, g: nat -> bool, i: nat)
    requires Ascending(keyed)
    ensures GroupTotal(Buckets(keyed), g, i) == Total(Select(keyed, g), i)
    ensures GroupSize(Buckets(keyed), g) == |Select(keyed, g)|
  {
    if keyed != [] {
      var earlier, last := keyed[..|keyed| - 1], keyed[|keyed| - 1];
      GroupingConserves(earlier, g, i);
      BucketOrder(earlier);
      TotalSnoc(Select(earlier, g), last.value, i);
      AbsorbSample(Buckets(earlier), last, g, i);
    }
  }

  /** Filing one more sample changes the group of its bucket by exactly that sample. */
  lemma AbsorbSample(m: Rows<seq<Datapoint>>, s: Pair<Datapoint>, g: nat -> bool, i: nat)
    requires Sorted(m) && (m != [] ==> m[|m| - 1].key <= s.key)
    ensures var m' := Put(m, s.key, Get(m, s.key, []) + [s.value]);
            && GroupTotal(m', g, i) == GroupTotal(m, g, i) + (if g(s.key) then At(s.value, i) else 0)
            && GroupSize(m', g) == GroupSize(m, g) + (if g(s.key) then 1 else 0)
  {
    var n := |m|;
    if n > 0 && m[n - 1].key == s.key {
      var m' := m[..n - 1] + [Pair(s.key, m[n - 1].value + [s.value])];
      assert Put(m, s.key, Get(m, s.key, []) + [s.value]) == m';
      assert m'[..n - 1] == m[..n - 1];
      TotalSnoc(m[n - 1].value, s.value, i);
    } else {
      AbsentBelow(m, s.key);
      var m' := m + [Pair(s.key, [] + [s.value])];
      assert m'[..n] == m;
      TotalSnoc([], s.value, i);
    }
  }

  lemma {:induction false} AbsentBelow(m: Rows<seq<Datapoint>>, k: nat)
    requires forall i :: 0 <= i < |m| ==> m[i].key < k
    ensures Get(m, k, []) == []
  {
    if m != [] {
      AbsentBelow(m[..|m| - 1], k);
    }
  }

  predicate Within(error: int, bound: int) {
    -bound <= error <= bound
  }

  /** The sum of the rounded fine averages is off by at most half a unit per fine bucket. */
  lemma {:induction false} FineError(m: Rows<seq<Datapoint>>, width: nat, g: nat -> bool, i: nat, size: nat)
    requires WellFilled(m) && i < width && size > 0
    requires forall j :: 0 <= j < |m| ==> |m[j].value| == size
    ensures var fine := Select(Averages(m, width, 1), g);
            && GroupSize(m, g) == size * |fine|
            && Within(2 * (size * Total(fine, i) - GroupTotal(m, g, i)), size * |fine|)
  {
    if m != [] {
      var n := |m| - 1;
      FineError(m[..n], width, g, i, size);
      var earlier, last := Averages(m[..n], width, 1), m[n];
      var dp := Average(last.value, width, 1);
      assert Averages(m, width, 1)[..n] == earlier;
      if g(last.key) {
        var fine := Select(earlier, g);
        TotalSnoc(fine, dp, i);
        RoundingError(last.value, i);
        AddError(size, |fine|, Total(fine, i), GroupTotal(m[..n], g, i), dp[i], Total(last.value, i));
      }
    }
  }

  lemma AddError(size: nat, n: nat, total: int, exact: int, v: int, t: int)
    requires Within(2 * (size * total - exact), size * n) && Within(2 * (size * v - t), size)
    ensures Within(2 * (size * (total + v) - (exact + t)), size * (n + 1))
    ensures size * (n + 1) == size * n + size
  {
    assert size * (total + v) == size * total + size * v;
  }

  lemma RoundingError(dps: seq<Datapoint>, i: nat)
    requires dps != []
    ensures Within(2 * (|dps| * RoundedMean(dps, i, 1) - Total(dps, i)), |dps|)
  {
    RoundedQuotient(|dps|, Total(dps, i));
  }

  lemma RoundedQuotient(n: nat, t: int)
    requires n > 0
    ensures Within(2 * (n * Round(t as real / n as real / 1 as real) - t), n)
  {
    var mean := t as real / n as real;
    assert mean / 1 as real == mean && mean * n as real == t as real;
    ClearDenominator(n, t, Round(mean), mean);
    Expand(n, Round(mean));
  }

  lemma ClearDenominator(n: nat, t: int, r: int, mean: real)
    requires mean * n as real == t as real && r as real - 0.5 <= mean <= r as real + 0.5
    ensures (2 * r - 1) * n <= 2 * t && -(2 * r + 1) * n <= -2 * t
  {
    Multiply(2 * r - 1, 2.0 * mean, n);
    Multiply(-(2 * r + 1), -2.0 * mean, n);
    assert 2.0 * mean * n as real == (2 * t) as real;
    assert -2.0 * mean * n as real == (-2 * t) as real;
  }

  lemma Expand(n: nat, r: int)
    ensures (2 * r - 1) * n == 2 * (n * r) - n && -(2 * r + 1) * n == -2 * (n * r) - n
  {
  }

  /**
   * Two stages against one: the same bucket numbers and, when all fine buckets hold equally many samples,
   * values that differ by at most one unit.
   */
  lemma TwoStageDownsampling(samples: Dataset, a: nat, b: nat, size: nat, row: nat, i: nat)
    requires Sorted(samples) && Uniform(samples, Width(samples)) && a > 0 && b > 0 && a * b > 0 && size > 0
    requires var first := Downsampled(samples, a, 10);
             forall j :: 0 <= j < |first| ==> |Bucket(Keyed(samples, a), first[j].key)| == size
    requires row < |Downsampled(samples, a * b, 10)| && i < Width(samples)
    ensures var first, one := Downsampled(samples, a, 10), Downsampled(samples, a * b, 10);
            && Sorted(first) && Uniform(first, Width(first))
            && var two := Downsampled(first, b, 10);
            && Keys(two) == Keys(one)
            && |two[row].value| == |one[row].value| == Width(samples)
            && Within(two[row].value[i] as int - one[row].value[i] as int, 1)
  {
    TwoStageKeys(samples, a, b);
    var first, one := Downsampled(samples, a, 10), Downsampled(samples, a * b, 10);
    var two := Downsampled(first, b, 10);
    var k := one[row].key;
    assert Keys(two)[row] == k && Keys(one)[row] == k;
    var fine := BucketOfRow(first, b, 10, row);
    var all := BucketOfRow(samples, a * b, 10, row);
    TwoStageTotals(samples, a, b, size, k, i);
    RoundingError(fine, i);
    RoundingError(all, i);
    CombineErrors(size, |fine|, Total(fine, i), Total(all, i), two[row].value[i], one[row].value[i]);
  }

  lemma TwoStageTotals(samples: Dataset, a: nat, b: nat, size: nat, k: nat, i: nat)
    requires Sorted(samples) && Uniform(samples, Width(samples)) && a > 0 && b > 0 && a * b > 0 && size > 0
    requires var first := Downsampled(samples, a, 10);
             forall j :: 0 <= j < |first| ==> |Bucket(Keyed(samples, a), first[j].key)| == size
    requires i < Width(samples)
    ensures var fine, all := Bucket(Keyed(Downsampled(samples, a, 10), b), k), Bucket(Keyed(samples, a * b), k);
            && |all| == size * |fine|
            && Within(2 * (size * Total(fine, i) - Total(all, i)), size * |fine|)
  {
    KeyedAscending(samples, a);
    KeyedTwice(samples, a, b);
    forall j | 0 <= j < |Downsampled(samples, a, 10)|
      ensures Buckets(Keyed(samples, a))[j].value == Bucket(Keyed(samples, a), Downsampled(samples, a, 10)[j].key)
    {
      BucketsCharacterised(Keyed(samples, a), Width(samples));
    }
    BucketsCharacterised(Keyed(samples, a), Width(samples));
    CoarseTotals(Keyed(samples, a), Width(samples), b, size, k, i);
  }

  lemma CoarseTotals(keyed: Dataset, width: nat, b: nat, size: nat, k: nat, i: nat)
    requires Ascending(keyed) && b > 0 && size > 0 && i < width && WellFilled(Buckets(keyed))
    requires forall j :: 0 <= j < |Buckets(keyed)| ==> |Buckets(keyed)[j].value| == size
    ensures var fine, all := Bucket(Keyed(Averages(Buckets(keyed), width, 1), b), k), Bucket(Keyed(keyed, b), k);
            && |all| == size * |fine|
            && Within(2 * (size * Total(fine, i) - Total(all, i)), size * |fine|)
  {
    var g := (t: nat) => t / b == k;
    var fine := Averages(Buckets(keyed), width, 1);
    CoarseBucket(fine, b, k, g);
    CoarseBucket(keyed, b, k, g);
    SelectedTotals(keyed, width, g, size, i);
  }

  lemma SelectedTotals(keyed: Dataset, width: nat, g: nat -> bool, size: nat, i: nat)
    requires Ascending(keyed) && size > 0 && i < width && WellFilled(Buckets(keyed))
    requires forall j :: 0 <= j < |Buckets(keyed)| ==> |Buckets(keyed)[j].value| == size
    ensures var fine, all := Select(Averages(Buckets(keyed), width, 1), g), Select(keyed, g);
            && |all| == size * |fine|
            && Within(2 * (size * Total(fine, i) - Total(all, i)), size * |fine|)
  {
    GroupingConserves(keyed, g, i);
    FineError(Buckets(keyed), width, g, i, size);
  }

  lemma CombineErrors(size: nat, q: nat, fine: int, all: int, v2: int, v1: int)
    requires size > 0 && q > 0
    requires Within(2 * (size * fine - all), size * q)
    requires Within(2 * (q * v2 - fine), q)
    requires Within(2 * (size * q * v1 - all), size * q)
    ensures Within(v2 - v1, 1)
  {
    var n := size * q;
    MulMonotone(size, 1, q);
    ScaleError(size, q, 2 * (q * v2 - fine));
    Rearrange(size, q, v2, fine);
    AddThree(n, n * v2, size * fine, all, n * v1);
    Separate(n, v2, v1);
  }

  lemma AddThree(n: int, a: int, b: int, c: int, d: int)
    requires Within(2 * (a - b), n) && Within(2 * (b - c), n) && Within(2 * (d - c), n)
    ensures Within(2 * (a - d), 3 * n)
  {
  }

  lemma Rearrange(size: nat, q: nat, v: int, fine: int)
    ensures size * (2 * (q * v - fine)) == 2 * (size * q * v - size * fine)
  {
    assert size * (q * v) == size * q * v;
  }

  lemma Separate(n: nat, v2: int, v1: int)
    requires n > 0 && Within(2 * (n * v2 - n * v1), 3 * n)
    ensures Within(v2 - v1, 1)
  {
    assert n * v2 - n * v1 == n * (v2 - v1);
    if v2 - v1 >= 2 {
      MulMonotone(n, 2, v2 - v1);
      assert false;
    }
    if v1 - v2 >= 2 {
      MulMonotone(n, 2, v1 - v2);
      assert false;
    }
  }

  lemma ScaleError(size: nat, bound: int, x: int)
    requires Within(x, bound)
    ensures Within(size * x, size * bound)
  {
  }
}
