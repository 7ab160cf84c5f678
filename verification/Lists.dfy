/** Lists of whole numbers as both sides of the wire use them: running sums, differences and binary search. */
module Lists {
  import opened Words

  /** A point of a chart; both coordinates are whole numbers held in doubles. */
  datatype FlSpot = FlSpot(x: int, y: int)

  function SumTo(xs: seq<int>, n: nat): int
    requires n <= |xs|
  {
    if n == 0 then 0 else SumTo(xs, n - 1) + xs[n - 1]
  }

  function PrefixSums(xs: seq<int>): (r: seq<int>)
    ensures |r| == |xs|
  {
    seq(|xs|, i requires 0 <= i < |xs| => SumTo(xs, i + 1))
  }

  /** Running sums in place, as `list[i] += list[i - 1]` for ascending i. */
  method UndoDeltas(list: array<int>)
    modifies list
    ensures list[..] == PrefixSums(old(list[..]))
  {
    var i := 1;
    while i < list.Length
      invariant 1 <= i
      invariant forall k :: 0 <= k < i && k < list.Length ==> list[k] == SumTo(old(list[..]), k + 1)
      invariant forall k :: i <= k < list.Length ==> list[k] == old(list[k])
    {
      list[i] := list[i] + list[i - 1];
      i := i + 1;
    }
  }

  /** `int` keeps a difference, `uint` reduces it modulo 2^32. */
  function Narrow(x: int, unsigned: bool): int {
    if unsigned then U32(x) else x
  }

  function Differences(s: seq<int>, unsigned: bool): (r: seq<int>)
    ensures |r| == |s|
  {
    seq(|s|, i requires 0 <= i < |s| => if i == 0 then s[0] else Narrow(s[i] - s[i - 1], unsigned))
  }

  /** Differences in place: from the back, so that each element still finds its old neighbour. */
  method TakeDifferences(a: array<int>, unsigned: bool)
    modifies a
    ensures a[..] == Differences(old(a[..]), unsigned)
  {
    var i := a.Length;
    while i > 0
      invariant 0 <= i <= a.Length
      invariant forall k :: 0 <= k < i ==> a[k] == old(a[k])
      invariant forall k :: i <= k < a.Length ==> a[k] == Differences(old(a[..]), unsigned)[k]
    {
      i := i - 1;
      if i > 0 {
        a[i] := Narrow(a[i] - a[i - 1], unsigned);
      }
    }
  }

  /** Unsigned differences are exact when the list does not descend. */
  ghost predicate Exact(s: seq<int>, unsigned: bool) {
    unsigned ==> forall k :: 0 < k < |s| ==> 0 <= s[k] - s[k - 1] < 0x1_0000_0000
  }

  lemma DifferenceAt(s: seq<int>, unsigned: bool, i: nat)
    requires i < |s| && Exact(s, unsigned)
    ensures Differences(s, unsigned)[i] == if i == 0 then s[0] else s[i] - s[i - 1]
  {
    hide U32;
    if i > 0 && unsigned {
      SmallStays(s[i] - s[i - 1]);
    }
  }

  lemma SmallStays(x: int)
    requires 0 <= x < 0x1_0000_0000
    ensures U32(x) == x
  {
  }

  /** Running sums undo differences. */
  lemma {:induction false} SumsUndoDifferences(s: seq<int>, unsigned: bool, i: nat)
    requires i < |s| && Exact(s, unsigned)
    ensures SumTo(Differences(s, unsigned), i + 1) == s[i]
  {
    hide Differences, Exact;
    DifferenceAt(s, unsigned, i);
    assert SumTo(Differences(s, unsigned), 0) == 0;
    if i > 0 {
      SumsUndoDifferences(s, unsigned, i - 1);
    }
  }

  // ---- Binary search -----------------------------------------------------------------------

  predicate Precedes(x: int, key: int, orEqual: bool) {
    x < key || (orEqual && x == key)
  }

  /** The search of `std::lower_bound` and of Dart's `lowerBound`, also on lists that are not sorted. */
  function Search(xs: seq<int>, key: int, orEqual: bool, lo: nat, hi: nat): (r: nat)
    requires lo <= hi <= |xs|
    ensures lo <= r <= hi
    decreases hi - lo
  {
    if lo == hi then lo
    else
      var mid := lo + (hi - lo) / 2;
      if Precedes(xs[mid], key, orEqual) then Search(xs, key, orEqual, mid + 1, hi)
      else Search(xs, key, orEqual, lo, mid)
  }

  function LowerBound(xs: seq<int>, key: int, orEqual: bool): (r: nat)
    ensures r <= |xs|
  {
    Search(xs, key, orEqual, 0, |xs|)
  }

  method FindLowerBound(xs: seq<int>, key: int, orEqual: bool) returns (min: nat)
    ensures min == LowerBound(xs, key, orEqual)
  {
    var max := |xs|;
    min := 0;
    while min < max
      invariant min <= max <= |xs|
      invariant Search(xs, key, orEqual, min, max) == LowerBound(xs, key, orEqual)
      decreases max - min
    {
      var mid := min + (max - min) / 2;
      if Precedes(xs[mid], key, orEqual) {
        min := mid + 1;
      } else {
        max := mid;
      }
    }
  }

  ghost predicate Ascending(xs: seq<int>) {
    forall i, j :: 0 <= i < j < |xs| ==> xs[i] <= xs[j]
  }

  lemma PrecedingIsClosed(xs: seq<int>, key: int, orEqual: bool, mid: nat)
    requires Ascending(xs) && mid < |xs|
    ensures Precedes(xs[mid], key, orEqual) ==> forall i :: 0 <= i <= mid ==> Precedes(xs[i], key, orEqual)
    ensures !Precedes(xs[mid], key, orEqual) ==> forall i :: mid <= i < |xs| ==> !Precedes(xs[i], key, orEqual)
  {
  }

  /** On a sorted list the result separates what precedes the key from what does not. */
  lemma {:induction false} SearchSeparates(xs: seq<int>, key: int, orEqual: bool, lo: nat, hi: nat)
    requires Ascending(xs) && lo <= hi <= |xs|
    requires forall i :: 0 <= i < lo ==> Precedes(xs[i], key, orEqual)
    requires forall i :: hi <= i < |xs| ==> !Precedes(xs[i], key, orEqual)
    ensures var r := Search(xs, key, orEqual, lo, hi);
            && (forall i :: 0 <= i < r ==> Precedes(xs[i], key, orEqual))
            && (forall i :: r <= i < |xs| ==> !Precedes(xs[i], key, orEqual))
    decreases hi - lo
  {
    if lo < hi {
      hide Precedes, Ascending;
      var mid := lo + (hi - lo) / 2;
      PrecedingIsClosed(xs, key, orEqual, mid);
      assert lo <= mid < hi;
      if Precedes(xs[mid], key, orEqual) {
        SearchSeparates(xs, key, orEqual, mid + 1, hi);
      } else {
        SearchSeparates(xs, key, orEqual, lo, mid);
      }
    }
  }

  lemma LowerBoundSeparates(xs: seq<int>, key: int, orEqual: bool)
    requires Ascending(xs)
    ensures forall i :: 0 <= i < |xs| ==> (i < LowerBound(xs, key, orEqual) <==> Precedes(xs[i], key, orEqual))
  {
    SearchSeparates(xs, key, orEqual, 0, |xs|);
  }

  lemma LowerBoundMonotone(xs: seq<int>, a: int, b: int)
    requires a <= b
    ensures LowerBound(xs, a, false) <= LowerBound(xs, b, true)
  {
    SearchMonotone(xs, a, b, 0, |xs|);
  }

  /** Even on a list that is not sorted, a greater key is never found before a smaller one. */
  lemma {:induction false} SearchMonotone(xs: seq<int>, a: int, b: int, lo: nat, hi: nat)
    requires a <= b && lo <= hi <= |xs|
    ensures Search(xs, a, false, lo, hi) <= Search(xs, b, true, lo, hi)
    decreases hi - lo
  {
    if lo < hi {
      var mid := lo + (hi - lo) / 2;
      if Precedes(xs[mid], a, false) {
        SearchMonotone(xs, a, b, mid + 1, hi);
      } else if !Precedes(xs[mid], b, true) {
        SearchMonotone(xs, a, b, lo, mid);
      }
    }
  }
}
