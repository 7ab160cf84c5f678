/** The rows of one table: change-only recording, and the day scans. */
module Recorder {
  import opened Words
  import opened OrderedMap
  import opened Downsampling

  // ---- Change-only recording ---------------------------------------------------------------

  datatype Op = Record(ts: nat, dp: Datapoint) | Restart

  /** The stored rows and the cached last value. */
  datatype Recording = Recording(rows: Dataset, last: Datapoint)

  function Recorded(s: Recording, op: Op): Recording {
    match op
    case Record(ts, dp) => if s.last == dp then s else Recording(Put(s.rows, ts, dp), dp)
    case Restart => s.(last := [])
  }

  function RecordAll(ops: seq<Op>): Recording {
    if ops == [] then Recording([], []) else Recorded(RecordAll(ops[..|ops| - 1]), ops[|ops| - 1])
  }

  /** Every datapoint that was put. */
  function Everything(ops: seq<Op>): Dataset {
    if ops == [] then []
    else
      var before := Everything(ops[..|ops| - 1]);
      match ops[|ops| - 1]
      case Record(ts, dp) => Put(before, ts, dp)
      case Restart => before
  }

  /** Every put of the run came at or before `t`. */
  ghost predicate AllBy(ops: seq<Op>, t: int) {
    forall k :: 0 <= k < |ops| && ops[k].Record? ==> ops[k].ts <= t
  }

  /** Timestamps do not go back. */
  ghost predicate InTime(ops: seq<Op>) {
    ops != [] ==>
      var before := ops[..|ops| - 1];
      InTime(before) && (ops[|ops| - 1].Record? ==> AllBy(before, ops[|ops| - 1].ts))
  }

  ghost predicate NoneAfter(m: Dataset, t: int) {
    m != [] ==> m[|m| - 1].key <= t
  }

  lemma HoldAfterPut(m: Dataset, k: nat, v: Datapoint, t: int)
    requires Sorted(m) && NoneAfter(m, k)
    ensures Hold(Put(m, k, v), t, []) == if t >= k then v else Hold(m, t, [])
    ensures Sorted(Put(m, k, v)) && Put(m, k, v) != [] && Put(m, k, v)[|Put(m, k, v)| - 1] == Pair(k, v)
  {
    var r := Put(m, k, v);
    assert r[..|r| - 1] == m[..|r| - 1];
    assert |r| - 1 == |m| ==> m[..|m|] == m;
  }

  /** The value in force at the end. */
  function Latest(m: Dataset): Datapoint {
    if m == [] then [] else m[|m| - 1].value
  }

  // ---- Day scans ---------------------------------------------------------------------------

  /** Rows from the first key not below `start` to the last one below `end`. */
  function Scan(rows: Dataset, start: nat, end: nat): Dataset {
    if rows == [] then []
    else if rows[0].key < start then Scan(rows[1..], start, end)
    else TakeBelow(rows, end)
  }

  function TakeBelow(rows: Dataset, end: nat): Dataset {
    if rows == [] || rows[0].key >= end then [] else [rows[0]] + TakeBelow(rows[1..], end)
  }

  /** What is left when a scan erases the rows it visits. */
  function Erased(rows: Dataset, start: nat, end: nat): Dataset {
    if rows == [] then []
    else if rows[0].key < start then [rows[0]] + Erased(rows[1..], start, end)
    else DropBelow(rows, end)
  }

  function DropBelow(rows: Dataset, end: nat): Dataset {
    if rows == [] || rows[0].key >= end then rows else DropBelow(rows[1..], end)
  }

  /** The bounds of a day as `uint32_t`. */
  function StartOf(day: nat): uint32 {
    U32(SECONDS_PER_DAY * day)
  }

  function EndOf(day: nat): uint32 {
    U32(StartOf(day) + SECONDS_PER_DAY)
  }

  function OfDay(rows: Dataset, day: nat): Dataset {
    Scan(rows, StartOf(day), EndOf(day))
  }

  function WithoutDay(rows: Dataset, day: nat): Dataset {
    Erased(rows, StartOf(day), EndOf(day))
  }

  /** The last day that ends before the 32-bit seconds do. */
  const LAST_DAY: nat := 49709

  lemma {:induction false} TakeSlices(rows: Dataset, end: nat) returns (b: nat)
    requires Sorted(rows)
    ensures b <= |rows| && TakeBelow(rows, end) == rows[..b] && DropBelow(rows, end) == rows[b..]
    ensures forall i :: 0 <= i < |rows| ==> (rows[i].key < end <==> i < b)
  {
    if rows == [] || rows[0].key >= end {
      b := 0;
    } else {
      var rest := rows[1..];
      var c := TakeSlices(rest, end);
      b := c + 1;
      assert rows[..b] == [rows[0]] + rest[..c] && rows[b..] == rest[c..];
      assert forall i :: 0 < i < |rows| ==> rows[i] == rest[i - 1];
    }
  }

  /** A scan visits one slice of the table, the keys from `start` below `end`; erasing leaves the rest. */
  lemma {:induction false} ScanSlices(rows: Dataset, start: nat, end: nat) returns (a: nat, b: nat)
    requires Sorted(rows)
    ensures a <= b <= |rows|
    ensures Scan(rows, start, end) == rows[a..b] && Erased(rows, start, end) == rows[..a] + rows[b..]
    ensures forall i :: 0 <= i < |rows| ==> (rows[i].key < start <==> i < a)
    ensures forall i :: a <= i < |rows| ==> (rows[i].key < end <==> i < b)
  {
    hide TakeBelow, DropBelow;
    if rows == [] {
      a, b := 0, 0;
    } else if rows[0].key >= start {
      a := 0;
      b := TakeSlices(rows, end);
    } else {
      var rest := rows[1..];
      var c, d := ScanSlices(rest, start, end);
      a, b := c + 1, d + 1;
      OneRowOn(rows, c, d);
      assert forall i :: 0 < i < |rows| ==> rows[i] == rest[i - 1];
    }
  }

  lemma OneRowOn(rows: Dataset, c: nat, d: nat)
    requires rows != [] && c <= d < |rows|
    ensures rows[c + 1..d + 1] == rows[1..][c..d]
    ensures rows[..c + 1] + rows[d + 1..] == [rows[0]] + (rows[1..][..c] + rows[1..][d..])
  {
    var rest := rows[1..];
    assert forall i :: c <= i < d ==> rows[c + 1..d + 1][i - c] == rows[i + 1] == rest[i];
    assert rows[c + 1..d + 1] == rest[c..d];
    assert rows[..c + 1] == [rows[0]] + rest[..c];
    assert rows[d + 1..] == rest[d..];
    assert ([rows[0]] + rest[..c]) + rest[d..] == [rows[0]] + (rest[..c] + rest[d..]);
  }

  predicate OnDay(p: Pair<Datapoint>, day: nat) {
    p.key / SECONDS_PER_DAY == day
  }

  lemma DayBounds(day: nat)
    requires day <= LAST_DAY
    ensures StartOf(day) == SECONDS_PER_DAY * day && EndOf(day) == SECONDS_PER_DAY * day + SECONDS_PER_DAY
  {
  }

  lemma OnDayBounds(p: Pair<Datapoint>, day: nat)
    ensures OnDay(p, day) <==> SECONDS_PER_DAY * day <= p.key < SECONDS_PER_DAY * day + SECONDS_PER_DAY
  {
  }

  /** The day scans partition a table: one slice holds exactly the rows of the day, and erasing keeps all others. */
  lemma DaySlices(rows: Dataset, day: nat) returns (a: nat, b: nat)
    requires Sorted(rows) && day <= LAST_DAY
    ensures a <= b <= |rows| && OfDay(rows, day) == rows[a..b] && WithoutDay(rows, day) == rows[..a] + rows[b..]
    ensures forall i :: 0 <= i < |rows| ==> (OnDay(rows[i], day) <==> a <= i < b)
  {
    hide OnDay, StartOf, EndOf, Scan, Erased;
    DayBounds(day);
    a, b := ScanSlices(rows, StartOf(day), EndOf(day));
    forall i | 0 <= i < |rows| ensures OnDay(rows[i], day) <==> a <= i < b {
      OnDayBounds(rows[i], day);
    }
  }

  /** Reading a day gives its rows, all of them and no others. */
  lemma OfDayMembers(rows: Dataset, day: nat, p: Pair<Datapoint>)
    requires Sorted(rows) && day <= LAST_DAY
    ensures Sorted(OfDay(rows, day)) && Sorted(WithoutDay(rows, day))
    ensures p in OfDay(rows, day) <==> p in rows && OnDay(p, day)
    ensures p in WithoutDay(rows, day) <==> p in rows && !OnDay(p, day)
  {
    hide OfDay, WithoutDay, OnDay;
    var a, b := DaySlices(rows, day);
    var kept := rows[..a] + rows[b..];
    assert rows == rows[..a] + rows[a..b] + rows[b..];
    assert forall i :: 0 <= i < |kept| ==> kept[i] == rows[if i < a then i else i + b - a];
  }

  /** Sorted tables with the same rows are the same table. */
  lemma {:induction false} SortedEqual(m: Dataset, n: Dataset)
    requires Sorted(m) && Sorted(n) && forall p :: p in m <==> p in n
    ensures m == n
  {
    assert n != [] ==> n[0] in n;
    if m != [] {
      assert m[0] in n && n != [];
      assert n[0] in m;
      assert m[0] == n[0];
      assert m == [m[0]] + m[1..] && n == [n[0]] + n[1..];
      forall p ensures p in m[1..] <==> p in n[1..] {
        assert p in m[1..] <==> p in m && p != m[0];
        assert p in n[1..] <==> p in n && p != n[0];
      }
      SortedEqual(m[1..], n[1..]);
    }
  }

  /** Erasing a day empties it and leaves every other day as it was. */
  lemma EraseDay(rows: Dataset, day: nat, other: nat)
    requires Sorted(rows) && day <= LAST_DAY && other <= LAST_DAY
    ensures OfDay(WithoutDay(rows, day), other) == if other == day then [] else OfDay(rows, other)
  {
    hide OfDay, WithoutDay;
    var left := WithoutDay(rows, day);
    assert Sorted(left) && Sorted(OfDay(rows, other)) by {
      OfDayMembers(rows, day, Pair(0, []));
      OfDayMembers(rows, other, Pair(0, []));
    }
    forall p
      ensures p in OfDay(left, other) <==> other != day && p in OfDay(rows, other)
    {
      OfDayMembers(left, other, p);
      OfDayMembers(rows, day, p);
      OfDayMembers(rows, other, p);
    }
    OfDayMembers(left, other, Pair(0, []));
    SortedEqual(OfDay(left, other), if other == day then [] else OfDay(rows, other));
  }

  /** On the day in which the 32-bit seconds end, the wrapped bound stops every scan at once. */
  lemma LastDayUnseen(rows: Dataset)
    requires Sorted(rows)
    ensures OfDay(rows, LAST_DAY + 1) == [] && WithoutDay(rows, LAST_DAY + 1) == rows
  {
    var start, end := StartOf(LAST_DAY + 1), EndOf(LAST_DAY + 1);
    assert end < start;
    hide Scan, Erased;
    var a, b := ScanSlices(rows, start, end);
    assert a < |rows| ==> (start <= rows[a].key < end <==> a < b);
    assert a == b && rows[..a] + rows[a..] == rows;
  }

  /** A write replaces the row of its key and leaves all others. */
  lemma {:induction false} PutMembers(m: Dataset, k: nat, v: Datapoint)
    requires Sorted(m)
    ensures Sorted(Put(m, k, v))
    ensures forall p :: p in Put(m, k, v) <==> p == Pair(k, v) || (p in m && p.key != k)
  {
    if m != [] {
      var n := |m| - 1;
      var init, last := m[..n], m[n];
      assert m == init + [last];
      if k < last.key {
        PutMembers(init, k, v);
        var r := Put(init, k, v);
        forall i | 0 <= i < |r| ensures r[i].key < last.key {
          assert r[i] in r;
        }
      }
    }
  }

  /** A write changes its own day as it changes the table, and no other day. */
  lemma PutDay(m: Dataset, k: nat, v: Datapoint, day: nat)
    requires Sorted(m) && day <= LAST_DAY
    ensures Sorted(Put(m, k, v))
    ensures OfDay(Put(m, k, v), day) == if OnDay(Pair(k, v), day) then Put(OfDay(m, day), k, v) else OfDay(m, day)
  {
    hide OfDay, Put, OnDay;
    PutMembers(m, k, v);
    OfDayMembers(m, day, Pair(k, v));
    PutMembers(OfDay(m, day), k, v);
    var r := Put(m, k, v);
    OfDayMembers(r, day, Pair(k, v));
    var expected := if OnDay(Pair(k, v), day) then Put(OfDay(m, day), k, v) else OfDay(m, day);
    forall p ensures p in OfDay(r, day) <==> p in expected {
      OfDayMembers(r, day, p);
      OfDayMembers(m, day, p);
      SameDay(p, Pair(k, v), day);
    }
    SortedEqual(OfDay(r, day), expected);
  }

  /** Rows with the same key are on the same day. */
  lemma SameDay(p: Pair<Datapoint>, q: Pair<Datapoint>, day: nat)
    ensures p.key == q.key ==> OnDay(p, day) == OnDay(q, day)
  {
  }
}
