/** `std::map` with unsigned keys, and an mdbx table with ordinal keys: rows in ascending key order. */
module OrderedMap {
  datatype Pair<+V> = Pair(key: nat, value: V)

  type Rows<+V> = seq<Pair<V>>

  ghost predicate Sorted<V>(m: Rows<V>) {
    forall i, j :: 0 <= i < j < |m| ==> m[i].key < m[j].key
  }

  ghost predicate HasKey<V>(m: Rows<V>, k: nat) {
    exists i :: 0 <= i < |m| && m[i].key == k
  }

  /** `m[k] = v`, and an mdbx upsert. */
  function Put<V>(m: Rows<V>, k: nat, v: V): Rows<V> {
    if m == [] || m[|m| - 1].key < k then m + [Pair(k, v)]
    else if m[|m| - 1].key == k then m[..|m| - 1] + [Pair(k, v)]
    else Put(m[..|m| - 1], k, v) + [m[|m| - 1]]
  }

  function Get<V>(m: Rows<V>, k: nat, default: V): V {
    if m == [] then default
    else if m[|m| - 1].key == k then m[|m| - 1].value
    else Get(m[..|m| - 1], k, default)
  }

  /** Sample and hold: the value of the last row at or before `t`. */
  function Hold<V>(m: Rows<V>, t: int, default: V): V {
    if m == [] then default
    else if m[|m| - 1].key <= t then m[|m| - 1].value
    else Hold(m[..|m| - 1], t, default)
  }

  lemma {:induction false} GetMember<V>(m: Rows<V>, i: nat, default: V)
    requires Sorted(m) && i < |m|
    ensures Get(m, m[i].key, default) == m[i].value
  {
    if i < |m| - 1 {
      GetMember(m[..|m| - 1], i, default);
    }
  }

  /** Reading back after a write. */
  lemma {:induction false} GetAfterPut<V>(m: Rows<V>, k: nat, v: V, q: nat, default: V)
    ensures Get(Put(m, k, v), q, default) == if q == k then v else Get(m, q, default)
  {
    var n := |m| - 1;
    if m == [] || m[n].key < k {
      assert Put(m, k, v)[..n + 1] == m;
    } else if m[n].key == k {
      assert Put(m, k, v)[..n] == m[..n];
    } else {
      GetAfterPut(m[..n], k, v, q, default);
      var r := Put(m[..n], k, v);
      assert Put(m, k, v)[..|r|] == r;
    }
  }

  /** A stored value other than the default has a row. */
  lemma {:induction false} GetFinds<V>(m: Rows<V>, k: nat, default: V) returns (i: nat)
    requires Get(m, k, default) != default
    ensures i < |m| && m[i] == Pair(k, Get(m, k, default))
  {
    if m[|m| - 1].key == k {
      i := |m| - 1;
    } else {
      i := GetFinds(m[..|m| - 1], k, default);
    }
  }

  /** `Hold` reads the row whose key is the greatest one not above `t`. */
  lemma {:induction false} HoldReads<V>(m: Rows<V>, i: nat, t: int, default: V)
    requires Sorted(m) && i < |m| && m[i].key <= t
    requires i + 1 < |m| ==> t < m[i + 1].key
    ensures Hold(m, t, default) == m[i].value
  {
    if i < |m| - 1 {
      assert t < m[|m| - 1].key;
      HoldReads(m[..|m| - 1], i, t, default);
    }
  }

  lemma {:induction false} HoldBefore<V>(m: Rows<V>, t: int, default: V)
    requires forall p | p in m :: t < p.key
    ensures Hold(m, t, default) == default
  {
    if m != [] {
      assert m[|m| - 1] in m;
      HoldBefore(m[..|m| - 1], t, default);
    }
  }

  /** The first row acts as the value held before the second one. */
  lemma {:induction false} HoldFirst<V>(m: Rows<V>, t: int, default: V)
    requires Sorted(m) && m != []
    ensures Hold(m, t, default) == Hold(m[1..], t, if m[0].key <= t then m[0].value else default)
  {
    if |m| > 1 {
      var n := |m| - 1;
      HoldFirst(m[..n], t, default);
      assert m[1..][..n - 1] == m[..n][1..];
    }
  }
}
