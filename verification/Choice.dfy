/** The elements of a list that satisfy a condition, all of them and in their order, by position. */
module Choice {
  /** `chosen` are exactly the positions of wanted elements, in ascending order. */
  ghost predicate Chooses<T>(items: seq<T>, wanted: T -> bool, chosen: seq<nat>) {
    && (forall i :: 0 <= i < |chosen| ==> chosen[i] < |items| && wanted(items[chosen[i]]))
    && (forall i, j :: 0 <= i < j < |chosen| ==> chosen[i] < chosen[j])
    && (forall i: nat :: i < |items| && wanted(items[i]) ==> i in chosen)
  }

  /** `values` are the values of the chosen elements. */
  ghost predicate Yields<T, V(!new)>(items: seq<T>, value: T -> V, chosen: seq<nat>, values: seq<V>) {
    && |chosen| == |values|
    && forall i :: 0 <= i < |chosen| ==> chosen[i] < |items| && value(items[chosen[i]]) == values[i]
  }

  lemma ChooseNext<T, V(!new)>(
    items: seq<T>, wanted: T -> bool, value: T -> V, chosen: seq<nat>, values: seq<V>, last: T)
    requires Chooses(items, wanted, chosen) && Yields(items, value, chosen, values)
    ensures var all := items + [last];
            if wanted(last)
            then
              && Chooses(all, wanted, chosen + [|items|])
              && Yields(all, value, chosen + [|items|], values + [value(last)])
            else Chooses(all, wanted, chosen) && Yields(all, value, chosen, values)
  {
    if wanted(last) {
      forall i: nat | i <= |items| && wanted((items + [last])[i]) ensures i in chosen + [|items|] {
        assert i < |items| ==> wanted(items[i]);
      }
    }
  }
}
