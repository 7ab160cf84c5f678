/** Events that keep a minimum distance: how many of them a window of time can hold. */
module Spacing {
  ghost predicate Spaced(times: seq<int>, gap: nat) {
    forall i :: 0 < i < |times| ==> times[i - 1] + gap <= times[i]
  }

  function CountIn(times: seq<int>, a: int, b: int): nat {
    if times == [] then 0
    else CountIn(times[..|times| - 1], a, b) + if a <= times[|times| - 1] <= b then 1 else 0
  }

  lemma {:induction false} AtMostLast(times: seq<int>, gap: nat, i: nat)
    requires Spaced(times, gap) && i < |times| - 1
    ensures times[i] + gap <= times[|times| - 1]
  {
    if i < |times| - 2 {
      AtMostLast(times[..|times| - 1], gap, i);
    }
  }

  lemma {:induction false} NoneIn(times: seq<int>, a: int, b: int)
    requires forall i :: 0 <= i < |times| ==> times[i] < a || b < times[i]
    ensures CountIn(times, a, b) == 0
  {
    if times != [] {
      NoneIn(times[..|times| - 1], a, b);
    }
  }

  lemma {:induction false} NarrowerWindow(times: seq<int>, a: int, b: int, c: int)
    requires forall i :: 0 <= i < |times| ==> times[i] <= c
    ensures c <= b ==> CountIn(times, a, b) == CountIn(times, a, c)
  {
    if times != [] {
      NarrowerWindow(times[..|times| - 1], a, b, c);
    }
  }

  /** A window of length `b - a` holds at most `(b - a) / gap + 1` of them. */
  lemma {:induction false} WindowBound(times: seq<int>, gap: nat, a: int, b: int)
    requires Spaced(times, gap)
    ensures CountIn(times, a, b) > 0 ==> (CountIn(times, a, b) - 1) * gap <= b - a
    decreases |times|
  {
    if times != [] {
      var n := |times| - 1;
      var rest, last := times[..n], times[n];
      if a <= last <= b {
        forall i | 0 <= i < n ensures rest[i] <= last - gap {
          AtMostLast(times, gap, i);
        }
        NarrowerWindow(rest, a, b, last - gap);
        WindowBound(rest, gap, a, last - gap);
        assert (CountIn(rest, a, b) + 1 - 1) * gap == (CountIn(rest, a, b) - 1) * gap + gap;
      } else {
        WindowBound(rest, gap, a, b);
      }
    }
  }
}
