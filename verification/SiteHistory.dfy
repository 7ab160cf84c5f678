/** Site history: the server's range query with delta encoding, and the web client's decoder. */
module SiteHistory {
  import opened Words
  import opened Lists

  datatype Site = Site(ts: uint32, pvPower: int, gridPower: int)

  /** The three lists of a response; CBOR carries them unchanged. */
  datatype Response = Response(timestamps: seq<int>, pvPowers: seq<int>, gridPowers: seq<int>)

  function Stamps(history: seq<Site>): (r: seq<int>)
    ensures |r| == |history|
  {
    seq(|history|, i requires 0 <= i < |history| => history[i].ts)
  }

  /** Position of the last sample at or before `from`, or of the first sample. */
  function First(history: seq<Site>, from: int): (r: nat)
    ensures r <= |history|
  {
    var itl := LowerBound(Stamps(history), U32(from), true);
    if itl != 0 then itl - 1 else itl
  }

  /** Position of the first sample at or after `to`. */
  function End(history: seq<Site>, to: int): (r: nat)
    ensures r <= |history|
  {
    LowerBound(Stamps(history), U32(to), false)
  }

  function DecaWatts(powers: seq<int>): (r: seq<int>)
    ensures |r| == |powers|
  {
    seq(|powers|, i requires 0 <= i < |powers| => TruncDiv(powers[i], 10))
  }

  function PvOf(s: seq<Site>): (r: seq<int>)
    ensures |r| == |s|
  {
    seq(|s|, i requires 0 <= i < |s| => s[i].pvPower)
  }

  function GridOf(s: seq<Site>): (r: seq<int>)
    ensures |r| == |s|
  {
    seq(|s|, i requires 0 <= i < |s| => s[i].gridPower)
  }

  function Encode(s: seq<Site>): Response {
    Response(Differences(Stamps(s), true),
             Differences(DecaWatts(PvOf(s)), false),
             Differences(DecaWatts(GridOf(s)), false))
  }

  method DivideByTen(a: array<int>)
    modifies a
    ensures a[..] == DecaWatts(old(a[..]))
  {
    for i := 0 to a.Length
      invariant forall k :: 0 <= k < i ==> a[k] == TruncDiv(old(a[k]), 10)
      invariant forall k :: i <= k < a.Length ==> a[k] == old(a[k])
    {
      a[i] := TruncDiv(a[i], 10);
    }
  }

  method EncodeInPlace(chosen: seq<Site>) returns (r: Response)
    ensures r == Encode(chosen)
  {
    var n := |chosen|;
    var timestamps := new int[n](i requires 0 <= i < n => chosen[i].ts);
    var pvPowers := new int[n](i requires 0 <= i < n => chosen[i].pvPower);
    var gridPowers := new int[n](i requires 0 <= i < n => chosen[i].gridPower);
    assert timestamps[..] == Stamps(chosen) && pvPowers[..] == PvOf(chosen) && gridPowers[..] == GridOf(chosen);
    hide Differences, DecaWatts;
    DivideByTen(gridPowers);
    DivideByTen(pvPowers);
    TakeDifferences(gridPowers, false);
    TakeDifferences(pvPowers, false);
    TakeDifferences(timestamps, true);
    r := Response(timestamps[..], pvPowers[..], gridPowers[..]);
  }

  /** An empty history and a range that ends before it starts are undefined in the source. */
  method SerializeSiteHistory(history: seq<Site>, from: int, to: int) returns (r: Option<Response>)
    requires history != [] && First(history, from) <= End(history, to)
    ensures r == if First(history, from) == End(history, to) then None
                 else Some(Encode(history[First(history, from)..End(history, to)]))
  {
    var itl := FindLowerBound(Stamps(history), U32(from), true);
    var itu := FindLowerBound(Stamps(history), U32(to), false);
    if itl != 0 {
      itl := itl - 1;
    }
    if itl == |history| || itu - itl < 1 {
      return None;
    }
    var response := EncodeInPlace(history[itl..itu]);
    return Some(response);
  }

  function TenTimesSums(s: seq<int>): (r: seq<int>)
    ensures |r| == |s|
  {
    seq(|s|, i requires 0 <= i < |s| => 10 * SumTo(s, i + 1))
  }

  method SumUpWatts(powers: array<int>)
    requires powers.Length > 0
    modifies powers
    ensures powers[..] == TenTimesSums(old(powers[..]))
  {
    ghost var p := powers[..];
    powers[0] := powers[0] * 10;
    assert SumTo(p, 1) == SumTo(p, 0) + p[0];
    for i := 0 to powers.Length - 1
      invariant forall k :: 0 <= k <= i ==> powers[k] == 10 * SumTo(p, k + 1)
      invariant forall k :: i < k < powers.Length ==> powers[k] == p[k]
    {
      powers[i + 1] := powers[i] + powers[i + 1] * 10;
    }
  }

  function Parsed(r: Response): Response {
    Response(PrefixSums(r.timestamps), TenTimesSums(r.pvPowers), TenTimesSums(r.gridPowers))
  }

  /** `_parseBinary`: decodes the three lists in place. The first element of an empty list raises an error. */
  method ParseBinary(timestamps: array<int>, pvPowers: array<int>, gridPowers: array<int>) returns (ok: bool)
    requires timestamps != pvPowers && timestamps != gridPowers && pvPowers != gridPowers
    modifies timestamps, pvPowers, gridPowers
    ensures ok <==> pvPowers.Length > 0 && gridPowers.Length > 0
    ensures ok ==> (Response(timestamps[..], pvPowers[..], gridPowers[..])
                    == Parsed(old(Response(timestamps[..], pvPowers[..], gridPowers[..]))))
  {
    UndoDeltas(timestamps);
    if pvPowers.Length == 0 {
      return false;
    }
    SumUpWatts(pvPowers);
    if gridPowers.Length == 0 {
      return false;
    }
    SumUpWatts(gridPowers);
    return true;
  }

  // ---- Properties --------------------------------------------------------------------------

  ghost predicate Recorded(history: seq<Site>) {
    forall i, j :: 0 <= i < j < |history| ==> history[i].ts < history[j].ts
  }

  /** Sample `i` belongs to the answer: before `to`, and not superseded at `from` by a later one. */
  ghost predicate InRange(history: seq<Site>, i: int, from: int, to: int) {
    && 0 <= i < |history| && history[i].ts < to
    && (i + 1 < |history| ==> from < history[i + 1].ts)
  }

  /** The range query selects exactly the samples in range, and is defined for every ordered range. */
  lemma RangeSelected(history: seq<Site>, from: int, to: int)
    requires Recorded(history) && 0 <= from <= to < 0x1_0000_0000
    ensures First(history, from) <= End(history, to)
    ensures forall i :: First(history, from) <= i < End(history, to) <==> InRange(history, i, from, to)
  {
    hide LowerBound;
    var ts := Stamps(history);
    LowerBoundSeparates(ts, from, true);
    LowerBoundSeparates(ts, to, false);
    var a, b := First(history, from), End(history, to);
    var itl := LowerBound(ts, from, true);
    assert forall i :: 0 <= i < |ts| ==> ts[i] == history[i].ts;
    if a > 0 {
      assert ts[a - 1] < ts[a] && Precedes(ts[a], from, true);
      assert Precedes(ts[a - 1], to, false);
    }
    forall i ensures a <= i < b <==> InRange(history, i, from, to) {
      if 0 <= i < |history| {
        assert i < b <==> Precedes(ts[i], to, false);
        if i + 1 < |history| {
          assert i + 1 < itl <==> Precedes(ts[i + 1], from, true);
        }
      }
    }
  }

  /** Each power as the client sees it: cut toward zero to a multiple of 10. */
  function Rounded(powers: seq<int>): (r: seq<int>)
    ensures |r| == |powers|
  {
    seq(|powers|, i requires 0 <= i < |powers| => 10 * TruncDiv(powers[i], 10))
  }

  lemma CutTowardZero(p: int)
    ensures var q := 10 * TruncDiv(p, 10);
            q % 10 == 0 && (p >= 0 ==> p - 10 < q <= p) && (p <= 0 ==> p <= q < p + 10)
  {
  }

  lemma WattsRecovered(powers: seq<int>)
    ensures TenTimesSums(Differences(DecaWatts(powers), false)) == Rounded(powers)
  {
    hide Differences, SumTo, TruncDiv;
    var d := DecaWatts(powers);
    var r := Differences(d, false);
    forall i | 0 <= i < |powers| ensures TenTimesSums(r)[i] == Rounded(powers)[i] {
      SumsUndoDifferences(d, false, i);
      assert TenTimesSums(r)[i] == 10 * SumTo(r, i + 1);
      assert d[i] == TruncDiv(powers[i], 10);
    }
  }

  lemma StampsRecovered(chosen: seq<Site>)
    requires Recorded(chosen)
    ensures PrefixSums(Differences(Stamps(chosen), true)) == Stamps(chosen)
  {
    hide Differences, SumTo;
    var ts := Stamps(chosen);
    var r := Differences(ts, true);
    forall i | 0 <= i < |ts| ensures PrefixSums(r)[i] == ts[i] {
      SumsUndoDifferences(ts, true, i);
    }
  }

  /**
   * Range query and delta round trip: the client recovers exactly the samples in range, with exact timestamps
   * and every power cut toward zero to a multiple of 10.
   */
  lemma HistoryRoundTrip(history: seq<Site>, from: int, to: int)
    requires Recorded(history) && 0 <= from <= to < 0x1_0000_0000
    ensures First(history, from) <= End(history, to)
    ensures var chosen := history[First(history, from)..End(history, to)];
            Parsed(Encode(chosen)) == Response(Stamps(chosen), Rounded(PvOf(chosen)), Rounded(GridOf(chosen)))
  {
    RangeSelected(history, from, to);
    var chosen := history[First(history, from)..End(history, to)];
    hide First, End, Stamps, Differences, PrefixSums, TenTimesSums, DecaWatts, Rounded;
    StampsRecovered(chosen);
    WattsRecovered(PvOf(chosen));
    WattsRecovered(GridOf(chosen));
  }

  /** `shown` is the multiple of 10 next to `power` on the side of zero. */
  predicate CutToTens(shown: int, power: int) {
    shown % 10 == 0 && (power >= 0 ==> shown <= power < shown + 10) && (power <= 0 ==> shown - 10 < power <= shown)
  }

  /** The answer as the client shows it, sample by sample. */
  lemma SamplesShown(history: seq<Site>, from: int, to: int)
    requires Recorded(history) && 0 <= from <= to < 0x1_0000_0000
    ensures First(history, from) <= End(history, to)
    ensures var chosen := history[First(history, from)..End(history, to)];
            var r := Parsed(Encode(chosen));
            && |r.timestamps| == |r.pvPowers| == |r.gridPowers| == |chosen|
            && forall i :: 0 <= i < |chosen| ==>
                 && r.timestamps[i] == chosen[i].ts
                 && CutToTens(r.pvPowers[i], chosen[i].pvPower) && CutToTens(r.gridPowers[i], chosen[i].gridPower)
  {
    HistoryRoundTrip(history, from, to);
    var chosen := history[First(history, from)..End(history, to)];
    hide First, End, Encode, Parsed;
    forall i | 0 <= i < |chosen|
      ensures CutToTens(Rounded(PvOf(chosen))[i], chosen[i].pvPower)
      ensures CutToTens(Rounded(GridOf(chosen))[i], chosen[i].gridPower)
    {
      CutTowardZero(chosen[i].pvPower);
      CutTowardZero(chosen[i].gridPower);
    }
  }

  /** `s` holds the first of `values` and then the differences of neighbours. */
  predicate IsDelta(s: seq<int>, values: seq<int>) {
    && |s| == |values|
    && forall i :: 0 <= i < |s| ==> s[i] == if i == 0 then values[0] else values[i] - values[i - 1]
  }

  lemma DifferencesAre(values: seq<int>)
    ensures IsDelta(Differences(values, false), values)
  {
  }

  lemma TimesAre(chosen: seq<Site>)
    requires Recorded(chosen)
    ensures IsDelta(Differences(Stamps(chosen), true), Stamps(chosen))
  {
    var ts := Stamps(chosen);
    hide Differences;
    forall i | 0 <= i < |ts| ensures Differences(ts, true)[i] == if i == 0 then ts[0] else ts[i] - ts[i - 1] {
      DifferenceAt(ts, true, i);
    }
  }

  lemma TensOf(powers: seq<int>, i: nat)
    requires i < |powers|
    ensures CutToTens(10 * DecaWatts(powers)[i], powers[i])
  {
    CutTowardZero(powers[i]);
  }

  /** What travels: the times as they are, the powers in units of 10 W, each as first value and differences. */
  lemma AnswerOnWire(chosen: seq<Site>) returns (pv: seq<int>, grid: seq<int>)
    requires Recorded(chosen)
    ensures var r := Encode(chosen);
            && IsDelta(r.timestamps, Stamps(chosen)) && IsDelta(r.pvPowers, pv) && IsDelta(r.gridPowers, grid)
    ensures |pv| == |grid| == |chosen|
    ensures forall i :: 0 <= i < |chosen| ==>
              CutToTens(10 * pv[i], chosen[i].pvPower) && CutToTens(10 * grid[i], chosen[i].gridPower)
  {
    hide Differences, IsDelta, CutToTens, DecaWatts, TruncDiv;
    pv, grid := DecaWatts(PvOf(chosen)), DecaWatts(GridOf(chosen));
    DifferencesAre(pv);
    DifferencesAre(grid);
    TimesAre(chosen);
    forall i | 0 <= i < |chosen|
      ensures CutToTens(10 * pv[i], chosen[i].pvPower) && CutToTens(10 * grid[i], chosen[i].gridPower)
    {
      TensOf(PvOf(chosen), i);
      TensOf(GridOf(chosen), i);
    }
  }
}
