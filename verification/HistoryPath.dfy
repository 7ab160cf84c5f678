/** The whole path of site history: range query, client decoder, and the splice into the three chart lines. */
module HistoryPath {
  import opened Words
  import opened Lists
  import opened SiteHistory
  import opened SiteService

  function HistoricOf(r: Response): Historic {
    Historic(r.timestamps, r.pvPowers, r.gridPowers)
  }

  /** A power as the chart shows it. */
  function Cut(power: int): int {
    10 * TruncDiv(power, 10)
  }

  /** The samples as points of the three lines. */
  function Shown(chosen: seq<Site>): Lines {
    Lines(seq(|chosen|, i requires 0 <= i < |chosen| => FlSpot(chosen[i].ts, Cut(chosen[i].pvPower))),
          seq(|chosen|, i requires 0 <= i < |chosen| => FlSpot(chosen[i].ts, Cut(chosen[i].gridPower))),
          seq(|chosen|, i requires 0 <= i < |chosen| =>
            FlSpot(chosen[i].ts, Cut(chosen[i].pvPower) + Cut(chosen[i].gridPower))))
  }

  ghost predicate Ordered(s: Lines) {
    Ascending(Xs(s.pv)) && Ascending(Xs(s.grid)) && Ascending(Xs(s.site))
  }

  lemma PointsShown(chosen: seq<Site>)
    ensures Points(Historic(Stamps(chosen), Rounded(PvOf(chosen)), Rounded(GridOf(chosen)))) == Shown(chosen)
  {
    hide TruncDiv;
    var h := Historic(Stamps(chosen), Rounded(PvOf(chosen)), Rounded(GridOf(chosen)));
    assert forall i :: 0 <= i < |chosen| ==>
             h.pvPower[i] == Cut(chosen[i].pvPower) && h.gridPower[i] == Cut(chosen[i].gridPower);
  }

  lemma ShownXs(chosen: seq<Site>)
    requires Recorded(chosen)
    ensures var p := Shown(chosen);
            Xs(p.pv) == Stamps(chosen) && Xs(p.grid) == Stamps(chosen) && Xs(p.site) == Stamps(chosen) && Ordered(p)
  {
  }

  /** Old points before the first sample, the samples, old points after the last one. */
  function Replaced(line: Line, points: Line): Line
    requires points != []
  {
    Earlier(line, points[0].x) + points + Later(line, points[|points| - 1].x)
  }

  /** Each sample stands on the three lines at its time, with its powers cut to tens and their sum. */
  lemma ShownPoints(chosen: seq<Site>, i: nat)
    requires i < |chosen|
    ensures var p := Shown(chosen);
            && |p.pv| == |p.grid| == |p.site| == |chosen|
            && p.pv[i].x == p.grid[i].x == p.site[i].x == chosen[i].ts
            && CutToTens(p.pv[i].y, chosen[i].pvPower) && CutToTens(p.grid[i].y, chosen[i].gridPower)
            && p.site[i].y == p.pv[i].y + p.grid[i].y
  {
    CutTowardZero(chosen[i].pvPower);
    CutTowardZero(chosen[i].gridPower);
  }

  /**
   * From the server's history to the chart: for ordered lines and a range that selects something, each line ends up
   * as the old points before the first selected sample, the selected samples with powers cut toward zero to tens, and
   * the old points after the last one; and the lines stay ordered.
   */
  lemma ResponseSpliced(s: Lines, history: seq<Site>, from: int, to: int)
    requires Recorded(history) && 0 <= from <= to < 0x1_0000_0000 && Ordered(s)
    requires First(history, from) < End(history, to)
    ensures var chosen := history[First(history, from)..End(history, to)];
            var p := Shown(chosen);
            && |p.pv| == |p.grid| == |p.site| > 0
            && Merged(s, HistoricOf(Parsed(Encode(chosen))))
               == Lines(Replaced(s.pv, p.pv), Replaced(s.grid, p.grid), Replaced(s.site, p.site))
            && Ordered(Merged(s, HistoricOf(Parsed(Encode(chosen)))))
  {
    var chosen := history[First(history, from)..End(history, to)];
    var p := Shown(chosen);
    HistoryRoundTrip(history, from, to);
    PointsShown(chosen);
    ShownXs(chosen);
    hide Spliced, Points, Shown, Encode, Parsed, Stamps, Rounded, First, End, Ascending, Earlier, Later;
    SpliceCorrect(s.pv, p.pv);
    SpliceCorrect(s.grid, p.grid);
    SpliceCorrect(s.site, p.site);
  }

  // ---- The x coordinates of a run ----------------------------------------------------------

  ghost predicate SameXs(s: Lines) {
    Xs(s.pv) == Xs(s.grid) && Xs(s.pv) == Xs(s.site)
  }

  function SplicedXs(xs: seq<int>, ts: seq<int>): Result<seq<int>> {
    if ts == [] then Ok(xs)
    else
      var i, j := LowerBound(xs, ts[0], false), LowerBound(xs, ts[|ts| - 1], true);
      if i > j then Err(RangeError) else Ok(xs[..i] + ts + xs[j..])
  }

  /** What an event makes of the common x coordinates. */
  function HandledXs(xs: seq<int>, e: Event): seq<int> {
    match e
    case Request(from) => [from] + xs
    case Sample(p) => xs + [p.ts]
    case Response(h) =>
      if |h.pvPower| < |h.ts| || |h.gridPower| < |h.ts| then xs
      else
        match SplicedXs(xs, h.ts)
        case Err(_) => xs
        case Ok(r) => r
  }

  lemma SpliceHasXs(line: Line, points: Line)
    ensures Spliced(line, points).Ok? <==> SplicedXs(Xs(line), Xs(points)).Ok?
    ensures Spliced(line, points).Ok? ==> Xs(Spliced(line, points).value) == SplicedXs(Xs(line), Xs(points)).value
  {
    hide LowerBound;
    if points != [] {
      var i, j := LowerBound(Xs(line), points[0].x, false), LowerBound(Xs(line), points[|points| - 1].x, true);
      if i <= j {
        PiecesXs(line, points, i, j);
      }
    }
  }

  lemma PiecesXs(line: Line, points: Line, i: nat, j: nat)
    requires i <= j <= |line|
    ensures Xs(line[..i] + points + line[j..]) == Xs(line)[..i] + Xs(points) + Xs(line)[j..]
  {
  }

  lemma PointsXs(h: Historic)
    requires |h.ts| <= |h.pvPower| && |h.ts| <= |h.gridPower|
    ensures var p := Points(h); Xs(p.pv) == h.ts && Xs(p.grid) == h.ts && Xs(p.site) == h.ts
  {
  }

  /** The three lines always have the same x coordinates, and an event changes them alike. */
  lemma HandleXs(s: Lines, e: Event)
    requires SameXs(s)
    ensures SameXs(Handle(s, e)) && Xs(Handle(s, e).pv) == HandledXs(Xs(s.pv), e)
  {
    match e {
      case Request(from) =>
        PrefixXs(s.pv, from);
        PrefixXs(s.grid, from);
        PrefixXs(s.site, from);
      case Sample(p) =>
        SuffixXs(s.pv, FlSpot(p.ts, p.pvPower));
        SuffixXs(s.grid, FlSpot(p.ts, p.gridPower));
        SuffixXs(s.site, FlSpot(p.ts, -p.sitePower));
      case Response(h) =>
        if |h.ts| <= |h.pvPower| && |h.ts| <= |h.gridPower| {
          var p := Points(h);
          PointsXs(h);
          hide Points, Spliced, SplicedXs, Xs;
          SpliceHasXs(s.pv, p.pv);
          SpliceHasXs(s.grid, p.grid);
          SpliceHasXs(s.site, p.site);
        }
    }
  }

  lemma PrefixXs(line: Line, x: int)
    ensures Xs([FlSpot(x, 0)] + line) == [x] + Xs(line)
  {
  }

  lemma SuffixXs(line: Line, p: FlSpot)
    ensures Xs(line + [p]) == Xs(line) + [p.x]
  {
  }

  lemma {:induction false} RunXs(events: seq<Event>)
    ensures SameXs(HandleAll(events))
    ensures events != [] ==>
              Xs(HandleAll(events).pv)
              == HandledXs(Xs(HandleAll(events[..|events| - 1]).pv), events[|events| - 1])
  {
    hide Handle, HandledXs, Xs;
    if events != [] {
      RunXs(events[..|events| - 1]);
      HandleXs(HandleAll(events[..|events| - 1]), events[|events| - 1]);
    }
  }

  // ---- Order over a run --------------------------------------------------------------------

  /** Some existing point lies strictly between the last and the first of the new times. */
  ghost predicate Straddled(xs: seq<int>, ts: seq<int>)
    requires ts != []
  {
    exists k :: 0 <= k < |xs| && ts[|ts| - 1] < xs[k] < ts[0]
  }

  /**
   * What keeps sorted lines sorted: a request that does not start behind the first point, a live sample not older than
   * the last one, and a response that is sorted, or too short to be read, or rejected by the removal of its range.
   */
  ghost predicate KeepsOrder(xs: seq<int>, e: Event) {
    match e
    case Request(from) => xs == [] || from <= xs[0]
    case Sample(p) => xs == [] || xs[|xs| - 1] <= p.ts
    case Response(h) =>
      || |h.pvPower| < |h.ts| || |h.gridPower| < |h.ts|
      || Ascending(h.ts)
      || (h.ts != [] && Straddled(xs, h.ts))
  }

  lemma PushFront(xs: seq<int>, x: int)
    requires Ascending(xs)
    ensures Ascending([x] + xs) <==> (xs == [] || x <= xs[0])
  {
    var r := [x] + xs;
    if xs != [] {
      assert r[0] == x && r[1] == xs[0];
    }
    if xs == [] || x <= xs[0] {
      forall i, j | 0 <= i < j < |r| ensures r[i] <= r[j] {
        assert r[j] == xs[j - 1];
      }
    }
  }

  lemma PushBack(xs: seq<int>, x: int)
    requires Ascending(xs)
    ensures Ascending(xs + [x]) <==> (xs == [] || xs[|xs| - 1] <= x)
  {
    var r := xs + [x];
    if xs != [] {
      assert r[|xs| - 1] == xs[|xs| - 1] && r[|xs|] == x;
    }
    if xs == [] || xs[|xs| - 1] <= x {
      forall i, j | 0 <= i < j < |r| ensures r[i] <= r[j] {
        assert r[i] == xs[i];
      }
    }
  }

  lemma SortedSplice(xs: seq<int>, ts: seq<int>)
    requires Ascending(xs) && Ascending(ts)
    ensures SplicedXs(xs, ts).Ok? && Ascending(SplicedXs(xs, ts).value)
  {
    if ts != [] {
      hide Spliced, SplicedXs, Earlier, Later;
      var line, points := LineOf(xs), LineOf(ts);
      SpliceCorrect(line, points);
      SpliceHasXs(line, points);
    }
  }

  /** A line with the given x coordinates. */
  function LineOf(xs: seq<int>): (r: Line)
    ensures |r| == |xs| && Xs(r) == xs
  {
    seq(|xs|, i requires 0 <= i < |xs| => FlSpot(xs[i], 0))
  }

  lemma UnsortedSplice(xs: seq<int>, ts: seq<int>)
    requires Ascending(xs) && !Ascending(ts)
    ensures SplicedXs(xs, ts).Err? <==> Straddled(xs, ts)
    ensures SplicedXs(xs, ts).Ok? ==> !Ascending(SplicedXs(xs, ts).value)
  {
    var first, last := ts[0], ts[|ts| - 1];
    LowerBoundSeparates(xs, first, false);
    LowerBoundSeparates(xs, last, true);
    hide LowerBound;
    var i, j := LowerBound(xs, first, false), LowerBound(xs, last, true);
    if i > j {
      assert Precedes(xs[j], first, false) && !Precedes(xs[j], last, true);
    } else {
      MiddleAscends(xs[..i], ts, xs[j..]);
    }
  }

  lemma MiddleAscends(a: seq<int>, b: seq<int>, c: seq<int>)
    ensures Ascending(a + b + c) ==> Ascending(b)
  {
    var r := a + b + c;
    assert forall i :: 0 <= i < |b| ==> r[|a| + i] == b[i];
  }

  lemma OrderKeptOnceIff(xs: seq<int>, e: Event)
    requires Ascending(xs)
    ensures Ascending(HandledXs(xs, e)) <==> KeepsOrder(xs, e)
  {
    match e {
      case Request(from) => PushFront(xs, from);
      case Sample(p) => PushBack(xs, p.ts);
      case Response(h) =>
        hide SplicedXs, Ascending, Straddled;
        if Ascending(h.ts) {
          SortedSplice(xs, h.ts);
        } else {
          NotEmpty(h.ts);
          UnsortedSplice(xs, h.ts);
        }
    }
  }

  lemma NotEmpty(ts: seq<int>)
    requires !Ascending(ts)
    ensures ts != []
  {
  }

  lemma OrderedXs(s: Lines)
    requires SameXs(s)
    ensures Ordered(s) <==> Ascending(Xs(s.pv))
  {
  }

  /** The lines are sorted at every moment of a run if and only if every event keeps the order it finds. */
  lemma {:induction false} StaysOrderedIff(events: seq<Event>)
    ensures (forall k: nat :: k <= |events| ==> Ordered(HandleAll(events[..k])))
            <==> forall k: nat :: k < |events| ==> KeepsOrder(Xs(HandleAll(events[..k]).pv), events[k])
  {
    hide HandleAll, Ordered, KeepsOrder, Xs;
    if events == [] {
      NoLines();
      assert events[..0] == [];
    } else {
      var n := |events| - 1;
      var before := events[..n];
      StaysOrderedIff(before);
      assert forall k: nat :: k <= n ==> before[..k] == events[..k];
      assert events[..n + 1] == events;
      if Ordered(HandleAll(before)) {
        LastStepOrdered(events);
      }
    }
  }

  lemma NoLines()
    ensures Ordered(HandleAll([]))
  {
  }

  lemma LastStepOrdered(events: seq<Event>)
    requires events != [] && Ordered(HandleAll(events[..|events| - 1]))
    ensures var before := HandleAll(events[..|events| - 1]);
            Ordered(HandleAll(events)) <==> KeepsOrder(Xs(before.pv), events[|events| - 1])
  {
    hide HandledXs, KeepsOrder, Handle, Xs, Ascending;
    var before := events[..|events| - 1];
    RunXs(events);
    RunXs(before);
    OrderedXs(HandleAll(before));
    OrderedXs(HandleAll(events));
    OrderKeptOnceIff(Xs(HandleAll(before).pv), events[|events| - 1]);
  }
}
