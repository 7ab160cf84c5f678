/** `SiteService` of the web client: three chart lines that are extended and spliced together. */
module SiteService {
  import opened Words
  import opened Lists

  type Line = seq<FlSpot>

  function Xs(line: Line): (r: seq<int>)
    ensures |r| == |line|
  {
    seq(|line|, i requires 0 <= i < |line| => line[i].x)
  }

  /** What `add` makes of the old line; removing a range that ends before it starts is an error. */
  function Spliced(oldLine: Line, newLine: Line): Result<Line> {
    if newLine == [] then Ok(oldLine)
    else
      var i := LowerBound(Xs(oldLine), newLine[0].x, false);
      var j := LowerBound(Xs(oldLine), newLine[|newLine| - 1].x, true);
      if i > j then Err(RangeError) else Ok(oldLine[..i] + newLine + oldLine[j..])
  }

  method Add(oldLine: Line, newLine: Line) returns (r: Result<Line>)
    ensures r == Spliced(oldLine, newLine)
  {
    if newLine == [] {
      return Ok(oldLine);
    }
    var i := FindLowerBound(Xs(oldLine), newLine[0].x, false);
    var j := FindLowerBound(Xs(oldLine), newLine[|newLine| - 1].x, true);
    if i > j {
      return Err(RangeError);
    }
    var list := oldLine[..i] + oldLine[j..];
    list := list[..i] + newLine + list[i..];
    assert list == oldLine[..i] + newLine + oldLine[j..];
    return Ok(list);
  }

  /** A historic response and a live sample as the socket delivers them. */
  datatype Historic = Historic(ts: seq<int>, pvPower: seq<int>, gridPower: seq<int>)
  datatype Live = Live(ts: int, pvPower: int, gridPower: int, sitePower: int)

  /** Every live sample is built with the negated sum as its site power. */
  ghost predicate Wellbuilt(p: Live) {
    p.sitePower == -p.pvPower - p.gridPower
  }

  datatype Lines = Lines(pv: Line, grid: Line, site: Line)

  function Prefixed(s: Lines, from: int): Lines {
    var start := [FlSpot(from, 0)];
    Lines(start + s.pv, start + s.grid, start + s.site)
  }

  function Points(h: Historic): Lines
    requires |h.ts| <= |h.pvPower| && |h.ts| <= |h.gridPower|
  {
    Lines(seq(|h.ts|, i requires 0 <= i < |h.ts| => FlSpot(h.ts[i], h.pvPower[i])),
          seq(|h.ts|, i requires 0 <= i < |h.ts| => FlSpot(h.ts[i], h.gridPower[i])),
          seq(|h.ts|, i requires 0 <= i < |h.ts| => FlSpot(h.ts[i], h.pvPower[i] + h.gridPower[i])))
  }

  /** An error leaves the lines that have not been reached as they are. */
  function Merged(s: Lines, h: Historic): Lines {
    if |h.pvPower| < |h.ts| || |h.gridPower| < |h.ts| then s
    else
      var p := Points(h);
      match Spliced(s.pv, p.pv)
      case Err(_) => s
      case Ok(pv) =>
        match Spliced(s.grid, p.grid)
        case Err(_) => s.(pv := pv)
        case Ok(grid) =>
          match Spliced(s.site, p.site)
          case Err(_) => s.(pv := pv, grid := grid)
          case Ok(site) => Lines(pv, grid, site)
  }

  function Extended(s: Lines, p: Live): Lines {
    Lines(s.pv + [FlSpot(p.ts, p.pvPower)], s.grid + [FlSpot(p.ts, p.gridPower)], s.site + [FlSpot(p.ts, -p.sitePower)])
  }

  class SiteService {
    var pvPoints: Line
    var gridPoints: Line
    var sitePoints: Line

    ghost function Value(): Lines
      reads this
    {
      Lines(pvPoints, gridPoints, sitePoints)
    }

    constructor ()
      ensures Value() == Lines([], [], [])
    {
      pvPoints, gridPoints, sitePoints := [], [], [];
    }

    method RequestSiteDataHistoric(from: int)
      modifies this
      ensures Value() == Prefixed(old(Value()), from)
    {
      pvPoints := [FlSpot(from, 0)] + pvPoints;
      gridPoints := [FlSpot(from, 0)] + gridPoints;
      sitePoints := [FlSpot(from, 0)] + sitePoints;
    }

    method PointsOf(h: Historic) returns (p: Lines)
      requires |h.ts| <= |h.pvPower| && |h.ts| <= |h.gridPower|
      ensures p == Points(h)
    {
      var pv, grid, site: Line := [], [], [];
      ghost var whole := Points(h);
      for i := 0 to |h.ts|
        invariant pv == whole.pv[..i] && grid == whole.grid[..i] && site == whole.site[..i]
      {
        pv := pv + [FlSpot(h.ts[i], h.pvPower[i])];
        grid := grid + [FlSpot(h.ts[i], h.gridPower[i])];
        site := site + [FlSpot(h.ts[i], h.pvPower[i] + h.gridPower[i])];
      }
      p := Lines(pv, grid, site);
    }

    method OnHistoric(h: Historic)
      modifies this
      ensures Value() == Merged(old(Value()), h)
    {
      hide Points, Spliced;
      if |h.pvPower| < |h.ts| || |h.gridPower| < |h.ts| {
        return;
      }
      var p := PointsOf(h);
      var r := Add(pvPoints, p.pv);
      if r.Err? {
        return;
      }
      pvPoints := r.value;
      r := Add(gridPoints, p.grid);
      if r.Err? {
        return;
      }
      gridPoints := r.value;
      r := Add(sitePoints, p.site);
      if r.Err? {
        return;
      }
      sitePoints := r.value;
    }

    method OnLive(p: Live)
      modifies this
      ensures Value() == Extended(old(Value()), p)
      ensures pvPoints == old(pvPoints) + [FlSpot(p.ts, p.pvPower)]
      ensures gridPoints == old(gridPoints) + [FlSpot(p.ts, p.gridPower)]
      ensures sitePoints == old(sitePoints) + [FlSpot(p.ts, -p.sitePower)]
    {
      pvPoints := pvPoints + [FlSpot(p.ts, p.pvPower)];
      gridPoints := gridPoints + [FlSpot(p.ts, p.gridPower)];
      sitePoints := sitePoints + [FlSpot(p.ts, -p.sitePower)];
    }
  }

  // ---- Splicing ----------------------------------------------------------------------------

  function Earlier(line: Line, x: int): Line {
    if line == [] then []
    else
      var rest := Earlier(line[..|line| - 1], x);
      if line[|line| - 1].x < x then rest + [line[|line| - 1]] else rest
  }

  function Later(line: Line, x: int): Line {
    if line == [] then []
    else
      var rest := Later(line[..|line| - 1], x);
      if line[|line| - 1].x > x then rest + [line[|line| - 1]] else rest
  }

  lemma {:induction false} EarlierIsPrefix(line: Line, x: int, i: nat)
    requires i <= |line| && forall k :: 0 <= k < |line| ==> (k < i <==> line[k].x < x)
    ensures Earlier(line, x) == line[..i]
  {
    if line != [] {
      var n := |line| - 1;
      EarlierIsPrefix(line[..n], x, if i > n then n else i);
      assert i > n ==> line[..i] == line[..n] + [line[n]];
      assert i <= n ==> line[..n][..i] == line[..i];
    }
  }

  lemma {:induction false} LaterIsSuffix(line: Line, x: int, j: nat)
    requires j <= |line| && forall k :: 0 <= k < |line| ==> (j <= k <==> line[k].x > x)
    ensures Later(line, x) == line[j..]
  {
    if line != [] {
      var n := |line| - 1;
      LaterIsSuffix(line[..n], x, if j > n then n else j);
      assert j <= n ==> line[j..] == line[..n][j..] + [line[n]];
    }
  }

  /** A new non-empty sorted line replaces exactly its own range of a sorted line, and the result is sorted. */
  lemma SpliceCorrect(oldLine: Line, newLine: Line)
    requires Ascending(Xs(oldLine)) && Ascending(Xs(newLine)) && newLine != []
    ensures Spliced(oldLine, newLine)
         == Ok(Earlier(oldLine, newLine[0].x) + newLine + Later(oldLine, newLine[|newLine| - 1].x))
    ensures Ascending(Xs(Spliced(oldLine, newLine).value))
  {
    hide LowerBound;
    var first, last := newLine[0].x, newLine[|newLine| - 1].x;
    assert first <= last by { assert Xs(newLine)[0] == first && Xs(newLine)[|newLine| - 1] == last; }
    var i, j := LowerBound(Xs(oldLine), first, false), LowerBound(Xs(oldLine), last, true);
    LowerBoundSeparates(Xs(oldLine), first, false);
    LowerBoundSeparates(Xs(oldLine), last, true);
    LowerBoundMonotone(Xs(oldLine), first, last);
    forall k | 0 <= k < |oldLine| ensures (k < i <==> oldLine[k].x < first) && (j <= k <==> oldLine[k].x > last) {
      assert Xs(oldLine)[k] == oldLine[k].x;
    }
    EarlierIsPrefix(oldLine, first, i);
    LaterIsSuffix(oldLine, last, j);
    forall k, l | 0 <= k < l < |oldLine| ensures oldLine[k].x <= oldLine[l].x {
      assert Xs(oldLine)[k] <= Xs(oldLine)[l];
    }
    PartsAscend(oldLine[..i], newLine, oldLine[j..]);
  }

  lemma PartsAscend(a: Line, b: Line, c: Line)
    requires Ascending(Xs(b)) && b != []
    requires forall i, j :: 0 <= i < j < |a| ==> a[i].x <= a[j].x
    requires forall i, j :: 0 <= i < j < |c| ==> c[i].x <= c[j].x
    requires (forall i :: 0 <= i < |a| ==> a[i].x < b[0].x) && (forall i :: 0 <= i < |c| ==> c[i].x > b[|b| - 1].x)
    ensures Ascending(Xs(a + b + c))
  {
    var r := a + b + c;
    assert forall i, j :: 0 <= i < j < |b| ==> Xs(b)[i] <= Xs(b)[j];
    forall i, j | 0 <= i < j < |r| ensures r[i].x <= r[j].x {
      var p, q := |a|, |a| + |b|;
      if i < p && p <= j < q {
        assert b[0].x <= b[j - p].x by { assert Xs(b)[0] <= Xs(b)[j - p]; }
      } else if p <= i < q && j >= q {
        assert b[i - p].x <= b[|b| - 1].x by { assert Xs(b)[i - p] <= Xs(b)[|b| - 1]; }
      } else if i < p && j >= q {
        assert b[0].x <= b[|b| - 1].x by { assert Xs(b)[0] <= Xs(b)[|b| - 1]; }
      } else if p <= i && j < q {
        assert Xs(b)[i - p] <= Xs(b)[j - p];
      }
    }
  }

  /** `add` succeeds on every old line, sorted or not, when the new line does not end before it starts. */
  lemma SpliceTotal(oldLine: Line, newLine: Line)
    requires newLine != [] ==> newLine[0].x <= newLine[|newLine| - 1].x
    ensures Spliced(oldLine, newLine).Ok?
  {
    if newLine != [] {
      LowerBoundMonotone(Xs(oldLine), newLine[0].x, newLine[|newLine| - 1].x);
    }
  }

  // ---- Runs --------------------------------------------------------------------------------

  datatype Event = Request(from: int) | Response(h: Historic) | Sample(p: Live)

  function Handle(s: Lines, e: Event): Lines {
    match e
    case Request(from) => Prefixed(s, from)
    case Response(h) => Merged(s, h)
    case Sample(p) => Extended(s, p)
  }

  function HandleAll(events: seq<Event>): Lines {
    if events == [] then Lines([], [], []) else Handle(HandleAll(events[..|events| - 1]), events[|events| - 1])
  }

  /** Same x everywhere, and the site line is the sum of the other two. */
  ghost predicate Aligned(s: Lines) {
    && |s.pv| == |s.grid| == |s.site|
    && forall i :: 0 <= i < |s.pv| ==>
         s.pv[i].x == s.grid[i].x == s.site[i].x && s.site[i].y == s.pv[i].y + s.grid[i].y
  }

  lemma PointsAligned(h: Historic)
    requires |h.ts| <= |h.pvPower| && |h.ts| <= |h.gridPower|
    ensures Aligned(Points(h))
  {
  }

  lemma AlignedXs(s: Lines)
    requires Aligned(s)
    ensures Xs(s.pv) == Xs(s.grid) && Xs(s.pv) == Xs(s.site)
  {
  }

  /** Cutting three aligned lines at the same places keeps them aligned. */
  lemma CutsAligned(s: Lines, p: Lines, i: nat, j: nat)
    requires Aligned(s) && Aligned(p) && i <= |s.pv| && j <= |s.pv|
    ensures Aligned(Lines(s.pv[..i] + p.pv + s.pv[j..],
                          s.grid[..i] + p.grid + s.grid[j..],
                          s.site[..i] + p.site + s.site[j..]))
  {
  }

  lemma MergeAligned(s: Lines, h: Historic)
    requires Aligned(s)
    ensures Aligned(Merged(s, h))
  {
    if |h.ts| <= |h.pvPower| && |h.ts| <= |h.gridPower| && h.ts != [] {
      hide Xs, LowerBound;
      var p, n := Points(h), |h.ts|;
      PointsAligned(h);
      AlignedXs(s);
      var i, j := LowerBound(Xs(s.pv), h.ts[0], false), LowerBound(Xs(s.pv), h.ts[n - 1], true);
      assert p.pv[0].x == p.grid[0].x == p.site[0].x == h.ts[0];
      assert p.pv[n - 1].x == p.grid[n - 1].x == p.site[n - 1].x == h.ts[n - 1];
      if i <= j {
        CutsAligned(s, p, i, j);
      }
    }
  }

  /** Over every run of requests, responses and live samples the three lines stay aligned. */
  lemma {:induction false} LinesStayAligned(events: seq<Event>)
    requires forall k :: 0 <= k < |events| && events[k].Sample? ==> Wellbuilt(events[k].p)
    ensures Aligned(HandleAll(events))
  {
    if events != [] {
      var n := |events| - 1;
      LinesStayAligned(events[..n]);
      if events[n].Response? {
        MergeAligned(HandleAll(events[..n]), events[n].h);
      }
    }
  }

  lemma PrefixAscends(line: Line, x: int)
    requires Ascending(Xs(line))
    ensures Ascending(Xs([FlSpot(x, 0)] + line)) <==> (line == [] || x <= line[0].x)
  {
    var r := [FlSpot(x, 0)] + line;
    assert forall i :: 0 < i < |r| ==> Xs(r)[i] == Xs(line)[i - 1];
    assert Xs(r)[0] == x;
    if line != [] && x <= line[0].x {
      forall i, j | 0 <= i < j < |r| ensures Xs(r)[i] <= Xs(r)[j] {
        assert Xs(line)[0] <= Xs(line)[j - 1];
      }
    }
    if line != [] && Ascending(Xs(r)) {
      assert Xs(r)[0] <= Xs(r)[1];
    }
  }

  lemma SuffixAscends(line: Line, p: FlSpot)
    requires Ascending(Xs(line))
    ensures Ascending(Xs(line + [p])) <==> (line == [] || line[|line| - 1].x <= p.x)
  {
    var r, n := line + [p], |line|;
    assert forall i :: 0 <= i < n ==> Xs(r)[i] == Xs(line)[i];
    assert Xs(r)[n] == p.x;
    if line != [] && line[n - 1].x <= p.x {
      forall i, j | 0 <= i < j < |r| ensures Xs(r)[i] <= Xs(r)[j] {
        if j == n { assert Xs(line)[i] <= Xs(line)[n - 1]; }
      }
    }
    if line != [] && Ascending(Xs(r)) {
      assert Xs(r)[n - 1] <= Xs(r)[n];
    }
  }

  /**
   * The order that splicing relies on: a request keeps the lines sorted if and only if it does not start behind
   * the first point, a live sample if and only if it is not older than the last point.
   */
  lemma OrderKeptIff(s: Lines, from: int, p: Live)
    requires Ascending(Xs(s.pv))
    ensures Ascending(Xs(Prefixed(s, from).pv)) <==> (s.pv == [] || from <= s.pv[0].x)
    ensures Ascending(Xs(Extended(s, p).pv)) <==> (s.pv == [] || s.pv[|s.pv| - 1].x <= p.ts)
  {
    PrefixAscends(s.pv, from);
    SuffixAscends(s.pv, FlSpot(p.ts, p.pvPower));
  }
}
