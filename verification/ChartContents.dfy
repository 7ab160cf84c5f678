/** Which points the three chart lines hold after a run, and where each of them comes from. */
module ChartContents {
  import opened Words
  import opened Lists
  import opened SiteService
  import opened HistoryPath

  predicate Readable(h: Historic) {
    |h.ts| <= |h.pvPower| && |h.ts| <= |h.gridPower|
  }

  /** A request puts a zero point, a live sample its value, a readable response its values, on the pv line. */
  ghost predicate PutsPv(ev: Event, p: FlSpot) {
    match ev
    case Request(from) => p == FlSpot(from, 0)
    case Sample(l) => p == FlSpot(l.ts, l.pvPower)
    case Response(h) => Readable(h) && exists i :: 0 <= i < |h.ts| && p == FlSpot(h.ts[i], h.pvPower[i])
  }

  ghost predicate PutsGrid(ev: Event, p: FlSpot) {
    match ev
    case Request(from) => p == FlSpot(from, 0)
    case Sample(l) => p == FlSpot(l.ts, l.gridPower)
    case Response(h) => Readable(h) && exists i :: 0 <= i < |h.ts| && p == FlSpot(h.ts[i], h.gridPower[i])
  }

  ghost predicate PutsSite(ev: Event, p: FlSpot) {
    match ev
    case Request(from) => p == FlSpot(from, 0)
    case Sample(l) => p == FlSpot(l.ts, -l.sitePower)
    case Response(h) =>
      Readable(h) && exists i :: 0 <= i < |h.ts| && p == FlSpot(h.ts[i], h.pvPower[i] + h.gridPower[i])
  }

  lemma PointsPut(h: Historic)
    requires Readable(h)
    ensures forall p :: p in Points(h).pv <==> PutsPv(Response(h), p)
    ensures forall p :: p in Points(h).grid <==> PutsGrid(Response(h), p)
    ensures forall p :: p in Points(h).site <==> PutsSite(Response(h), p)
  {
    var r := Points(h);
    assert forall i :: 0 <= i < |h.ts| ==>
             && r.pv[i] == FlSpot(h.ts[i], h.pvPower[i]) && r.grid[i] == FlSpot(h.ts[i], h.gridPower[i])
             && r.site[i] == FlSpot(h.ts[i], h.pvPower[i] + h.gridPower[i]);
  }

  // ---- Where points come from --------------------------------------------------------------

  /** Splicing invents nothing. */
  lemma SplicedFrom(oldLine: Line, newLine: Line)
    ensures Spliced(oldLine, newLine).Ok? ==>
              forall p :: p in Spliced(oldLine, newLine).value ==> p in oldLine || p in newLine
  {
    hide LowerBound;
  }

  /** Whatever an event leaves on a line was there before or is put by the event. */
  lemma HandledFrom(s: Lines, ev: Event)
    ensures forall p :: p in Handle(s, ev).pv ==> p in s.pv || PutsPv(ev, p)
    ensures forall p :: p in Handle(s, ev).grid ==> p in s.grid || PutsGrid(ev, p)
    ensures forall p :: p in Handle(s, ev).site ==> p in s.site || PutsSite(ev, p)
  {
    if ev.Response? && Readable(ev.h) {
      var p := Points(ev.h);
      PointsPut(ev.h);
      SplicedFrom(s.pv, p.pv);
      SplicedFrom(s.grid, p.grid);
      SplicedFrom(s.site, p.site);
      hide Spliced, Points, PutsPv, PutsGrid, PutsSite;
    }
  }

  ghost predicate PutBySome(puts: (Event, FlSpot) -> bool, events: seq<Event>, p: FlSpot) {
    exists k :: 0 <= k < |events| && puts(events[k], p)
  }

  lemma PutEarlier(puts: (Event, FlSpot) -> bool, events: seq<Event>, p: FlSpot)
    requires events != []
    ensures PutBySome(puts, events, p) <==>
              PutBySome(puts, events[..|events| - 1], p) || puts(events[|events| - 1], p)
  {
    var before := events[..|events| - 1];
    assert forall k :: 0 <= k < |before| ==> before[k] == events[k];
  }

  /** Over every run, however disordered, each point of a line was put there by an event, with that line's value. */
  lemma {:induction false} PointsComeFromEvents(events: seq<Event>)
    ensures forall p :: p in HandleAll(events).pv ==> PutBySome(PutsPv, events, p)
    ensures forall p :: p in HandleAll(events).grid ==> PutBySome(PutsGrid, events, p)
    ensures forall p :: p in HandleAll(events).site ==> PutBySome(PutsSite, events, p)
  {
    hide Handle, PutsPv, PutsGrid, PutsSite, PutBySome;
    if events != [] {
      var n := |events| - 1;
      PointsComeFromEvents(events[..n]);
      HandledFrom(HandleAll(events[..n]), events[n]);
      forall p
        ensures p in HandleAll(events).pv ==> PutBySome(PutsPv, events, p)
        ensures p in HandleAll(events).grid ==> PutBySome(PutsGrid, events, p)
        ensures p in HandleAll(events).site ==> PutBySome(PutsSite, events, p)
      {
        PutEarlier(PutsPv, events, p);
        PutEarlier(PutsGrid, events, p);
        PutEarlier(PutsSite, events, p);
      }
    }
  }

  /** A request and a live sample keep all earlier points where they are; they add one in front or behind. */
  lemma EarlierPointsKept(events: seq<Event>, from: int, p: Live)
    ensures var s, r, l := HandleAll(events), HandleAll(events + [Request(from)]), HandleAll(events + [Sample(p)]);
            && |r.pv| == |s.pv| + 1 && |r.grid| == |s.grid| + 1 && |r.site| == |s.site| + 1
            && r.pv[0] == r.grid[0] == r.site[0] == FlSpot(from, 0)
            && r.pv[1..] == s.pv && r.grid[1..] == s.grid && r.site[1..] == s.site
            && |l.pv| == |s.pv| + 1 && |l.grid| == |s.grid| + 1 && |l.site| == |s.site| + 1
            && l.pv[..|s.pv|] == s.pv && l.grid[..|s.grid|] == s.grid && l.site[..|s.site|] == s.site
            && l.pv[|s.pv|] == FlSpot(p.ts, p.pvPower)
            && l.grid[|s.grid|] == FlSpot(p.ts, p.gridPower)
            && l.site[|s.site|] == FlSpot(p.ts, -p.sitePower)
  {
    assert (events + [Request(from)])[..|events|] == events;
    assert (events + [Sample(p)])[..|events|] == events;
  }

  // ---- What sorted lines hold --------------------------------------------------------------

  lemma {:induction false} EarlierHolds(line: Line, x: int)
    ensures forall p :: p in Earlier(line, x) <==> p in line && p.x < x
  {
    if line != [] {
      EarlierHolds(line[..|line| - 1], x);
      assert line == line[..|line| - 1] + [line[|line| - 1]];
    }
  }

  lemma {:induction false} LaterHolds(line: Line, x: int)
    ensures forall p :: p in Later(line, x) <==> p in line && p.x > x
  {
    if line != [] {
      LaterHolds(line[..|line| - 1], x);
      assert line == line[..|line| - 1] + [line[|line| - 1]];
    }
  }

  lemma SplicedHolds(oldLine: Line, newLine: Line)
    requires Ascending(Xs(oldLine)) && Ascending(Xs(newLine)) && newLine != []
    ensures Spliced(oldLine, newLine).Ok?
    ensures forall p :: p in Spliced(oldLine, newLine).value <==>
              p in newLine || (p in oldLine && !(newLine[0].x <= p.x <= newLine[|newLine| - 1].x))
  {
    hide Spliced, Earlier, Later, Xs;
    SpliceCorrect(oldLine, newLine);
    EarlierHolds(oldLine, newLine[0].x);
    LaterHolds(oldLine, newLine[|newLine| - 1].x);
  }

  /** A readable, sorted response that is not empty replaces whatever stands in its range. */
  ghost predicate Replaces(ev: Event, x: int) {
    ev.Response? && Readable(ev.h) && ev.h.ts != [] && Ascending(ev.h.ts)
    && ev.h.ts[0] <= x <= ev.h.ts[|ev.h.ts| - 1]
  }

  /** Unsorted responses have no effect on lines that stay sorted. */
  ghost predicate Effective(ev: Event) {
    ev.Response? ==> Ascending(ev.h.ts)
  }

  ghost predicate Exchanged(puts: (Event, FlSpot) -> bool, before: Line, after: Line, ev: Event) {
    forall p :: p in after <==> (Effective(ev) && puts(ev, p)) || (p in before && !Replaces(ev, p.x))
  }

  lemma SplicedExchanged(puts: (Event, FlSpot) -> bool, oldLine: Line, points: Line, h: Historic)
    requires Readable(h) && Ascending(h.ts) && Ascending(Xs(oldLine)) && Xs(points) == h.ts
    requires forall p :: p in points <==> puts(Response(h), p)
    ensures Spliced(oldLine, points).Ok?
    ensures Exchanged(puts, oldLine, Spliced(oldLine, points).value, Response(h))
  {
    hide Ascending;
    if points != [] {
      assert points[0].x == h.ts[0] && points[|points| - 1].x == h.ts[|h.ts| - 1];
      hide Spliced, Xs;
      SplicedHolds(oldLine, points);
    }
  }

  lemma SortedResponse(s: Lines, h: Historic)
    requires Ordered(s) && Readable(h) && Ascending(h.ts)
    ensures var r := Merged(s, h);
            && Exchanged(PutsPv, s.pv, r.pv, Response(h))
            && Exchanged(PutsGrid, s.grid, r.grid, Response(h))
            && Exchanged(PutsSite, s.site, r.site, Response(h))
  {
    PointsPut(h);
    PointsXs(h);
    hide Ascending, PutsPv, PutsGrid, PutsSite, Exchanged, Spliced, Points, Xs;
    SplicedExchanged(PutsPv, s.pv, Points(h).pv, h);
    SplicedExchanged(PutsGrid, s.grid, Points(h).grid, h);
    SplicedExchanged(PutsSite, s.site, Points(h).site, h);
  }

  lemma UnsortedResponse(s: Lines, h: Historic)
    requires SameXs(s) && Ordered(s) && Ordered(Merged(s, h)) && Readable(h) && !Ascending(h.ts)
    ensures Merged(s, h) == s
  {
    PointsXs(h);
    HandleXs(s, Response(h));
    UnsortedSplice(Xs(s.pv), h.ts);
    hide Xs, Points, Ascending, SplicedXs;
    SpliceHasXs(s.pv, Points(h).pv);
  }

  lemma HandledHolds(s: Lines, ev: Event)
    requires SameXs(s) && Ordered(s) && Ordered(Handle(s, ev))
    ensures var r := Handle(s, ev);
            && Exchanged(PutsPv, s.pv, r.pv, ev)
            && Exchanged(PutsGrid, s.grid, r.grid, ev)
            && Exchanged(PutsSite, s.site, r.site, ev)
  {
    if ev.Response? && Readable(ev.h) {
      hide Ordered, SameXs, Merged, Exchanged, Ascending;
      if Ascending(ev.h.ts) {
        SortedResponse(s, ev.h);
      } else {
        UnsortedResponse(s, ev.h);
        Unchanged(s, ev);
      }
    }
  }

  lemma Unchanged(s: Lines, ev: Event)
    requires !Effective(ev)
    ensures Exchanged(PutsPv, s.pv, s.pv, ev)
    ensures Exchanged(PutsGrid, s.grid, s.grid, ev)
    ensures Exchanged(PutsSite, s.site, s.site, ev)
  {
  }

  /** Some event put the point, and no later response replaced what stands at its time. */
  ghost predicate Standing(puts: (Event, FlSpot) -> bool, events: seq<Event>, p: FlSpot) {
    exists k :: 0 <= k < |events| && StandingSince(puts, events, p, k)
  }

  ghost predicate StandingSince(puts: (Event, FlSpot) -> bool, events: seq<Event>, p: FlSpot, k: nat)
    requires k < |events|
  {
    Effective(events[k]) && puts(events[k], p) && forall l :: k < l < |events| ==> !Replaces(events[l], p.x)
  }

  lemma StandingNext(puts: (Event, FlSpot) -> bool, events: seq<Event>, p: FlSpot)
    requires events != []
    ensures var ev := events[|events| - 1];
            Standing(puts, events, p) <==>
              (Effective(ev) && puts(ev, p)) || (Standing(puts, events[..|events| - 1], p) && !Replaces(ev, p.x))
  {
    hide Effective, Replaces;
    var n := |events| - 1;
    var before := events[..n];
    assert forall k :: 0 <= k < n ==> before[k] == events[k];
    if k :| 0 <= k < |before| && StandingSince(puts, before, p, k) && !Replaces(events[n], p.x) {
      assert StandingSince(puts, events, p, k);
    }
    if k :| 0 <= k < |events| && StandingSince(puts, events, p, k) && k < n {
      assert StandingSince(puts, before, p, k);
    }
    if Effective(events[n]) && puts(events[n], p) {
      assert StandingSince(puts, events, p, n);
    }
  }

  ghost predicate Holds(line: Line, puts: (Event, FlSpot) -> bool, events: seq<Event>) {
    forall p :: p in line <==> Standing(puts, events, p)
  }

  lemma HoldsNext(before: Line, after: Line, puts: (Event, FlSpot) -> bool, events: seq<Event>)
    requires events != [] && Holds(before, puts, events[..|events| - 1])
    requires Exchanged(puts, before, after, events[|events| - 1])
    ensures Holds(after, puts, events)
  {
    hide Standing, Effective, Replaces;
    forall p ensures p in after <==> Standing(puts, events, p) {
      StandingNext(puts, events, p);
    }
  }

  /**
   * The exact contents of the charts: as long as the lines stay sorted, a point stands on a line if and only if some
   * event put it there, with the value of that line, and no sorted response that came later covers its time.
   */
  lemma {:induction false} ChartsHold(events: seq<Event>)
    requires forall k: nat :: k <= |events| ==> Ordered(HandleAll(events[..k]))
    ensures var s := HandleAll(events);
            Holds(s.pv, PutsPv, events) && Holds(s.grid, PutsGrid, events) && Holds(s.site, PutsSite, events)
  {
    hide Handle, Ordered, Holds, Exchanged;
    if events == [] {
      NothingHeld(PutsPv);
      NothingHeld(PutsGrid);
      NothingHeld(PutsSite);
    } else {
      var n := |events| - 1;
      var before := events[..n];
      assert forall k: nat :: k <= n ==> before[..k] == events[..k];
      ChartsHold(before);
      assert Ordered(HandleAll(before)) && events[..n + 1] == events;
      RunXs(before);
      var s := HandleAll(before);
      HandledHolds(s, events[n]);
      HoldsNext(s.pv, HandleAll(events).pv, PutsPv, events);
      HoldsNext(s.grid, HandleAll(events).grid, PutsGrid, events);
      HoldsNext(s.site, HandleAll(events).site, PutsSite, events);
    }
  }

  lemma NothingHeld(puts: (Event, FlSpot) -> bool)
    ensures Holds([], puts, [])
  {
  }
}
