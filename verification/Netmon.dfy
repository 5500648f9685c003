/** Reading a history of ping and address samples: outages and address periods, each
    over the rows the query selected, oldest first. */
module Netmon {
  import opened Model

  datatype Sample = Sample(ts: real, latency: Option<real>) {
    predicate Failed() {
      latency.None?
    }
  }

  /** Rows i up to but not including j. */
  datatype Span = Span(i: nat, j: nat)

  datatype Stretch = Stretch(started: real, ended: real, duration: real, ongoing: bool)

  /** The source tests the last timestamp for truth, so an ongoing stretch that ends at
      time zero reports no duration. */
  function StretchOf(started: real, ended: real, ongoing: bool): Stretch {
    Stretch(started, ended, if ongoing && ended == 0.0 then 0.0 else ended - started, ongoing)
  }

  // ---- outages --------------------------------------------------------------------------

  /** A run of failed samples that cannot be made longer on either side. */
  predicate MaximalRun(rows: seq<Sample>, s: Span) {
    && s.i < s.j <= |rows|
    && (forall k :: s.i <= k < s.j ==> rows[k].Failed())
    && (s.i > 0 ==> !rows[s.i - 1].Failed())
    && (s.j < |rows| ==> !rows[s.j].Failed())
  }

  /** Runs that have ended, and where the current one began. */
  datatype Scan = Scan(closed: seq<Span>, since: Option<nat>)

  function ScanRuns(rows: seq<Sample>): Scan {
    if rows == [] then Scan([], None)
    else
      var n := |rows| - 1;
      var s := ScanRuns(rows[..n]);
      if rows[n].Failed() && s.since.None? then Scan(s.closed, Some(n))
      else if !rows[n].Failed() && s.since.Some? then Scan(s.closed + [Span(s.since.value, n)], None)
      else s
  }

  function Outages(rows: seq<Sample>): seq<Span> {
    AllRuns(ScanRuns(rows), |rows|)
  }

  predicate SpansWithin(spans: seq<Span>, n: nat) {
    forall k :: 0 <= k < |spans| ==> spans[k].i < spans[k].j <= n
  }

  function OutageEvent(rows: seq<Sample>, s: Span): Stretch
    requires s.i < s.j <= |rows|
  {
    StretchOf(rows[s.i].ts, rows[s.j - 1].ts, s.j == |rows|)
  }

  lemma {:induction false} ScanInRange(rows: seq<Sample>)
    ensures var s := ScanRuns(rows);
            && SpansWithin(s.closed, Max(|rows|, 1) - 1)
            && (s.since.Some? <==> rows != [] && rows[|rows| - 1].Failed())
            && (s.since.Some? ==> s.since.value < |rows|)
  {
    if rows != [] {
      ScanInRange(rows[..|rows| - 1]);
    }
  }

  /** The loop over the rows; the last outage is still open when it ends. */
  method ScanRows(rows: seq<Sample>) returns (ended: seq<Stretch>, startedTs: Option<real>, prevTs: Option<real>)
    ensures Scanned(rows, |rows|, ScanRuns(rows), startedTs, ended)
    ensures prevTs == if |rows| == 0 then None else Some(rows[|rows| - 1].ts)
  {
    ended, startedTs, prevTs := [], None, None;
    for n := 0 to |rows|
      invariant Scanned(rows, n, ScanRuns(rows[..n]), startedTs, ended)
      invariant prevTs == if n == 0 then None else Some(rows[n - 1].ts)
    {
      assert rows[..n + 1][..n] == rows[..n];
      var down := rows[n].Failed();
      if down && startedTs.None? {
        startedTs := Some(rows[n].ts);
      } else if !down && startedTs.Some? {
        ended := ended + [Stretch(startedTs.value, prevTs.value, prevTs.value - startedTs.value, false)];
        startedTs := None;
      }
      prevTs := Some(rows[n].ts);
    }
    assert rows[..|rows|] == rows;
  }

  /** Collapse consecutive failures into outages, newest first. */
  method QueryDropEvents(rows: seq<Sample>) returns (events: seq<Stretch>)
    ensures |events| == |Outages(rows)| && SpansWithin(Outages(rows), |rows|)
    ensures forall k :: 0 <= k < |events| ==> events[k] == OutageEvent(rows, Outages(rows)[|events| - 1 - k])
  {
    var oldestFirst, startedTs, prevTs := ScanRows(rows);
    FinishReport(rows, startedTs, oldestFirst);
    if startedTs.Some? {
      var duration := if prevTs.Some? && prevTs.value != 0.0 then prevTs.value - startedTs.value else 0.0;
      oldestFirst := oldestFirst + [Stretch(startedTs.value, prevTs.value, duration, true)];
    }
    events := Reversed(oldestFirst);
  }

  /** Part way: the events are those of the runs that have ended, and the current run's
      first timestamp is held. */
  ghost predicate Scanned(rows: seq<Sample>, n: nat, s: Scan, startedTs: Option<real>, events: seq<Stretch>) {
    && Reports(rows, s.closed, events) && n <= |rows|
    && s.since.Some? == startedTs.Some?
    && (s.since.Some? ==> s.since.value < n && startedTs == Some(rows[s.since.value].ts))
  }

  lemma FinishReport(rows: seq<Sample>, startedTs: Option<real>, events: seq<Stretch>)
    requires Scanned(rows, |rows|, ScanRuns(rows), startedTs, events)
    ensures SpansWithin(Outages(rows), |rows|)
    ensures |Outages(rows)| == |events| + (if startedTs.Some? then 1 else 0)
    ensures forall k :: 0 <= k < |events| ==> events[k] == OutageEvent(rows, Outages(rows)[k])
    ensures startedTs.Some? ==>
            OutageEvent(rows, Outages(rows)[|events|]) == StretchOf(startedTs.value, rows[|rows| - 1].ts, true)
  {
    FinishScan(rows, ScanRuns(rows), startedTs, events);
  }

  function AllRuns(s: Scan, n: nat): seq<Span> {
    if s.since.Some? then s.closed + [Span(s.since.value, n)] else s.closed
  }

  lemma FinishScan(rows: seq<Sample>, s: Scan, startedTs: Option<real>, events: seq<Stretch>)
    requires Scanned(rows, |rows|, s, startedTs, events)
    ensures var spans := AllRuns(s, |rows|);
            && SpansWithin(spans, |rows|)
            && |spans| == |events| + (if startedTs.Some? then 1 else 0)
            && (forall k :: 0 <= k < |events| ==> events[k] == OutageEvent(rows, spans[k]))
            && (startedTs.Some? ==>
                  OutageEvent(rows, spans[|events|]) == StretchOf(startedTs.value, rows[|rows| - 1].ts, true))
  {
    var spans := AllRuns(s, |rows|);
    forall k | 0 <= k < |spans| ensures spans[k].i < spans[k].j <= |rows| {
      assert k < |events| ==> spans[k] == s.closed[k];
    }
    forall k | 0 <= k < |events| ensures events[k] == OutageEvent(rows, spans[k]) {
      assert spans[k] == s.closed[k] && events[k] == EndedRun(rows, s.closed[k]);
    }
  }

  function EndedRun(rows: seq<Sample>, s: Span): Stretch
    requires s.i < s.j <= |rows|
  {
    StretchOf(rows[s.i].ts, rows[s.j - 1].ts, false)
  }

  /** The stretches are those of the given runs, all of which have ended. */
  ghost predicate Reports(rows: seq<Sample>, spans: seq<Span>, events: seq<Stretch>) {
    && |events| == |spans| && SpansWithin(spans, |rows|)
    && (forall k :: 0 <= k < |spans| ==> spans[k].j < |rows|)
    && (forall k :: 0 <= k < |spans| ==> events[k] == EndedRun(rows, spans[k]))
  }

  /** A run ending in the last row starts there, or goes on a maximal run of the rows before. */
  predicate ReachesBack(rows: seq<Sample>, before: seq<Sample>, i: nat) {
    var n := |before|;
    if i == n then n == 0 || n >= |rows| || !rows[n - 1].Failed() else MaximalRun(before, Span(i, n))
  }

  /** How one more row changes which runs are maximal. */
  lemma MaximalRunSnoc(rows: seq<Sample>, s: Span)
    requires rows != []
    ensures var before, n := rows[..|rows| - 1], |rows| - 1;
            && (s.j < n ==> (MaximalRun(rows, s) <==> MaximalRun(before, s)))
            && (s.j == n ==> (MaximalRun(rows, s) <==> MaximalRun(before, s) && !rows[n].Failed()))
            && (s.j == n + 1 ==> (MaximalRun(rows, s) <==> rows[n].Failed() && ReachesBack(rows, before, s.i)))
  {
    var before, n := rows[..|rows| - 1], |rows| - 1;
    assert forall k :: 0 <= k < n ==> before[k] == rows[k];
    if s.j == n + 1 && s.i < n && MaximalRun(before, Span(s.i, n)) && rows[n].Failed() {
      forall k | s.i <= k < s.j ensures rows[k].Failed() {
        assert k < n ==> before[k].Failed();
      }
    }
  }

  /** Runs that ended are the maximal ones that stop short; the open one reaches the end. */
  ghost predicate Exact(rows: seq<Sample>, s: Scan) {
    && (forall r: Span :: r in s.closed <==> MaximalRun(rows, r) && r.j < |rows|)
    && (forall r: Span :: r.j == |rows| ==> (MaximalRun(rows, r) <==> s.since == Some(r.i)))
  }

  lemma {:induction false} ScanIsExact(rows: seq<Sample>)
    ensures Exact(rows, ScanRuns(rows))
  {
    if rows != [] {
      var n := |rows| - 1;
      var b, s := ScanRuns(rows[..n]), ScanRuns(rows);
      ScanIsExact(rows[..n]);
      ScanInRange(rows[..n]);
      forall r: Span ensures r in s.closed <==> MaximalRun(rows, r) && r.j < |rows| {
        MaximalRunSnoc(rows, r);
        assert r in b.closed <==> MaximalRun(rows[..n], r) && r.j < n;
        assert r.j == n ==> (MaximalRun(rows[..n], r) <==> b.since == Some(r.i));
      }
      forall r: Span | r.j == |rows| ensures MaximalRun(rows, r) <==> s.since == Some(r.i) {
        MaximalRunSnoc(rows, r);
        var stub := Span(r.i, n);
        assert MaximalRun(rows[..n], stub) <==> b.since == Some(stub.i);
      }
    }
  }

  /** The outages reported are precisely the maximal runs of failed samples. */
  lemma OutagesAreMaximalRuns(rows: seq<Sample>, s: Span)
    ensures s in Outages(rows) <==> MaximalRun(rows, s)
  {
    ScanIsExact(rows);
    var scan := ScanRuns(rows);
    assert s in scan.closed <==> MaximalRun(rows, s) && s.j < |rows|;
    assert s.j == |rows| ==> (MaximalRun(rows, s) <==> scan.since == Some(s.i));
  }

  /** Each ends before the next begins, with at least one answered sample between them. */
  ghost predicate Separate(spans: seq<Span>) {
    forall k :: 0 < k < |spans| ==> spans[k - 1].j < spans[k].i
  }

  lemma {:induction false} ScanIsSeparate(rows: seq<Sample>)
    ensures var s := ScanRuns(rows);
            && Separate(s.closed)
            && (s.since.Some? && s.closed != [] ==> s.closed[|s.closed| - 1].j < s.since.value)
  {
    if rows != [] {
      ScanIsSeparate(rows[..|rows| - 1]);
      ScanInRange(rows[..|rows| - 1]);
    }
  }

  lemma OutagesAreSeparate(rows: seq<Sample>)
    ensures Separate(Outages(rows)) && SpansWithin(Outages(rows), |rows|)
    ensures forall k :: 0 <= k < |Outages(rows)| - 1 ==> Outages(rows)[k].j < |rows|
  {
    ScanIsSeparate(rows);
    ScanInRange(rows);
  }

  /** Only the newest event can be ongoing, and one is exactly if the last sample failed. */
  lemma OngoingIffLastFailed(rows: seq<Sample>)
    ensures (Outages(rows) != [] && Outages(rows)[|Outages(rows)| - 1].j == |rows|)
            <==> (rows != [] && rows[|rows| - 1].Failed())
  {
    ScanInRange(rows);
  }

  ghost predicate TimeOrdered(rows: seq<Sample>) {
    forall i, j :: 0 <= i <= j < |rows| ==> rows[i].ts <= rows[j].ts
  }

  /** In time-ordered rows an outage never ends before it starts, nor overlaps the one before. */
  lemma OutagesFollowTime(rows: seq<Sample>, k: nat)
    requires TimeOrdered(rows) && k < |Outages(rows)|
    ensures SpansWithin(Outages(rows), |rows|)
    ensures var e := OutageEvent(rows, Outages(rows)[k]); e.started <= e.ended && e.duration >= 0.0
    ensures k > 0 ==> OutageEvent(rows, Outages(rows)[k - 1]).ended <= OutageEvent(rows, Outages(rows)[k]).started
  {
    OutagesAreSeparate(rows);
  }

  /** What is reported of every outage: it starts with its first failed sample and ends with its
      last, goes on exactly if nothing came after, and lasts as long as lies between them, except
      that one still going on at time zero is given no duration. */
  lemma OutageFigures(rows: seq<Sample>, s: Span)
    requires MaximalRun(rows, s)
    ensures var e, first, last := OutageEvent(rows, s), rows[s.i].ts, rows[s.j - 1].ts;
            && e.started == first && e.ended == last && (e.ongoing <==> s.j == |rows|)
            && (s.j < |rows| || last != 0.0 ==> e.duration == last - first)
            && (s.j == |rows| && last == 0.0 ==> e.duration == 0.0)
  {
  }

  // ---- address periods --------------------------------------------------------------------

  datatype Seen = Seen(ts: real, ip: Option<string>)

  datatype Period = Period(ip: string, held: Stretch)

  /** The rows that carry an address. */
  function Known(rows: seq<Seen>): (r: seq<Seen>)
    ensures forall k :: 0 <= k < |r| ==> r[k].ip.Some?
  {
    if rows == [] then []
    else Known(rows[..|rows| - 1]) + (if rows[|rows| - 1].ip.Some? then [rows[|rows| - 1]] else [])
  }

  /** Where the kept rows stand: in order, each once, and none with an address is left out. */
  ghost predicate KeptAt(rows: seq<Seen>, kept: seq<Seen>, at: seq<nat>) {
    && |at| == |kept|
    && (forall i :: 0 <= i < |at| ==> at[i] < |rows| && rows[at[i]] == kept[i])
    && (forall i, j :: 0 <= i < j < |at| ==> at[i] < at[j])
    && (forall n :: 0 <= n < |rows| && rows[n].ip != None ==> n in at)
  }

  lemma {:induction false} KnownAreInOrder(rows: seq<Seen>) returns (at: seq<nat>)
    ensures KeptAt(rows, Known(rows), at)
  {
    at := [];
    if |rows| > 0 {
      at := KnownAreInOrder(rows[..|rows| - 1]);
      at := KeptSnoc(rows, Known(rows[..|rows| - 1]), at);
    }
  }

  lemma KeptSnoc(rows: seq<Seen>, kept: seq<Seen>, before: seq<nat>) returns (at: seq<nat>)
    requires |rows| > 0 && KeptAt(rows[..|rows| - 1], kept, before)
    ensures KeptAt(rows, kept + (if rows[|rows| - 1].ip.Some? then [rows[|rows| - 1]] else []), at)
  {
    var n := |rows| - 1;
    if rows[n].ip == None {
      return before;
    }
    at := before + [n];
    forall k | 0 <= k < |rows| && rows[k].ip != None ensures k in at {
      if k < n {
        assert rows[..n][k] == rows[k];
      } else {
        assert at[|before|] == n;
      }
    }
  }

  /** The spans tile all rows, each holds one address, and neighbours differ. */
  ghost predicate RunLengths(rows: seq<Seen>, spans: seq<Span>) {
    if rows == [] then spans == []
    else
      && spans != []
      && var last := spans[|spans| - 1];
      && last.i < last.j == |rows|
      && (forall k :: last.i <= k < |rows| ==> rows[k].ip == rows[last.i].ip)
      && (last.i > 0 ==> rows[last.i - 1].ip != rows[last.i].ip)
      && RunLengths(rows[..last.i], spans[..|spans| - 1])
  }

  /** There is only one way to do that. */
  lemma {:induction false} RunLengthsAreUnique(rows: seq<Seen>, a: seq<Span>, b: seq<Span>)
    requires RunLengths(rows, a) && RunLengths(rows, b)
    ensures a == b
    decreases |rows|
  {
    if rows != [] {
      var p, q := a[|a| - 1], b[|b| - 1];
      assert p.i == q.i;
      RunLengthsAreUnique(rows[..p.i], a[..|a| - 1], b[..|b| - 1]);
      assert a == a[..|a| - 1] + [p] && b == b[..|b| - 1] + [q];
    }
  }

  predicate PeriodIs(rows: seq<Seen>, s: Span, p: Period) {
    && s.i < s.j <= |rows| && rows[s.i].ip == Some(p.ip)
    && p.held == StretchOf(rows[s.i].ts, rows[s.j - 1].ts, s.j == |rows|)
  }

  /** And the same of every address period. */
  lemma PeriodFigures(rows: seq<Seen>, s: Span, p: Period)
    requires PeriodIs(rows, s, p)
    ensures var first, last := rows[s.i].ts, rows[s.j - 1].ts;
            && rows[s.i].ip == Some(p.ip) && p.held.started == first && p.held.ended == last
            && (p.held.ongoing <==> s.j == |rows|)
            && (s.j < |rows| || last != 0.0 ==> p.held.duration == last - first)
            && (s.j == |rows| && last == 0.0 ==> p.held.duration == 0.0)
  {
  }

  predicate ClosedPeriodIs(rows: seq<Seen>, s: Span, p: Period) {
    && s.i < s.j <= |rows| && rows[s.i].ip == Some(p.ip)
    && p.held == StretchOf(rows[s.i].ts, rows[s.j - 1].ts, false)
  }

  /** Part way: the periods that ended are those of `spans`, the current one began at `start`. */
  ghost predicate Collapsed(known: seq<Seen>, start: nat, spans: seq<Span>, periods: seq<Period>) {
    && start < |known| && |periods| == |spans|
    && (forall k :: start <= k < |known| ==> known[k].ip == known[start].ip)
    && (start > 0 ==> known[start - 1].ip != known[start].ip)
    && RunLengths(known[..start], spans)
    && (forall k :: 0 <= k < |spans| ==> spans[k].j <= start && ClosedPeriodIs(known, spans[k], periods[k]))
  }

  lemma CollapsedGrows(known: seq<Seen>, start: nat, spans: seq<Span>, periods: seq<Period>, row: Seen)
    requires Collapsed(known, start, spans, periods) && row.ip == known[start].ip
    ensures Collapsed(known + [row], start, spans, periods)
  {
    assert (known + [row])[..start] == known[..start];
    forall k | 0 <= k < |spans| ensures ClosedPeriodIs(known + [row], spans[k], periods[k]) {
      ClosedPeriodStays(known, row, spans[k], periods[k]);
    }
  }

  lemma RunLengthsSnoc(known: seq<Seen>, start: nat, spans: seq<Span>)
    requires start < |known| && RunLengths(known[..start], spans)
    requires forall k :: start <= k < |known| ==> known[k].ip == known[start].ip
    requires start > 0 ==> known[start - 1].ip != known[start].ip
    ensures RunLengths(known, spans + [Span(start, |known|)])
  {
    assert (spans + [Span(start, |known|)])[..|spans|] == spans;
  }

  lemma ClosedPeriodStays(known: seq<Seen>, row: Seen, s: Span, p: Period)
    requires ClosedPeriodIs(known, s, p)
    ensures ClosedPeriodIs(known + [row], s, p)
  {
  }

  lemma CollapsedTurns(known: seq<Seen>, start: nat, spans: seq<Span>, periods: seq<Period>, row: Seen, p: Period)
    requires Collapsed(known, start, spans, periods) && row.ip != known[start].ip
    requires ClosedPeriodIs(known, Span(start, |known|), p)
    ensures Collapsed(known + [row], |known|, spans + [Span(start, |known|)], periods + [p])
  {
    var spans', periods' := spans + [Span(start, |known|)], periods + [p];
    assert (known + [row])[..|known|] == known;
    RunLengthsSnoc(known, start, spans);
    forall k | 0 <= k < |spans'|
      ensures spans'[k].j <= |known| && ClosedPeriodIs(known + [row], spans'[k], periods'[k])
    {
      ClosedPeriodStays(known, row, spans'[k], periods'[k]);
    }
  }

  /** The collapse so far, with the state the loop keeps. */
  ghost predicate Collapsing(known: seq<Seen>, current: Option<(string, real)>, lastTs: Option<real>,
                             start: nat, spans: seq<Span>, periods: seq<Period>) {
    if current.None? then |known| == |spans| == |periods| == start == 0
    else
      && Collapsed(known, start, spans, periods)
      && known[start] == Seen(current.value.1, Some(current.value.0))
      && lastTs == Some(known[|known| - 1].ts)
  }

  lemma CollapsingStarts(known: seq<Seen>, row: Seen)
    requires |known| == 0 && row.ip.Some?
    ensures Collapsing(known + [row], Some((row.ip.value, row.ts)), Some(row.ts), 0, [], [])
  {
    assert (known + [row])[..0] == [];
  }

  lemma CollapsingEnds(known: seq<Seen>, current: Option<(string, real)>, lastTs: Option<real>,
                       start: nat, spans: seq<Span>, periods: seq<Period>, p: Period)
    requires Collapsing(known, current, lastTs, start, spans, periods) && current.Some?
    requires p == Period(current.value.0, StretchOf(current.value.1, lastTs.value, true))
    ensures RunLengths(known, spans + [Span(start, |known|)])
    ensures PeriodsAre(known, spans + [Span(start, |known|)], periods + [p])
  {
    RunLengthsSnoc(known, start, spans);
    forall k | 0 <= k < |spans| ensures PeriodIs(known, spans[k], periods[k]) {
      assert ClosedPeriodIs(known, spans[k], periods[k]) && spans[k].j <= start;
    }
  }

  ghost predicate PeriodsAre(known: seq<Seen>, spans: seq<Span>, oldestFirst: seq<Period>) {
    |oldestFirst| == |spans| && forall k :: 0 <= k < |spans| ==> PeriodIs(known, spans[k], oldestFirst[k])
  }

  lemma CollapsingGrows(known: seq<Seen>, current: Option<(string, real)>, lastTs: Option<real>,
                        start: nat, spans: seq<Span>, periods: seq<Period>, row: Seen)
    requires Collapsing(known, current, lastTs, start, spans, periods) && current.Some?
    requires row.ip == Some(current.value.0)
    ensures Collapsing(known + [row], current, Some(row.ts), start, spans, periods)
  {
    CollapsedGrows(known, start, spans, periods, row);
  }

  lemma CollapsingTurns(known: seq<Seen>, current: Option<(string, real)>, lastTs: Option<real>,
                        start: nat, spans: seq<Span>, periods: seq<Period>, row: Seen, p: Period)
    requires Collapsing(known, current, lastTs, start, spans, periods) && current.Some? && row.ip.Some?
    requires row.ip.value != current.value.0
    requires p == Period(current.value.0, StretchOf(current.value.1, lastTs.value, false))
    ensures Collapsing(known + [row], Some((row.ip.value, row.ts)), Some(row.ts), |known|,
                       spans + [Span(start, |known|)], periods + [p])
  {
    CollapsedTurns(known, start, spans, periods, row, p);
  }

  lemma KnownSnoc(rows: seq<Seen>, n: nat)
    requires n < |rows|
    ensures rows[n].ip.None? ==> Known(rows[..n + 1]) == Known(rows[..n])
    ensures rows[n].ip.Some? ==> Known(rows[..n + 1]) == Known(rows[..n]) + [rows[n]]
  {
    assert rows[..n + 1][..n] == rows[..n];
  }

  /** The periods are, newest first, those of the one way to tile the rows with runs. */
  ghost predicate Encodes(known: seq<Seen>, spans: seq<Span>, periods: seq<Period>) {
    && RunLengths(known, spans) && |periods| == |spans|
    && forall k :: 0 <= k < |spans| ==> PeriodIs(known, spans[k], periods[|spans| - 1 - k])
  }

  /** The loop over the rows; the last period is still open when it ends. */
  method CollapseRows(rows: seq<Seen>)
    returns (ended: seq<Period>, current: Option<(string, real)>, lastTs: Option<real>, ghost start: nat,
             ghost spans: seq<Span>)
    ensures Collapsing(Known(rows), current, lastTs, start, spans, ended)
  {
    ended, current, lastTs := [], None, None;
    start, spans := 0, [];
    for n := 0 to |rows|
      invariant Collapsing(Known(rows[..n]), current, lastTs, start, spans, ended)
    {
      ghost var known := Known(rows[..n]);
      var row := rows[n];
      KnownSnoc(rows, n);
      if row.ip.None? {
        continue;
      }
      if current.None? {
        CollapsingStarts(known, row);
        current := Some((row.ip.value, row.ts));
      } else if row.ip.value != current.value.0 {
        var p := Period(current.value.0, Stretch(current.value.1, lastTs.value, lastTs.value - current.value.1, false));
        CollapsingTurns(known, current, lastTs, start, spans, ended, row, p);
        spans, start := spans + [Span(start, |known|)], |known|;
        ended := ended + [p];
        current := Some((row.ip.value, row.ts));
      } else {
        CollapsingGrows(known, current, lastTs, start, spans, ended, row);
      }
      lastTs := Some(row.ts);
    }
    assert rows[..|rows|] == rows;
  }

  /** Collapse consecutive sightings of one address into periods, newest first: the
      run-length encoding of the rows that carry an address. */
  method QueryIpPeriods(rows: seq<Seen>) returns (periods: seq<Period>)
    ensures exists spans :: Encodes(Known(rows), spans, periods)
  {
    var oldestFirst, current, lastTs;
    ghost var start, spans;
    oldestFirst, current, lastTs, start, spans := CollapseRows(rows);
    if current.Some? {
      var duration := if lastTs.Some? && lastTs.value != 0.0 then lastTs.value - current.value.1 else 0.0;
      var p := Period(current.value.0, Stretch(current.value.1, lastTs.value, duration, true));
      CollapsingEnds(Known(rows), current, lastTs, start, spans, oldestFirst, p);
      periods := ReversePeriods(Known(rows), spans + [Span(start, |Known(rows)|)], oldestFirst + [p]);
    } else {
      periods := [];
      NothingToEncode(Known(rows), spans, periods);
    }
  }

  lemma NothingToEncode(known: seq<Seen>, spans: seq<Span>, periods: seq<Period>)
    requires |known| == |spans| == |periods| == 0
    ensures Encodes(known, spans, periods)
  {
  }

  /** `periods.reverse()` */
  method ReversePeriods(ghost known: seq<Seen>, ghost spans: seq<Span>, oldestFirst: seq<Period>)
    returns (r: seq<Period>)
    requires RunLengths(known, spans) && PeriodsAre(known, spans, oldestFirst)
    ensures Encodes(known, spans, r)
  {
    r := Reversed(oldestFirst);
    forall k | 0 <= k < |spans| ensures PeriodIs(known, spans[k], r[|spans| - 1 - k]) {
      assert r[|spans| - 1 - k] == oldestFirst[k];
    }
  }
}
