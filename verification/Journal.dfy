/** The decision journal: a memory buffer in front of a ring-trimmed table, which
    together must read like a plain append-only list. */
module Journal {
  import opened Model

  datatype Decision = Decision(at: real, text: string)

  datatype Row = Row(id: nat, decision: Decision)

  /** How a flush ends: all written and trimmed, written but not trimmed, or lost. */
  datatype FlushEnd = Saved | Untrimmed | Lost

  const RECENT_KEPT := 200

  datatype Store = Store(
    open: bool,
    retain: nat,
    table: seq<Row>,
    lastId: nat,
    buffer: seq<Decision>,
    otherPending: bool,
    recent: seq<Decision>)

  // ---- sequences ----------------------------------------------------------------------

  /** The newest n of a list, oldest first; all of it if it is shorter. */
  function Newest<T>(s: seq<T>, n: nat): seq<T> {
    if n <= |s| then s[|s| - n..] else s
  }

  function Decisions(rows: seq<Row>): (d: seq<Decision>)
    ensures |d| == |rows|
    ensures forall i :: 0 <= i < |rows| ==> d[i] == rows[i].decision
  {
    seq(|rows|, i requires 0 <= i < |rows| => rows[i].decision)
  }

  // ---- the table -----------------------------------------------------------------------

  function NewRows(lastId: nat, decisions: seq<Decision>): (r: seq<Row>)
    ensures |r| == |decisions|
  {
    seq(|decisions|, i requires 0 <= i < |decisions| => Row(lastId + 1 + i, decisions[i]))
  }

  function MaxId(rows: seq<Row>): int {
    if rows == [] then 0
    else
      var before := MaxId(rows[..|rows| - 1]);
      if before > rows[|rows| - 1].id then before else rows[|rows| - 1].id
  }

  function DeleteUpTo(rows: seq<Row>, bound: int): seq<Row> {
    if rows == [] then []
    else DeleteUpTo(rows[..|rows| - 1], bound) + (if rows[|rows| - 1].id <= bound then [] else [rows[|rows| - 1]])
  }

  /** Ring retention: drop every row whose id is `keep` or more below the largest. */
  function Trim(rows: seq<Row>, keep: nat): seq<Row> {
    DeleteUpTo(rows, MaxId(rows) - keep)
  }

  function InsertByTime(d: Decision, newestFirst: seq<Decision>): seq<Decision> {
    if newestFirst == [] || d.at >= newestFirst[0].at then [d] + newestFirst
    else [newestFirst[0]] + InsertByTime(d, newestFirst[1..])
  }

  /** `ORDER BY at DESC`. */
  function OrderByTime(s: seq<Decision>): seq<Decision> {
    if s == [] then [] else InsertByTime(s[|s| - 1], OrderByTime(s[..|s| - 1]))
  }

  // ---- operations -----------------------------------------------------------------------

  function Record(s: Store, d: Decision): Store {
    s.(buffer := s.buffer + [d], recent := Newest(s.recent + [d], RECENT_KEPT))
  }

  /** A new process on the same database: what was only in memory is gone. */
  function Reopen(s: Store): Store {
    Store(s.open, s.retain, s.table, s.lastId, [], false, [])
  }

  function Flush(s: Store, end: FlushEnd): Store {
    var emptied := s.(buffer := [], otherPending := false);
    if !s.open || (s.buffer == [] && !s.otherPending) || end.Lost? then emptied
    else
      var rows := s.table + NewRows(s.lastId, s.buffer);
      emptied.(table := if end.Saved? then Trim(rows, s.retain) else rows, lastId := s.lastId + |s.buffer|)
  }

  function First<T>(s: seq<T>, n: nat): seq<T> {
    if n <= |s| then s[..n] else s
  }

  /** The newest first. Without a database a limit of zero means no limit, as a slice
      from -0 does; a table that cannot be read counts as empty. */
  function RecentDecisions(s: Store, limit: nat, readable: bool): seq<Decision> {
    if !s.open then Reversed(if limit == 0 then s.recent else Newest(s.recent, limit))
    else First(Reversed(s.buffer) + (if readable then First(OrderByTime(Decisions(s.table)), limit) else []), limit)
  }

  class Telemetry {
    var store: Store

    /** A database that is there already is opened with its rows and its last id. */
    constructor (open: bool, retain: nat, table: seq<Row>, lastId: nat)
      ensures store == Store(open, retain, table, lastId, [], false, [])
    {
      store := Store(open, retain, table, lastId, [], false, []);
    }

    method RecordDecision(d: Decision)
      modifies this
      ensures store == Record(old(store), d)
    {
      store := store.(buffer := store.buffer + [d]);
      var recent := store.recent + [d];
      if |recent| > RECENT_KEPT {
        recent := recent[|recent| - RECENT_KEPT..];
      }
      store := store.(recent := recent);
    }

    method RecordOther()
      modifies this
      ensures store == old(store).(otherPending := true)
    {
      store := store.(otherPending := true);
    }

    method FlushNow(end: FlushEnd)
      modifies this
      ensures store == Flush(old(store), end)
    {
      if !store.open || (store.buffer == [] && !store.otherPending) {
        store := store.(buffer := [], otherPending := false);
        return;
      }
      var buffered := store.buffer;
      store := store.(buffer := [], otherPending := false);
      if end.Lost? {
        return;
      }
      store := store.(table := store.table + NewRows(store.lastId, buffered), lastId := store.lastId + |buffered|);
      if end.Saved? {
        store := store.(table := Trim(store.table, store.retain));
      }
    }

    method Recent(limit: nat, readable: bool) returns (r: seq<Decision>)
      ensures r == RecentDecisions(store, limit, readable)
    {
      if !store.open {
        var from := if limit == 0 || limit > |store.recent| then 0 else |store.recent| - limit;
        return Reversed(store.recent[from..]);
      }
      var stored := [];
      if readable {
        stored := First(OrderByTime(Decisions(store.table)), limit);
      }
      var merged := Reversed(store.buffer) + stored;
      r := First(merged, limit);
    }
  }

  // ---- runs against a plain list ----------------------------------------------------------

  datatype Event = Recorded(decision: Decision) | OtherRecorded | Flushed(end: FlushEnd) | Reopened

  function Apply(s: Store, e: Event): Store {
    match e
    case Recorded(d) => Record(s, d)
    case OtherRecorded => s.(otherPending := true)
    case Flushed(end) => Flush(s, end)
    case Reopened => Reopen(s)
  }

  function Play(s: Store, events: seq<Event>): Store {
    if events == [] then s else Apply(Play(s, events[..|events| - 1]), events[|events| - 1])
  }

  /** The plain list: everything recorded, except what a failed flush or a restart lost. The
      first part has been flushed, the second is waiting. */
  datatype Plain = Plain(flushed: seq<Decision>, waiting: seq<Decision>) {
    function All(): seq<Decision> {
      flushed + waiting
    }
  }

  function PlainList(events: seq<Event>): Plain {
    if events == [] then Plain([], [])
    else
      var p := PlainList(events[..|events| - 1]);
      match events[|events| - 1]
      case Recorded(d) => p.(waiting := p.waiting + [d])
      case OtherRecorded => p
      case Flushed(end) => if end.Lost? then Plain(p.flushed, []) else Plain(p.All(), [])
      case Reopened => Plain(p.flushed, [])
  }

  ghost predicate InTimeOrder(s: seq<Decision>) {
    forall i, j :: 0 <= i < j < |s| ==> s[i].at < s[j].at
  }

  // ---- trimming keeps the newest rows --------------------------------------------------------

  /** Ids run without a gap up to `last`. */
  ghost predicate Contiguous(rows: seq<Row>, last: nat) {
    |rows| <= last && forall i :: 0 <= i < |rows| ==> rows[i].id == last - |rows| + 1 + i
  }

  lemma {:induction false} MaxOfContiguous(rows: seq<Row>, last: nat)
    requires Contiguous(rows, last) && rows != []
    ensures MaxId(rows) == last
  {
    if |rows| > 1 {
      MaxOfContiguous(rows[..|rows| - 1], last - 1);
    }
  }

  lemma NewestSnoc(rows: seq<Row>, n: nat)
    requires |rows| > 0 && n > 0
    ensures Newest(rows, n) == Newest(rows[..|rows| - 1], n - 1) + [rows[|rows| - 1]]
  {
    var before, row := rows[..|rows| - 1], rows[|rows| - 1];
    assert rows == before + [row];
    if n <= |rows| {
      assert rows[|rows| - n..] == before[|before| - (n - 1)..] + [row];
    }
  }

  lemma {:induction false} DeleteKeepsNewest(rows: seq<Row>, last: nat, bound: int, n: nat)
    requires Contiguous(rows, last) && bound == last - n
    ensures DeleteUpTo(rows, bound) == Newest(rows, n)
  {
    if n == 0 || |rows| == 0 {
      NothingLeft(rows, bound, n);
    } else {
      ContiguousPrefix(rows, last);
      DeleteKeepsNewest(rows[..|rows| - 1], last - 1, bound, n - 1);
      DeleteStep(rows, bound, n);
    }
  }

  lemma NothingLeft(rows: seq<Row>, bound: int, n: nat)
    requires n == 0 || |rows| == 0
    requires forall i :: 0 <= i < |rows| ==> rows[i].id <= bound
    ensures DeleteUpTo(rows, bound) == Newest(rows, n)
  {
    DeleteAll(rows, bound);
  }

  lemma ContiguousPrefix(rows: seq<Row>, last: nat)
    requires Contiguous(rows, last) && |rows| > 0
    ensures Contiguous(rows[..|rows| - 1], last - 1)
  {
  }

  lemma DeleteStep(rows: seq<Row>, bound: int, n: nat)
    requires |rows| > 0 && n > 0 && rows[|rows| - 1].id > bound
    requires DeleteUpTo(rows[..|rows| - 1], bound) == Newest(rows[..|rows| - 1], n - 1)
    ensures DeleteUpTo(rows, bound) == Newest(rows, n)
  {
    NewestSnoc(rows, n);
  }

  lemma {:induction false} DeleteAll(rows: seq<Row>, bound: int)
    requires forall i :: 0 <= i < |rows| ==> rows[i].id <= bound
    ensures DeleteUpTo(rows, bound) == []
  {
    if |rows| > 0 {
      DeleteAll(rows[..|rows| - 1], bound);
    }
  }

  lemma TrimKeepsNewest(rows: seq<Row>, last: nat, keep: nat)
    requires Contiguous(rows, last)
    ensures Trim(rows, keep) == Newest(rows, keep) && Contiguous(Trim(rows, keep), last)
  {
    if rows != [] {
      MaxOfContiguous(rows, last);
      DeleteKeepsNewest(rows, last, last - keep, keep);
    }
  }

  // ---- ordering by time is ordering by age ------------------------------------------------------

  lemma {:induction false} OrderIsReverse(s: seq<Decision>)
    requires InTimeOrder(s)
    ensures OrderByTime(s) == Reversed(s)
  {
    if s != [] {
      var n := |s| - 1;
      OrderIsReverse(s[..n]);
      assert Reversed(s) == [s[n]] + Reversed(s[..n]);
    }
  }

  // ---- the refinement -----------------------------------------------------------------------------

  /** The store holds the waiting part in its buffer and, in its table, a tail of the
      flushed part that is at least as long as retention asks for. */
  ghost predicate Mirrors(s: Store, p: Plain) {
    && s.buffer == p.waiting
    && Contiguous(s.table, s.lastId)
    && Decisions(s.table) == Newest(p.flushed, |s.table|)
    && |s.table| <= |p.flushed|
    && |s.table| >= Min(s.retain, |p.flushed|)
  }

  lemma DecisionsJoin(table: seq<Row>, lastId: nat, buffer: seq<Decision>)
    ensures Decisions(table + NewRows(lastId, buffer)) == Decisions(table) + buffer
  {
  }

  lemma ContiguousJoin(table: seq<Row>, lastId: nat, buffer: seq<Decision>)
    requires Contiguous(table, lastId)
    ensures Contiguous(table + NewRows(lastId, buffer), lastId + |buffer|)
  {
  }

  lemma NewestJoin(flushed: seq<Decision>, waiting: seq<Decision>, n: nat)
    requires n <= |flushed|
    ensures Newest(flushed + waiting, n + |waiting|) == Newest(flushed, n) + waiting
  {
  }

  lemma WrittenRowsMirror(s: Store, p: Plain)
    requires Mirrors(s, p)
    ensures var rows := s.table + NewRows(s.lastId, s.buffer);
            && Contiguous(rows, s.lastId + |s.buffer|)
            && Decisions(rows) == Newest(p.All(), |rows|)
            && Min(s.retain, |p.All()|) <= |rows| <= |p.All()|
  {
    DecisionsJoin(s.table, s.lastId, s.buffer);
    ContiguousJoin(s.table, s.lastId, s.buffer);
    NewestJoin(p.flushed, p.waiting, |s.table|);
  }

  lemma TrimmedRowsMirror(rows: seq<Row>, last: nat, keep: nat, all: seq<Decision>)
    requires Contiguous(rows, last) && Decisions(rows) == Newest(all, |rows|) && Min(keep, |all|) <= |rows| <= |all|
    ensures var trimmed := Trim(rows, keep);
            && Contiguous(trimmed, last)
            && Decisions(trimmed) == Newest(all, keep) == Newest(all, |trimmed|)
            && |trimmed| == Min(keep, |all|)
  {
    TrimKeepsNewest(rows, last, keep);
    assert Decisions(Newest(rows, keep)) == Newest(Decisions(rows), keep);
    assert Newest(Newest(all, |rows|), keep) == Newest(all, keep);
  }

  /** All is in the table now, and exactly the newest retained if it was trimmed. */
  ghost predicate Flushes(s: Store, all: seq<Decision>, retain: nat, end: FlushEnd) {
    Mirrors(s, Plain(all, [])) && (end.Saved? ==> Decisions(s.table) == Newest(all, retain))
  }

  /** A flush that writes: the table takes over what was waiting. */
  lemma FlushMirrors(s: Store, p: Plain, end: FlushEnd)
    requires Mirrors(s, p) && s.open && !end.Lost? && (s.buffer != [] || s.otherPending)
    ensures Flushes(Flush(s, end), p.All(), s.retain, end)
  {
    WrittenRowsMirror(s, p);
    if end.Saved? {
      TrimmedRowsMirror(s.table + NewRows(s.lastId, s.buffer), s.lastId + |s.buffer|, s.retain, p.All());
    }
  }

  /** What any flush does: the buffer is empty whatever happens; unless it fails, exactly the
      buffered records are appended under the next ids, and what was there is left alone if it
      is not trimmed. */
  lemma FlushWrites(s: Store, end: FlushEnd)
    ensures var after, n := Flush(s, end), |s.table|;
            var writes := s.open && !end.Lost? && (s.buffer != [] || s.otherPending);
            && after.buffer == [] && !after.otherPending
            && after.open == s.open && after.retain == s.retain && after.recent == s.recent
            && after.lastId == s.lastId + (if writes then |s.buffer| else 0)
            && (!writes ==> after.table == s.table)
            && (writes && end == Untrimmed ==>
                  && |after.table| == n + |s.buffer| && after.table[..n] == s.table
                  && forall i :: 0 <= i < |s.buffer| ==> after.table[n + i] == Row(s.lastId + 1 + i, s.buffer[i]))
  {
  }

  function Empty(retain: nat): Store {
    Store(true, retain, [], 0, [], false, [])
  }

  lemma {:induction false} PlayMirrors(retain: nat, events: seq<Event>)
    ensures var s := Play(Empty(retain), events);
            Mirrors(s, PlainList(events)) && s.open && s.retain == retain
  {
    if events != [] {
      var before, e := events[..|events| - 1], events[|events| - 1];
      PlayMirrors(retain, before);
      var s, p := Play(Empty(retain), before), PlainList(before);
      if e.Flushed? && !e.end.Lost? {
        if s.buffer != [] || s.otherPending {
          FlushMirrors(s, p, e.end);
        } else {
          assert p.All() == p.flushed;
        }
      }
    }
  }

  /** Over any run of records, flushes, failed ones included, and restarts, asking for the newest
      n gives the newest n of the plain list, newest first, whenever flushes happened, as
      long as the flushed records' wall times increase; those waiting may have any. */
  lemma ReadsLikePlainList(retain: nat, events: seq<Event>, n: nat)
    requires n <= retain && InTimeOrder(PlainList(events).flushed)
    ensures RecentDecisions(Play(Empty(retain), events), n, true)
         == Reversed(Newest(PlainList(events).All(), n))
  {
    PlayMirrors(retain, events);
    MirrorReadsLike(Play(Empty(retain), events), PlainList(events), n);
  }

  lemma MirrorReadsLike(s: Store, p: Plain, n: nat)
    requires Mirrors(s, p) && s.open && n <= s.retain && InTimeOrder(p.flushed)
    ensures RecentDecisions(s, n, true) == Reversed(Newest(p.All(), n))
  {
    var stored := Decisions(s.table);
    TailInTimeOrder(p.flushed, |stored|);
    OrderIsReverse(stored);
    MergedIsNewest(p.flushed, p.waiting, stored, n);
  }

  lemma TailInTimeOrder(flushed: seq<Decision>, n: nat)
    requires InTimeOrder(flushed)
    ensures InTimeOrder(Newest(flushed, n))
  {
    var tail := Newest(flushed, n);
    var skip := |flushed| - |tail|;
    forall i, j | 0 <= i < j < |tail| ensures tail[i].at < tail[j].at {
      assert tail[i] == flushed[skip + i] && tail[j] == flushed[skip + j];
    }
  }

  lemma ReversedNewest(s: seq<Decision>, n: nat)
    ensures Reversed(Newest(s, n)) == First(Reversed(s), n)
  {
  }

  lemma ReversedJoin(a: seq<Decision>, b: seq<Decision>)
    ensures Reversed(a + b) == Reversed(b) + Reversed(a)
  {
  }

  lemma FirstOfJoin(x: seq<Decision>, y: seq<Decision>, n: nat)
    ensures First(x + First(y, n), n) == First(x + y, n)
  {
  }

  lemma TailReadsTheSame(flushed: seq<Decision>, stored: seq<Decision>, n: nat)
    requires stored == Newest(flushed, |stored|) && |stored| <= |flushed| && |stored| >= Min(n, |flushed|)
    ensures First(Reversed(stored), n) == First(Reversed(flushed), n)
  {
    ReversedNewest(stored, n);
    ReversedNewest(flushed, n);
    assert Newest(stored, n) == Newest(flushed, n);
  }

  lemma MergedIsNewest(flushed: seq<Decision>, waiting: seq<Decision>, stored: seq<Decision>, n: nat)
    requires stored == Newest(flushed, |stored|) && |stored| <= |flushed| && |stored| >= Min(n, |flushed|)
    ensures First(Reversed(waiting) + First(Reversed(stored), n), n) == Reversed(Newest(flushed + waiting, n))
  {
    TailReadsTheSame(flushed, stored, n);
    FirstOfJoin(Reversed(waiting), Reversed(flushed), n);
    ReversedJoin(flushed, waiting);
    ReversedNewest(flushed + waiting, n);
  }

  /** After a flush that wrote and trimmed, the table holds exactly the newest rows
      retention allows. */
  lemma TableIsNewestRetained(retain: nat, events: seq<Event>)
    requires Play(Empty(retain), events).buffer != [] || Play(Empty(retain), events).otherPending
    ensures Decisions(Flush(Play(Empty(retain), events), Saved).table) == Newest(PlainList(events).All(), retain)
  {
    PlayMirrors(retain, events);
    FlushMirrors(Play(Empty(retain), events), PlainList(events), Saved);
  }

  const CLOSED := Store(false, 0, [], 0, [], false, [])

  /** Without a database memory holds the last 200 records of this process. */
  lemma {:induction false} MemoryKeepsRecent(events: seq<Event>)
    ensures Play(CLOSED, events).recent == Newest(AllRecorded(events), RECENT_KEPT)
    ensures !Play(CLOSED, events).open
  {
    if |events| > 0 {
      MemoryKeepsRecent(events[..|events| - 1]);
    }
  }

  /** So up to 200 records read like the plain list of all of them. */
  lemma MemoryReadsLikePlainList(events: seq<Event>, n: nat, readable: bool)
    requires 1 <= n <= RECENT_KEPT
    ensures RecentDecisions(Play(CLOSED, events), n, readable) == Reversed(Newest(AllRecorded(events), n))
  {
    MemoryKeepsRecent(events);
    var all := AllRecorded(events);
    assert Newest(Newest(all, RECENT_KEPT), n) == Newest(all, n);
  }

  function AllRecorded(events: seq<Event>): seq<Decision> {
    if events == [] then []
    else
      var e := events[|events| - 1];
      if e.Reopened? then [] else AllRecorded(events[..|events| - 1]) + (if e.Recorded? then [e.decision] else [])
  }

  ghost predicate NewestFirst(s: seq<Decision>) {
    |s| > 1 ==> s[0].at >= s[1].at && NewestFirst(s[1..])
  }

  lemma {:induction false} InsertKeepsOrder(d: Decision, s: seq<Decision>)
    requires NewestFirst(s)
    ensures NewestFirst(InsertByTime(d, s)) && |InsertByTime(d, s)| == |s| + 1
    ensures InsertByTime(d, s)[0] == d || (s != [] && InsertByTime(d, s)[0] == s[0])
  {
    if s != [] {
      if d.at >= s[0].at {
        assert ([d] + s)[1..] == s;
      } else {
        InsertKeepsOrder(d, s[1..]);
        assert ([s[0]] + InsertByTime(d, s[1..]))[1..] == InsertByTime(d, s[1..]);
      }
    }
  }

  lemma {:induction false} OrderIsNewestFirst(s: seq<Decision>)
    ensures NewestFirst(OrderByTime(s))
  {
    if s != [] {
      OrderIsNewestFirst(s[..|s| - 1]);
      InsertKeepsOrder(s[|s| - 1], OrderByTime(s[..|s| - 1]));
    }
  }

  lemma {:induction false} NewestFirstAt(s: seq<Decision>, i: nat, j: nat)
    requires NewestFirst(s) && i <= j < |s|
    ensures s[i].at >= s[j].at
    decreases j
  {
    if i > 0 {
      NewestFirstAt(s[1..], i - 1, j - 1);
    } else if j > 0 {
      NewestFirstAt(s[1..], 0, j - 1);
    }
  }

  /** Reading the table by wall time is reading it by age exactly when no record was
      stamped earlier than one before it; a clock that stepped back misorders it. */
  lemma OrderIsReverseIff(s: seq<Decision>)
    requires forall i, j :: 0 <= i < j < |s| ==> s[i].at != s[j].at
    ensures OrderByTime(s) == Reversed(s) <==> InTimeOrder(s)
  {
    if InTimeOrder(s) {
      OrderIsReverse(s);
    }
    if OrderByTime(s) == Reversed(s) {
      OrderIsNewestFirst(s);
      ReverseOfNewestFirst(s);
    }
  }

  lemma ReverseOfNewestFirst(s: seq<Decision>)
    requires NewestFirst(Reversed(s))
    requires forall i, j :: 0 <= i < j < |s| ==> s[i].at != s[j].at
    ensures InTimeOrder(s)
  {
    forall i, j | 0 <= i < j < |s| ensures s[i].at < s[j].at {
      NewestFirstAt(Reversed(s), |s| - 1 - j, |s| - 1 - i);
      assert Reversed(s)[|s| - 1 - j] == s[j] && Reversed(s)[|s| - 1 - i] == s[i];
    }
  }

  // ---- exactly when a read is right -------------------------------------------------------------

  ghost predicate DistinctTimes(s: seq<Decision>) {
    forall i, j :: 0 <= i < j < |s| ==> s[i].at != s[j].at
  }

  /** Each of the newest k was stamped later than everything before it. */
  ghost predicate LatestInOrder(s: seq<Decision>, k: nat) {
    k == 0 || s == [] ||
    (&& (forall i :: 0 <= i < |s| - 1 ==> s[i].at < s[|s| - 1].at)
     && LatestInOrder(s[..|s| - 1], k - 1))
  }

  /** Ordering by time puts one of the latest first. */
  lemma {:induction false} TopIsLatest(s: seq<Decision>)
    requires |s| > 0
    ensures |OrderByTime(s)| == |s|
    ensures exists i :: 0 <= i < |s| && OrderByTime(s)[0] == s[i]
    ensures forall i :: 0 <= i < |s| ==> s[i].at <= OrderByTime(s)[0].at
  {
    var before, d := s[..|s| - 1], s[|s| - 1];
    assert s[|s| - 1] == d;
    if |before| > 0 {
      TopIsLatest(before);
      InsertLength(d, OrderByTime(before));
      var i :| 0 <= i < |before| && OrderByTime(before)[0] == before[i];
      assert s[i] == before[i];
    }
  }

  lemma {:induction false} InsertLength(d: Decision, s: seq<Decision>)
    ensures |InsertByTime(d, s)| == |s| + 1
  {
    if |s| > 0 && d.at < s[0].at {
      InsertLength(d, s[1..]);
    }
  }

  /** The newest comes first by time exactly if it was stamped later than all the others. */
  lemma NewestOnTopIff(s: seq<Decision>)
    requires |s| > 0 && DistinctTimes(s)
    ensures var before, d := s[..|s| - 1], s[|s| - 1];
            && |OrderByTime(s)| == |s|
            && (OrderByTime(s)[0] == d <==> forall i :: 0 <= i < |s| - 1 ==> s[i].at < d.at)
            && (OrderByTime(s)[0] == d ==> OrderByTime(s) == [d] + OrderByTime(before))
  {
    var before, d := s[..|s| - 1], s[|s| - 1];
    TopIsLatest(s);
    if |before| > 0 {
      TopIsLatest(before);
      var i :| 0 <= i < |before| && OrderByTime(before)[0] == before[i];
      assert s[i] == before[i] && s[i].at != d.at;
    }
  }

  /** The first k by time are the newest k if and only if those were stamped in order. */
  lemma {:induction false} FirstByTimeIff(s: seq<Decision>, k: nat)
    requires DistinctTimes(s)
    ensures First(OrderByTime(s), k) == First(Reversed(s), k) <==> LatestInOrder(s, k)
  {
    OrderLength(s);
    if k > 0 && |s| > 0 {
      var before, d := s[..|s| - 1], s[|s| - 1];
      NewestOnTopIff(s);
      FirstByTimeIff(before, k - 1);
      ReversedSnoc(s);
      TopStep(d, OrderByTime(s), OrderByTime(before), Reversed(before), k);
    }
  }

  lemma ReversedSnoc(s: seq<Decision>)
    requires |s| > 0
    ensures Reversed(s) == [s[|s| - 1]] + Reversed(s[..|s| - 1])
  {
  }

  lemma TopStep(d: Decision, all: seq<Decision>, ordered: seq<Decision>, reversed: seq<Decision>, k: nat)
    requires k > 0 && |all| > 0 && (all[0] == d ==> all == [d] + ordered)
    ensures First(all, k) == First([d] + reversed, k)
            <==> all[0] == d && First(ordered, k - 1) == First(reversed, k - 1)
  {
    FirstOfCons(d, reversed, k);
    assert First(all, k)[0] == all[0];
    if all[0] == d {
      FirstOfCons(d, ordered, k);
      if First(all, k) == First([d] + reversed, k) {
        ConsCancels(d, First(ordered, k - 1), First(reversed, k - 1));
      }
    }
  }

  lemma {:induction false} OrderLength(s: seq<Decision>)
    ensures |OrderByTime(s)| == |s|
  {
    if |s| > 0 {
      TopIsLatest(s);
    }
  }

  lemma FirstOfCons(d: Decision, s: seq<Decision>, k: nat)
    requires k > 0
    ensures First([d] + s, k) == [d] + First(s, k - 1)
  {
  }

  lemma ConsCancels(d: Decision, s: seq<Decision>, t: seq<Decision>)
    requires [d] + s == [d] + t
    ensures s == t
  {
    assert ([d] + s)[1..] == s && ([d] + t)[1..] == t;
  }

  lemma JoinCancels(x: seq<Decision>, y: seq<Decision>, z: seq<Decision>, n: nat)
    requires |y| == |z| && |x| <= n
    ensures First(x + First(y, n), n) == First(x + First(z, n), n) <==> First(y, n - |x|) == First(z, n - |x|)
  {
    FirstOfLongJoin(x, y, n);
    FirstOfLongJoin(x, z, n);
    var left, right := x + First(y, n - |x|), x + First(z, n - |x|);
    assert left[|x|..] == First(y, n - |x|) && right[|x|..] == First(z, n - |x|);
  }

  lemma FirstOfLongJoin(x: seq<Decision>, y: seq<Decision>, n: nat)
    requires |x| <= n
    ensures First(x + First(y, n), n) == x + First(y, n - |x|)
  {
    FirstOfJoin(x, y, n);
    assert First(x + y, n) == x + First(y, n - |x|);
  }

  ghost predicate ReadsRight(s: Store, p: Plain, n: nat) {
    RecentDecisions(s, n, true) == Reversed(Newest(p.All(), n))
  }

  ghost predicate ReachesInOrder(s: Store, n: nat) {
    n <= |s.buffer| || LatestInOrder(Decisions(s.table), n - |s.buffer|)
  }

  /** A read of n is right if and only if it is served from the buffer alone, or the stored
      records it reaches were stamped in order and later than all stored before them. */
  lemma ReadIsRightIff(retain: nat, events: seq<Event>, n: nat)
    requires n <= retain && DistinctTimes(Decisions(Play(Empty(retain), events).table))
    ensures ReadsRight(Play(Empty(retain), events), PlainList(events), n)
            <==> ReachesInOrder(Play(Empty(retain), events), n)
  {
    PlayMirrors(retain, events);
    MirrorReadsIff(Play(Empty(retain), events), PlainList(events), n);
  }

  lemma MirrorReadsIff(s: Store, p: Plain, n: nat)
    requires Mirrors(s, p) && s.open && n <= s.retain && DistinctTimes(Decisions(s.table))
    ensures ReadsRight(s, p, n) <==> ReachesInOrder(s, n)
  {
    var stored := Decisions(s.table);
    MergedIsNewest(p.flushed, p.waiting, stored, n);
    OrderLength(stored);
    if n >= |s.buffer| {
      JoinCancels(Reversed(s.buffer), OrderByTime(stored), Reversed(stored), n);
      FirstByTimeIff(stored, n - |s.buffer|);
    } else {
      BufferServes(Reversed(s.buffer), First(OrderByTime(stored), n), First(Reversed(stored), n), n);
    }
  }

  lemma BufferServes(x: seq<Decision>, y: seq<Decision>, z: seq<Decision>, n: nat)
    requires n <= |x|
    ensures First(x + y, n) == First(x + z, n)
  {
  }

  // ---- every read, entry by entry ---------------------------------------------------------------

  /** The newest k of a list, newest first. */
  ghost predicate CountsBack(all: seq<Decision>, k: nat, r: seq<Decision>) {
    && |r| == (if k <= |all| then k else |all|)
    && forall i :: 0 <= i < |r| ==> r[i] == all[|all| - 1 - i]
  }

  ghost predicate ReadsBack(s: Store, p: Plain, n: nat) {
    CountsBack(p.flushed + p.waiting, Min(n, |p.waiting| + |s.table|), RecentDecisions(s, n, true))
  }

  /** Any read of any run, whatever it asks for: counting back from the newest record through
      those waiting and those the table still holds. */
  lemma ReadCountsBack(retain: nat, events: seq<Event>, n: nat)
    requires InTimeOrder(PlainList(events).flushed)
    ensures ReadsBack(Play(Empty(retain), events), PlainList(events), n)
  {
    PlayMirrors(retain, events);
    HeldReadsBack(Play(Empty(retain), events), PlainList(events), n);
  }

  /** And through those waiting alone if the table cannot be read. */
  lemma UnreadableCountsBack(retain: nat, events: seq<Event>, n: nat)
    ensures CountsBack(PlainList(events).waiting, n, RecentDecisions(Play(Empty(retain), events), n, false))
  {
    PlayMirrors(retain, events);
    WaitingReadsBack(Play(Empty(retain), events), PlainList(events), n);
  }

  lemma HeldReadsBack(s: Store, p: Plain, n: nat)
    requires Mirrors(s, p) && s.open && InTimeOrder(p.flushed)
    ensures ReadsBack(s, p, n)
  {
    var stored := Decisions(s.table);
    ReadIsFirst(s, p, n);
    FirstCountsBack(stored + p.waiting, n);
    TailCountsBack(p.flushed, stored, p.waiting, Min(n, |p.waiting| + |stored|), RecentDecisions(s, n, true));
  }

  lemma ReadIsFirst(s: Store, p: Plain, n: nat)
    requires Mirrors(s, p) && s.open && InTimeOrder(p.flushed)
    ensures RecentDecisions(s, n, true) == First(Reversed(Decisions(s.table) + p.waiting), n)
  {
    var stored := Decisions(s.table);
    TailInTimeOrder(p.flushed, |stored|);
    OrderIsReverse(stored);
    FirstOfJoin(Reversed(p.waiting), Reversed(stored), n);
    ReversedJoin(stored, p.waiting);
  }

  lemma FirstCountsBack(s: seq<Decision>, n: nat)
    ensures CountsBack(s, Min(n, |s|), First(Reversed(s), n))
  {
  }

  lemma TailCountsBack(flushed: seq<Decision>, stored: seq<Decision>, waiting: seq<Decision>, k: nat, r: seq<Decision>)
    requires |stored| <= |flushed| && stored == Newest(flushed, |stored|)
    requires k <= |stored + waiting| && CountsBack(stored + waiting, k, r)
    ensures CountsBack(flushed + waiting, k, r)
  {
    var all, held := flushed + waiting, stored + waiting;
    forall i | 0 <= i < |r| ensures r[i] == all[|all| - 1 - i] {
      assert held[|held| - 1 - i] == all[|all| - 1 - i];
    }
  }

  lemma WaitingReadsBack(s: Store, p: Plain, n: nat)
    requires Mirrors(s, p) && s.open
    ensures CountsBack(p.waiting, n, RecentDecisions(s, n, false))
  {
    assert Reversed(s.buffer) + [] == Reversed(s.buffer);
  }

  /** The table holds at least what retention asks for, or everything that was flushed. */
  lemma TableHoldsEnough(retain: nat, events: seq<Event>)
    ensures var held, flushed := |Play(Empty(retain), events).table|, |PlainList(events).flushed|;
            held <= flushed && (held >= retain || held == flushed)
  {
    PlayMirrors(retain, events);
  }

  /** Without a database: counting back through this process's records, at most 200 of them; a
      limit of zero asks for all of those. */
  lemma MemoryCountsBack(events: seq<Event>, n: nat, readable: bool)
    ensures CountsBack(AllRecorded(events), if n == 0 || n > 200 then 200 else n,
                       RecentDecisions(Play(CLOSED, events), n, readable))
  {
    var k := if n == 0 || n > 200 then 200 else n;
    MemoryKeepsRecent(events);
    NewestCountsBack(AllRecorded(events), k);
    NewestOfNewest(AllRecorded(events), RECENT_KEPT, k);
    if n > 200 {
      assert Newest(Play(CLOSED, events).recent, n) == Play(CLOSED, events).recent;
    }
  }

  lemma NewestOfNewest(s: seq<Decision>, m: nat, k: nat)
    requires k <= m
    ensures Newest(Newest(s, m), k) == Newest(s, k)
  {
  }

  lemma NewestCountsBack(s: seq<Decision>, k: nat)
    ensures CountsBack(s, k, Reversed(Newest(s, k)))
  {
  }
}
