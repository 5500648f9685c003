/** Measuring connections: passive counters for every connection, and pings under a
    time budget for NORMAL ones only. */
module Prober {
  import opened Model
  import opened Arithmetic
  import opened Hysteresis
  import Belief

  const TARGETS := ["1.1.1.1", "8.8.8.8"]

  datatype PingResult = PingResult(lossPct: real, rttMs: Option<real>, jitterMs: Option<real>)

  /** How one ping would go: how long after the previous step it comes up, how long the
      process runs, and what its output says, if it can be read at all. */
  datatype Attempt = Attempt(delay: real, took: real, parsed: Option<PingResult>)

  datatype Ping = Ping(atomic: Atomic, target: string, at: real, took: real, parsed: Option<PingResult>) {
    predicate Answered() {
      parsed.Some? && parsed.value.rttMs.Some?
    }
  }

  datatype Counters = Counters(at: real, rx: nat, tx: nat, drops: nat)

  /** One observation as the world answers it: two spells of time passing, around the
      reading of the counters, and how a ping of each target would go. */
  datatype Look = Look(
    atomic: Atomic,
    delay: real,
    rx: nat, tx: nat, backlog: nat, drops: nat,
    reading: real,
    reply: nat -> Attempt)

  datatype Reading = Reading(
    flow: Belief.Observation,
    rttMs: Option<real>,
    jitterMs: Option<real>,
    lossPct: Option<real>,
    bloatMs: Option<real>)

  /** The prober, its clock, and every ping it has ever started. */
  datatype State = State(
    clock: real,
    deadline: Option<real>,
    floors: map<Id, real>,
    last: map<Id, Counters>,
    pings: seq<Ping>)

  function New(clock: real): State {
    State(clock, None, map[], map[], [])
  }

  // ---- passive ------------------------------------------------------------------------

  /** Bits per second over a window, a counter that went backwards counting as idle. */
  function Throughput(before: nat, after: nat, elapsed: real): (bps: nat)
    requires elapsed > 0.0
    ensures 0.0 <= (if after > before then (after - before) as real * 8.0 else 0.0) - bps as real * elapsed < elapsed
  {
    var bits := if after > before then (after - before) as real * 8.0 else 0.0;
    FloorOfQuotient(bits, elapsed);
    (bits / elapsed).Floor
  }

  /** Throughput since the last look, and whether the queue showed the link was full. */
  function Passive(last: map<Id, Counters>, look: Look, now: real): Option<Belief.Observation> {
    if look.atomic.id !in last || now <= last[look.atomic.id].at then None
    else
      var then_ := last[look.atomic.id];
      Some(Belief.Observation(Throughput(then_.rx, look.rx, now - then_.at),
                              Throughput(then_.tx, look.tx, now - then_.at),
                              look.backlog > 0 || look.drops > then_.drops))
  }

  // ---- active --------------------------------------------------------------------------

  predicate Exhausted(s: State) {
    s.deadline.Some? && s.clock >= s.deadline.value
  }

  /** Part way through the targets: the best result so far, and whether to go on. */
  datatype Trying = Trying(s: State, kept: Option<PingResult>, open: bool)

  function TryTarget(t: Trying, look: Look, i: nat): Trying
    requires i < |TARGETS|
  {
    if !t.open then t
    else
      var a := look.reply(i);
      var s := if i == 0 then t.s else t.s.(clock := t.s.clock + a.delay);
      if i > 0 && Exhausted(s) then Trying(s, t.kept, false)
      else
        var s' :=
           s.(clock := s.clock + a.took, pings := s.pings + [Ping(look.atomic, TARGETS[i], s.clock, a.took, a.parsed)]);
        if a.parsed.None? then Trying(s', t.kept, true) else Trying(s', a.parsed, a.parsed.value.rttMs.None?)
  }

  function Try(s: State, look: Look, n: nat): Trying
    requires n <= |TARGETS|
  {
    if n == 0 then Trying(s, None, true) else TryTarget(Try(s, look, n - 1), look, n - 1)
  }

  function Floor(floors: map<Id, real>, id: Id, rtt: real): real {
    if id in floors && floors[id] <= rtt then floors[id] else rtt
  }

  /** Ping, and ratchet the connection's best round trip down. */
  function Active(s: State, look: Look, flow: Belief.Observation): (State, Option<Reading>) {
    var t := Try(s, look, |TARGETS|);
    if t.kept.None? then (t.s, Some(Reading(flow, None, None, None, None)))
    else
      var r := t.kept.value;
      if r.rttMs.None? then (t.s, Some(Reading(flow, None, r.jitterMs, Some(r.lossPct), None)))
      else
        var floor := Floor(t.s.floors, look.atomic.id, r.rttMs.value);
        (t.s.(floors := t.s.floors[look.atomic.id := floor]),
         Some(Reading(flow, r.rttMs, r.jitterMs, Some(r.lossPct), Some(r.rttMs.value - floor))))
  }

  function Observe(s: State, look: Look): (State, Option<Reading>) {
    if !look.atomic.Addressed() then (s, None)
    else
      var now := s.clock + look.delay;
      var flow := Passive(s.last, look, now);
      var s' := s.(clock := now + look.reading,
                   last := s.last[look.atomic.id := Counters(now, look.rx, look.tx, look.drops)]);
      if flow.None? then (s', None)
      else if !look.atomic.mode.Normal? || Exhausted(s') then (s', Some(Reading(flow.value, None, None, None, None)))
      else Active(s', look, flow.value)
  }

  function BeginPass(s: State, now: real, budget: real): State {
    s.(deadline := Some(now + budget))
  }

  /** One connection after another. */
  function Sweep(s: State, looks: seq<Look>): State {
    if looks == [] then s else Observe(Sweep(s, looks[..|looks| - 1]), looks[|looks| - 1]).0
  }

  /** A pass of the medium loop: its start was read from the clock some time earlier. */
  datatype Pass = Pass(startedAt: real, looks: seq<Look>)

  function RunPass(s: State, p: Pass, budget: real): State {
    Sweep(BeginPass(s, p.startedAt, budget), p.looks)
  }

  function RunPasses(s: State, passes: seq<Pass>, budget: real): State {
    if passes == [] then s else RunPass(RunPasses(s, passes[..|passes| - 1], budget), passes[|passes| - 1], budget)
  }

  // ---- the object ------------------------------------------------------------------------

  class LinuxProber {
    const budget: real
    var clock: real
    var passDeadline: Option<real>
    var rttFloor: map<Id, real>
    var last: map<Id, Counters>
    var pings: seq<Ping>

    ghost function Value(): State
      reads this
    {
      State(clock, passDeadline, rttFloor, last, pings)
    }

    constructor (budget: real, clock: real)
      ensures Value() == New(clock) && this.budget == budget
    {
      this.budget, this.clock := budget, clock;
      passDeadline, rttFloor, last, pings := None, map[], map[], [];
    }

    method StartPass(now: real)
      modifies this`passDeadline
      ensures Value() == BeginPass(old(Value()), now, budget)
    {
      passDeadline := Some(now + budget);
    }

    method BudgetExhausted() returns (r: bool)
      ensures r == Exhausted(Value())
    {
      r := passDeadline.Some? && clock >= passDeadline.value;
    }

    method ObservePassively(look: Look) returns (r: Option<Belief.Observation>)
      requires look.atomic.Addressed()
      modifies this`clock, this`last
      ensures r == Passive(old(last), look, old(clock) + look.delay)
      ensures clock == old(clock) + look.delay + look.reading
      ensures last == old(last)[look.atomic.id := Counters(old(clock) + look.delay, look.rx, look.tx, look.drops)]
    {
      clock := clock + look.delay;
      var now := clock;
      var previous := if look.atomic.id in last then Some(last[look.atomic.id]) else None;
      last := last[look.atomic.id := Counters(now, look.rx, look.tx, look.drops)];
      clock := clock + look.reading;
      if previous.None? || now - previous.value.at <= 0.0 {
        return None;
      }
      var elapsed := now - previous.value.at;
      return Some(Belief.Observation(Throughput(previous.value.rx, look.rx, elapsed),
                                     Throughput(previous.value.tx, look.tx, elapsed),
                                     look.backlog > 0 || look.drops > previous.value.drops));
    }

    /** Ping the targets in turn until one gives a round trip or the budget is spent. */
    method ActiveProbe(look: Look) returns (r: Option<PingResult>)
      modifies this`clock, this`pings
      ensures Value() == Try(old(Value()), look, |TARGETS|).s
      ensures r == Try(old(Value()), look, |TARGETS|).kept
    {
      ghost var s := Value();
      r := None;
      for i := 0 to |TARGETS|
        invariant Trying(Value(), r, true) == Try(s, look, i)
      {
        if i > 0 {
          clock := clock + look.reply(i).delay;
          var spent := BudgetExhausted();
          if spent {
            StaysClosed(s, look, i + 1, |TARGETS|);
            break;
          }
        }
        var a := look.reply(i);
        pings := pings + [Ping(look.atomic, TARGETS[i], clock, a.took, a.parsed)];
        clock := clock + a.took;
        if a.parsed.Some? {
          r := a.parsed;
          if a.parsed.value.rttMs.Some? {
            StaysClosed(s, look, i + 1, |TARGETS|);
            break;
          }
        }
      }
    }

    method FoldRttFloor(id: Id, rtt: Option<real>) returns (bloat: Option<real>)
      modifies this`rttFloor
      ensures rtt.None? ==> bloat.None? && rttFloor == old(rttFloor)
      ensures rtt.Some? ==> rttFloor == old(rttFloor)[id := Floor(old(rttFloor), id, rtt.value)]
      ensures rtt.Some? ==> bloat == Some(rtt.value - rttFloor[id])
    {
      if rtt.None? {
        return None;
      }
      var floor := if id in rttFloor && rttFloor[id] <= rtt.value then rttFloor[id] else rtt.value;
      rttFloor := rttFloor[id := floor];
      return Some(if rtt.value - floor > 0.0 then rtt.value - floor else 0.0);
    }

    method ObserveOne(look: Look) returns (r: Option<Reading>)
      modifies this
      ensures (Value(), r) == Observe(old(Value()), look)
    {
      if !look.atomic.Addressed() {
        return None;
      }
      var passive := ObservePassively(look);
      if passive.None? {
        return None;
      }
      r := Some(Reading(passive.value, None, None, None, None));
      if !look.atomic.mode.Normal? {
        return;
      }
      var spent := BudgetExhausted();
      if spent {
        return;
      }
      TryKeepsRest(Value(), look, |TARGETS|);
      var result := ActiveProbe(look);
      if result.None? {
        return;
      }
      var bloat := FoldRttFloor(look.atomic.id, result.value.rttMs);
      return Some(Reading(passive.value, result.value.rttMs, result.value.jitterMs, Some(result.value.lossPct), bloat));
    }

    method MeasureAll(looks: seq<Look>, now: real) returns (readings: seq<Option<Reading>>)
      modifies this
      ensures Value() == RunPass(old(Value()), Pass(now, looks), budget)
      ensures readings == Readings(BeginPass(old(Value()), now, budget), looks)
    {
      StartPass(now);
      ghost var s := Value();
      readings := [];
      for i := 0 to |looks|
        invariant Value() == Sweep(s, looks[..i]) && readings == Readings(s, looks[..i])
      {
        SweepSnoc(s, looks, i);
        var r := ObserveOne(looks[i]);
        readings := readings + [r];
      }
      assert looks[..|looks|] == looks;
    }
  }

  /** What a sweep reports, connection by connection. */
  function Readings(s: State, looks: seq<Look>): seq<Option<Reading>> {
    if looks == [] then []
    else Readings(s, looks[..|looks| - 1]) + [Observe(Sweep(s, looks[..|looks| - 1]), looks[|looks| - 1]).1]
  }

  lemma SweepSnoc(s: State, looks: seq<Look>, i: nat)
    requires i < |looks|
    ensures Sweep(s, looks[..i + 1]) == Observe(Sweep(s, looks[..i]), looks[i]).0
    ensures Readings(s, looks[..i + 1]) == Readings(s, looks[..i]) + [Observe(Sweep(s, looks[..i]), looks[i]).1]
  {
    assert looks[..i + 1][..i] == looks[..i];
  }

  lemma {:induction false} StaysClosed(s: State, look: Look, m: nat, n: nat)
    requires m <= n <= |TARGETS| && !Try(s, look, m).open
    ensures Try(s, look, n) == Try(s, look, m)
    decreases n
  {
    if m < n {
      StaysClosed(s, look, m, n - 1);
    }
  }

  lemma {:induction false} TryKeepsRest(s: State, look: Look, n: nat)
    requires n <= |TARGETS|
    ensures var t := Try(s, look, n).s; t.deadline == s.deadline && t.floors == s.floors && t.last == s.last
  {
    if n > 0 {
      TryKeepsRest(s, look, n - 1);
    }
  }

  // ---- one look, in full ------------------------------------------------------------------

  /** When the counters are read and when a ping could start. */
  ghost function ReadAt(s: State, look: Look): real {
    s.clock + look.delay
  }

  ghost function PingAt(s: State, look: Look): real {
    s.clock + look.delay + look.reading
  }

  /** There is an interface to read, and an earlier reading to compare with. */
  ghost predicate Comparable(s: State, look: Look) {
    && look.atomic.ifname != None && look.atomic.ifname != Some("")
    && look.atomic.id in s.last && s.last[look.atomic.id].at < ReadAt(s, look)
  }

  /** Eight bits a byte over the time between two readings, rounded down; nothing if the counter
      did not grow. */
  ghost predicate RateIs(before: nat, after: nat, elapsed: real, bps: nat) {
    if after <= before then bps == 0
    else bps as real * elapsed <= 8.0 * (after - before) as real < (bps + 1) as real * elapsed
  }

  /** Received bytes are downloads and sent bytes uploads, and the link was full if its queue
      held something or dropped something since. */
  ghost predicate FlowIs(before: Counters, look: Look, now: real, flow: Belief.Observation) {
    && now > before.at
    && RateIs(before.rx, look.rx, now - before.at, flow.downBps)
    && RateIs(before.tx, look.tx, now - before.at, flow.upBps)
    && (flow.saturated <==> look.backlog > 0 || look.drops > before.drops)
  }

  /** A look reports if there is something to compare with, and every look at an interface
      leaves its counters for the next one. */
  lemma LookReads(s: State, look: Look)
    ensures var (s', r) := Observe(s, look);
            && (r.Some? <==> Comparable(s, look))
            && (r.Some? ==> FlowIs(s.last[look.atomic.id], look, ReadAt(s, look), r.value.flow))
            && s'.last == (if look.atomic.ifname == None || look.atomic.ifname == Some("") then s.last
                           else s.last[look.atomic.id := Counters(ReadAt(s, look), look.rx, look.tx, look.drops)])
  {
    TryKeepsRest(AfterReading(s, look), look, |TARGETS|);
    if Comparable(s, look) {
      var before, now := s.last[look.atomic.id], ReadAt(s, look);
      RateOf(before.rx, look.rx, now - before.at);
      RateOf(before.tx, look.tx, now - before.at);
    }
  }

  ghost function AfterReading(s: State, look: Look): State {
    s.(clock := PingAt(s, look),
       last := s.last[look.atomic.id := Counters(ReadAt(s, look), look.rx, look.tx, look.drops)])
  }

  lemma RateOf(before: nat, after: nat, elapsed: real)
    requires elapsed > 0.0
    ensures RateIs(before, after, elapsed, Throughput(before, after, elapsed))
  {
    var bps := Throughput(before, after, elapsed);
    assert (bps + 1) as real * elapsed == bps as real * elapsed + elapsed;
    if after <= before && bps > 0 {
      NoLess(bps as real, elapsed);
    }
  }

  lemma NoLess(n: real, x: real)
    requires n >= 1.0 && x > 0.0
    ensures n * x >= x
  {
  }

  /** The connection may be pinged in this look. */
  ghost predicate MayPing(s: State, look: Look) {
    && Comparable(s, look) && look.atomic.mode == Normal
    && (s.deadline == None || PingAt(s, look) < s.deadline.value)
  }

  ghost predicate GaveRtt(a: Attempt) {
    a.parsed != None && a.parsed.value.rttMs != None
  }

  ghost function SecondAt(s: State, look: Look): real {
    PingAt(s, look) + look.reply(0).took + look.reply(1).delay
  }

  /** The second target is tried if the first gave no round trip and there is still time. */
  ghost predicate TriesSecond(s: State, look: Look) {
    !GaveRtt(look.reply(0)) && (s.deadline == None || SecondAt(s, look) < s.deadline.value)
  }

  /** What a look pings: nothing unless it may; then 1.1.1.1 at once and, if that is tried,
      8.8.8.8 after it. */
  lemma LookPings(s: State, look: Look)
    ensures var s', first, second := Observe(s, look).0, look.reply(0), look.reply(1);
            && (!MayPing(s, look) ==> s'.pings == s.pings)
            && (MayPing(s, look) ==>
                  s'.pings == s.pings + [Ping(look.atomic, "1.1.1.1", PingAt(s, look), first.took, first.parsed)]
                    + (if TriesSecond(s, look)
                       then [Ping(look.atomic, "8.8.8.8", SecondAt(s, look), second.took, second.parsed)] else []))
  {
    if MayPing(s, look) {
      BothTargets(AfterReading(s, look), look);
      assert s.pings + [Ping(look.atomic, "1.1.1.1", PingAt(s, look), look.reply(0).took, look.reply(0).parsed)] + []
          == s.pings + [Ping(look.atomic, "1.1.1.1", PingAt(s, look), look.reply(0).took, look.reply(0).parsed)];
    }
  }

  /** The two rounds of the target loop written out. */
  lemma BothTargets(s: State, look: Look)
    ensures var t, a, b := Try(s, look, 2), look.reply(0), look.reply(1);
            var again := s.clock + a.took + b.delay;
            var second := !GaveRtt(a) && (s.deadline == None || again < s.deadline.value);
            && t.s.pings == s.pings + [Ping(look.atomic, "1.1.1.1", s.clock, a.took, a.parsed)]
                 + (if second then [Ping(look.atomic, "8.8.8.8", again, b.took, b.parsed)] else [])
            && t.kept == (if second && b.parsed != None then b.parsed else a.parsed)
  {
    assert Try(s, look, 0) == Trying(s, None, true);
    assert Try(s, look, 1) == TryTarget(Try(s, look, 0), look, 0);
    assert Try(s, look, 2) == TryTarget(Try(s, look, 1), look, 1);
  }

  /** What a probing goes by: the second answer if it was asked for and could be read, and
      otherwise the first. */
  ghost function Kept(s: State, look: Look): Option<PingResult> {
    if TriesSecond(s, look) && look.reply(1).parsed != None then look.reply(1).parsed else look.reply(0).parsed
  }

  /** A look's round trip, jitter and loss are those of the answer kept; what the queue adds is
      the round trip above the lowest one known, which it becomes if it is lower. */
  lemma LookJudges(s: State, look: Look)
    requires Comparable(s, look)
    ensures var (s', r) := Observe(s, look);
            var kept := if MayPing(s, look) then Kept(s, look) else None;
            var rtt := if kept == None then None else kept.value.rttMs;
            var id := look.atomic.id;
            && r.Some? && r.value.rttMs == rtt
            && r.value.jitterMs == (if kept == None then None else kept.value.jitterMs)
            && r.value.lossPct == (if kept == None then None else Some(kept.value.lossPct))
            && (rtt == None ==> r.value.bloatMs == None && s'.floors == s.floors)
            && (rtt != None ==>
                  && id in s'.floors && s'.floors == s.floors[id := s'.floors[id]]
                  && s'.floors[id] <= rtt.value && (id in s.floors ==> s'.floors[id] <= s.floors[id])
                  && (s'.floors[id] == rtt.value || (id in s.floors && s'.floors[id] == s.floors[id]))
                  && r.value.bloatMs == Some(rtt.value - s'.floors[id]))
  {
    if MayPing(s, look) {
      BothTargets(AfterReading(s, look), look);
      TryKeepsRest(AfterReading(s, look), look, |TARGETS|);
    }
  }

  // ---- the time budget ---------------------------------------------------------------------

  predicate Plausible(look: Look, timeout: real) {
    && look.delay >= 0.0 && look.reading >= 0.0
    && PlausibleAttempt(look.reply(0), timeout) && PlausibleAttempt(look.reply(1), timeout)
  }

  predicate PlausibleAttempt(a: Attempt, timeout: real) {
    a.delay >= 0.0 && 0.0 <= a.took <= timeout
  }

  predicate AllPlausible(looks: seq<Look>, timeout: real) {
    forall i :: 0 <= i < |looks| ==> Plausible(looks[i], timeout)
  }

  /** Pings that ran one after another between `from` and `clock`, each started before
      the deadline and none longer than the timeout. */
  ghost predicate Paced(pings: seq<Ping>, from: real, deadline: real, timeout: real, clock: real) {
    if pings == [] then from <= clock
    else
      var p := pings[|pings| - 1];
      p.at < deadline && 0.0 <= p.took <= timeout && p.at
         + p.took <= clock && Paced(pings[..|pings| - 1], from, deadline, timeout, p.at)
  }

  lemma PacedSnoc(pings: seq<Ping>, p: Ping, from: real, deadline: real, timeout: real)
    requires Paced(pings, from, deadline, timeout, p.at) && p.at < deadline && 0.0 <= p.took <= timeout
    ensures Paced(pings + [p], from, deadline, timeout, p.at + p.took)
  {
    assert (pings + [p])[..|pings|] == pings;
  }

  lemma PacedLater(pings: seq<Ping>, from: real, deadline: real, timeout: real, clock: real, clock': real)
    requires Paced(pings, from, deadline, timeout, clock) && clock <= clock'
    ensures Paced(pings, from, deadline, timeout, clock')
  {
  }

  /** The state is inside a pass that began at `from` with `old` pings already made. */
  ghost predicate InPass(s: State, earlier: seq<Ping>, from: real, deadline: real, timeout: real) {
    && s.deadline == Some(deadline)
    && earlier <= s.pings
    && Paced(s.pings[|earlier|..], from, deadline, timeout, s.clock)
  }

  lemma MorePaced(s: State, p: Ping, earlier: seq<Ping>, from: real, deadline: real, timeout: real)
    requires InPass(s, earlier, from, deadline, timeout)
    requires s.clock <= p.at < deadline && 0.0 <= p.took <= timeout
    ensures InPass(s.(clock := p.at + p.took, pings := s.pings + [p]), earlier, from, deadline, timeout)
  {
    PacedLater(s.pings[|earlier|..], from, deadline, timeout, s.clock, p.at);
    PacedSnoc(s.pings[|earlier|..], p, from, deadline, timeout);
    assert (s.pings + [p])[|earlier|..] == s.pings[|earlier|..] + [p];
  }

  lemma {:induction false} TryStaysInPass(s: State, look: Look, n: nat, earlier: seq<Ping>, from: real, deadline: real,
                                          timeout: real)
    requires n <= |TARGETS| && InPass(s, earlier, from, deadline, timeout) && !Exhausted(s) && Plausible(look, timeout)
    ensures InPass(Try(s, look, n).s, earlier, from, deadline, timeout)
  {
    if n > 0 {
      TryStaysInPass(s, look, n - 1, earlier, from, deadline, timeout);
      assert n == 1 ==> Try(s, look, n - 1) == Trying(s, None, true);
      TargetStaysInPass(Try(s, look, n - 1), look, n - 1, earlier, from, deadline, timeout);
    }
  }

  lemma TargetStaysInPass(t: Trying, look: Look, i: nat, earlier: seq<Ping>, from: real, deadline: real, timeout: real)
    requires i < |TARGETS| && InPass(t.s, earlier, from, deadline, timeout) && Plausible(look, timeout)
    requires i == 0 ==> !Exhausted(t.s)
    ensures InPass(TryTarget(t, look, i).s, earlier, from, deadline, timeout)
  {
    if t.open {
      var a := look.reply(i);
      var at := if i == 0 then t.s.clock else t.s.clock + a.delay;
      if i > 0 && at >= deadline {
        PacedLater(t.s.pings[|earlier|..], from, deadline, timeout, t.s.clock, at);
      } else {
        MorePaced(t.s, Ping(look.atomic, TARGETS[i], at, a.took, a.parsed), earlier, from, deadline, timeout);
      }
    }
  }

  lemma ObserveStaysInPass(s: State, look: Look, earlier: seq<Ping>, from: real, deadline: real, timeout: real)
    requires InPass(s, earlier, from, deadline, timeout) && Plausible(look, timeout)
    ensures InPass(Observe(s, look).0, earlier, from, deadline, timeout)
  {
    if look.atomic.Addressed() {
      var now := s.clock + look.delay;
      var s' := s.(clock := now + look.reading,
                   last := s.last[look.atomic.id := Counters(now, look.rx, look.tx, look.drops)]);
      PacedLater(s.pings[|earlier|..], from, deadline, timeout, s.clock, s'.clock);
      if !Exhausted(s') {
        TryStaysInPass(s', look, |TARGETS|, earlier, from, deadline, timeout);
      }
    }
  }

  lemma {:induction false} SweepStaysInPass(s: State, looks: seq<Look>, earlier: seq<Ping>, from: real, deadline: real,
                                            timeout: real)
    requires InPass(s, earlier, from, deadline, timeout) && AllPlausible(looks, timeout)
    ensures InPass(Sweep(s, looks), earlier, from, deadline, timeout)
  {
    if looks != [] {
      SweepStaysInPass(s, looks[..|looks| - 1], earlier, from, deadline, timeout);
      ObserveStaysInPass(Sweep(s, looks[..|looks| - 1]), looks[|looks| - 1], earlier, from, deadline, timeout);
    }
  }

  /** Seconds spent waiting for pings. */
  function Blocked(pings: seq<Ping>): real {
    if pings == [] then 0.0 else Blocked(pings[..|pings| - 1]) + pings[|pings| - 1].took
  }

  lemma {:induction false} PacedBlocks(pings: seq<Ping>, from: real, deadline: real, timeout: real, clock: real)
    requires Paced(pings, from, deadline, timeout, clock)
    ensures Blocked(pings) <= clock - from
    ensures pings != [] ==> Blocked(pings) < deadline + timeout - from
    ensures forall p :: p in pings ==> from <= p.at < deadline
  {
    if pings != [] {
      PacedBlocks(pings[..|pings| - 1], from, deadline, timeout, pings[|pings| - 1].at);
      assert Blocked(pings[..|pings| - 1]) >= 0.0 by { BlockedNonNegative(pings[..|pings| - 1], from, deadline,
                                                                          timeout, pings[|pings| - 1].at); }
    }
  }

  lemma {:induction false} BlockedNonNegative(pings: seq<Ping>, from: real, deadline: real, timeout: real, clock: real)
    requires Paced(pings, from, deadline, timeout, clock)
    ensures Blocked(pings) >= 0.0
  {
    if pings != [] {
      BlockedNonNegative(pings[..|pings| - 1], from, deadline, timeout, pings[|pings| - 1].at);
    }
  }

  /** However many connections there are and however slow the pings, a pass starts none
      at or after its deadline, and waits for less than the budget plus one timeout. */
  lemma PassIsBounded(s: State, p: Pass, budget: real, timeout: real)
    requires p.startedAt <= s.clock && AllPlausible(p.looks, timeout) && budget >= 0.0 && timeout > 0.0
    ensures s.pings <= RunPass(s, p, budget).pings
    ensures var made := RunPass(s, p, budget).pings[|s.pings|..];
            && Blocked(made) < budget + timeout
            && forall q :: q in made ==> p.startedAt <= q.at < p.startedAt + budget
  {
    var begun := BeginPass(s, p.startedAt, budget);
    assert s.pings[|s.pings|..] == [];
    SweepStaysInPass(begun, p.looks, s.pings, p.startedAt, p.startedAt + budget, timeout);
    var end := RunPass(s, p, budget);
    PacedBlocks(end.pings[|s.pings|..], p.startedAt, p.startedAt + budget, timeout, end.clock);
  }

  // ---- the bound is the best there is --------------------------------------------------------

  /** A connection whose first target answers after `took` seconds, with nothing else taking time. */
  function AnsweredIn(a: Atomic, took: real): Look {
    Look(a, 0.0, 0, 0, 0, 0, 0.0, (i: nat) => Attempt(0.0, took, Some(PingResult(0.0, Some(1.0), Some(0.0)))))
  }

  /** Each connection but the last takes `each`, the last takes `longest`. */
  function Queue(atoms: seq<Atomic>, each: real, longest: real): (looks: seq<Look>)
    ensures |looks| == |atoms|
  {
    seq(|atoms|, i requires 0 <= i < |atoms| => AnsweredIn(atoms[i], if i == |atoms| - 1 then longest else each))
  }

  /** Known connections that may be pinged: distinct, NORMAL, with an interface and an
      earlier reading of their counters. */
  ghost predicate Pingable(s: State, atoms: seq<Atomic>) {
    && DistinctIds(atoms)
    && (forall i :: 0 <= i < |atoms| ==> atoms[i].Addressed() && atoms[i].mode.Normal?)
    && (forall i :: 0 <= i < |atoms| ==> atoms[i].id in s.last && s.last[atoms[i].id].at < s.clock)
  }

  lemma AnsweredTakesOnePing(s: State, a: Atomic, took: real)
    requires a.Addressed() && a.mode.Normal? && a.id in s.last && s.last[a.id].at < s.clock && !Exhausted(s)
    ensures var s' := Observe(s, AnsweredIn(a, took)).0;
            && s'.clock == s.clock + took && s'.deadline == s.deadline
            && s'.last == s.last[a.id := Counters(s.clock, 0, 0, 0)]
            && exists p: Ping :: p.took == took && s'.pings == s.pings + [p]
  {
    var look := AnsweredIn(a, took);
    var s1 := s.(last := s.last[a.id := Counters(s.clock, 0, 0, 0)]);
    var p := Ping(a, TARGETS[0], s.clock, took, look.reply(0).parsed);
    assert Try(s1, look, 0) == Trying(s1, None, true);
    assert Try(s1, look, 1) == Trying(s1.(clock := s.clock + took, pings := s.pings + [p]), p.parsed, false);
    assert Try(s1, look, 2) == Try(s1, look, 1);
    assert Observe(s, look).0.pings == s.pings + [p];
  }

  /** How far a queue has got: so much time spent, all of it waiting for pings. */
  ghost predicate Waited(s: State, now: State, spent: real) {
    && now.clock == s.clock + spent && now.deadline == s.deadline
    && s.pings <= now.pings && Blocked(now.pings[|s.pings|..]) == spent
  }

  lemma WaitedMore(s: State, now: State, after: State, spent: real, took: real)
    requires Waited(s, now, spent) && after.clock == now.clock + took && after.deadline == now.deadline
    requires exists p: Ping :: p.took == took && after.pings == now.pings + [p]
    ensures Waited(s, after, spent + took)
  {
    var p: Ping :| p.took == took && after.pings == now.pings + [p];
    var made, more := now.pings[|s.pings|..], after.pings[|s.pings|..];
    assert more == made + [p] && more[..|made|] == made;
  }

  lemma {:induction false} QueueWaits(s: State, atoms: seq<Atomic>, each: real, longest: real, k: nat)
    requires Pingable(s, atoms) && s.deadline.Some? && each >= 0.0 && k < |atoms|
    requires s.clock + Times(|atoms| - 1, each) < s.deadline.value
    ensures var now := Sweep(s, Queue(atoms, each, longest)[..k]);
            && Waited(s, now, Times(k, each))
            && forall i :: k <= i < |atoms| ==> atoms[i].id in now.last && now.last[atoms[i].id] == s.last[atoms[i].id]
  {
    var looks := Queue(atoms, each, longest);
    if k == 0 {
      assert s.pings[|s.pings|..] == [];
    } else {
      QueueWaits(s, atoms, each, longest, k - 1);
      var now := Sweep(s, looks[..k - 1]);
      assert looks[..k][..k - 1] == looks[..k - 1];
      TimesGrows(k - 1, |atoms| - 1, each);
      TimesGrows(0, k - 1, each);
      AnsweredTakesOnePing(now, atoms[k - 1], each);
      WaitedMore(s, now, Sweep(s, looks[..k]), Times(k - 1, each), each);
    }
  }

  lemma {:induction false} TimesGrows(m: nat, n: nat, x: real)
    requires m <= n && x >= 0.0
    ensures Times(m, x) <= Times(n, x)
  {
    if m < n {
      TimesGrows(m, n - 1, x);
    }
  }

  /** No smaller bound holds: with enough connections a pass comes as close to budget plus
      timeout as one likes, whatever the budget. */
  lemma BoundIsTight(s: State, atoms: seq<Atomic>, budget: real, timeout: real, sliver: real, each: real)
    requires Pingable(s, atoms) && |atoms| > 0 && sliver > 0.0
    requires 0.0 <= each <= timeout && Times(|atoms| - 1, each) == budget - sliver
    ensures var p := Pass(s.clock, Queue(atoms, each, timeout));
            && AllPlausible(p.looks, timeout)
            && s.pings <= RunPass(s, p, budget).pings
            && Blocked(RunPass(s, p, budget).pings[|s.pings|..]) == budget + timeout - sliver
  {
    TimesGrows(0, |atoms| - 1, each);
    WholeQueueWaits(BeginPass(s, s.clock, budget), atoms, each, timeout);
    QueueIsPlausible(atoms, each, timeout);
  }

  lemma QueueIsPlausible(atoms: seq<Atomic>, each: real, timeout: real)
    requires 0.0 <= each <= timeout
    ensures AllPlausible(Queue(atoms, each, timeout), timeout)
  {
  }

  lemma WholeQueueWaits(s: State, atoms: seq<Atomic>, each: real, longest: real)
    requires Pingable(s, atoms) && s.deadline.Some? && each >= 0.0 && |atoms| > 0
    requires s.clock + Times(|atoms| - 1, each) < s.deadline.value
    ensures Waited(s, Sweep(s, Queue(atoms, each, longest)), Times(|atoms| - 1, each) + longest)
  {
    var looks, m := Queue(atoms, each, longest), |atoms| - 1;
    QueueWaits(s, atoms, each, longest, m);
    TimesGrows(0, m, each);
    var now := Sweep(s, looks[..m]);
    assert now.clock == s.clock + Times(m, each) && s.last[atoms[m].id].at < s.clock;
    AnsweredTakesOnePing(now, atoms[m], longest);
    SweepSnoc(s, looks, m);
    assert looks[..m + 1] == looks;
    WaitedMore(s, now, Sweep(s, looks), Times(m, each), longest);
  }

  /** How many connections that takes, for any budget and timeout. */
  lemma EnoughConnections(budget: real, timeout: real, sliver: real) returns (m: nat, each: real)
    requires 0.0 < sliver <= budget && timeout > 0.0
    ensures 0.0 <= each <= timeout && Times(m, each) == budget - sliver
  {
    FloorOfQuotient(budget, timeout);
    m := (budget / timeout).Floor + 1;
    each := (budget - sliver) / m as real;
    TimesIsProduct(m, each);
    Shares(budget, timeout, sliver, (budget / timeout).Floor, each);
  }

  lemma Shares(budget: real, timeout: real, sliver: real, whole: nat, each: real)
    requires 0.0 < sliver <= budget && timeout > 0.0 && budget - whole as real * timeout < timeout
    requires each == (budget - sliver) / (whole + 1) as real
    ensures 0.0 <= each <= timeout && (whole + 1) as real * each == budget - sliver
  {
    var m := (whole + 1) as real;
    assert m * each == budget - sliver;
    assert m * timeout == whole as real * timeout + timeout;
    CancelFactor(m, each, timeout);
    CancelFactor(m, 0.0, each);
  }

  lemma CancelFactor(m: real, x: real, y: real)
    requires m > 0.0 && m * x <= m * y
    ensures x <= y
  {
  }

  // ---- who gets pinged, exactly ------------------------------------------------------------------

  /** A connection is pinged when its turn comes: it has an interface and is NORMAL, its
      counters were read before, and the clock will not have reached the deadline. */
  predicate CanPing(s: State, look: Look) {
    && look.atomic.Addressed() && look.atomic.mode.Normal?
    && look.atomic.id in s.last && s.last[look.atomic.id].at < s.clock + look.delay
    && (s.deadline.Some? ==> s.clock + look.delay + look.reading < s.deadline.value)
  }

  /** How often a connection has been pinged. */
  function PingsOf(pings: seq<Ping>, id: Id): nat {
    if pings == [] then 0 else PingsOf(pings[..|pings| - 1], id) + (if pings[|pings| - 1].atomic.id == id then 1 else 0)
  }

  lemma PingsOfSnoc(pings: seq<Ping>, p: Ping, id: Id)
    ensures PingsOf(pings + [p], id) == PingsOf(pings, id) + (if p.atomic.id == id then 1 else 0)
  {
    assert (pings + [p])[..|pings|] == pings;
  }

  /** After considering n targets: only the connection looked at has been pinged, and it has
      been if there was a target at all. */
  ghost predicate Counted(before: nat, t: Trying, look: Look, n: nat, id: Id) {
    && (look.atomic.id != id ==> PingsOf(t.s.pings, id) == before)
    && (look.atomic.id == id && n > 0 ==> PingsOf(t.s.pings, id) > before)
    && PingsOf(t.s.pings, id) >= before
    && (n == 0 ==> t.open)
  }

  lemma TargetCounts(before: nat, t: Trying, look: Look, i: nat, id: Id)
    requires i < |TARGETS| && Counted(before, t, look, i, id)
    ensures Counted(before, TryTarget(t, look, i), look, i + 1, id)
  {
    if t.open {
      var a := look.reply(i);
      var at := if i == 0 then t.s.clock else t.s.clock + a.delay;
      PingsOfSnoc(t.s.pings, Ping(look.atomic, TARGETS[i], at, a.took, a.parsed), id);
    }
  }

  lemma {:induction false} TryPings(s: State, look: Look, n: nat, id: Id)
    requires n <= |TARGETS|
    ensures Counted(PingsOf(s.pings, id), Try(s, look, n), look, n, id)
  {
    if n == 0 {
      assert Try(s, look, n) == Trying(s, None, true);
    } else {
      TryPings(s, look, n - 1, id);
      TargetCounts(PingsOf(s.pings, id), Try(s, look, n - 1), look, n - 1, id);
    }
  }

  /** One turn pings exactly the connection looked at, and exactly if it can be. */
  lemma PingedIff(s: State, look: Look, id: Id)
    ensures PingsOf(Observe(s, look).0.pings, id) >= PingsOf(s.pings, id)
    ensures PingsOf(Observe(s, look).0.pings, id) > PingsOf(s.pings, id) <==> look.atomic.id == id && CanPing(s, look)
  {
    if look.atomic.Addressed() {
      var now := s.clock + look.delay;
      var s' := s.(clock := now + look.reading,
                   last := s.last[look.atomic.id := Counters(now, look.rx, look.tx, look.drops)]);
      TryPings(s', look, |TARGETS|, id);
    }
  }

  /** At none of its turns can the connection be pinged. */
  ghost predicate NeverInSweep(s: State, looks: seq<Look>, id: Id) {
    looks == [] ||
    (var before, look := looks[..|looks| - 1], looks[|looks| - 1];
     NeverInSweep(s, before, id) && !(look.atomic.id == id && CanPing(Sweep(s, before), look)))
  }

  ghost predicate NeverItsTurn(s: State, passes: seq<Pass>, id: Id, budget: real) {
    passes == [] ||
    (var before, p := passes[..|passes| - 1], passes[|passes| - 1];
     NeverItsTurn(s, before, id, budget)
        && NeverInSweep(BeginPass(RunPasses(s, before, budget), p.startedAt, budget), p.looks, id))
  }

  lemma {:induction false} SweptIff(s: State, looks: seq<Look>, id: Id)
    ensures PingsOf(Sweep(s, looks).pings, id) >= PingsOf(s.pings, id)
    ensures PingsOf(Sweep(s, looks).pings, id) == PingsOf(s.pings, id) <==> NeverInSweep(s, looks, id)
  {
    if |looks| > 0 {
      SweptIff(s, looks[..|looks| - 1], id);
      PingedIff(Sweep(s, looks[..|looks| - 1]), looks[|looks| - 1], id);
    }
  }

  /** Over any run of passes a connection is not pinged if and only if at every one of its
      turns it could not be: no pass owes it anything for having been passed over. */
  lemma {:induction false} StarvedIff(s: State, passes: seq<Pass>, id: Id, budget: real)
    ensures PingsOf(RunPasses(s, passes, budget).pings, id) >= PingsOf(s.pings, id)
    ensures PingsOf(RunPasses(s, passes, budget).pings, id) == PingsOf(s.pings, id)
            <==> NeverItsTurn(s, passes, id, budget)
  {
    if |passes| > 0 {
      var before, p := passes[..|passes| - 1], passes[|passes| - 1];
      StarvedIff(s, before, id, budget);
      SweptIff(BeginPass(RunPasses(s, before, budget), p.startedAt, budget), p.looks, id);
    }
  }

  predicate Pinged(before: State, after: State, id: Id) {
    PingsOf(after.pings, id) > PingsOf(before.pings, id)
  }

  predicate ReadyBy(turn: State, look: Look, deadline: real) {
    && look.atomic.Addressed() && look.atomic.mode.Normal?
    && look.atomic.id in turn.last && turn.last[look.atomic.id].at < turn.clock + look.delay
    && turn.clock + look.delay + look.reading < deadline
  }

  /** In one pass: look i is pinged exactly if it has an interface, is NORMAL, has an earlier
      reading, and the clock at its turn plus its own delays is before start plus budget. */
  lemma PingedInPassIff(s: State, p: Pass, i: nat, budget: real)
    requires i < |p.looks|
    ensures var begun, look := BeginPass(s, p.startedAt, budget), p.looks[i];
            var turn, after := Sweep(begun, p.looks[..i]), Sweep(begun, p.looks[..i + 1]);
            Pinged(turn, after, look.atomic.id) <==> ReadyBy(turn, look, p.startedAt + budget)
  {
    var begun := BeginPass(s, p.startedAt, budget);
    assert p.looks[..i + 1][..i] == p.looks[..i];
    DeadlineStays(begun, p.looks[..i]);
    PingedIff(Sweep(begun, p.looks[..i]), p.looks[i], p.looks[i].atomic.id);
  }

  lemma {:induction false} DeadlineStays(s: State, looks: seq<Look>)
    ensures Sweep(s, looks).deadline == s.deadline
  {
    if |looks| > 0 {
      DeadlineStays(s, looks[..|looks| - 1]);
      ObserveKeepsDeadline(Sweep(s, looks[..|looks| - 1]), looks[|looks| - 1]);
    }
  }

  lemma ObserveKeepsDeadline(s: State, look: Look)
    ensures Observe(s, look).0.deadline == s.deadline
  {
    var now := s.clock + look.delay;
    TryKeepsRest(s.(clock := now + look.reading,
                    last := s.last[look.atomic.id := Counters(now, look.rx, look.tx, look.drops)]), look, |TARGETS|);
  }

  // ---- and who starves ---------------------------------------------------------------------------

  /** Once the budget is spent no other connection is pinged in that pass. */
  lemma {:induction false} SpentPassIsQuiet(s: State, looks: seq<Look>, timeout: real)
    requires Exhausted(s) && AllPlausible(looks, timeout)
    ensures Sweep(s, looks).pings == s.pings && Exhausted(Sweep(s, looks))
  {
    if looks != [] {
      SpentPassIsQuiet(s, looks[..|looks| - 1], timeout);
    }
  }

  lemma {:induction false} SweepAppend(s: State, first: seq<Look>, rest: seq<Look>)
    ensures Sweep(s, first + rest) == Sweep(Sweep(s, first), rest)
  {
    if rest == [] {
      assert first + rest == first;
    } else {
      SweepAppend(s, first, rest[..|rest| - 1]);
      assert (first + rest)[..|first + rest| - 1] == first + rest[..|rest| - 1];
    }
  }

  /** The first connection of the pass can be pinged, and its first ping takes the whole budget. */
  predicate Hogged(s: State, p: Pass, budget: real) {
    && p.looks != [] && p.startedAt <= s.clock
    && CanPing(BeginPass(s, p.startedAt, budget), p.looks[0])
    && p.looks[0].reply(0).took >= budget
  }

  lemma HoggedProbe(s: State, look: Look, deadline: real, timeout: real)
    requires Plausible(look, timeout) && s.deadline == Some(deadline) && s.clock + look.reply(0).took >= deadline
    ensures Exhausted(Try(s, look, |TARGETS|).s)
  {
    assert Try(s, look, 0) == Trying(s, None, true);
    assert Exhausted(Try(s, look, 1).s);
  }

  lemma HoggedFirst(s: State, p: Pass, budget: real, timeout: real)
    requires Hogged(s, p, budget) && AllPlausible(p.looks, timeout)
    ensures Exhausted(Observe(BeginPass(s, p.startedAt, budget), p.looks[0]).0)
  {
    var begun, look := BeginPass(s, p.startedAt, budget), p.looks[0];
    var now := s.clock + look.delay;
    var s' := begun.(clock := now + look.reading,
                     last := s.last[look.atomic.id := Counters(now, look.rx, look.tx, look.drops)]);
    HoggedProbe(s', look, p.startedAt + budget, timeout);
    TryKeepsRest(s', look, |TARGETS|);
  }

  /** A slow first connection leaves the others of its pass unmeasured. */
  lemma SlowFirstStarvesTheRest(s: State, p: Pass, budget: real, timeout: real, id: Id)
    requires Hogged(s, p, budget) && AllPlausible(p.looks, timeout)
    ensures id != p.looks[0].atomic.id ==> PingsOf(RunPass(s, p, budget).pings, id) == PingsOf(s.pings, id)
    ensures id == p.looks[0].atomic.id ==> PingsOf(RunPass(s, p, budget).pings, id) > PingsOf(s.pings, id)
  {
    var begun := BeginPass(s, p.startedAt, budget);
    HoggedFirst(s, p, budget, timeout);
    var first, rest := [p.looks[0]], p.looks[1..];
    assert first + rest == p.looks && first[..0] == [];
    assert Sweep(begun, first) == Observe(begun, p.looks[0]).0;
    SweepAppend(begun, first, rest);
    SpentPassIsQuiet(Sweep(begun, first), rest, timeout);
    PingedIff(begun, p.looks[0], id);
  }

  ghost predicate AlwaysHogged(s: State, passes: seq<Pass>, id: Id, budget: real, timeout: real) {
    passes != [] ==>
      var before, p := passes[..|passes| - 1], passes[|passes| - 1];
      && AlwaysHogged(s, before, id, budget, timeout)
      && Hogged(RunPasses(s, before, budget), p, budget) && AllPlausible(p.looks, timeout) && p.looks[0].atomic.id == id
  }

  /** There is no turn-taking between passes: while one slow connection comes first, it is
      pinged in every pass and no other ever is, however many passes go by. */
  lemma {:induction false} StarvationHasNoEnd(s: State, passes: seq<Pass>, id: Id, other: Id, budget: real,
                                              timeout: real)
    requires AlwaysHogged(s, passes, id, budget, timeout) && other != id
    ensures PingsOf(RunPasses(s, passes, budget).pings, other) == PingsOf(s.pings, other)
    ensures PingsOf(RunPasses(s, passes, budget).pings, id) >= PingsOf(s.pings, id) + |passes|
  {
    if |passes| > 0 {
      var before, p := passes[..|passes| - 1], passes[|passes| - 1];
      StarvationHasNoEnd(s, before, id, other, budget, timeout);
      SlowFirstStarvesTheRest(RunPasses(s, before, budget), p, budget, timeout, id);
      SlowFirstStarvesTheRest(RunPasses(s, before, budget), p, budget, timeout, other);
    }
  }

  /** For instance two connections, both ready to be pinged, whose pings take the whole
      budget, looked at in the same order in pass after pass. */
  function TwoSlow(s: State, a: Atomic, b: Atomic, budget: real): Pass {
    Pass(s.clock, [AnsweredIn(a, budget), AnsweredIn(b, budget)])
  }

  function SlowRun(s: State, a: Atomic, b: Atomic, budget: real, n: nat): (passes: seq<Pass>)
    ensures |passes| == n
  {
    if n == 0 then []
    else
      var before := SlowRun(s, a, b, budget, n - 1);
      before + [TwoSlow(RunPasses(s, before, budget), a, b, budget)]
  }

  /** Both have an interface, are NORMAL and have been read before. */
  ghost predicate BothReady(s: State, a: Atomic, b: Atomic) {
    && a.Addressed() && a.mode.Normal? && b.Addressed() && b.mode.Normal? && a.id != b.id
    && a.id in s.last && s.last[a.id].at < s.clock && b.id in s.last && s.last[b.id].at <= s.clock
  }

  lemma TwoSlowPass(s: State, a: Atomic, b: Atomic, budget: real, timeout: real)
    requires BothReady(s, a, b) && 0.0 < budget <= timeout
    ensures var p := TwoSlow(s, a, b, budget);
            Hogged(s, p, budget) && AllPlausible(p.looks, timeout) && BothReady(RunPass(s, p, budget), a, b)
  {
    var p, begun := TwoSlow(s, a, b, budget), BeginPass(s, s.clock, budget);
    var mid := Observe(begun, p.looks[0]).0;
    AnsweredTakesOnePing(begun, a, budget);
    assert p.looks[..1] == [p.looks[0]] && p.looks[..1][..0] == [];
    assert Sweep(begun, p.looks[..1]) == mid;
    assert RunPass(s, p, budget) == Observe(mid, p.looks[1]).0;
    assert Exhausted(mid);
  }

  /** So for every n there is a run of n passes in which the second of two connections, ready
      every time, is never pinged. */
  lemma {:induction false} SecondConnectionStarves(s: State, a: Atomic, b: Atomic, budget: real, timeout: real, n: nat)
    requires BothReady(s, a, b) && 0.0 < budget <= timeout
    ensures var passes := SlowRun(s, a, b, budget, n);
            && AlwaysHogged(s, passes, a.id, budget, timeout)
            && BothReady(RunPasses(s, passes, budget), a, b)
            && PingsOf(RunPasses(s, passes, budget).pings, b.id) == PingsOf(s.pings, b.id)
            && PingsOf(RunPasses(s, passes, budget).pings, a.id) >= PingsOf(s.pings, a.id) + n
  {
    var passes := SlowRun(s, a, b, budget, n);
    if n > 0 {
      var before := SlowRun(s, a, b, budget, n - 1);
      SecondConnectionStarves(s, a, b, budget, timeout, n - 1);
      assert passes[..n - 1] == before;
      TwoSlowPass(RunPasses(s, before, budget), a, b, budget, timeout);
    }
    StarvationHasNoEnd(s, passes, a.id, b.id, budget, timeout);
  }

  // ---- who is pinged, and the round-trip floor -----------------------------------------------------

  /** The lowest round trip among the pings of one connection. */
  function Lowest(pings: seq<Ping>, id: Id): Option<real> {
    if pings == [] then None
    else
      var before, p := Lowest(pings[..|pings| - 1], id), pings[|pings| - 1];
      if p.atomic.id == id && p.Answered() then Some(Lower(before, p.parsed.value.rttMs.value)) else before
  }

  function Lower(best: Option<real>, rtt: real): real {
    if best.Some? && best.value <= rtt then best.value else rtt
  }

  /** `Lowest` is what its name says: nobody answered, or some answer has it and none beats it. */
  lemma {:induction false} LowestIsMinimum(pings: seq<Ping>, id: Id)
    ensures Lowest(pings, id).None? <==> forall p :: p in pings && p.atomic.id == id ==> !p.Answered()
    ensures Lowest(pings, id).Some? ==>
            exists p :: p in pings && p.atomic.id == id && p.Answered() && p.parsed.value.rttMs == Lowest(pings, id)
    ensures Lowest(pings, id).Some? ==> forall p :: p in pings && p.atomic.id == id && p.Answered() ==>
            Lowest(pings, id).value <= p.parsed.value.rttMs.value
  {
    if pings != [] {
      var before, last := pings[..|pings| - 1], pings[|pings| - 1];
      LowestIsMinimum(before, id);
      assert pings == before + [last];
      if last.atomic.id == id && last.Answered() && Lowest(pings, id) == last.parsed.value.rttMs {
        assert last in pings;
      }
    }
  }

  function FloorOf(s: State, id: Id): Option<real> {
    if id in s.floors then Some(s.floors[id]) else None
  }

  /** Every ping went over a NORMAL connection, and the floors are the lowest round trips. */
  ghost predicate Sound(s: State) {
    && (forall p :: p in s.pings ==> p.atomic.mode.Normal?)
    && (forall id :: FloorOf(s, id) == Lowest(s.pings, id))
  }

  predicate HasRtt(r: Option<PingResult>) {
    r.Some? && r.value.rttMs.Some?
  }

  lemma LowestSnoc(pings: seq<Ping>, p: Ping, id: Id)
    ensures Lowest(pings + [p], id)
         == if p.atomic.id
            == id && p.Answered() then Some(Lower(Lowest(pings, id), p.parsed.value.rttMs.value)) else Lowest(pings, id)
  {
    assert (pings + [p])[..|pings|] == pings;
  }

  /** The lowest round trip once a probing has settled on a result. */
  function Settled(before: Option<real>, look: Look, kept: Option<PingResult>, id: Id): Option<real> {
    if HasRtt(kept) && id == look.atomic.id then Some(Lower(before, kept.value.rttMs.value)) else before
  }

  /** Part way: a round trip ends the probing, and the pings so far account for it. */
  ghost predicate Settles(before: Option<real>, t: Trying, look: Look, id: Id) {
    && (HasRtt(t.kept) ==> !t.open)
    && Lowest(t.s.pings, id) == Settled(before, look, t.kept, id)
  }

  lemma TargetSettles(before: Option<real>, t: Trying, look: Look, i: nat, id: Id)
    requires i < |TARGETS| && Settles(before, t, look, id)
    ensures Settles(before, TryTarget(t, look, i), look, id)
  {
    if t.open {
      var a := look.reply(i);
      var at := if i == 0 then t.s.clock else t.s.clock + a.delay;
      LowestSnoc(t.s.pings, Ping(look.atomic, TARGETS[i], at, a.took, a.parsed), id);
    }
  }

  lemma {:induction false} TryLowest(s: State, look: Look, n: nat, id: Id)
    requires n <= |TARGETS|
    ensures Settles(Lowest(s.pings, id), Try(s, look, n), look, id)
  {
    if n > 0 {
      TryLowest(s, look, n - 1, id);
      TargetSettles(Lowest(s.pings, id), Try(s, look, n - 1), look, n - 1, id);
    }
  }

  lemma {:induction false} TryPingsOnly(s: State, look: Look, n: nat)
    requires n <= |TARGETS|
    ensures s.pings <= Try(s, look, n).s.pings
    ensures forall p :: p in Try(s, look, n).s.pings ==> p in s.pings || p.atomic == look.atomic
  {
    if n > 0 {
      TryPingsOnly(s, look, n - 1);
    }
  }

  lemma ActiveIsSound(s: State, look: Look, flow: Belief.Observation)
    requires Sound(s) && look.atomic.mode.Normal?
    ensures Sound(Active(s, look, flow).0)
  {
    var t, s' := Try(s, look, |TARGETS|), Active(s, look, flow).0;
    TryKeepsRest(s, look, |TARGETS|);
    TryPingsOnly(s, look, |TARGETS|);
    assert s'.pings == t.s.pings;
    forall id ensures FloorOf(s', id) == Lowest(s'.pings, id) {
      TryLowest(s, look, |TARGETS|, id);
      assert FloorOf(s, id) == Lowest(s.pings, id);
    }
  }

  lemma ObserveIsSound(s: State, look: Look)
    requires Sound(s)
    ensures Sound(Observe(s, look).0)
  {
    var now := s.clock + look.delay;
    var s' := s.(clock := now + look.reading,
                 last := s.last[look.atomic.id := Counters(now, look.rx, look.tx, look.drops)]);
    var flow := Passive(s.last, look, now);
    assert Sound(s') by {
      forall id ensures FloorOf(s', id) == Lowest(s'.pings, id) {
        assert FloorOf(s, id) == Lowest(s.pings, id);
      }
    }
    if look.atomic.Addressed() && flow.Some? && look.atomic.mode.Normal? {
      ActiveIsSound(s', look, flow.value);
    }
  }

  lemma {:induction false} SweepIsSound(s: State, looks: seq<Look>)
    requires Sound(s)
    ensures Sound(Sweep(s, looks))
  {
    if looks != [] {
      SweepIsSound(s, looks[..|looks| - 1]);
      ObserveIsSound(Sweep(s, looks[..|looks| - 1]), looks[|looks| - 1]);
    }
  }

  /** Over every run: no connection that is not NORMAL is ever pinged, and each floor is
      the minimum of all round trips seen on that connection. */
  lemma {:induction false} RunIsSound(clock: real, passes: seq<Pass>, budget: real)
    ensures Sound(RunPasses(New(clock), passes, budget))
  {
    if passes == [] {
      assert RunPasses(New(clock), passes, budget) == New(clock);
    } else {
      var before, p := passes[..|passes| - 1], passes[|passes| - 1];
      RunIsSound(clock, before, budget);
      var s := RunPasses(New(clock), before, budget);
      var begun := BeginPass(s, p.startedAt, budget);
      forall id ensures FloorOf(begun, id) == Lowest(begun.pings, id) {
        assert FloorOf(s, id) == Lowest(s.pings, id);
      }
      SweepIsSound(begun, p.looks);
    }
  }
}
