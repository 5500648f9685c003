/** What keeping idle backups alive may cost, over every run of ticks. */
module Liveness {
  import opened Model
  import opened Hysteresis
  import opened Allocation
  import opened Schedule
  import Registry

  /** One decision and the spending that follows it: who was seen, whether a backup
      is active, who is considered for a probe, and the two clock readings. */
  datatype Pass = Pass(now: real, seen: seq<Atomic>, active: bool, backups: seq<Atomic>, spendAt: real)

  /** The liveness clocks after a run of passes from start-up. */
  function Clocks(t: Thresholds, passes: seq<Pass>): map<Id, real>
    decreases |passes|, 1
  {
    if passes == [] then map[]
    else
      var p := passes[|passes| - 1];
      Probe(t, Started(t, passes), p.active, p.backups, p.spendAt)
  }

  /** The clocks once the last pass has decided, before it spends. */
  function Started(t: Thresholds, passes: seq<Pass>): map<Id, real>
    requires passes != []
    decreases |passes|, 0
  {
    var p := passes[|passes| - 1];
    Baselines(Clocks(t, passes[..|passes| - 1]), p.seen, p.now)
  }

  /** Who the last pass probes. */
  function LastProbed(t: Thresholds, passes: seq<Pass>): seq<Id>
    requires passes != []
  {
    var p := passes[|passes| - 1];
    ProbedIds(t, Started(t, passes), p.active, p.backups, p.spendAt)
  }

  /** How often `id` was probed over a run of passes. */
  ghost function Probes(t: Thresholds, passes: seq<Pass>, id: Id): nat {
    if passes == [] then 0 else Probes(t, passes[..|passes| - 1], id) + multiset(LastProbed(t, passes))[id]
  }

  /** When the backup's liveness clock was first started, if it was. */
  ghost function Baseline(t: Thresholds, passes: seq<Pass>, id: Id): Option<real> {
    if passes == [] then None
    else if id in Clocks(t, passes[..|passes| - 1]) then Baseline(t, passes[..|passes| - 1], id)
    else if id in Clocks(t, passes) then Some(passes[|passes| - 1].now)
    else None
  }

  /** A decision comes before the spending that follows it, which comes before the next decision. */
  ghost predicate InOrder(passes: seq<Pass>) {
    passes == [] ||
    (var before, p := passes[..|passes| - 1], passes[|passes| - 1];
     InOrder(before) && p.now <= p.spendAt && (before != [] ==> before[|before| - 1].spendAt <= p.now))
  }

  // ---- one pass -------------------------------------------------------------------------

  /** The first sighting starts a backup's clock and nothing restarts it. */
  lemma {:induction false} BaselineSetOnce(last: map<Id, real>, backups: seq<Atomic>, now: real)
    ensures var after := Baselines(last, backups, now);
            && (forall id :: id in last ==> id in after && after[id] == last[id])
            && (forall id :: id in after && id !in last ==> after[id] == now)
  {
    if backups != [] {
      BaselineSetOnce(last, backups[..|backups| - 1], now);
    }
  }

  /** While a backup is active nothing is spent on probing any backup. */
  lemma {:induction false} NoProbesWhileActive(t: Thresholds, last: map<Id, real>, backups: seq<Atomic>, now: real)
    ensures ProbedIds(t, last, true, backups, now) == []
    ensures Probe(t, last, true, backups, now) == last
  {
    if backups != [] {
      NoProbesWhileActive(t, last, backups[..|backups| - 1], now);
    }
  }

  /** n probes since `base` have been waited for, and the last was no later than `now`. */
  ghost predicate Waited(t: Thresholds, last: map<Id, real>, id: Id, base: real, n: nat, now: real) {
    id in last && Times(n, t.livenessInterval) <= last[id] - base && last[id] <= now
  }

  lemma {:induction false} ProbesAreWaitedFor(t: Thresholds, last: map<Id, real>, active: bool, backups: seq<Atomic>,
                                              now: real,
                                              id: Id, base: real, n: nat)
    requires Waited(t, last, id, base, n, now)
    ensures Waited(t, Probe(t, last, active, backups, now), id, base,
                   n + multiset(ProbedIds(t, last, active, backups, now))[id], now)
  {
    if backups != [] {
      ProbesAreWaitedFor(t, last, active, backups[..|backups| - 1], now, id, base, n);
    }
  }

  lemma {:induction false} ProbingAddsNoClock(t: Thresholds, last: map<Id, real>, active: bool, backups: seq<Atomic>,
                                              now: real)
    ensures Probe(t, last, active, backups, now).Keys == last.Keys
    ensures forall id :: id in ProbedIds(t, last, active, backups, now) ==> id in last
  {
    if backups != [] {
      ProbingAddsNoClock(t, last, active, backups[..|backups| - 1], now);
    }
  }

  /** This backup is owed a probe at `now`: nothing is in use, and a full interval has gone by
      since its clock was last set. */
  ghost predicate Owed(t: Thresholds, last: map<Id, real>, active: bool, a: Atomic, now: real) {
    a.present && a.mode == Backup && !active && a.id in last && now >= last[a.id] + t.livenessInterval
  }

  /** Exactly the backups owed a probe are probed, each once, and exactly their clocks are set. */
  ghost predicate ProbesTheOwed(t: Thresholds, last: map<Id, real>, active: bool, backups: seq<Atomic>, now: real,
                                id: Id) {
    var due := exists a :: a in backups && a.id == id && Owed(t, last, active, a, now);
    var after := Probe(t, last, active, backups, now);
    && multiset(ProbedIds(t, last, active, backups, now))[id] == (if due then 1 else 0)
    && (id in after <==> id in last)
    && (id in last ==> after[id] == if due then now else last[id])
  }

  lemma {:induction false} OwedAreProbed(t: Thresholds, last: map<Id, real>, active: bool, backups: seq<Atomic>,
                                         now: real, id: Id)
    requires DistinctIds(backups)
    ensures ProbesTheOwed(t, last, active, backups, now, id)
  {
    if |backups| > 0 {
      var before, a := backups[..|backups| - 1], backups[|backups| - 1];
      OwedAreProbed(t, last, active, before, now, id);
      OneMoreProbed(t, last, active, backups, now, id);
    }
  }

  lemma OneMoreProbed(t: Thresholds, last: map<Id, real>, active: bool, backups: seq<Atomic>, now: real, id: Id)
    requires DistinctIds(backups) && |backups| > 0
    requires ProbesTheOwed(t, last, active, backups[..|backups| - 1], now, id)
    ensures ProbesTheOwed(t, last, active, backups, now, id)
  {
    var before, a := backups[..|backups| - 1], backups[|backups| - 1];
    assert forall b :: b in backups <==> b in before || b == a;
    assert forall b :: b in before ==> b.id != a.id;
  }

  // ---- whole runs ---------------------------------------------------------------------------

  function LastSpent(passes: seq<Pass>): real {
    if passes == [] then 0.0 else passes[|passes| - 1].spendAt
  }

  /** The ledger of one backup after a run: no clock and no probes, or a clock
      started at the baseline and every probe since then a full interval apart. */
  ghost predicate Accounted(t: Thresholds, passes: seq<Pass>, id: Id) {
    var base, n := Baseline(t, passes, id), Probes(t, passes, id);
    if id in Clocks(t, passes) then base.Some? && Waited(t, Clocks(t, passes), id, base.value, n, LastSpent(passes))
    else base.None? && n == 0
  }

  lemma {:induction false} RunIsAccounted(t: Thresholds, passes: seq<Pass>, id: Id)
    requires InOrder(passes)
    ensures Accounted(t, passes, id)
  {
    if passes != [] {
      var before, p := passes[..|passes| - 1], passes[|passes| - 1];
      RunIsAccounted(t, before, id);
      var started := Started(t, passes);
      BaselineSetOnce(Clocks(t, before), p.seen, p.now);
      ProbingAddsNoClock(t, started, p.active, p.backups, p.spendAt);
      if id in started {
        var base := if id in Clocks(t, before) then Baseline(t, before, id).value else p.now;
        ProbesAreWaitedFor(t, started, p.active, p.backups, p.spendAt, id, base, Probes(t, before, id));
      }
    }
  }

  /** However modes, presence and activations vary, a backup has been probed at most
      once per full liveness interval since its clock was started. */
  lemma ProbesAreBounded(t: Thresholds, passes: seq<Pass>, id: Id, now: real)
    requires InOrder(passes) && passes != [] && LastSpent(passes) <= now && t.livenessInterval > 0.0
    ensures Baseline(t, passes, id).None? ==> Probes(t, passes, id) == 0
    ensures Baseline(t, passes, id).Some? ==>
              Probes(t, passes, id) <= ((now - Baseline(t, passes, id).value) / t.livenessInterval).Floor
  {
    RunIsAccounted(t, passes, id);
    var base, n := Baseline(t, passes, id), Probes(t, passes, id);
    if base.Some? {
      FloorBound(n, t.livenessInterval, now - base.value);
    }
  }

  lemma FloorBound(n: nat, interval: real, elapsed: real)
    requires interval > 0.0 && Times(n, interval) <= elapsed
    ensures n <= (elapsed / interval).Floor
  {
    TimesIsProduct(n, interval);
    DivideBoth(n as real, interval, elapsed);
  }

  lemma DivideBoth(n: real, interval: real, elapsed: real)
    requires interval > 0.0 && n * interval <= elapsed
    ensures n <= elapsed / interval
  {
    var q := elapsed / interval;
    assert q * interval == elapsed;
    if n > q {
      assert n * interval > q * interval;
    }
  }

  // ---- the passes of a run of ticks ---------------------------------------------------------------

  function Passes(cfg: Config, loops: Loops, d: Daemon, ticks: seq<Tick>): seq<Pass> {
    if ticks == [] then []
    else
      var before, t := ticks[..|ticks| - 1], ticks[|ticks| - 1];
      Passes(cfg, loops, d, before)
      + (if MediumDue(RunTicks(cfg, loops, d, before).next, t)
         then [Pass(t.x.now, Backups(t.x.atomics), RunTicks(cfg, loops, d, ticks).controller.machine.state.Active?,
                    t.backups, t.spendAt)]
         else [])
  }

  /** The daemon's liveness clocks are those of its passes. */
  lemma {:induction false} TicksArePasses(cfg: Config, loops: Loops, d: Daemon, ticks: seq<Tick>)
    requires d.controller.lastLiveness == map[]
    ensures RunTicks(cfg, loops, d, ticks).controller.lastLiveness == Clocks(cfg.t, Passes(cfg, loops, d, ticks))
  {
    if ticks != [] {
      var before, t := ticks[..|ticks| - 1], ticks[|ticks| - 1];
      TicksArePasses(cfg, loops, d, before);
      var was, passes := RunTicks(cfg, loops, d, before), Passes(cfg, loops, d, before);
      if MediumDue(was.next, t) {
        var active := RunTicks(cfg, loops, d, ticks).controller.machine.state.Active?;
        ClocksSnoc(cfg.t, passes, Pass(t.x.now, Backups(t.x.atomics), active, t.backups, t.spendAt));
        MediumLoopClocks(cfg, was.controller, t);
      } else {
        assert Passes(cfg, loops, d, ticks) == passes;
      }
    }
  }

  lemma MediumLoopClocks(cfg: Config, c: Controller, t: Tick)
    ensures var c' := MediumLoop(cfg, c, t.x, t.backups, t.spendAt);
            c'.lastLiveness == Probe(cfg.t, Baselines(c.lastLiveness, Backups(t.x.atomics), t.x.now),
                                     c'.machine.state.Active?, t.backups, t.spendAt)
  {
  }

  lemma ClocksSnoc(t: Thresholds, passes: seq<Pass>, p: Pass)
    ensures Clocks(t, passes + [p])
            == Probe(t, Baselines(Clocks(t, passes), p.seen, p.now), p.active, p.backups, p.spendAt)
  {
    assert (passes + [p])[..|passes|] == passes;
  }

  // ---- what the user is charged -----------------------------------------------------------------

  /** The registry entries a run of passes makes for liveness. */
  function AllBills(t: Thresholds, passes: seq<Pass>): seq<Registry.Event> {
    if passes == [] then [] else AllBills(t, passes[..|passes| - 1]) + Bills(t, LastProbed(t, passes))
  }

  lemma {:induction false} LivenessOfConcat(id: Id, a: seq<Registry.Event>, b: seq<Registry.Event>)
    ensures Registry.LivenessAdded(id, a + b) == Registry.LivenessAdded(id, a) + Registry.LivenessAdded(id, b)
  {
    if b == [] {
      assert a + b == a;
    } else {
      assert (a + b)[..|a + b| - 1] == a + b[..|b| - 1];
      LivenessOfConcat(id, a, b[..|b| - 1]);
    }
  }

  lemma {:induction false} BillsAddUp(t: Thresholds, ids: seq<Id>, id: Id)
    ensures Registry.LivenessAdded(id, Bills(t, ids)) == t.livenessBytes * multiset(ids)[id]
  {
    if ids != [] {
      var before := ids[..|ids| - 1];
      BillsAddUp(t, before, id);
      assert Bills(t, ids)[..|ids| - 1] == Bills(t, before);
      assert ids == before + [ids[|ids| - 1]];
    }
  }

  lemma BillsOfLast(t: Thresholds, passes: seq<Pass>, id: Id)
    requires |passes| > 0
    ensures Registry.LivenessAdded(id, AllBills(t, passes))
         == Registry.LivenessAdded(id, AllBills(t, passes[..|passes| - 1]))
            + t.livenessBytes * multiset(LastProbed(t, passes))[id]
  {
    LivenessOfConcat(id, AllBills(t, passes[..|passes| - 1]), Bills(t, LastProbed(t, passes)));
    BillsAddUp(t, LastProbed(t, passes), id);
  }

  /** The bytes charged for liveness are the fixed budget times the probes sent. */
  lemma {:induction false} ChargedPerProbe(t: Thresholds, passes: seq<Pass>, id: Id)
    ensures Registry.LivenessAdded(id, AllBills(t, passes)) == t.livenessBytes * Probes(t, passes, id)
  {
    if |passes| == 0 {
      NoCharges(t, passes, id);
    } else {
      var before := passes[..|passes| - 1];
      ChargedPerProbe(t, before, id);
      BillsOfLast(t, passes, id);
      var more := multiset(LastProbed(t, passes))[id];
      AddCharges(t.livenessBytes, Probes(t, before, id), more, Registry.LivenessAdded(id, AllBills(t, before)),
                 t.livenessBytes * more);
    }
  }

  lemma NoCharges(t: Thresholds, passes: seq<Pass>, id: Id)
    requires |passes| == 0
    ensures Registry.LivenessAdded(id, AllBills(t, passes)) == 0 == t.livenessBytes * Probes(t, passes, id)
  {
  }

  lemma AddCharges(bytes: nat, n: nat, more: nat, charged: nat, added: nat)
    requires charged == bytes * n && added == bytes * more
    ensures charged + added == bytes * (n + more)
  {
  }
}
