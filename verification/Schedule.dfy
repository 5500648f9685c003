/** The control loops: which are due on a tick, what the medium loop decides and
    spends, what the fast loop renders, and what holds of every run of ticks. */
module Schedule {
  import opened Model
  import opened Hysteresis
  import opened Allocation
  import opened Render
  import Laws = AllocationLaws
  import Registry

  datatype Loops = Loops(fast: real, medium: real, slow: real, flush: real)

  datatype Next = Next(fast: real, medium: real, slow: real, telemetry: real)

  const DUE_AT_ONCE := Next(0.0, 0.0, 0.0, 0.0)

  datatype Daemon = Daemon(next: Next, controller: Controller)

  /** One scheduler pass: when it starts; what the medium loop would decide on, which
      backups it would then consider probing and when; and the registry the fast loop
      would render from. Inputs of a loop that is not due are not looked at. */
  datatype Tick = Tick(now: real, x: Sample, backups: seq<Atomic>, spendAt: real, view: View)

  predicate MediumDue(n: Next, t: Tick) {
    t.now >= n.medium
  }

  predicate FastDue(n: Next, t: Tick) {
    t.now >= n.fast
  }

  function Later(loops: Loops, n: Next, now: real): Next {
    Next(if now >= n.fast then now + loops.fast else n.fast,
         if now >= n.medium then now + loops.medium else n.medium,
         if now >= n.slow then now + loops.slow else n.slow,
         if now >= n.telemetry then now + loops.flush else n.telemetry)
  }

  // ---- liveness spending --------------------------------------------------------------

  /** The liveness clocks after each backup that is due has been probed, in order. */
  function Probe(t: Thresholds, last: map<Id, real>, active: bool, backups: seq<Atomic>, now: real): map<Id, real> {
    if backups == [] then last
    else
      var before, a := Probe(t, last, active, backups[..|backups| - 1], now), backups[|backups| - 1];
      if Due(t, before, active, a, now) then before[a.id := now] else before
  }

  function ProbedIds(t: Thresholds, last: map<Id, real>, active: bool, backups: seq<Atomic>, now: real): seq<Id> {
    if backups == [] then []
    else
      var before, a := Probe(t, last, active, backups[..|backups| - 1], now), backups[|backups| - 1];
      ProbedIds(t, last, active, backups[..|backups| - 1], now)
         + (if Due(t, before, active, a, now) then [a.id] else [])
  }

  function Bills(t: Thresholds, ids: seq<Id>): seq<Registry.Event> {
    seq(|ids|, i requires 0 <= i < |ids| => Registry.CostAdded(ids[i], 0, t.livenessBytes))
  }

  // ---- one tick -------------------------------------------------------------------------

  function MediumLoop(cfg: Config, c: Controller, x: Sample, backups: seq<Atomic>, spendAt: real): Controller {
    var decided := Decide(cfg, c, x);
    decided.(lastLiveness := Probe(cfg.t, decided.lastLiveness, decided.machine.state.Active?, backups, spendAt))
  }

  function RunTick(cfg: Config, loops: Loops, d: Daemon, t: Tick): Daemon {
    Daemon(Later(loops, d.next, t.now), if MediumDue(d.next, t)
           then MediumLoop(cfg, d.controller, t.x, t.backups, t.spendAt) else d.controller)
  }

  /** What the fast loop asks the enforcer for. A new decision is rendered on its own tick. */
  function Rendered(cfg: Config, loops: Loops, plan: Plan, d: Daemon, t: Tick): Option<Result<DesiredState, Id>> {
    var now := RunTick(cfg, loops, d, t).controller.last;
    if FastDue(d.next, t) && now.Some? then Some(Render.Render(plan, now.value, t.view)) else None
  }

  function RunTicks(cfg: Config, loops: Loops, d: Daemon, ticks: seq<Tick>): Daemon {
    if ticks == [] then d else RunTick(cfg, loops, RunTicks(cfg, loops, d, ticks[..|ticks| - 1]), ticks[|ticks| - 1])
  }

  /** The schedule after a run of ticks; nothing but the times matters to it. */
  function NextAfter(loops: Loops, n: Next, ticks: seq<Tick>): Next {
    if ticks == [] then n else Later(loops, NextAfter(loops, n, ticks[..|ticks| - 1]), ticks[|ticks| - 1].now)
  }

  /** The samples decided on in a run of ticks. */
  function Decided(loops: Loops, n: Next, ticks: seq<Tick>): seq<Sample> {
    if ticks == [] then []
    else
      var before, t := ticks[..|ticks| - 1], ticks[|ticks| - 1];
      Decided(loops, n, before) + (if MediumDue(NextAfter(loops, n, before), t) then [t.x] else [])
  }

  lemma {:induction false} ScheduleOfTicks(cfg: Config, loops: Loops, d: Daemon, ticks: seq<Tick>)
    ensures RunTicks(cfg, loops, d, ticks).next == NextAfter(loops, d.next, ticks)
  {
    if ticks != [] {
      ScheduleOfTicks(cfg, loops, d, ticks[..|ticks| - 1]);
    }
  }

  /** When one loop is next due after a run of ticks at these times. */
  ghost function DateAfter(period: real, date: real, times: seq<real>): real {
    if times == [] then date
    else
      var before := DateAfter(period, date, times[..|times| - 1]);
      var now := times[|times| - 1];
      if now >= before then now + period else before
  }

  ghost function TickTimes(ticks: seq<Tick>): (times: seq<real>)
    ensures |times| == |ticks|
  {
    seq(|ticks|, i requires 0 <= i < |ticks| => ticks[i].now)
  }

  /** Each of the four loops keeps its own dates, by its own period and nothing else. */
  lemma {:induction false} LoopsAreIndependent(loops: Loops, n: Next, ticks: seq<Tick>)
    ensures var next, times := NextAfter(loops, n, ticks), TickTimes(ticks);
            && next.fast == DateAfter(loops.fast, n.fast, times)
            && next.medium == DateAfter(loops.medium, n.medium, times)
            && next.slow == DateAfter(loops.slow, n.slow, times)
            && next.telemetry == DateAfter(loops.flush, n.telemetry, times)
  {
    if |ticks| > 0 {
      LoopsAreIndependent(loops, n, ticks[..|ticks| - 1]);
      assert TickTimes(ticks)[..|ticks| - 1] == TickTimes(ticks[..|ticks| - 1]);
    }
  }

  /** A loop's next date is one period after the last tick that ran it, and no tick since was
      that late; if none ever ran it, all were before its first date. */
  lemma {:induction false} DateIsPeriodAfterLast(period: real, date: real, times: seq<real>) returns (ran: Option<nat>)
    ensures var next := DateAfter(period, date, times);
            if ran == None then next == date && forall i :: 0 <= i < |times| ==> times[i] < date
            else
              && ran.value < |times| && next == times[ran.value] + period
              && forall i :: ran.value < i < |times| ==> times[i] < next
  {
    ran := None;
    if |times| > 0 {
      var n := |times| - 1;
      ran := DateIsPeriodAfterLast(period, date, times[..n]);
      if times[n] >= DateAfter(period, date, times[..n]) {
        ran := Some(n);
      }
    }
  }

  // ---- a run of ticks is a run of decisions ------------------------------------------------

  /** The controller's allocation is what its machine made of x, just after stepping on x. */
  ghost predicate InForce(cfg: Config, c: Controller, x: Sample) {
    c.last == Some(Allocate(cfg, c.machine, x)) && Laws.JustStepped(cfg, c.machine, x)
  }

  lemma MediumLoopDecides(cfg: Config, c: Controller, t: Tick)
    ensures var now := MediumLoop(cfg, c, t.x, t.backups, t.spendAt);
            && now.machine == Step(cfg.t, c.machine, SignalOf(cfg, t.x))
            && InForce(cfg, now, t.x)
  {
  }

  /** The machine depends only on the decisions taken. */
  lemma {:induction false} MachineOfTicks(cfg: Config, loops: Loops, d: Daemon, ticks: seq<Tick>)
    ensures RunTicks(cfg, loops, d, ticks).controller.machine
         == Run(cfg.t, d.controller.machine, Laws.Signals(cfg, Decided(loops, d.next, ticks)))
  {
    if ticks == [] {
      assert Laws.Signals(cfg, []) == [];
    } else {
      var before, t := ticks[..|ticks| - 1], ticks[|ticks| - 1];
      MachineOfTicks(cfg, loops, d, before);
      ScheduleOfTicks(cfg, loops, d, before);
      var was, xs := RunTicks(cfg, loops, d, before), Decided(loops, d.next, before);
      if MediumDue(was.next, t) {
        MediumLoopDecides(cfg, was.controller, t);
        Laws.SignalsSnoc(cfg, xs, t.x);
        RunSnoc(cfg.t, d.controller.machine, Laws.Signals(cfg, xs), SignalOf(cfg, t.x));
      } else {
        assert Decided(loops, d.next, ticks) == xs;
      }
    }
  }

  lemma RunSnoc(t: Thresholds, m: Machine, signals: seq<Signal>, s: Signal)
    ensures Run(t, m, signals + [s]) == Step(t, Run(t, m, signals), s)
  {
    assert (signals + [s])[..|signals|] == signals;
  }

  /** The allocation in force is what the machine made of the last sample decided on. */
  lemma {:induction false} LastOfTicks(cfg: Config, loops: Loops, d: Daemon, ticks: seq<Tick>)
    requires Decided(loops, d.next, ticks) != []
    ensures var xs := Decided(loops, d.next, ticks);
            InForce(cfg, RunTicks(cfg, loops, d, ticks).controller, xs[|xs| - 1])
  {
    var before, t := ticks[..|ticks| - 1], ticks[|ticks| - 1];
    ScheduleOfTicks(cfg, loops, d, before);
    if MediumDue(NextAfter(loops, d.next, before), t) {
      DecidedLast(cfg, loops, RunTicks(cfg, loops, d, before), t);
    } else {
      LastOfTicks(cfg, loops, d, before);
    }
  }

  lemma DecidedLast(cfg: Config, loops: Loops, was: Daemon, t: Tick)
    requires MediumDue(was.next, t)
    ensures InForce(cfg, RunTick(cfg, loops, was, t).controller, t.x)
  {
    MediumLoopDecides(cfg, was.controller, t);
  }

  /** Before the first decision nothing is in force. */
  lemma {:induction false} NothingBeforeTheFirst(cfg: Config, loops: Loops, d: Daemon, ticks: seq<Tick>)
    requires Decided(loops, d.next, ticks) == []
    ensures RunTicks(cfg, loops, d, ticks).controller == d.controller
  {
    if |ticks| > 0 {
      NothingBeforeTheFirst(cfg, loops, d, ticks[..|ticks| - 1]);
      ScheduleOfTicks(cfg, loops, d, ticks[..|ticks| - 1]);
    }
  }

  /** What one tick renders is the allocation in force after it. */
  lemma RenderedInForce(cfg: Config, loops: Loops, plan: Plan, d: Daemon, ticks: seq<Tick>, t: Tick)
    requires Rendered(cfg, loops, plan, RunTicks(cfg, loops, d, ticks), t).Some?
    ensures var c := RunTicks(cfg, loops, d, ticks + [t]).controller;
            && c.last.Some?
            && Rendered(cfg, loops, plan, RunTicks(cfg, loops, d, ticks), t).value
               == Render.Render(plan, c.last.value, t.view)
  {
    assert (ticks + [t])[..|ticks|] == ticks;
  }

  lemma RestsUnlessActive(cfg: Config, plan: Plan, c: Controller, x: Sample, view: View)
    requires InForce(cfg, c, x) && DistinctIds(x.atomics)
    ensures var r := Render.Render(plan, c.last.value, view);
            r.Ok? && (OnNormalOnly(plan, r.value, view, x) || c.machine.state.Active?)
  {
    DecisionsAlwaysRender(plan, cfg, c.machine, x, view);
    if !c.machine.state.Active? {
      AtRestOnlyNormalIsTouched(plan, cfg, c.machine, x, view);
    }
  }

  /** A daemon as it starts: idle and with nothing decided. */
  predicate JustStarted(d: Daemon) {
    d.controller.machine.state.Idle? && d.controller.last.None?
  }

  /** A desired state a run of ticks may ask for: on usable NORMAL connections of the last
      decision alone, or else the allocator is active, and the decisions contain an arming
      (i) and, a full activation dwell later, an activation (j), with critical deficit and a
      live backup at every decision after the one up to the other, and since then neither
      recovery nor loss of the backup. */
  ghost predicate Justified(cfg: Config, loops: Loops, plan: Plan, d: Daemon, ticks: seq<Tick>, view: View,
                            want: DesiredState, i: nat, j: nat) {
    var xs := Decided(loops, d.next, ticks);
    && xs != []
    && (|| OnNormalOnly(plan, want, view, xs[|xs| - 1])
        || (&& RunTicks(cfg, loops, d, ticks).controller.machine.state.Active?
            && Activated(cfg.t, d.controller.machine, Laws.Signals(cfg, xs), i, j)))
  }

  lemma ActiveTicksHaveCause(cfg: Config, loops: Loops, d: Daemon, ticks: seq<Tick>) returns (i: nat, j: nat)
    requires d.controller.machine.state.Idle? && RunTicks(cfg, loops, d, ticks).controller.machine.state.Active?
    ensures Activated(cfg.t, d.controller.machine, Laws.Signals(cfg, Decided(loops, d.next, ticks)), i, j)
  {
    MachineOfTicks(cfg, loops, d, ticks);
    i, j := ActiveHasCause(cfg.t, d.controller.machine, Laws.Signals(cfg, Decided(loops, d.next, ticks)));
  }

  lemma InForceIsDecided(cfg: Config, loops: Loops, d: Daemon, ticks: seq<Tick>)
    requires d.controller.last.None? && RunTicks(cfg, loops, d, ticks).controller.last.Some?
    ensures Decided(loops, d.next, ticks) != []
  {
    if Decided(loops, d.next, ticks) == [] {
      NothingBeforeTheFirst(cfg, loops, d, ticks);
    }
  }

  lemma RestingTicks(cfg: Config, loops: Loops, plan: Plan, d: Daemon, ticks: seq<Tick>, view: View)
    requires Decided(loops, d.next, ticks) != []
    requires var xs := Decided(loops, d.next, ticks); DistinctIds(xs[|xs| - 1].atomics)
    ensures var c, xs := RunTicks(cfg, loops, d, ticks).controller, Decided(loops, d.next, ticks);
            && c.last.Some? && Render.Render(plan, c.last.value, view).Ok?
            && (OnNormalOnly(plan, Render.Render(plan, c.last.value, view).value, view, xs[|xs| - 1])
                || c.machine.state.Active?)
  {
    var xs := Decided(loops, d.next, ticks);
    LastOfTicks(cfg, loops, d, ticks);
    RestsUnlessActive(cfg, plan, RunTicks(cfg, loops, d, ticks).controller, xs[|xs| - 1], view);
  }

  lemma InForceIsJustified(cfg: Config, loops: Loops, plan: Plan, d: Daemon, ticks: seq<Tick>, view: View)
    returns (i: nat, j: nat)
    requires JustStarted(d) && RunTicks(cfg, loops, d, ticks).controller.last.Some?
    requires var xs := Decided(loops, d.next, ticks); xs != [] ==> DistinctIds(xs[|xs| - 1].atomics)
    ensures var r := Render.Render(plan, RunTicks(cfg, loops, d, ticks).controller.last.value, view);
            r.Ok? && Justified(cfg, loops, plan, d, ticks, view, r.value, i, j)
  {
    InForceIsDecided(cfg, loops, d, ticks);
    RestingTicks(cfg, loops, plan, d, ticks, view);
    if RunTicks(cfg, loops, d, ticks).controller.machine.state.Active? {
      i, j := ActiveTicksHaveCause(cfg, loops, d, ticks);
    } else {
      i, j := 0, 0;
    }
  }

  /** At-rest safety: over every run of ticks from start-up, whatever tables collide and
      whatever the registry has become since the last decision, rendering succeeds and what
      the fast loop asks for is justified. */
  lemma NothingOnBackupAtRest(cfg: Config, loops: Loops, plan: Plan, d: Daemon, ticks: seq<Tick>, t: Tick)
    returns (i: nat, j: nat)
    requires JustStarted(d) && Rendered(cfg, loops, plan, RunTicks(cfg, loops, d, ticks), t).Some?
    requires var xs := Decided(loops, d.next, ticks + [t]); xs != [] ==> DistinctIds(xs[|xs| - 1].atomics)
    ensures var r := Rendered(cfg, loops, plan, RunTicks(cfg, loops, d, ticks), t).value;
            r.Ok? && Justified(cfg, loops, plan, d, ticks + [t], t.view, r.value, i, j)
  {
    RenderedInForce(cfg, loops, plan, d, ticks, t);
    i, j := InForceIsJustified(cfg, loops, plan, d, ticks + [t], t.view);
  }

  /** The same for one connection whose table and interface nobody shares: if it was BACKUP
      when last decided on, whatever is rendered touches it only with that cause. */
  lemma BackupCarriesNothingAtRest(cfg: Config, loops: Loops, plan: Plan, d: Daemon, ticks: seq<Tick>, t: Tick, id: Id)
    returns (i: nat, j: nat)
    requires JustStarted(d) && Rendered(cfg, loops, plan, RunTicks(cfg, loops, d, ticks), t).Some?
    requires var xs := Decided(loops, d.next, ticks + [t]); xs != [] && SawBackup(xs[|xs| - 1], id)
    requires TouchesAlone(plan, Rendered(cfg, loops, plan, RunTicks(cfg, loops, d, ticks), t).value, t.view, id)
    ensures RunTicks(cfg, loops, d, ticks + [t]).controller.machine.state.Active?
    ensures Activated(cfg.t, d.controller.machine, Laws.Signals(cfg, Decided(loops, d.next, ticks + [t])), i, j)
  {
    RenderedInForce(cfg, loops, plan, d, ticks, t);
    TouchedTicksAreActive(cfg, loops, plan, d, ticks + [t], t.view, id);
    i, j := ActiveTicksHaveCause(cfg, loops, d, ticks + [t]);
  }

  /** The decision saw the connection as a BACKUP. */
  ghost predicate SawBackup(x: Sample, id: Id) {
    DistinctIds(x.atomics) && exists b :: b in x.atomics && b.id == id && b.mode.Backup?
  }

  /** What is rendered touches the connection, and nobody shares its table or interface. */
  ghost predicate TouchesAlone(plan: Plan, r: Result<DesiredState, Id>, view: View, id: Id) {
    r.Ok? && StandsAlone(plan, view, id) && Touches(plan, r.value, view, id)
  }

  lemma TouchedTicksAreActive(cfg: Config, loops: Loops, plan: Plan, d: Daemon, ticks: seq<Tick>, view: View, id: Id)
    requires var xs := Decided(loops, d.next, ticks); xs != [] && SawBackup(xs[|xs| - 1], id)
    requires var c := RunTicks(cfg, loops, d, ticks).controller;
             c.last.Some? && TouchesAlone(plan, Render.Render(plan, c.last.value, view), view, id)
    ensures RunTicks(cfg, loops, d, ticks).controller.machine.state.Active?
  {
    var xs := Decided(loops, d.next, ticks);
    var c, x := RunTicks(cfg, loops, d, ticks).controller, xs[|xs| - 1];
    assert SawBackup(x, id) && TouchesAlone(plan, Render.Render(plan, c.last.value, view), view, id);
    assert InForce(cfg, c, x) by { LastOfTicks(cfg, loops, d, ticks); }
    TouchedWhileActive(cfg, plan, c, x, view, id);
  }

  lemma TouchedWhileActive(cfg: Config, plan: Plan, c: Controller, x: Sample, view: View, id: Id)
    requires InForce(cfg, c, x) && SawBackup(x, id)
    requires TouchesAlone(plan, Render.Render(plan, c.last.value, view), view, id)
    ensures c.machine.state.Active?
  {
    BackupTouchedOnlyWhileActive(plan, cfg, c.machine, x, view, id);
  }

  // ---- how far apart decisions are -----------------------------------------------------------

  /** Ticks start at most `gap` apart, each after the previous one's decision, and a
      decision reads the clock at most `lag` after its tick began. */
  ghost predicate Steady(start: real, ticks: seq<Tick>, gap: real, lag: real) {
    ticks == [] || (Steady(start, ticks[..|ticks| - 1], gap, lag) && Follows(start, ticks[..|ticks| - 1],
                                                                             ticks[|ticks| - 1], gap, lag))
  }

  predicate Follows(start: real, before: seq<Tick>, t: Tick, gap: real, lag: real) {
    && t.now <= t.x.now <= t.now + lag
    && (if before == [] then start <= t.now <= start + gap
        else before[|before| - 1].x.now <= t.now <= before[|before| - 1].now + gap)
  }

  /** Where the schedule stands after a steady run: the medium loop is due one period
      after the decision before at the latest, and was not due on the last tick. */
  ghost predicate OnSchedule(loops: Loops, n: Next, start: real, ticks: seq<Tick>, xs: seq<Sample>) {
    && (xs == [] ==> n.medium <= start + loops.medium)
    && (xs != [] ==> n.medium <= xs[|xs| - 1].now + loops.medium)
    && (ticks != [] ==>
        start <= ticks[|ticks| - 1].now < n.medium && ticks[|ticks| - 1].now <= ticks[|ticks| - 1].x.now)
    && (ticks != [] && xs != [] ==> xs[|xs| - 1].now <= ticks[|ticks| - 1].x.now)
    && (ticks == [] ==> xs == [])
  }

  lemma {:induction false} StaysOnSchedule(loops: Loops, n: Next, start: real, ticks: seq<Tick>, gap: real, lag: real)
    requires Steady(start, ticks, gap, lag) && loops.medium > 0.0 && n.medium <= start + loops.medium
    ensures OnSchedule(loops, NextAfter(loops, n, ticks), start, ticks, Decided(loops, n, ticks))
  {
    if ticks != [] {
      StaysOnSchedule(loops, n, start, ticks[..|ticks| - 1], gap, lag);
    }
  }

  /** The scheduler decides at most one medium period plus one tick gap plus the
      decision's own lag apart, however long the run. */
  lemma {:induction false} DecisionsAreSpaced(loops: Loops, n: Next, start: real, ticks: seq<Tick>, gap: real,
                                              lag: real)
    requires Steady(start, ticks, gap, lag) && loops.medium > 0.0 && gap >= 0.0 && lag >= 0.0
    requires n.medium <= start + loops.medium
    ensures Laws.SpacedSamples(start, Decided(loops, n, ticks), loops.medium + gap + lag)
  {
    if |ticks| > 0 {
      var before, t := ticks[..|ticks| - 1], ticks[|ticks| - 1];
      var was, xs := NextAfter(loops, n, before), Decided(loops, n, before);
      DecisionsAreSpaced(loops, n, start, before, gap, lag);
      StaysOnSchedule(loops, n, start, before, gap, lag);
      if MediumDue(was, t) {
        NextIsInTime(loops, was, start, before, xs, t, gap, lag);
        SpacedSnoc(start, xs, t.x, loops.medium + gap + lag);
      }
      DecidedSnoc(loops, n, ticks);
    }
  }

  lemma DecidedSnoc(loops: Loops, n: Next, ticks: seq<Tick>)
    requires |ticks| > 0
    ensures var before, t := ticks[..|ticks| - 1], ticks[|ticks| - 1];
            Decided(loops, n, ticks)
              == if MediumDue(NextAfter(loops, n, before), t) then Decided(loops, n, before) + [t.x]
                 else Decided(loops, n, before)
  {
  }

  lemma NextIsInTime(loops: Loops, n: Next, start: real, before: seq<Tick>, xs: seq<Sample>, t: Tick, gap: real,
                     lag: real)
    requires OnSchedule(loops, n, start, before, xs) && Follows(start, before, t, gap, lag)
    requires loops.medium > 0.0 && gap >= 0.0 && lag >= 0.0
    ensures var last := Laws.LastTime(start, xs); last <= t.x.now <= last + (loops.medium + gap + lag)
  {
  }

  lemma SpacedSnoc(start: real, xs: seq<Sample>, x: Sample, g: real)
    requires Laws.SpacedSamples(start, xs, g) && Laws.LastTime(start, xs) <= x.now <= Laws.LastTime(start, xs) + g
    ensures Laws.SpacedSamples(start, xs + [x], g)
  {
    assert (xs + [x])[..|xs|] == xs;
  }

  /** A steady run that has lasted long enough has decided often and recently enough. */
  lemma EnoughDecisions(loops: Loops, n: Next, start: real, ticks: seq<Tick>, gap: real, lag: real, dwell: real)
    requires Steady(start, ticks, gap, lag) && loops.medium > 0.0 && gap >= 0.0 && lag >= 0.0 && dwell >= 0.0
    requires n.medium <= start + loops.medium
    requires ticks != [] && ticks[|ticks| - 1].now >= start + dwell + 3.0 * (loops.medium + gap + lag)
    ensures var xs := Decided(loops, n, ticks);
            |xs| >= 2 && xs[|xs| - 1].now >= start + (loops.medium + gap + lag) + dwell
  {
    StaysOnSchedule(loops, n, start, ticks, gap, lag);
    DecisionsAreSpaced(loops, n, start, ticks, gap, lag);
  }

  /** End to end: while every decision a steady scheduler takes sees critical deficit
      and a live backup, the backup is active within the dwell plus twice the spacing. */
  lemma ActivatesInTime(cfg: Config, loops: Loops, d: Daemon, start: real, ticks: seq<Tick>, gap: real, lag: real)
    returns (k: nat)
    requires Steady(start, ticks, gap, lag) && loops.medium > 0.0 && gap >= 0.0 && lag >= 0.0
    requires d.next.medium <= start + loops.medium && d.controller.machine.since <= start
    requires NonNegative(cfg.t)
    requires Laws.AlwaysShort(Laws.Signals(cfg, Decided(loops, d.next, ticks)))
    requires ticks != [] && ticks[|ticks| - 1].now >= start + cfg.t.activationDwell + 3.0 * (loops.medium + gap + lag)
    ensures k < |Decided(loops, d.next, ticks)|
    ensures Decided(loops, d.next, ticks)[k].now <= start + cfg.t.activationDwell + 2.0 * (loops.medium + gap + lag)
    ensures forall n :: k < n <= |Decided(loops, d.next, ticks)| ==>
              At(cfg.t, d.controller.machine, Laws.Signals(cfg, Decided(loops, d.next, ticks)), n).state.Active?
    ensures RunTicks(cfg, loops, d, ticks).controller.machine.state.Active?
  {
    var g := loops.medium + gap + lag;
    var xs := Decided(loops, d.next, ticks);
    DecisionsAreSpaced(loops, d.next, start, ticks, gap, lag);
    EnoughDecisions(loops, d.next, start, ticks, gap, lag, cfg.t.activationDwell);
    k := Laws.BackupActivatesInTime(cfg, d.controller, start, xs, g);
    MachineOfTicks(cfg, loops, d, ticks);
  }

  /** End to end the other way: while every decision sees capacity recovered, nothing is
      spent any more after the recovery dwell plus twice the spacing. */
  lemma ReleasesInTime(cfg: Config, loops: Loops, d: Daemon, start: real, ticks: seq<Tick>, gap: real, lag: real)
    returns (k: nat)
    requires Steady(start, ticks, gap, lag) && loops.medium > 0.0 && gap >= 0.0 && lag >= 0.0
    requires d.next.medium <= start + loops.medium && d.controller.machine.since <= start
    requires NonNegative(cfg.t)
    requires Laws.AlwaysRecovered(Laws.Signals(cfg, Decided(loops, d.next, ticks)))
    requires ticks != [] && ticks[|ticks| - 1].now >= start + cfg.t.recoveryDwell + 3.0 * (loops.medium + gap + lag)
    ensures k < |Decided(loops, d.next, ticks)|
    ensures Decided(loops, d.next, ticks)[k].now <= start + cfg.t.recoveryDwell + 2.0 * (loops.medium + gap + lag)
    ensures forall n :: k < n <= |Decided(loops, d.next, ticks)| ==>
              At(cfg.t, d.controller.machine, Laws.Signals(cfg, Decided(loops, d.next, ticks)), n).state.Idle?
    ensures RunTicks(cfg, loops, d, ticks).controller.machine.state.Idle?
  {
    var g := loops.medium + gap + lag;
    var xs := Decided(loops, d.next, ticks);
    DecisionsAreSpaced(loops, d.next, start, ticks, gap, lag);
    EnoughDecisions(loops, d.next, start, ticks, gap, lag, cfg.t.recoveryDwell);
    k := Laws.BackupReleasesInTime(cfg, d.controller, start, xs, g);
    MachineOfTicks(cfg, loops, d, ticks);
  }
}
