/** The daemon object: one tick drives registry, allocator and enforcer in the
    source's order, and amounts to one step of the scheduled run. */
module Daemon {
  import opened Model
  import opened Belief
  import opened Allocation
  import opened Render
  import opened Schedule
  import Kernel
  import Registry
  import Allocator
  import Enforcer

  /** What the world reports when the medium loop runs. */
  datatype Reports = Reports(
    sweep: seq<Atomic>,
    classified: seq<(Id, PortRole, Mode)>,
    measured: seq<(Id, Observation, Health)>,
    measuredAt: real,
    demand: Demand,
    decidedAt: real,
    spentAt: real)

  /** The port pipeline's outcomes as registry updates. */
  function Verdicts(outcomes: seq<(Id, PortRole, Mode)>): (events: seq<Registry.Event>)
    ensures |events| == |outcomes|
  {
    seq(|outcomes|, i requires 0 <= i < |outcomes| => Registry.Classified(outcomes[i].0, outcomes[i].1, outcomes[i].2))
  }

  /** The updates one pass of observations amounts to: each known connection's estimate
      is folded and its health judged, in order. */
  function Estimates(decay: Decay, b: Registry.Book, measured: seq<(Id, Observation, Health)>,
                     now: real): seq<Registry.Event> {
    if measured == [] then []
    else
      var before := Estimates(decay, b, measured[..|measured| - 1], now);
      var (id, o, health) := measured[|measured| - 1];
      var b' := Registry.Updates(b, before);
      if id !in b' then before
      else
        var folded := Fold(decay, b'[id].capacity, o, now);
        before + [Registry.CapacityUpdated(id, folded), Registry.HealthUpdated(id, health)]
  }

  /** All that happens to the registry before a decision: the sweep, the verdicts, the estimates. */
  function Groundwork(decay: Decay, b: Registry.Book, w: Reports): seq<Registry.Event> {
    var known := [Registry.Observed(w.sweep)] + Verdicts(w.classified);
    known + Estimates(decay, Registry.Updates(b, known), w.measured, w.measuredAt)
  }

  /** The connections charged for a liveness probe after deciding on x. */
  function Charged(cfg: Config, c: Controller, x: Sample, backups: seq<Atomic>, spentAt: real): seq<Id> {
    var decided := Decide(cfg, c, x);
    ProbedIds(cfg.t, decided.lastLiveness, decided.machine.state.Active?, backups, spentAt)
  }

  /** One medium loop's effect on the registry. */
  function BookAfter(cfg: Config, b: Registry.Book, c: Controller, w: Reports, x: Sample): Registry.Book {
    Registry.Updates(Registry.Updates(b, Groundwork(cfg.decay, b, w)),
                     Bills(cfg.t, Charged(cfg, c, x, Backups(x.atomics), w.spentAt)))
  }

  /** What rendering does to the kernel: a reconcile if it gave a state, nothing otherwise. */
  function KernelAfter(env: Kernel.Env, k: Kernel.Kernel, r: Option<Result<DesiredState, Id>>, f: Kernel.ReadFaults,
                       luck: Kernel.Luck, at: nat): Kernel.Kernel {
    if r.Some? && r.value.Ok? then Kernel.Reconciled(env, k, r.value.value, f, luck, at) else k
  }

  /** The decision is taken on the reported demand and on the registry as the sweep, the
      verdicts and the estimates have just left it. */
  ghost predicate TakenOn(cfg: Config, b: Registry.Book, w: Reports, x: Sample, backups: seq<Atomic>) {
    && x.now == w.decidedAt && x.demand == w.demand && backups == Backups(x.atomics)
    && Registry.Lists(Registry.Updates(b, Groundwork(cfg.decay, b, w)), x.atomics)
  }

  /** What one tick means for the registry: a due medium loop decides on it and charges it,
      any other tick leaves it alone. */
  ghost predicate Turned(cfg: Config, d: Schedule.Daemon, b: Registry.Book, b': Registry.Book, w: Reports,
                         t: Schedule.Tick) {
    if MediumDue(d.next, t) then TakenOn(cfg, b, w, t.x, t.backups) && b' == BookAfter(cfg, b, d.controller, w, t.x)
    else b' == b
  }

  lemma {:induction false} EstimatesAreEstimates(decay: Decay, b: Registry.Book,
                                                 measured: seq<(Id, Observation, Health)>, now: real)
    ensures forall e :: e in Estimates(decay, b, measured, now) ==> e.CapacityUpdated? || e.HealthUpdated?
  {
    if measured != [] {
      EstimatesAreEstimates(decay, b, measured[..|measured| - 1], now);
    }
  }

  lemma GroundworkIsFree(decay: Decay, b: Registry.Book, w: Reports)
    ensures forall e :: e in Groundwork(decay, b, w) ==> !e.CostAdded?
  {
    EstimatesAreEstimates(decay, Registry.Updates(b, [Registry.Observed(w.sweep)] + Verdicts(w.classified)),
                          w.measured, w.measuredAt);
  }

  lemma OnlyTheSweepIsASweep(decay: Decay, b: Registry.Book, w: Reports)
    ensures forall e :: e in Groundwork(decay, b, w) && e.Observed? ==> e.seen == w.sweep
  {
    EstimatesAreEstimates(decay, Registry.Updates(b, [Registry.Observed(w.sweep)] + Verdicts(w.classified)),
                          w.measured, w.measuredAt);
  }

  lemma TwoMore(b: Registry.Book, done: seq<Registry.Event>, first: Registry.Event, second: Registry.Event)
    ensures Registry.Updates(b, done + [first, second])
            == Registry.Update(Registry.Update(Registry.Updates(b, done), first), second)
  {
    var all := done + [first, second];
    assert all[..|all| - 1] == done + [first];
    assert (done + [first])[..|done|] == done;
  }

  /** The estimate after a pass: each observation of the connection folded in, in order. */
  ghost function Refolded(decay: Decay, c: Capacity, measured: seq<(Id, Observation, Health)>, id: Id,
                          now: real): Capacity {
    if measured == [] then c
    else
      var before, last := Refolded(decay, c, measured[..|measured| - 1], id, now), measured[|measured| - 1];
      if last.0 == id then Fold(decay, before, last.1, now) else before
  }

  /** The health it was judged to have last. */
  ghost function Judged(health: Health, measured: seq<(Id, Observation, Health)>, id: Id): Health {
    if measured == [] then health
    else if measured[|measured| - 1].0 == id then measured[|measured| - 1].2
    else Judged(health, measured[..|measured| - 1], id)
  }

  /** Measuring leaves every connection as it was but for its estimate, into which exactly its own
      observations were folded, and its health; connections not known stay unknown. */
  lemma {:induction false} MeasuringRefolds(decay: Decay, b: Registry.Book, measured: seq<(Id, Observation, Health)>,
                                            now: real)
    ensures var after := Registry.Updates(b, Estimates(decay, b, measured, now));
            && after.Keys == b.Keys
            && forall id :: id in b ==>
                 after[id] == b[id].(capacity := Refolded(decay, b[id].capacity, measured, id, now),
                                     health := Judged(b[id].health, measured, id))
  {
    if |measured| > 0 {
      var before := measured[..|measured| - 1];
      var (id, o, health) := measured[|measured| - 1];
      MeasuringRefolds(decay, b, before, now);
      var done := Estimates(decay, b, before, now);
      if id in Registry.Updates(b, done) {
        var folded := Fold(decay, Registry.Updates(b, done)[id].capacity, o, now);
        TwoMore(b, done, Registry.CapacityUpdated(id, folded), Registry.HealthUpdated(id, health));
      }
    }
  }

  /** Before a decision, in this order: the sweep, then the verdicts on ports, then the pass of
      observations, all on the registry as the one before left it. */
  lemma GroundworkIsThreeSteps(decay: Decay, b: Registry.Book, w: Reports)
    ensures var swept := Registry.Update(b, Registry.Observed(w.sweep));
            var classified := Registry.Updates(swept, Verdicts(w.classified));
            Registry.Updates(b, Groundwork(decay, b, w))
              == Registry.Updates(classified, Estimates(decay, classified, w.measured, w.measuredAt))
  {
    var sweep: seq<Registry.Event> := [Registry.Observed(w.sweep)];
    assert sweep[..0] == [];
    assert Registry.Updates(b, sweep) == Registry.Update(b, sweep[0]);
    Registry.UpdatesAppend(b, sweep, Verdicts(w.classified));
    var known := sweep + Verdicts(w.classified);
    Registry.UpdatesAppend(b, known, Estimates(decay, Registry.Updates(b, known), w.measured, w.measuredAt));
  }

  class Daemon {
    const cfg: Config
    const loops: Loops
    const plan: Plan
    const allocator: Allocator.Allocator
    const registry: Registry.Registry
    const enforcer: Enforcer.LinuxEnforcer
    var nextFast: real
    var nextMedium: real
    var nextSlow: real
    var nextTelemetry: real
    var allocation: Option<Allocation>

    ghost predicate Valid()
      reads this, allocator, registry, enforcer
    {
      allocator.cfg == cfg && registry.Valid() && enforcer.Valid() && allocation == allocator.last
    }

    ghost function Value(): Schedule.Daemon
      reads this, allocator
    {
      Schedule.Daemon(Next(nextFast, nextMedium, nextSlow, nextTelemetry), allocator.Value())
    }

    /** Start from what the state file remembers; without one the file has no entries. */
    constructor (cfg: Config, loops: Loops, plan: Plan, enforcer: Enforcer.LinuxEnforcer, file: Registry.StateFile,
                 now: real, wall: real)
      requires enforcer.Valid()
      ensures Valid() && Value() == Schedule.Daemon(DUE_AT_ONCE, Fresh(now))
      ensures this.cfg == cfg && this.loops == loops && this.plan == plan && this.enforcer == enforcer
      ensures fresh(allocator) && fresh(registry) && registry.atomics == Registry.Load(file, now, wall)
    {
      this.cfg, this.loops, this.plan, this.enforcer := cfg, loops, plan, enforcer;
      nextFast, nextMedium, nextSlow, nextTelemetry := 0.0, 0.0, 0.0, 0.0;
      allocator := new Allocator.Allocator(cfg, now);
      registry := new Registry.Registry.FromFile(file, now, wall);
      allocation := None;
    }

    /** Apply the port pipeline's outcomes. */
    method Classify(outcomes: seq<(Id, PortRole, Mode)>)
      requires registry.Valid()
      modifies registry
      ensures registry.Valid() && registry.atomics == Registry.Updates(old(registry.atomics), Verdicts(outcomes))
    {
      ghost var events := Verdicts(outcomes);
      for i := 0 to |outcomes|
        invariant registry.Valid() && registry.atomics == Registry.Updates(old(registry.atomics), events[..i])
      {
        assert events[..i + 1][..i] == events[..i];
        var (id, role, mode) := outcomes[i];
        var _ := registry.SetRoleAndMode(id, role, mode);
      }
      assert events[..|outcomes|] == events;
    }

    /** Fold each observation into its connection's estimate and judge its health. */
    method Measure(measured: seq<(Id, Observation, Health)>, now: real)
      requires registry.Valid()
      modifies registry
      ensures registry.Valid()
      ensures registry.atomics
              == Registry.Updates(old(registry.atomics), Estimates(cfg.decay, old(registry.atomics), measured, now))
    {
      ghost var book := registry.atomics;
      for i := 0 to |measured|
        invariant registry.Valid()
        invariant registry.atomics == Registry.Updates(book, Estimates(cfg.decay, book, measured[..i], now))
      {
        assert measured[..i + 1][..i] == measured[..i];
        var (id, o, health) := measured[i];
        if id in registry.atomics {
          ghost var done := Estimates(cfg.decay, book, measured[..i], now);
          var c := Fold(cfg.decay, registry.atomics[id].capacity, o, now);
          TwoMore(book, done, Registry.CapacityUpdated(id, c), Registry.HealthUpdated(id, health));
          registry.UpdateCapacity(id, c);
          registry.UpdateHealth(id, health);
        }
      }
      assert measured[..|measured|] == measured;
    }

    /** Probe and charge every backup that is due; no other cost is touched. */
    method SpendLiveness(backups: seq<Atomic>, now: real)
      requires registry.Valid() && allocator.cfg == cfg
      modifies allocator`lastLiveness, registry
      ensures registry.Valid()
      ensures allocator.lastLiveness == Probe(cfg.t, old(allocator.lastLiveness), allocator.state.Active?, backups, now)
      ensures registry.atomics == Registry.Updates(old(registry.atomics),
                Bills(cfg.t, ProbedIds(cfg.t, old(allocator.lastLiveness), allocator.state.Active?, backups, now)))
    {
      ghost var last, active, book := allocator.lastLiveness, allocator.state.Active?, registry.atomics;
      ghost var ids := [];
      for i := 0 to |backups|
        invariant registry.Valid()
        invariant allocator.lastLiveness == Probe(cfg.t, last, active, backups[..i], now)
        invariant ids == ProbedIds(cfg.t, last, active, backups[..i], now)
        invariant registry.atomics == Registry.Updates(book, Bills(cfg.t, ids))
      {
        assert backups[..i + 1][..i] == backups[..i];
        if allocator.DueForLiveness(backups[i], now) {
          allocator.MarkLivenessProbed(backups[i].id, now);
          registry.AddCost(backups[i].id, 0, cfg.t.livenessBytes);
          assert Bills(cfg.t, ids + [backups[i].id])[..|ids|] == Bills(cfg.t, ids);
          ids := ids + [backups[i].id];
        }
      }
      assert backups[..|backups|] == backups;
    }

    /** Discover, classify, measure: the registry as the decision will see it. */
    method LayGroundwork(w: Reports)
      requires registry.Valid()
      modifies registry
      ensures registry.Valid()
      ensures registry.atomics
              == Registry.Updates(old(registry.atomics), Groundwork(cfg.decay, old(registry.atomics), w))
    {
      ghost var book := registry.atomics;
      ghost var sweep := [Registry.Observed(w.sweep)];
      registry.Observe(w.sweep);
      assert sweep[..0] == [] && Registry.Updates(book, sweep) == registry.atomics;
      Classify(w.classified);
      Registry.UpdatesAppend(book, sweep, Verdicts(w.classified));
      ghost var known := sweep + Verdicts(w.classified);
      ghost var estimates := Estimates(cfg.decay, registry.atomics, w.measured, w.measuredAt);
      Measure(w.measured, w.measuredAt);
      Registry.UpdatesAppend(book, known, estimates);
    }

    /** Discover, classify, measure, decide, spend. */
    method MediumLoop(w: Reports) returns (ghost x: Sample, ghost backups: seq<Atomic>)
      requires Valid()
      modifies allocator, registry, this`allocation
      ensures Valid()
      ensures allocator.Value() == Schedule.MediumLoop(cfg, old(allocator.Value()), x, backups, w.spentAt)
      ensures TakenOn(cfg, old(registry.atomics), w, x, backups)
      ensures registry.atomics == BookAfter(cfg, old(registry.atomics), old(allocator.Value()), w, x)
    {
      LayGroundwork(w);
      var atomics := registry.All();
      x := Sample(w.decidedAt, atomics, w.demand);
      var a := allocator.DecideNow(Sample(w.decidedAt, atomics, w.demand));
      allocation := Some(a);
      backups := Backups(atomics);
      SpendLiveness(Backups(atomics), w.spentAt);
    }

    /** Render the allocation in force and reconcile the kernel with it. */
    method FastLoop(f: Kernel.ReadFaults) returns (r: Option<Result<DesiredState, Id>>)
      requires Valid()
      modifies enforcer
      ensures Valid()
      ensures r == if allocation.None? then None else Some(Render.Render(plan, allocation.value, registry.atomics))
      ensures enforcer.kernel
              == KernelAfter(enforcer.env, old(enforcer.kernel), r, f, enforcer.luck, |old(enforcer.issued)|)
    {
      r := None;
      if allocation.Some? {
        var d := RenderState(plan, allocation.value, registry.atomics);
        r := Some(d);
        if d.Ok? {
          enforcer.Reconcile(d.value, f);
        }
      }
    }

    /** Run the medium loop if it is due, and say when it is next. */
    method MediumIfDue(now: real, w: Reports) returns (ghost t: Schedule.Tick)
      requires Valid()
      modifies allocator, registry, this`allocation, this`nextMedium
      ensures Valid()
      ensures t.now == now && t.view == registry.atomics && t.x.now == w.decidedAt && t.spendAt == w.spentAt
      ensures nextMedium == if now >= old(nextMedium) then now + loops.medium else old(nextMedium)
      ensures allocator.Value() == RunTick(cfg, loops, old(Value()), t).controller
      ensures Turned(cfg, old(Value()), old(registry.atomics), registry.atomics, w, t)
    {
      ghost var x, backups := Sample(w.decidedAt, [], w.demand), [];
      if now >= nextMedium {
        nextMedium := now + loops.medium;
        x, backups := MediumLoop(w);
      }
      t := Schedule.Tick(now, x, backups, w.spentAt, registry.atomics);
    }

    /** Run the fast loop if it is due, and say when it is next. */
    method FastIfDue(now: real, f: Kernel.ReadFaults) returns (r: Option<Result<DesiredState, Id>>)
      requires Valid()
      modifies enforcer, this`nextFast
      ensures Valid()
      ensures nextFast == if now >= old(nextFast) then now + loops.fast else old(nextFast)
      ensures r == if now >= old(nextFast) && allocation.Some?
                then Some(Render.Render(plan, allocation.value, registry.atomics)) else None
      ensures enforcer.kernel
              == KernelAfter(enforcer.env, old(enforcer.kernel), r, f, enforcer.luck, |old(enforcer.issued)|)
    {
      r := None;
      if now >= nextFast {
        nextFast := now + loops.fast;
        r := FastLoop(f);
      }
    }

    /** Run the slow loop and the telemetry flush if they are due: only their dates matter here. */
    method RestIfDue(now: real)
      modifies this`nextSlow, this`nextTelemetry
      ensures nextSlow == if now >= old(nextSlow) then now + loops.slow else old(nextSlow)
      ensures nextTelemetry == if now >= old(nextTelemetry) then now + loops.flush else old(nextTelemetry)
    {
      if now >= nextSlow {
        nextSlow := now + loops.slow;
      }
      if now >= nextTelemetry {
        nextTelemetry := now + loops.flush;
      }
    }

    /** One scheduler pass: medium before fast, so a new decision is enforced at once. */
    method Tick(now: real, w: Reports, f: Kernel.ReadFaults)
      returns (ghost t: Schedule.Tick, r: Option<Result<DesiredState, Id>>)
      requires Valid()
      modifies this, allocator, registry, enforcer
      ensures Valid()
      ensures t.now == now && t.view == registry.atomics && t.x.now == w.decidedAt && t.spendAt == w.spentAt
      ensures Turned(cfg, old(Value()), old(registry.atomics), registry.atomics, w, t)
      ensures Value() == RunTick(cfg, loops, old(Value()), t)
      ensures r == Rendered(cfg, loops, plan, old(Value()), t)
      ensures enforcer.kernel
              == KernelAfter(enforcer.env, old(enforcer.kernel), r, f, enforcer.luck, |old(enforcer.issued)|)
    {
      ghost var d := Value();
      t := MediumIfDue(now, w);
      TickHalves(cfg, loops, plan, d, t, allocator.Value());
      r := FastIfDue(now, f);
      RestIfDue(now);
    }
  }

  /** A tick is what its medium half does to the controller and the new dates, and the fast
      half renders what the medium half leaves in force. */
  lemma TickHalves(cfg: Config, loops: Loops, plan: Plan, d: Schedule.Daemon, t: Schedule.Tick, c: Controller)
    requires c == RunTick(cfg, loops, d, t).controller
    ensures RunTick(cfg, loops, d, t) == Schedule.Daemon(Later(loops, d.next, t.now), c)
    ensures Rendered(cfg, loops, plan, d, t)
         == if t.now >= d.next.fast && c.last.Some? then Some(Render.Render(plan, c.last.value, t.view)) else None
  {
  }
}
