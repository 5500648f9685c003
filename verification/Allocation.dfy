/** The controller: what one decision makes of the connections, the demand and
    the clock, as functions of the controller's state. */
module Allocation {
  import opened Model
  import opened Belief
  import opened Hysteresis
  import Greedy

  datatype Share = Share(atomicId: Id, profileName: string, ceilingBps: nat)

  datatype Allocation = Allocation(primaryId: Option<Id>, backupActive: bool, shares: seq<Share>, quiesced: set<Id>) {
    /** Equality of `key()`: the shares are compared as a sorted tuple. */
    predicate SameKey(other: Allocation) {
      && primaryId == other.primaryId
      && backupActive == other.backupActive
      && multiset(shares) == multiset(other.shares)
    }
  }

  datatype Action = ActivateBackup | ArmingBackup | NoConnectivity | AllocateNormal

  datatype Entry = Entry(action: Action, normalCapacity: nat, criticalDemand: nat, primaryId: Option<Id>,
                         backupState: BackupState)

  datatype Config = Config(t: Thresholds, profiles: seq<ServiceProfile>, decay: Decay)

  /** What one decision sees. */
  datatype Sample = Sample(now: real, atomics: seq<Atomic>, demand: Demand)

  datatype Controller = Controller(
    machine: Machine,
    lastLiveness: map<Id, real>,
    last: Option<Allocation>,
    journal: seq<Entry>)

  function Fresh(now: real): Controller {
    Controller(Machine(Idle, now, 0), map[], None, [])
  }

  // ---- what is available and wanted -------------------------------------------

  function Filter<T(!new)>(keep: T -> bool, s: seq<T>): (r: seq<T>)
    ensures forall x :: x in r <==> x in s && keep(x)
  {
    if s == [] then []
    else Filter(keep, s[..|s| - 1]) + (if keep(s[|s| - 1]) then [s[|s| - 1]] else [])
  }

  function Pool(atomics: seq<Atomic>): seq<Atomic> {
    Filter((a: Atomic) => a.InNormalPool(), atomics)
  }

  function Backups(atomics: seq<Atomic>): seq<Atomic> {
    Filter((a: Atomic) => a.PresentBackup(), atomics)
  }

  /** Capacity we are willing to believe. */
  function UsableCapacity(cfg: Config, pool: seq<Atomic>, now: real): nat {
    if pool == [] then 0
    else UsableCapacity(cfg, pool[..|pool| - 1], now)
         + Believed(cfg.decay, cfg.t.minConfidence, pool[|pool| - 1].capacity, now)
  }

  function WantedDown(demand: Demand, name: string): nat {
    if name in demand then demand[name].downBps else 0
  }

  /** A first packet shows up as upload only, so either direction opens a route. */
  function Wanted(demand: Demand, name: string): nat {
    if name in demand then Max(demand[name].downBps, demand[name].upBps) else 0
  }

  function DemandFor(profiles: seq<ServiceProfile>, demand: Demand, priority: Priority): nat {
    if profiles == [] then 0
    else
      var p := profiles[|profiles| - 1];
      DemandFor(profiles[..|profiles| - 1], demand, priority)
      + (if p.priority == priority then WantedDown(demand, p.name) else 0)
  }

  // ---- choosing connections -----------------------------------------------------

  /** `-(rtt_ms or 9999)`: an unknown or zero round trip counts as a very long one. */
  function Latency(a: Atomic): real {
    if a.rttMs.None? || a.rttMs.value == 0.0 then 9999.0 else a.rttMs.value
  }

  predicate Trusted(cfg: Config, a: Atomic, now: real) {
    DecayConfidence(cfg.decay, a.capacity, now) >= cfg.t.minConfidence
  }

  /** The selection key of a is strictly greater than that of b. */
  predicate Better(cfg: Config, now: real, a: Atomic, b: Atomic) {
    var ta, tb := Trusted(cfg, a, now), Trusted(cfg, b, now);
    if ta != tb then ta
    else if a.capacity.downBps != b.capacity.downBps then a.capacity.downBps > b.capacity.downBps
    else Latency(a) < Latency(b)
  }

  /** The first of the best, as `max` returns it. */
  function FirstBest(cfg: Config, now: real, candidates: seq<Atomic>): (best: Atomic)
    requires candidates != []
    ensures best in candidates
    ensures forall a :: a in candidates ==> !Better(cfg, now, a, best)
  {
    var n := |candidates| - 1;
    if n == 0 then candidates[0]
    else
      var best := FirstBest(cfg, now, candidates[..n]);
      assert forall a :: a in candidates ==> a in candidates[..n] || a == candidates[n];
      if Better(cfg, now, candidates[n], best) then candidates[n] else best
  }

  function Best(cfg: Config, pool: seq<Atomic>, now: real): (best: Option<Atomic>)
    ensures best.None? <==> pool == []
    ensures best.Some? ==> best.value in pool
    ensures best.Some? && (exists a :: a in pool && a.health.Good?) ==> best.value.health.Good?
    ensures best.Some? ==>
              forall a :: a in pool && (a.health.Good? || !best.value.health.Good?) ==> !Better(cfg, now, a, best.value)
  {
    if pool == [] then None
    else
      var healthy := Filter((a: Atomic) => a.health.Good?, pool);
      Some(FirstBest(cfg, now, if healthy == [] then pool else healthy))
  }

  function Largest(candidates: seq<Atomic>): (best: Atomic)
    requires candidates != []
    ensures best in candidates
    ensures forall a :: a in candidates ==> a.capacity.downBps <= best.capacity.downBps
  {
    var n := |candidates| - 1;
    if n == 0 then candidates[0]
    else
      var best := Largest(candidates[..n]);
      if candidates[n].capacity.downBps > best.capacity.downBps then candidates[n] else best
  }

  function ChosenBackup(backups: seq<Atomic>): (chosen: Option<Atomic>)
    ensures chosen.Some? <==> exists b :: b in backups && !b.health.Down?
    ensures chosen.Some? ==> chosen.value in backups && !chosen.value.health.Down?
    ensures chosen.Some? ==>
              forall b :: b in backups && !b.health.Down? ==> b.capacity.downBps <= chosen.value.capacity.downBps
  {
    var usable := Filter((b: Atomic) => !b.health.Down?, backups);
    if usable == [] then None else assert usable[0] in usable; Some(Largest(usable))
  }

  // ---- one decision ---------------------------------------------------------------

  function CriticalDemand(cfg: Config, x: Sample): nat {
    DemandFor(cfg.profiles, x.demand, Critical)
  }

  function NormalCapacity(cfg: Config, x: Sample): nat {
    UsableCapacity(cfg, Pool(x.atomics), x.now)
  }

  function SignalOf(cfg: Config, x: Sample): Signal {
    Signal(
      x.now,
      CriticalDemand(cfg, x) - NormalCapacity(cfg, x) > cfg.t.activationDeficitBps,
      NormalCapacity(cfg, x) >= CriticalDemand(cfg, x) + cfg.t.recoveryMarginBps,
      ChosenBackup(Backups(x.atomics)).Some?)
  }

  function ByPriority(profiles: seq<ServiceProfile>): seq<ServiceProfile> {
    Filter((p: ServiceProfile) => p.priority.Critical?, profiles)
    + Filter((p: ServiceProfile) => p.priority.BestEffort?, profiles)
  }

  function Wants(profiles: seq<ServiceProfile>, demand: Demand): (w: seq<nat>)
    ensures |w| == |profiles|
  {
    seq(|profiles|, i requires 0 <= i < |profiles| => Wanted(demand, profiles[i].name))
  }

  function PrimaryShares(profiles: seq<ServiceProfile>, id: Id, headroom: nat, demand: Demand): (s: seq<Share>)
    ensures |s| == |profiles|
  {
    var grants := Greedy.Grants(Wants(profiles, demand), headroom);
    seq(|profiles|, i requires 0 <= i < |profiles| => Share(id, profiles[i].name, grants[i]))
  }

  function BackupShare(id: Id, p: ServiceProfile, demand: Demand): Share {
    Share(id, p.name, if p.mayUseBackup then WantedDown(demand, p.name) else 0)
  }

  function BackupShares(profiles: seq<ServiceProfile>, id: Id, demand: Demand): (s: seq<Share>)
    ensures |s| == |profiles|
  {
    seq(|profiles|, i requires 0 <= i < |profiles| => BackupShare(id, profiles[i], demand))
  }

  function Quiesced(pool: seq<Atomic>, primary: Option<Atomic>, backup: Option<Atomic>, backupActive: bool): set<Id> {
    (if backup.Some? && !backupActive then {backup.value.id} else {}) + PassedOver(pool, primary)
  }

  function PassedOver(pool: seq<Atomic>, primary: Option<Atomic>): set<Id> {
    set a | a in pool && (primary.None? || a.id != primary.value.id) :: a.id
  }

  function Build(cfg: Config, pool: seq<Atomic>, primary: Option<Atomic>, backup: Option<Atomic>,
                 backupActive: bool, capacity: nat, demand: Demand): Allocation {
    Allocation(
      if primary.Some? then Some(primary.value.id) else None,
      backupActive,
      (if primary.Some? && primary != backup
       then PrimaryShares(ByPriority(cfg.profiles), primary.value.id, capacity, demand) else [])
      + (if backup.Some? && backupActive then BackupShares(cfg.profiles, backup.value.id, demand) else []),
      Quiesced(pool, primary, backup, backupActive))
  }

  function Baselines(last: map<Id, real>, backups: seq<Atomic>, now: real): map<Id, real> {
    if backups == [] then last
    else
      var before := Baselines(last, backups[..|backups| - 1], now);
      var id := backups[|backups| - 1].id;
      if id in before then before else before[id := now]
  }

  function Primary(cfg: Config, x: Sample, backupActive: bool): Option<Atomic> {
    var best := Best(cfg, Pool(x.atomics), x.now);
    if best.Some? then best else if backupActive then ChosenBackup(Backups(x.atomics)) else None
  }

  function Allocate(cfg: Config, m: Machine, x: Sample): Allocation {
    var backup := ChosenBackup(Backups(x.atomics));
    var backupActive := m.state.Active? && backup.Some?;
    Build(cfg, Pool(x.atomics), Primary(cfg, x, backupActive), backup, backupActive, NormalCapacity(cfg, x), x.demand)
  }

  function Explain(cfg: Config, m: Machine, a: Allocation, x: Sample): Entry {
    Entry(
      if a.backupActive then ActivateBackup
      else if m.state.Arming? then ArmingBackup
      else if a.primaryId.None? then NoConnectivity
      else AllocateNormal,
      NormalCapacity(cfg, x), CriticalDemand(cfg, x), a.primaryId, m.state)
  }

  function Decide(cfg: Config, c: Controller, x: Sample): (c': Controller)
    ensures c'.last.Some?
  {
    var m := Step(cfg.t, c.machine, SignalOf(cfg, x));
    var a := Allocate(cfg, m, x);
    Controller(
      m,
      Baselines(c.lastLiveness, Backups(x.atomics), x.now),
      Some(a),
      if c.last.Some? && a.SameKey(c.last.value) then c.journal else c.journal + [Explain(cfg, m, a, x)])
  }

  // ---- liveness -----------------------------------------------------------------

  /** Whether a backup is owed its accounted liveness probe: never while a backup is
      carrying real traffic, and only a full interval after its clock was last set. */
  predicate Due(t: Thresholds, last: map<Id, real>, active: bool, a: Atomic, now: real) {
    a.PresentBackup() && !active && a.id in last && now - last[a.id] >= t.livenessInterval
  }
}
