/** The allocator object: the source's mutable fields and step-by-step methods,
    each proved to compute the decision functions. */
module Allocator {
  import opened Model
  import opened Belief
  import opened Hysteresis
  import opened Allocation
  import Greedy

  class Allocator {
    const cfg: Config
    var state: BackupState
    var since: real
    var transitions: nat
    var lastLiveness: map<Id, real>
    var last: Option<Allocation>
    var journal: seq<Entry>

    ghost function Value(): Controller
      reads this
    {
      Controller(Machine(state, since, transitions), lastLiveness, last, journal)
    }

    constructor (cfg: Config, now: real)
      ensures this.cfg == cfg
      ensures Value() == Fresh(now)
    {
      this.cfg := cfg;
      state, since, transitions := Idle, now, 0;
      lastLiveness, last, journal := map[], None, [];
    }

    method EnterState(to: BackupState, now: real)
      modifies this`state, this`since
      ensures Machine(state, since, transitions) == Enter(old(Machine(state, since, transitions)), to, now)
    {
      if to == state {
        return;
      }
      state := to;
      since := now;
    }

    method StepHysteresis(s: Signal)
      modifies this`state, this`since, this`transitions
      ensures Machine(state, since, transitions) == Step(cfg.t, old(Machine(state, since, transitions)), s)
    {
      var elapsed := s.now - since;
      match state
      case Idle =>
        if s.inDeficit && s.haveBackup {
          EnterState(Arming, s.now);
        }
      case Arming =>
        if !s.inDeficit || !s.haveBackup {
          EnterState(Idle, s.now);
        } else if elapsed >= cfg.t.activationDwell {
          EnterState(Active, s.now);
          transitions := transitions + 1;
        }
      case Active =>
        if !s.haveBackup {
          EnterState(Idle, s.now);
        } else if s.recovered {
          EnterState(Releasing, s.now);
        }
      case Releasing =>
        if !s.recovered {
          EnterState(Arming, s.now);
        } else if elapsed >= cfg.t.recoveryDwell {
          EnterState(Idle, s.now);
          transitions := transitions + 1;
        }
    }

    method SumUsable(pool: seq<Atomic>, now: real) returns (total: nat)
      ensures total == UsableCapacity(cfg, pool, now)
    {
      total := 0;
      for i := 0 to |pool|
        invariant total == UsableCapacity(cfg, pool[..i], now)
      {
        var c := pool[i].capacity;
        if DecayConfidence(cfg.decay, c, now) >= cfg.t.minConfidence {
          total := total + c.downBps;
        } else if c.measuredAt.None? {
          total := total + BOOTSTRAP_HEADROOM_BPS;
        }
        assert pool[..i + 1][..i] == pool[..i];
      }
      assert pool[..|pool|] == pool;
    }

    method SumDemand(demand: Demand, priority: Priority) returns (total: nat)
      ensures total == DemandFor(cfg.profiles, demand, priority)
    {
      total := 0;
      for i := 0 to |cfg.profiles|
        invariant total == DemandFor(cfg.profiles[..i], demand, priority)
      {
        var p := cfg.profiles[i];
        if p.priority == priority && p.name in demand {
          total := total + demand[p.name].downBps;
        }
        assert cfg.profiles[..i + 1][..i] == cfg.profiles[..i];
      }
      assert cfg.profiles[..|cfg.profiles|] == cfg.profiles;
    }

    method SetBaselines(backups: seq<Atomic>, now: real)
      modifies this`lastLiveness
      ensures lastLiveness == Baselines(old(lastLiveness), backups, now)
    {
      for i := 0 to |backups|
        invariant lastLiveness == Baselines(old(lastLiveness), backups[..i], now)
      {
        if backups[i].id !in lastLiveness {
          lastLiveness := lastLiveness[backups[i].id := now];
        }
        assert backups[..i + 1][..i] == backups[..i];
      }
      assert backups[..|backups|] == backups;
    }

    /** Critical is served first; best effort gets what survives. */
    method ShareOut(profiles: seq<ServiceProfile>, id: Id, capacity: nat, demand: Demand) returns (shares: seq<Share>)
      ensures shares == PrimaryShares(profiles, id, capacity, demand)
    {
      shares := [];
      var headroom := capacity;
      ghost var grants := [];
      for i := 0 to |profiles|
        invariant grants == Greedy.Grants(Wants(profiles[..i], demand), capacity)
        invariant headroom == capacity - Greedy.Sum(grants)
        invariant |shares| == i
        invariant forall k :: 0 <= k < i ==> shares[k] == Share(id, profiles[k].name, grants[k])
      {
        var want := if profiles[i].name in demand
          then Max(demand[profiles[i].name].downBps, demand[profiles[i].name].upBps) else 0;
        var give := if headroom != 0 then Min(want, headroom) else 0;
        headroom := Max(0, headroom - give);
        shares := shares + [Share(id, profiles[i].name, give)];
        GrantsOfMore(profiles, i, demand, capacity);
        grants := grants + [give];
      }
      assert profiles[..|profiles|] == profiles;
    }

    /** Only classes permitted to spend money may route here. */
    method ShareBackup(id: Id, demand: Demand) returns (shares: seq<Share>)
      ensures shares == BackupShares(cfg.profiles, id, demand)
    {
      shares := [];
      for i := 0 to |cfg.profiles|
        invariant shares == BackupShares(cfg.profiles, id, demand)[..i]
      {
        var p := cfg.profiles[i];
        if p.mayUseBackup {
          shares := shares + [Share(id, p.name, if p.name in demand then demand[p.name].downBps else 0)];
        } else {
          shares := shares + [Share(id, p.name, 0)];
        }
      }
    }

    method PassOver(pool: seq<Atomic>, primary: Option<Atomic>) returns (quiesced: set<Id>)
      ensures quiesced == PassedOver(pool, primary)
    {
      quiesced := {};
      for i := 0 to |pool|
        invariant quiesced == PassedOver(pool[..i], primary)
      {
        if primary.None? || pool[i].id != primary.value.id {
          quiesced := quiesced + {pool[i].id};
        }
        assert pool[..i + 1] == pool[..i] + [pool[i]];
      }
      assert pool[..|pool|] == pool;
    }

    method BuildAllocation(pool: seq<Atomic>, primary: Option<Atomic>, backup: Option<Atomic>,
                           backupActive: bool, capacity: nat, demand: Demand) returns (a: Allocation)
      ensures a == Build(cfg, pool, primary, backup, backupActive, capacity, demand)
    {
      var shares: seq<Share> := [];
      var quiesced: set<Id> := {};
      if primary.Some? && primary != backup {
        shares := ShareOut(ByPriority(cfg.profiles), primary.value.id, capacity, demand);
      }
      if backup.Some? {
        if backupActive {
          var more := ShareBackup(backup.value.id, demand);
          shares := shares + more;
        } else {
          quiesced := {backup.value.id};
        }
      }
      var passedOver := PassOver(pool, primary);
      a := Allocation(if primary.Some? then Some(primary.value.id) else None, backupActive, shares,
                      quiesced + passedOver);
    }

    method ReadSignal(x: Sample) returns (s: Signal, capacity: nat)
      ensures s == SignalOf(cfg, x)
      ensures capacity == NormalCapacity(cfg, x)
    {
      capacity := SumUsable(Pool(x.atomics), x.now);
      var critical := SumDemand(x.demand, Critical);
      var deficit := critical - capacity;
      s := Signal(x.now, deficit > cfg.t.activationDeficitBps, capacity >= critical + cfg.t.recoveryMarginBps,
                  ChosenBackup(Backups(x.atomics)).Some?);
    }

    method AllocateNow(x: Sample, capacity: nat) returns (a: Allocation)
      requires capacity == NormalCapacity(cfg, x)
      ensures a == Allocate(cfg, Machine(state, since, transitions), x)
    {
      var pool, backup := Pool(x.atomics), ChosenBackup(Backups(x.atomics));
      var backupActive := state.Active? && backup.Some?;
      var best := Best(cfg, pool, x.now);
      var primary := if best.Some? then best else if backupActive then backup else None;
      a := BuildAllocation(pool, primary, backup, backupActive, capacity, x.demand);
    }

    method DecideNow(x: Sample) returns (a: Allocation)
      modifies this
      ensures Value() == Decide(cfg, old(Value()), x)
      ensures last == Some(a)
    {
      SetBaselines(Backups(x.atomics), x.now);
      var s, capacity := ReadSignal(x);
      StepHysteresis(s);
      a := AllocateNow(x, capacity);
      if last.None? || !a.SameKey(last.value) {
        journal := journal + [Explain(cfg, Machine(state, since, transitions), a, x)];
      }
      last := Some(a);
    }

    /** Whether a backup is owed its accounted probe; reads only. */
    function DueForLiveness(a: Atomic, now: real): (due: bool)
      reads this
      ensures due == Due(cfg.t, lastLiveness, state.Active?, a, now)
    {
      if !a.mode.Backup? || !a.present then false
      else if state.Active? then false
      else if a.id !in lastLiveness then false
      else now - lastLiveness[a.id] >= cfg.t.livenessInterval
    }

    method MarkLivenessProbed(id: Id, now: real)
      modifies this`lastLiveness
      ensures lastLiveness == old(lastLiveness)[id := now]
    {
      lastLiveness := lastLiveness[id := now];
    }
  }

  /** What the next class is granted, and what that leaves. */
  lemma GrantsOfMore(profiles: seq<ServiceProfile>, i: nat, demand: Demand, capacity: nat)
    requires i < |profiles|
    ensures var grants := Greedy.Grants(Wants(profiles[..i], demand), capacity);
            Greedy.Sum(grants) <= capacity &&
            var give := Min(Wanted(demand, profiles[i].name), capacity - Greedy.Sum(grants));
            && Greedy.Grants(Wants(profiles[..i + 1], demand), capacity) == grants + [give]
            && Greedy.Sum(grants + [give]) == Greedy.Sum(grants) + give
  {
    var want := Wanted(demand, profiles[i].name);
    var wants := Wants(profiles[..i], demand);
    Greedy.GrantsSnoc(wants, want, capacity);
    assert Wants(profiles[..i + 1], demand) == wants + [want];
    Greedy.SumSnoc(Greedy.Grants(wants, capacity), Min(want, capacity - Greedy.Sum(Greedy.Grants(wants, capacity))));
  }
}
