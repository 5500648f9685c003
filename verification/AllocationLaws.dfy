/** What holds of every decision and of every run of decisions. */
module AllocationLaws {
  import opened Model
  import opened Hysteresis
  import opened Allocation
  import Greedy

  // ---- one decision ----------------------------------------------------------

  /** The machine after a decision on x, whatever it was before. */
  ghost predicate JustStepped(cfg: Config, m: Machine, x: Sample) {
    exists before :: m == Step(cfg.t, before, SignalOf(cfg, x))
  }

  /** Active means there is a live backup to be active on. */
  lemma ActiveIffBackupActive(cfg: Config, m: Machine, x: Sample)
    requires JustStepped(cfg, m, x)
    ensures Allocate(cfg, m, x).backupActive <==> m.state.Active?
  {
  }

  lemma DistinctById(atomics: seq<Atomic>, a: Atomic, b: Atomic)
    requires DistinctIds(atomics) && a in atomics && b in atomics && a != b
    ensures a.id != b.id
  {
    var i :| 0 <= i < |atomics| && atomics[i] == a;
    var j :| 0 <= j < |atomics| && atomics[j] == b;
  }

  /** A connection a machine in state m may put traffic on. */
  ghost predicate MayCarry(m: Machine, a: Atomic) {
    a.InNormalPool() || (m.state.Active? && a.PresentBackup() && !a.health.Down?)
  }

  /** A share belongs to the primary or to the backup in use. */
  lemma ShareIsOnChosen(cfg: Config, pool: seq<Atomic>, primary: Option<Atomic>, backup: Option<Atomic>,
                        active: bool, capacity: nat, demand: Demand, s: Share)
    requires s in Build(cfg, pool, primary, backup, active, capacity, demand).shares
    ensures || (primary.Some? && primary != backup && s.atomicId == primary.value.id)
            || (backup.Some? && active && s.atomicId == backup.value.id)
  {
  }

  lemma ChosenAreFromSample(cfg: Config, x: Sample, active: bool)
    ensures var primary, backup := Primary(cfg, x, active), ChosenBackup(Backups(x.atomics));
            && (primary.Some? && primary != backup ==> primary.value in x.atomics && primary.value.InNormalPool())
            && (backup.Some? ==>
                backup.value in x.atomics && backup.value.PresentBackup() && !backup.value.health.Down?)
  {
  }

  lemma BackupIsNotInPool(atomics: seq<Atomic>, backup: Atomic)
    requires DistinctIds(atomics) && backup in atomics && backup.PresentBackup()
    ensures forall p :: p in Pool(atomics) ==> p.id != backup.id
  {
    forall p | p in Pool(atomics) ensures p.id != backup.id {
      DistinctById(atomics, p, backup);
    }
  }

  lemma BuiltShareIsApart(cfg: Config, pool: seq<Atomic>, primary: Option<Atomic>, backup: Option<Atomic>,
                          active: bool, capacity: nat, demand: Demand, s: Share)
    requires s in Build(cfg, pool, primary, backup, active, capacity, demand).shares
    requires primary.Some? && backup.Some? && primary != backup ==> primary.value.id != backup.value.id
    requires backup.Some? ==> forall p :: p in pool ==> p.id != backup.value.id
    ensures s.atomicId !in Build(cfg, pool, primary, backup, active, capacity, demand).quiesced
  {
    ShareIsOnChosen(cfg, pool, primary, backup, active, capacity, demand, s);
  }

  lemma ChosenAreApart(cfg: Config, x: Sample, active: bool)
    requires DistinctIds(x.atomics)
    ensures var primary, backup := Primary(cfg, x, active), ChosenBackup(Backups(x.atomics));
            && (primary.Some? && backup.Some? && primary != backup ==> primary.value.id != backup.value.id)
            && (backup.Some? ==> forall p :: p in Pool(x.atomics) ==> p.id != backup.value.id)
  {
    var primary, backup := Primary(cfg, x, active), ChosenBackup(Backups(x.atomics));
    ChosenAreFromSample(cfg, x, active);
    if backup.Some? {
      BackupIsNotInPool(x.atomics, backup.value);
      if primary.Some? && primary != backup {
        DistinctById(x.atomics, primary.value, backup.value);
      }
    }
  }

  lemma ShareIsApart(cfg: Config, m: Machine, x: Sample, s: Share)
    requires DistinctIds(x.atomics) && s in Allocate(cfg, m, x).shares
    ensures s.atomicId !in Allocate(cfg, m, x).quiesced
    ensures exists at :: at in x.atomics && at.id == s.atomicId && MayCarry(m, at)
  {
    var backup := ChosenBackup(Backups(x.atomics));
    var active := m.state.Active? && backup.Some?;
    var primary := Primary(cfg, x, active);
    ChosenAreApart(cfg, x, active);
    ChosenAreFromSample(cfg, x, active);
    BuiltShareIsApart(cfg, Pool(x.atomics), primary, backup, active, NormalCapacity(cfg, x), x.demand, s);
    ShareIsOnChosen(cfg, Pool(x.atomics), primary, backup, active, NormalCapacity(cfg, x), x.demand, s);
    if primary.Some? && primary != backup && s.atomicId == primary.value.id {
      assert MayCarry(m, primary.value);
    } else {
      assert MayCarry(m, backup.value);
    }
  }

  /** Every share is on a pool member or on the live backup, and on the latter only
      while the machine is active; nothing shared is quiesced, so rendering an
      allocation never finds its contract broken; all other pool members are quiesced. */
  lemma SharesAndQuiescedAreApart(cfg: Config, m: Machine, x: Sample)
    requires DistinctIds(x.atomics)
    ensures var a := Allocate(cfg, m, x);
            && (forall s :: s in a.shares ==> s.atomicId !in a.quiesced)
            && (forall s :: s in a.shares ==> exists at :: at in x.atomics && at.id == s.atomicId && MayCarry(m, at))
            && (forall p :: p in x.atomics && p.InNormalPool() && Some(p.id) != a.primaryId ==> p.id in a.quiesced)
  {
    var a := Allocate(cfg, m, x);
    forall s | s in a.shares
      ensures s.atomicId !in a.quiesced
      ensures exists at :: at in x.atomics && at.id == s.atomicId && MayCarry(m, at)
    {
      ShareIsApart(cfg, m, x, s);
    }
    OthersAreQuiesced(cfg, m, x);
  }

  lemma OthersAreQuiesced(cfg: Config, m: Machine, x: Sample)
    ensures var a := Allocate(cfg, m, x);
            forall p :: p in x.atomics && p.InNormalPool() && Some(p.id) != a.primaryId ==> p.id in a.quiesced
  {
    var a := Allocate(cfg, m, x);
    forall p | p in x.atomics && p.InNormalPool() && Some(p.id) != a.primaryId ensures p.id in a.quiesced {
      assert p in Pool(x.atomics);
    }
  }

  /** While active, every class has its share on one live backup: what it wants if
      it may spend money, nothing otherwise. */
  lemma ActiveBackupCarriesOnlyPermitted(cfg: Config, m: Machine, x: Sample)
    requires JustStepped(cfg, m, x) && m.state.Active?
    ensures exists b :: b in x.atomics && b.PresentBackup() && !b.health.Down?
              && forall p :: p in cfg.profiles ==>
                   Share(b.id, p.name, if p.mayUseBackup then WantedDown(x.demand, p.name) else 0) in Allocate(cfg, m,
                                                                                                               x).shares
  {
    var a := Allocate(cfg, m, x);
    var b := ChosenBackup(Backups(x.atomics)).value;
    assert b in x.atomics;
    forall p | p in cfg.profiles ensures BackupShare(b.id, p, x.demand) in a.shares {
      var i :| 0 <= i < |cfg.profiles| && cfg.profiles[i] == p;
      assert BackupShares(cfg.profiles, b.id, x.demand)[i] == BackupShare(b.id, p, x.demand);
    }
  }

  // ---- at most one share per connection and class --------------------------------

  ghost predicate OneSharePerClass(shares: seq<Share>) {
    forall i, j :: 0 <= i < j < |shares| ==>
      shares[i].atomicId != shares[j].atomicId || shares[i].profileName != shares[j].profileName
  }

  lemma {:induction false} FilterKeepsDistinct(keep: ServiceProfile -> bool, ps: seq<ServiceProfile>)
    requires DistinctNames(ps)
    ensures DistinctNames(Filter(keep, ps))
  {
    if ps != [] {
      var n := |ps| - 1;
      FilterKeepsDistinct(keep, ps[..n]);
      var kept := Filter(keep, ps[..n]);
      forall i | 0 <= i < |kept| ensures kept[i].name != ps[n].name {
        assert kept[i] in ps[..n];
      }
    }
  }

  lemma SortedKeepsDistinct(ps: seq<ServiceProfile>)
    requires DistinctNames(ps)
    ensures DistinctNames(ByPriority(ps))
  {
    var critical := (p: ServiceProfile) => p.priority.Critical?;
    var bestEffort := (p: ServiceProfile) => p.priority.BestEffort?;
    FilterKeepsDistinct(critical, ps);
    FilterKeepsDistinct(bestEffort, ps);
    var first, second := Filter(critical, ps), Filter(bestEffort, ps);
    forall i, j | 0 <= i < |first| && 0 <= j < |second| ensures first[i].name != second[j].name {
      assert first[i] in first && second[j] in second;
      var k :| 0 <= k < |ps| && ps[k] == first[i];
      var l :| 0 <= l < |ps| && ps[l] == second[j];
    }
  }

  lemma SharesAreUnambiguous(cfg: Config, m: Machine, x: Sample)
    requires DistinctIds(x.atomics) && DistinctNames(cfg.profiles)
    ensures OneSharePerClass(Allocate(cfg, m, x).shares)
  {
    var backup := ChosenBackup(Backups(x.atomics));
    var active := m.state.Active? && backup.Some?;
    var primary := Primary(cfg, x, active);
    ChosenAreFromSample(cfg, x, active);
    if primary.Some? && backup.Some? && primary != backup {
      DistinctById(x.atomics, primary.value, backup.value);
    }
    BuiltSharesAreUnambiguous(cfg, Pool(x.atomics), primary, backup, active, NormalCapacity(cfg, x), x.demand);
  }

  lemma BuiltSharesAreUnambiguous(cfg: Config, pool: seq<Atomic>, primary: Option<Atomic>, backup: Option<Atomic>,
                                  active: bool, capacity: nat, demand: Demand)
    requires DistinctNames(cfg.profiles)
    requires primary.Some? && backup.Some? && primary != backup ==> primary.value.id != backup.value.id
    ensures OneSharePerClass(Build(cfg, pool, primary, backup, active, capacity, demand).shares)
  {
    SortedKeepsDistinct(cfg.profiles);
  }

  // ---- the NORMAL primary's ceilings ------------------------------------------------

  ghost function Ceilings(shares: seq<Share>): seq<nat> {
    seq(|shares|, i requires 0 <= i < |shares| => shares[i].ceilingBps)
  }

  /** The best division of a capacity among wants in priority order: nothing wanted is
      withheld while there is capacity, no feasible division gives the first class it treats
      differently any more, and a shortfall leaves nothing for later classes. */
  ghost predicate BestDivision(c: seq<nat>, wants: seq<nat>, capacity: nat) {
    && Greedy.Feasible(c, wants, capacity)
    && Greedy.Sum(c) == Min(Greedy.Sum(wants), capacity)
    && (forall v :: Greedy.Feasible(v, wants, capacity) ==> Greedy.LexAtMost(v, c))
    && (forall i, j :: 0 <= i < j < |c| && c[i] < wants[i] ==> c[j] == 0)
  }

  lemma GrantsAreBest(wants: seq<nat>, capacity: nat)
    ensures BestDivision(Greedy.Grants(wants, capacity), wants, capacity)
  {
    var c := Greedy.Grants(wants, capacity);
    Greedy.GrantsUseEverything(wants, capacity);
    forall v | Greedy.Feasible(v, wants, capacity) ensures Greedy.LexAtMost(v, c) {
      Greedy.GrantsAreLexGreatest(wants, capacity, v);
    }
    forall i, j | 0 <= i < j < |c| && c[i] < wants[i] ensures c[j] == 0 {
      Greedy.ShortfallStarvesTheRest(wants, capacity, i, j);
    }
  }

  /** With any usable NORMAL connection there is, the allocation starts with one share per
      class on the best of them, in priority order. */
  lemma StartsWithPrimaryShares(cfg: Config, m: Machine, x: Sample)
    requires Pool(x.atomics) != []
    ensures var a, profiles := Allocate(cfg, m, x), ByPriority(cfg.profiles);
            && a.primaryId == Some(Best(cfg, Pool(x.atomics), x.now).value.id)
            && |profiles| <= |a.shares|
            && a.shares[..|profiles|] == PrimaryShares(profiles, a.primaryId.value, NormalCapacity(cfg, x), x.demand)
  {
    var backup := ChosenBackup(Backups(x.atomics));
    var active := m.state.Active? && backup.Some?;
    BuildStartsWithPrimary(cfg, Pool(x.atomics), Primary(cfg, x, active), backup, active, NormalCapacity(cfg, x),
                           x.demand);
  }

  lemma BuildStartsWithPrimary(cfg: Config, pool: seq<Atomic>, primary: Option<Atomic>, backup: Option<Atomic>,
                               active: bool, capacity: nat, demand: Demand)
    requires primary.Some? && primary != backup
    ensures var a, profiles := Build(cfg, pool, primary, backup, active, capacity, demand), ByPriority(cfg.profiles);
            && a.primaryId == Some(primary.value.id) && |profiles| <= |a.shares|
            && a.shares[..|profiles|] == PrimaryShares(profiles, primary.value.id, capacity, demand)
  {
  }

  /** The ceilings an allocation gives on its NORMAL primary. */
  ghost function PrimaryCeilings(cfg: Config, m: Machine, x: Sample): seq<nat>
    requires Pool(x.atomics) != []
  {
    StartsWithPrimaryShares(cfg, m, x);
    Ceilings(Allocate(cfg, m, x).shares[..|ByPriority(cfg.profiles)|])
  }

  lemma CeilingsAreGrants(cfg: Config, m: Machine, x: Sample)
    requires Pool(x.atomics) != []
    ensures PrimaryCeilings(cfg, m, x)
            == Greedy.Grants(Wants(ByPriority(cfg.profiles), x.demand), NormalCapacity(cfg, x))
  {
    StartsWithPrimaryShares(cfg, m, x);
  }

  /** Whatever the state, the ceilings of an allocation with a NORMAL primary are the best
      division of the usable NORMAL capacity, in priority order. */
  lemma PrimarySharesAreOptimal(cfg: Config, m: Machine, x: Sample)
    requires Pool(x.atomics) != []
    ensures BestDivision(PrimaryCeilings(cfg, m, x), Wants(ByPriority(cfg.profiles), x.demand), NormalCapacity(cfg, x))
  {
    CeilingsAreGrants(cfg, m, x);
    GrantsAreBest(Wants(ByPriority(cfg.profiles), x.demand), NormalCapacity(cfg, x));
  }

  /** More usable capacity for the same demand takes from no class. */
  lemma MoreCapacityTakesFromNobody(cfg: Config, m: Machine, x: Sample, n: Machine, y: Sample, i: nat)
    requires Pool(x.atomics) != [] && Pool(y.atomics) != [] && x.demand == y.demand && i < |ByPriority(cfg.profiles)|
    requires NormalCapacity(cfg, x) <= NormalCapacity(cfg, y)
    ensures |PrimaryCeilings(cfg, m, x)| == |PrimaryCeilings(cfg, n, y)| == |ByPriority(cfg.profiles)|
    ensures PrimaryCeilings(cfg, m, x)[i] <= PrimaryCeilings(cfg, n, y)[i]
  {
    CeilingsAreGrants(cfg, m, x);
    CeilingsAreGrants(cfg, n, y);
    Greedy.GrantsAreMonotone(Wants(ByPriority(cfg.profiles), x.demand), NormalCapacity(cfg, x), NormalCapacity(cfg, y),
                             i);
  }

  /** The classes really are in priority order: no critical class after a best-effort one. */
  lemma SortedByPriority(profiles: seq<ServiceProfile>, i: nat, j: nat)
    requires i < j < |ByPriority(profiles)| && ByPriority(profiles)[j].priority.Critical?
    ensures ByPriority(profiles)[i].priority.Critical?
  {
    var sorted := ByPriority(profiles);
    var first := Filter((p: ServiceProfile) => p.priority.Critical?, profiles);
    var second := Filter((p: ServiceProfile) => p.priority.BestEffort?, profiles);
    forall k | 0 <= k < |sorted| ensures sorted[k].priority.Critical? <==> k < |first| {
      assert if k < |first| then sorted[k] in first else sorted[k] in second;
    }
  }

  // ---- runs ---------------------------------------------------------------------------

  function After(cfg: Config, c: Controller, xs: seq<Sample>): Controller {
    if xs == [] then c else Decide(cfg, After(cfg, c, xs[..|xs| - 1]), xs[|xs| - 1])
  }

  ghost function Signals(cfg: Config, xs: seq<Sample>): (s: seq<Signal>)
    ensures |s| == |xs|
  {
    seq(|xs|, i requires 0 <= i < |xs| => SignalOf(cfg, xs[i]))
  }

  lemma SignalsSnoc(cfg: Config, xs: seq<Sample>, x: Sample)
    ensures Signals(cfg, xs + [x]) == Signals(cfg, xs) + [SignalOf(cfg, x)]
  {
  }

  function LastTime(start: real, xs: seq<Sample>): real {
    if xs == [] then start else xs[|xs| - 1].now
  }

  /** Decisions are at most g apart, the first at most g after `start`. */
  ghost predicate SpacedSamples(start: real, xs: seq<Sample>, g: real) {
    xs == [] ||
    (var before := xs[..|xs| - 1];
     SpacedSamples(start, before, g) && LastTime(start, before) <= xs[|xs| - 1].now <= LastTime(start, before) + g)
  }

  ghost predicate SpreadOut(start: real, xs: seq<Sample>, g: real) {
    && (forall k :: 0 <= k < |xs| ==> start <= xs[k].now)
    && (forall j, k :: 0 <= j < k < |xs| ==> xs[j].now <= xs[k].now)
    && (xs != [] ==> xs[0].now <= start + g)
    && (forall k :: 0 < k < |xs| ==> xs[k].now <= xs[k - 1].now + g)
  }

  lemma {:induction false} SpacedSamplesSpreadOut(start: real, xs: seq<Sample>, g: real)
    requires SpacedSamples(start, xs, g)
    ensures SpreadOut(start, xs, g) && start <= LastTime(start, xs)
  {
    if |xs| > 0 {
      SpacedSamplesSpreadOut(start, xs[..|xs| - 1], g);
      SpreadOutSnoc(start, xs, g);
    }
  }

  lemma SpreadOutSnoc(start: real, xs: seq<Sample>, g: real)
    requires |xs| > 0
    requires var before := xs[..|xs| - 1];
             && SpreadOut(start, before, g) && start <= LastTime(start, before)
             && LastTime(start, before) <= xs[|xs| - 1].now <= LastTime(start, before) + g
    ensures SpreadOut(start, xs, g)
  {
    var before, n := xs[..|xs| - 1], |xs| - 1;
    forall k | 0 <= k < |xs| ensures start <= xs[k].now <= xs[n].now {
      if k < n {
        assert before[k] == xs[k] && before[k].now <= before[n - 1].now;
      }
    }
    forall j, k | 0 <= j < k < |xs| ensures xs[j].now <= xs[k].now {
      if k < n {
        assert before[j] == xs[j] && before[k] == xs[k];
      }
    }
    forall k | 0 < k < |xs| ensures xs[k].now <= xs[k - 1].now + g {
      if k < n {
        assert before[k] == xs[k] && before[k - 1] == xs[k - 1];
      }
    }
  }

  lemma SpacedSamplesAreSpacedSignals(cfg: Config, start: real, xs: seq<Sample>, g: real)
    requires SpacedSamples(start, xs, g)
    ensures Spaced(start, Signals(cfg, xs), g)
  {
    SpacedSamplesSpreadOut(start, xs, g);
    SpreadOutSignals(cfg, start, xs, g);
  }

  lemma SpreadOutSignals(cfg: Config, start: real, xs: seq<Sample>, g: real)
    requires SpreadOut(start, xs, g)
    ensures Spaced(start, Signals(cfg, xs), g)
  {
    var s := Signals(cfg, xs);
    assert forall k :: 0 <= k < |xs| ==> s[k].now == xs[k].now;
  }

  /** The activation machine of a run is driven by the run's signals alone. */
  lemma {:induction false} MachineOfRun(cfg: Config, c: Controller, xs: seq<Sample>)
    ensures After(cfg, c, xs).machine == Run(cfg.t, c.machine, Signals(cfg, xs))
  {
    if |xs| > 0 {
      MachineOfRun(cfg, c, xs[..|xs| - 1]);
      MachineAfter(cfg, c, xs);
      SignalsAfter(cfg, c.machine, xs);
    }
  }

  lemma MachineAfter(cfg: Config, c: Controller, xs: seq<Sample>)
    requires |xs| > 0
    ensures After(cfg, c, xs).machine == Step(cfg.t, After(cfg, c, xs[..|xs| - 1]).machine, SignalOf(cfg, xs[|xs| - 1]))
  {
    AfterSnoc(cfg, c, xs);
    MachineOfDecision(cfg, After(cfg, c, xs[..|xs| - 1]), xs[|xs| - 1]);
  }

  lemma SignalsAfter(cfg: Config, m: Machine, xs: seq<Sample>)
    requires |xs| > 0
    ensures Run(cfg.t, m, Signals(cfg, xs))
            == Step(cfg.t, Run(cfg.t, m, Signals(cfg, xs[..|xs| - 1])), SignalOf(cfg, xs[|xs| - 1]))
  {
    assert Signals(cfg, xs)[..|xs| - 1] == Signals(cfg, xs[..|xs| - 1]);
  }

  lemma MachineOfDecision(cfg: Config, c: Controller, x: Sample)
    ensures Decide(cfg, c, x).machine == Step(cfg.t, c.machine, SignalOf(cfg, x))
  {
  }

  lemma LastIsAllocated(cfg: Config, c: Controller, xs: seq<Sample>)
    requires xs != []
    ensures var now := After(cfg, c, xs);
            && now.last == Some(Allocate(cfg, now.machine, xs[|xs| - 1]))
            && JustStepped(cfg, now.machine, xs[|xs| - 1])
            && (now.last.value.backupActive <==> now.machine.state.Active?)
  {
    ActiveIffBackupActive(cfg, After(cfg, c, xs).machine, xs[|xs| - 1]);
  }

  /** The newest journal entry names the primary in force and says whether money is being spent. */
  ghost predicate Explained(c: Controller) {
    c.last.Some? ==>
      && c.journal != []
      && c.journal[|c.journal| - 1].primaryId == c.last.value.primaryId
      && (c.journal[|c.journal| - 1].action.ActivateBackup? <==> c.last.value.backupActive)
  }

  /** What a decision leaves: its allocation and, unless the key is unchanged, one more entry. */
  lemma DecisionWrites(cfg: Config, c: Controller, x: Sample) returns (a: Allocation, e: Entry)
    ensures var c' := Decide(cfg, c, x);
            && c'.last == Some(a)
            && c'.journal == if c.last.Some? && a.SameKey(c.last.value) then c.journal else c.journal + [e]
    ensures e.primaryId == a.primaryId && (e.action.ActivateBackup? <==> a.backupActive)
  {
    var m := Step(cfg.t, c.machine, SignalOf(cfg, x));
    a := Allocate(cfg, m, x);
    e := Explain(cfg, m, a, x);
  }

  lemma DecisionIsExplained(cfg: Config, c: Controller, x: Sample)
    requires Explained(c)
    ensures Explained(Decide(cfg, c, x))
  {
    var a, e := DecisionWrites(cfg, c, x);
    EntryExplains(c, Decide(cfg, c, x), a, e);
  }

  lemma EntryExplains(c: Controller, c': Controller, a: Allocation, e: Entry)
    requires Explained(c) && c'.last == Some(a)
    requires c'.journal == if c.last.Some? && a.SameKey(c.last.value) then c.journal else c.journal + [e]
    requires e.primaryId == a.primaryId && (e.action.ActivateBackup? <==> a.backupActive)
    ensures Explained(c')
  {
  }

  /** After any run of decisions, the journal explains the allocation in force. */
  lemma {:induction false} JournalExplains(cfg: Config, start: real, xs: seq<Sample>)
    ensures Explained(After(cfg, Fresh(start), xs))
  {
    if xs != [] {
      JournalExplains(cfg, start, xs[..|xs| - 1]);
      DecisionIsExplained(cfg, After(cfg, Fresh(start), xs[..|xs| - 1]), xs[|xs| - 1]);
    }
  }

  // ---- non-interference -------------------------------------------------------------------

  /** The same moment, the same connections, and the same demand from protected classes. */
  ghost predicate SameToCritical(profiles: seq<ServiceProfile>, x: Sample, y: Sample) {
    && x.now == y.now && x.atomics == y.atomics
    && forall p :: p in profiles && p.priority.Critical? ==>
       WantedDown(x.demand, p.name) == WantedDown(y.demand, p.name)
  }

  lemma {:induction false} SameCriticalDemand(profiles: seq<ServiceProfile>, x: Sample, y: Sample)
    requires SameToCritical(profiles, x, y)
    ensures DemandFor(profiles, x.demand, Critical) == DemandFor(profiles, y.demand, Critical)
  {
    if profiles != [] {
      SameCriticalDemand(profiles[..|profiles| - 1], x, y);
    }
  }

  /** Two controllers that agree on activation, liveness, the primary and spending. */
  ghost predicate Agree(a: Controller, b: Controller) {
    && a.machine == b.machine
    && a.lastLiveness == b.lastLiveness
    && a.last.Some? == b.last.Some?
    && (a.last.Some? ==> AgreeOn(a.last.value, b.last.value))
  }

  /** All of a signal is seen in times, connections and critical demand. */
  lemma SameSignal(cfg: Config, x: Sample, y: Sample)
    requires SameToCritical(cfg.profiles, x, y)
    ensures SignalOf(cfg, x) == SignalOf(cfg, y)
  {
    SameCriticalDemand(cfg.profiles, x, y);
  }

  ghost predicate AgreeOn(a: Allocation, b: Allocation) {
    a.primaryId == b.primaryId && a.backupActive == b.backupActive && a.quiesced == b.quiesced
  }

  lemma SameAllocation(cfg: Config, m: Machine, x: Sample, y: Sample)
    requires x.now == y.now && x.atomics == y.atomics
    ensures AgreeOn(Allocate(cfg, m, x), Allocate(cfg, m, y))
  {
  }

  lemma DecisionHas(cfg: Config, c: Controller, x: Sample)
    ensures var c' := Decide(cfg, c, x);
            && c'.machine == Step(cfg.t, c.machine, SignalOf(cfg, x))
            && c'.lastLiveness == Baselines(c.lastLiveness, Backups(x.atomics), x.now)
            && c'.last == Some(Allocate(cfg, c'.machine, x))
  {
  }

  lemma SameDecision(cfg: Config, a: Controller, b: Controller, x: Sample, y: Sample)
    requires Agree(a, b) && SameToCritical(cfg.profiles, x, y)
    ensures Agree(Decide(cfg, a, x), Decide(cfg, b, y))
  {
    SameSignal(cfg, x, y);
    DecisionHas(cfg, a, x);
    DecisionHas(cfg, b, y);
    SameAllocation(cfg, Decide(cfg, a, x).machine, x, y);
  }

  /** Whatever best-effort traffic or uploads do, activation, the choice of primary,
      the spending of money and the liveness clock are the same at every step. */
  lemma {:induction false} BestEffortCannotInterfere(cfg: Config, c: Controller, xs: seq<Sample>, ys: seq<Sample>)
    requires |xs| == |ys|
    requires forall i :: 0 <= i < |xs| ==> SameToCritical(cfg.profiles, xs[i], ys[i])
    ensures Agree(After(cfg, c, xs), After(cfg, c, ys))
  {
    if |xs| > 0 {
      var n := |xs| - 1;
      BestEffortCannotInterfere(cfg, c, xs[..n], ys[..n]);
      SameDecision(cfg, After(cfg, c, xs[..n]), After(cfg, c, ys[..n]), xs[n], ys[n]);
      AfterSnoc(cfg, c, xs);
      AfterSnoc(cfg, c, ys);
    }
  }

  lemma AfterSnoc(cfg: Config, c: Controller, xs: seq<Sample>)
    requires |xs| > 0
    ensures After(cfg, c, xs) == Decide(cfg, After(cfg, c, xs[..|xs| - 1]), xs[|xs| - 1])
  {
  }

  /** A single undifferentiated hotspot has nothing that may activate a backup. */
  lemma {:induction false} SingleLanNeverActivates(cfg: Config, c: Controller, xs: seq<Sample>)
    requires cfg.profiles == ProfilesForLanMode("single") && cfg.t.activationDeficitBps >= 0
    requires c.machine.state.Idle?
    ensures After(cfg, c, xs).machine == c.machine
  {
    if xs != [] {
      SingleLanNeverActivates(cfg, c, xs[..|xs| - 1]);
      var x := xs[|xs| - 1];
      assert |cfg.profiles| == 1 && cfg.profiles[0] == BEST_EFFORT && cfg.profiles[..0] == [];
      assert DemandFor(cfg.profiles[..0], x.demand, Critical) == 0;
      assert CriticalDemand(cfg, x) == 0;
      assert !SignalOf(cfg, x).inDeficit;
    }
  }

  // ---- bounded response over decisions ------------------------------------------------------

  lemma DeficitIsNotRecovery(cfg: Config, x: Sample)
    requires NonNegative(cfg.t)
    ensures !(SignalOf(cfg, x).inDeficit && SignalOf(cfg, x).recovered)
  {
  }

  /** Every decision sees critical deficit and a live backup. */
  ghost predicate AlwaysShort(signals: seq<Signal>) {
    forall i :: 0 <= i < |signals| ==> signals[i].inDeficit && signals[i].haveBackup
  }

  lemma AlwaysShortNeverRecovers(cfg: Config, xs: seq<Sample>)
    requires AlwaysShort(Signals(cfg, xs)) && NonNegative(cfg.t)
    ensures forall i :: 0 <= i < |xs| ==> !Signals(cfg, xs)[i].recovered
  {
    forall i | 0 <= i < |xs| ensures !Signals(cfg, xs)[i].recovered {
      DeficitIsNotRecovery(cfg, xs[i]);
    }
  }

  /** If every decision finds critical traffic short and a live backup, then from any
      state the machine is active within the activation dwell plus two gaps, and stays so. */
  lemma BackupActivatesInTime(cfg: Config, c: Controller, start: real, xs: seq<Sample>, g: real) returns (k: nat)
    requires NonNegative(cfg.t) && c.machine.since <= start && g >= 0.0
    requires SpacedSamples(start, xs, g)
    requires AlwaysShort(Signals(cfg, xs))
    requires |xs| >= 2 && xs[|xs| - 1].now >= start + g + cfg.t.activationDwell
    ensures k < |xs| && xs[k].now <= start + cfg.t.activationDwell + 2.0 * g
    ensures forall n :: k < n <= |xs| ==> At(cfg.t, c.machine, Signals(cfg, xs), n).state.Active?
    ensures Run(cfg.t, c.machine, Signals(cfg, xs)).state.Active?
  {
    var signals := Signals(cfg, xs);
    SpacedSamplesAreSpacedSignals(cfg, start, xs, g);
    AlwaysShortNeverRecovers(cfg, xs);
    assert signals[|xs| - 1].now == xs[|xs| - 1].now;
    k := DeficitActivates(cfg.t, c.machine, start, signals, g);
    assert signals[..|xs|] == signals;
    assert At(cfg.t, c.machine, signals, |xs|).state.Active?;
  }

  /** Every decision sees NORMAL capacity back with its margin. */
  ghost predicate AlwaysRecovered(signals: seq<Signal>) {
    forall i :: 0 <= i < |signals| ==> signals[i].recovered
  }

  lemma AlwaysRecoveredNeverShort(cfg: Config, xs: seq<Sample>)
    requires AlwaysRecovered(Signals(cfg, xs)) && NonNegative(cfg.t)
    ensures forall i :: 0 <= i < |xs| ==> !Signals(cfg, xs)[i].inDeficit
  {
    forall i | 0 <= i < |xs| ensures !Signals(cfg, xs)[i].inDeficit {
      DeficitIsNotRecovery(cfg, xs[i]);
    }
  }

  /** If every decision finds capacity recovered, then from any state the machine is
      idle within the recovery dwell plus two gaps, and stays so. */
  lemma BackupReleasesInTime(cfg: Config, c: Controller, start: real, xs: seq<Sample>, g: real) returns (k: nat)
    requires NonNegative(cfg.t) && c.machine.since <= start && g >= 0.0
    requires SpacedSamples(start, xs, g)
    requires AlwaysRecovered(Signals(cfg, xs))
    requires |xs| >= 2 && xs[|xs| - 1].now >= start + g + cfg.t.recoveryDwell
    ensures k < |xs| && xs[k].now <= start + cfg.t.recoveryDwell + 2.0 * g
    ensures forall n :: k < n <= |xs| ==> At(cfg.t, c.machine, Signals(cfg, xs), n).state.Idle?
    ensures Run(cfg.t, c.machine, Signals(cfg, xs)).state.Idle?
  {
    var signals := Signals(cfg, xs);
    SpacedSamplesAreSpacedSignals(cfg, start, xs, g);
    AlwaysRecoveredNeverShort(cfg, xs);
    assert signals[|xs| - 1].now == xs[|xs| - 1].now;
    k := RecoveryReleases(cfg.t, c.machine, start, signals, g);
    assert signals[..|xs|] == signals;
    assert At(cfg.t, c.machine, signals, |xs|).state.Idle?;
  }
}
