/** What one decision does, said of the connections, the demand and the tunables it was
    given: the signals it reads, the connection it picks and what every class gets. */
module Decision {
  import opened Model
  import opened Hysteresis
  import opened Allocation
  import opened Render
  import Belief
  import Greedy
  import Laws = AllocationLaws

  // ---- order is kept ---------------------------------------------------------------

  /** The kept elements are those at positions `at`: in order, each once, none left out. */
  ghost predicate Picks<T(!new)>(keep: T -> bool, s: seq<T>, kept: seq<T>, at: seq<nat>) {
    && |at| == |kept|
    && (forall i :: 0 <= i < |at| ==> at[i] < |s| && s[at[i]] == kept[i] && keep(kept[i]))
    && (forall i, j :: 0 <= i < j < |at| ==> at[i] < at[j])
    && (forall k :: 0 <= k < |s| && keep(s[k]) ==> k in at)
  }

  lemma {:induction false} FilterPicks<T(!new)>(keep: T -> bool, s: seq<T>) returns (at: seq<nat>)
    ensures Picks(keep, s, Filter(keep, s), at)
  {
    at := [];
    if |s| > 0 {
      var n := |s| - 1;
      var before := FilterPicks(keep, s[..n]);
      at := PicksSnoc(keep, s, Filter(keep, s[..n]), before);
    }
  }

  lemma PicksSnoc<T(!new)>(keep: T -> bool, s: seq<T>, kept: seq<T>, before: seq<nat>) returns (at: seq<nat>)
    requires |s| > 0 && Picks(keep, s[..|s| - 1], kept, before)
    ensures Picks(keep, s, kept + (if keep(s[|s| - 1]) then [s[|s| - 1]] else []), at)
  {
    var n := |s| - 1;
    if !keep(s[n]) {
      return before;
    }
    at := before + [n];
    forall k | 0 <= k < |s| && keep(s[k]) ensures k in at {
      if k < n {
        assert s[..n][k] == s[k];
      } else {
        assert at[|before|] == n;
      }
    }
  }

  /** Serving order is a stable sort: `at` says where each class stood in the configuration. */
  ghost predicate StablySorted(profiles: seq<ServiceProfile>, sorted: seq<ServiceProfile>, at: seq<nat>) {
    && |sorted| == |at| == |profiles|
    && (forall i :: 0 <= i < |at| ==> at[i] < |profiles| && profiles[at[i]] == sorted[i])
    && (forall i, j :: 0 <= i < j < |at| ==>
        || (sorted[i].priority.Critical? && sorted[j].priority.BestEffort?)
        || (sorted[i].priority == sorted[j].priority && at[i] < at[j]))
  }

  lemma {:induction false} FiltersSplit(profiles: seq<ServiceProfile>)
    ensures |ByPriority(profiles)| == |profiles|
  {
    if |profiles| > 0 {
      FiltersSplit(profiles[..|profiles| - 1]);
    }
  }

  lemma ByPriorityIsStable(profiles: seq<ServiceProfile>) returns (at: seq<nat>)
    ensures StablySorted(profiles, ByPriority(profiles), at)
  {
    var critical := (p: ServiceProfile) => p.priority.Critical?;
    var bestEffort := (p: ServiceProfile) => p.priority.BestEffort?;
    var first := FilterPicks(critical, profiles);
    var second := FilterPicks(bestEffort, profiles);
    FiltersSplit(profiles);
    JoinIsStable(profiles, critical, bestEffort, Filter(critical, profiles), Filter(bestEffort, profiles), first,
                 second);
    at := first + second;
  }

  lemma JoinIsStable(profiles: seq<ServiceProfile>, c: ServiceProfile -> bool, b: ServiceProfile -> bool,
                     critical: seq<ServiceProfile>, bestEffort: seq<ServiceProfile>, first: seq<nat>, second: seq<nat>)
    requires forall p :: (c(p) ==> p.priority.Critical?) && (b(p) ==> p.priority.BestEffort?)
    requires Picks(c, profiles, critical, first) && Picks(b, profiles, bestEffort, second)
    requires |critical| + |bestEffort| == |profiles|
    ensures StablySorted(profiles, critical + bestEffort, first + second)
  {
    var sorted, at := critical + bestEffort, first + second;
    forall i | 0 <= i < |at|
      ensures at[i] < |profiles| && profiles[at[i]] == sorted[i] && (sorted[i].priority.Critical? <==> i < |first|)
    {
      assert if i < |first| then at[i] == first[i] && sorted[i] == critical[i]
             else at[i] == second[i - |first|] && sorted[i] == bestEffort[i - |first|];
    }
  }

  // ---- the signals a decision reads ----------------------------------------------------

  /** A connection that may carry traffic for free. */
  ghost predicate Usable(a: Atomic) {
    a.present && a.role == Wan && a.mode == Normal && (a.health == Good || a.health == Degraded)
  }

  /** What one connection adds to the capacity a decision counts on: its estimate if that is
      trusted, the bootstrap allowance if it was never measured, and otherwise nothing. */
  ghost predicate Adds(cfg: Config, now: real, a: Atomic, bps: nat) {
    if !Usable(a) then bps == 0
    else if exists trust :: Belief.Remains(cfg.decay, a.capacity, now, trust) && trust >= cfg.t.minConfidence
    then bps == a.capacity.downBps
    else if a.capacity.measuredAt == None then bps == 256000
    else bps == 0
  }

  /** What one class adds to the demand that may cost money: what it downloads, if critical. */
  ghost predicate Needs(demand: Demand, p: ServiceProfile, bps: nat) {
    if p.priority == Critical && p.name in demand then bps == demand[p.name].downBps else bps == 0
  }

  ghost function Contribution(cfg: Config, now: real, a: Atomic): nat {
    if a.InNormalPool() then Belief.Believed(cfg.decay, cfg.t.minConfidence, a.capacity, now) else 0
  }

  lemma AddsContribution(cfg: Config, now: real, a: Atomic, bps: nat)
    requires Adds(cfg, now, a, bps)
    ensures bps == Contribution(cfg, now, a)
  {
    var trust := Belief.DecayConfidence(cfg.decay, a.capacity, now);
    assert Belief.Remains(cfg.decay, a.capacity, now, trust);
  }

  lemma ContributionAdds(cfg: Config, now: real, a: Atomic)
    ensures Adds(cfg, now, a, Contribution(cfg, now, a))
  {
    var trust := Belief.DecayConfidence(cfg.decay, a.capacity, now);
    assert Belief.Remains(cfg.decay, a.capacity, now, trust);
  }

  lemma UsableSnoc(cfg: Config, atomics: seq<Atomic>, now: real)
    requires |atomics| > 0
    ensures var n := |atomics| - 1;
            UsableCapacity(cfg, Pool(atomics), now)
              == UsableCapacity(cfg, Pool(atomics[..n]), now) + Contribution(cfg, now, atomics[n])
  {
    var n := |atomics| - 1;
    var before := Pool(atomics[..n]);
    assert (before + [atomics[n]])[..|before|] == before;
    assert before + [] == before;
    assert Pool(atomics) == before + (if atomics[n].InNormalPool() then [atomics[n]] else []);
  }

  /** A running total that grows by each term in turn ends as their sum. */
  lemma {:induction false} RunningTotal(totals: seq<nat>, terms: seq<nat>)
    requires |totals| == |terms| + 1 && totals[0] == 0
    requires forall k :: 0 <= k < |terms| ==> totals[k + 1] == totals[k] + terms[k]
    ensures totals[|terms|] == Greedy.Sum(terms)
  {
    if |terms| > 0 {
      var n := |terms| - 1;
      RunningTotal(totals[..n + 1], terms[..n]);
      Greedy.SumSnoc(terms[..n], terms[n]);
      assert terms == terms[..n] + [terms[n]];
    }
  }

  lemma CapacityIsSum(cfg: Config, now: real, atomics: seq<Atomic>, adds: seq<nat>)
    requires |adds| == |atomics| && forall i :: 0 <= i < |adds| ==> adds[i] == Contribution(cfg, now, atomics[i])
    ensures UsableCapacity(cfg, Pool(atomics), now) == Greedy.Sum(adds)
  {
    var totals := seq(|atomics| + 1, k requires 0 <= k <= |atomics| => UsableCapacity(cfg, Pool(atomics[..k]), now));
    forall k | 0 <= k < |atomics| ensures totals[k + 1] == totals[k] + adds[k] {
      UsableSnoc(cfg, atomics[..k + 1], now);
      assert atomics[..k + 1][..k] == atomics[..k];
    }
    assert Pool(atomics[..0]) == [];
    RunningTotal(totals, adds);
    assert atomics[..|atomics|] == atomics;
  }

  lemma {:induction false} DemandIsSum(profiles: seq<ServiceProfile>, demand: Demand, needs: seq<nat>)
    requires |needs| == |profiles| && forall i :: 0 <= i < |needs| ==> Needs(demand, profiles[i], needs[i])
    ensures DemandFor(profiles, demand, Critical) == Greedy.Sum(needs)
  {
    if |profiles| > 0 {
      var n := |profiles| - 1;
      DemandIsSum(profiles[..n], demand, needs[..n]);
      Greedy.SumSnoc(needs[..n], needs[n]);
      assert needs == needs[..n] + [needs[n]];
    }
  }

  /** What each connection adds and each class needs, for one decision. */
  ghost predicate Tallied(cfg: Config, x: Sample, adds: seq<nat>, needs: seq<nat>) {
    && |adds| == |x.atomics| && (forall i :: 0 <= i < |adds| ==> Adds(cfg, x.now, x.atomics[i], adds[i]))
    && |needs| == |cfg.profiles| && (forall i :: 0 <= i < |needs| ==> Needs(x.demand, cfg.profiles[i], needs[i]))
  }

  lemma TalliesAreUsed(cfg: Config, x: Sample, adds: seq<nat>, needs: seq<nat>)
    requires Tallied(cfg, x, adds, needs)
    ensures NormalCapacity(cfg, x) == Greedy.Sum(adds) && CriticalDemand(cfg, x) == Greedy.Sum(needs)
  {
    forall i | 0 <= i < |adds| ensures adds[i] == Contribution(cfg, x.now, x.atomics[i]) {
      AddsContribution(cfg, x.now, x.atomics[i], adds[i]);
    }
    CapacityIsSum(cfg, x.now, x.atomics, adds);
    DemandIsSum(cfg.profiles, x.demand, needs);
  }

  /** The three signals of a decision against the thresholds, added up connection by
      connection and class by class. */
  lemma SignalsFollowTallies(cfg: Config, x: Sample, adds: seq<nat>, needs: seq<nat>)
    requires Tallied(cfg, x, adds, needs)
    ensures var s, capacity, critical := SignalOf(cfg, x), Greedy.Sum(adds), Greedy.Sum(needs);
            && s.now == x.now
            && (s.inDeficit <==> critical - capacity > cfg.t.activationDeficitBps)
            && (s.recovered <==> capacity - critical >= cfg.t.recoveryMarginBps)
            && (s.haveBackup <==> exists b :: b in x.atomics && b.present && b.mode == Backup && b.health != Down)
  {
    TalliesAreUsed(cfg, x, adds, needs);
    BackupIff(x.atomics);
  }

  lemma BackupIff(atomics: seq<Atomic>)
    ensures ChosenBackup(Backups(atomics)).Some?
            <==> exists b :: b in atomics && b.present && b.mode == Backup && b.health != Down
  {
    if b :| b in atomics && b.present && b.mode == Backup && b.health != Down {
      assert b in Backups(atomics);
    }
  }

  // ---- the connections a decision picks ---------------------------------------------------

  ghost predicate Trusts(cfg: Config, now: real, a: Atomic) {
    exists trust :: Belief.Remains(cfg.decay, a.capacity, now, trust) && trust >= cfg.t.minConfidence
  }

  /** The round trip a connection is judged by; one never measured counts as very long. */
  ghost function RoundTrip(a: Atomic): real {
    if a.rttMs == None || a.rttMs == Some(0.0) then 9999.0 else a.rttMs.value
  }

  /** a goes before b: by trust, then by download estimate, then by the shorter round trip. */
  ghost predicate Fitter(cfg: Config, now: real, a: Atomic, b: Atomic) {
    || (Trusts(cfg, now, a) && !Trusts(cfg, now, b))
    || (Trusts(cfg, now, a) == Trusts(cfg, now, b)
        && (a.capacity.downBps > b.capacity.downBps
            || (a.capacity.downBps == b.capacity.downBps && RoundTrip(a) < RoundTrip(b))))
  }

  lemma TrustsIff(cfg: Config, now: real, a: Atomic)
    ensures Trusts(cfg, now, a) <==> Trusted(cfg, a, now)
  {
    assert Belief.Remains(cfg.decay, a.capacity, now, Belief.DecayConfidence(cfg.decay, a.capacity, now));
  }

  lemma FitterIffBetter(cfg: Config, now: real, a: Atomic, b: Atomic)
    ensures Fitter(cfg, now, a, b) <==> Better(cfg, now, a, b)
  {
    TrustsIff(cfg, now, a);
    TrustsIff(cfg, now, b);
  }

  lemma BetterThanLesser(cfg: Config, now: real, a: Atomic, b: Atomic, c: Atomic)
    requires Better(cfg, now, a, b) && !Better(cfg, now, c, b)
    ensures Better(cfg, now, a, c)
  {
  }

  /** Nothing in s is better than s[k], and everything before it is worse: the first of the best. */
  ghost predicate LeadsAt(cfg: Config, now: real, s: seq<Atomic>, k: nat) {
    k < |s| && forall j :: 0 <= j < |s| ==> !Better(cfg, now, s[j], s[k]) && (j < k ==> Better(cfg, now, s[k], s[j]))
  }

  lemma {:induction false} FirstBestLeads(cfg: Config, now: real, s: seq<Atomic>) returns (k: nat)
    requires |s| > 0
    ensures LeadsAt(cfg, now, s, k) && FirstBest(cfg, now, s) == s[k]
  {
    if |s| == 1 {
      k := 0;
      OneLeads(cfg, now, s);
    } else {
      k := FirstBestLeads(cfg, now, s[..|s| - 1]);
      k := LeaderOfMore(cfg, now, s, k);
    }
  }

  lemma OneLeads(cfg: Config, now: real, s: seq<Atomic>)
    requires |s| == 1
    ensures LeadsAt(cfg, now, s, 0) && FirstBest(cfg, now, s) == s[0]
  {
  }

  lemma LeaderOfMore(cfg: Config, now: real, s: seq<Atomic>, k: nat) returns (l: nat)
    requires |s| > 1 && LeadsAt(cfg, now, s[..|s| - 1], k) && FirstBest(cfg, now, s[..|s| - 1]) == s[k]
    ensures LeadsAt(cfg, now, s, l) && FirstBest(cfg, now, s) == s[l]
  {
    var n := |s| - 1;
    if Better(cfg, now, s[n], s[k]) {
      l := n;
      forall j | 0 <= j < |s| ensures !Better(cfg, now, s[j], s[n]) && (j < n ==> Better(cfg, now, s[n], s[j])) {
        if j < n {
          assert !Better(cfg, now, s[..n][j], s[..n][k]);
          BetterThanLesser(cfg, now, s[n], s[k], s[j]);
        }
        BetterIsOneWay(cfg, now, s[n], s[j]);
      }
    } else {
      l := k;
      forall j | 0 <= j < |s| ensures !Better(cfg, now, s[j], s[k]) && (j < k ==> Better(cfg, now, s[k], s[j])) {
        assert j < n ==> s[..n][j] == s[j];
      }
    }
  }

  lemma BetterIsOneWay(cfg: Config, now: real, a: Atomic, b: Atomic)
    ensures !(Better(cfg, now, a, b) && Better(cfg, now, b, a))
  {
  }

  /** The connection at i is the one to use: usable, healthy if any usable one is, and among
      those the first that none other is fitter than. */
  ghost predicate Leads(cfg: Config, x: Sample, i: nat) {
    && i < |x.atomics| && Usable(x.atomics[i])
    && (x.atomics[i].health == Good || forall a :: a in x.atomics && Usable(a) ==> a.health != Good)
    && forall j :: 0 <= j < |x.atomics| && Usable(x.atomics[j]) && x.atomics[j].health == x.atomics[i].health ==>
         && !Fitter(cfg, x.now, x.atomics[j], x.atomics[i])
         && (j < i ==> Fitter(cfg, x.now, x.atomics[i], x.atomics[j]))
  }

  /** Where in the sample the candidates stand. */
  ghost predicate Stand(x: Sample, candidates: seq<Atomic>, at: seq<nat>, good: bool) {
    Picks((a: Atomic) => a.InNormalPool() && (a.health.Good? <==> good), x.atomics, candidates, at)
  }

  /** Picking from what was picked is picking by both conditions. */
  lemma PicksCompose<T(!new)>(p: T -> bool, q: T -> bool, both: T -> bool, s: seq<T>, mid: seq<T>, kept: seq<T>,
                              ps: seq<nat>, qs: seq<nat>) returns (at: seq<nat>)
    requires Picks(p, s, mid, ps) && Picks(q, mid, kept, qs)
    requires forall x :: both(x) <==> p(x) && q(x)
    ensures Picks(both, s, kept, at)
  {
    at := seq(|qs|, i requires 0 <= i < |qs| => ps[qs[i]]);
    forall k | 0 <= k < |s| && both(s[k]) ensures k in at {
      var i :| 0 <= i < |ps| && ps[i] == k;
      assert q(mid[i]);
      var j :| 0 <= j < |qs| && qs[j] == i;
      assert at[j] == k;
    }
  }

  ghost function Healthy(pool: seq<Atomic>): seq<Atomic> {
    Filter((a: Atomic) => a.health.Good?, pool)
  }

  lemma HealthyStand(x: Sample) returns (at: seq<nat>)
    ensures Stand(x, Healthy(Pool(x.atomics)), at, true)
  {
    var inPool, isGood := (a: Atomic) => a.InNormalPool(), (a: Atomic) => a.health.Good?;
    var pool := Filter(inPool, x.atomics);
    var pools := FilterPicks(inPool, x.atomics);
    var goods := FilterPicks(isGood, pool);
    at := PicksCompose(inPool, isGood, (a: Atomic) => a.InNormalPool() && (a.health.Good? <==> true), x.atomics, pool,
                       Filter(isGood, pool), pools, goods);
    assert Pool(x.atomics) == pool;
  }

  lemma PoolStands(x: Sample) returns (at: seq<nat>)
    requires Healthy(Pool(x.atomics)) == []
    ensures Stand(x, Pool(x.atomics), at, false)
    ensures forall a :: a in x.atomics && Usable(a) ==> a.health != Good
  {
    at := FilterPicks((a: Atomic) => a.InNormalPool(), x.atomics);
    forall a | a in x.atomics && Usable(a) ensures a.health != Good {
      assert a in Pool(x.atomics);
      assert a.health.Good? ==> a in Healthy(Pool(x.atomics));
    }
    forall i | 0 <= i < |at| ensures !Pool(x.atomics)[i].health.Good? {
      assert x.atomics[at[i]] in x.atomics;
    }
  }

  lemma BestOfPool(cfg: Config, pool: seq<Atomic>, now: real)
    requires pool != []
    ensures Best(cfg, pool, now) == Some(FirstBest(cfg, now, if Healthy(pool) == [] then pool else Healthy(pool)))
  {
  }

  /** Traffic goes over the fittest usable connection, the first in order among equals. */
  lemma PrimaryLeads(cfg: Config, m: Machine, x: Sample) returns (i: nat)
    requires exists a :: a in x.atomics && Usable(a)
    ensures Leads(cfg, x, i) && Allocate(cfg, m, x).primaryId == Some(x.atomics[i].id)
  {
    var a :| a in x.atomics && Usable(a);
    var pool := Pool(x.atomics);
    assert a in pool;
    BestOfPool(cfg, pool, x.now);
    var good, at := Healthy(pool) != [], [];
    var candidates := if good then Healthy(pool) else pool;
    if good {
      at := HealthyStand(x);
    } else {
      at := PoolStands(x);
    }
    var k := FirstBestLeads(cfg, x.now, candidates);
    i := at[k];
    StandingLeads(cfg, x, candidates, at, good, k);
  }

  lemma StandingLeads(cfg: Config, x: Sample, candidates: seq<Atomic>, at: seq<nat>, good: bool, k: nat)
    requires Stand(x, candidates, at, good) && LeadsAt(cfg, x.now, candidates, k)
    requires !good ==> forall a :: a in x.atomics && Usable(a) ==> a.health != Good
    ensures Leads(cfg, x, at[k])
  {
    var i := at[k];
    forall j | 0 <= j < |x.atomics| && Usable(x.atomics[j]) && x.atomics[j].health == x.atomics[i].health
      ensures !Fitter(cfg, x.now, x.atomics[j], x.atomics[i])
      ensures j < i ==> Fitter(cfg, x.now, x.atomics[i], x.atomics[j])
    {
      assert x.atomics[j].InNormalPool();
      var l :| 0 <= l < |at| && at[l] == j;
      FitterIffBetter(cfg, x.now, candidates[l], candidates[k]);
      FitterIffBetter(cfg, x.now, candidates[k], candidates[l]);
    }
  }

  /** A backup that could be used now. */
  ghost predicate Live(a: Atomic) {
    a.present && a.mode == Backup && a.health != Down
  }

  /** The backup at i is the one to use: no live one is larger, and those before it are smaller. */
  ghost predicate Backs(x: Sample, i: nat) {
    && i < |x.atomics| && Live(x.atomics[i])
    && forall j :: 0 <= j < |x.atomics| && Live(x.atomics[j]) ==>
         && x.atomics[j].capacity.downBps <= x.atomics[i].capacity.downBps
         && (j < i ==> x.atomics[j].capacity.downBps < x.atomics[i].capacity.downBps)
  }

  lemma {:induction false} LargestIsFirst(s: seq<Atomic>) returns (k: nat)
    requires |s| > 0
    ensures k < |s| && Largest(s) == s[k]
    ensures forall j :: 0 <= j < k ==> s[j].capacity.downBps < s[k].capacity.downBps
  {
    var n := |s| - 1;
    k := 0;
    if n > 0 {
      k := LargestIsFirst(s[..n]);
      if s[n].capacity.downBps > s[k].capacity.downBps {
        LargerThanAll(s[..n], s[n].capacity.downBps);
        k := n;
      }
    }
  }

  lemma LargerThanAll(s: seq<Atomic>, bps: nat)
    requires |s| > 0 && Largest(s).capacity.downBps < bps
    ensures forall j :: 0 <= j < |s| ==> s[j].capacity.downBps < bps
  {
    assert forall j :: 0 <= j < |s| ==> s[j] in s;
  }

  ghost function LiveOnes(atomics: seq<Atomic>): seq<Atomic> {
    Filter((b: Atomic) => !b.health.Down?, Backups(atomics))
  }

  lemma LiveStand(x: Sample) returns (at: seq<nat>)
    ensures Picks((a: Atomic) => a.PresentBackup() && !a.health.Down?, x.atomics, LiveOnes(x.atomics), at)
  {
    var isBackup, isUp := (a: Atomic) => a.PresentBackup(), (b: Atomic) => !b.health.Down?;
    var backups := Filter(isBackup, x.atomics);
    var ps := FilterPicks(isBackup, x.atomics);
    var qs := FilterPicks(isUp, backups);
    at := PicksCompose(isBackup, isUp, (a: Atomic) => a.PresentBackup() && !a.health.Down?, x.atomics, backups,
                       Filter(isUp, backups), ps, qs);
    assert Backups(x.atomics) == backups;
  }

  lemma ChosenIsLargest(x: Sample)
    ensures var live := LiveOnes(x.atomics);
            ChosenBackup(Backups(x.atomics)) == if live == [] then None else Some(Largest(live))
  {
  }

  lemma ChosenBacks(x: Sample) returns (i: nat)
    requires exists b :: b in x.atomics && Live(b)
    ensures Backs(x, i) && ChosenBackup(Backups(x.atomics)) == Some(x.atomics[i])
  {
    var live := LiveOnes(x.atomics);
    var at := LiveStand(x);
    var b :| b in x.atomics && Live(b);
    assert b in Backups(x.atomics) && b in live;
    var k := LargestIsFirst(live);
    i := at[k];
    ChosenIsLargest(x);
    assert forall j :: 0 <= j < |live| ==> live[j] in live;
    StandingBacks(x, live, at, k);
  }

  lemma StandingBacks(x: Sample, live: seq<Atomic>, at: seq<nat>, k: nat)
    requires Picks((a: Atomic) => a.PresentBackup() && !a.health.Down?, x.atomics, live, at)
    requires k < |live| && forall j :: 0 <= j < |live| ==>
             live[j].capacity.downBps <= live[k].capacity.downBps
             && (j < k ==> live[j].capacity.downBps < live[k].capacity.downBps)
    ensures Backs(x, at[k])
  {
    forall j | 0 <= j < |x.atomics| && Live(x.atomics[j])
      ensures x.atomics[j].capacity.downBps <= live[k].capacity.downBps
      ensures j < at[k] ==> x.atomics[j].capacity.downBps < live[k].capacity.downBps
    {
      assert x.atomics[j].PresentBackup();
      var l :| 0 <= l < |at| && at[l] == j;
    }
  }

  // ---- what every class gets -----------------------------------------------------------------

  /** What a class asks of a free connection: the larger of its two directions. */
  ghost predicate AsksFor(demand: Demand, name: string, bps: nat) {
    if name in demand
    then
      && demand[name].downBps <= bps && demand[name].upBps <= bps
      && (bps == demand[name].downBps || bps == demand[name].upBps)
    else bps == 0
  }

  /** What the classes ask for, in serving order. */
  ghost predicate Asked(cfg: Config, x: Sample, asked: seq<nat>) {
    && |asked| == |ByPriority(cfg.profiles)|
    && forall i :: 0 <= i < |asked| ==> AsksFor(x.demand, ByPriority(cfg.profiles)[i].name, asked[i])
  }

  /** One share per class in serving order, on the primary, at most what the class asks for. */
  ghost predicate ServedInOrder(a: Allocation, sorted: seq<ServiceProfile>, asked: seq<nat>) {
    && |asked| == |sorted| <= |a.shares|
    && forall i :: 0 <= i < |sorted| ==>
         && Some(a.shares[i].atomicId) == a.primaryId
         && a.shares[i].profileName == sorted[i].name
         && a.shares[i].ceilingBps <= asked[i]
  }

  /** While a critical class is short, no best-effort class gets anything. */
  ghost predicate CriticalFirst(a: Allocation, sorted: seq<ServiceProfile>, asked: seq<nat>)
    requires |asked| == |sorted| <= |a.shares|
  {
    forall i, j :: 0 <= i < |sorted| && 0 <= j < |sorted| ==>
      sorted[i].priority == Critical && sorted[j].priority == BestEffort && a.shares[i].ceilingBps < asked[i] ==>
        a.shares[j].ceilingBps == 0
  }

  /** With a usable connection there is, the i-th share is the i-th class's in serving order,
      on the primary, at most what that class asks for; together they are the best division
      of the capacity counted on, and no best-effort class gets anything while a critical
      one is short. */
  lemma ClassesOnPrimary(cfg: Config, m: Machine, x: Sample, adds: seq<nat>, needs: seq<nat>, asked: seq<nat>)
    requires exists a :: a in x.atomics && Usable(a)
    requires Tallied(cfg, x, adds, needs) && Asked(cfg, x, asked)
    ensures var a, sorted := Allocate(cfg, m, x), ByPriority(cfg.profiles);
            && ServedInOrder(a, sorted, asked)
            && CriticalFirst(a, sorted, asked)
            && Laws.BestDivision(Laws.Ceilings(a.shares[..|sorted|]), asked, Greedy.Sum(adds))
  {
    var a, sorted := Allocate(cfg, m, x), ByPriority(cfg.profiles);
    var w :| w in x.atomics && Usable(w);
    assert w in Pool(x.atomics);
    TalliesAreUsed(cfg, x, adds, needs);
    AskedIsWanted(cfg, x, asked);
    Laws.StartsWithPrimaryShares(cfg, m, x);
    Laws.PrimarySharesAreOptimal(cfg, m, x);
    DivisionServes(a, cfg.profiles, x.demand, Greedy.Sum(adds), asked);
  }

  lemma DivisionServes(a: Allocation, profiles: seq<ServiceProfile>, demand: Demand, capacity: nat, asked: seq<nat>)
    requires var sorted := ByPriority(profiles);
             && |asked| == |sorted| <= |a.shares| && a.primaryId.Some?
             && a.shares[..|sorted|] == PrimaryShares(sorted, a.primaryId.value, capacity, demand)
             && Laws.BestDivision(Laws.Ceilings(a.shares[..|sorted|]), asked, capacity)
    ensures ServedInOrder(a, ByPriority(profiles), asked)
    ensures CriticalFirst(a, ByPriority(profiles), asked)
  {
    var sorted := ByPriority(profiles);
    var c := Laws.Ceilings(a.shares[..|sorted|]);
    assert forall i :: 0 <= i < |sorted| ==> a.shares[i] == a.shares[..|sorted|][i] && c[i] == a.shares[i].ceilingBps;
    forall i, j | 0 <= i < |sorted| && 0 <= j < |sorted| &&
       sorted[i].priority == Critical && sorted[j].priority == BestEffort && c[i] < asked[i]
      ensures c[j] == 0
    {
      if j < i {
        Laws.SortedByPriority(profiles, j, i);
      }
    }
  }

  lemma AskedIsWanted(cfg: Config, x: Sample, asked: seq<nat>)
    requires Asked(cfg, x, asked)
    ensures asked == Wants(ByPriority(cfg.profiles), x.demand)
  {
  }

  /** A class gets something exactly if it asks for something and the classes before it leave some. */
  lemma {:induction false} GrantedIff(wants: seq<nat>, capacity: nat, i: nat)
    requires i < |wants|
    ensures Greedy.Grants(wants, capacity)[i] > 0 <==> wants[i] > 0 && Greedy.Sum(wants[..i]) < capacity
  {
    if i > 0 {
      GrantedIff(wants[1..], capacity - Min(wants[0], capacity), i - 1);
      assert wants[1..][..i - 1] == wants[..i][1..];
    }
  }

  /** Uploads open routes: a class that asks for anything in either direction, while the
      classes before it ask for less than the capacity, is routed over an addressed primary
      into the tunnel, and nothing asked for means no ceiling. */
  lemma DemandOpensRoute(cfg: Config, m: Machine, x: Sample, adds: seq<nat>, needs: seq<nat>, asked: seq<nat>, i: nat,
                         plan: Plan, view: View)
    requires exists a :: a in x.atomics && Usable(a)
    requires Tallied(cfg, x, adds, needs) && Asked(cfg, x, asked)
    requires i < |asked| && Greedy.Sum(asked[..i]) < Greedy.Sum(adds)
    requires plan.profiles == cfg.profiles && DistinctNames(cfg.profiles)
    requires Render.Render(plan, Allocate(cfg, m, x), view).Ok?
    ensures var a, p := Allocate(cfg, m, x), ByPriority(cfg.profiles)[i];
            var wanted := p.name in x.demand && (x.demand[p.name].downBps > 0 || x.demand[p.name].upBps > 0);
            && a.primaryId.Some? && i < |a.shares|
            && (a.shares[i].ceilingBps > 0 <==> wanted)
            && (wanted && Reachable(view, a.primaryId.value) ==>
                  RouteRule(p.vlan, plan.tableOf(a.primaryId.value), plan.tunnel)
                  in Render.Render(plan, a, view).value.routes)
  {
    var a, sorted := Allocate(cfg, m, x), ByPriority(cfg.profiles);
    var p := sorted[i];
    CeilingOfClass(cfg, m, x, adds, needs, asked, i);
    if a.shares[i].ceilingBps > 0 && Reachable(view, a.primaryId.value) {
      NamedInConfiguration(cfg.profiles, i);
      assert RouteOf(plan, view, a.shares[i]) == Some(RouteRule(p.vlan, plan.tableOf(a.primaryId.value), plan.tunnel));
      RoutesComeFromShares(plan, view, a.shares);
    }
  }

  lemma CeilingOfClass(cfg: Config, m: Machine, x: Sample, adds: seq<nat>, needs: seq<nat>, asked: seq<nat>, i: nat)
    requires exists a :: a in x.atomics && Usable(a)
    requires Tallied(cfg, x, adds, needs) && Asked(cfg, x, asked) && i < |asked|
    ensures var a, p := Allocate(cfg, m, x), ByPriority(cfg.profiles)[i];
            && a.primaryId.Some? && i < |a.shares|
            && a.shares[i].atomicId == a.primaryId.value && a.shares[i].profileName == p.name
            && (a.shares[i].ceilingBps > 0 <==> asked[i] > 0 && Greedy.Sum(asked[..i]) < Greedy.Sum(adds))
  {
    var a, sorted := Allocate(cfg, m, x), ByPriority(cfg.profiles);
    var w :| w in x.atomics && Usable(w);
    assert w in Pool(x.atomics);
    TalliesAreUsed(cfg, x, adds, needs);
    AskedIsWanted(cfg, x, asked);
    Laws.StartsWithPrimaryShares(cfg, m, x);
    GrantedIff(asked, Greedy.Sum(adds), i);
    assert a.shares[i] == a.shares[..|sorted|][i];
  }

  lemma NamedInConfiguration(profiles: seq<ServiceProfile>, i: nat)
    requires DistinctNames(profiles) && i < |ByPriority(profiles)|
    ensures ProfileNamed(profiles, ByPriority(profiles)[i].name) == Some(ByPriority(profiles)[i])
  {
    var at := ByPriorityIsStable(profiles);
    assert profiles[at[i]] == ByPriority(profiles)[i];
    OnlyOneNamed(profiles, ByPriority(profiles)[i]);
  }

  ghost predicate SomeUsable(x: Sample) {
    exists a :: a in x.atomics && Usable(a)
  }

  /** While a live backup is in use the last shares are one per class in configured order, on
      that backup: what the class downloads if it may spend money, nothing otherwise. With
      nothing usable for free they are the only shares and the backup is the primary; at
      rest there are none. */
  lemma ClassesOnBackup(cfg: Config, m: Machine, x: Sample) returns (i: nat)
    ensures var a := Allocate(cfg, m, x);
            var free := if SomeUsable(x) then |cfg.profiles| else 0;
            && (a.backupActive <==> m.state == Active && exists b :: b in x.atomics && Live(b))
            && |a.shares| == free + (if a.backupActive then |cfg.profiles| else 0)
            && (a.backupActive ==>
                  Backs(x, i) && OnBackup(a.shares[free..], x.atomics[i].id, cfg.profiles, x.demand))
            && (!SomeUsable(x) ==> a.primaryId == if a.backupActive then Some(x.atomics[i].id) else None)
  {
    var backup := ChosenBackup(Backups(x.atomics));
    var active := m.state.Active? && backup.Some?;
    FiltersSplit(cfg.profiles);
    BackupIff(x.atomics);
    PrimaryIsFree(cfg, x, active);
    i := 0;
    if active {
      i := ChosenBacks(x);
    }
    BuiltOnBackup(cfg, Pool(x.atomics), Primary(cfg, x, active), backup, active, NormalCapacity(cfg, x), x.demand);
  }

  lemma PrimaryIsFree(cfg: Config, x: Sample, active: bool)
    ensures var primary, backup := Primary(cfg, x, active), ChosenBackup(Backups(x.atomics));
            && (primary.Some? && primary != backup <==> SomeUsable(x))
            && (!SomeUsable(x) ==> primary == if active then backup else None)
  {
    var primary, backup := Primary(cfg, x, active), ChosenBackup(Backups(x.atomics));
    if a :| a in x.atomics && Usable(a) {
      assert a in Pool(x.atomics);
      assert primary.value in Pool(x.atomics);
      assert backup.Some? ==> backup.value in Backups(x.atomics);
    }
  }

  lemma BuiltOnBackup(cfg: Config, pool: seq<Atomic>, primary: Option<Atomic>, backup: Option<Atomic>, active: bool,
                      capacity: nat, demand: Demand)
    requires |ByPriority(cfg.profiles)| == |cfg.profiles| && (active ==> backup.Some?)
    ensures var a := Build(cfg, pool, primary, backup, active, capacity, demand);
            var free := if primary.Some? && primary != backup then |cfg.profiles| else 0;
            && a.backupActive == active
            && a.primaryId == (if primary.Some? then Some(primary.value.id) else None)
            && |a.shares| == free + (if active then |cfg.profiles| else 0)
            && (active ==> OnBackup(a.shares[free..], backup.value.id, cfg.profiles, demand))
  {
    var first := if primary.Some? && primary != backup
      then PrimaryShares(ByPriority(cfg.profiles), primary.value.id, capacity, demand) else [];
    if active {
      var second := BackupShares(cfg.profiles, backup.value.id, demand);
      AfterFirst(first, second);
      BackupSharesServe(cfg.profiles, backup.value.id, demand);
    }
  }

  lemma AfterFirst<T>(first: seq<T>, second: seq<T>)
    ensures (first + second)[|first|..] == second
  {
  }

  lemma BackupSharesServe(profiles: seq<ServiceProfile>, id: Id, demand: Demand)
    ensures OnBackup(BackupShares(profiles, id, demand), id, profiles, demand)
  {
  }

  /** Everything a decision quiesces: the backup it would use while it is not in use, and every
      usable connection other than the primary. */
  lemma QuiescedIff(cfg: Config, m: Machine, x: Sample, id: Id)
    ensures id in Allocate(cfg, m, x).quiesced <==>
            || (m.state != Active && exists i: nat :: Backs(x, i) && x.atomics[i].id == id)
            || (exists a :: a in x.atomics && Usable(a) && a.id == id && Allocate(cfg, m, x).primaryId != Some(id))
  {
    var backup := ChosenBackup(Backups(x.atomics));
    var active := m.state.Active? && backup.Some?;
    PassedOverIff(x.atomics, Primary(cfg, x, active), id);
    HeldBackIff(x, id);
  }

  lemma HeldBackIff(x: Sample, id: Id)
    ensures var backup := ChosenBackup(Backups(x.atomics));
            backup.Some? && backup.value.id == id <==> exists i: nat :: Backs(x, i) && x.atomics[i].id == id
  {
    BackupIff(x.atomics);
    if exists b :: b in x.atomics && Live(b) {
      var i := ChosenBacks(x);
      forall j: nat | Backs(x, j) ensures j == i {
        OneBacks(x, i, j);
      }
    }
  }

  lemma OneBacks(x: Sample, i: nat, j: nat)
    requires Backs(x, i) && Backs(x, j)
    ensures i == j
  {
  }

  lemma PassedOverIff(atomics: seq<Atomic>, primary: Option<Atomic>, id: Id)
    ensures id in PassedOver(Pool(atomics), primary) <==>
            exists a :: a in atomics && Usable(a) && a.id == id && (primary.None? || primary.value.id != id)
  {
    if a :| a in atomics && Usable(a) && a.id == id && (primary.None? || primary.value.id != id) {
      assert a in Pool(atomics);
    }
  }

  ghost predicate OnBackup(shares: seq<Share>, id: Id, profiles: seq<ServiceProfile>, demand: Demand) {
    && |shares| == |profiles|
    && forall k :: 0 <= k < |profiles| ==>
         && shares[k].atomicId == id && shares[k].profileName == profiles[k].name
         && shares[k].ceilingBps ==
            if profiles[k].mayUseBackup && profiles[k].name in demand then demand[profiles[k].name].downBps else 0
  }

  /** Every decision can be tallied. */
  lemma TalliesExist(cfg: Config, x: Sample) returns (adds: seq<nat>, needs: seq<nat>, asked: seq<nat>)
    ensures Tallied(cfg, x, adds, needs) && Asked(cfg, x, asked)
  {
    adds := seq(|x.atomics|, i requires 0 <= i < |x.atomics| => Contribution(cfg, x.now, x.atomics[i]));
    forall i | 0 <= i < |adds| ensures Adds(cfg, x.now, x.atomics[i], adds[i]) {
      ContributionAdds(cfg, x.now, x.atomics[i]);
    }
    needs := seq(|cfg.profiles|, i requires 0 <= i < |cfg.profiles| =>
               if cfg.profiles[i].priority == Critical then WantedDown(x.demand, cfg.profiles[i].name) else 0);
    asked := Wants(ByPriority(cfg.profiles), x.demand);
  }

  // ---- what a decision records ------------------------------------------------------------------

  /** The same decision as far as anyone is told: the order of shares does not matter. */
  ghost predicate Unchanged(before: Option<Allocation>, a: Allocation) {
    before.Some? && before.value.primaryId == a.primaryId && before.value.backupActive == a.backupActive
    && multiset(before.value.shares) == multiset(a.shares)
  }

  /** The entry says what was done, on which figures, over which connection and in which state. */
  ghost predicate Tells(e: Entry, m: Machine, a: Allocation, capacity: nat, critical: nat) {
    && e.normalCapacity == capacity && e.criticalDemand == critical
    && e.primaryId == a.primaryId && e.backupState == m.state
    && (e.action == ActivateBackup <==> a.backupActive)
    && (e.action == ArmingBackup <==> !a.backupActive && m.state == Arming)
    && (e.action == NoConnectivity <==> !a.backupActive && m.state != Arming && a.primaryId == None)
    && (e.action == AllocateNormal <==> !a.backupActive && m.state != Arming && a.primaryId != None)
  }

  /** One more telling entry, unless nothing changed. */
  ghost predicate Recorded(c: Controller, c': Controller, capacity: nat, critical: nat) {
    && c'.last.Some?
    && (Unchanged(c.last, c'.last.value) ==> c'.journal == c.journal)
    && (!Unchanged(c.last, c'.last.value) ==>
          && |c'.journal| == |c.journal| + 1 && c'.journal[..|c.journal|] == c.journal
          && Tells(c'.journal[|c.journal|], c'.machine, c'.last.value, capacity, critical))
  }

  /** A decision adds one telling entry exactly if it differs from the last, and keeps all others;
      it starts a clock for every present backup that has none, and touches no other. */
  lemma DecisionRecords(cfg: Config, c: Controller, x: Sample, adds: seq<nat>, needs: seq<nat>)
    requires Tallied(cfg, x, adds, needs)
    ensures Recorded(c, Decide(cfg, c, x), Greedy.Sum(adds), Greedy.Sum(needs))
    ensures StartsClocks(c.lastLiveness, Decide(cfg, c, x).lastLiveness, x)
  {
    TalliesAreUsed(cfg, x, adds, needs);
    ClocksAreStarted(c.lastLiveness, x);
    RecordIsTold(cfg, c, x);
  }

  lemma ClocksAreStarted(last: map<Id, real>, x: Sample)
    ensures StartsClocks(last, Baselines(last, Backups(x.atomics), x.now), x)
  {
    BaselinesStartClocks(last, Backups(x.atomics), x.now);
    BackupsArePresent(x.atomics);
  }

  ghost predicate StartsClocks(before: map<Id, real>, after: map<Id, real>, x: Sample) {
    && (forall id :: id in after <==>
          id in before || exists b :: b in x.atomics && b.present && b.mode == Backup && b.id == id)
    && (forall id :: id in after ==> after[id] == if id in before then before[id] else x.now)
  }

  lemma BackupsArePresent(atomics: seq<Atomic>)
    ensures forall b :: b in Backups(atomics) <==> b in atomics && b.present && b.mode == Backup
  {
  }

  lemma {:induction false} BaselinesStartClocks(last: map<Id, real>, backups: seq<Atomic>, now: real)
    ensures var after := Baselines(last, backups, now);
            && (forall id :: id in after <==> id in last || exists b :: b in backups && b.id == id)
            && (forall id :: id in after ==> after[id] == if id in last then last[id] else now)
  {
    if |backups| > 0 {
      BaselinesStartClocks(last, backups[..|backups| - 1], now);
      assert forall b :: b in backups <==> b in backups[..|backups| - 1] || b == backups[|backups| - 1];
    }
  }

  lemma RecordIsTold(cfg: Config, c: Controller, x: Sample)
    ensures Recorded(c, Decide(cfg, c, x), NormalCapacity(cfg, x), CriticalDemand(cfg, x))
  {
  }
}
