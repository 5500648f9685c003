# Verification of the wifucked control plane

A Dafny model of the connectivity appliance's control plane, of the fabric's address
allocation and of netmon's history queries, with proofs of what they promise over
whole runs. `dafny verify dfyconfig.toml` checks everything.

| module | what it models |
|---|---|
| `Model` | atomics, capacity, profiles, demand, thresholds |
| `Hysteresis` | the four-state activation machine and its accounting over runs |
| `Belief`, `Survival` | capacity belief: folding, decay, bootstrap; what of it survives restarts |
| `Greedy`, `Allocation`, `AllocationLaws`, `Decision`, `Allocator` | one decision, its laws over runs and in terms of its inputs, and the allocator object |
| `Render`, `Kernel`, `Enforcer`, `Healing`, `Forwarding` | desired state, a kernel in which any command may fail, the enforcer object, convergence and forwarding |
| `Registry` | the registry object, what it remembers, what survives a reboot |
| `Schedule`, `Liveness`, `Daemon` | ticks and loops, liveness spending, the daemon object |
| `Ledger`, `Dataplane` | what whole runs of ticks do to the registry's liveness totals and to the kernel |
| `Prober` | passive counters, pings under a pass budget, the RTT floor |
| `Peers`, `PeerProtocol` | address allocation alone, and under many workers, locks and crashes |
| `Journal` | buffer plus trimmed table against a plain list |
| `LanOut`, `Ports` | the port classification pipeline and its in-flight protocol; what its verdicts do to the registry |
| `Netmon`, `Buckets` | outages, address periods, buckets and summary |
| `Arithmetic` | rounding down quotients of reals |

Objects whose methods change fields are classes; each method is proved equal to a
function of the old state, and the run results are lemmas about those functions. What
the outside world answers (clocks, ping durations, hardware calls, failing commands,
crashes, completion order) is a parameter everywhere and is not restricted beyond
what a row says. Processes may die at any moment in `PeerProtocol`, `Journal` and
`Survival`; the other results are about one process life.

A re-arm out of RELEASING needs only that recovery failed, not a deficit, so deficit is
stated for every decision after the arming one.

Where the code does less than its comments say, the model follows the code:

- `_converged` reads neither the ingress redirect nor the LAN-out marks, so losing one of
  them alone is not repaired (`Healing.RedirectHealedIff`, `Healing.LanOutMarkHealedIff`).
- A scaled upload rate of zero reads back as no rate at all, so such a link is rewritten on
  every fast loop; a download rate of zero is harmless (`Healing.ConvergedAfterWriteIff`).
- Idle folds compound the decay, so confidence falls faster than one half-life curve
  (`Belief.IdleSamplesCompound`); the curve is an upper bound.
- `daemon.py` says the probe budget keeps a pass inside the fast loop's cadence. The bound is
  budget plus one timeout, 6 s with the defaults against a 1 s cadence, and is tight
  (`Prober.BoundIsTight`).
- `config.py` says atomics missed by the budget are probed on the next pass. Passes always
  start from the same end: an atomic is pinged exactly when its turn comes before the
  deadline (`Prober.StarvedIff`), so a slow first one can starve the rest for good
  (`Prober.SecondConnectionStarves`).
- Off-time is read from the wall clock, clamped at zero. Confidence exceeds the curve over
  true time exactly if more time was lost that way than idle folds have spent
  (`Survival.RememberedOverTrueCurveIff`).
- The registry is written on the slow loop and on mode changes, not when the daemon stops, so
  a restart undoes every fold since. `_usable_capacity` says a link gets the bootstrap
  allowance only once, ever; it gets it again if no saturated fold was written
  (`Survival.BootstrapIff`, `Survival.BootstrapComesBack`). Only atomics with a mode or a past
  connection are written at all.
- `LanOutClassifier` says a port moved to another network is reclassified. A port that became
  LAN-out never is (`Ports.LanOutIsForGood`), and any other verdict replaces the mode the user
  chose, BACKUP included (`Ports.BackupLastsIff`).
- The table is read in order of wall time; a clock that stepped back misorders reads that
  reach it (`Journal.ReadIsRightIff`).

## Model

| member | source | states |
|---|---|---|
| `Hysteresis.AntiFlap` | appliance/src/wifucked/allocator/__init__.py:159-215 | on every run with non-decreasing time, activations times `activation_dwell_s` plus completed releases times `recovery_dwell_s` never exceed the elapsed time |
| `Hysteresis.DwellsArePaid` | appliance/src/wifucked/allocator/__init__.py:164-215 | the same bill, dwell by dwell, is covered by the time between the machine's first and last change of state |
| `Hysteresis.PaidCountsCrossings` | appliance/src/wifucked/allocator/__init__.py:178-198 | the bill is exactly one activation dwell per activation and one recovery dwell per release |
| `Hysteresis.TransitionsCountCrossings` | appliance/src/wifucked/allocator/__init__.py:105-108 | `transitions` is exactly activations plus completed releases, and releases never exceed activations |
| `Hysteresis.ChangesHaveCauses` | appliance/src/wifucked/allocator/__init__.py:164-198 | at every sample of every run: the state entered says what was seen and where the machine came from, both ways, every change is dated at its sample, and without one nothing moves |
| `Hysteresis.LostBackupEndsUse` | appliance/src/wifucked/allocator/__init__.py:182-187 | a sample without a live backup takes an ACTIVE machine to IDLE at that sample, with `transitions` unchanged |
| `Hysteresis.ReleasingHasCause` | appliance/src/wifucked/allocator/__init__.py:188-189 | a RELEASING machine was ACTIVE at one sample that saw recovery with a live backup, and every sample since saw recovery |
| `Hysteresis.ReleaseHasCause` | appliance/src/wifucked/allocator/__init__.py:191-198 | a release is completed and counted only after `recovery_dwell_s` in which every sample saw recovery |
| `Hysteresis.ArmingHasCause` | appliance/src/wifucked/allocator/__init__.py:167-180 | a machine found arming has one arming sample after which every sample kept it arming |
| `Hysteresis.ActiveHasCause` | appliance/src/wifucked/allocator/__init__.py:167-180 | a machine found ACTIVE has an arming sample and an activating one at least `activation_dwell_s` later, with critical deficit and a live backup at every sample after the first up to the second, and ACTIVE ever since with a live backup and no recovery |
| `Hysteresis.ShortDeficitsNeverActivate` | appliance/src/wifucked/allocator/__init__.py:171-180 | input without an all-deficit stretch as long as the dwell never activates and never counts a transition |
| `Hysteresis.NeverReleasing` | appliance/src/wifucked/allocator/__init__.py:167-198 | in a run that counted no transition the machine was never ACTIVE or RELEASING at any moment |
| `Hysteresis.TransitionsGrow` | appliance/src/wifucked/allocator/__init__.py:178-198 | the counter never goes down along a run |
| `Hysteresis.DeficitActivates` | appliance/src/wifucked/allocator/__init__.py:159-180 | samples at most g apart that all show deficit and a live backup reach ACTIVE from any state within `activation_dwell_s` plus 2g and stay there |
| `Hysteresis.RecoveryReleases` | appliance/src/wifucked/allocator/__init__.py:182-198 | samples at most g apart that all show recovery reach IDLE from any state within `recovery_dwell_s` plus 2g and stay there |
| `Hysteresis.ArmsThenActivates` | appliance/src/wifucked/allocator/__init__.py:167-193 | under sustained deficit every state is ARMING or ACTIVE after one sample, and ACTIVE once the dwell has passed |
| `Hysteresis.ReleasesThenIdles` | appliance/src/wifucked/allocator/__init__.py:170-198 | under sustained recovery every state is RELEASING or IDLE after one sample, and IDLE once the dwell has passed |
| `Belief.ExponentialIsHalfLife` | appliance/src/wifucked/probe/__init__.py:69-74 | a half-life curve with D(0)=1, 0<D<=1, antitone and D(a+b)=D(a)D(b), multiplied onto a confidence, satisfies the decay law every other result assumes |
| `Belief.SampleClosesGap` | appliance/src/wifucked/probe/__init__.py:94-97 | a saturated sample leaves 0.6 or 0.3 of the distance between estimate and sample, truncation included, depending on whether the decayed confidence was above one half |
| `Belief.FoldBounds` | appliance/src/wifucked/probe/__init__.py:84-103 | a saturated fold keeps confidence in [0,1], dates the estimate now and stays under the larger of estimate and sample; an idle fold changes nothing but lowers confidence |
| `Belief.FoldIs` | appliance/src/wifucked/probe/__init__.py:77-103 | every fold in full: an idle one leaves what ageing left of the confidence; a saturated one dates the estimate now, adds 0.3 up to 1, and weighs each direction 0.4 or 0.7 by whether more than half of the confidence was left |
| `Belief.RestartKeepsAge` | appliance/src/wifucked/atomics/registry.py:319-337 | saving and reconstructing an estimate gives, at every later time, exactly the confidence an uninterrupted process would have, and nothing else changes |
| `Belief.RestartNeverRefreshes` | appliance/src/wifucked/atomics/registry.py:319-337 | whatever the clocks did, confidence after a restart never exceeds confidence when the state was saved |
| `Belief.RestartAges` | appliance/src/wifucked/atomics/registry.py:430-475 | going on from what was written dates the estimate no later than its true date plus the time the clamped wall clock did not count; exactly so unless it was dated ahead |
| `Belief.BeliefInRange` | appliance/src/wifucked/probe/__init__.py:69-103 | over any surviving history, with any clocks, confidence stays in [0,1] and no estimate exceeds the largest saturated throughput in it |
| `Belief.UnmeasuredUntilSaturated` | appliance/src/wifucked/probe/__init__.py:86-92 | over a surviving history an estimate has a date exactly from its first saturated fold on, and is untouched before it |
| `Belief.OnlySaturationRefreshes` | appliance/src/wifucked/probe/__init__.py:84-92 | along a surviving history an idle fold never makes the belief younger or stronger, and a restart only by the time its wall clock did not count |
| `Belief.AgedSinceSaturated` | appliance/src/wifucked/probe/__init__.py:69-103 | along a surviving history the belief is at most as strong as its last saturated fold left it and at least as old as the time counted since |
| `Belief.BeliefUnderCurve` | appliance/src/wifucked/probe/__init__.py:69-92 | along a surviving history confidence never exceeds the half-life curve started at its last saturated fold and run over the time counted since |
| `Belief.BeliefUnderTrueCurve` | appliance/src/wifucked/atomics/registry.py:463-475 | so if the wall clocks lost no more time than they made up, it never exceeds that curve over true time |
| `Belief.TrueCurveKeptIff` | appliance/src/wifucked/atomics/registry.py:463-475 | over every surviving history with a saturated fold, confidence is the curve from that fold at the time counted plus the ages idle folds have spent, and for a strictly fading curve exceeds the curve over true time if and only if more was lost than spent |
| `Belief.StandsAfter` | appliance/src/wifucked/probe/__init__.py:84-92 | what is stored is exactly: the last saturated fold's date plus the time not counted, and its confidence weakened by the ages of the idle folds since |
| `Belief.RestartsSpendNothing` | appliance/src/wifucked/atomics/registry.py:463-475 | after restarts alone nothing has been spent, so the true-time curve is exceeded exactly if time was lost |
| `Belief.StoppedWallClockKeepsBeliefFresh` | appliance/src/wifucked/atomics/registry.py:463-475 | an input for that: off for an hour with a wall clock that stood still, and confidence is still what it was |
| `Belief.ExponentialFades` | appliance/src/wifucked/probe/__init__.py:69-74 | a strictly decreasing half-life curve gives a strictly fading confidence |
| `Belief.BootstrapUntilSaturated` | appliance/src/wifucked/allocator/__init__.py:254-280 | along a surviving history the bootstrap headroom counts exactly until its first saturated fold, for a positive `min_confidence` |
| `Belief.IdleSamplesCompound` | appliance/src/wifucked/probe/__init__.py:86-92 | idle folds compound: k of them decay confidence by the sum of the k ages, not by the last one |
| `Survival.RegistryRemembersSo` | appliance/src/wifucked/atomics/registry.py:315-506 | saving and loading the registry does to each atomic exactly what the runs below say of a write and a restart; one not worth persisting is forgotten |
| `Survival.BeliefIsWhatSurvived` | appliance/src/wifucked/daemon.py:342-347 | over any run of folds, writes and restarts the belief is the one the surviving part of the history leads to: a restart goes on from the last write, and what was folded since is gone |
| `Survival.KeepIsInTime` | appliance/src/wifucked/atomics/registry.py:339-428 | the surviving history is in order of true time if the run is |
| `Survival.RememberedInRange` | appliance/src/wifucked/probe/__init__.py:69-103 | over any such run, with any clocks, confidence stays in [0,1] and no estimate exceeds the largest saturated throughput ever seen |
| `Survival.RememberedUnderCurve` | appliance/src/wifucked/probe/__init__.py:69-92 | over any such run confidence never exceeds the half-life curve started at the last saturated fold that survived and run over the time counted since |
| `Survival.RememberedOverTrueCurveIff` | appliance/src/wifucked/probe/__init__.py:69-92 | over any such run confidence exceeds that curve over true time if and only if the wall clocks lost more than the surviving idle folds spent |
| `Survival.BootstrapIff` | appliance/src/wifucked/allocator/__init__.py:254-280 | for a positive `min_confidence` the bootstrap headroom counts if and only if no saturated fold survived |
| `Survival.WrittenSaturationLasts` | appliance/src/wifucked/allocator/__init__.py:254-280 | once a saturated fold has been written, and while the atomic stays worth writing and the file readable, it never counts again |
| `Survival.BootstrapComesBack` | appliance/src/wifucked/allocator/__init__.py:254-280 | an input where it does: measured for the first time and restarted before anything was written |
| `Survival.UnwrittenIdleFoldIsUndone` | appliance/src/wifucked/daemon.py:342-347 | an idle fold that was not written is undone by a restart, so belief is stronger after it |
| `Survival.LostFoldIsExceeded` | appliance/src/wifucked/daemon.py:342-347 | an input where belief after a restart exceeds what the last saturated fold, unwritten, had left: 0.45 against 0.4125 |
| `Greedy.GrantsUseEverything` | appliance/src/wifucked/allocator/__init__.py:341-361 | the ceilings are feasible and sum to the smaller of total want and headroom |
| `Greedy.GrantsAreLexGreatest` | appliance/src/wifucked/allocator/__init__.py:341-361 | no feasible division is lexicographically greater than the ceilings |
| `Greedy.ShortfallStarvesTheRest` | appliance/src/wifucked/allocator/__init__.py:341-361 | a profile given less than it wants leaves nothing for any later one |
| `Greedy.GrantsAreMonotone` | appliance/src/wifucked/allocator/__init__.py:341-361 | each profile's ceiling grows with capacity |
| `Allocation.FirstBest` | appliance/src/wifucked/allocator/__init__.py:287-294 | the pick is a candidate and no candidate has a greater selection key |
| `Allocation.Best` | appliance/src/wifucked/allocator/__init__.py:282-294 | the primary is from the pool, healthy if any member is, and no eligible member has a greater key; none exactly for an empty pool |
| `Allocation.ChosenBackup` | appliance/src/wifucked/allocator/__init__.py:296-300 | a backup is chosen exactly if one is not down, and no live one has a larger download estimate |
| `AllocationLaws.ActiveIffBackupActive` | appliance/src/wifucked/allocator/__init__.py:129-135 | right after a step, ACTIVE holds exactly when a live backup is chosen and in use |
| `AllocationLaws.SharesAndQuiescedAreApart` | appliance/src/wifucked/allocator/__init__.py:311-386 | no shared atomic is quiesced; every share is on a usable NORMAL atomic or, only while ACTIVE, on a live backup; all non-primary pool members are quiesced |
| `AllocationLaws.ActiveBackupCarriesOnlyPermitted` | appliance/src/wifucked/allocator/__init__.py:363-375 | while ACTIVE every profile has a share on one live backup: its demand if it may use backup, zero otherwise |
| `AllocationLaws.SharesAreUnambiguous` | appliance/src/wifucked/allocator/__init__.py:324-375 | at most one share per atomic and profile |
| `AllocationLaws.PrimarySharesAreOptimal` | appliance/src/wifucked/allocator/__init__.py:330-362 | for every allocation with a usable NORMAL connection, whatever the state: the primary's ceilings are feasible, use min(want, usable capacity), are lexicographically greatest in priority order, and a shortfall zeroes all later profiles |
| `AllocationLaws.MoreCapacityTakesFromNobody` | appliance/src/wifucked/allocator/__init__.py:341-361 | for the same demand, more usable capacity lowers no profile's ceiling |
| `AllocationLaws.SortedByPriority` | appliance/src/wifucked/policy/__init__.py:77-81 | profiles are served with every critical one before every best-effort one |
| `Decision.SignalsFollowTallies` | appliance/src/wifucked/allocator/__init__.py:110-163 | deficit and recovery against the two thresholds over sums taken atomic by atomic (the estimate if trusted, 256 kbit/s if never measured, else nothing) and profile by profile (what a critical one downloads); a backup is there exactly if some present BACKUP atomic is not down |
| `Decision.TalliesExist` | appliance/src/wifucked/allocator/__init__.py:254-309 | every decision has such sums |
| `Decision.PrimaryLeads` | appliance/src/wifucked/allocator/__init__.py:282-294 | the primary is usable, healthy if any usable atomic is, and the first in order that no other one of its health beats by trust, download estimate or shorter round trip |
| `Decision.ChosenBacks` | appliance/src/wifucked/allocator/__init__.py:296-300 | the chosen backup is the first live one with the largest download estimate |
| `Decision.ByPriorityIsStable` | appliance/src/wifucked/policy/__init__.py:77-81 | serving order is a stable sort of the configured profiles, critical first |
| `Decision.ClassesOnPrimary` | appliance/src/wifucked/allocator/__init__.py:330-362 | with a usable NORMAL atomic, share i of a decision is on the primary, names the i-th profile in serving order and is at most the larger of its two demands; together they are the best division of the summed capacity, and no best-effort profile gets anything while a critical one is short |
| `Decision.DemandOpensRoute` | appliance/src/wifucked/allocator/__init__.py:342-361 | a profile served before the capacity is used up gets a non-zero ceiling exactly if it asks for anything in either direction, and then a route over an addressed primary into the tunnel: upload alone is enough |
| `Decision.ClassesOnBackup` | appliance/src/wifucked/allocator/__init__.py:363-375 | while ACTIVE the last shares are one per profile in configured order on the chosen backup, with its download demand if it may use backup and zero otherwise; the only ones, on the primary, if nothing NORMAL is usable; none at rest |
| `Decision.QuiescedIff` | appliance/src/wifucked/allocator/__init__.py:311-386 | quiesced are exactly the chosen backup while not ACTIVE and every usable NORMAL atomic other than the primary |
| `Decision.DecisionRecords` | appliance/src/wifucked/allocator/__init__.py:110-140 | a decision adds exactly one journal entry if primary, backup use or the shares as a multiset changed, with the summed figures, primary, state and matching action, and none otherwise; it starts the clock of every present backup without one |
| `AllocationLaws.MachineOfRun` | appliance/src/wifucked/allocator/__init__.py:110-127 | over any run of decisions the activation state is a function of the deficit, recovery and backup signals alone |
| `AllocationLaws.LastIsAllocated` | appliance/src/wifucked/allocator/__init__.py:129-140 | after any run the allocation in force is the one for the last sample and shows backup use exactly when ACTIVE |
| `AllocationLaws.JournalExplains` | appliance/src/wifucked/allocator/__init__.py:137-140 | after any run of decisions the newest journal entry names the primary in force and says whether a backup is in use |
| `AllocationLaws.SameDecision` | appliance/src/wifucked/allocator/__init__.py:110-140 | one decision cannot tell apart two demands that agree on what critical profiles download |
| `AllocationLaws.BestEffortCannotInterfere` | appliance/src/wifucked/allocator/__init__.py:302-309 | two runs that agree on times, atomics and critical download demand have the same state, transitions, liveness clocks, primary, backup use and quiesced set at every step |
| `AllocationLaws.SingleLanNeverActivates` | appliance/src/wifucked/policy/__init__.py:62-74 | with single-LAN profiles every run stays IDLE without one transition |
| `AllocationLaws.DeficitIsNotRecovery` | appliance/src/wifucked/allocator/__init__.py:160-161 | with non-negative thresholds no sample is both in deficit and recovered |
| `AllocationLaws.BackupActivatesInTime` | appliance/src/wifucked/allocator/__init__.py:110-180 | decisions at most g apart that all see deficit and a live backup reach ACTIVE within the dwell plus 2g from any controller state, and stay |
| `AllocationLaws.BackupReleasesInTime` | appliance/src/wifucked/allocator/__init__.py:182-198 | decisions at most g apart that all see recovery reach IDLE within the recovery dwell plus 2g, and stay |
| `Allocator.Allocator.constructor` | appliance/src/wifucked/allocator/__init__.py:87-99 | a new allocator is idle since now, with no liveness clock, allocation or journal |
| `Allocator.Allocator.EnterState` | appliance/src/wifucked/allocator/__init__.py:200-215 | entering a different state dates it; entering the same one changes nothing |
| `Allocator.Allocator.StepHysteresis` | appliance/src/wifucked/allocator/__init__.py:144-198 | one step of the fields is one step of the machine whose every change `Hysteresis.ChangesHaveCauses` states |
| `Allocator.Allocator.SumUsable` | appliance/src/wifucked/allocator/__init__.py:254-280 | the loop adds up exactly what the belief rule grants each pool member |
| `Allocator.Allocator.SumDemand` | appliance/src/wifucked/allocator/__init__.py:302-309 | the loop adds up exactly the download demand of one priority's profiles |
| `Allocator.Allocator.SetBaselines` | appliance/src/wifucked/allocator/__init__.py:122-123 | every backup without a liveness clock gets one set to now; none is reset |
| `Allocator.Allocator.ShareOut` | appliance/src/wifucked/allocator/__init__.py:341-361 | the headroom loop gives the greedy division, class by class; `Decision.ClassesOnPrimary` says whose each ceiling is |
| `Allocator.Allocator.ShareBackup` | appliance/src/wifucked/allocator/__init__.py:364-375 | the backup loop gives each profile its demand if permitted and zero otherwise |
| `Allocator.Allocator.PassOver` | appliance/src/wifucked/allocator/__init__.py:377-379 | exactly the pool members other than the primary are quiesced |
| `Allocator.Allocator.BuildAllocation` | appliance/src/wifucked/allocator/__init__.py:311-386 | the lists built step by step are the allocation the well-formedness results are about |
| `Allocator.Allocator.ReadSignal` | appliance/src/wifucked/allocator/__init__.py:125-163 | the loops give the signals `Decision.SignalsFollowTallies` states against the thresholds |
| `Allocator.Allocator.AllocateNow` | appliance/src/wifucked/allocator/__init__.py:129-135 | the allocation for the state just stepped to |
| `Allocator.Allocator.DecideNow` | appliance/src/wifucked/allocator/__init__.py:110-140 | one decision: baselines, step, allocation and, on a change of key, one journal entry; nothing else changes |
| `Allocator.Allocator.DueForLiveness` | appliance/src/wifucked/allocator/__init__.py:219-241 | due exactly for a present backup, not while ACTIVE, a full interval after its clock was set |
| `Render.Scaled` | appliance/src/wifucked/enforce/__init__.py:219-220 | shaping is strictly under a positive measured rate and is 95% of it rounded down |
| `Render.RenderState` | appliance/src/wifucked/enforce/__init__.py:141-234 | the loops compute the desired state whose rates, routes and marks are stated below, or fail on the first contradictory share |
| `Render.RouteAll` | appliance/src/wifucked/enforce/__init__.py:183-213 | the routes of the shares, each once, or the first share that contradicts the quiesced set |
| `Render.CollectIds` | appliance/src/wifucked/enforce/__init__.py:215-215 | the ids that have a share, each once |
| `Render.RaisesIffSharedAndQuiesced` | appliance/src/wifucked/enforce/__init__.py:183-201 | rendering raises exactly if a non-zero share is on a quiesced atomic |
| `Render.FirstBroken` | appliance/src/wifucked/enforce/__init__.py:183-201 | the atomic it names is that of the first such share |
| `Render.RoutesComeFromShares` | appliance/src/wifucked/enforce/__init__.py:183-213 | the routes are exactly those of non-zero shares on addressed atomics with a known profile, each once |
| `Render.SharedIdsAreShared` | appliance/src/wifucked/enforce/__init__.py:215-215 | exactly the atomics that have a share are considered for shaping, each once |
| `Render.RenderedRates` | appliance/src/wifucked/enforce/__init__.py:215-227 | the shaping of a rendered state is one entry per shared, addressed atomic with a confidence, on its interface, at 95% of its measured download and upload rates, each rounded down and in its own direction, with `diffserv4`; and nothing else |
| `Render.RenderedRoutes` | appliance/src/wifucked/enforce/__init__.py:183-213 | a route is rendered if and only if a non-zero share on an addressed atomic names a known profile with that VLAN; its table is the atomic's and its hop the tunnel |
| `Render.RenderedMarks` | appliance/src/wifucked/enforce/__init__.py:160-181 | a mark is rendered if and only if a profile has that VLAN or it is best effort's and some present, addressed LAN_OUT port exists; the LAN-out marks are exactly those ports with best effort's VLAN |
| `Render.HopsDependOnlyOnServedClasses` | appliance/src/wifucked/enforce/__init__.py:183-213 | the set of (fwmark, next hop) pairs is determined by which profiles have a non-zero share on an addressed atomic, and every hop is the tunnel |
| `Render.WanSwapChangesOnlyTables` | appliance/src/wifucked/enforce/__init__.py:147-158 | two allocations that serve the same profiles route the same marks to the same hop; only table numbers differ |
| `Render.DecisionsAlwaysRender` | appliance/src/wifucked/enforce/__init__.py:189-201 | the allocation of any reachable decision renders without raising, whatever the registry has become since |
| `Render.AtRestOnlyNormalIsTouched` | appliance/src/wifucked/enforce/__init__.py:183-227 | unless the decision left the machine ACTIVE, every rendered route is in the table, and every shaping on the interface, of a usable NORMAL atomic of that decision, whatever tables collide and whatever the registry has become |
| `Render.RoutesHaveOwners` | appliance/src/wifucked/enforce/__init__.py:183-213 | in any state every rendered route is in the table of an atomic the decision may put traffic on |
| `Render.ShapingHasOwners` | appliance/src/wifucked/enforce/__init__.py:215-227 | in any state every rendered shaping is on the interface of an atomic the decision may put traffic on |
| `Render.TouchedIsShared` | appliance/src/wifucked/enforce/__init__.py:183-227 | an atomic with its own table and interface gets shaping or a route only if it has a share |
| `Render.BackupTouchedOnlyWhileActive` | appliance/src/wifucked/enforce/__init__.py:183-227 | corollary for a backup whose table and interface nobody shares: it gets shaping or a route only from an ACTIVE machine's decision |
| `Enforcer.LinuxEnforcer.constructor` | appliance/src/wifucked/enforce/__init__.py:287-300 | an enforcer starts from any kernel whatever, having issued nothing |
| `Enforcer.LinuxEnforcer.Exec` | appliance/src/wifucked/enforce/__init__.py:843-907 | one more command is issued and the kernel takes its effect or, if it fails, stays as it was |
| `Enforcer.LinuxEnforcer.ApplyCake` | appliance/src/wifucked/enforce/__init__.py:424-459 | issues the one command that shapes the link's own queue |
| `Enforcer.LinuxEnforcer.ApplyIngressShaping` | appliance/src/wifucked/enforce/__init__.py:461-566 | issues the commands that set up, redirect through and shape the link's IFB device |
| `Enforcer.LinuxEnforcer.ApplyShaping` | appliance/src/wifucked/enforce/__init__.py:321-323 | issues, link by link in order, both groups of commands |
| `Enforcer.LinuxEnforcer.ApplyMarks` | appliance/src/wifucked/enforce/__init__.py:568-606 | issues one atomic replacement of the marking chain |
| `Enforcer.LinuxEnforcer.ApplyRoute` | appliance/src/wifucked/enforce/__init__.py:637-692 | issues the rule and the table default for one route |
| `Enforcer.LinuxEnforcer.ApplyRoutes` | appliance/src/wifucked/enforce/__init__.py:325-326 | issues those of every route, in order |
| `Enforcer.LinuxEnforcer.Apply` | appliance/src/wifucked/enforce/__init__.py:321-326 | issues exactly the script of the desired state, whichever commands fail |
| `Enforcer.LinuxEnforcer.Reconcile` | appliance/src/wifucked/enforce/__init__.py:302-341 | issues nothing if what can be read has converged, which `Healing.QuietIff` states in numbers, and the whole script otherwise; the kernel is what those commands, with their failures, make of it |
| `Healing.ScriptInstalls` | appliance/src/wifucked/enforce/__init__.py:321-326 | from any kernel, a script without failures installs every rate, redirect, mark and route of a desired state |
| `Healing.ScriptInFull` | appliance/src/wifucked/enforce/__init__.py:321-326 | the script is, link by link, own queue at the upload rate, IFB added, brought up, ingress redirected onto it, IFB queue at the download rate; then one replacement of the marking chain with every profile's LAN interface and every LAN-out mark; then a rule and a table default per route; nothing else |
| `Healing.QuietIff` | appliance/src/wifucked/enforce/__init__.py:386-420 | whatever reads fail, a reconcile issues nothing if and only if every wanted link was read and has its queue with the wanted discipline and reported rates within 2% of the larger, in each direction on its own device, every wanted rule and table default was read and is there, and every wanted mark is reported; otherwise the whole script |
| `Healing.DriftIsRewritten` | appliance/src/wifucked/enforce/__init__.py:973-978 | a reported rate more than 2% off in either direction, or another discipline, makes it issue the whole script |
| `Healing.RoundingIsClose` | appliance/src/wifucked/enforce/__init__.py:973-978 | rates are taken to read back within 2% of what they are |
| `Healing.ConvergedAfterWriteIff` | appliance/src/wifucked/enforce/__init__.py:386-420 | after such a script the kernel reads as converged if and only if every shaped link has a positive upload rate and links whose IFB names collide agree on the download rate |
| `Healing.SelfHealing` | appliance/src/wifucked/enforce/__init__.py:302-341 | under that condition one failure-free reconcile from any kernel leaves every link running as asked within 2%, every route and mark in place, and the next issues no command, colliding tables or not |
| `Healing.DistinctIfbsReadBack` | appliance/src/wifucked/enforce/__init__.py:57-70 | distinct IFB names and positive upload rates are enough for the condition |
| `Healing.ZeroUploadNeverConverges` | appliance/src/wifucked/enforce/__init__.py:934-970 | a link with a scaled upload rate of zero keeps every kernel, read in any way, from converging |
| `Healing.RenderedIsHealable` | appliance/src/wifucked/enforce/__init__.py:141-234 | every rendered state has one next hop and marks that the marking chain reads back |
| `Healing.RenderedStateHeals` | appliance/src/wifucked/enforce/__init__.py:302-341 | for a rendered allocation with distinct links and positive upload rates: one failure-free reconcile from any kernel leaves every link's reported upload and download rates within 2% of those asked for, every rule, table default and mark in place, and the second is silent |
| `Healing.RedirectHealedIff` | appliance/src/wifucked/enforce/__init__.py:386-420 | whatever reads fail, a lost ingress redirect is restored by a reconcile whose commands succeed if and only if something else read as missing too |
| `Healing.LostRedirectsStayLost` | appliance/src/wifucked/enforce/__init__.py:386-420 | for every state that can be healed at all: installed and then stripped of its redirects it still reads as converged, and reconciling issues nothing |
| `Healing.LanOutMarkHealedIff` | appliance/src/wifucked/enforce/__init__.py:386-420 | for every kernel and desired state and whatever reads fail, a missing LAN-out mark is put in by a reconcile whose commands succeed if and only if something else read as missing |
| `Healing.LanOutMarksAreNotHealed` | appliance/src/wifucked/enforce/__init__.py:386-420 | an input for that: a kernel with the class marks and one new LAN-out port passes for converged and the port stays unmarked |
| `Forwarding.ReconcileKeepsTunnelOnly` | appliance/src/wifucked/enforce/__init__.py:637-692 | with any commands and reads failing, a reconcile keeps every wifucked table's default absent or the tunnel, removes no rule, and changes no queue but the desired links' |
| `Forwarding.HistoryKeepsTunnelOnly` | appliance/src/wifucked/enforce/__init__.py:302-341 | the same over any history of reconciles with any failures |
| `Forwarding.ResolvesToTunnel` | appliance/src/wifucked/enforce/__init__.py:637-692 | the first matching rule with a usable table leads to the tunnel, stale rules of equal priority notwithstanding |
| `Forwarding.ConvergedRoutesExist` | appliance/src/wifucked/enforce/__init__.py:798-839 | what reads as converged really has each desired rule and table default |
| `Forwarding.RoutedMarksReachTunnel` | appliance/src/wifucked/enforce/__init__.py:302-341 | after any history and one failure-free reconcile every mark with a desired route resolves to the tunnel |
| `Registry.Registry.constructor` | appliance/src/wifucked/atomics/registry.py:26-44 | a registry without a state file is empty |
| `Registry.Registry.FromFile` | appliance/src/wifucked/atomics/registry.py:430-506 | loading gives exactly the saved atomics, absent, with ages carried over to this process's clock |
| `Registry.Registry.Observe` | appliance/src/wifucked/atomics/registry.py:74-163 | a sweep merges what it saw and marks absent what it did not, atomic by atomic as `Registry.SweepIsSeen` states; nothing remembered is lost |
| `Registry.Registry.MergeSweep` | appliance/src/wifucked/atomics/registry.py:90-116 | the loop merges sightings in order, as `Registry.SightingsBringIn` states, and collects their ids |
| `Registry.Registry.MarkAbsentees` | appliance/src/wifucked/atomics/registry.py:118-123 | exactly the present atomics that were not seen become absent |
| `Registry.Registry.All` | appliance/src/wifucked/atomics/registry.py:46-48 | lists every atomic exactly once |
| `Registry.Registry.SetMode` | appliance/src/wifucked/atomics/registry.py:165-202 | changes the mode of one known atomic and nothing else; reports an unknown one |
| `Registry.Registry.SetRoleAndMode` | appliance/src/wifucked/atomics/registry.py:204-258 | changes role and mode of one known atomic together and nothing else |
| `Registry.Registry.UpdateCapacity` | appliance/src/wifucked/atomics/registry.py:260-264 | changes one known atomic's estimate and nothing else |
| `Registry.Registry.UpdateHealth` | appliance/src/wifucked/atomics/registry.py:266-285 | changes one known atomic's health and nothing else |
| `Registry.Registry.AddCost` | appliance/src/wifucked/atomics/registry.py:287-300 | adds to one known atomic's byte counters and nothing else |
| `Registry.Registry.Persist` | appliance/src/wifucked/atomics/registry.py:339-428 | writes exactly the atomics worth remembering, with their ages and the wall time |
| `Registry.SeeAllKeepsMemory` | appliance/src/wifucked/atomics/registry.py:90-116 | a sweep never changes kind, mode, role, estimate or cost, never forgets an atomic or that it was ever connected, and marks all it saw present |
| `Registry.PresentIffSeen` | appliance/src/wifucked/atomics/registry.py:74-123 | after a sweep an atomic is present exactly if the sweep saw it |
| `Registry.SweepIsSeen` | appliance/src/wifucked/atomics/registry.py:90-123 | after a sweep a sighted atomic has the address, label and attributes of its last sighting, its old health if it was present and otherwise that of its first sighting, is ever connected exactly if it was or some sighting says so, and otherwise is as remembered or, if new, as first sighted; an unseen one is unchanged but for one that was present, which has no address and is ABSENT |
| `Registry.SightingsBringIn` | appliance/src/wifucked/atomics/registry.py:90-116 | the same after the merge loop alone, for any atomic and its first and last sighting |
| `Registry.UpdateChangesOnly` | appliance/src/wifucked/atomics/registry.py:165-300 | any other operation sets exactly the fields it is for, of the one atomic it names; costs grow by exactly the two amounts |
| `Registry.UpdateKeepsMemory` | appliance/src/wifucked/atomics/registry.py:165-300 | each operation changes only the one remembered field it is for, of the one atomic it names |
| `Registry.RunKeepsMemory` | appliance/src/wifucked/atomics/registry.py:74-300 | over any run an atomic's remembered fields are determined by the operations naming it; unplugging and sweeps in between do not matter |
| `Registry.LivenessIsTheSum` | appliance/src/wifucked/atomics/registry.py:287-300 | over any run the liveness total is the initial one plus exactly the increments |
| `Registry.FileSays` | appliance/src/wifucked/atomics/registry.py:339-428 | a state file holds exactly the atomics with a mode or a past connection, field by field, with the age of each estimate and the wall time |
| `Registry.LoadSays` | appliance/src/wifucked/atomics/registry.py:430-506 | loading gives each saved atomic back, absent and unaddressed, field by field, its estimate older by the wall time since saving: by nothing if the file has no wall time or the clock went back |
| `Registry.RebootKeepsWhatMatters` | appliance/src/wifucked/atomics/registry.py:315-506 | save then load keeps mode, role, cost, label, attributes and `ever_connected`, drops exactly the UNUSED never-connected atomics, and a second save drops nothing more |
| `Registry.RebootIsTransparent` | appliance/src/wifucked/atomics/registry.py:319-337 | for every wall clock, confidence after a reboot never exceeds that at save time, and if the wall clock did not go back it equals at every later time what an uninterrupted process would have |
| `Registry.SaveLoadSave` | appliance/src/wifucked/atomics/registry.py:339-506 | saving, loading at the same wall time and saving again gives the same file |
| `Daemon.Daemon.constructor` | appliance/src/wifucked/daemon.py:89-190 | a daemon starts with the registry the state file remembers, every loop due, an idle allocator and nothing allocated |
| `Daemon.Daemon.Classify` | appliance/src/wifucked/daemon.py:414-428 | applies every pipeline outcome to the registry, in order, and nothing else |
| `Daemon.Daemon.Measure` | appliance/src/wifucked/daemon.py:430-455 | folds every observation into its known atomic's estimate and sets its health, in order, and nothing else |
| `Daemon.Daemon.SpendLiveness` | appliance/src/wifucked/daemon.py:465-489 | probes and charges exactly the backups that are due, in order |
| `Daemon.Daemon.LayGroundwork` | appliance/src/wifucked/daemon.py:331-334 | sweep, then verdicts, then estimates: the registry the decision will see |
| `Daemon.Daemon.MediumLoop` | appliance/src/wifucked/daemon.py:331-340 | decides on exactly that registry, keeps the allocation, then spends liveness; the registry ends with exactly those charges added |
| `Daemon.Daemon.FastLoop` | appliance/src/wifucked/daemon.py:310-327 | renders the allocation in force against the registry and reconciles the kernel with it; nothing without an allocation |
| `Daemon.Daemon.MediumIfDue` | appliance/src/wifucked/daemon.py:293-295 | runs the medium loop if due and dates the next: the decision is on the registry as prepared, and exactly its liveness charges are added; otherwise changes nothing |
| `Daemon.Daemon.FastIfDue` | appliance/src/wifucked/daemon.py:296-298 | runs the fast loop if due and dates the next; the kernel is what reconciling with the rendered state makes of it |
| `Daemon.Daemon.Tick` | appliance/src/wifucked/daemon.py:273-308 | one pass is one step of the scheduled run, medium before fast, so a new decision is rendered on its own tick; registry and kernel end as that decision, its charges and that reconcile make them |
| `Daemon.GroundworkIsFree` | appliance/src/wifucked/daemon.py:331-334 | nothing done before a decision is charged as liveness; the liveness ledger rests on it |
| `Daemon.GroundworkIsThreeSteps` | appliance/src/wifucked/daemon.py:331-334 | before a decision: the sweep, then the verdicts, then the observations, each on the registry the one before left |
| `Daemon.MeasuringRefolds` | appliance/src/wifucked/daemon.py:430-455 | a pass of observations leaves each known atomic with exactly its own observations folded into its estimate in order and the health judged last, and nothing else changed |
| `Schedule.ScheduleOfTicks` | appliance/src/wifucked/daemon.py:292-308 | when loops run next depends on tick times alone |
| `Schedule.LoopsAreIndependent` | appliance/src/wifucked/daemon.py:292-308 | each of the four loops keeps its own dates by its own period |
| `Schedule.DateIsPeriodAfterLast` | appliance/src/wifucked/daemon.py:292-308 | a loop's next date is one period after the last tick that ran it, and no tick since was that late |
| `Schedule.MediumLoopDecides` | appliance/src/wifucked/daemon.py:331-340 | a medium loop steps the machine once and leaves that step's allocation in force; liveness spending does not disturb either |
| `Schedule.MachineOfTicks` | appliance/src/wifucked/daemon.py:273-308 | over any run of ticks the activation state is that of the decisions its due medium loops took |
| `Schedule.LastOfTicks` | appliance/src/wifucked/daemon.py:273-340 | over any run of ticks the allocation in force is that of the last decision |
| `Schedule.NothingBeforeTheFirst` | appliance/src/wifucked/daemon.py:310-322 | before the first decision nothing is in force, so nothing is rendered |
| `Schedule.NothingOnBackupAtRest` | appliance/src/wifucked/daemon.py:310-340 | over every run of ticks from start-up, with any table collisions: rendering succeeds, and the rendered state is on usable NORMAL atomics of the last decision alone, or else the allocator is ACTIVE and there is an arming decision and an activating one at least `activation_dwell_s` later with deficit and a live backup at every decision after the first up to the second |
| `Schedule.BackupCarriesNothingAtRest` | appliance/src/wifucked/daemon.py:310-340 | corollary for a backup whose table and interface nobody shares: a rendered state gives it shaping or a route only with that cause |
| `Schedule.StaysOnSchedule` | appliance/src/wifucked/daemon.py:292-295 | the next medium loop is never more than `medium_s` after the last tick |
| `Schedule.DecisionsAreSpaced` | appliance/src/wifucked/daemon.py:258-295 | with tick gaps and decision lag bounded, decisions are at most `medium_s` plus gap plus lag apart |
| `Schedule.EnoughDecisions` | appliance/src/wifucked/daemon.py:258-295 | a long enough run of ticks takes enough decisions to outlast a dwell |
| `Schedule.ActivatesInTime` | appliance/src/wifucked/daemon.py:258-340 | while all decisions of a steady scheduler see deficit and a live backup, ACTIVE is reached within the dwell plus twice that spacing, and kept |
| `Schedule.ReleasesInTime` | appliance/src/wifucked/daemon.py:258-340 | while all see recovery, IDLE is reached within the recovery dwell plus twice that spacing, and kept |
| `Liveness.BaselineSetOnce` | appliance/src/wifucked/allocator/__init__.py:122-123 | a backup's clock starts when it is first seen and is never reset by seeing it again |
| `Liveness.NoProbesWhileActive` | appliance/src/wifucked/allocator/__init__.py:229-233 | nothing is probed and no clock moves while ACTIVE |
| `Liveness.OwedAreProbed` | appliance/src/wifucked/daemon.py:465-489 | exactly the present backups whose clock was set a full interval ago are probed while not ACTIVE, each once, and exactly their clocks are set to now |
| `Liveness.ProbesAreWaitedFor` | appliance/src/wifucked/daemon.py:465-489 | every probe is paid for by a full interval since the clock was last set |
| `Liveness.RunIsAccounted` | appliance/src/wifucked/daemon.py:465-489 | over any run of mode changes, unplugs and activations n probes of a backup took at least n intervals since its baseline |
| `Liveness.ProbesAreBounded` | appliance/src/wifucked/daemon.py:465-489 | probes of a backup since its baseline t0 are at most floor((now - t0) / `liveness_interval_s`), and none before it has one; the byte bound in the ledger follows |
| `Liveness.TicksArePasses` | appliance/src/wifucked/daemon.py:331-340 | the liveness clocks of any run of ticks are those the bound is about |
| `Liveness.ChargedPerProbe` | appliance/src/wifucked/daemon.py:465-489 | liveness bytes charged are exactly `liveness_bytes` times the probes |
| `Ledger.MediumLoopCharges` | appliance/src/wifucked/daemon.py:331-340 | one medium loop changes an atomic's liveness total in the registry by exactly the bills of its probes |
| `Ledger.HeldIsBilled` | appliance/src/wifucked/atomics/registry.py:287-300 | over any run of ticks, mode changes and unplugs the registry's liveness total of every atomic is what it was plus exactly the bills |
| `Ledger.ClockedPassesAreInOrder` | appliance/src/wifucked/daemon.py:273-340 | a clock that does not go back puts decisions and spending of a run of ticks in the order the bound needs |
| `Ledger.LivenessCostIsBounded` | appliance/src/wifucked/daemon.py:465-489 | over any such run the registry's liveness total of an atomic grows by at most `liveness_bytes` times floor((now - t0) / `liveness_interval_s`) since its baseline t0, and not at all without one |
| `Ledger.NoLivenessWhileActive` | appliance/src/wifucked/allocator/__init__.py:229-233 | over ticks that all end ACTIVE no atomic's liveness total changes |
| `Dataplane.KernelIsHistory` | appliance/src/wifucked/daemon.py:310-327 | a run of ticks does to the kernel what the reconciles of its rendered states do |
| `Dataplane.TickIsABeat` | appliance/src/wifucked/daemon.py:273-327 | one tick of the daemon object, whose commands are numbered from those issued before, is one more step of such a run for the kernel |
| `Dataplane.TickIsOneMore` | appliance/src/wifucked/daemon.py:273-308 | and for the schedule |
| `Dataplane.TicksKeepTunnelOnly` | appliance/src/wifucked/enforce/__init__.py:637-692 | over every run of ticks with any reads and commands failing, every wifucked table's default stays absent or the tunnel, no rule or queue is removed, and devices not shaped keep their queues |
| `Dataplane.TickReachesTunnel` | appliance/src/wifucked/enforce/__init__.py:302-341 | after a tick whose commands succeed, every mark it wants routed resolves to the tunnel, whatever came before |
| `Prober.Throughput` | appliance/src/wifucked/probe/__init__.py:158-163 | bits over the window rounded down, a counter that went back counting as idle |
| `Prober.LinuxProber.constructor` | appliance/src/wifucked/probe/__init__.py:300-320 | a new prober has no deadline, floor or counters |
| `Prober.LinuxProber.ObservePassively` | appliance/src/wifucked/probe/__init__.py:137-178 | throughput and saturation since the last look at this atomic; the counters are replaced even when there is nothing to report |
| `Prober.LinuxProber.ActiveProbe` | appliance/src/wifucked/probe/__init__.py:364-414 | targets in order until one gives a round trip or the budget is spent; otherwise the last loss-only result |
| `Prober.LinuxProber.FoldRttFloor` | appliance/src/wifucked/probe/__init__.py:416-422 | the floor becomes the smaller of floor and round trip, and bloat is the difference; without a round trip nothing changes |
| `Prober.LinuxProber.ObserveOne` | appliance/src/wifucked/probe/__init__.py:328-362 | one observation with its pings, deadline and floor, as the run results describe |
| `Prober.LinuxProber.MeasureAll` | appliance/src/wifucked/daemon.py:430-440 | one pass: a fresh deadline, then every atomic in order |
| `Prober.PassIsBounded` | appliance/src/wifucked/probe/__init__.py:322-414 | for any number of atomics and pings no longer than the timeout, no ping starts at or after the deadline and a pass waits for less than budget plus timeout |
| `Prober.BoundIsTight` | appliance/src/wifucked/probe/__init__.py:364-378 | no smaller bound holds, whatever the budget: with enough atomics a pass comes arbitrarily close to budget plus timeout |
| `Prober.EnoughConnections` | appliance/src/wifucked/probe/__init__.py:322-414 | for every budget and timeout there is such a number of atomics |
| `Prober.PingedIff` | appliance/src/wifucked/probe/__init__.py:328-362 | one observation pings exactly the atomic observed, and exactly if it is addressed, NORMAL, was read before and the deadline has not come |
| `Prober.LookReads` | appliance/src/wifucked/probe/__init__.py:137-178 | an observation is reported exactly if there is an earlier reading of an addressed atomic to compare with: received bytes are the download rate, sent bytes the upload rate, saturated exactly if the queue holds something or drops grew; the counters are kept for the next one |
| `Prober.LookPings` | appliance/src/wifucked/probe/__init__.py:364-414 | what is pinged: nothing unless NORMAL and in time, else 1.1.1.1 at once and 8.8.8.8 after it exactly if the first gave no round trip and there is still time |
| `Prober.LookJudges` | appliance/src/wifucked/probe/__init__.py:343-422 | round trip, jitter and loss are those of the second answer if it was asked for and readable and else of the first; bloat is the round trip above the atomic's floor, which drops to it if it is lower |
| `Prober.PingedInPassIff` | appliance/src/wifucked/probe/__init__.py:328-362 | an atomic of a pass is pinged if and only if it is addressed, NORMAL, was read before, and the clock at its turn plus its own delays is before start plus budget |
| `Prober.StarvedIff` | appliance/src/wifucked/probe/__init__.py:311-316 | over any run of passes an atomic is never pinged if and only if at each of its turns that fails; being passed over earns it nothing |
| `Prober.SpentPassIsQuiet` | appliance/src/wifucked/probe/__init__.py:337-351 | once the budget is spent nothing more is pinged in that pass |
| `Prober.SlowFirstStarvesTheRest` | appliance/src/wifucked/probe/__init__.py:311-316 | if the first atomic can be pinged and its first ping takes the whole budget, it is pinged and no other atomic is in that pass |
| `Prober.StarvationHasNoEnd` | appliance/src/wifucked/probe/__init__.py:311-316 | over any number of such passes the first atomic is pinged every time and no other ever |
| `Prober.SecondConnectionStarves` | appliance/src/wifucked/probe/__init__.py:311-316 | for every n there is a run of n passes over two atomics, both ready every time, in which the second is never pinged |
| `Prober.LowestIsMinimum` | appliance/src/wifucked/probe/__init__.py:416-422 | the reference floor is attained by some answered ping of that atomic and beaten by none; absent exactly if none answered |
| `Prober.RunIsSound` | appliance/src/wifucked/probe/__init__.py:194-209 | over every run of passes no non-NORMAL atomic is ever pinged, and each RTT floor is the minimum of all round trips seen for that atomic |
| `Peers.PeerRegistry.constructor` | fabric/src/fabric/peers.py:64-72 | a registry without a file is empty |
| `Peers.PeerRegistry.FindFree` | fabric/src/fabric/peers.py:107-114 | the first host of the pool that is neither taken nor the server, or none |
| `Peers.PeerRegistry.Allocate` | fabric/src/fabric/peers.py:130-154 | a known key's address unchanged, else the first free one stored, else exhaustion with nothing stored |
| `Peers.FirstGap` | fabric/src/fabric/peers.py:107-114 | when the first n appliance addresses are taken the search returns the next, and fails exactly if there is none |
| `Peers.AnswerFromPacked` | fabric/src/fabric/peers.py:130-154 | a new key gets the appliance address numbered by how many keys there are, and exhaustion exactly when all are taken |
| `Peers.AllocationKeepsPacked` | fabric/src/fabric/peers.py:130-154 | allocation keeps the file a bijection of its n keys with the first n appliance addresses, changes no existing entry, and stores what it grants |
| `Peers.PackedIsInPool` | fabric/src/fabric/peers.py:74-78 | every address on file is a pool host other than the server's |
| `Peers.PoolInNumbers` | fabric/src/fabric/peers.py:107-114 | a network of n addresses serves n - 3 appliances from its third address on (one or two addresses: its first one alone) |
| `Peers.AnswerInNumbers` | fabric/src/fabric/peers.py:130-154 | from any file allocation leads to: a known key keeps its address, a new one gets the next number, and exhaustion is reported with nothing stored exactly when all are given out |
| `PeerProtocol.StepKeepsInvariant` | fabric/src/fabric/peers.py:101-154 | every step of any worker, a store that raises and a crash included, keeps the file packed, both locks exclusive, every worker's view of the file true and every success on file |
| `PeerProtocol.FileStaysPacked` | fabric/src/fabric/peers.py:101-154 | under any interleaving of workers, failing stores, crashes and backend failures the file holds exactly the first n appliance addresses for its n keys and only grows |
| `PeerProtocol.StartsPacked` | fabric/src/fabric/peers.py:83-87 | an absent file is a valid start |
| `PeerProtocol.SuccessesAgree` | fabric/src/fabric/app.py:135-162 | two successful registrations carry the same address exactly if they are of the same key |
| `PeerProtocol.OneWriterAtATime` | fabric/src/fabric/peers.py:116-128 | never two workers inside the file lock, across processes |
| `PeerProtocol.ExhaustionIsReal` | fabric/src/fabric/app.py:144-147 | a worker is told the pool is exhausted exactly when its key is not on file and every appliance address is taken |
| `PeerProtocol.UninterruptedRegisters` | fabric/src/fabric/peers.py:130-154 | a registration nothing interrupts leaves the file exactly as one allocation does, succeeds with its address if there is one and the peer is added, and frees both locks |
| `Journal.Telemetry.constructor` | appliance/src/wifucked/telemetry/__init__.py:96-136 | a journal opens the database with the rows and last id it has, and nothing in memory |
| `Journal.Telemetry.RecordDecision` | appliance/src/wifucked/telemetry/__init__.py:138-163 | appends to the buffer and to the last 200 kept in memory |
| `Journal.Telemetry.FlushNow` | appliance/src/wifucked/telemetry/__init__.py:239-295 | empties the buffer and, unless it fails, appends it to the table and trims |
| `Journal.Telemetry.Recent` | appliance/src/wifucked/telemetry/__init__.py:184-217 | the newest first from buffer and table, or from memory without a database; from the buffer alone if the table cannot be read |
| `Journal.TrimKeepsNewest` | appliance/src/wifucked/telemetry/__init__.py:329-343 | deleting by id keeps exactly the newest rows retention allows |
| `Journal.OrderIsReverse` | appliance/src/wifucked/telemetry/__init__.py:195-205 | with strictly increasing wall times, ordering by time is reversing |
| `Journal.OrderIsReverseIff` | appliance/src/wifucked/telemetry/__init__.py:195-205 | for distinct wall times, ordering by time is reversing if and only if the times increase; a clock that stepped back misorders the table |
| `Journal.FlushMirrors` | appliance/src/wifucked/telemetry/__init__.py:239-295 | a flush moves the waiting part of the plain list into the table, and leaves exactly the newest retained rows when it trims |
| `Journal.FlushWrites` | appliance/src/wifucked/telemetry/__init__.py:239-295 | any flush empties the buffer; unless it fails it appends exactly the buffered records under the next ids, and without a trim leaves what was there alone |
| `Journal.PlayMirrors` | appliance/src/wifucked/telemetry/__init__.py:138-295 | over any run of records, flushes, failed ones included, and restarts, buffer and table hold the waiting part and a long enough tail of the flushed part of the plain list |
| `Journal.ReadsLikePlainList` | appliance/src/wifucked/telemetry/__init__.py:184-214 | over any such run in which the flushed records' wall times increase, asking for n up to retention gives the newest n of the plain append-only list, newest first, whenever flushes happened |
| `Journal.FirstByTimeIff` | appliance/src/wifucked/telemetry/__init__.py:195-205 | the first k rows by time are the newest k if and only if each of those was stamped later than everything before it |
| `Journal.ReadIsRightIff` | appliance/src/wifucked/telemetry/__init__.py:184-214 | a read of n is right if and only if the buffer alone serves it or the stored records it reaches were stamped in order and later than all stored before them |
| `Journal.ReadCountsBack` | appliance/src/wifucked/telemetry/__init__.py:184-214 | entry by entry and for any limit: a read counts back from the newest record through those waiting and those the table holds, while the flushed records' wall times increase |
| `Journal.UnreadableCountsBack` | appliance/src/wifucked/telemetry/__init__.py:203-214 | and through those waiting alone if the table cannot be read |
| `Journal.TableHoldsEnough` | appliance/src/wifucked/telemetry/__init__.py:329-343 | the table always holds at least what retention asks for or everything flushed |
| `Journal.TableIsNewestRetained` | appliance/src/wifucked/telemetry/__init__.py:239-280 | after each successful flush the table is exactly the newest min(retention, flushed) records |
| `Journal.MemoryKeepsRecent` | appliance/src/wifucked/telemetry/__init__.py:151-154 | without a database memory holds exactly the last 200 records of this process |
| `Journal.MemoryReadsLikePlainList` | appliance/src/wifucked/telemetry/__init__.py:184-187 | so asking for n from 1 to 200 gives the newest n of all records of this process, newest first |
| `Journal.MemoryCountsBack` | appliance/src/wifucked/telemetry/__init__.py:184-187 | for any limit at all: counting back through at most 200 records of this process, all of those for a limit of zero |
| `LanOut.SubnetThirdOctet` | appliance/src/wifucked/lanout/__init__.py:85-94 | always a valid octet above the access point's own two, and inside the LAN-out range unless clipped |
| `LanOut.SubnetsDiffer` | appliance/src/wifucked/lanout/__init__.py:85-94 | where nothing is clipped two ports share a subnet exactly if their digests agree modulo 150 |
| `LanOut.ServerOnlyAfterSilence` | appliance/src/wifucked/lanout/__init__.py:223-280 | a server is started only last, once, and after a refused lease and a silent listen on the same interface in the same pipeline |
| `LanOut.VerdictMatchesCalls` | appliance/src/wifucked/lanout/__init__.py:223-280 | LAN_OUT exactly if a server was started successfully and then always UNUSED; NORMAL exactly if a lease was obtained; a pipeline that raised leaves WAN and UNUSED |
| `LanOut.PipelineIs` | appliance/src/wifucked/lanout/__init__.py:223-280 | every pipeline of an addressed port in full: its calls in order on its own interface, each only after the answer that leads to it, and the outcome with its reason for every combination of answers |
| `LanOut.NoInterfaceNoCalls` | appliance/src/wifucked/lanout/__init__.py:223-280 | a port without an interface is left alone |
| `LanOut.CandidateIff` | appliance/src/wifucked/lanout/__init__.py:97-104 | a candidate is a present, wired WAN port with carrier and an interface, and nothing else is |
| `LanOut.JobsAreClassifiable` | appliance/src/wifucked/lanout/__init__.py:152-191 | over any run every pipeline in flight is of a port that was such a candidate when it started |
| `LanOut.HarvestSays` | appliance/src/wifucked/lanout/__init__.py:193-220 | what a finished pipeline yields is its own verdict: on its port, with its own subnet and the answers it met |
| `LanOut.LanOutClassifier.constructor` | appliance/src/wifucked/lanout/__init__.py:119-141 | a new classifier has nothing in flight, decided or seen |
| `LanOut.LanOutClassifier.SubmitNew` | appliance/src/wifucked/lanout/__init__.py:152-191 | notes presence, forgets the verdict on a plug-in, and starts a pipeline for each candidate neither decided nor in flight |
| `LanOut.LanOutClassifier.HarvestDone` | appliance/src/wifucked/lanout/__init__.py:193-220 | takes exactly the finished pipelines, in start order, one outcome each, and marks them decided |
| `LanOut.LanOutClassifier.ConsiderAll` | appliance/src/wifucked/lanout/__init__.py:143-220 | submits then harvests; returns exactly the new outcomes |
| `LanOut.ConsiderAccounts` | appliance/src/wifucked/lanout/__init__.py:143-220 | one call keeps the accounts: starts are covered by plug-ins, each start is in flight or ended, never two flights of one port |
| `LanOut.RunIsAccounted` | appliance/src/wifucked/lanout/__init__.py:143-220 | the same over any run from any state, in any order of completion |
| `LanOut.OnePipelinePerPlugIn` | appliance/src/wifucked/lanout/__init__.py:143-220 | from the start: at most one in flight per atomic, starts never exceed absent-to-present edges, and every start is in flight or has exactly one outcome |
| `LanOut.EveryPlugInIsClassified` | appliance/src/wifucked/lanout/__init__.py:155-163 | for an atomic that is a candidate whenever present, starts are exactly the plug-ins less those shown during an earlier flight |
| `LanOut.FinishedIsHarvested` | appliance/src/wifucked/lanout/__init__.py:193-200 | a pipeline seen finished yields its one outcome in that very call |
| `LanOut.OutcomesAreVerdicts` | appliance/src/wifucked/lanout/__init__.py:193-220 | every outcome of every run is a pipeline's verdict on the atomic it names, so every LAN_OUT carries UNUSED |
| `LanOut.ReplugInFlightIsNotRerun` | appliance/src/wifucked/lanout/__init__.py:155-163 | an unplug and replug during a flight earns no run of its own: the port stays decided until its next plug-in |
| `Ports.RunFollows` | appliance/src/wifucked/daemon.py:414-428 | over any run of sweeps and pipelines without a choice of the user's, a port's role and mode are those it had if no pipeline of it ended, and otherwise the last verdict's, whatever they were |
| `Ports.BackupLastsIff` | appliance/src/wifucked/daemon.py:414-428 | a BACKUP mode the user chose for a port lasts, without another choice, if and only if no pipeline of the port ends |
| `Ports.LeaseReplacesBackup` | appliance/src/wifucked/lanout/__init__.py:152-191 | and a plug-in or process start is enough: the pipeline it starts, once it has a lease, makes the port NORMAL whatever the user chose |
| `Ports.LanOutIsForGood` | appliance/src/wifucked/lanout/__init__.py:97-104 | a LAN-out port is never a candidate: however often it is unplugged, moved and plugged in, no pipeline starts and it stays LAN-out |
| `Netmon.QueryDropEvents` | netmon/storage.py:105-143 | newest first, one event per outage, with its first and last failed sample and ongoing exactly if it reaches the last row |
| `Netmon.OutagesAreMaximalRuns` | netmon/storage.py:117-131 | a stretch is an outage if and only if it is a maximal run of failed samples |
| `Netmon.OutagesAreSeparate` | netmon/storage.py:117-131 | outages come in order with an answered sample between any two, and only the last can be ongoing |
| `Netmon.OngoingIffLastFailed` | netmon/storage.py:133-141 | an outage is ongoing if and only if the last row failed |
| `Netmon.OutagesFollowTime` | netmon/storage.py:117-141 | in time-ordered rows no outage ends before it starts or overlaps the one before |
| `Netmon.OutageFigures` | netmon/storage.py:117-141 | an outage is reported from its first failed sample to its last with the time between as its duration; ongoing at time zero it has none |
| `Netmon.QueryIpPeriods` | netmon/storage.py:146-189 | newest first, the periods are the run-length encoding of the rows with an address |
| `Netmon.RunLengthsAreUnique` | netmon/storage.py:146-189 | there is only one such encoding |
| `Netmon.PeriodFigures` | netmon/storage.py:146-189 | and so is an address period, with the address its rows carry |
| `Netmon.KnownAreInOrder` | netmon/storage.py:155-160 | the rows it is made of are those with an address, in order, none left out |
| `Buckets.FillBuckets` | netmon/storage.py:76-87 | each bucket counts exactly the samples whose index it has, and exists exactly if there is one |
| `Buckets.QueryBuckets` | netmon/storage.py:67-102 | one bucket per occupied index, ascending, with that bucket's counts and average |
| `Buckets.BucketIsWindow` | netmon/storage.py:78-78 | a sample has a bucket's index if and only if it lies in the bucket's half-open window |
| `Buckets.StartsAscend` | netmon/storage.py:90-90 | buckets of ascending index start at least one width apart |
| `Buckets.BucketFigures` | netmon/storage.py:67-102 | every bucket counts exactly the rows of its window, those without a latency as failures, and has an average exactly if it has a success |
| `Buckets.SummaryFigures` | netmon/storage.py:192-208 | the summary counts every row, and uptime is 100 times the answered ones over all, absent exactly without rows |
| `Buckets.BucketsSumToSummary` | netmon/storage.py:192-208 | totals, successes, failures and averages weighted by successes add up over the buckets to the summary's |

## Left out

- The hardware layer, subprocess argument lists and the parsing of tool output: a command is
  a named effect on the kernel model that happens or fails; reads give what the kernel holds.
- Hash functions (routing table, IFB name, LAN-out subnet): parameters, free to collide.
- How nft output is mapped back to a VLAN: a parameter, assumed to recognise the appliance's own LAN interfaces.
- `ip rule` entries that do not match on a firewall mark, and `ip rule` priorities other than first come first.
- `MockEnforcer`, dry-run mode, logging, LEDs, radio alignment, tunnel binding, the slow loop, diagnostics, `sd_notify`.
- Order of lists the source sorts (registry listing, shaping, routes, marks): sets or any order, since nothing proved depends on it.
- Floating-point rounding: exact reals, and exact tenths or hundredths for the 0.4, 0.7 and 0.95 factors; rounding of reported durations and averages is dropped.
- The half-life formula itself: any decay with the laws `Belief.ExponentialIsHalfLife` derives for it.
- Updates of `Atomic.quality`, which only break ties between equally large primaries.
- Concurrent `Registry.persist` calls, several clock readings within one, and malformed entries in a state file; a file that cannot be read at all is a restart without entries.
- A change of journal retention between two lives of the process.
- A mode change by the API thread between a decision and the fast loop that renders it: the at-rest result is about the modes the decision saw.
- An unreadable peers file, which restarts allocation from empty; IPv6 pools; the request checks before `/register` allocates.
- The instant between reading the clock for the budget check and starting the ping it permits: taken as one instant.
- Rows of equal wall time in the decisions table, whose order SQLite leaves open.
- Event and sample tables of the journal, except that they make a flush write.
- How netmon selects rows by host and range, and a bucket width that is not positive.
- Demand sampling, discovery, Wi-Fi scanning, setup wizard, dashboard, API, WireGuard keys, NAT and configuration text.
- Schedule.DecisionsAreSpaced: the bound has a lag term for the time from the start of a tick to its decision, because the source reads the clock again after discovery and measuring.
- Render.TouchedIsShared: for an atomic whose table and interface no other atomic shares, because a route in a colliding table has no single owner; Render.RoutesHaveOwners and Render.ShapingHasOwners say what holds without that.
- Render.BackupTouchedOnlyWhileActive: the same restriction; Render.AtRestOnlyNormalIsTouched is the result without it.
- Schedule.BackupCarriesNothingAtRest: the same restriction; Schedule.NothingOnBackupAtRest is the result without it.
- Ledger.LivenessCostIsBounded: for one process life, since liveness clocks are not saved; discovery is taken to report new atomics without a cost, as it does, and only mode changes come from outside the loops.
