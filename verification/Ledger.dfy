/** What the user has been charged for keeping backups alive: the registry's own totals
    over every run of ticks, mode changes and unplugs. */
module Ledger {
  import opened Model
  import opened Allocation
  import opened Schedule
  import opened Liveness
  import Registry
  import Control = Daemon

  /** The liveness bytes on a connection's account; nothing if it is not known yet. */
  function Held(b: Registry.Book, id: Id): nat {
    if id in b then b[id].cost.livenessBytes else 0
  }

  /** Discovery reports connections without a cost. */
  predicate Unspent(seen: seq<Atomic>) {
    forall a :: a in seen ==> a.cost.livenessBytes == 0
  }

  /** An update that is in order for a book: sweeps carry no cost and only known
      connections are charged. */
  predicate Proper(b: Registry.Book, e: Registry.Event) {
    (e.Observed? ==> Unspent(e.seen)) && (e.CostAdded? ==> e.id in b)
  }

  predicate AllProper(b: Registry.Book, events: seq<Registry.Event>) {
    forall i :: 0 <= i < |events| ==> Proper(b, events[i])
  }

  // ---- one registry update --------------------------------------------------------------

  lemma {:induction false} NewcomersOweNothing(b: Registry.Book, seen: seq<Atomic>, id: Id)
    requires Unspent(seen) && id !in b
    ensures Held(Registry.SeeAll(b, seen), id) == 0
  {
    if |seen| > 0 {
      NewcomersOweNothing(b, seen[..|seen| - 1], id);
      assert seen[|seen| - 1] in seen;
    }
  }

  function Charge(e: Registry.Event, id: Id): nat {
    if e.CostAdded? && e.id == id then e.liveness else 0
  }

  lemma HeldAfterOne(b: Registry.Book, e: Registry.Event, id: Id)
    requires Registry.Keyed(b) && Proper(b, e)
    ensures Held(Registry.Update(b, e), id) == Held(b, id) + Charge(e, id)
  {
    if id in b {
      Registry.UpdateKeepsMemory(b, e, id);
    } else if e.Observed? {
      NewcomersOweNothing(b, e.seen, id);
    }
  }

  lemma UpdateKeepsKeys(b: Registry.Book, e: Registry.Event)
    requires Registry.Keyed(b)
    ensures Registry.Keyed(Registry.Update(b, e)) && b.Keys <= Registry.Update(b, e).Keys
  {
    if e.Observed? {
      Registry.SeeAllKeepsMemory(b, e.seen);
    }
  }

  lemma {:induction false} UpdatesKeepKeys(b: Registry.Book, events: seq<Registry.Event>)
    requires Registry.Keyed(b)
    ensures Registry.Keyed(Registry.Updates(b, events)) && b.Keys <= Registry.Updates(b, events).Keys
  {
    if |events| > 0 {
      UpdatesKeepKeys(b, events[..|events| - 1]);
      UpdateKeepsKeys(Registry.Updates(b, events[..|events| - 1]), events[|events| - 1]);
    }
  }

  /** The account grows by exactly what is charged to it. */
  lemma {:induction false} HeldAfter(b: Registry.Book, events: seq<Registry.Event>, id: Id)
    requires Registry.Keyed(b) && AllProper(b, events)
    ensures Held(Registry.Updates(b, events), id) == Held(b, id) + Registry.LivenessAdded(id, events)
  {
    if |events| > 0 {
      var before := events[..|events| - 1];
      HeldAfter(b, before, id);
      UpdatesKeepKeys(b, before);
      HeldAfterOne(Registry.Updates(b, before), events[|events| - 1], id);
    }
  }

  lemma {:induction false} FreeOfCharge(events: seq<Registry.Event>, id: Id)
    requires forall i :: 0 <= i < |events| ==> !events[i].CostAdded?
    ensures Registry.LivenessAdded(id, events) == 0
  {
    if |events| > 0 {
      FreeOfCharge(events[..|events| - 1], id);
    }
  }

  // ---- one medium loop --------------------------------------------------------------------

  lemma GroundworkIsProper(cfg: Config, b: Registry.Book, w: Control.Reports)
    requires Unspent(w.sweep)
    ensures AllProper(b, Control.Groundwork(cfg.decay, b, w))
  {
    Control.GroundworkIsFree(cfg.decay, b, w);
    Control.OnlyTheSweepIsASweep(cfg.decay, b, w);
    var events := Control.Groundwork(cfg.decay, b, w);
    forall i | 0 <= i < |events| ensures Proper(b, events[i]) {
      assert events[i] in events;
    }
  }

  lemma GroundworkCostsNothing(cfg: Config, b: Registry.Book, w: Control.Reports, id: Id)
    requires Registry.Keyed(b) && Unspent(w.sweep)
    ensures Held(Registry.Updates(b, Control.Groundwork(cfg.decay, b, w)), id) == Held(b, id)
  {
    var events := Control.Groundwork(cfg.decay, b, w);
    Control.GroundworkIsFree(cfg.decay, b, w);
    forall i | 0 <= i < |events| ensures !events[i].CostAdded? {
      assert events[i] in events;
    }
    FreeOfCharge(events, id);
    GroundworkIsProper(cfg, b, w);
    HeldAfter(b, events, id);
  }

  lemma {:induction false} ProbedAreConsidered(t: Thresholds, last: map<Id, real>, active: bool, backups: seq<Atomic>,
                                               now: real)
    ensures forall id :: id in ProbedIds(t, last, active, backups, now) ==> exists a :: a in backups && a.id == id
  {
    if |backups| > 0 {
      ProbedAreConsidered(t, last, active, backups[..|backups| - 1], now);
      assert backups[|backups| - 1] in backups;
    }
  }

  /** Everyone charged is on the books. */
  lemma ChargedAreKnown(cfg: Config, b: Registry.Book, c: Controller, x: Sample, spentAt: real)
    requires Registry.Lists(b, x.atomics)
    ensures AllProper(b, Bills(cfg.t, Control.Charged(cfg, c, x, Backups(x.atomics), spentAt)))
  {
    var decided, ids := Decide(cfg, c, x), Control.Charged(cfg, c, x, Backups(x.atomics), spentAt);
    ProbedAreConsidered(cfg.t, decided.lastLiveness, decided.machine.state.Active?, Backups(x.atomics), spentAt);
    forall i | 0 <= i < |ids| ensures ids[i] in b {
      assert ids[i] in ids;
    }
  }

  /** One medium loop charges one liveness budget per probe and nothing else. */
  lemma MediumLoopCharges(cfg: Config, b: Registry.Book, c: Controller, w: Control.Reports, x: Sample,
                          backups: seq<Atomic>, id: Id)
    requires Registry.Keyed(b) && Unspent(w.sweep) && Control.TakenOn(cfg, b, w, x, backups)
    ensures Registry.Keyed(Control.BookAfter(cfg, b, c, w, x))
    ensures Held(Control.BookAfter(cfg, b, c, w, x), id)
         == Held(b, id) + Registry.LivenessAdded(id, Bills(cfg.t, Control.Charged(cfg, c, x, backups, w.spentAt)))
  {
    var known := Registry.Updates(b, Control.Groundwork(cfg.decay, b, w));
    var bills := Bills(cfg.t, Control.Charged(cfg, c, x, backups, w.spentAt));
    UpdatesKeepKeys(b, Control.Groundwork(cfg.decay, b, w));
    UpdatesKeepKeys(known, bills);
    GroundworkCostsNothing(cfg, b, w, id);
    ChargedAreKnown(cfg, known, c, x, w.spentAt);
    HeldAfter(known, bills, id);
  }

  // ---- runs of ticks with their registry -----------------------------------------------------

  /** One scheduler pass: what was done to the registry from outside since the last one,
      the tick, and what the world reported to it. */
  datatype Turn = Turn(outside: seq<Registry.Event>, tick: Tick, w: Control.Reports)

  function Ticks(turns: seq<Turn>): (ticks: seq<Tick>)
    ensures |ticks| == |turns|
  {
    seq(|turns|, i requires 0 <= i < |turns| => turns[i].tick)
  }

  function Before(cfg: Config, loops: Loops, d: Daemon, turns: seq<Turn>): Daemon {
    RunTicks(cfg, loops, d, Ticks(turns))
  }

  /** The registry once a turn's outside changes are in. */
  function Opened(b: Registry.Book, u: Turn): Registry.Book {
    Registry.Updates(b, u.outside)
  }

  function BookOf(cfg: Config, loops: Loops, d: Daemon, b: Registry.Book, turns: seq<Turn>): Registry.Book {
    if turns == [] then b
    else
      var before, u := turns[..|turns| - 1], turns[|turns| - 1];
      var was, open := Before(cfg, loops, d, before), Opened(BookOf(cfg, loops, d, b, before), u);
      if MediumDue(was.next, u.tick) then Control.BookAfter(cfg, open, was.controller, u.w, u.tick.x) else open
  }

  /** From outside come only mode changes; a due medium loop decides on the registry it
      finds, as one tick of the daemon object does. */
  ghost predicate Fits(cfg: Config, was: Daemon, b: Registry.Book, u: Turn) {
    && (forall i :: 0 <= i < |u.outside| ==> u.outside[i].ModeSet?)
    && (MediumDue(was.next, u.tick) ==>
          && Unspent(u.w.sweep) && u.tick.spendAt == u.w.spentAt
          && Control.TakenOn(cfg, Opened(b, u), u.w, u.tick.x, u.tick.backups))
  }

  ghost predicate Genuine(cfg: Config, loops: Loops, d: Daemon, b: Registry.Book, turns: seq<Turn>) {
    turns == [] ||
    (var before := turns[..|turns| - 1];
     Genuine(cfg, loops, d, b, before)
        && Fits(cfg, Before(cfg, loops, d, before), BookOf(cfg, loops, d, b, before), turns[|turns| - 1]))
  }

  lemma OutsideCostsNothing(b: Registry.Book, events: seq<Registry.Event>, id: Id)
    requires Registry.Keyed(b) && forall i :: 0 <= i < |events| ==> events[i].ModeSet?
    ensures Registry.Keyed(Registry.Updates(b, events)) && Held(Registry.Updates(b, events), id) == Held(b, id)
  {
    UpdatesKeepKeys(b, events);
    FreeOfCharge(events, id);
    HeldAfter(b, events, id);
  }

  /** What the turn's tick charges. */
  function TurnBills(cfg: Config, was: Daemon, u: Turn): seq<Registry.Event> {
    if MediumDue(was.next, u.tick)
    then Bills(cfg.t, Control.Charged(cfg, was.controller, u.tick.x, u.tick.backups, u.tick.spendAt))
    else []
  }

  lemma TurnCharges(cfg: Config, was: Daemon, b: Registry.Book, u: Turn, id: Id)
    requires Registry.Keyed(b) && Fits(cfg, was, b, u)
    ensures var after := if MediumDue(was.next, u.tick)
            then Control.BookAfter(cfg, Opened(b, u), was.controller, u.w, u.tick.x) else Opened(b, u);
            Registry.Keyed(after) && Held(after, id) == Held(b, id) + Registry.LivenessAdded(id, TurnBills(cfg, was, u))
  {
    OutsideCostsNothing(b, u.outside, id);
    if MediumDue(was.next, u.tick) {
      MediumLoopCharges(cfg, Opened(b, u), was.controller, u.w, u.tick.x, u.tick.backups, id);
    }
  }

  /** What a tick charges is what its pass probes. */
  lemma TurnBillsArePassBills(cfg: Config, loops: Loops, d: Daemon, turns: seq<Turn>)
    requires |turns| > 0 && d.controller.lastLiveness == map[]
    ensures var was, u := Before(cfg, loops, d, turns[..|turns| - 1]), turns[|turns| - 1];
            AllBills(cfg.t, Passes(cfg, loops, d, Ticks(turns)))
              == AllBills(cfg.t, Passes(cfg, loops, d, Ticks(turns[..|turns| - 1]))) + TurnBills(cfg, was, u)
  {
    var before, u := turns[..|turns| - 1], turns[|turns| - 1];
    PassesOfLast(cfg, loops, d, turns);
    if MediumDue(Before(cfg, loops, d, before).next, u.tick) {
      var p := PassOfTick(cfg, Before(cfg, loops, d, before).controller, u.tick);
      AllBillsSnoc(cfg.t, Passes(cfg, loops, d, Ticks(before)), p);
      TicksArePasses(cfg, loops, d, Ticks(before));
      ChargedIsProbed(cfg, Before(cfg, loops, d, before).controller, u.tick, p.active);
    } else {
      NoBillsAdded(AllBills(cfg.t, Passes(cfg, loops, d, Ticks(before))));
    }
  }

  lemma NoBillsAdded(bills: seq<Registry.Event>)
    ensures bills + [] == bills
  {
  }

  /** The pass a due tick makes. */
  function PassOfTick(cfg: Config, c: Controller, t: Tick): Pass {
    Pass(t.x.now, Backups(t.x.atomics), MediumLoop(cfg, c, t.x, t.backups, t.spendAt).machine.state.Active?, t.backups,
         t.spendAt)
  }

  lemma PassesOfLast(cfg: Config, loops: Loops, d: Daemon, turns: seq<Turn>)
    requires |turns| > 0
    ensures var before, t := turns[..|turns| - 1], turns[|turns| - 1].tick;
            Passes(cfg, loops, d, Ticks(turns))
              == if MediumDue(Before(cfg, loops, d, before).next, t)
                 then Passes(cfg, loops, d, Ticks(before))
                    + [PassOfTick(cfg, Before(cfg, loops, d, before).controller, t)]
                 else Passes(cfg, loops, d, Ticks(before))
  {
    assert Ticks(turns)[..|turns| - 1] == Ticks(turns[..|turns| - 1]);
  }

  lemma AllBillsSnoc(t: Thresholds, passes: seq<Pass>, p: Pass)
    ensures AllBills(t, passes + [p])
         == AllBills(t, passes)
            + Bills(t, ProbedIds(t, Baselines(Clocks(t, passes), p.seen, p.now), p.active, p.backups, p.spendAt))
  {
    assert (passes + [p])[..|passes|] == passes;
  }

  lemma ChargedIsProbed(cfg: Config, c: Controller, t: Tick, active: bool)
    requires active == MediumLoop(cfg, c, t.x, t.backups, t.spendAt).machine.state.Active?
    ensures Control.Charged(cfg, c, t.x, t.backups, t.spendAt)
         == ProbedIds(cfg.t, Baselines(c.lastLiveness, Backups(t.x.atomics), t.x.now), active, t.backups, t.spendAt)
  {
  }

  /** What the last turn charges. */
  function LastBills(cfg: Config, loops: Loops, d: Daemon, turns: seq<Turn>): seq<Registry.Event>
    requires |turns| > 0
  {
    TurnBills(cfg, Before(cfg, loops, d, turns[..|turns| - 1]), turns[|turns| - 1])
  }

  lemma LastTurnCharges(cfg: Config, loops: Loops, d: Daemon, b: Registry.Book, turns: seq<Turn>, id: Id)
    requires |turns| > 0 && Registry.Keyed(BookOf(cfg, loops, d, b, turns[..|turns| - 1]))
    requires Fits(cfg, Before(cfg, loops, d, turns[..|turns| - 1]), BookOf(cfg, loops, d, b, turns[..|turns| - 1]),
                  turns[|turns| - 1])
    ensures Registry.Keyed(BookOf(cfg, loops, d, b, turns))
    ensures Held(BookOf(cfg, loops, d, b, turns), id)
         == Held(BookOf(cfg, loops, d, b, turns[..|turns| - 1]), id)
            + Registry.LivenessAdded(id, LastBills(cfg, loops, d, turns))
  {
    var before := turns[..|turns| - 1];
    TurnCharges(cfg, Before(cfg, loops, d, before), BookOf(cfg, loops, d, b, before), turns[|turns| - 1], id);
  }

  /** Over any run the registry's liveness total of every connection is what it was plus
      exactly the bills of the passes that probed it. */
  lemma {:induction false} HeldIsBilled(cfg: Config, loops: Loops, d: Daemon, b: Registry.Book, turns: seq<Turn>,
                                        id: Id)
    requires Registry.Keyed(b) && Genuine(cfg, loops, d, b, turns) && d.controller.lastLiveness == map[]
    ensures Registry.Keyed(BookOf(cfg, loops, d, b, turns))
    ensures Held(BookOf(cfg, loops, d, b, turns), id)
         == Held(b, id) + Registry.LivenessAdded(id, AllBills(cfg.t, Passes(cfg, loops, d, Ticks(turns))))
  {
    if |turns| > 0 {
      var before, u := turns[..|turns| - 1], turns[|turns| - 1];
      HeldIsBilled(cfg, loops, d, b, before, id);
      LastTurnCharges(cfg, loops, d, b, turns, id);
      TurnBillsArePassBills(cfg, loops, d, turns);
      LivenessOfConcat(id, AllBills(cfg.t, Passes(cfg, loops, d, Ticks(before))),
                       TurnBills(cfg, Before(cfg, loops, d, before), u));
    }
  }

  // ---- the clock -------------------------------------------------------------------------------

  /** The last reading of the clock in a run of ticks. */
  function LastReading(loops: Loops, n: Next, ticks: seq<Tick>, start: real): real {
    if ticks == [] then start
    else
      var t := ticks[|ticks| - 1];
      if MediumDue(NextAfter(loops, n, ticks[..|ticks| - 1]), t) then t.spendAt else t.now
  }

  /** The clock never goes back: a tick starts after the last reading, and its decision and
      its spending, if it has any, come in that order. */
  ghost predicate Clocked(loops: Loops, n: Next, ticks: seq<Tick>, start: real) {
    ticks == [] ||
    (var before, t := ticks[..|ticks| - 1], ticks[|ticks| - 1];
     && Clocked(loops, n, before, start) && LastReading(loops, n, before, start) <= t.now
     && (MediumDue(NextAfter(loops, n, before), t) ==> t.now <= t.x.now <= t.spendAt))
  }

  /** So the passes of a run of ticks are in order, and the last no later than the last reading. */
  lemma {:induction false} ClockedPassesAreInOrder(cfg: Config, loops: Loops, d: Daemon, ticks: seq<Tick>, start: real)
    requires Clocked(loops, d.next, ticks, start)
    ensures var passes := Passes(cfg, loops, d, ticks);
            InOrder(passes) && (passes != [] ==> LastSpent(passes) <= LastReading(loops, d.next, ticks, start))
  {
    if |ticks| > 0 {
      var before, t := ticks[..|ticks| - 1], ticks[|ticks| - 1];
      ClockedPassesAreInOrder(cfg, loops, d, before, start);
      ScheduleOfTicks(cfg, loops, d, before);
      var passes, all := Passes(cfg, loops, d, before), Passes(cfg, loops, d, ticks);
      if MediumDue(NextAfter(loops, d.next, before), t) {
        assert all[..|passes|] == passes;
      } else {
        assert all == passes;
      }
    }
  }

  // ---- the bound ------------------------------------------------------------------------------------

  lemma MoreProbesMoreBytes(bytes: nat, n: nat, most: int)
    requires n <= most
    ensures bytes * n <= bytes * most
  {
  }

  /** The bound on what a run of passes bills. */
  ghost predicate WithinBudget(t: Thresholds, t0: Option<real>, now: real, billed: int)
    requires t.livenessInterval > 0.0
  {
    if t0.None? then billed == 0 else billed <= t.livenessBytes * ((now - t0.value) / t.livenessInterval).Floor
  }

  lemma BillsAreWithinBudget(t: Thresholds, passes: seq<Pass>, id: Id, now: real)
    requires InOrder(passes) && (passes != [] ==> LastSpent(passes) <= now) && t.livenessInterval > 0.0
    ensures WithinBudget(t, Baseline(t, passes, id), now, Registry.LivenessAdded(id, AllBills(t, passes)))
  {
    ChargedPerProbe(t, passes, id);
    if |passes| > 0 {
      ProbesAreBounded(t, passes, id, now);
    }
    FewProbesCostLittle(t, Baseline(t, passes, id), now, Probes(t, passes, id),
                        Registry.LivenessAdded(id, AllBills(t, passes)));
  }

  lemma FewProbesCostLittle(t: Thresholds, t0: Option<real>, now: real, n: nat, billed: nat)
    requires t.livenessInterval > 0.0 && billed == t.livenessBytes * n
    requires t0.None? ==> n == 0
    requires t0.Some? ==> n <= ((now - t0.value) / t.livenessInterval).Floor
    ensures WithinBudget(t, t0, now, billed)
  {
    if t0.Some? {
      MoreProbesMoreBytes(t.livenessBytes, n, ((now - t0.value) / t.livenessInterval).Floor);
    }
  }

  /** Over any run of ticks, mode changes, unplugs and activations: a connection without a
      liveness clock has been charged nothing, and one whose clock was started at t0 at most
      one liveness budget per full interval since t0. */
  lemma LivenessCostIsBounded(cfg: Config, loops: Loops, d: Daemon, b: Registry.Book, turns: seq<Turn>, id: Id,
                              start: real, now: real)
    requires Registry.Keyed(b) && Genuine(cfg, loops, d, b, turns) && d.controller.lastLiveness == map[]
    requires Clocked(loops, d.next, Ticks(turns), start) && LastReading(loops, d.next, Ticks(turns), start) <= now
    requires cfg.t.livenessInterval > 0.0
    ensures WithinBudget(cfg.t, Baseline(cfg.t, Passes(cfg, loops, d, Ticks(turns)), id), now,
                         Held(BookOf(cfg, loops, d, b, turns), id) - Held(b, id))
  {
    HeldIsBilled(cfg, loops, d, b, turns, id);
    ClockedPassesAreInOrder(cfg, loops, d, Ticks(turns), start);
    BillsAreWithinBudget(cfg.t, Passes(cfg, loops, d, Ticks(turns)), id, now);
  }

  /** A turn that ends with a backup active charges nobody. */
  lemma NothingChargedWhileActive(cfg: Config, was: Daemon, loops: Loops, u: Turn)
    requires RunTick(cfg, loops, was, u.tick).controller.machine.state.Active?
    ensures TurnBills(cfg, was, u) == []
  {
    if MediumDue(was.next, u.tick) {
      ChargedIsProbed(cfg, was.controller, u.tick, true);
      NoProbesWhileActive(cfg.t, Baselines(was.controller.lastLiveness, Backups(u.tick.x.atomics), u.tick.x.now),
                          u.tick.backups, u.tick.spendAt);
    }
  }

  /** Every turn after the first k ends with a backup active. */
  ghost predicate ActiveSince(cfg: Config, loops: Loops, d: Daemon, turns: seq<Turn>, k: nat) {
    |turns| <= k || (ActiveSince(cfg, loops, d, turns[..|turns| - 1], k)
                     && Before(cfg, loops, d, turns).controller.machine.state.Active?)
  }

  /** As long as a backup is active nobody's liveness total moves. */
  lemma {:induction false} NoLivenessWhileActive(cfg: Config, loops: Loops, d: Daemon, b: Registry.Book,
                                                 turns: seq<Turn>, k: nat, id: Id)
    requires Registry.Keyed(b) && Genuine(cfg, loops, d, b, turns) && d.controller.lastLiveness == map[]
    requires k <= |turns| && ActiveSince(cfg, loops, d, turns, k)
    ensures Held(BookOf(cfg, loops, d, b, turns), id) == Held(BookOf(cfg, loops, d, b, turns[..k]), id)
  {
    if k == |turns| {
      assert turns[..k] == turns;
    } else {
      var before := turns[..|turns| - 1];
      NoLivenessWhileActive(cfg, loops, d, b, before, k, id);
      assert before[..k] == turns[..k];
      HeldIsBilled(cfg, loops, d, b, before, id);
      LastTurnCharges(cfg, loops, d, b, turns, id);
      ActiveTurnIsFree(cfg, loops, d, turns, id);
    }
  }

  lemma ActiveTurnIsFree(cfg: Config, loops: Loops, d: Daemon, turns: seq<Turn>, id: Id)
    requires |turns| > 0 && Before(cfg, loops, d, turns).controller.machine.state.Active?
    ensures Registry.LivenessAdded(id, LastBills(cfg, loops, d, turns)) == 0
  {
    assert Ticks(turns)[..|turns| - 1] == Ticks(turns[..|turns| - 1]);
    NothingChargedWhileActive(cfg, Before(cfg, loops, d, turns[..|turns| - 1]), loops, turns[|turns| - 1]);
  }
}
