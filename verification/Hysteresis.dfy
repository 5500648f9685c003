/** The four-state activation machine, one step per decision, and what holds of
    every run of it. A run is a sequence of signals: what one decision saw. */
module Hysteresis {
  import opened Model

  datatype BackupState = Idle | Arming | Active | Releasing

  datatype Signal = Signal(now: real, inDeficit: bool, recovered: bool, haveBackup: bool)

  datatype Machine = Machine(state: BackupState, since: real, transitions: nat)

  function Enter(m: Machine, state: BackupState, now: real): Machine {
    if m.state == state then m else m.(state := state, since := now)
  }

  function Step(t: Thresholds, m: Machine, s: Signal): Machine {
    var elapsed := s.now - m.since;
    match m.state
    case Idle =>
      if s.inDeficit && s.haveBackup then Enter(m, Arming, s.now) else m
    case Arming =>
      if !s.inDeficit || !s.haveBackup then Enter(m, Idle, s.now)
      else if elapsed >= t.activationDwell then Enter(m, Active, s.now).(transitions := m.transitions + 1)
      else m
    case Active =>
      if !s.haveBackup then Enter(m, Idle, s.now)
      else if s.recovered then Enter(m, Releasing, s.now)
      else m
    case Releasing =>
      if !s.recovered then Enter(m, Arming, s.now)
      else if elapsed >= t.recoveryDwell then Enter(m, Idle, s.now).(transitions := m.transitions + 1)
      else m
  }

  function Run(t: Thresholds, m: Machine, signals: seq<Signal>): Machine {
    if signals == [] then m
    else Step(t, Run(t, m, signals[..|signals| - 1]), signals[|signals| - 1])
  }

  /** The machine after the first k signals. */
  function At(t: Thresholds, m: Machine, signals: seq<Signal>, k: nat): Machine
    requires k <= |signals|
  {
    Run(t, m, signals[..k])
  }

  /** Signals come at non-decreasing times, none before `start`. */
  ghost predicate Monotone(start: real, signals: seq<Signal>) {
    && (forall k :: 0 <= k < |signals| ==> start <= signals[k].now)
    && (forall j, k :: 0 <= j < k < |signals| ==> signals[j].now <= signals[k].now)
  }

  lemma AtStep(t: Thresholds, m: Machine, signals: seq<Signal>, k: nat)
    requires k < |signals|
    ensures At(t, m, signals, k + 1) == Step(t, At(t, m, signals, k), signals[k])
  {
    assert signals[..k + 1][..k] == signals[..k];
  }

  lemma AtPrefix(t: Thresholds, m: Machine, signals: seq<Signal>, n: nat, k: nat)
    requires k <= n <= |signals|
    ensures At(t, m, signals[..n], k) == At(t, m, signals, k)
  {
    assert signals[..n][..k] == signals[..k];
  }

  // ---- anti-flap accounting -------------------------------------------------

  /** How many steps of the run took the machine from `from` to `to`. */
  ghost function Crossings(t: Thresholds, m: Machine, signals: seq<Signal>, from: BackupState, to: BackupState): nat {
    if signals == [] then 0
    else
      var before := signals[..|signals| - 1];
      Crossings(t, m, before, from, to)
      + (if Run(t, m, before).state == from && Run(t, m, signals).state == to then 1 else 0)
  }

  ghost function Activations(t: Thresholds, m: Machine, signals: seq<Signal>): nat {
    Crossings(t, m, signals, Arming, Active)
  }

  ghost function Releases(t: Thresholds, m: Machine, signals: seq<Signal>): nat {
    Crossings(t, m, signals, Releasing, Idle)
  }

  ghost function Engaged(m: Machine): nat {
    if m.state.Active? || m.state.Releasing? then 1 else 0
  }

  /** Time spent dwelling pays for every activation and every completed release.
      From any starting machine, so also for any window of a longer run. */
  lemma AntiFlap(t: Thresholds, m: Machine, signals: seq<Signal>)
    requires Monotone(m.since, signals)
    ensures Activations(t, m, signals) as real * t.activationDwell + Releases(t, m, signals) as real * t.recoveryDwell
         <= Elapsed(m, signals)
  {
    var a, r, elapsed := Activations(t, m, signals), Releases(t, m, signals), Elapsed(m, signals);
    assert Times(a, t.activationDwell) + Times(r, t.recoveryDwell) <= elapsed by {
      DwellsArePaid(t, m, signals);
      PaidCountsCrossings(t, m, signals);
    }
    Bill(a, t.activationDwell, r, t.recoveryDwell, elapsed);
  }

  /** Time from the machine's last transition before the run to the run's last signal. */
  ghost function Elapsed(m: Machine, signals: seq<Signal>): real {
    if signals == [] then 0.0 else signals[|signals| - 1].now - m.since
  }

  /** The dwell owed for every crossing of a run, added up step by step. */
  ghost function Paid(t: Thresholds, m: Machine, signals: seq<Signal>): real {
    if signals == [] then 0.0
    else
      var before := signals[..|signals| - 1];
      var from, to := Run(t, m, before).state, Run(t, m, signals).state;
      Paid(t, m, before)
      + (if from.Arming? && to.Active? then t.activationDwell
         else if from.Releasing? && to.Idle? then t.recoveryDwell else 0.0)
  }

  lemma {:induction false} DwellsArePaid(t: Thresholds, m: Machine, signals: seq<Signal>)
    requires Monotone(m.since, signals)
    ensures var last := Run(t, m, signals);
            && Paid(t, m, signals) <= last.since - m.since
            && m.since <= last.since
            && (signals != [] ==> last.since <= signals[|signals| - 1].now)
  {
    if signals != [] {
      DwellsArePaid(t, m, signals[..|signals| - 1]);
    }
  }

  ghost function Times(n: nat, x: real): real {
    if n == 0 then 0.0 else Times(n - 1, x) + x
  }

  lemma {:induction false} TimesIsProduct(n: nat, x: real)
    ensures Times(n, x) == n as real * x
  {
    if n > 0 {
      TimesIsProduct(n - 1, x);
      var before := (n - 1) as real;
      assert (before + 1.0) * x == before * x + x;
    }
  }

  lemma Bill(a: nat, x: real, r: nat, y: real, elapsed: real)
    requires Times(a, x) + Times(r, y) <= elapsed
    ensures a as real * x + r as real * y <= elapsed
  {
    TimesIsProduct(a, x);
    TimesIsProduct(r, y);
  }

  lemma {:induction false} PaidCountsCrossings(t: Thresholds, m: Machine, signals: seq<Signal>)
    ensures Paid(t, m, signals)
         == Times(Activations(t, m, signals), t.activationDwell) + Times(Releases(t, m, signals), t.recoveryDwell)
  {
    if signals != [] {
      PaidCountsCrossings(t, m, signals[..|signals| - 1]);
    }
  }

  /** The counter reports exactly those crossings, and nothing is released that was not activated. */
  lemma {:induction false} TransitionsCountCrossings(t: Thresholds, m: Machine, signals: seq<Signal>)
    ensures var a, r := Activations(t, m, signals), Releases(t, m, signals);
            var last := Run(t, m, signals);
            && last.transitions == m.transitions + a + r
            && r + Engaged(last) <= a + Engaged(m)
  {
    if signals != [] {
      TransitionsCountCrossings(t, m, signals[..|signals| - 1]);
    }
  }

  // ---- why the machine is active ---------------------------------------------

  /** Signal i armed the machine and every later signal saw a deficit and a live backup. */
  ghost predicate Armed(t: Thresholds, m: Machine, signals: seq<Signal>, i: nat) {
    && i < |signals|
    && At(t, m, signals, i + 1) == At(t, m, signals, i).(state := Arming, since := signals[i].now)
    && !At(t, m, signals, i).state.Arming?
    && (if At(t, m, signals, i).state.Releasing? then !signals[i].recovered
        else signals[i].inDeficit && signals[i].haveBackup)
    && (forall k :: i < k < |signals| ==> signals[k].inDeficit && signals[k].haveBackup)
  }

  /** Signal i armed and the last signal activated: a full dwell later, with deficit and a
      live backup at every signal after i, and arming all the while. */
  ghost predicate Fired(t: Thresholds, m: Machine, signals: seq<Signal>, i: nat) {
    && Armed(t, m, signals, i) && i < |signals| - 1
    && signals[|signals| - 1].now - signals[i].now >= t.activationDwell
    && (forall k :: i < k < |signals| ==> At(t, m, signals, k).state.Arming?)
  }

  /** Active ever since signal j, with nothing recovered and no backup lost. */
  ghost predicate ActiveSince(t: Thresholds, m: Machine, signals: seq<Signal>, j: nat)
    requires j < |signals|
  {
    var n := |signals| - 1;
    && Run(t, m, signals).state.Active?
    && (j == n || (signals[n].haveBackup && !signals[n].recovered && ActiveSince(t, m, signals[..n], j)))
  }

  /** Signal i armed, signal j activated a full dwell later with deficit and live
      backup throughout, and since j nothing has recovered and no backup was lost. */
  ghost predicate Activated(t: Thresholds, m: Machine, signals: seq<Signal>, i: nat, j: nat) {
    i < j < |signals| && Fired(t, m, signals[..j + 1], i) && ActiveSince(t, m, signals, j)
  }

  lemma {:induction false} ArmingHasCause(t: Thresholds, m: Machine, signals: seq<Signal>) returns (i: nat)
    requires m.state.Idle?
    requires Run(t, m, signals).state.Arming?
    ensures Armed(t, m, signals, i)
    ensures Run(t, m, signals).since == signals[i].now
    ensures forall k :: i < k <= |signals| ==> At(t, m, signals, k).state.Arming?
  {
    var n := |signals| - 1;
    var before := signals[..n];
    assert signals[..n + 1] == signals;
    AtStep(t, m, signals, n);
    if Run(t, m, before).state.Arming? {
      i := ArmingHasCause(t, m, before);
      forall k | 0 <= k <= n ensures At(t, m, before, k) == At(t, m, signals, k) {
        AtPrefix(t, m, signals, n, k);
      }
      assert At(t, m, signals, i + 1) == At(t, m, before, i + 1);
    } else {
      i := n;
    }
  }

  /** An active machine got there by a full dwell of deficit with a live backup. */
  lemma {:induction false} ActiveHasCause(t: Thresholds, m: Machine, signals: seq<Signal>) returns (i: nat, j: nat)
    requires m.state.Idle?
    requires Run(t, m, signals).state.Active?
    ensures Activated(t, m, signals, i, j)
  {
    var n := |signals| - 1;
    if Run(t, m, signals[..n]).state.Active? {
      i, j := ActiveHasCause(t, m, signals[..n]);
      StillActive(t, m, signals, i, j);
    } else {
      i := ArmingHasCause(t, m, signals[..n]);
      j := n;
      NowActive(t, m, signals, i);
    }
  }

  lemma StillActive(t: Thresholds, m: Machine, signals: seq<Signal>, i: nat, j: nat)
    requires |signals| > 0 && Activated(t, m, signals[..|signals| - 1], i, j)
    requires Run(t, m, signals[..|signals| - 1]).state.Active? && Run(t, m, signals).state.Active?
    ensures Activated(t, m, signals, i, j)
  {
    assert signals[..|signals| - 1][..j + 1] == signals[..j + 1];
    ActiveIsKept(t, Run(t, m, signals[..|signals| - 1]), signals[|signals| - 1]);
  }

  lemma ActiveIsKept(t: Thresholds, m: Machine, s: Signal)
    requires m.state.Active? && Step(t, m, s).state.Active?
    ensures s.haveBackup && !s.recovered
  {
  }

  lemma NowActive(t: Thresholds, m: Machine, signals: seq<Signal>, i: nat)
    requires |signals| > 0 && Run(t, m, signals).state.Active? && Armed(t, m, signals[..|signals| - 1], i)
    requires var before := signals[..|signals| - 1];
             && Run(t, m, before).state.Arming? && Run(t, m, before).since == signals[i].now
             && forall k :: i < k < |signals| ==> At(t, m, before, k).state.Arming?
    ensures Activated(t, m, signals, i, |signals| - 1)
  {
    var n := |signals| - 1;
    var before := signals[..n];
    assert signals[..n + 1] == signals;
    AtPrefix(t, m, signals, n, i);
    AtPrefix(t, m, signals, n, i + 1);
    forall k | i < k <= n ensures At(t, m, signals, k).state.Arming? {
      AtPrefix(t, m, signals, n, k);
      assert At(t, m, before, k).state.Arming?;
    }
    forall k | i < k < |signals| ensures signals[k].inDeficit && signals[k].haveBackup {
      assert k < n ==> before[k] == signals[k];
    }
  }

  /** Every change of state and its cause, for the k-th sample of any run: the state entered
      says what was seen and where the machine came from, and nothing else ever moves it. */
  lemma ChangesHaveCauses(t: Thresholds, m: Machine, signals: seq<Signal>, k: nat)
    requires k < |signals|
    ensures var from, to, s := At(t, m, signals, k), At(t, m, signals, k + 1), signals[k];
            var dwelt := s.now - from.since;
            && (to.state.Arming? && from.state != Arming <==>
                || (from.state.Idle? && s.inDeficit && s.haveBackup)
                || (from.state.Releasing? && !s.recovered))
            && (to.state.Active? && from.state != Active <==>
                from.state.Arming? && s.inDeficit && s.haveBackup && dwelt >= t.activationDwell)
            && (to.state.Releasing? && from.state != Releasing <==>
                from.state.Active? && s.haveBackup && s.recovered)
            && (to.state.Idle? && from.state != Idle <==>
                || (from.state.Arming? && !(s.inDeficit && s.haveBackup))
                || (from.state.Active? && !s.haveBackup)
                || (from.state.Releasing? && s.recovered && dwelt >= t.recoveryDwell))
            && (to.state == from.state ==> to == from)
            && (to.state != from.state ==> to.since == s.now)
  {
    AtStep(t, m, signals, k);
  }

  /** A backup lost while in use ends its use at that sample, and nothing is counted:
      there was nothing left to release. */
  lemma LostBackupEndsUse(t: Thresholds, m: Machine, signals: seq<Signal>, k: nat)
    requires k < |signals| && At(t, m, signals, k).state.Active? && !signals[k].haveBackup
    ensures At(t, m, signals, k + 1) == Machine(Idle, signals[k].now, At(t, m, signals, k).transitions)
  {
    AtStep(t, m, signals, k);
  }

  /** Signal i found an active machine, a live backup and capacity recovered; every signal
      since saw it recovered too, and the machine has been releasing all the while. */
  ghost predicate Recovering(t: Thresholds, m: Machine, signals: seq<Signal>, i: nat) {
    && i < |signals|
    && At(t, m, signals, i).state.Active? && signals[i].haveBackup
    && (forall k :: i <= k < |signals| ==> signals[k].recovered)
    && (forall k :: i < k <= |signals| ==> At(t, m, signals, k).state.Releasing?)
  }

  /** A releasing machine was active until a sample that saw recovery with its backup alive. */
  lemma {:induction false} ReleasingHasCause(t: Thresholds, m: Machine, signals: seq<Signal>) returns (i: nat)
    requires m.state != Releasing
    requires Run(t, m, signals).state.Releasing?
    ensures Recovering(t, m, signals, i)
    ensures Run(t, m, signals).since == signals[i].now
  {
    var n := |signals| - 1;
    var before := signals[..n];
    assert signals[..n + 1] == signals;
    AtStep(t, m, signals, n);
    if Run(t, m, before).state.Releasing? {
      i := ReleasingHasCause(t, m, before);
      forall k | 0 <= k <= n ensures At(t, m, before, k) == At(t, m, signals, k) {
        AtPrefix(t, m, signals, n, k);
      }
      StillRecovering(t, m, signals, i);
    } else {
      i := n;
    }
  }

  lemma StillRecovering(t: Thresholds, m: Machine, signals: seq<Signal>, i: nat)
    requires |signals| > 0 && Recovering(t, m, signals[..|signals| - 1], i)
    requires forall k :: 0 <= k < |signals| ==> At(t, m, signals[..|signals| - 1], k) == At(t, m, signals, k)
    requires signals[|signals| - 1].recovered && At(t, m, signals, |signals|).state.Releasing?
    ensures Recovering(t, m, signals, i)
  {
    var n := |signals| - 1;
    var before := signals[..n];
    assert At(t, m, before, i).state.Active?;
    forall k | i < k <= |signals| ensures At(t, m, signals, k).state.Releasing? {
      assert k <= n ==> At(t, m, before, k).state.Releasing?;
    }
    forall k | i <= k < |signals| ensures signals[k].recovered {
      assert k < n ==> before[k] == signals[k];
    }
  }

  /** A release is completed, and counted, only after a full dwell in which every sample
      saw capacity recovered, from the one that found the machine active on a live backup. */
  lemma {:induction false} ReleaseHasCause(t: Thresholds, m: Machine, signals: seq<Signal>) returns (i: nat)
    requires m.state != Releasing && signals != []
    requires Run(t, m, signals[..|signals| - 1]).state.Releasing? && Run(t, m, signals).state.Idle?
    ensures Recovering(t, m, signals[..|signals| - 1], i) && signals[|signals| - 1].recovered
    ensures signals[|signals| - 1].now - signals[i].now >= t.recoveryDwell
    ensures Run(t, m, signals)
         == Machine(Idle, signals[|signals| - 1].now, Run(t, m, signals[..|signals| - 1]).transitions + 1)
  {
    i := ReleasingHasCause(t, m, signals[..|signals| - 1]);
  }

  /** Samples i..j all saw a deficit and a live backup. */
  ghost predicate DeficitStretch(signals: seq<Signal>, i: nat, j: nat) {
    i <= j < |signals| && forall k :: i <= k <= j ==> signals[k].inDeficit && signals[k].haveBackup
  }

  /** Input whose deficits never last a dwell never activates at all. */
  lemma {:induction false} ShortDeficitsNeverActivate(t: Thresholds, m: Machine, signals: seq<Signal>)
    requires m.state.Idle?
    requires forall i: nat, j: nat :: i < j && DeficitStretch(signals, i, j) ==>
            signals[j].now - signals[i].now < t.activationDwell
    ensures Run(t, m, signals).state.Idle? || Run(t, m, signals).state.Arming?
    ensures Run(t, m, signals).transitions == m.transitions
  {
    if signals != [] {
      var n := |signals| - 1;
      var before := signals[..n];
      forall i: nat, j: nat | i < j && DeficitStretch(before, i, j)
        ensures before[j].now - before[i].now < t.activationDwell
      {
        assert DeficitStretch(signals, i, j);
      }
      ShortDeficitsNeverActivate(t, m, before);
      if Run(t, m, before).state.Arming? && signals[n].inDeficit && signals[n].haveBackup {
        var i := ArmingHasCause(t, m, before);
        if At(t, m, before, i).state.Releasing? {
          NeverReleasing(t, m, before, i);
        }
        assert DeficitStretch(signals, i, n);
      }
    }
  }

  /** Releasing is reached only through an activation, which would have been counted. */
  lemma {:induction false} NeverReleasing(t: Thresholds, m: Machine, signals: seq<Signal>, k: nat)
    requires m.state.Idle? && k <= |signals|
    requires Run(t, m, signals).transitions == m.transitions
    ensures !At(t, m, signals, k).state.Releasing? && !At(t, m, signals, k).state.Active?
    decreases |signals|, k
  {
    TransitionsGrow(t, m, signals, k);
    if k > 0 {
      AtStep(t, m, signals, k - 1);
      NeverReleasing(t, m, signals, k - 1);
      TransitionsGrow(t, m, signals, k - 1);
    } else {
      assert signals[..0] == [];
    }
  }

  lemma {:induction false} TransitionsGrow(t: Thresholds, m: Machine, signals: seq<Signal>, k: nat)
    requires k <= |signals|
    ensures m.transitions <= At(t, m, signals, k).transitions <= Run(t, m, signals).transitions
    decreases |signals|
  {
    if signals == [] {
      assert signals[..k] == [];
    } else {
      var n := |signals| - 1;
      TransitionsGrow(t, m, signals[..n], Min(k, n));
      if k <= n {
        AtPrefix(t, m, signals, n, k);
      } else {
        assert signals[..k] == signals;
      }
    }
  }

  // ---- bounded response -------------------------------------------------------

  /** Decisions are at most g apart, the first at most g after `start`. */
  ghost predicate Spaced(start: real, signals: seq<Signal>, g: real) {
    && Monotone(start, signals)
    && (signals != [] ==> signals[0].now <= start + g)
    && (forall k :: 0 < k < |signals| ==> signals[k].now <= signals[k - 1].now + g)
  }

  /** The first index, not the first signal itself, at which `deadline` has passed. */
  lemma {:induction false} FirstAfter(start: real, signals: seq<Signal>, g: real, dwell: real) returns (k: nat)
    requires Spaced(start, signals, g) && g >= 0.0 && dwell >= 0.0
    requires |signals| >= 2 && signals[|signals| - 1].now >= start + g + dwell
    ensures 0 < k < |signals|
    ensures signals[0].now + dwell <= signals[k].now <= start + dwell + 2.0 * g
  {
    k := 1;
    while signals[k].now < signals[0].now + dwell
      invariant 0 < k < |signals|
      invariant signals[k].now <= start + dwell + 2.0 * g
      decreases |signals| - k
    {
      assert signals[|signals| - 1].now >= signals[0].now + dwell;
      k := k + 1;
    }
  }

  /** Under sustained deficit with a live backup, from any state, the machine is
      active no later than two decision gaps past the dwell, and stays active. */
  lemma {:induction false} DeficitActivates(t: Thresholds, m: Machine, start: real, signals: seq<Signal>, g: real)
    returns (k: nat)
    requires NonNegative(t) && m.since <= start && g >= 0.0
    requires Spaced(start, signals, g)
    requires forall i :: 0 <= i < |signals| ==> signals[i].inDeficit && signals[i].haveBackup && !signals[i].recovered
    requires |signals| >= 2 && signals[|signals| - 1].now >= start + g + t.activationDwell
    ensures k < |signals| && signals[k].now <= start + t.activationDwell + 2.0 * g
    ensures forall n :: k < n <= |signals| ==> At(t, m, signals, n).state.Active?
  {
    k := FirstAfter(start, signals, g, t.activationDwell);
    forall n | k < n <= |signals| ensures At(t, m, signals, n).state.Active? {
      ArmsThenActivates(t, m, start, signals, n);
    }
  }

  lemma {:induction false} ArmsThenActivates(t: Thresholds, m: Machine, start: real, signals: seq<Signal>, n: nat)
    requires NonNegative(t) && m.since <= start && Monotone(start, signals)
    requires forall i :: 0 <= i < |signals| ==> signals[i].inDeficit && signals[i].haveBackup && !signals[i].recovered
    requires 0 < n <= |signals|
    ensures var now := At(t, m, signals, n);
            && (now.state.Active? || (now.state.Arming? && now.since <= signals[0].now))
            && (n > 1 && signals[n - 1].now >= signals[0].now + t.activationDwell ==> now.state.Active?)
  {
    AtStep(t, m, signals, n - 1);
    if n == 1 {
      assert signals[..0] == [];
    } else {
      ArmsThenActivates(t, m, start, signals, n - 1);
    }
  }

  /** Under sustained recovery, from any state, the machine is idle no later than
      two decision gaps past the recovery dwell, and stays idle. */
  lemma {:induction false} RecoveryReleases(t: Thresholds, m: Machine, start: real, signals: seq<Signal>, g: real)
    returns (k: nat)
    requires NonNegative(t) && m.since <= start && g >= 0.0
    requires Spaced(start, signals, g)
    requires forall i :: 0 <= i < |signals| ==> signals[i].recovered && !signals[i].inDeficit
    requires |signals| >= 2 && signals[|signals| - 1].now >= start + g + t.recoveryDwell
    ensures k < |signals| && signals[k].now <= start + t.recoveryDwell + 2.0 * g
    ensures forall n :: k < n <= |signals| ==> At(t, m, signals, n).state.Idle?
  {
    k := FirstAfter(start, signals, g, t.recoveryDwell);
    forall n | k < n <= |signals| ensures At(t, m, signals, n).state.Idle? {
      ReleasesThenIdles(t, m, start, signals, n);
    }
  }

  lemma {:induction false} ReleasesThenIdles(t: Thresholds, m: Machine, start: real, signals: seq<Signal>, n: nat)
    requires NonNegative(t) && m.since <= start && Monotone(start, signals)
    requires forall i :: 0 <= i < |signals| ==> signals[i].recovered && !signals[i].inDeficit
    requires 0 < n <= |signals|
    ensures var now := At(t, m, signals, n);
            && (now.state.Idle? || (now.state.Releasing? && now.since <= signals[0].now))
            && (n > 1 && signals[n - 1].now >= signals[0].now + t.recoveryDwell ==> now.state.Idle?)
  {
    AtStep(t, m, signals, n - 1);
    if n == 1 {
      assert signals[..0] == [];
    } else {
      ReleasesThenIdles(t, m, start, signals, n - 1);
    }
  }
}
