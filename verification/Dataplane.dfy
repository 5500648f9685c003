/** What every run of ticks does to the kernel. */
module Dataplane {
  import opened Model
  import opened Allocation
  import opened Render
  import opened Kernel
  import opened Healing
  import opened Forwarding
  import opened Schedule
  import Control = Daemon

  /** One tick with what the kernel's tools do during it: reads and commands may fail. */
  datatype Beat = Beat(tick: Tick, faults: ReadFaults, luck: Luck)

  function Ticks(beats: seq<Beat>): (ticks: seq<Tick>)
    ensures |ticks| == |beats|
  {
    seq(|beats|, i requires 0 <= i < |beats| => beats[i].tick)
  }

  /** What the tick's fast loop renders after the ticks before it. */
  function Asked(cfg: Config, loops: Loops, plan: Plan, d: Daemon, before: seq<Beat>,
                 b: Beat): Option<Result<DesiredState, Id>> {
    Rendered(cfg, loops, plan, RunTicks(cfg, loops, d, Ticks(before)), b.tick)
  }

  /** The kernel after a run of ticks, each as the daemon object leaves it. */
  function KernelOf(env: Env, cfg: Config, loops: Loops, plan: Plan, d: Daemon, k: Kernel, beats: seq<Beat>): Kernel {
    if beats == [] then k
    else
      var before, b := beats[..|beats| - 1], beats[|beats| - 1];
      Control.KernelAfter(env, KernelOf(env, cfg, loops, plan, d, k, before), Asked(cfg, loops, plan, d, before, b),
                          b.faults, b.luck, 0)
  }

  /** The daemon numbers commands from its start; a tick's own count from zero is as good. */
  lemma {:induction false} CountFromZero(k: Kernel, commands: seq<Command>, luck: Luck, at: nat)
    ensures Execute(k, commands, luck, at) == Execute(k, commands, From(luck, at), 0)
  {
    if |commands| > 0 {
      CountFromZero(k, commands[..|commands| - 1], luck, at);
    }
  }

  function From(luck: Luck, at: nat): Luck {
    (i: nat) => luck(at + i)
  }

  lemma KernelAfterFromZero(env: Env, k: Kernel, r: Option<Result<DesiredState, Id>>, f: ReadFaults, luck: Luck,
                            at: nat)
    ensures Control.KernelAfter(env, k, r, f, luck, at) == Control.KernelAfter(env, k, r, f, From(luck, at), 0)
  {
    if r.Some? && r.value.Ok? {
      CountFromZero(k, Issued(env, k, r.value.value, f), luck, at);
    }
  }

  lemma TicksSnoc(beats: seq<Beat>, b: Beat)
    ensures Ticks(beats + [b]) == Ticks(beats) + [b.tick]
  {
  }

  lemma KernelSnoc(env: Env, cfg: Config, loops: Loops, plan: Plan, d: Daemon, k: Kernel, beats: seq<Beat>, b: Beat)
    ensures KernelOf(env, cfg, loops, plan, d, k, beats + [b])
         == Control.KernelAfter(env, KernelOf(env, cfg, loops, plan, d, k, beats), Asked(cfg, loops, plan, d, beats, b),
                                b.faults, b.luck, 0)
  {
    assert (beats + [b])[..|beats|] == beats;
  }

  /** One tick of the daemon object, whose commands are numbered from those issued before, is
      one more beat: what `Tick` leaves of the kernel is what the run of beats comes to. */
  lemma TickIsABeat(env: Env, cfg: Config, loops: Loops, plan: Plan, d: Daemon, k: Kernel, beats: seq<Beat>, t: Tick,
                    r: Option<Result<DesiredState, Id>>, f: ReadFaults, luck: Luck, at: nat)
    requires r == Rendered(cfg, loops, plan, RunTicks(cfg, loops, d, Ticks(beats)), t)
    ensures Control.KernelAfter(env, KernelOf(env, cfg, loops, plan, d, k, beats), r, f, luck, at)
         == KernelOf(env, cfg, loops, plan, d, k, beats + [Beat(t, f, From(luck, at))])
  {
    KernelAfterFromZero(env, KernelOf(env, cfg, loops, plan, d, k, beats), r, f, luck, at);
    KernelSnoc(env, cfg, loops, plan, d, k, beats, Beat(t, f, From(luck, at)));
  }

  /** And the schedule after it is that of the run. */
  lemma TickIsOneMore(cfg: Config, loops: Loops, d: Daemon, beats: seq<Beat>, b: Beat)
    ensures RunTick(cfg, loops, RunTicks(cfg, loops, d, Ticks(beats)), b.tick)
         == RunTicks(cfg, loops, d, Ticks(beats + [b]))
  {
    TicksSnoc(beats, b);
    assert (Ticks(beats) + [b.tick])[..|beats|] == Ticks(beats);
  }

  // ---- a run of ticks is a history of reconciles ------------------------------------------------

  function Rounds(cfg: Config, loops: Loops, plan: Plan, d: Daemon, beats: seq<Beat>): seq<Round> {
    if beats == [] then []
    else
      var before, b := beats[..|beats| - 1], beats[|beats| - 1];
      Rounds(cfg, loops, plan, d, before) + RoundFor(Asked(cfg, loops, plan, d, before, b), b)
  }

  /** The reconcile one answer of rendering amounts to. */
  function RoundFor(r: Option<Result<DesiredState, Id>>, b: Beat): seq<Round> {
    if r.Some? && r.value.Ok? then [Round(r.value.value, b.faults, b.luck)] else []
  }

  lemma RoundIsKernelAfter(env: Env, k: Kernel, rounds: seq<Round>, r: Option<Result<DesiredState, Id>>, b: Beat)
    ensures History(env, k, rounds + RoundFor(r, b))
            == Control.KernelAfter(env, History(env, k, rounds), r, b.faults, b.luck, 0)
  {
    if r.Some? && r.value.Ok? {
      HistorySnoc(env, k, rounds, Round(r.value.value, b.faults, b.luck));
    } else {
      assert rounds + RoundFor(r, b) == rounds;
    }
  }

  lemma {:induction false} KernelIsHistory(env: Env, cfg: Config, loops: Loops, plan: Plan, d: Daemon, k: Kernel,
                                           beats: seq<Beat>)
    ensures KernelOf(env, cfg, loops, plan, d, k, beats) == History(env, k, Rounds(cfg, loops, plan, d, beats))
  {
    if |beats| > 0 {
      var before, b := beats[..|beats| - 1], beats[|beats| - 1];
      KernelIsHistory(env, cfg, loops, plan, d, k, before);
      RoundIsKernelAfter(env, k, Rounds(cfg, loops, plan, d, before), Asked(cfg, loops, plan, d, before, b), b);
    }
  }

  lemma HistorySnoc(env: Env, k: Kernel, rounds: seq<Round>, r: Round)
    ensures History(env, k, rounds + [r]) == Reconciled(env, History(env, k, rounds), r.desired, r.faults, r.luck, 0)
  {
    assert (rounds + [r])[..|rounds|] == rounds;
  }

  lemma RenderedHasOneHop(plan: Plan, a: Allocation, view: View)
    requires Render.Render(plan, a, view).Ok?
    ensures OneHop(Render.Render(plan, a, view).value.routes, plan.tunnel)
  {
    RoutesComeFromShares(plan, view, a.shares);
  }

  lemma AskedHasOneHop(cfg: Config, loops: Loops, plan: Plan, d: Daemon, before: seq<Beat>, b: Beat)
    ensures var r := Asked(cfg, loops, plan, d, before, b);
            r.Some? && r.value.Ok? ==> OneHop(r.value.value.routes, plan.tunnel)
  {
    var r := Asked(cfg, loops, plan, d, before, b);
    if r.Some? && r.value.Ok? {
      var c := RunTick(cfg, loops, RunTicks(cfg, loops, d, Ticks(before)), b.tick).controller;
      RenderedHasOneHop(plan, c.last.value, b.tick.view);
    }
  }

  lemma {:induction false} RoundsUseTheTunnel(cfg: Config, loops: Loops, plan: Plan, d: Daemon, beats: seq<Beat>)
    ensures forall i :: 0 <= i < |Rounds(cfg, loops, plan, d, beats)| ==>
              OneHop(Rounds(cfg, loops, plan, d, beats)[i].desired.routes, plan.tunnel)
  {
    if |beats| > 0 {
      RoundsUseTheTunnel(cfg, loops, plan, d, beats[..|beats| - 1]);
      AskedHasOneHop(cfg, loops, plan, d, beats[..|beats| - 1], beats[|beats| - 1]);
    }
  }

  /** Over every run of ticks from any daemon state, with any reads and commands failing:
      marked traffic can leave only through the tunnel, no rule or queue is ever removed, and
      queues of devices no rendered state shapes stay as they were. */
  lemma TicksKeepTunnelOnly(env: Env, cfg: Config, loops: Loops, plan: Plan, d: Daemon, k: Kernel, beats: seq<Beat>,
                            marks: set<int>)
    requires TunnelOnly(k, marks, plan.tunnel)
    ensures var k' := KernelOf(env, cfg, loops, plan, d, k, beats);
            && TunnelOnly(k', marks, plan.tunnel)
            && NothingRemoved(k, k', AllDevices(env, Rounds(cfg, loops, plan, d, beats)))
  {
    KernelIsHistory(env, cfg, loops, plan, d, k, beats);
    RoundsUseTheTunnel(cfg, loops, plan, d, beats);
    HistoryKeepsTunnelOnly(env, k, Rounds(cfg, loops, plan, d, beats), marks, plan.tunnel);
  }

  /** And after a tick whose commands succeed, every mark it wants routed resolves to the tunnel. */
  lemma TickReachesTunnel(env: Env, cfg: Config, loops: Loops, plan: Plan, d: Daemon, k: Kernel, beats: seq<Beat>,
                          b: Beat, marks: set<int>, r: RouteRule)
    requires TunnelOnly(k, marks, plan.tunnel)
    requires var want := Asked(cfg, loops, plan, d, beats, b);
             && want.Some? && want.value.Ok?
             && Lucky(b.luck, 0, |Script(env, want.value.value)|)
             && r in want.value.value.routes && r.fwmark in marks
    ensures var k' := KernelOf(env, cfg, loops, plan, d, k, beats + [b]);
            Resolve(k'.rules, k'.defaults, r.fwmark) == Some(plan.tunnel)
  {
    var all := beats + [b];
    assert all[..|beats|] == beats;
    var rounds, want := Rounds(cfg, loops, plan, d, beats), Asked(cfg, loops, plan, d, beats, b).value.value;
    KernelIsHistory(env, cfg, loops, plan, d, k, all);
    RoundsUseTheTunnel(cfg, loops, plan, d, beats);
    AskedHasOneHop(cfg, loops, plan, d, beats, b);
    RoutedMarksReachTunnel(env, k, rounds, Round(want, b.faults, b.luck), marks, plan.tunnel, r);
  }
}
