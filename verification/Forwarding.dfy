/** What every history of reconciles keeps, whichever commands fail on the way. */
module Forwarding {
  import opened Model
  import opened Render
  import opened Kernel
  import opened Healing

  /** Marked traffic can leave only through the tunnel: rules for our marks look
      only into our tables, and our tables' defaults are absent or the tunnel. */
  ghost predicate TunnelOnly(k: Kernel, marks: set<int>, tunnel: string) {
    && (forall r :: r in k.rules && r.fwmark in marks ==> TABLE_BASE <= r.table < TABLE_BASE + TABLE_SPAN)
    && (forall t :: t in k.defaults && TABLE_BASE <= t < TABLE_BASE + TABLE_SPAN ==> k.defaults[t] == tunnel)
  }

  /** Nothing is torn down: rules are only appended, every device that had a queue
      still has one, and devices outside `touched` keep exactly theirs. */
  ghost predicate NothingRemoved(k: Kernel, k': Kernel, touched: set<string>) {
    && k.rules <= k'.rules
    && k.cake.Keys <= k'.cake.Keys
    && (forall dev :: dev in k.cake && dev !in touched ==> k'.cake[dev] == k.cake[dev])
    && k.links <= k'.links && k.ingress <= k'.ingress
  }

  ghost function Devices(env: Env, d: DesiredState): set<string> {
    var ifbs: set<string> := set s | s in d.shaping :: env.ifbOf(s.ifname);
    ifbs + set s | s in d.shaping :: s.ifname
  }

  /** The commands a rendered state's script is made of. */
  ghost predicate Tame(c: Command, touched: set<string>, tunnel: string) {
    && (c.CakeReplace? ==> c.dev in touched)
    && (c.RuleAdd? ==> TABLE_BASE <= c.table < TABLE_BASE + TABLE_SPAN)
    && (c.RouteReplace? ==> c.dev == tunnel)
  }

  lemma {:induction false} ShapingIsTame(env: Env, shaping: seq<Shaping>, touched: set<string>, tunnel: string)
    requires forall s :: s in shaping ==> s.ifname in touched && env.ifbOf(s.ifname) in touched
    ensures forall c :: c in ShapeAllOf(env, shaping) ==> Tame(c, touched, tunnel)
  {
    if shaping != [] {
      ShapingIsTame(env, shaping[..|shaping| - 1], touched, tunnel);
      assert shaping[|shaping| - 1] in shaping;
    }
  }

  lemma {:induction false} RoutingIsTame(routes: seq<RouteRule>, touched: set<string>, tunnel: string)
    requires OneHop(routes, tunnel)
    ensures forall c :: c in RouteAllOf(routes) ==> Tame(c, touched, tunnel)
  {
    if routes != [] {
      RoutingIsTame(routes[..|routes| - 1], touched, tunnel);
      assert routes[|routes| - 1] in routes;
    }
  }

  lemma ScriptIsTame(env: Env, d: DesiredState, tunnel: string)
    requires OneHop(d.routes, tunnel)
    ensures forall c :: c in Script(env, d) ==> Tame(c, Devices(env, d), tunnel)
  {
    ShapingIsTame(env, d.shaping, Devices(env, d), tunnel);
    RoutingIsTame(d.routes, Devices(env, d), tunnel);
  }

  lemma TameStep(k: Kernel, c: Command, marks: set<int>, touched: set<string>, tunnel: string)
    requires Tame(c, touched, tunnel) && TunnelOnly(k, marks, tunnel)
    ensures TunnelOnly(Effect(k, c), marks, tunnel) && NothingRemoved(k, Effect(k, c), touched)
  {
  }

  lemma {:induction false} TameScript(k: Kernel, commands: seq<Command>, luck: Luck, at: nat,
                                      marks: set<int>, touched: set<string>, tunnel: string)
    requires TunnelOnly(k, marks, tunnel)
    requires forall c :: c in commands ==> Tame(c, touched, tunnel)
    ensures var k' := Execute(k, commands, luck, at);
            TunnelOnly(k', marks, tunnel) && NothingRemoved(k, k', touched)
  {
    if commands != [] {
      var n := |commands| - 1;
      TameScript(k, commands[..n], luck, at, marks, touched, tunnel);
      TameStep(Execute(k, commands[..n], luck, at), commands[n], marks, touched, tunnel);
    }
  }

  /** One reconcile, with any reads and any commands failing. */
  lemma ReconcileKeepsTunnelOnly(env: Env, k: Kernel, d: DesiredState, f: ReadFaults, luck: Luck, at: nat,
                                 marks: set<int>, tunnel: string)
    requires TunnelOnly(k, marks, tunnel) && OneHop(d.routes, tunnel)
    ensures var k' := Reconciled(env, k, d, f, luck, at);
            TunnelOnly(k', marks, tunnel) && NothingRemoved(k, k', Devices(env, d))
  {
    ScriptIsTame(env, d, tunnel);
    TameScript(k, Issued(env, k, d, f), luck, at, marks, Devices(env, d), tunnel);
  }

  // ---- whole histories -----------------------------------------------------------------

  datatype Round = Round(desired: DesiredState, faults: ReadFaults, luck: Luck)

  function History(env: Env, k: Kernel, rounds: seq<Round>): Kernel {
    if rounds == [] then k
    else
      var r := rounds[|rounds| - 1];
      Reconciled(env, History(env, k, rounds[..|rounds| - 1]), r.desired, r.faults, r.luck, 0)
  }

  ghost function AllDevices(env: Env, rounds: seq<Round>): set<string> {
    if rounds == [] then {}
    else AllDevices(env, rounds[..|rounds| - 1]) + Devices(env, rounds[|rounds| - 1].desired)
  }

  lemma {:induction false} HistoryKeepsTunnelOnly(env: Env, k: Kernel, rounds: seq<Round>, marks: set<int>,
                                                  tunnel: string)
    requires TunnelOnly(k, marks, tunnel)
    requires forall i :: 0 <= i < |rounds| ==> OneHop(rounds[i].desired.routes, tunnel)
    ensures TunnelOnly(History(env, k, rounds), marks, tunnel)
    ensures NothingRemoved(k, History(env, k, rounds), AllDevices(env, rounds))
  {
    if rounds != [] {
      var before, r := rounds[..|rounds| - 1], rounds[|rounds| - 1];
      HistoryKeepsTunnelOnly(env, k, before, marks, tunnel);
      ReconcileKeepsTunnelOnly(env, History(env, k, before), r.desired, r.faults, r.luck, 0, marks, tunnel);
    }
  }

  // ---- where a mark ends up -----------------------------------------------------------------

  /** Rules left over from earlier allocations come first, and still lead to the tunnel or nowhere. */
  lemma {:induction false} ResolvesToTunnel(rules: seq<Rule>, defaults: map<int, string>, mark: int, tunnel: string)
    requires forall r :: r in rules && r.fwmark == mark && r.table in defaults ==> defaults[r.table] == tunnel
    requires exists r :: r in rules && r.fwmark == mark && r.table in defaults
    ensures Resolve(rules, defaults, mark) == Some(tunnel)
  {
    if !(rules[0].fwmark == mark && rules[0].table in defaults) {
      var r :| r in rules && r.fwmark == mark && r.table in defaults;
      assert r in rules[1..];
      ResolvesToTunnel(rules[1..], defaults, mark, tunnel);
    }
  }

  /** Reads that fail hide things but never invent them. */
  lemma ConvergedRoutesExist(env: Env, k: Kernel, d: DesiredState, f: ReadFaults, r: RouteRule)
    requires Converged(Read(env, k, f), d) && r in d.routes
    ensures Routed(k, r)
  {
    assert (r.fwmark, r.table, r.ifname) in ReadRoutes(k, f.tables);
  }

  /** After any history, once a reconcile's writes all succeed, every mark it wants
      routed resolves to the tunnel, despite stale rules and even if reads failed. */
  lemma RoutedMarksReachTunnel(env: Env, k: Kernel, rounds: seq<Round>, last: Round, marks: set<int>, tunnel: string,
                               r: RouteRule)
    requires TunnelOnly(k, marks, tunnel)
    requires forall i :: 0 <= i < |rounds| ==> OneHop(rounds[i].desired.routes, tunnel)
    requires OneHop(last.desired.routes, tunnel) && Lucky(last.luck, 0, |Script(env, last.desired)|)
    requires r in last.desired.routes && r.fwmark in marks
    ensures var k' := History(env, k, rounds + [last]);
            Resolve(k'.rules, k'.defaults, r.fwmark) == Some(tunnel)
  {
    var all := rounds + [last];
    assert all[..|rounds|] == rounds;
    var before, d := History(env, k, rounds), last.desired;
    var k' := History(env, k, all);
    HistoryKeepsTunnelOnly(env, k, all, marks, tunnel);
    if Converged(Read(env, before, last.faults), d) {
      ConvergedRoutesExist(env, before, d, last.faults, r);
    } else {
      LuckyIsFlawless(before, Script(env, d), last.luck, 0);
      ScriptInstalls(env, before, d);
    }
    assert Routed(k', r);
    assert exists q :: q in k'.rules && q.fwmark == r.fwmark && q.table in k'.defaults by {
      assert Rule(r.fwmark, r.table) in k'.rules;
    }
    ResolvesToTunnel(k'.rules, k'.defaults, r.fwmark, tunnel);
  }
}
