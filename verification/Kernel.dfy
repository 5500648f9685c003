/** The kernel as the enforcer sees it: what each command does when it succeeds,
    what reading it back reports, and the script one reconcile runs. */
module Kernel {
  import opened Model
  import opened Render

  datatype Cake = Cake(rate: nat, diffserv: string)

  datatype Rule = Rule(fwmark: int, table: int)

  /** Root CAKE per device, IFB devices and the ingress redirects onto them, the
      marking chain as (interface, mark), policy rules in the order they are
      consulted (rules for one mark share one priority), and each table's default. */
  datatype Kernel = Kernel(
    cake: map<string, Cake>,
    links: set<string>,
    up: set<string>,
    ingress: set<string>,
    redirect: map<string, string>,
    nft: set<(string, int)>,
    rules: seq<Rule>,
    defaults: map<int, string>)

  datatype Command =
    | CakeReplace(dev: string, rate: nat, diffserv: string)
    | LinkAdd(dev: string)
    | LinkUp(dev: string)
    | IngressAdd(dev: string)
    | FilterReplace(dev: string, ifb: string)
    | NftReplace(marking: set<(string, int)>)
    | RuleAdd(fwmark: int, table: int)
    | RouteReplace(table: int, dev: string)

  /** A command that succeeds. Adding a rule that is already there changes nothing. */
  function Effect(k: Kernel, c: Command): Kernel {
    match c
    case CakeReplace(dev, rate, diffserv) => k.(cake := k.cake[dev := Cake(rate, diffserv)])
    case LinkAdd(dev) => k.(links := k.links + {dev})
    case LinkUp(dev) => k.(up := k.up + {dev})
    case IngressAdd(dev) => k.(ingress := k.ingress + {dev})
    case FilterReplace(dev, ifb) => k.(redirect := k.redirect[dev := ifb])
    case NftReplace(marking) => k.(nft := marking)
    case RuleAdd(fwmark, table) =>
      if Rule(fwmark, table) in k.rules then k else k.(rules := k.rules + [Rule(fwmark, table)])
    case RouteReplace(table, dev) => k.(defaults := k.defaults[table := dev])
  }

  /** Which commands of a process's life succeed, by their position. */
  type Luck = nat -> bool

  /** Run commands numbered from `at`; one that fails leaves the kernel as it was. */
  function Execute(k: Kernel, commands: seq<Command>, luck: Luck, at: nat): Kernel {
    if commands == [] then k
    else
      var n := |commands| - 1;
      var before := Execute(k, commands[..n], luck, at);
      if luck(at + n) then Effect(before, commands[n]) else before
  }

  // ---- reading back -------------------------------------------------------------------

  lemma ExecuteSnoc(k: Kernel, commands: seq<Command>, c: Command, luck: Luck, at: nat)
    ensures var before := Execute(k, commands, luck, at);
            Execute(k, commands + [c], luck, at) == if luck(at + |commands|) then Effect(before, c) else before
  {
    assert (commands + [c])[..|commands|] == commands;
  }

  /** Equal within the resolution CAKE renders rates with: two percent of the larger. */
  predicate Close(a: nat, b: nat) {
    a == b || 50 * (if a <= b then b - a else a - b) <= Max(a, b)
  }

  /** The name of the device a link's downloads are redirected through. */
  type IfbName = s: string | "ifb-" <= s witness "ifb-"

  predicate IsIfb(dev: string) {
    "ifb-" <= dev
  }

  /** A rate after a trip through the tool's unit-suffixed text. */
  type Rounding = f: nat -> nat | forall r :: r > 0 ==> Close(f(r), r) ghost witness (r: nat) => r

  /** What the enforcer is configured with and what it cannot control: the hash that
      names IFB devices, rate rendering, the LAN interface of a class, and the VLAN
      a LAN interface's name spells, if it spells one. */
  datatype Env = Env(
    profiles: seq<ServiceProfile>,
    ifbOf: string -> IfbName,
    rounded: Rounding,
    lanIf: ServiceProfile -> string,
    vlanIn: string -> Option<int>)

  datatype Actual = Actual(shaping: map<string, Shaping>, routes: set<(int, int, string)>, marks: set<(int, int)>)

  /** An unset rate reads as "unlimited", that is, as no rate at all. */
  predicate HasRate(k: Kernel, dev: string) {
    dev in k.cake && k.cake[dev].rate > 0
  }

  function ReadRate(env: Env, k: Kernel, dev: string): nat {
    if HasRate(k, dev) then env.rounded(k.cake[dev].rate) else 0
  }

  function ReadShaping(env: Env, k: Kernel): map<string, Shaping> {
    map dev | dev in k.cake && HasRate(k, dev) && !IsIfb(dev)
      :: Shaping(dev, ReadRate(env, k, env.ifbOf(dev)), ReadRate(env, k, dev), k.cake[dev].diffserv)
  }

  function ReadVlan(env: Env, iifname: string, mark: int): int {
    var vlan := env.vlanIn(iifname);
    if vlan.Some? then vlan.value else mark
  }

  function ReadMarks(env: Env, nft: set<(string, int)>): set<(int, int)> {
    set m | m in nft :: (ReadVlan(env, m.0, m.1), m.1)
  }

  function ReadRoutes(k: Kernel, unreadable: set<int>): set<(int, int, string)> {
    set r | r in k.rules && r.table in k.defaults && r.table !in unreadable :: (r.fwmark, r.table, k.defaults[r.table])
  }

  /** Which of the read commands fail. */
  datatype ReadFaults = ReadFaults(shaping: bool, marks: bool, rules: bool, tables: set<int>)

  const ALL_READABLE := ReadFaults(false, false, false, {})

  function Read(env: Env, k: Kernel, f: ReadFaults): Option<Actual> {
    if f.shaping && f.marks && f.rules then None
    else Some(Actual(
                if f.shaping then map[] else ReadShaping(env, k),
                if f.rules then {} else ReadRoutes(k, f.tables),
                if f.marks then {} else ReadMarks(env, k.nft)))
  }

  // ---- convergence -----------------------------------------------------------------------

  predicate ShapedAs(actual: map<string, Shaping>, want: Shaping) {
    && want.ifname in actual
    && actual[want.ifname].diffserv == want.diffserv
    && Close(actual[want.ifname].upBps, want.upBps)
    && Close(actual[want.ifname].downBps, want.downBps)
  }

  /** Every desired piece is there; leftovers do not matter. */
  predicate Converged(current: Option<Actual>, d: DesiredState) {
    if current.None? then d.shaping == [] && d.routes == [] && d.marks == {}
    else
      && (forall s :: s in d.shaping ==> ShapedAs(current.value.shaping, s))
      && (forall r :: r in d.routes ==> (r.fwmark, r.table, r.ifname) in current.value.routes)
      && d.marks <= current.value.marks
  }

  // ---- the script of one reconcile ----------------------------------------------------------

  function ShapeOne(env: Env, s: Shaping): seq<Command> {
    var ifb := env.ifbOf(s.ifname);
    [CakeReplace(s.ifname, s.upBps, s.diffserv),
     LinkAdd(ifb), LinkUp(ifb), IngressAdd(s.ifname), FilterReplace(s.ifname, ifb),
     CakeReplace(ifb, s.downBps, s.diffserv)]
  }

  function ShapeAllOf(env: Env, shaping: seq<Shaping>): seq<Command> {
    if shaping == [] then [] else ShapeAllOf(env, shaping[..|shaping| - 1]) + ShapeOne(env, shaping[|shaping| - 1])
  }

  function RouteOne(r: RouteRule): seq<Command> {
    [RuleAdd(r.fwmark, r.table), RouteReplace(r.table, r.ifname)]
  }

  function RouteAllOf(routes: seq<RouteRule>): seq<Command> {
    if routes == [] then [] else RouteAllOf(routes[..|routes| - 1]) + RouteOne(routes[|routes| - 1])
  }

  /** The whole marking chain, replaced at once: LAN interfaces, then LAN-out ports. */
  function Marking(env: Env, lanOut: set<(string, int)>): set<(string, int)> {
    (set p | p in env.profiles :: (env.lanIf(p), p.vlan)) + lanOut
  }

  function Script(env: Env, d: DesiredState): seq<Command> {
    ShapeAllOf(env, d.shaping) + [NftReplace(Marking(env, d.lanOutMarks))] + RouteAllOf(d.routes)
  }

  /** What one reconcile issues. */
  function Issued(env: Env, k: Kernel, d: DesiredState, f: ReadFaults): seq<Command> {
    if Converged(Read(env, k, f), d) then [] else Script(env, d)
  }

  function Reconciled(env: Env, k: Kernel, d: DesiredState, f: ReadFaults, luck: Luck, at: nat): Kernel {
    Execute(k, Issued(env, k, d, f), luck, at)
  }

  // ---- running scripts ------------------------------------------------------------------------

  lemma {:induction false} ExecuteAppend(k: Kernel, a: seq<Command>, b: seq<Command>, luck: Luck, at: nat)
    ensures Execute(k, a + b, luck, at) == Execute(Execute(k, a, luck, at), b, luck, at + |a|)
  {
    if b == [] {
      assert a + b == a;
    } else {
      var n := |b| - 1;
      assert (a + b)[..|a| + n] == a + b[..n];
      ExecuteAppend(k, a, b[..n], luck, at);
    }
  }

  /** Where devices resolve: the first rule for the mark whose table has a default. */
  function Resolve(rules: seq<Rule>, defaults: map<int, string>, mark: int): Option<string> {
    if rules == [] then None
    else if rules[0].fwmark == mark && rules[0].table in defaults then Some(defaults[rules[0].table])
    else Resolve(rules[1..], defaults, mark)
  }
}
