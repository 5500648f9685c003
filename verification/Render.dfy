/** Compiling an allocation into the kernel state that would implement it. */
module Render {
  import opened Model
  import opened Hysteresis
  import opened Allocation
  import Laws = AllocationLaws

  const TABLE_BASE := 100
  const TABLE_SPAN := 900

  type Table = t: int | TABLE_BASE <= t < TABLE_BASE + TABLE_SPAN witness TABLE_BASE

  datatype Shaping = Shaping(ifname: string, downBps: nat, upBps: nat, diffserv: string)

  datatype RouteRule = RouteRule(fwmark: int, table: Table, ifname: string)

  datatype DesiredState = DesiredState(
    shaping: seq<Shaping>,
    routes: seq<RouteRule>,
    marks: set<(int, int)>,
    lanOutMarks: set<(string, int)>)

  /** What rendering is told: the classes, the tunnel, and a table number per
      connection. Numbers come from a hash, so two connections may share one. */
  datatype Plan = Plan(profiles: seq<ServiceProfile>, tunnel: string, tableOf: Id -> Table)

  type View = map<Id, Atomic>

  function ProfileNamed(profiles: seq<ServiceProfile>, name: string): (p: Option<ServiceProfile>)
    ensures p.Some? ==> p.value in profiles && p.value.name == name
    ensures p.None? ==> forall q :: q in profiles ==> q.name != name
  {
    if profiles == [] then None
    else if profiles[0].name == name then Some(profiles[0])
    else ProfileNamed(profiles[1..], name)
  }

  predicate Reachable(view: View, id: Id) {
    id in view && view[id].Addressed()
  }

  /** The route a share asks for, if any: always into the tunnel. */
  function RouteOf(plan: Plan, view: View, s: Share): Option<RouteRule> {
    var p := ProfileNamed(plan.profiles, s.profileName);
    if s.ceilingBps == 0 || !Reachable(view, s.atomicId) || p.None? then None
    else Some(RouteRule(p.value.vlan, plan.tableOf(s.atomicId), plan.tunnel))
  }

  function Routes(plan: Plan, view: View, shares: seq<Share>): seq<RouteRule> {
    if shares == [] then []
    else
      var before := Routes(plan, view, shares[..|shares| - 1]);
      var r := RouteOf(plan, view, shares[|shares| - 1]);
      if r.Some? && r.value !in before then before + [r.value] else before
  }

  function SharedIds(shares: seq<Share>): seq<Id> {
    if shares == [] then []
    else
      var before := SharedIds(shares[..|shares| - 1]);
      var id := shares[|shares| - 1].atomicId;
      if id in before then before else before + [id]
  }

  /** Shape slightly under measured capacity, so the queue lives here. */
  function Scaled(bps: nat): (r: nat)
    ensures bps > 0 ==> r < bps
    ensures 20 * r <= 19 * bps < 20 * r + 20
  {
    bps * 95 / 100
  }

  function ShapingFor(view: View, ids: seq<Id>): seq<Shaping> {
    if ids == [] then []
    else
      var id := ids[|ids| - 1];
      ShapingFor(view, ids[..|ids| - 1])
      + (if Reachable(view, id) && view[id].capacity.Known()
         then [ShapingOf(view[id])]
         else [])
  }

  function LanOutMarks(view: View): set<(string, int)> {
    set id | id in view && view[id].role.LanOut? && view[id].present && view[id].Addressed()
           :: (view[id].ifname.value, BEST_EFFORT.vlan)
  }

  function Marks(profiles: seq<ServiceProfile>, lanOut: set<(string, int)>): set<(int, int)> {
    (set p | p in profiles :: (p.vlan, p.vlan)) + if lanOut == {} then {} else {(BEST_EFFORT.vlan, BEST_EFFORT.vlan)}
  }

  /** The first shared connection that was supposed to carry nothing. */
  function BrokenContract(shares: seq<Share>, quiesced: set<Id>): Option<Id> {
    if shares == [] then None
    else
      var before := BrokenContract(shares[..|shares| - 1], quiesced);
      var s := shares[|shares| - 1];
      if before.Some? then before
      else if s.ceilingBps != 0 && s.atomicId in quiesced then Some(s.atomicId) else None
  }

  function Render(plan: Plan, a: Allocation, view: View): Result<DesiredState, Id> {
    var broken := BrokenContract(a.shares, a.quiesced);
    if broken.Some? then Err(broken.value)
    else
      var lanOut := LanOutMarks(view);
      Ok(DesiredState(
           ShapingFor(view, SharedIds(a.shares)),
           Routes(plan, view, a.shares),
           Marks(plan.profiles, lanOut),
           lanOut))
  }

  /** The loops of the source, computing the same state. */
  method RenderState(plan: Plan, a: Allocation, view: View) returns (r: Result<DesiredState, Id>)
    ensures r == Render(plan, a, view)
  {
    var lanOut := LanOutMarks(view);
    var marks := set p | p in plan.profiles :: (p.vlan, p.vlan);
    if lanOut != {} {
      marks := marks + {(BEST_EFFORT.vlan, BEST_EFFORT.vlan)};
    }
    var broken, routes := RouteAll(plan, a, view);
    if broken.Some? {
      return Err(broken.value);
    }
    var ids := CollectIds(a.shares);
    var shaping := ShapeAll(view, ids);
    assert marks == Marks(plan.profiles, lanOut);
    r := Ok(DesiredState(shaping, routes, marks, lanOut));
  }

  /** The routes of the shares, or the first share that breaks the contract. */
  method RouteAll(plan: Plan, a: Allocation, view: View) returns (broken: Option<Id>, routes: seq<RouteRule>)
    ensures broken == BrokenContract(a.shares, a.quiesced)
    ensures broken.None? ==> routes == Routes(plan, view, a.shares)
  {
    routes := [];
    for i := 0 to |a.shares|
      invariant BrokenContract(a.shares[..i], a.quiesced).None?
      invariant routes == Routes(plan, view, a.shares[..i])
    {
      var s := a.shares[i];
      assert a.shares[..i + 1][..i] == a.shares[..i];
      if s.ceilingBps == 0 {
        continue;
      }
      if s.atomicId in a.quiesced {
        StaysBroken(a.shares, a.quiesced, i + 1);
        return Some(s.atomicId), routes;
      }
      if !Reachable(view, s.atomicId) {
        continue;
      }
      var p := ProfileNamed(plan.profiles, s.profileName);
      if p.None? {
        continue;
      }
      var route := RouteRule(p.value.vlan, plan.tableOf(s.atomicId), plan.tunnel);
      if route !in routes {
        routes := routes + [route];
      }
    }
    assert a.shares[..|a.shares|] == a.shares;
    broken := None;
  }

  /** `{s.atomic_id for s in allocation.shares}` */
  method CollectIds(shares: seq<Share>) returns (ids: seq<Id>)
    ensures ids == SharedIds(shares)
  {
    ids := [];
    for i := 0 to |shares|
      invariant ids == SharedIds(shares[..i])
    {
      assert shares[..i + 1][..i] == shares[..i];
      if shares[i].atomicId !in ids {
        ids := ids + [shares[i].atomicId];
      }
    }
    assert shares[..|shares|] == shares;
  }

  method ShapeAll(view: View, ids: seq<Id>) returns (shaping: seq<Shaping>)
    ensures shaping == ShapingFor(view, ids)
  {
    shaping := [];
    for i := 0 to |ids|
      invariant shaping == ShapingFor(view, ids[..i])
    {
      assert ids[..i + 1][..i] == ids[..i];
      if ids[i] in view && view[ids[i]].Addressed() && view[ids[i]].capacity.Known() {
        var atomic := view[ids[i]];
        shaping := shaping + [Shaping(atomic.ifname.value, Scaled(atomic.capacity.downBps),
                                      Scaled(atomic.capacity.upBps), "diffserv4")];
      }
    }
    assert ids[..|ids|] == ids;
  }

  lemma {:induction false} StaysBroken(shares: seq<Share>, quiesced: set<Id>, k: nat)
    requires k <= |shares| && BrokenContract(shares[..k], quiesced).Some?
    ensures BrokenContract(shares, quiesced) == BrokenContract(shares[..k], quiesced)
  {
    if k == |shares| {
      assert shares[..k] == shares;
    } else {
      assert shares[..|shares| - 1][..k] == shares[..k];
      StaysBroken(shares[..|shares| - 1], quiesced, k);
    }
  }

  // ---- where a rendered state comes from ------------------------------------------

  /** Rendering fails exactly when a share with traffic is on a quiesced connection. */
  lemma {:induction false} RaisesIffSharedAndQuiesced(shares: seq<Share>, quiesced: set<Id>)
    ensures BrokenContract(shares, quiesced).Some?
            <==> exists s :: s in shares && s.ceilingBps != 0 && s.atomicId in quiesced
  {
    if shares != [] {
      RaisesIffSharedAndQuiesced(shares[..|shares| - 1], quiesced);
      assert forall s :: s in shares <==> s in shares[..|shares| - 1] || s == shares[|shares| - 1];
    }
  }

  /** And it is the first such share that is named. */
  lemma {:induction false} FirstBroken(shares: seq<Share>, quiesced: set<Id>) returns (i: nat)
    requires BrokenContract(shares, quiesced).Some?
    ensures i < |shares| && BrokenContract(shares, quiesced) == Some(shares[i].atomicId)
    ensures shares[i].ceilingBps > 0 && shares[i].atomicId in quiesced
    ensures forall k :: 0 <= k < i ==> shares[k].ceilingBps == 0 || shares[k].atomicId !in quiesced
  {
    i := |shares| - 1;
    if BrokenContract(shares[..i], quiesced).Some? {
      i := FirstBroken(shares[..i], quiesced);
    } else {
      RaisesIffSharedAndQuiesced(shares[..i], quiesced);
      assert forall k :: 0 <= k < i ==> shares[k] in shares[..i];
    }
  }

  lemma {:induction false} RoutesComeFromShares(plan: Plan, view: View, shares: seq<Share>)
    ensures forall r ::
              r in Routes(plan, view, shares) <==> exists s :: s in shares && RouteOf(plan, view, s) == Some(r)
    ensures forall i, j :: 0 <= i < j < |Routes(plan, view, shares)| ==>
            Routes(plan, view, shares)[i] != Routes(plan, view, shares)[j]
  {
    if shares != [] {
      RoutesComeFromShares(plan, view, shares[..|shares| - 1]);
      assert forall s :: s in shares <==> s in shares[..|shares| - 1] || s == shares[|shares| - 1];
    }
  }

  lemma {:induction false} SharedIdsAreShared(shares: seq<Share>)
    ensures forall id :: id in SharedIds(shares) <==> exists s :: s in shares && s.atomicId == id
    ensures forall i, j :: 0 <= i < j < |SharedIds(shares)| ==> SharedIds(shares)[i] != SharedIds(shares)[j]
  {
    if shares != [] {
      SharedIdsAreShared(shares[..|shares| - 1]);
      assert forall s :: s in shares <==> s in shares[..|shares| - 1] || s == shares[|shares| - 1];
    }
  }

  function ShapingOf(a: Atomic): Shaping
    requires a.Addressed()
  {
    Shaping(a.ifname.value, Scaled(a.capacity.downBps), Scaled(a.capacity.upBps), "diffserv4")
  }

  ghost predicate Owns(view: View, id: Id, sh: Shaping) {
    Reachable(view, id) && view[id].capacity.Known() && sh == ShapingOf(view[id])
  }

  lemma {:induction false} ShapingHasOwner(view: View, ids: seq<Id>, sh: Shaping) returns (id: Id)
    requires sh in ShapingFor(view, ids)
    ensures id in ids && Owns(view, id, sh)
  {
    var before, last := ids[..|ids| - 1], ids[|ids| - 1];
    if sh in ShapingFor(view, before) {
      id := ShapingHasOwner(view, before, sh);
    } else {
      id := last;
    }
  }

  lemma {:induction false} OwnerIsShaped(view: View, ids: seq<Id>, i: nat)
    requires i < |ids| && Reachable(view, ids[i]) && view[ids[i]].capacity.Known()
    ensures ShapingOf(view[ids[i]]) in ShapingFor(view, ids)
  {
    if i < |ids| - 1 {
      OwnerIsShaped(view, ids[..|ids| - 1], i);
    }
  }

  lemma ShapingComesFromIds(view: View, ids: seq<Id>, sh: Shaping)
    ensures sh in ShapingFor(view, ids) <==> exists id :: id in ids && Owns(view, id, sh)
  {
    if sh in ShapingFor(view, ids) {
      var id := ShapingHasOwner(view, ids, sh);
    }
    if id :| id in ids && Owns(view, id, sh) {
      var i :| 0 <= i < |ids| && ids[i] == id;
      OwnerIsShaped(view, ids, i);
    }
  }

  /** What a rendered state may say of one link: a twentieth under what was measured, rounded
      down, each direction from its own measurement. */
  ghost predicate ShapesLink(sh: Shaping, a: Atomic) {
    && a.ifname == Some(sh.ifname) && sh.ifname != "" && sh.diffserv == "diffserv4"
    && 20 * sh.downBps <= 19 * a.capacity.downBps < 20 * sh.downBps + 20
    && 20 * sh.upBps <= 19 * a.capacity.upBps < 20 * sh.upBps + 20
  }

  /** A link to shape: it has a share, an interface and a capacity that is trusted at all. */
  ghost predicate ToShape(a: Allocation, view: View, id: Id) {
    && (exists s :: s in a.shares && s.atomicId == id)
    && id in view && view[id].ifname != None && view[id].ifname != Some("") && view[id].capacity.confidence > 0.0
  }

  /** Exactly the links to shape are shaped, each at its own measured rates, and no more
      entries are rendered than there are such links. */
  lemma RenderedRates(plan: Plan, a: Allocation, view: View)
    requires Render(plan, a, view).Ok?
    ensures var shaping := Render(plan, a, view).value.shaping;
            && (forall sh :: sh in shaping ==> exists id :: ToShape(a, view, id) && ShapesLink(sh, view[id]))
            && (forall id :: ToShape(a, view, id) ==> exists sh :: sh in shaping && ShapesLink(sh, view[id]))
            && |shaping| == |set s | s in a.shares && ToShape(a, view, s.atomicId) :: s.atomicId|
  {
    var shaping := Render(plan, a, view).value.shaping;
    forall sh | sh in shaping ensures exists id :: ToShape(a, view, id) && ShapesLink(sh, view[id]) {
      var id := ShapedLink(a, view, sh);
    }
    forall id | ToShape(a, view, id) ensures exists sh :: sh in shaping && ShapesLink(sh, view[id]) {
      var sh := LinkIsShaped(a, view, id);
    }
    CountShaped(a, view);
  }

  lemma ShapedLink(a: Allocation, view: View, sh: Shaping) returns (id: Id)
    requires sh in ShapingFor(view, SharedIds(a.shares))
    ensures ToShape(a, view, id) && ShapesLink(sh, view[id])
  {
    SharedIdsAreShared(a.shares);
    id := ShapingHasOwner(view, SharedIds(a.shares), sh);
  }

  lemma LinkIsShaped(a: Allocation, view: View, id: Id) returns (sh: Shaping)
    requires ToShape(a, view, id)
    ensures sh in ShapingFor(view, SharedIds(a.shares)) && ShapesLink(sh, view[id])
  {
    var ids := SharedIds(a.shares);
    SharedIdsAreShared(a.shares);
    assert id in ids;
    var i :| 0 <= i < |ids| && ids[i] == id;
    OwnerIsShaped(view, ids, i);
    sh := ShapingOf(view[id]);
  }

  lemma CountShaped(a: Allocation, view: View)
    ensures |ShapingFor(view, SharedIds(a.shares))|
         == |set s | s in a.shares && ToShape(a, view, s.atomicId) :: s.atomicId|
  {
    var ids := SharedIds(a.shares);
    SharedIdsAreShared(a.shares);
    ShapedOnce(view, ids);
    assert (set s | s in a.shares && ToShape(a, view, s.atomicId) :: s.atomicId)
        == set id | id in ids && Shapable(view, id);
  }

  ghost predicate Shapable(view: View, id: Id) {
    Reachable(view, id) && view[id].capacity.Known()
  }

  lemma {:induction false} ShapedOnce(view: View, ids: seq<Id>)
    requires forall i, j :: 0 <= i < j < |ids| ==> ids[i] != ids[j]
    ensures |ShapingFor(view, ids)| == |set id | id in ids && Shapable(view, id)|
  {
    if |ids| > 0 {
      var n := |ids| - 1;
      ShapedOnce(view, ids[..n]);
      ShapableSnoc(view, ids[..n], ids[n]);
      assert ids == ids[..n] + [ids[n]];
    }
  }

  lemma ShapableSnoc(view: View, ids: seq<Id>, last: Id)
    requires last !in ids
    ensures |set id | id in ids + [last] && Shapable(view, id)|
         == |set id | id in ids && Shapable(view, id)| + (if Shapable(view, last) then 1 else 0)
  {
    assert (set id | id in ids + [last] && Shapable(view, id))
        == (set id | id in ids && Shapable(view, id)) + (if Shapable(view, last) then {last} else {});
  }

  /** A mark is rendered exactly if a class has that VLAN or it is best effort's and there is a
      port to serve; a port is marked, for best effort, exactly if it is one of those. */
  lemma RenderedMarks(plan: Plan, a: Allocation, view: View)
    requires Render(plan, a, view).Ok?
    ensures var d := Render(plan, a, view).value;
            && (forall f, v :: (f, v) in d.marks <==>
                  f == v && ((exists p :: p in plan.profiles && p.vlan == v) ||
                             (v == 20 && exists name :: ServedPort(view, name))))
            && (forall name, v :: (name, v) in d.lanOutMarks <==> v == 20 && ServedPort(view, name))
  {
    var lanOut := LanOutMarks(view);
    forall name, v ensures (name, v) in lanOut <==> v == 20 && ServedPort(view, name) {
    }
    if m :| m in lanOut {
      assert ServedPort(view, m.0);
    }
    if name :| ServedPort(view, name) {
      assert (name, 20) in lanOut;
    }
  }

  /** A present LAN-out port with this interface name. */
  ghost predicate ServedPort(view: View, name: string) {
    && name != ""
    && exists id :: id in view && view[id].role == LanOut && view[id].present && view[id].ifname == Some(name)
  }

  /** A route is rendered exactly if some share with traffic asks for it: on an addressed
      connection, for a class the plan knows by that name. */
  lemma RenderedRoutes(plan: Plan, a: Allocation, view: View, r: RouteRule)
    requires Render(plan, a, view).Ok? && DistinctNames(plan.profiles)
    ensures r in Render(plan, a, view).value.routes <==>
            exists s, p :: s in a.shares && p in plan.profiles && Carried(view, s, p)
              && r == RouteRule(p.vlan, plan.tableOf(s.atomicId), plan.tunnel)
  {
    RoutesComeFromShares(plan, view, a.shares);
    if r in Routes(plan, view, a.shares) {
      var s :| s in a.shares && RouteOf(plan, view, s) == Some(r);
      assert Carried(view, s, ProfileNamed(plan.profiles, s.profileName).value);
    }
    if s, p :| s in a.shares && p in plan.profiles && Carried(view, s, p)
               && r == RouteRule(p.vlan, plan.tableOf(s.atomicId), plan.tunnel) {
      OnlyOneNamed(plan.profiles, p);
      assert RouteOf(plan, view, s) == Some(r);
    }
  }

  ghost predicate Carried(view: View, s: Share, p: ServiceProfile) {
    && s.profileName == p.name && s.ceilingBps > 0
    && s.atomicId in view && view[s.atomicId].ifname != None && view[s.atomicId].ifname != Some("")
  }

  lemma OnlyOneNamed(profiles: seq<ServiceProfile>, p: ServiceProfile)
    requires DistinctNames(profiles) && p in profiles
    ensures ProfileNamed(profiles, p.name) == Some(p)
  {
    var q := ProfileNamed(profiles, p.name).value;
    var i :| 0 <= i < |profiles| && profiles[i] == p;
    var k :| 0 <= k < |profiles| && profiles[k] == q;
  }

  // ---- the tunnel is the only next hop ------------------------------------------------

  /** The classes an allocation serves: traffic allowed, on a connection with an interface. */
  ghost predicate Serves(plan: Plan, a: Allocation, view: View, p: ServiceProfile) {
    exists s :: s in a.shares && s.ceilingBps != 0 && Reachable(view, s.atomicId)
                && ProfileNamed(plan.profiles, s.profileName) == Some(p)
  }

  ghost function Hops(routes: seq<RouteRule>): set<(int, string)> {
    set r | r in routes :: (r.fwmark, r.ifname)
  }

  /** A mark is routed iff its class is served, and then only into the tunnel. */
  lemma HopsDependOnlyOnServedClasses(plan: Plan, a: Allocation, view: View)
    ensures Hops(Routes(plan, view, a.shares))
            == set p | p in plan.profiles && Serves(plan, a, view, p) :: (p.vlan, plan.tunnel)
  {
    RoutesComeFromShares(plan, view, a.shares);
    var routes := Routes(plan, view, a.shares);
    forall p | p in plan.profiles && Serves(plan, a, view, p) ensures (p.vlan, plan.tunnel) in Hops(routes) {
      var s :| s in a.shares && s.ceilingBps != 0 && Reachable(view, s.atomicId)
               && ProfileNamed(plan.profiles, s.profileName) == Some(p);
      assert RouteOf(plan, view, s) == Some(RouteRule(p.vlan, plan.tableOf(s.atomicId), plan.tunnel));
      assert RouteRule(p.vlan, plan.tableOf(s.atomicId), plan.tunnel) in routes;
    }
  }

  /** Swapping the connection underneath changes table numbers and nothing else. */
  lemma WanSwapChangesOnlyTables(plan: Plan, a: Allocation, view: View, b: Allocation, other: View)
    requires forall p :: p in plan.profiles ==> (Serves(plan, a, view, p) <==> Serves(plan, b, other, p))
    ensures Hops(Routes(plan, view, a.shares)) == Hops(Routes(plan, other, b.shares))
  {
    HopsDependOnlyOnServedClasses(plan, a, view);
    HopsDependOnlyOnServedClasses(plan, b, other);
  }

  // ---- rendering what the controller decided ---------------------------------------------

  /** No decision, from any state, ever makes rendering fail. */
  lemma DecisionsAlwaysRender(plan: Plan, cfg: Config, m: Machine, x: Sample, view: View)
    requires DistinctIds(x.atomics)
    ensures Render(plan, Allocate(cfg, m, x), view).Ok?
  {
    Laws.SharesAndQuiescedAreApart(cfg, m, x);
    RaisesIffSharedAndQuiesced(Allocate(cfg, m, x).shares, Allocate(cfg, m, x).quiesced);
  }

  /** The connections a rendered state may put anything on: those of the decision that
      satisfy `carries` and still have an interface. Tables may collide and interfaces be
      shared; what is said is that each route and each shaping has such an owner. */
  ghost predicate RoutedOn(plan: Plan, d: DesiredState, view: View, x: Sample, carries: Atomic -> bool) {
    forall r :: r in d.routes ==>
      exists a :: a in x.atomics && carries(a) && Reachable(view, a.id) && r.table == plan.tableOf(a.id)
  }

  ghost predicate ShapedOn(d: DesiredState, view: View, x: Sample, carries: Atomic -> bool) {
    forall sh :: sh in d.shaping ==>
      exists a :: a in x.atomics && carries(a) && Reachable(view, a.id) && sh.ifname == view[a.id].ifname.value
  }

  lemma RoutesHaveOwners(plan: Plan, cfg: Config, m: Machine, x: Sample, view: View, carries: Atomic -> bool)
    requires DistinctIds(x.atomics) && Render(plan, Allocate(cfg, m, x), view).Ok?
    requires forall a :: a in x.atomics && Laws.MayCarry(m, a) ==> carries(a)
    ensures RoutedOn(plan, Render(plan, Allocate(cfg, m, x), view).value, view, x, carries)
  {
    var shares := Allocate(cfg, m, x).shares;
    RoutesComeFromShares(plan, view, shares);
    forall r | r in Routes(plan, view, shares)
      ensures exists a :: a in x.atomics && carries(a) && Reachable(view, a.id) && r.table == plan.tableOf(a.id)
    {
      var s :| s in shares && RouteOf(plan, view, s) == Some(r);
      Laws.ShareIsApart(cfg, m, x, s);
      var a :| a in x.atomics && a.id == s.atomicId && Laws.MayCarry(m, a);
      assert carries(a);
    }
  }

  lemma ShapingHasOwners(plan: Plan, cfg: Config, m: Machine, x: Sample, view: View, carries: Atomic -> bool)
    requires DistinctIds(x.atomics) && Render(plan, Allocate(cfg, m, x), view).Ok?
    requires forall a :: a in x.atomics && Laws.MayCarry(m, a) ==> carries(a)
    ensures ShapedOn(Render(plan, Allocate(cfg, m, x), view).value, view, x, carries)
  {
    var shares := Allocate(cfg, m, x).shares;
    var ids := SharedIds(shares);
    SharedIdsAreShared(shares);
    forall sh | sh in ShapingFor(view, ids)
      ensures exists a :: a in x.atomics && carries(a) && Reachable(view, a.id) && sh.ifname == view[a.id].ifname.value
    {
      var id := ShapingHasOwner(view, ids, sh);
      var s :| s in shares && s.atomicId == id;
      Laws.ShareIsApart(cfg, m, x, s);
      var a :| a in x.atomics && a.id == s.atomicId && Laws.MayCarry(m, a);
      assert carries(a);
    }
  }

  /** Everything rendered is on a usable NORMAL connection of the decision. */
  ghost predicate OnNormalOnly(plan: Plan, d: DesiredState, view: View, x: Sample) {
    var normal := (a: Atomic) => a.InNormalPool();
    RoutedOn(plan, d, view, x, normal) && ShapedOn(d, view, x, normal)
  }

  /** At rest: unless the decision left the machine active, every route rendered from it
      is in the table, and every shaping on the interface, of a usable NORMAL connection,
      whatever tables collide and whatever the registry says by now. */
  lemma AtRestOnlyNormalIsTouched(plan: Plan, cfg: Config, m: Machine, x: Sample, view: View)
    requires DistinctIds(x.atomics) && !m.state.Active?
    ensures Render(plan, Allocate(cfg, m, x), view).Ok?
    ensures OnNormalOnly(plan, Render(plan, Allocate(cfg, m, x), view).value, view, x)
  {
    var normal := (a: Atomic) => a.InNormalPool();
    DecisionsAlwaysRender(plan, cfg, m, x, view);
    RoutesHaveOwners(plan, cfg, m, x, view, normal);
    ShapingHasOwners(plan, cfg, m, x, view, normal);
  }

  /** The rendered state puts something on this connection: shaping on its interface
      or a route in its table. */
  ghost predicate Touches(plan: Plan, d: DesiredState, view: View, id: Id) {
    || (exists sh :: sh in d.shaping && Reachable(view, id) && sh.ifname == view[id].ifname.value)
    || (exists r :: r in d.routes && r.table == plan.tableOf(id))
  }

  /** No other connection is mistaken for this one: nobody else has its interface or its table. */
  ghost predicate StandsAlone(plan: Plan, view: View, id: Id) {
    forall other :: other in view && other != id && Reachable(view, other) ==>
      && (Reachable(view, id) ==> view[other].ifname != view[id].ifname)
      && plan.tableOf(other) != plan.tableOf(id)
  }

  /** Put the other way, for a connection whose table and interface nobody shares: if it was
      BACKUP when the allocation was decided, it is touched only if the machine is active. */
  lemma BackupTouchedOnlyWhileActive(plan: Plan, cfg: Config, m: Machine, x: Sample, view: View, id: Id)
    requires DistinctIds(x.atomics)
    requires exists b :: b in x.atomics && b.id == id && b.mode.Backup?
    requires StandsAlone(plan, view, id)
    requires Render(plan, Allocate(cfg, m, x), view).Ok?
    requires Touches(plan, Render(plan, Allocate(cfg, m, x), view).value, view, id)
    ensures m.state.Active?
  {
    var a := Allocate(cfg, m, x);
    var d := Render(plan, a, view).value;
    Laws.SharesAndQuiescedAreApart(cfg, m, x);
    TouchedIsShared(plan, a, view, id);
    var s :| s in a.shares && s.atomicId == id;
    var at :| at in x.atomics && at.id == s.atomicId && Laws.MayCarry(m, at);
    var b :| b in x.atomics && b.id == id && b.mode.Backup?;
    if at != b {
      Laws.DistinctById(x.atomics, at, b);
    }
  }

  lemma TouchedIsShared(plan: Plan, a: Allocation, view: View, id: Id)
    requires StandsAlone(plan, view, id)
    requires Render(plan, a, view).Ok? && Touches(plan, Render(plan, a, view).value, view, id)
    ensures exists s :: s in a.shares && s.atomicId == id
  {
    var d := Render(plan, a, view).value;
    if r :| r in d.routes && r.table == plan.tableOf(id) {
      RoutedIsShared(plan, a, view, id, r);
    } else {
      var sh :| sh in d.shaping && Reachable(view, id) && sh.ifname == view[id].ifname.value;
      ShapedIsShared(plan, a, view, id, sh);
    }
  }

  lemma RoutedIsShared(plan: Plan, a: Allocation, view: View, id: Id, r: RouteRule)
    requires StandsAlone(plan, view, id)
    requires r in Routes(plan, view, a.shares) && r.table == plan.tableOf(id)
    ensures exists s :: s in a.shares && s.atomicId == id
  {
    RoutesComeFromShares(plan, view, a.shares);
    var s :| s in a.shares && RouteOf(plan, view, s) == Some(r);
    assert s.atomicId == id;
  }

  lemma ShapedIsShared(plan: Plan, a: Allocation, view: View, id: Id, sh: Shaping)
    requires StandsAlone(plan, view, id) && Reachable(view, id)
    requires sh in ShapingFor(view, SharedIds(a.shares)) && sh.ifname == view[id].ifname.value
    ensures exists s :: s in a.shares && s.atomicId == id
  {
    var ids := SharedIds(a.shares);
    var other := ShapingHasOwner(view, ids, sh);
    assert other == id;
    SharedIdsAreShared(a.shares);
  }
}
