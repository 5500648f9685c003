/** What one reconcile whose commands all succeed does to an arbitrary kernel. */
module Healing {
  import opened Model
  import opened Render
  import opened Kernel
  import Allocation

  /** Every command of a script of n commands starting at `at` succeeds. */
  ghost predicate Lucky(luck: Luck, at: nat, n: nat) {
    forall i :: at <= i < at + n ==> luck(i)
  }

  function Flawless(k: Kernel, commands: seq<Command>): Kernel {
    if commands == [] then k else Effect(Flawless(k, commands[..|commands| - 1]), commands[|commands| - 1])
  }

  lemma {:induction false} LuckyIsFlawless(k: Kernel, commands: seq<Command>, luck: Luck, at: nat)
    requires Lucky(luck, at, |commands|)
    ensures Execute(k, commands, luck, at) == Flawless(k, commands)
  {
    if commands != [] {
      LuckyIsFlawless(k, commands[..|commands| - 1], luck, at);
    }
  }

  lemma {:induction false} FlawlessAppend(k: Kernel, a: seq<Command>, b: seq<Command>)
    ensures Flawless(k, a + b) == Flawless(Flawless(k, a), b)
  {
    if b == [] {
      assert a + b == a;
    } else {
      var n := |b| - 1;
      assert (a + b)[..|a| + n] == a + b[..n];
      FlawlessAppend(k, a, b[..n]);
    }
  }

  // ---- shaping ---------------------------------------------------------------------

  /** CAKE on every device once the shaping commands have run in order. */
  function InstalledCake(env: Env, cake: map<string, Cake>, shaping: seq<Shaping>): map<string, Cake> {
    if shaping == [] then cake
    else
      var s := shaping[|shaping| - 1];
      InstalledCake(env, cake, shaping[..|shaping| - 1])
        [s.ifname := Cake(s.upBps, s.diffserv)][env.ifbOf(s.ifname) := Cake(s.downBps, s.diffserv)]
  }

  /** Downloads of every shaped link are redirected onto its IFB device. */
  function InstalledRedirect(env: Env, redirect: map<string, string>, shaping: seq<Shaping>): map<string, string> {
    if shaping == [] then redirect
    else
      var s := shaping[|shaping| - 1];
      InstalledRedirect(env, redirect, shaping[..|shaping| - 1])[s.ifname := env.ifbOf(s.ifname)]
  }

  ghost predicate OnlyShapingDiffers(k: Kernel, k': Kernel) {
    k'.nft == k.nft && k'.rules == k.rules && k'.defaults == k.defaults
  }

  lemma ShapeOneInstalls(env: Env, k: Kernel, s: Shaping)
    ensures var k' := Flawless(k, ShapeOne(env, s));
            && k'.cake
               == k.cake[s.ifname := Cake(s.upBps, s.diffserv)][env.ifbOf(s.ifname) := Cake(s.downBps, s.diffserv)]
            && k'.redirect == k.redirect[s.ifname := env.ifbOf(s.ifname)]
            && OnlyShapingDiffers(k, k')
  {
    var c := ShapeOne(env, s);
    assert c[..5][..4] == c[..4] && c[..4][..3] == c[..3] && c[..3][..2] == c[..2] && c[..2][..1] == c[..1];
    assert Flawless(k, c[..0]) == k;
    assert Flawless(k, c[..1]) == Effect(k, c[0]);
    assert Flawless(k, c[..2]) == Effect(Flawless(k, c[..1]), c[1]);
    assert Flawless(k, c[..3]) == Effect(Flawless(k, c[..2]), c[2]);
    assert Flawless(k, c[..4]) == Effect(Flawless(k, c[..3]), c[3]);
    assert Flawless(k, c[..5]) == Effect(Flawless(k, c[..4]), c[4]);
    assert Flawless(k, c) == Effect(Flawless(k, c[..5]), c[5]);
  }

  lemma {:induction false} ShapingInstalls(env: Env, k: Kernel, shaping: seq<Shaping>)
    ensures var k' := Flawless(k, ShapeAllOf(env, shaping));
            && k'.cake == InstalledCake(env, k.cake, shaping)
            && k'.redirect == InstalledRedirect(env, k.redirect, shaping)
            && OnlyShapingDiffers(k, k')
  {
    if shaping != [] {
      var before, s := shaping[..|shaping| - 1], shaping[|shaping| - 1];
      ShapingInstalls(env, k, before);
      FlawlessAppend(k, ShapeAllOf(env, before), ShapeOne(env, s));
      ShapeOneInstalls(env, Flawless(k, ShapeAllOf(env, before)), s);
    }
  }

  /** Shaped links are distinct and none of them is itself an IFB device. */
  ghost predicate DistinctLinks(shaping: seq<Shaping>) {
    && (forall i, j :: 0 <= i < j < |shaping| ==> shaping[i].ifname != shaping[j].ifname)
    && (forall i :: 0 <= i < |shaping| ==> !IsIfb(shaping[i].ifname))
  }

  /** The last shaped link whose IFB device has the same name as link i's. */
  function LastSharer(env: Env, shaping: seq<Shaping>, i: nat): (j: nat)
    requires i < |shaping|
    ensures i <= j < |shaping| && env.ifbOf(shaping[j].ifname) == env.ifbOf(shaping[i].ifname)
  {
    var n := |shaping| - 1;
    if env.ifbOf(shaping[n].ifname) == env.ifbOf(shaping[i].ifname) then n else LastSharer(env, shaping[..n], i)
  }

  lemma {:induction false} CakeOnLink(env: Env, cake: map<string, Cake>, shaping: seq<Shaping>, i: nat)
    requires i < |shaping| && DistinctLinks(shaping)
    ensures var done := InstalledCake(env, cake, shaping);
            var s, last := shaping[i], shaping[LastSharer(env, shaping, i)];
            && s.ifname in done && done[s.ifname] == Cake(s.upBps, s.diffserv)
            && env.ifbOf(s.ifname) in done && done[env.ifbOf(s.ifname)] == Cake(last.downBps, last.diffserv)
  {
    var n := |shaping| - 1;
    if i < n {
      CakeOnLink(env, cake, shaping[..n], i);
      CakeStaysOnLink(env, InstalledCake(env, cake, shaping[..n]), shaping[i].ifname, shaping[n]);
    }
  }

  lemma CakeStaysOnLink(env: Env, cake: map<string, Cake>, dev: string, s: Shaping)
    requires dev in cake && dev != s.ifname && !IsIfb(dev) && env.ifbOf(dev) in cake && !IsIfb(s.ifname)
    ensures var done := cake[s.ifname := Cake(s.upBps, s.diffserv)][env.ifbOf(s.ifname) := Cake(s.downBps, s.diffserv)];
            && dev in done && done[dev] == cake[dev] && env.ifbOf(dev) in done
            && done[env.ifbOf(dev)]
               == if env.ifbOf(dev) == env.ifbOf(s.ifname) then Cake(s.downBps, s.diffserv) else cake[env.ifbOf(dev)]
  {
  }

  lemma {:induction false} RedirectOnLink(env: Env, redirect: map<string, string>, shaping: seq<Shaping>, i: nat)
    requires i < |shaping|
    ensures var done := InstalledRedirect(env, redirect, shaping);
            var dev := shaping[i].ifname;
            dev in done && done[dev] == env.ifbOf(dev)
  {
    var n := |shaping| - 1;
    if i < n {
      RedirectOnLink(env, redirect, shaping[..n], i);
    }
  }

  // ---- routes ------------------------------------------------------------------------

  /** All routes use one next hop, as every rendered state's do. */
  ghost predicate OneHop(routes: seq<RouteRule>, tunnel: string) {
    forall r :: r in routes ==> r.ifname == tunnel
  }

  /** The rule and the table that send a mark where route r says. */
  ghost predicate Routed(k: Kernel, r: RouteRule) {
    Rule(r.fwmark, r.table) in k.rules && r.table in k.defaults && k.defaults[r.table] == r.ifname
  }

  lemma RouteOneInstalls(k: Kernel, r: RouteRule)
    ensures var k' := Flawless(k, RouteOne(r));
            && k'.cake == k.cake && k'.nft == k.nft && k'.redirect == k.redirect
            && k'.defaults == k.defaults[r.table := r.ifname]
            && k.rules <= k'.rules && Rule(r.fwmark, r.table) in k'.rules
  {
    var c := RouteOne(r);
    assert Flawless(k, c[..0]) == k;
    assert Flawless(k, c[..1]) == Effect(k, c[0]);
    assert Flawless(k, c) == Effect(Effect(k, c[0]), c[1]);
  }

  lemma {:induction false} RoutesInstall(k: Kernel, routes: seq<RouteRule>)
    ensures var k' := Flawless(k, RouteAllOf(routes));
            && k'.cake == k.cake && k'.nft == k.nft && k'.redirect == k.redirect
            && (forall tunnel :: OneHop(routes, tunnel) ==> forall r :: r in routes ==> Routed(k', r))
  {
    if routes != [] {
      var before, r := routes[..|routes| - 1], routes[|routes| - 1];
      RoutesInstall(k, before);
      var mid := Flawless(k, RouteAllOf(before));
      FlawlessAppend(k, RouteAllOf(before), RouteOne(r));
      RouteOneInstalls(mid, r);
      assert forall q :: q in routes ==> q in before || q == r;
      forall tunnel, q | OneHop(routes, tunnel) && q in routes ensures Routed(Flawless(k, RouteAllOf(routes)), q) {
        assert OneHop(before, tunnel);
        assert q.ifname == r.ifname;
      }
    }
  }

  // ---- the whole script -----------------------------------------------------------------

  /** The kernel k after d's script met no failure. */
  ghost predicate Carries(env: Env, k: Kernel, k': Kernel, d: DesiredState) {
    && k'.cake == InstalledCake(env, k.cake, d.shaping)
    && k'.redirect == InstalledRedirect(env, k.redirect, d.shaping)
    && k'.nft == Marking(env, d.lanOutMarks)
    && (forall tunnel :: OneHop(d.routes, tunnel) ==> forall r :: r in d.routes ==> Routed(k', r))
  }

  lemma ScriptInstalls(env: Env, k: Kernel, d: DesiredState)
    ensures Carries(env, k, Flawless(k, Script(env, d)), d)
  {
    var first, marking, last :=
       ShapeAllOf(env, d.shaping), [NftReplace(Marking(env, d.lanOutMarks))], RouteAllOf(d.routes);
    ShapingInstalls(env, k, d.shaping);
    var k1 := Flawless(k, first);
    FlawlessAppend(k, first, marking);
    var k2 := Flawless(k1, marking);
    assert marking[..0] == [];
    assert k2 == Effect(k1, marking[0]);
    FlawlessAppend(k, first + marking, last);
    RoutesInstall(k2, d.routes);
  }

  // ---- command by command ----------------------------------------------------------------

  /** What shapes one link: uploads on the link itself, and downloads on an IFB device that is
      added and brought up before the link's ingress is redirected onto it. */
  ghost predicate ShapesLink(env: Env, c: seq<Command>, s: Shaping) {
    var ifb := env.ifbOf(s.ifname);
    && |c| == 6
    && c[0] == CakeReplace(s.ifname, s.upBps, s.diffserv)
    && c[1] == LinkAdd(ifb) && c[2] == LinkUp(ifb)
    && c[3] == IngressAdd(s.ifname) && c[4] == FilterReplace(s.ifname, ifb)
    && c[5] == CakeReplace(ifb, s.downBps, s.diffserv)
  }

  lemma SliceOfJoin<T>(a: seq<T>, b: seq<T>, lo: nat, hi: nat)
    requires lo <= hi <= |a|
    ensures (a + b)[lo..hi] == a[lo..hi]
  {
  }

  lemma EndOfJoin<T>(a: seq<T>, b: seq<T>)
    ensures (a + b)[|a|..|a| + |b|] == b
  {
  }

  lemma {:induction false} ShapeAllLength(env: Env, shaping: seq<Shaping>)
    ensures |ShapeAllOf(env, shaping)| == 6 * |shaping|
  {
    if |shaping| > 0 {
      ShapeAllLength(env, shaping[..|shaping| - 1]);
    }
  }

  lemma {:induction false} ShapeAllAt(env: Env, shaping: seq<Shaping>, i: nat)
    requires i < |shaping|
    ensures |ShapeAllOf(env, shaping)| == 6 * |shaping|
    ensures ShapesLink(env, ShapeAllOf(env, shaping)[6 * i..6 * i + 6], shaping[i])
  {
    var n := |shaping| - 1;
    var before, last := ShapeAllOf(env, shaping[..n]), ShapeOne(env, shaping[n]);
    ShapeAllLength(env, shaping[..n]);
    if i < n {
      ShapeAllAt(env, shaping[..n], i);
      SliceOfJoin(before, last, 6 * i, 6 * i + 6);
    } else {
      EndOfJoin(before, last);
      ShapeOneShapes(env, shaping[n]);
    }
  }

  lemma ShapeOneShapes(env: Env, s: Shaping)
    ensures ShapesLink(env, ShapeOne(env, s), s)
  {
  }

  lemma {:induction false} RouteAllAt(routes: seq<RouteRule>, i: nat)
    requires i < |routes|
    ensures |RouteAllOf(routes)| == 2 * |routes|
    ensures RouteAllOf(routes)[2 * i] == RuleAdd(routes[i].fwmark, routes[i].table)
    ensures RouteAllOf(routes)[2 * i + 1] == RouteReplace(routes[i].table, routes[i].ifname)
  {
    var n := |routes| - 1;
    if n > 0 {
      RouteAllAt(routes[..n], Min(i, n - 1));
    }
  }

  /** A class's traffic is marked on its LAN interface, and a LAN-out port's as asked. */
  ghost predicate MarksTraffic(env: Env, d: DesiredState, c: Command) {
    && c.NftReplace?
    && forall dev, v :: (dev, v) in c.marking <==>
         (dev, v) in d.lanOutMarks || exists p :: p in env.profiles && dev == env.lanIf(p) && v == p.vlan
  }

  /** The script in full: six commands a link, one replacement of the marking chain, two
      commands a route, in this order and nothing else. */
  lemma ScriptInFull(env: Env, d: DesiredState)
    ensures var c, n := Script(env, d), 6 * |d.shaping|;
            && |c| == n + 1 + 2 * |d.routes|
            && (forall i :: 0 <= i < |d.shaping| ==> ShapesLink(env, c[6 * i..6 * i + 6], d.shaping[i]))
            && MarksTraffic(env, d, c[n])
            && (forall i :: 0 <= i < |d.routes| ==> RoutesMark(c[n + 1..], i, d.routes[i]))
  {
    var first, marking, last :=
       ShapeAllOf(env, d.shaping), [NftReplace(Marking(env, d.lanOutMarks))], RouteAllOf(d.routes);
    ShapeAllLength(env, d.shaping);
    RouteAllLength(d.routes);
    forall i | 0 <= i < |d.shaping| ensures ShapesLink(env, Script(env, d)[6 * i..6 * i + 6], d.shaping[i]) {
      ShapeAllAt(env, d.shaping, i);
      SliceOfJoin(first, marking, 6 * i, 6 * i + 6);
      SliceOfJoin(first + marking, last, 6 * i, 6 * i + 6);
    }
    EndOfJoin(first + marking, last);
    forall i | 0 <= i < |d.routes| ensures RoutesMark(last, i, d.routes[i]) {
      RouteAllAt(d.routes, i);
    }
  }

  lemma {:induction false} RouteAllLength(routes: seq<RouteRule>)
    ensures |RouteAllOf(routes)| == 2 * |routes|
  {
    if |routes| > 0 {
      RouteAllLength(routes[..|routes| - 1]);
    }
  }

  ghost predicate RoutesMark(c: seq<Command>, i: nat, r: RouteRule) {
    2 * i + 1 < |c| && c[2 * i] == RuleAdd(r.fwmark, r.table) && c[2 * i + 1] == RouteReplace(r.table, r.ifname)
  }

  // ---- reading it back ---------------------------------------------------------------------

  /** Every desired mark is among what the marking chain will read back as. */
  ghost predicate MarksReadable(env: Env, d: DesiredState) {
    d.marks <= ReadMarks(env, Marking(env, d.lanOutMarks))
  }

  /** Link i reads back as asked for: it has an upload rate at all, and the download
      rate left on its IFB device by the last link sharing it is close to its own. */
  ghost predicate LinkReadsBack(env: Env, shaping: seq<Shaping>, i: nat)
    requires i < |shaping|
  {
    var last := shaping[LastSharer(env, shaping, i)].downBps;
    shaping[i].upBps > 0 && Close(if last > 0 then env.rounded(last) else 0, shaping[i].downBps)
  }

  lemma LinkShapedIff(env: Env, k: Kernel, k': Kernel, d: DesiredState, i: nat)
    requires DistinctLinks(d.shaping) && i < |d.shaping| && k'.cake == InstalledCake(env, k.cake, d.shaping)
    ensures ShapedAs(ReadShaping(env, k'), d.shaping[i]) <==> LinkReadsBack(env, d.shaping, i)
  {
    CakeOnLink(env, k.cake, d.shaping, i);
  }

  /** Two rates no further apart than two percent of the larger. */
  ghost predicate WithinTwoPercent(a: nat, b: nat) {
    100 * (b - a) <= 2 * b && 100 * (a - b) <= 2 * a
  }

  lemma CloseIff(a: nat, b: nat)
    ensures Close(a, b) <==> WithinTwoPercent(a, b)
  {
  }

  /** A rate reads back within two percent of what it is. */
  lemma RoundingIsClose(env: Env, rate: nat)
    requires rate > 0
    ensures WithinTwoPercent(env.rounded(rate), rate)
  {
    CloseIff(env.rounded(rate), rate);
  }

  /** A rate as the tools report it: rounded, and nothing for a queue without one. */
  ghost function Reported(env: Env, k: Kernel, dev: string): nat {
    if dev in k.cake && k.cake[dev].rate > 0 then env.rounded(k.cake[dev].rate) else 0
  }

  /** The kernel shapes a link as asked: its own queue has a rate and the wanted queueing
      discipline, uploads are reported within two percent of the rate asked for on the link
      itself, and downloads on its IFB device. */
  ghost predicate RunsAsAsked(env: Env, k: Kernel, s: Shaping) {
    && !IsIfb(s.ifname) && s.ifname in k.cake && k.cake[s.ifname].rate > 0
    && k.cake[s.ifname].diffserv == s.diffserv
    && WithinTwoPercent(Reported(env, k, s.ifname), s.upBps)
    && WithinTwoPercent(Reported(env, k, env.ifbOf(s.ifname)), s.downBps)
  }

  /** Some marking rule reports this mark. */
  ghost predicate MarkedAs(env: Env, k: Kernel, m: (int, int)) {
    exists dev :: (dev, m.1) in k.nft && m.0 == ReadVlan(env, dev, m.1)
  }

  lemma ShapedAsIff(env: Env, k: Kernel, s: Shaping)
    ensures ShapedAs(ReadShaping(env, k), s) <==> RunsAsAsked(env, k, s)
  {
    CloseIff(Reported(env, k, s.ifname), s.upBps);
    CloseIff(Reported(env, k, env.ifbOf(s.ifname)), s.downBps);
    ReadsReported(env, k, s.ifname);
  }

  lemma ReadsReported(env: Env, k: Kernel, dev: string)
    ensures var read := ReadShaping(env, k);
            && (dev in read <==> !IsIfb(dev) && dev in k.cake && k.cake[dev].rate > 0)
            && (dev in read ==>
                  read[dev] == Shaping(dev, Reported(env, k, env.ifbOf(dev)), Reported(env, k, dev),
                                       k.cake[dev].diffserv))
  {
  }

  /** Whatever reads fail, a reconcile issues nothing exactly if every wanted link could be read
      and runs as asked, every wanted route could be read and has its rule and its table
      default, and every wanted mark could be read and is reported; otherwise it issues the
      whole script. */
  lemma QuietIff(env: Env, k: Kernel, d: DesiredState, f: ReadFaults)
    ensures var issued := Issued(env, k, d, f);
            && Script(env, d) != []
            && (issued == [] || issued == Script(env, d))
            && (issued == [] <==>
                  && (forall s :: s in d.shaping ==> !f.shaping && RunsAsAsked(env, k, s))
                  && (forall r :: r in d.routes ==> !f.rules && r.table !in f.tables && Routed(k, r))
                  && (forall m :: m in d.marks ==> !f.marks && MarkedAs(env, k, m)))
  {
    ConvergedIff(env, k, d, f);
    assert |Script(env, d)| > 0;
  }

  lemma ConvergedIff(env: Env, k: Kernel, d: DesiredState, f: ReadFaults)
    ensures Converged(Read(env, k, f), d) <==>
              && (forall s :: s in d.shaping ==> !f.shaping && RunsAsAsked(env, k, s))
              && (forall r :: r in d.routes ==> !f.rules && r.table !in f.tables && Routed(k, r))
              && (forall m :: m in d.marks ==> !f.marks && MarkedAs(env, k, m))
  {
    forall s | s in d.shaping ensures ShapedAs(ReadShaping(env, k), s) <==> RunsAsAsked(env, k, s) {
      ShapedAsIff(env, k, s);
    }
    forall r | r in d.routes
      ensures (r.fwmark, r.table, r.ifname) in ReadRoutes(k, f.tables) <==> r.table !in f.tables && Routed(k, r)
    {
    }
    forall m | m in d.marks ensures m in ReadMarks(env, k.nft) <==> MarkedAs(env, k, m) {
    }
    if Read(env, k, f) == None {
      NothingWanted(env, k, d);
    }
  }

  lemma NothingWanted(env: Env, k: Kernel, d: DesiredState)
    ensures d.shaping == [] && d.routes == [] && d.marks == {}
       <==> (forall s :: s !in d.shaping) && (forall r :: r !in d.routes) && (forall m :: m !in d.marks)
  {
    assert |d.shaping| > 0 ==> d.shaping[0] in d.shaping;
    assert |d.routes| > 0 ==> d.routes[0] in d.routes;
  }

  /** So a link drifted by more than two percent in either direction, or given another
      queueing discipline, is always rewritten, with everything else. */
  lemma DriftIsRewritten(env: Env, k: Kernel, d: DesiredState, s: Shaping)
    requires s in d.shaping
    requires var up, down := Reported(env, k, s.ifname), Reported(env, k, env.ifbOf(s.ifname));
             || 100 * (s.upBps - up) > 2 * s.upBps || 100 * (up - s.upBps) > 2 * up
             || 100 * (s.downBps - down) > 2 * s.downBps || 100 * (down - s.downBps) > 2 * down
             || (s.ifname in k.cake && k.cake[s.ifname].diffserv != s.diffserv)
    ensures Issued(env, k, d, ALL_READABLE) == Script(env, d)
  {
    QuietIff(env, k, d, ALL_READABLE);
  }

  /** After a script that met no failure, the kernel reads as converged exactly when
      every shaped link has a positive upload rate and links whose IFB names collide
      agree on the download rate. A download rate of zero does no harm. */
  lemma ConvergedAfterWriteIff(env: Env, k: Kernel, d: DesiredState, tunnel: string)
    requires OneHop(d.routes, tunnel) && DistinctLinks(d.shaping) && MarksReadable(env, d)
    ensures Converged(Read(env, Flawless(k, Script(env, d)), ALL_READABLE), d)
       <==> forall i :: 0 <= i < |d.shaping| ==> LinkReadsBack(env, d.shaping, i)
  {
    var k' := Flawless(k, Script(env, d));
    ScriptInstalls(env, k, d);
    forall i | 0 <= i < |d.shaping|
      ensures ShapedAs(ReadShaping(env, k'), d.shaping[i]) <==> LinkReadsBack(env, d.shaping, i)
    {
      LinkShapedIff(env, k, k', d, i);
    }
    forall r | r in d.routes ensures (r.fwmark, r.table, r.ifname) in ReadRoutes(k', {}) {
      assert OneHop(d.routes, tunnel) && Routed(k', r);
    }
  }

  /** Self-healing: from any kernel at all, one reconcile whose commands succeed makes
      everything desired readable back, and the next one issues no command. */
  lemma SelfHealing(env: Env, k: Kernel, d: DesiredState, tunnel: string, luck: Luck, at: nat)
    requires OneHop(d.routes, tunnel) && DistinctLinks(d.shaping) && MarksReadable(env, d)
    requires forall i :: 0 <= i < |d.shaping| ==> LinkReadsBack(env, d.shaping, i)
    requires Lucky(luck, at, |Script(env, d)|)
    ensures var k' := Reconciled(env, k, d, ALL_READABLE, luck, at);
            && (forall s :: s in d.shaping ==> RunsAsAsked(env, k', s))
            && (forall r :: r in d.routes ==> Routed(k', r))
            && (forall m :: m in d.marks ==> MarkedAs(env, k', m))
            && Issued(env, k', d, ALL_READABLE) == []
  {
    if !Converged(Read(env, k, ALL_READABLE), d) {
      LuckyIsFlawless(k, Script(env, d), luck, at);
      ConvergedAfterWriteIff(env, k, d, tunnel);
    }
    QuietIff(env, Reconciled(env, k, d, ALL_READABLE, luck, at), d, ALL_READABLE);
  }

  /** With distinct IFB names and positive upload rates every link reads back. */
  lemma DistinctIfbsReadBack(env: Env, shaping: seq<Shaping>)
    requires forall i, j :: 0 <= i < j < |shaping| ==> env.ifbOf(shaping[i].ifname) != env.ifbOf(shaping[j].ifname)
    requires forall i :: 0 <= i < |shaping| ==> shaping[i].upBps > 0
    ensures forall i :: 0 <= i < |shaping| ==> LinkReadsBack(env, shaping, i)
  {
    forall i | 0 <= i < |shaping| ensures LinkReadsBack(env, shaping, i) {
      assert LastSharer(env, shaping, i) == i;
    }
  }

  /** A link asked to upload at rate zero never reads as converged, whatever the
      kernel holds, so every reconcile writes again. */
  lemma ZeroUploadNeverConverges(env: Env, k: Kernel, f: ReadFaults, d: DesiredState, s: Shaping)
    requires s in d.shaping && s.upBps == 0
    ensures !Converged(Read(env, k, f), d)
  {
    if Read(env, k, f).Some? && s.ifname in Read(env, k, f).value.shaping {
      assert ReadRate(env, k, s.ifname) > 0;
    }
  }

  /** Rendered states meet the conditions that do not depend on rates or names. */
  lemma RenderedIsHealable(env: Env, plan: Plan, a: Allocation.Allocation, view: View)
    requires Render.Render(plan, a, view).Ok? && plan.profiles == env.profiles && BEST_EFFORT in env.profiles
    requires forall p :: p in env.profiles ==> ReadVlan(env, env.lanIf(p), p.vlan) == p.vlan
    ensures var d := Render.Render(plan, a, view).value;
            OneHop(d.routes, plan.tunnel) && MarksReadable(env, d)
  {
    var d := Render.Render(plan, a, view).value;
    RoutesComeFromShares(plan, view, a.shares);
    forall m | m in d.marks ensures m in ReadMarks(env, Marking(env, d.lanOutMarks)) {
      var p :| p in env.profiles && m == (p.vlan, p.vlan);
      assert (env.lanIf(p), p.vlan) in Marking(env, d.lanOutMarks);
    }
  }

  /** End to end: whatever the kernel was, one reconcile of a rendered allocation whose
      commands succeed installs all of it, with rates within tolerance of those asked
      for, and the next reconcile issues no command; tables may collide. */
  lemma RenderedStateHeals(env: Env, plan: Plan, a: Allocation.Allocation, view: View, k: Kernel, luck: Luck, at: nat)
    requires Render.Render(plan, a, view).Ok? && plan.profiles == env.profiles && BEST_EFFORT in env.profiles
    requires forall p :: p in env.profiles ==> ReadVlan(env, env.lanIf(p), p.vlan) == p.vlan
    requires var d := Render.Render(plan, a, view).value;
             && DistinctLinks(d.shaping) && Lucky(luck, at, |Script(env, d)|)
             && (forall i, j :: 0 <= i < j < |d.shaping| ==>
                 env.ifbOf(d.shaping[i].ifname) != env.ifbOf(d.shaping[j].ifname))
             && (forall i :: 0 <= i < |d.shaping| ==> d.shaping[i].upBps > 0)
    ensures var d := Render.Render(plan, a, view).value;
            var k' := Reconciled(env, k, d, ALL_READABLE, luck, at);
            && (forall s :: s in d.shaping ==> RunsAsAsked(env, k', s))
            && (forall r :: r in d.routes ==> r.ifname == plan.tunnel && Routed(k', r))
            && (forall m :: m in d.marks ==> MarkedAs(env, k', m))
            && Issued(env, k', d, ALL_READABLE) == []
  {
    var d := Render.Render(plan, a, view).value;
    RenderedIsHealable(env, plan, a, view);
    DistinctIfbsReadBack(env, d.shaping);
    SelfHealing(env, k, d, plan.tunnel, luck, at);
  }

  // ---- what reconciling does not heal -----------------------------------------------------------

  /** Redirects are never read back, so one that is missing is put back only if
      something else read as missing too. */
  lemma RedirectHealedIff(env: Env, k: Kernel, d: DesiredState, f: ReadFaults, luck: Luck, at: nat, i: nat)
    requires Lucky(luck, at, |Script(env, d)|) && i < |d.shaping|
    ensures var dev := d.shaping[i].ifname;
            var k' := Reconciled(env, k, d, f, luck, at);
            (dev in k'.redirect && k'.redirect[dev] == env.ifbOf(dev))
              <==> (!Converged(Read(env, k, f), d) || (dev in k.redirect && k.redirect[dev] == env.ifbOf(dev)))
  {
    if !Converged(Read(env, k, f), d) {
      LuckyIsFlawless(k, Script(env, d), luck, at);
      ScriptInstalls(env, k, d);
      RedirectOnLink(env, k.redirect, d.shaping, i);
    }
  }

  /** For instance, for every state that can be healed at all: install it, lose the
      redirects, and reconciling issues nothing, so downloads stay unshaped. */
  lemma LostRedirectsStayLost(env: Env, k: Kernel, d: DesiredState, tunnel: string, luck: Luck, at: nat)
    requires OneHop(d.routes, tunnel) && DistinctLinks(d.shaping) && MarksReadable(env, d)
    requires forall i :: 0 <= i < |d.shaping| ==> LinkReadsBack(env, d.shaping, i)
    ensures var lost := Flawless(k, Script(env, d)).(redirect := map[]);
            && Issued(env, lost, d, ALL_READABLE) == []
            && Reconciled(env, lost, d, ALL_READABLE, luck, at).redirect == map[]
  {
    ConvergedAfterWriteIff(env, k, d, tunnel);
    RedirectsAreNotRead(env, Flawless(k, Script(env, d)), map[], ALL_READABLE);
  }

  lemma RedirectsAreNotRead(env: Env, k: Kernel, redirect: map<string, string>, f: ReadFaults)
    ensures Read(env, k.(redirect := redirect), f) == Read(env, k, f)
  {
    assert ReadShaping(env, k.(redirect := redirect)) == ReadShaping(env, k);
  }

  /** Nor are LAN-out marks compared: for every kernel and every desired state, one that is
      missing is put in only if something else read as missing. */
  lemma LanOutMarkHealedIff(env: Env, k: Kernel, d: DesiredState, f: ReadFaults, luck: Luck, at: nat, m: (string, int))
    requires Lucky(luck, at, |Script(env, d)|) && m in d.lanOutMarks
    ensures m in Reconciled(env, k, d, f, luck, at).nft <==> (!Converged(Read(env, k, f), d) || m in k.nft)
  {
    if !Converged(Read(env, k, f), d) {
      LuckyIsFlawless(k, Script(env, d), luck, at);
      ScriptInstalls(env, k, d);
    }
  }

  /** For instance, a kernel holding only the class marks passes for converged, and a new
      port's traffic stays unmarked. */
  lemma LanOutMarksAreNotHealed(env: Env, k: Kernel, port: string, luck: Luck, at: nat)
    requires k.nft == Marking(env, {}) && (port, BEST_EFFORT.vlan) !in k.nft && BEST_EFFORT in env.profiles
    requires forall p :: p in env.profiles ==> ReadVlan(env, env.lanIf(p), p.vlan) == p.vlan
    ensures var lanOut := {(port, BEST_EFFORT.vlan)};
            var d := DesiredState([], [], Marks(env.profiles, lanOut), lanOut);
            && Issued(env, k, d, ALL_READABLE) == []
            && (port, BEST_EFFORT.vlan) !in Reconciled(env, k, d, ALL_READABLE, luck, at).nft
  {
    var marks := Marks(env.profiles, {(port, BEST_EFFORT.vlan)});
    forall m | m in marks ensures m in ReadMarks(env, k.nft) {
      var p :| p in env.profiles && m == (p.vlan, p.vlan);
      assert (env.lanIf(p), p.vlan) in k.nft;
    }
  }
}
