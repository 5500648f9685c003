/** The enforcer object, command by command. */
module Enforcer {
  import opened Render
  import opened Kernel

  lemma Joined<T>(a: seq<T>, b: seq<T>, c: seq<T>, d: seq<T>)
    ensures a + b + c + d == a + (b + c + d)
  {
  }

  class LinuxEnforcer {
    const env: Env
    /** Which commands succeed; nobody may assume any of them does. */
    const luck: Luck
    /** The outside world, changed only by commands. */
    var kernel: Kernel
    /** Every command this process has issued, in order. */
    var issued: seq<Command>
    ghost const boot: Kernel

    /** The kernel is what the commands issued so far have made of the kernel found at start. */
    ghost predicate Valid()
      reads this
    {
      kernel == Execute(boot, issued, luck, 0)
    }

    constructor (env: Env, luck: Luck, kernel: Kernel)
      ensures Valid()
      ensures this.env == env && this.luck == luck && this.kernel == kernel && issued == []
    {
      this.env, this.luck, this.kernel, this.boot, issued := env, luck, kernel, kernel, [];
    }

    /** Run one command; a failure is swallowed and the kernel stays as it was. */
    method Exec(c: Command)
      requires Valid()
      modifies this
      ensures Valid() && issued == old(issued) + [c]
    {
      ExecuteSnoc(boot, issued, c, luck, 0);
      if luck(|issued|) {
        kernel := Effect(kernel, c);
      }
      issued := issued + [c];
    }

    method ApplyCake(s: Shaping)
      requires Valid()
      modifies this
      ensures Valid() && issued == old(issued) + ShapeOne(env, s)[..1]
    {
      Exec(CakeReplace(s.ifname, s.upBps, s.diffserv));
    }

    method ApplyIngressShaping(s: Shaping)
      requires Valid()
      modifies this
      ensures Valid() && issued == old(issued) + ShapeOne(env, s)[1..]
    {
      var ifb := env.ifbOf(s.ifname);
      Exec(LinkAdd(ifb));
      Exec(LinkUp(ifb));
      Exec(IngressAdd(s.ifname));
      Exec(FilterReplace(s.ifname, ifb));
      Exec(CakeReplace(ifb, s.downBps, s.diffserv));
    }

    method ApplyShaping(shaping: seq<Shaping>)
      requires Valid()
      modifies this
      ensures Valid() && issued == old(issued) + ShapeAllOf(env, shaping)
    {
      for i := 0 to |shaping|
        invariant Valid() && issued == old(issued) + ShapeAllOf(env, shaping[..i])
      {
        assert shaping[..i + 1][..i] == shaping[..i];
        ApplyCake(shaping[i]);
        ApplyIngressShaping(shaping[i]);
      }
      assert shaping[..|shaping|] == shaping;
    }

    method ApplyMarks(lanOut: set<(string, int)>)
      requires Valid()
      modifies this
      ensures Valid() && issued == old(issued) + [NftReplace(Marking(env, lanOut))]
    {
      Exec(NftReplace(Marking(env, lanOut)));
    }

    method ApplyRoute(r: RouteRule)
      requires Valid()
      modifies this
      ensures Valid() && issued == old(issued) + RouteOne(r)
    {
      Exec(RuleAdd(r.fwmark, r.table));
      Exec(RouteReplace(r.table, r.ifname));
    }

    method ApplyRoutes(routes: seq<RouteRule>)
      requires Valid()
      modifies this
      ensures Valid() && issued == old(issued) + RouteAllOf(routes)
    {
      for i := 0 to |routes|
        invariant Valid() && issued == old(issued) + RouteAllOf(routes[..i])
      {
        assert routes[..i + 1][..i] == routes[..i];
        ApplyRoute(routes[i]);
      }
      assert routes[..|routes|] == routes;
    }

    /** Run the whole script, whatever fails on the way. */
    method Apply(d: DesiredState)
      requires Valid()
      modifies this
      ensures Valid() && issued == old(issued) + Script(env, d)
    {
      ghost var first, marking, last :=
         ShapeAllOf(env, d.shaping), NftReplace(Marking(env, d.lanOutMarks)), RouteAllOf(d.routes);
      ApplyShaping(d.shaping);
      ApplyMarks(d.lanOutMarks);
      ApplyRoutes(d.routes);
      Joined(old(issued), first, [marking], last);
    }

    /** Read, compare, and apply only if anything desired is missing. */
    method Reconcile(d: DesiredState, f: ReadFaults)
      requires Valid()
      modifies this
      ensures Valid() && issued == old(issued) + Issued(env, old(kernel), d, f)
      ensures kernel == Reconciled(env, old(kernel), d, f, luck, |old(issued)|)
    {
      var current := Read(env, kernel, f);
      if !Converged(current, d) {
        Apply(d);
        ExecuteAppend(boot, old(issued), Script(env, d), luck, 0);
      }
    }
  }
}
