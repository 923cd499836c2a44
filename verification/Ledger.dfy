// Relay ports over whole runs of the operator: no two forwarders ever hold one port of a gateway
// for different keys, ports are stable, and a repeated reconcile changes nothing.
module Ledger {
  import opened Text
  import opened Address
  import opened Api
  import opened PortPool
  import opened RuleGen
  import opened Operator

  /** Relay ports and (source, target port) keys of a gateway's ingress rules correspond one to one. */
  ghost predicate Bijective(rules: seq<GatewayRule>) {
    forall p, q :: p in rules && q in rules ==> (p.relayPort == q.relayPort <==> GatewayKey(p) == GatewayKey(q))
  }

  ghost predicate Covers(rules: seq<GatewayRule>, port: string, key: string) {
    exists q :: q in rules && q.relayPort == port && GatewayKey(q) == key
  }

  ghost predicate RuleCovered(s: System, r: ForwarderRule) {
    r.gateway.name in s.gateways && Covers(s.gateways[r.gateway.name].spec.ingressRules, r.relayPort, RuleKey(r))
  }

  ghost predicate GatewayOk(s: System, g: string)
    requires g in s.gateways
  {
    && Bijective(s.gateways[g].spec.ingressRules)
    && (s.gateways[g].spec.ingressRules != [] ==> GetRuleName(s.gateways[g].spec.gatewayIP) == Some(g))
  }

  ghost predicate ForwarderOk(s: System, n: string)
    requires n in s.forwarders
  {
    forall r :: r in s.forwarders[n].spec.ingressRules ==> WellFormed(r) && RuleCovered(s, r)
  }

  ghost predicate GatewaysOk(s: System) {
    forall g :: g in s.gateways ==> GatewayOk(s, g)
  }

  /** The system-wide invariant of the ingress allocator */
  ghost predicate Inv(s: System) {
    GatewaysOk(s) && forall n :: n in s.forwarders ==> ForwarderOk(s, n)
  }

  /** The invariant, except that the rules of one forwarder may be missing from gateways */
  ghost predicate Recoverable(s: System, name: string) {
    GatewaysOk(s) && forall n :: n in s.forwarders && n != name ==> ForwarderOk(s, n)
  }

  lemma InvIsRecoverable(s: System, name: string)
    requires Inv(s)
    ensures Recoverable(s, name) && GatewaysOk(s)
  {
  }

  // ----- pools and rules -----

  lemma {:induction false} GatewayPoolMeaning(rules: seq<GatewayRule>)
    requires Bijective(rules)
    ensures forall p :: p in UsedPortsOfGateway(rules) ==> Covers(rules, p, UsedPortsOfGateway(rules)[p])
    ensures forall q :: q in rules ==>
              q.relayPort in UsedPortsOfGateway(rules) && UsedPortsOfGateway(rules)[q.relayPort] == GatewayKey(q)
  {
    if rules != [] {
      var init, last := rules[..|rules| - 1], rules[|rules| - 1];
      assert rules == init + [last];
      assert Bijective(init);
      GatewayPoolMeaning(init);
      forall p | p in UsedPortsOfGateway(rules) ensures Covers(rules, p, UsedPortsOfGateway(rules)[p]) {
        if p == last.relayPort {
          assert last in rules;
        } else {
          assert Covers(init, p, UsedPortsOfGateway(init)[p]);
        }
      }
    }
  }

  lemma GatewayPoolFunctional(rules: seq<GatewayRule>)
    requires Bijective(rules)
    ensures Functional(UsedPortsOfGateway(rules))
  {
    GatewayPoolMeaning(rules);
  }

  ghost predicate HeldAt(pools: Pools, r: ForwarderRule) {
    var pool := PoolOf(pools, r.gateway.name);
    r.relayPort in pool && pool[r.relayPort] == RuleKey(r)
  }

  /** Every ingress rule of every forwarder is well formed and held in the pools. */
  ghost predicate Within(fwds: map<string, Forwarder>, pools: Pools) {
    forall n, r :: n in fwds && r in fwds[n].spec.ingressRules ==> WellFormed(r) && HeldAt(pools, r)
  }

  /** The pools rebuilt from the gateways are functions. */
  lemma PoolsOfGateways(s: System)
    requires GatewaysOk(s)
    ensures AllFunctional(UsedPortsForIngress(s.gateways))
  {
    var pools := UsedPortsForIngress(s.gateways);
    forall g ensures Functional(PoolOf(pools, g)) {
      if g in s.gateways {
        assert GatewayOk(s, g);
        GatewayPoolFunctional(s.gateways[g].spec.ingressRules);
      }
    }
  }

  /** They hold the rules of every forwarder whose rules are covered. */
  lemma PoolsHoldOthers(s: System, name: string)
    requires Recoverable(s, name)
    ensures Within(s.forwarders - {name}, UsedPortsForIngress(s.gateways))
  {
    var pools := UsedPortsForIngress(s.gateways);
    forall n, r | n in s.forwarders - {name} && r in s.forwarders[n].spec.ingressRules ensures WellFormed(r) && HeldAt(pools, r) {
      assert ForwarderOk(s, n) && RuleCovered(s, r) && GatewayOk(s, r.gateway.name);
      GatewayPoolMeaning(s.gateways[r.gateway.name].spec.ingressRules);
    }
  }

  /** Under the invariant they are functions that hold every forwarder's rules. */
  lemma PoolsOfInv(s: System)
    requires Inv(s)
    ensures AllFunctional(UsedPortsForIngress(s.gateways)) && Within(s.forwarders, UsedPortsForIngress(s.gateways))
  {
    PoolsOfGateways(s);
    var pools := UsedPortsForIngress(s.gateways);
    forall n, r | n in s.forwarders && r in s.forwarders[n].spec.ingressRules ensures WellFormed(r) && HeldAt(pools, r) {
      assert ForwarderOk(s, n) && RuleCovered(s, r) && GatewayOk(s, r.gateway.name);
      GatewayPoolMeaning(s.gateways[r.gateway.name].spec.ingressRules);
    }
  }

  // ----- projections -----

  /** Rules keep their order on the way to a gateway. */
  lemma {:induction false} ProjectRulesInOrder(n: string, ip: string, a: seq<ForwarderRule>, b: seq<ForwarderRule>, g: string)
    ensures ProjectRules(n, ip, a + b, g) == ProjectRules(n, ip, a, g) + ProjectRules(n, ip, b, g)
  {
    if b == [] {
      assert a + b == a;
    } else {
      var last := |b| - 1;
      ProjectRulesInOrder(n, ip, a, b[..last], g);
      assert (a + b)[..|a + b| - 1] == a + b[..last];
    }
  }

  /** And so do forwarders. */
  lemma {:induction false} ProjectInOrder(dir: Direction, a: seq<string>, b: seq<string>, fwds: map<string, Forwarder>, g: string)
    requires forall n :: n in a + b ==> n in fwds
    ensures (forall n :: n in a ==> n in fwds) && (forall n :: n in b ==> n in fwds)
    ensures Project(dir, a + b, fwds, g) == Project(dir, a, fwds, g) + Project(dir, b, fwds, g)
  {
    hide ProjectRules, RulesOf;
    assert forall n :: n in a || n in b ==> n in a + b;
    if b == [] {
      assert a + b == a;
    } else {
      var last := |b| - 1;
      assert (a + b)[..|a + b| - 1] == a + b[..last];
      ProjectInOrder(dir, a, b[..last], fwds, g);
    }
  }

  lemma {:induction false} ProjectRulesMeaning(name: string, ip: string, rules: seq<ForwarderRule>, g: string, q: GatewayRule)
    ensures q in ProjectRules(name, ip, rules, g) <==>
            exists r :: r in rules && r.gateway == Ref(CONNECTOR_NAMESPACE, g) && q == ToGatewayRule(name, ip, r)
  {
    if rules != [] {
      ProjectRulesMeaning(name, ip, rules[..|rules| - 1], g, q);
      assert rules == rules[..|rules| - 1] + [rules[|rules| - 1]];
    }
  }

  /** Gateway rule q is what rule r of forwarder n, which names gateway g, becomes there. */
  ghost predicate Stems(dir: Direction, fwds: map<string, Forwarder>, n: string, r: ForwarderRule, g: string, q: GatewayRule) {
    && n in fwds && (r in if dir.Egress? then fwds[n].spec.egressRules else fwds[n].spec.ingressRules)
    && r.gateway == Ref("external-services", g)
    && q.protocol == r.protocol && q.sourceIP == r.sourceIP && q.targetPort == r.targetPort
    && q.destinationIP == r.destinationIP && q.destinationPort == r.destinationPort && q.relayPort == r.relayPort
    && q.forwarder == Ref("external-services", n) && q.forwarderIP == fwds[n].spec.forwarderIP
  }

  /** A gateway's rules are exactly the images of the forwarder rules that name it. */
  lemma {:induction false} ProjectMeaning(dir: Direction, order: seq<string>, fwds: map<string, Forwarder>, g: string, q: GatewayRule)
    requires forall n :: n in order ==> n in fwds
    ensures q in Project(dir, order, fwds, g) <==> exists n, r :: n in order && Stems(dir, fwds, n, r, g, q)
  {
    if order != [] {
      var n := order[|order| - 1];
      ProjectMeaning(dir, order[..|order| - 1], fwds, g, q);
      ProjectRulesMeaning(n, fwds[n].spec.forwarderIP, RulesOf(dir, fwds[n].spec), g, q);
      assert order == order[..|order| - 1] + [n];
      if r :| r in RulesOf(dir, fwds[n].spec) && r.gateway == Ref(CONNECTOR_NAMESPACE, g)
              && q == ToGatewayRule(n, fwds[n].spec.forwarderIP, r) {
        assert Stems(dir, fwds, n, r, g, q);
      }
    }
  }

  /** Rules held in functional pools project to one-to-one gateway rules that cover them. */
  lemma ProjectionOk(order: seq<string>, fwds: map<string, Forwarder>, pools: Pools, g: string)
    requires Enumerates(order, fwds.Keys) && AllFunctional(pools) && Within(fwds, pools)
    ensures Bijective(Project(Ingress, order, fwds, g))
    ensures forall n, r :: n in fwds && r in fwds[n].spec.ingressRules && r.gateway.name == g ==>
              Covers(Project(Ingress, order, fwds, g), r.relayPort, RuleKey(r))
  {
    var rules := Project(Ingress, order, fwds, g);
    var pool := PoolOf(pools, g);
    forall q | q in rules ensures q.relayPort in pool && pool[q.relayPort] == GatewayKey(q) && IsKey(GatewayKey(q)) {
      ProjectMeaning(Ingress, order, fwds, g, q);
      var n, r :| n in order && Stems(Ingress, fwds, n, r, g, q);
      assert HeldAt(pools, r);
    }
    assert Functional(pool);
    forall n, r | n in fwds && r in fwds[n].spec.ingressRules && r.gateway.name == g
      ensures Covers(rules, r.relayPort, RuleKey(r))
    {
      var q := ToGatewayRule(n, fwds[n].spec.forwarderIP, r);
      assert WellFormed(r) && Stems(Ingress, fwds, n, r, g, q);
      ProjectMeaning(Ingress, order, fwds, g, q);
    }
  }

  // ----- one reconcile -----

  /** What the generated ingress rules of an ExternalService look like */
  lemma NewRulesHeld(s: System, es: ExternalService, view: ClusterView)
    requires GatewaysOk(s) && NewForwarderSpec(s, es, view).Some?
    ensures var pools := UsedPortsForIngress(s.gateways);
            var ts := IngressTemplates(es, view, es.sources);
            var a := Assign(Demands(Ingress, ts), pools);
            var rules := NewForwarderSpec(s, es, view).value.ingressRules;
            && ValidSources(es.sources) && a.Some? && rules == Fill(ts, a.value.ports)
            && Serves(Demands(Ingress, ts), pools, a.value)
            && (forall r :: r in rules ==> WellFormed(r) && HeldAt(a.value.pools, r))
  {
    hide GetRuleName, Serves;
    PoolsOfGateways(s);
    var pools := UsedPortsForIngress(s.gateways);
    var ts := IngressTemplates(es, view, es.sources);
    AssignServes(Demands(Ingress, ts), pools);
    FilledRulesHeld(es, view, pools);
  }

  lemma FilledRulesHeld(es: ExternalService, view: ClusterView, pools: Pools)
    requires ValidSources(es.sources)
    requires var ds := Demands(Ingress, IngressTemplates(es, view, es.sources));
             Assign(ds, pools).Some? && Answered(ds, Assign(ds, pools).value)
    ensures var ts := IngressTemplates(es, view, es.sources);
            var a := Assign(Demands(Ingress, ts), pools).value;
            forall r :: r in Fill(ts, a.ports) ==> WellFormed(r) && HeldAt(a.pools, r)
  {
    hide GetRuleName;
    var ts := IngressTemplates(es, view, es.sources);
    var ds := Demands(Ingress, ts);
    var a := Assign(ds, pools).value;
    var rules := Fill(ts, a.ports);
    forall r | r in rules ensures WellFormed(r) && HeldAt(a.pools, r) {
      var i :| 0 <= i < |rules| && rules[i] == r;
      assert es.sources[..|es.sources|] == es.sources;
      IngressTemplatesMeaning(es, view, |es.sources|, ts[i]);
      var src, port :| src in es.sources[..|es.sources|] && AsksIngress(es, view, src, port, ts[i]);
      ItoaHasNoSeparator(port.port);
      assert ds[i] == DemandOf(Ingress, ts[i]);
    }
  }

  ghost predicate SameSpecs(a: map<string, Forwarder>, b: map<string, Forwarder>) {
    a.Keys == b.Keys && forall n :: n in a ==> a[n].spec == b[n].spec
  }

  /** A reconcile that stops after the forwarder's rules and the gateways in `written` were rewritten. The
      forwarder may still be marked as updating; gateways outside `written` may have been created empty but
      keep their rules. */
  ghost predicate Interrupted(s: System, name: string, order: seq<string>, written: set<string>, t: System)
    requires name in s.forwarders && Enumerates(order, s.forwarders.Keys)
  {
    var rules := s.forwarders[name].spec.ingressRules;
    && written <= Named(rules)
    && SameSpecs(s.forwarders, t.forwarders)
    && s.gateways.Keys <= t.gateways.Keys
    && (forall g :: g in written ==>
          g in t.gateways && t.gateways[g].spec == NewGateway(s, order, g, AddressOf(rules, g)).spec)
    && (forall g :: g in t.gateways && g !in written ==> t.gateways[g].spec == GatewayOf(s, g).spec)
  }

  /** `t` is `s` with forwarder `name` written anew, its rules and everyone else's held in `pools`. */
  ghost predicate Rewrites(s: System, name: string, t: System, pools: Pools) {
    && t.gateways == s.gateways && name in t.forwarders
    && (forall m :: m in t.forwarders && m != name ==> m in s.forwarders && t.forwarders[m] == s.forwarders[m])
    && AllFunctional(pools) && Within(t.forwarders, pools)
  }

  /** Whatever was written, the gateways stay one-to-one, and every rule of a rewritten gateway is covered. */
  lemma InterruptedGateways(s: System, s1: System, name: string, order: seq<string>, written: set<string>, t: System, pools: Pools)
    requires Recoverable(s, name) && Rewrites(s, name, s1, pools)
    requires Enumerates(order, s1.forwarders.Keys) && Interrupted(s1, name, order, written, t)
    ensures forall g :: g in t.gateways ==> GatewayOk(t, g)
    ensures forall n, r :: n in t.forwarders && r in t.forwarders[n].spec.ingressRules ==>
              WellFormed(r) && (n != name || r.gateway.name in written ==> RuleCovered(t, r))
  {
    hide GatewayOk, WellFormed, RuleCovered, Enumerates, Within, AllFunctional;
    forall g | g in t.gateways ensures GatewayOk(t, g) {
      InterruptedGatewayOk(s, s1, name, order, written, t, pools, g);
    }
    forall n, r | n in t.forwarders && r in t.forwarders[n].spec.ingressRules
      ensures WellFormed(r) && (n != name || r.gateway.name in written ==> RuleCovered(t, r))
    {
      InterruptedRuleOk(s, s1, name, order, written, t, pools, n, r);
    }
  }

  /** The pools as the generation of a new forwarder leaves them hold every rule there is. */
  lemma PoolsAfter(s: System, es: ExternalService, view: ClusterView) returns (pools: Pools)
    requires Recoverable(s, es.name) && NewForwarderSpec(s, es, view).Some?
    ensures Rewrites(s, es.name, WithForwarder(s, es.name, NewForwarderSpec(s, es, view).value), pools)
  {
    NewRulesHeld(s, es, view);
    PoolsHoldOthers(s, es.name);
    hide Recoverable, NewForwarderSpec, AllFunctional, Within, HeldAt, WellFormed, GetRuleName, Assign;
    var before := UsedPortsForIngress(s.gateways);
    pools := Assign(Demands(Ingress, IngressTemplates(es, view, es.sources)), before).value.pools;
    WithinAfter(s, es.name, NewForwarderSpec(s, es, view).value, before, pools);
  }

  lemma InterruptedRuleOk(s: System, s1: System, name: string, order: seq<string>, written: set<string>, t: System,
                          pools: Pools, n: string, r: ForwarderRule)
    requires Recoverable(s, name) && Rewrites(s, name, s1, pools) && Enumerates(order, s1.forwarders.Keys)
    requires Interrupted(s1, name, order, written, t)
    requires n in t.forwarders && r in t.forwarders[n].spec.ingressRules
    ensures WellFormed(r) && (n != name || r.gateway.name in written ==> RuleCovered(t, r))
  {
    hide GetRuleName, AllFunctional, Project, Bijective, Covers, AddressOf;
    assert n in s1.forwarders && WellFormed(r);
    if r.gateway.name in written {
      ProjectionOk(order, s1.forwarders, pools, r.gateway.name);
    } else if n != name {
      assert ForwarderOk(s, n) && RuleCovered(s, r);
    }
  }

  lemma InterruptedGatewayOk(s: System, s1: System, name: string, order: seq<string>, written: set<string>, t: System,
                             pools: Pools, g: string)
    requires Recoverable(s, name) && Rewrites(s, name, s1, pools) && Enumerates(order, s1.forwarders.Keys)
    requires Interrupted(s1, name, order, written, t)
    requires g in t.gateways
    ensures GatewayOk(t, g)
  {
    hide GetRuleName, AllFunctional, Project;
    if g in written {
      hide Bijective;
      ProjectionOk(order, s1.forwarders, pools, g);
      var rules := s1.forwarders[name].spec.ingressRules;
      var r :| r in rules && r.gateway.name == g && AddressOf(rules, g) == r.gatewayIP;
      assert WellFormed(r);
    } else if g in s.gateways {
      assert GatewayOk(s, g);
    }
  }

  lemma WithinAfter(s: System, name: string, spec: ForwarderSpec, before: Pools, after: Pools)
    requires Within(s.forwarders - {name}, before) && Kept(before, after)
    requires forall r :: r in spec.ingressRules ==> WellFormed(r) && HeldAt(after, r)
    ensures Within(WithForwarder(s, name, spec).forwarders, after)
  {
    forall n, r | n in WithForwarder(s, name, spec).forwarders && r in WithForwarder(s, name, spec).forwarders[n].spec.ingressRules
      ensures WellFormed(r) && HeldAt(after, r)
    {
      if n != name {
        assert n in s.forwarders - {name} && HeldAt(before, r);
      }
    }
  }

  lemma CompletedIsInterrupted(s: System, name: string, order: seq<string>)
    requires name in s.forwarders && Enumerates(order, s.forwarders.Keys)
    ensures Interrupted(s, name, order, Named(s.forwarders[name].spec.ingressRules), WithGateways(s, name, order))
  {
  }

  lemma AttemptKeepsInv(s: System, name: string)
    requires Inv(s)
    ensures Inv(WithAttempt(s, name))
  {
    var t := WithAttempt(s, name);
    forall n | n in t.forwarders ensures ForwarderOk(t, n) {
      forall r | r in t.forwarders[n].spec.ingressRules ensures WellFormed(r) && RuleCovered(t, r) {
        assert n in s.forwarders && ForwarderOk(s, n);
        assert RuleCovered(s, r);
      }
    }
    forall g | g in t.gateways ensures GatewayOk(t, g) {
      assert GatewayOk(s, g);
    }
  }

  /** A completed reconcile establishes the invariant even if its own forwarder's rules were not covered: a retry
      that completes recovers from any interruption of the same ExternalService. */
  lemma ReconcileRecovers(s: System, es: ExternalService, view: ClusterView, order: seq<string>)
    requires Recoverable(s, es.name) && NewForwarderSpec(s, es, view).Some? && Enumerates(order, s.forwarders.Keys + {es.name})
    ensures var s1 := WithForwarder(s, es.name, NewForwarderSpec(s, es, view).value);
            Enumerates(order, s1.forwarders.Keys) && Inv(WithGateways(s1, es.name, order))
  {
    hide NewForwarderSpec, GetRuleName;
    var s1 := WithForwarder(s, es.name, NewForwarderSpec(s, es, view).value);
    assert s1.forwarders.Keys == s.forwarders.Keys + {es.name};
    var t := WithGateways(s1, es.name, order);
    CompletedIsInterrupted(s1, es.name, order);
    var pools := PoolsAfter(s, es, view);
    InterruptedGateways(s, s1, es.name, order, Named(s1.forwarders[es.name].spec.ingressRules), t, pools);
    forall n | n in t.forwarders ensures ForwarderOk(t, n) {}
  }

  /** So does a completed deletion. */
  lemma DeleteRecovers(s: System, name: string, order: seq<string>)
    requires Recoverable(s, name) && Enumerates(order, s.forwarders.Keys - {name})
    ensures Inv(WithoutForwarder(s, name, order))
  {
    hide GetRuleName;
    var rest := s.(forwarders := s.forwarders - {name});
    var t := WithoutForwarder(s, name, order);
    PoolsOfGateways(s);
    PoolsHoldOthers(s, name);
    var pools := UsedPortsForIngress(s.gateways);
    forall g | g in t.gateways ensures GatewayOk(t, g) {
      ProjectionOk(order, rest.forwarders, pools, g);
      DeletedGatewayAddress(s, name, rest, order, g);
    }
    forall n | n in t.forwarders ensures ForwarderOk(t, n) {
      forall r | r in t.forwarders[n].spec.ingressRules ensures WellFormed(r) && RuleCovered(t, r) {
        assert ForwarderOk(s, n) && RuleCovered(s, r);
        ProjectionOk(order, rest.forwarders, pools, r.gateway.name);
      }
    }
  }

  /** Every completed reconcile and every completed deletion keeps the invariant. */
  lemma ApplyKeepsInv(s: System, op: Op)
    requires Inv(s) && LegalOp(s, op)
    ensures Inv(Apply(s, op))
  {
    hide Inv, NewForwarderSpec;
    match op
    case Reconcile(es, view, order) =>
      if NewForwarderSpec(s, es, view).None? {
        AttemptKeepsInv(s, es.name);
      } else {
        InvIsRecoverable(s, es.name);
        ReconcileRecovers(s, es, view, order);
      }
    case Delete(name, order) =>
      InvIsRecoverable(s, name);
      DeleteRecovers(s, name, order);
  }

  /** A gateway that still has rules after a deletion had rules, and so an address, before. */
  lemma DeletedGatewayAddress(s: System, name: string, rest: System, order: seq<string>, g: string)
    requires Recoverable(s, name) && g in s.gateways && Enumerates(order, rest.forwarders.Keys)
    requires forall n :: n in rest.forwarders ==> n != name && n in s.forwarders && rest.forwarders[n] == s.forwarders[n]
    ensures Project(Ingress, order, rest.forwarders, g) != [] ==> GetRuleName(s.gateways[g].spec.gatewayIP) == Some(g)
  {
    var rules := Project(Ingress, order, rest.forwarders, g);
    if rules != [] {
      ProjectMeaning(Ingress, order, rest.forwarders, g, rules[0]);
      var n, r :| n in order && Stems(Ingress, rest.forwarders, n, r, g, rules[0]);
      assert ForwarderOk(s, n) && RuleCovered(s, r) && GatewayOk(s, g);
    }
  }

  /** Every set of names can be listed in some order. */
  lemma Listing(names: set<string>) returns (order: seq<string>)
    ensures Enumerates(order, names)
  {
    if names == {} {
      order := [];
    } else {
      var n :| n in names;
      var rest := Listing(names - {n});
      order := rest + [n];
    }
  }

  // ----- whole runs -----

  ghost predicate LegalRun(s: System, ops: seq<Op>)
    decreases |ops|
  {
    ops == [] || (LegalOp(s, ops[0]) && LegalRun(Apply(s, ops[0]), ops[1..]))
  }

  ghost function Run(s: System, ops: seq<Op>): System
    requires LegalRun(s, ops)
    decreases |ops|
  {
    if ops == [] then s else Run(Apply(s, ops[0]), ops[1..])
  }

  lemma {:induction false} RunKeepsInv(s: System, ops: seq<Op>)
    requires Inv(s) && LegalRun(s, ops)
    ensures Inv(Run(s, ops))
    decreases |ops|
  {
    if ops != [] {
      ApplyKeepsInv(s, ops[0]);
      RunKeepsInv(Apply(s, ops[0]), ops[1..]);
    }
  }

  /** On one gateway, the rules of any two forwarders share a relay port exactly when they are for one
      (source, target port) pair. */
  lemma PortsAreExclusive(s: System, m: string, n: string, r: ForwarderRule, q: ForwarderRule)
    requires Inv(s) && m in s.forwarders && n in s.forwarders
    requires r in s.forwarders[m].spec.ingressRules && q in s.forwarders[n].spec.ingressRules
    requires r.gateway == q.gateway
    ensures r.relayPort == q.relayPort <==> r.sourceIP == q.sourceIP && r.targetPort == q.targetPort
  {
    PoolsOfInv(s);
    var pools := UsedPortsForIngress(s.gateways);
    assert HeldAt(pools, r) && HeldAt(pools, q);
    assert Functional(PoolOf(pools, r.gateway.name));
    KeyInjective(r.sourceIP, r.targetPort, q.sourceIP, q.targetPort);
  }

  /** Port safety over every run from an empty cluster: reconciles and deletions of any ExternalServices
      in any order, with any view of the cluster, listing forwarders in any order. */
  lemma PortSafety(ops: seq<Op>, g: string, m: string, n: string, r: ForwarderRule, q: ForwarderRule)
    requires LegalRun(EMPTY_SYSTEM, ops)
    ensures Inv(Run(EMPTY_SYSTEM, ops))
    ensures var s := Run(EMPTY_SYSTEM, ops);
            && (g in s.gateways ==> Bijective(s.gateways[g].spec.ingressRules))
            && (m in s.forwarders && r in s.forwarders[m].spec.ingressRules ==> RuleCovered(s, r))
            && (m in s.forwarders && n in s.forwarders && r in s.forwarders[m].spec.ingressRules
                && q in s.forwarders[n].spec.ingressRules && r.gateway == q.gateway ==>
                  (r.relayPort == q.relayPort <==> r.sourceIP == q.sourceIP && r.targetPort == q.targetPort))
  {
    RunKeepsInv(EMPTY_SYSTEM, ops);
    var s := Run(EMPTY_SYSTEM, ops);
    if g in s.gateways {
      assert GatewayOk(s, g);
    }
    if m in s.forwarders && r in s.forwarders[m].spec.ingressRules {
      assert ForwarderOk(s, m);
      if n in s.forwarders && q in s.forwarders[n].spec.ingressRules && r.gateway == q.gateway {
        PortsAreExclusive(s, m, n, r, q);
      }
    }
  }

  // ----- interrupted reconciles -----

  /** Gateway g has an ingress rule for the key already. */
  ghost predicate Known(s: System, g: string, key: string) {
    g in s.gateways && exists q :: q in s.gateways[g].spec.ingressRules && GatewayKey(q) == key
  }

  /** The forwarder's rules and those of the gateways in `written` were written, and nothing else. */
  ghost predicate StoppedWith(s: System, name: string, spec: ForwarderSpec, order: seq<string>, written: set<string>, t: System) {
    var s1 := WithForwarder(s, name, spec);
    Enumerates(order, s1.forwarders.Keys) && Interrupted(s1, name, order, written, t)
  }

  /** The same with the rules that the pools determine */
  ghost predicate StoppedWriting(s: System, es: ExternalService, view: ClusterView, order: seq<string>, written: set<string>, t: System) {
    NewForwarderSpec(s, es, view).Some? && StoppedWith(s, es.name, NewForwarderSpec(s, es, view).value, order, written, t)
  }

  lemma StoppedMeans(s: System, es: ExternalService, view: ClusterView, order: seq<string>, written: set<string>, t: System)
    requires Recoverable(s, es.name) && StoppedWriting(s, es, view, order, written, t)
    ensures NewForwarderSpec(s, es, view).Some? && es.name in t.forwarders
    ensures t.forwarders[es.name].spec == NewForwarderSpec(s, es, view).value
    ensures GatewaysOk(t)
    ensures forall n, r :: n in t.forwarders && r in t.forwarders[n].spec.ingressRules ==>
              WellFormed(r) && (n != es.name || r.gateway.name in written ==> RuleCovered(t, r))
    ensures forall g :: g in t.gateways && g !in written ==> t.gateways[g].spec == GatewayOf(s, g).spec
    ensures s.gateways.Keys <= t.gateways.Keys
  {
    hide GetRuleName, NewForwarderSpec, GatewayOk, RuleCovered, WellFormed, Recoverable;
    var pools := PoolsAfter(s, es, view);
    InterruptedGateways(s, WithForwarder(s, es.name, NewForwarderSpec(s, es, view).value), es.name, order, written, t, pools);
  }

  /** However often a reconcile of one ExternalService is interrupted, only its own rules can be missing from gateways. */
  lemma InterruptedIsRecoverable(s: System, es: ExternalService, view: ClusterView, order: seq<string>, written: set<string>, t: System)
    requires Recoverable(s, es.name) && StoppedWriting(s, es, view, order, written, t)
    ensures Recoverable(t, es.name)
  {
    hide GetRuleName, NewForwarderSpec, GatewayOk, RuleCovered, WellFormed, StoppedWriting;
    StoppedMeans(s, es, view, order, written, t);
  }

  /** A gateway that was not reached reads back as before. */
  lemma UnreachedPoolSame(s: System, es: ExternalService, view: ClusterView, order: seq<string>, written: set<string>, t: System, g: string)
    requires Recoverable(s, es.name) && StoppedWriting(s, es, view, order, written, t) && g !in written
    ensures PoolOf(UsedPortsForIngress(t.gateways), g) == PoolOf(UsedPortsForIngress(s.gateways), g)
  {
    hide NewForwarderSpec, StoppedWriting, Recoverable, GatewayOk, WellFormed;
    StoppedMeans(s, es, view, order, written, t);
  }

  lemma KnownIffHeld(s: System, g: string, key: string)
    requires GatewaysOk(s)
    ensures Known(s, g, key) <==> Held(PoolOf(UsedPortsForIngress(s.gateways), g), key)
  {
    if g in s.gateways {
      assert GatewayOk(s, g);
      GatewayPoolMeaning(s.gateways[g].spec.ingressRules);
    }
  }

  /** A reconcile that fails between its writes keeps the invariant exactly when every key it asks of a
      gateway it did not reach was in that gateway's rules beforehand. */
  lemma InterruptionIsSafeIff(s: System, es: ExternalService, view: ClusterView, order: seq<string>, written: set<string>, t: System)
    requires Inv(s) && StoppedWriting(s, es, view, order, written, t)
    ensures ValidSources(es.sources)
    ensures Inv(t) <==> UnreachedKnown(s, IngressTemplates(es, view, es.sources), written)
  {
    hide *;
    InvIsRecoverable(s, es.name);
    StoppedMeans(s, es, view, order, written, t);
    GeneratedFrom(s, es, view);
    var ts := IngressTemplates(es, view, es.sources);
    var rules := NewForwarderSpec(s, es, view).value.ingressRules;
    forall i | 0 <= i < |ts| && ts[i].gateway.name !in written
      ensures RuleCovered(t, rules[i]) <==> Known(s, ts[i].gateway.name, RuleKey(ts[i]))
    {
      UnreachedIsCoveredIff(s, es, view, order, written, t, i);
    }
    AllKnownByIndex(s, ts, written);
    CoveredUpTo(t, es.name, ts, rules, written);
  }

  /** Every key that `ts` asks of a gateway outside `written` is in the gateway's rules. */
  ghost predicate UnreachedKnown(s: System, ts: seq<ForwarderRule>, written: set<string>) {
    forall r :: r in ts && r.gateway.name !in written ==> Known(s, r.gateway.name, RuleKey(r))
  }

  lemma AllKnownByIndex(s: System, ts: seq<ForwarderRule>, written: set<string>)
    ensures UnreachedKnown(s, ts, written) <==>
            forall i :: 0 <= i < |ts| && ts[i].gateway.name !in written ==> Known(s, ts[i].gateway.name, RuleKey(ts[i]))
  {
    hide Known, RuleKey;
    if forall i :: 0 <= i < |ts| && ts[i].gateway.name !in written ==> Known(s, ts[i].gateway.name, RuleKey(ts[i])) {
      forall r | r in ts && r.gateway.name !in written ensures Known(s, r.gateway.name, RuleKey(r)) {
        var i :| 0 <= i < |ts| && ts[i] == r;
      }
    }
  }

  lemma GeneratedFrom(s: System, es: ExternalService, view: ClusterView)
    requires GatewaysOk(s) && NewForwarderSpec(s, es, view).Some?
    ensures ValidSources(es.sources)
    ensures var ts := IngressTemplates(es, view, es.sources);
            var rules := NewForwarderSpec(s, es, view).value.ingressRules;
            |rules| == |ts| && forall i :: 0 <= i < |ts| ==> rules[i].gateway == ts[i].gateway && RuleKey(rules[i]) == RuleKey(ts[i])
  {
    hide GetRuleName, Serves, NewForwarderSpec, GatewaysOk, IngressTemplates, WellFormed, HeldAt;
    NewRulesHeld(s, es, view);
  }

  lemma UnreachedIsCoveredIff(s: System, es: ExternalService, view: ClusterView, order: seq<string>, written: set<string>, t: System, i: nat)
    requires Inv(s) && StoppedWriting(s, es, view, order, written, t) && ValidSources(es.sources)
    requires i < |IngressTemplates(es, view, es.sources)| == |NewForwarderSpec(s, es, view).value.ingressRules|
    requires IngressTemplates(es, view, es.sources)[i].gateway.name !in written
    ensures var tpl := IngressTemplates(es, view, es.sources)[i];
            RuleCovered(t, NewForwarderSpec(s, es, view).value.ingressRules[i]) <==> Known(s, tpl.gateway.name, RuleKey(tpl))
  {
    InvIsRecoverable(s, es.name);
    StoppedMeans(s, es, view, order, written, t);
    hide Inv, IngressTemplates, NewForwarderSpec, StoppedWriting, Recoverable, GatewaysOk, WellFormed, GetRuleName;
    UnreachedRuleCoveredIff(s, es, view, i);
  }

  /** The invariant hinges on the interrupted forwarder's rules for the gateways that were not reached. */
  lemma CoveredUpTo(t: System, name: string, ts: seq<ForwarderRule>, rules: seq<ForwarderRule>, written: set<string>)
    requires name in t.forwarders && t.forwarders[name].spec.ingressRules == rules
    requires |rules| == |ts| && forall i :: 0 <= i < |ts| ==> rules[i].gateway == ts[i].gateway
    requires GatewaysOk(t)
    requires forall n, r :: n in t.forwarders && r in t.forwarders[n].spec.ingressRules ==>
               WellFormed(r) && (n != name || r.gateway.name in written ==> RuleCovered(t, r))
    ensures Inv(t) <==>
            forall i :: 0 <= i < |ts| && ts[i].gateway.name !in written ==> RuleCovered(t, rules[i])
  {
    hide GatewayOk, WellFormed;
    if Inv(t) {
      forall i | 0 <= i < |ts| && ts[i].gateway.name !in written ensures RuleCovered(t, rules[i]) {
        assert ForwarderOk(t, name) && rules[i] in rules;
      }
    }
    if forall i :: 0 <= i < |ts| && ts[i].gateway.name !in written ==> RuleCovered(t, rules[i]) {
      forall n | n in t.forwarders ensures ForwarderOk(t, n) {
        forall r | r in t.forwarders[n].spec.ingressRules ensures WellFormed(r) && RuleCovered(t, r) {
          if n == name && r.gateway.name !in written {
            var i :| 0 <= i < |rules| && rules[i] == r;
            assert ts[i].gateway.name !in written;
          }
        }
      }
    }
  }

  /** The port generated for a template is in its gateway's old rules exactly when the key was. */
  lemma UnreachedRuleCoveredIff(s: System, es: ExternalService, view: ClusterView, i: nat)
    requires Inv(s) && NewForwarderSpec(s, es, view).Some? && ValidSources(es.sources)
    requires i < |IngressTemplates(es, view, es.sources)| == |NewForwarderSpec(s, es, view).value.ingressRules|
    ensures var r := NewForwarderSpec(s, es, view).value.ingressRules[i];
            var t := IngressTemplates(es, view, es.sources)[i];
            && r.gateway == t.gateway
            && (Covers(GatewayOf(s, r.gateway.name).spec.ingressRules, r.relayPort, RuleKey(r)) <==>
                Known(s, t.gateway.name, RuleKey(t)))
  {
    NewRulesHeld(s, es, view);
    PoolsOfInv(s);
    var ts := IngressTemplates(es, view, es.sources);
    var ds := Demands(Ingress, ts);
    var g, key := ts[i].gateway.name, RuleKey(ts[i]);
    assert ds[i] == Demand(g, key);
    if Known(s, g, key) {
      var rules := s.gateways[g].spec.ingressRules;
      var q :| q in rules && GatewayKey(q) == key;
      assert GatewayOk(s, g);
      GatewayPoolMeaning(rules);
      HeldKeyKeepsPort(ds, UsedPortsForIngress(s.gateways), i, q.relayPort);
    }
  }

  // ----- stability -----

  /** Forwarder n relays key on gateway g through `port` and through no other. */
  ghost predicate Relays(s: System, n: string, g: string, key: string, port: string) {
    && n in s.forwarders
    && (exists r :: r in s.forwarders[n].spec.ingressRules && r.gateway.name == g && RuleKey(r) == key)
    && (forall r :: r in s.forwarders[n].spec.ingressRules && r.gateway.name == g && RuleKey(r) == key ==> r.relayPort == port)
  }

  /** The operation leaves the ExternalService n in place, and if it reconciles n, n still asks for the key. */
  ghost predicate StillDemands(op: Op, n: string, g: string, key: string) {
    match op
    case Delete(name, _) => name != n
    case Reconcile(es, view, _) =>
      es.name == n && ValidSources(es.sources) ==>
        exists t :: t in IngressTemplates(es, view, es.sources) && t.gateway.name == g && RuleKey(t) == key
  }

  lemma StableStep(s: System, op: Op, n: string, g: string, key: string, port: string)
    requires Inv(s) && LegalOp(s, op) && Relays(s, n, g, key, port) && StillDemands(op, n, g, key)
    ensures Relays(Apply(s, op), n, g, key, port)
  {
    hide GetRuleName, Inv, NewForwarderSpec;
    if op.Reconcile? && op.es.name == n && NewForwarderSpec(s, op.es, op.view).Some? {
      OwnReconcileRelays(s, op.es, op.view, g, key, port);
    }
  }

  lemma OwnReconcileRelays(s: System, es: ExternalService, view: ClusterView, g: string, key: string, port: string)
    requires Inv(s) && Relays(s, es.name, g, key, port) && NewForwarderSpec(s, es, view).Some?
    requires ValidSources(es.sources) ==>
               exists t :: t in IngressTemplates(es, view, es.sources) && t.gateway.name == g && RuleKey(t) == key
    ensures Relays(WithForwarder(s, es.name, NewForwarderSpec(s, es, view).value), es.name, g, key, port)
  {
    hide GetRuleName, Serves, NewForwarderSpec, IngressTemplates, WellFormed, UsedPortsForIngress, Assign;
    NewRulesHeld(s, es, view);
    var ts := IngressTemplates(es, view, es.sources);
    var ds := Demands(Ingress, ts);
    var pools := UsedPortsForIngress(s.gateways);
    var rules := NewForwarderSpec(s, es, view).value.ingressRules;
    assert AllFunctional(pools) && port in PoolOf(pools, g) && PoolOf(pools, g)[port] == key by {
      PoolsOfInv(s);
      var was :| was in s.forwarders[es.name].spec.ingressRules && was.gateway.name == g && RuleKey(was) == key;
      assert HeldAt(pools, was);
    }
    forall i | 0 <= i < |ts| && ts[i].gateway.name == g && RuleKey(ts[i]) == key ensures rules[i].relayPort == port {
      assert ds[i] == Demand(g, key);
      HeldKeyKeepsPort(ds, pools, i, port);
    }
    var t :| t in ts && t.gateway.name == g && RuleKey(t) == key;
    var i :| 0 <= i < |ts| && ts[i] == t;
    assert rules[i] in rules && rules[i].gateway.name == g && RuleKey(rules[i]) == key;
  }

  ghost predicate AllStillDemand(ops: seq<Op>, n: string, g: string, key: string) {
    forall op :: op in ops ==> StillDemands(op, n, g, key)
  }

  /** While an ExternalService keeps demanding a key on a gateway, its relay port never changes, whatever
      is reconciled or deleted in between. */
  lemma {:induction false} StablePorts(s: System, ops: seq<Op>, n: string, g: string, key: string, port: string)
    requires Inv(s) && LegalRun(s, ops) && Relays(s, n, g, key, port) && AllStillDemand(ops, n, g, key)
    ensures Relays(Run(s, ops), n, g, key, port)
    decreases |ops|
  {
    if ops != [] {
      ApplyKeepsInv(s, ops[0]);
      StableStep(s, ops[0], n, g, key, port);
      StablePorts(Apply(s, ops[0]), ops[1..], n, g, key, port);
    }
  }

  // ----- repetition -----

  lemma {:induction false} ProjectCongruent(order: seq<string>, a: map<string, Forwarder>, b: map<string, Forwarder>, g: string)
    requires forall n :: n in order ==> n in a && n in b
    requires forall n :: n in order ==> a[n].spec.ingressRules == b[n].spec.ingressRules
                                        && a[n].spec.forwarderIP == b[n].spec.forwarderIP
    ensures Project(Ingress, order, a, g) == Project(Ingress, order, b, g)
  {
    if order != [] {
      ProjectCongruent(order[..|order| - 1], a, b, g);
    }
  }

  /** A forwarder that holds the rules of an ExternalService gets the same ingress rules generated again, in order. */
  lemma SameGeneration(t: System, es: ExternalService, view: ClusterView, ports: seq<string>)
    requires Inv(t) && NewForwarderSpec(t, es, view).Some? && ValidSources(es.sources)
    requires var ts := IngressTemplates(es, view, es.sources);
             && |ports| == |ts| && es.name in t.forwarders
             && t.forwarders[es.name].spec.ingressRules == Fill(ts, ports)
    ensures NewForwarderSpec(t, es, view).value.ingressRules == t.forwarders[es.name].spec.ingressRules
  {
    hide GetRuleName, Serves, EgressRules;
    PoolsOfInv(t);
    NewRulesHeld(t, es, view);
    var ts := IngressTemplates(es, view, es.sources);
    var ds := Demands(Ingress, ts);
    var pools := UsedPortsForIngress(t.gateways);
    var rules := Fill(ts, ports);
    var again := NewForwarderSpec(t, es, view).value.ingressRules;
    forall i | 0 <= i < |ts| ensures again[i] == rules[i] {
      assert rules[i] in rules && HeldAt(pools, rules[i]);
      assert ds[i] == DemandOf(Ingress, ts[i]);
      HeldKeyKeepsPort(ds, pools, i, rules[i].relayPort);
    }
    assert again == rules;
  }

  /** The forwarder of `es` and the gateways it names hold what a completed reconcile wrote. */
  ghost predicate JustReconciled(t: System, es: ExternalService, view: ClusterView, order: seq<string>) {
    && es.name in t.forwarders && Enumerates(order, t.forwarders.Keys) && ValidSources(es.sources)
    && var spec := t.forwarders[es.name].spec;
       var ts := IngressTemplates(es, view, es.sources);
       && view.podIP == Some(spec.forwarderIP)
       && (exists ports :: |ports| == |ts| && spec.ingressRules == Fill(ts, ports))
       && (forall g :: g in Named(spec.ingressRules) ==>
             g in t.gateways && t.gateways[g].spec.ingressRules == Project(Ingress, order, t.forwarders, g))
  }

  lemma ReconcileCompletes(s: System, es: ExternalService, view: ClusterView, order: seq<string>)
    requires Inv(s) && LegalOp(s, Reconcile(es, view, order)) && NewForwarderSpec(s, es, view).Some?
    ensures JustReconciled(Apply(s, Reconcile(es, view, order)), es, view, order)
  {
    NewRulesHeld(s, es, view);
    SpecAddress(s, es, view);
    hide Inv, NewForwarderSpec, GetRuleName, Serves;
    AfterReconcile(s, es.name, NewForwarderSpec(s, es, view).value, order);
  }

  lemma SpecAddress(s: System, es: ExternalService, view: ClusterView)
    ensures NewForwarderSpec(s, es, view).Some? ==>
              view.podIP == Some(NewForwarderSpec(s, es, view).value.forwarderIP)
  {
    hide EgressRules, IngressRules;
  }

  lemma AfterReconcile(s: System, name: string, spec: ForwarderSpec, order: seq<string>)
    requires Enumerates(order, s.forwarders.Keys + {name})
    ensures var s1 := WithForwarder(s, name, spec);
            && Enumerates(order, s1.forwarders.Keys)
            && var t := WithGateways(s1, name, order);
               && t.forwarders == s1.forwarders
               && t.forwarders.Keys + {name} == t.forwarders.Keys == s.forwarders.Keys + {name}
               && t.forwarders[name].spec == spec
               && forall g :: g in Named(spec.ingressRules) ==>
                    g in t.gateways && t.gateways[g].spec.ingressRules == Project(Ingress, order, t.forwarders, g)
  {
    assert WithForwarder(s, name, spec).forwarders.Keys == s.forwarders.Keys + {name};
  }
}
