// What gets into printed rules over whole runs: ports of the range, and no separator in any component of a key.
module Printed {
  import opened Text
  import opened Address
  import opened Api
  import opened PortPool
  import opened RuleGen
  import opened Operator
  import opened Ledger
  import opened EgressCapacity

  ghost predicate TidyRule(r: ForwarderRule) {
    IsPort(r.relayPort) && ':' !in r.destinationIP && ':' !in r.destinationPort
  }

  ghost predicate TidyGatewayRule(q: GatewayRule) {
    IsPort(q.relayPort) && ':' !in q.targetPort
  }

  ghost predicate TidyForwarder(spec: ForwarderSpec) {
    NoColonInPorts(spec.egressRules) && forall r :: r in spec.ingressRules ==> TidyRule(r) && WellFormed(r)
  }

  ghost predicate Tidy(s: System) {
    && (forall n :: n in s.forwarders ==> TidyForwarder(s.forwarders[n].spec))
    && (forall g, q :: g in s.gateways && q in s.gateways[g].spec.ingressRules ==> TidyGatewayRule(q))
  }

  /** The service addresses a reconcile reads are not IPv6. */
  ghost predicate TidyView(view: ClusterView) {
    forall svc :: svc in view.services ==> ':' !in view.services[svc].clusterIP
  }

  /** Target ports, numbers or names of ports, contain no colon. */
  ghost predicate TidyPorts(es: ExternalService) {
    forall p :: p in es.ports ==> ':' !in p.targetPort
  }

  ghost predicate TidyOp(op: Op) {
    op.Reconcile? ==> TidyView(op.view) && TidyPorts(op.es)
  }

  lemma IsPortTidy(p: string)
    requires IsPort(p)
    ensures ':' !in p
  {
    var n :| 2049 <= n <= 65536 && p == Itoa(n);
    ItoaHasNoSeparator(n);
  }

  lemma ForwarderTidy(s: System, n: string)
    requires Tidy(s) && n in s.forwarders
    ensures TidyForwarder(s.forwarders[n].spec)
    ensures forall r :: r in s.forwarders[n].spec.ingressRules ==> TidyRule(r) && WellFormed(r)
  {
    hide TidyRule, WellFormed;
  }

  /** What projecting tidy forwarders gives */
  lemma TidyProjection(fwds: map<string, Forwarder>, order: seq<string>, g: string)
    requires forall n :: n in order ==> n in fwds
    requires forall n :: n in fwds ==> TidyForwarder(fwds[n].spec)
    ensures forall q :: q in Project(Ingress, order, fwds, g) ==> TidyGatewayRule(q)
  {
    forall q | q in Project(Ingress, order, fwds, g) ensures TidyGatewayRule(q) {
      ProjectMeaning(Ingress, order, fwds, g, q);
      var n, r :| n in order && Stems(Ingress, fwds, n, r, g, q);
      assert TidyForwarder(fwds[n].spec) && TidyRule(r) && WellFormed(r);
    }
  }

  /** Pools read back from tidy gateways hold ports of the range. */
  lemma TidyPools(s: System, g: string, p: string)
    requires GatewaysOk(s) && Tidy(s) && p in PoolOf(UsedPortsForIngress(s.gateways), g)
    ensures IsPort(p)
  {
    assert GatewayOk(s, g);
    GatewayPoolMeaning(s.gateways[g].spec.ingressRules);
    var rules := s.gateways[g].spec.ingressRules;
    assert Covers(rules, p, UsedPortsOfGateway(rules)[p]);
    var q :| q in rules && q.relayPort == p;
    assert TidyGatewayRule(q);
  }

  lemma IngressTemplateIsTidy(es: ExternalService, view: ClusterView, i: nat)
    requires ValidSources(es.sources) && TidyView(view) && i < |IngressTemplates(es, view, es.sources)|
    ensures var t := IngressTemplates(es, view, es.sources)[i]; ':' !in t.destinationIP && ':' !in t.destinationPort
  {
    hide GetRuleName;
    var t := IngressTemplates(es, view, es.sources)[i];
    assert es.sources[..|es.sources|] == es.sources;
    IngressTemplatesMeaning(es, view, |es.sources|, t);
    var src, port :| src in es.sources[..|es.sources|] && AsksIngress(es, view, src, port, t);
    ItoaHasNoSeparator(port.port);
  }

  lemma EgressTemplateIsTidy(es: ExternalService, view: ClusterView, i: nat)
    requires ValidSources(es.sources) && TidyPorts(es) && i < |EgressTemplates(es, view, es.sources)|
    ensures ':' !in EgressTemplates(es, view, es.sources)[i].targetPort
  {
    hide GetRuleName;
    var t := EgressTemplates(es, view, es.sources)[i];
    assert es.sources[..|es.sources|] == es.sources;
    EgressTemplatesMeaning(es, view, |es.sources|, t);
    var src, port, addr :| src in es.sources[..|es.sources|] && AsksEgress(es, view, src, port, addr, t);
  }

  lemma EgressRulesTidy(es: ExternalService, view: ClusterView, used: Pool)
    requires TidyPorts(es) && EgressRules(es, view, used).Some?
    ensures NoColonInPorts(EgressRules(es, view, used).value)
  {
    assert ValidSources(es.sources);
    hide GetRuleName, EgressTemplates, ValidSources, Assign;
    var ts, rules := EgressTemplates(es, view, es.sources), EgressRules(es, view, used).value;
    forall r | r in rules ensures ':' !in r.targetPort {
      var i :| 0 <= i < |rules| && rules[i] == r;
      EgressTemplateIsTidy(es, view, i);
    }
  }

  /** The two halves of what a reconcile writes into its forwarder */
  lemma SpecParts(s: System, es: ExternalService, view: ClusterView)
    requires NewForwarderSpec(s, es, view).Some?
    ensures var spec := NewForwarderSpec(s, es, view).value;
            && EgressRules(es, view, UsedPortsForEgress(ForwarderOf(s, es.name).spec.egressRules)) == Some(spec.egressRules)
            && IngressRules(es, view, UsedPortsForIngress(s.gateways)) == Some(spec.ingressRules)
            && view.podIP == Some(spec.forwarderIP)
  {
    hide EgressRules, IngressRules;
  }

  lemma TidyPort(s: System, es: ExternalService, view: ClusterView, r: ForwarderRule)
    requires GatewaysOk(s) && Tidy(s) && NewForwarderSpec(s, es, view).Some?
    requires r in NewForwarderSpec(s, es, view).value.ingressRules
    ensures WellFormed(r) && IsPort(r.relayPort)
  {
    hide GetRuleName, NewForwarderSpec, GatewaysOk, Tidy, EgressRules, IngressTemplates, IsPort;
    NewRulesHeld(s, es, view);
    var pools := UsedPortsForIngress(s.gateways);
    var ds := Demands(Ingress, IngressTemplates(es, view, es.sources));
    var a := Assign(ds, pools).value;
    var g := r.gateway.name;
    assert HeldAt(a.pools, r);
    if r.relayPort in PoolOf(pools, g) {
      TidyPools(s, g, r.relayPort);
    } else {
      assert r.relayPort in PoolOf(a.pools, g);
    }
  }

  lemma TidyDestination(s: System, es: ExternalService, view: ClusterView, r: ForwarderRule)
    requires GatewaysOk(s) && TidyView(view) && NewForwarderSpec(s, es, view).Some?
    requires r in NewForwarderSpec(s, es, view).value.ingressRules
    ensures ':' !in r.destinationIP && ':' !in r.destinationPort
  {
    hide GetRuleName, NewForwarderSpec, GatewaysOk, IngressTemplates, Assign, TidyView, Serves, WellFormed, HeldAt;
    NewRulesHeld(s, es, view);
    var rules := NewForwarderSpec(s, es, view).value.ingressRules;
    var i :| 0 <= i < |rules| && rules[i] == r;
    IngressTemplateIsTidy(es, view, i);
  }

  lemma NewForwarderTidy(s: System, es: ExternalService, view: ClusterView)
    requires GatewaysOk(s) && Tidy(s) && TidyView(view) && TidyPorts(es) && NewForwarderSpec(s, es, view).Some?
    ensures TidyForwarder(NewForwarderSpec(s, es, view).value)
  {
    hide GetRuleName, NewForwarderSpec, GatewaysOk, Tidy, TidyView, TidyPorts, WellFormed, EgressRules, IngressRules, NoColonInPorts, IsPort;
    SpecParts(s, es, view);
    EgressRulesTidy(es, view, UsedPortsForEgress(ForwarderOf(s, es.name).spec.egressRules));
    var rules := NewForwarderSpec(s, es, view).value.ingressRules;
    forall r | r in rules ensures TidyRule(r) && WellFormed(r) {
      TidyPort(s, es, view, r);
      TidyDestination(s, es, view, r);
    }
  }

  lemma ApplyKeepsTidy(s: System, op: Op)
    requires GatewaysOk(s) && Tidy(s) && LegalOp(s, op) && TidyOp(op)
    ensures Tidy(Apply(s, op))
  {
    hide GatewaysOk, TidyForwarder, TidyGatewayRule, NewForwarderSpec, TidyView, TidyPorts, GetRuleName, Project;
    assert TidyForwarder(EMPTY_FORWARDER) by { EmptyIsTidy(); }
    match op
    case Reconcile(es, view, order) =>
      if NewForwarderSpec(s, es, view).Some? {
        NewForwarderTidy(s, es, view);
        var s1 := WithForwarder(s, es.name, NewForwarderSpec(s, es, view).value);
        assert s1.forwarders.Keys == s.forwarders.Keys + {es.name};
        forall g ensures forall q :: q in Project(Ingress, order, s1.forwarders, g) ==> TidyGatewayRule(q) {
          TidyProjection(s1.forwarders, order, g);
        }
      }
    case Delete(name, order) =>
      var rest := s.forwarders - {name};
      forall g ensures forall q :: q in Project(Ingress, order, rest, g) ==> TidyGatewayRule(q) {
        TidyProjection(rest, order, g);
      }
  }

  lemma EmptyIsTidy()
    ensures TidyForwarder(EMPTY_FORWARDER)
  {
  }

  /** Over every run the rules stay printable: relay ports are of the range, and no ':' gets into a component
      of a key. */
  lemma {:induction false} RunKeepsTidy(s: System, ops: seq<Op>)
    requires Inv(s) && Tidy(s) && LegalRun(s, ops) && forall op :: op in ops ==> TidyOp(op)
    ensures Inv(Run(s, ops)) && Tidy(Run(s, ops))
    decreases |ops|
  {
    hide Inv, GatewaysOk, Tidy, TidyOp, Apply, LegalOp;
    if ops != [] {
      assert ops[0] in ops;
      ApplyKeepsInv(s, ops[0]);
      InvIsRecoverable(s, "");
      ApplyKeepsTidy(s, ops[0]);
      RunKeepsTidy(Apply(s, ops[0]), ops[1..]);
    }
  }

  lemma TidyAtStart()
    ensures Inv(EMPTY_SYSTEM) && Tidy(EMPTY_SYSTEM)
  {
  }

  /** The pools a reconcile of `name` reads back are functions. */
  ghost predicate PoolsFunctional(s: System, name: string) {
    Functional(UsedPortsForEgress(ForwarderOf(s, name).spec.egressRules)) && AllFunctional(UsedPortsForIngress(s.gateways))
  }

  /** From functional pools a reconcile has at most one outcome, the specified one. */
  lemma FunctionalPoolsDecide(s: System, es: ExternalService, view: ClusterView, spec: ForwarderSpec)
    requires PoolsFunctional(s, es.name)
    ensures MayGenerateSpec(s, es, view, spec) <==> NewForwarderSpec(s, es, view) == Some(spec)
  {
    var egress := UsedPortsForEgress(ForwarderOf(s, es.name).spec.egressRules);
    var ingress := UsedPortsForIngress(s.gateways);
    assert AllFunctional(ingress);
    OnePoolFunctional(egress);
    hide GetRuleName, EgressTemplates, IngressTemplates, MayGenerate, Generate, AllFunctional, UsedPortsForEgress, UsedPortsForIngress, PoolsFunctional, ValidSources;
    if ValidSources(es.sources) {
      OutcomeIsGenerated(Egress, EgressTemplates(es, view, es.sources), map["" := egress], spec.egressRules);
      OutcomeIsGenerated(Ingress, IngressTemplates(es, view, es.sources), ingress, spec.ingressRules);
    }
  }

  lemma OnePoolFunctional(pool: Pool)
    requires Functional(pool)
    ensures AllFunctional(map["" := pool])
  {
  }

  /** Over every run all pools that are read back are functions, so no result depends on map order. */
  lemma PoolsStayFunctional(ops: seq<Op>, name: string)
    requires LegalRun(EMPTY_SYSTEM, ops) && forall op :: op in ops ==> TidyOp(op)
    ensures PoolsFunctional(Run(EMPTY_SYSTEM, ops), name)
  {
    TidyAtStart();
    RunKeepsTidy(EMPTY_SYSTEM, ops);
    var s := Run(EMPTY_SYSTEM, ops);
    hide Inv, Tidy, GatewaysOk, TidyForwarder, Run;
    InvIsRecoverable(s, name);
    PoolsOfGateways(s);
    EgressStaysTidy(s, name);
    EgressPoolHoldsNoKey(ForwarderOf(s, name).spec.egressRules, ":");
  }

  lemma EgressStaysTidy(s: System, name: string)
    requires Tidy(s)
    ensures NoColonInPorts(ForwarderOf(s, name).spec.egressRules)
  {
  }

  // ----- a forwarder stays as it is until its ExternalService is touched again -----

  ghost predicate Concerns(op: Op, name: string) {
    match op
    case Reconcile(es, _, _) => es.name == name
    case Delete(n, _) => n == name
  }

  lemma {:induction false} ForwarderKept(s: System, ops: seq<Op>, name: string)
    requires LegalRun(s, ops) && name in s.forwarders && forall op :: op in ops ==> !Concerns(op, name)
    ensures name in Run(s, ops).forwarders && Run(s, ops).forwarders[name] == s.forwarders[name]
    decreases |ops|
  {
    hide NewForwarderSpec;
    if ops != [] {
      assert ops[0] in ops;
      assert name in Apply(s, ops[0]).forwarders && Apply(s, ops[0]).forwarders[name] == s.forwarders[name];
      ForwarderKept(Apply(s, ops[0]), ops[1..], name);
    }
  }

  /** The state in which a reconcile completed, then anything that does not concern its ExternalService */
  ghost predicate Settled(ops: seq<Op>, op: Op, more: seq<Op>) {
    && op.Reconcile? && LegalRun(EMPTY_SYSTEM, ops)
    && (forall o :: o in ops ==> TidyOp(o)) && TidyOp(op)
    && var before := Run(EMPTY_SYSTEM, ops);
       && LegalOp(before, op) && NewForwarderSpec(before, op.es, op.view).Some?
       && LegalRun(Apply(before, op), more)
       && (forall o :: o in more ==> TidyOp(o) && !Concerns(o, op.es.name))
  }

  ghost function SettledState(ops: seq<Op>, op: Op, more: seq<Op>): System
    requires Settled(ops, op, more)
  {
    Run(Apply(Run(EMPTY_SYSTEM, ops), op), more)
  }

  lemma SettledSucceeds(ops: seq<Op>, op: Op, more: seq<Op>)
    requires Settled(ops, op, more)
    ensures op.Reconcile? && LegalRun(EMPTY_SYSTEM, ops) && NewForwarderSpec(Run(EMPTY_SYSTEM, ops), op.es, op.view).Some?
  {
  }

  /** What is known of it */
  lemma SettledMeans(ops: seq<Op>, op: Op, more: seq<Op>)
    requires Settled(ops, op, more)
    ensures var before, s := Run(EMPTY_SYSTEM, ops), SettledState(ops, op, more);
            && Inv(before) && Tidy(before) && Inv(s) && Tidy(s)
            && op.es.name in s.forwarders
            && s.forwarders[op.es.name].spec == NewForwarderSpec(before, op.es, op.view).value
  {
    TidyAtStart();
    RunKeepsTidy(EMPTY_SYSTEM, ops);
    var before := Run(EMPTY_SYSTEM, ops);
    hide Inv, Tidy, Run, NewForwarderSpec, TidyOp, GatewaysOk;
    InvIsRecoverable(before, "");
    ApplyKeepsInv(before, op);
    ApplyKeepsTidy(before, op);
    var mid := Apply(before, op);
    RunKeepsTidy(mid, more);
    AfterReconcile(before, op.es.name, NewForwarderSpec(before, op.es, op.view).value, op.order);
    ForwarderKept(mid, more, op.es.name);
  }
}
