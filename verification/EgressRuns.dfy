// Outward routing over whole runs, and when the gateways that egress tunnels lead through exist.
module EgressRuns {
  import opened Text
  import opened Address
  import opened Api
  import opened PortPool
  import opened RuleGen
  import opened Operator
  import opened Ledger
  import opened Printed
  import opened EgressCapacity
  import opened NatTable
  import opened Tunnels
  import opened ForwarderAgent
  import opened EgressRouting

  /** The forwarder of a settled run holds what generation made from colon-free rules. */
  lemma SettledEgress(ops: seq<Op>, op: Op, more: seq<Op>) returns (before: seq<ForwarderRule>)
    requires Settled(ops, op, more)
    ensures op.es.name in SettledState(ops, op, more).forwarders && NoColonInPorts(before)
    ensures var spec := SettledState(ops, op, more).forwarders[op.es.name].spec;
            && EgressRules(op.es, op.view, UsedPortsForEgress(before)) == Some(spec.egressRules)
            && op.view.podIP == Some(spec.forwarderIP)
  {
    hide *;
    SettledSucceeds(ops, op, more);
    SettledMeans(ops, op, more);
    var s := Run(EMPTY_SYSTEM, ops);
    SpecParts(s, op.es, op.view);
    EgressStaysTidy(s, op.es.name);
    before := ForwarderOf(s, op.es.name).spec.egressRules;
  }

  /** No component of an egress tunnel key contains a colon. */
  ghost predicate NoColonInAddresses(es: ExternalService, view: ClusterView) {
    ':' !in es.targetIP && (view.podIP.Some? ==> ':' !in view.podIP.value)
  }

  lemma SettledNoColons(ops: seq<Op>, op: Op, more: seq<Op>, fip: string)
    requires Settled(ops, op, more) && NoColonInAddresses(op.es, op.view) && op.view.podIP == Some(fip)
    ensures NoColons(op.es, fip)
  {
  }

  /** Over every run: after a completed reconcile and anything that does not concern its ExternalService, with the
      forwarder's rules applied, a connection from an endpoint of a source to a target port of the forwarder is sent
      to a relay port where, of all tunnels that run, exactly one listens, which leads through that source's IP to
      the target, if and only if everybody who asks for that address and port asks for the same way out. */
  lemma EndpointReachesTarget(ops: seq<Op>, op: Op, more: seq<Op>, f: Reconciler, addr: string, src: Source, port: Port)
    returns (relay: string)
    requires Settled(ops, op, more) && op.es.name in SettledState(ops, op, more).forwarders
    requires f.Valid() && f.NoOrphans() && f.Applied(SettledState(ops, op, more).forwarders[op.es.name].spec)
    requires NoColonInAddresses(op.es, op.view) && Asks(op.es, op.view, addr, port.targetPort, src, port)
    ensures IsPort(relay) && PREROUTING in f.table.chains
    ensures var fip := SettledState(ops, op, more).forwarders[op.es.name].spec.forwarderIP;
            && Evaluate(f.table.chains, f.table.chains[PREROUTING], Packet(addr, fip, port.targetPort)) == Some(DNAT(Endpoint(fip, relay)))
            && (OnlyLive(f, Wanted(op.es, fip, relay, src, port)) <==> SoleDemand(op.es, op.view, addr, src, port))
  {
    hide *;
    SettledSucceeds(ops, op, more);
    var before := SettledEgress(ops, op, more);
    var spec := SettledState(ops, op, more).forwarders[op.es.name].spec;
    SettledNoColons(ops, op, more, spec.forwarderIP);
    relay := DemandedReachesOneTunnel(f, op.es, op.view, before, spec, addr, src, port);
  }

  /** Over every run the forwarder rewrites exactly what its ExternalService asks for. */
  lemma OnlyEndpointsAreRewritten(ops: seq<Op>, op: Op, more: seq<Op>, chains: Chains, p: Packet)
    requires Settled(ops, op, more) && op.es.name in SettledState(ops, op, more).forwarders
    requires chains == Replaced(chains, ExpectedRules(SettledState(ops, op, more).forwarders[op.es.name].spec))
    requires NoColonInAddresses(op.es, op.view)
    ensures PREROUTING in chains
    ensures Evaluate(chains, chains[PREROUTING], p).Some? <==>
            p.dst == SettledState(ops, op, more).forwarders[op.es.name].spec.forwarderIP && Asked(op.es, op.view, p.src, p.dport)
  {
    hide *;
    SettledSucceeds(ops, op, more);
    var before := SettledEgress(ops, op, more);
    var spec := SettledState(ops, op, more).forwarders[op.es.name].spec;
    SettledNoColons(ops, op, more, spec.forwarderIP);
    OnlyDemandedIsRewritten(op.es, op.view, before, spec, chains, p);
  }

  // ----- the gateways at the far end of egress tunnels -----

  /** The source has endpoints to forward and ports to forward them to. */
  ghost predicate Sends(es: ExternalService, view: ClusterView, src: Source) {
    src in es.sources && es.ports != [] && src.service in view.endpoints && view.endpoints[src.service] != []
  }

  /** The source's gateway exists already, or the service of a source with the same address has a port. */
  ghost predicate GatewayReached(s: System, es: ExternalService, view: ClusterView, src: Source) {
    GetRuleName(src.sourceIP).Some? ==>
      || GetRuleName(src.sourceIP).value in s.gateways
      || exists other, port :: HasPort(es, view, other, port) && other.sourceIP == src.sourceIP
  }

  ghost predicate HasPort(es: ExternalService, view: ClusterView, src: Source, port: ServicePort) {
    src in es.sources && src.service in view.services && port in view.services[src.service].ports
  }

  lemma FillNames(ts: seq<ForwarderRule>, ports: seq<string>, g: string)
    requires |ts| == |ports|
    ensures g in Named(Fill(ts, ports)) <==> g in Named(ts)
  {
    var rules := Fill(ts, ports);
    if r :| r in rules && r.gateway.name == g {
      var i :| 0 <= i < |rules| && rules[i] == r;
      assert ts[i] in ts && ts[i].gateway.name == g;
    }
    if t :| t in ts && t.gateway.name == g {
      var i :| 0 <= i < |ts| && ts[i] == t;
      assert rules[i] in rules && rules[i].gateway.name == g;
    }
  }

  lemma AskerSends(es: ExternalService, view: ClusterView, src: Source, port: Port, addr: string, t: ForwarderRule)
    requires AsksEgress(es, view, src, port, addr, t)
    ensures Sends(es, view, src) && GetRuleName(src.sourceIP) == Some(t.gateway.name)
  {
    hide GetRuleName;
  }

  lemma SenderAsks(es: ExternalService, view: ClusterView, src: Source) returns (port: Port, addr: string, t: ForwarderRule)
    requires Sends(es, view, src) && GetRuleName(src.sourceIP).Some?
    ensures src in es.sources && AsksEgress(es, view, src, port, addr, t) && GetRuleName(src.sourceIP) == Some(t.gateway.name)
  {
    hide GetRuleName;
    port, addr := es.ports[0], view.EndpointAddrs(src.service)[0];
    t := EgressTemplate(es, src, port, addr);
  }

  /** Egress rules name the gateways of the sources that send. */
  lemma EgressNames(es: ExternalService, view: ClusterView, used: Pool, g: string)
    requires EgressRules(es, view, used).Some?
    ensures g in Named(EgressRules(es, view, used).value) <==>
            exists src :: Sends(es, view, src) && GetRuleName(src.sourceIP) == Some(g)
  {
    var ports := FilledEgress(es, view, used);
    hide GetRuleName, EgressTemplates, EgressRules, Sends, AsksEgress, Fill, ValidSources;
    var ts := EgressTemplates(es, view, es.sources);
    FillNames(ts, ports, g);
    assert es.sources[..|es.sources|] == es.sources;
    if t :| t in ts && t.gateway.name == g {
      EgressTemplatesMeaning(es, view, |es.sources|, t);
      var src, port, addr :| AsksEgress(es, view, src, port, addr, t);
      AskerSends(es, view, src, port, addr, t);
    }
    if src :| Sends(es, view, src) && GetRuleName(src.sourceIP) == Some(g) {
      var port, addr, t := SenderAsks(es, view, src);
      EgressTemplatesMeaning(es, view, |es.sources|, t);
    }
  }

  lemma FilledEgress(es: ExternalService, view: ClusterView, used: Pool) returns (ports: seq<string>)
    requires EgressRules(es, view, used).Some?
    ensures ValidSources(es.sources)
    ensures var ts := EgressTemplates(es, view, es.sources);
            |ports| == |ts| && EgressRules(es, view, used).value == Fill(ts, ports)
  {
    assert ValidSources(es.sources);
    hide GetRuleName, EgressTemplates, Fill;
    ports := Assign(Demands(Egress, EgressTemplates(es, view, es.sources)), map["" := used]).value.ports;
  }

  lemma AskerHasPort(es: ExternalService, view: ClusterView, src: Source, port: ServicePort, t: ForwarderRule)
    requires AsksIngress(es, view, src, port, t)
    ensures HasPort(es, view, src, port) && GetRuleName(src.sourceIP) == Some(t.gateway.name)
  {
    hide GetRuleName;
  }

  lemma PortAsks(es: ExternalService, view: ClusterView, src: Source, port: ServicePort) returns (t: ForwarderRule)
    requires HasPort(es, view, src, port) && GetRuleName(src.sourceIP).Some?
    ensures src in es.sources && AsksIngress(es, view, src, port, t) && GetRuleName(src.sourceIP) == Some(t.gateway.name)
  {
    hide GetRuleName;
    t := IngressTemplate(es, src, view.ServiceFor(src.service), port);
  }

  /** Ingress rules name the gateways of the sources whose services have ports. */
  lemma IngressNames(es: ExternalService, view: ClusterView, used: Pools, g: string)
    requires IngressRules(es, view, used).Some?
    ensures g in Named(IngressRules(es, view, used).value) <==>
            exists src, port :: HasPort(es, view, src, port) && GetRuleName(src.sourceIP) == Some(g)
  {
    var ports := FilledIngress(es, view, used);
    hide GetRuleName, IngressTemplates, IngressRules, HasPort, AsksIngress, Fill, ValidSources;
    var ts := IngressTemplates(es, view, es.sources);
    FillNames(ts, ports, g);
    assert es.sources[..|es.sources|] == es.sources;
    if t :| t in ts && t.gateway.name == g {
      IngressTemplatesMeaning(es, view, |es.sources|, t);
      var src, port :| AsksIngress(es, view, src, port, t);
      AskerHasPort(es, view, src, port, t);
    }
    if src, port :| HasPort(es, view, src, port) && GetRuleName(src.sourceIP) == Some(g) {
      var t := PortAsks(es, view, src, port);
      IngressTemplatesMeaning(es, view, |es.sources|, t);
    }
  }

  lemma FilledIngress(es: ExternalService, view: ClusterView, used: Pools) returns (ports: seq<string>)
    requires IngressRules(es, view, used).Some?
    ensures ValidSources(es.sources)
    ensures var ts := IngressTemplates(es, view, es.sources);
            |ports| == |ts| && IngressRules(es, view, used).value == Fill(ts, ports)
  {
    assert ValidSources(es.sources);
    hide GetRuleName, IngressTemplates, Fill;
    ports := Assign(Demands(Ingress, IngressTemplates(es, view, es.sources)), used).value.ports;
  }

  /** After a completed reconcile every gateway that an egress tunnel leads through exists if and only if, for every
      source that sends, it existed before or a source with the same address has a service with a port. */
  lemma EgressGatewaysExistIff(s: System, es: ExternalService, view: ClusterView, order: seq<string>)
    requires LegalOp(s, Reconcile(es, view, order)) && NewForwarderSpec(s, es, view).Some?
    ensures Named(NewForwarderSpec(s, es, view).value.egressRules) <= Apply(s, Reconcile(es, view, order)).gateways.Keys <==>
            forall src :: Sends(es, view, src) ==> GatewayReached(s, es, view, src)
  {
    hide GetRuleName, NewForwarderSpec, EgressRules, IngressRules, NewGateway, Sends, HasPort, UsedPortsForEgress, UsedPortsForIngress;
    SpecParts(s, es, view);
    var spec := NewForwarderSpec(s, es, view).value;
    var t := Apply(s, Reconcile(es, view, order));
    AfterReconcile(s, es.name, spec, order);
    assert t.gateways.Keys == s.gateways.Keys + Named(spec.ingressRules) by { RewrittenKeys(s, es.name, spec, order); }
    hide Named, Apply, ForwarderOf;
    ExistsPerSource(s, es, view, UsedPortsForEgress(ForwarderOf(s, es.name).spec.egressRules), UsedPortsForIngress(s.gateways));
  }

  lemma RewrittenKeys(s: System, name: string, spec: ForwarderSpec, order: seq<string>)
    requires Enumerates(order, WithForwarder(s, name, spec).forwarders.Keys)
    ensures WithGateways(WithForwarder(s, name, spec), name, order).gateways.Keys == s.gateways.Keys + Named(spec.ingressRules)
  {
    hide NewGateway, AddressOf;
  }

  lemma ExistsPerSource(s: System, es: ExternalService, view: ClusterView, used: Pool, pools: Pools)
    requires EgressRules(es, view, used).Some? && IngressRules(es, view, pools).Some?
    ensures Named(EgressRules(es, view, used).value) <= s.gateways.Keys + Named(IngressRules(es, view, pools).value) <==>
            forall src :: Sends(es, view, src) ==> GatewayReached(s, es, view, src)
  {
    hide EgressRules, IngressRules, Named, Sends, HasPort, GetRuleName;
    var outward, inward := Named(EgressRules(es, view, used).value), Named(IngressRules(es, view, pools).value);
    forall g ensures g in outward <==> exists src :: Sends(es, view, src) && GetRuleName(src.sourceIP) == Some(g) {
      EgressNames(es, view, used, g);
    }
    forall g ensures g in inward <==> exists src, port :: HasPort(es, view, src, port) && GetRuleName(src.sourceIP) == Some(g) {
      IngressNames(es, view, pools, g);
    }
    if outward <= s.gateways.Keys + inward {
      forall src | Sends(es, view, src) ensures GatewayReached(s, es, view, src) {
        if GetRuleName(src.sourceIP).Some? {
          var g := GetRuleName(src.sourceIP).value;
          assert g in outward;
          if other, port :| HasPort(es, view, other, port) && GetRuleName(other.sourceIP) == Some(g) {
            RuleNameInjective(other.sourceIP, src.sourceIP);
          }
        }
      }
    }
  }
}
