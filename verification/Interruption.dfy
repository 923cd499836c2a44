// A concrete run in which an interrupted reconcile makes two forwarders share a relay port.
module Interruption {
  import opened Text
  import opened Address
  import opened Api
  import opened PortPool
  import opened RuleGen
  import opened Operator
  import opened Ledger

  const GATEWAY_IP := Dotted(IPv4(192, 168, 122, 200))
  const SERVICE := Ref("ns1", "my-service1")

  /** An ExternalService that asks one key of one gateway: its target IP with the port of the one service */
  function OneSource(name: string, targetIP: string, gatewayIP: string): ExternalService {
    ExternalService(name, targetIP, [Source(SERVICE, gatewayIP)], [])
  }

  function OneService(port: int): ClusterView {
    ClusterView(map[], map[SERVICE := Service("10.96.0.8", [ServicePort("TCP", port)])], Some("10.0.0.3"))
  }

  const FIRST := OneSource("es1", "192.168.122.139", GATEWAY_IP)
  const SECOND := OneSource("es2", "192.168.122.140", GATEWAY_IP)
  const VIEW := OneService(80)

  /** The forwarder such an ExternalService gets */
  function SpecOf(targetIP: string, gatewayIP: string, port: int, relayPort: string): ForwarderSpec
    requires GetRuleName(gatewayIP).Some?
  {
    ForwarderSpec([], [ForwarderRule("TCP", targetIP, Itoa(port), Itoa(port), "10.96.0.8", GatewayRefFor(gatewayIP), gatewayIP, relayPort)],
                  "10.0.0.3")
  }

  lemma OneNewKey(d: Demand, pools: Pools)
    requires !Held(PoolOf(pools, d.pool), d.key) && FirstFree(PoolOf(pools, d.pool), MIN_PORT).Some?
    ensures Assign([d], pools).Some?
    ensures Assign([d], pools).value.ports == [Itoa(FirstFree(PoolOf(pools, d.pool), MIN_PORT).value)]
  {
    assert Assign([], pools) == Some(Assignment([], pools));
    AssignSnoc([], d, pools);
    assert [] + [d] == [d];
  }

  lemma GatewayNamed()
    ensures GetRuleName(GATEWAY_IP).Some?
  {
    ParsePrint(IPv4(192, 168, 122, 200), GATEWAY_IP);
  }

  lemma NoEgress(es: ExternalService, view: ClusterView, used: Pool)
    requires es.ports == [] && ValidSources(es.sources) && |es.sources| == 1
    ensures EgressRules(es, view, used) == Some([])
  {
    hide GetRuleName;
    assert es.sources[..|es.sources| - 1] == [];
    assert EgressTemplates(es, view, es.sources) == [];
    var pools: Pools := map["" := used];
    assert Demands(Egress, []) == [];
    assert Assign([], pools) == Some(Assignment([], pools));
    assert Fill([], []) == [];
  }

  lemma OneIngress(name: string, targetIP: string, ip: string, port: int, pools: Pools, relay: string)
    requires GetRuleName(ip).Some?
    requires var a := Assign([Demand(GetRuleName(ip).value, Key(targetIP, Itoa(port)))], pools); a.Some? && a.value.ports == [relay]
    ensures IngressRules(OneSource(name, targetIP, ip), OneService(port), pools) == Some(SpecOf(targetIP, ip, port, relay).ingressRules)
  {
    hide GetRuleName, Itoa, Assign;
    var es, view := OneSource(name, targetIP, ip), OneService(port);
    var src := es.sources[0];
    var t := IngressTemplate(es, src, view.services[SERVICE], ServicePort("TCP", port));
    assert es.sources[..|es.sources| - 1] == [];
    assert IngressOfSource(es, src, view.ServiceFor(SERVICE), view.ServiceFor(SERVICE).ports) == [t];
    assert IngressTemplates(es, view, es.sources) == [t];
    assert Demands(Ingress, [t]) == [DemandOf(Ingress, t)];
    assert DemandOf(Ingress, t) == Demand(GetRuleName(ip).value, Key(targetIP, Itoa(port)));
    assert Fill([t], [relay]) == [t.(relayPort := relay)];
  }

  lemma ForwarderWith(s: System, name: string, targetIP: string, ip: string, port: int, relay: string)
    requires GetRuleName(ip).Some?
    requires var a := Assign([Demand(GetRuleName(ip).value, Key(targetIP, Itoa(port)))], UsedPortsForIngress(s.gateways));
             a.Some? && a.value.ports == [relay]
    ensures NewForwarderSpec(s, OneSource(name, targetIP, ip), OneService(port)) == Some(SpecOf(targetIP, ip, port, relay))
  {
    hide GetRuleName, Itoa, EgressRules, IngressRules, UsedPortsForIngress, Assign;
    var es, view := OneSource(name, targetIP, ip), OneService(port);
    NoEgress(es, view, UsedPortsForEgress(ForwarderOf(s, name).spec.egressRules));
    OneIngress(name, targetIP, ip, port, UsedPortsForIngress(s.gateways), relay);
  }

  /** A key that the gateway does not know gets the gateway's first free port. */
  lemma OneForwarder(s: System, name: string, targetIP: string, ip: string, port: int)
    requires GetRuleName(ip).Some?
    requires var pool := PoolOf(UsedPortsForIngress(s.gateways), GetRuleName(ip).value);
             !Held(pool, Key(targetIP, Itoa(port))) && FirstFree(pool, MIN_PORT).Some?
    ensures var pool := PoolOf(UsedPortsForIngress(s.gateways), GetRuleName(ip).value);
            NewForwarderSpec(s, OneSource(name, targetIP, ip), OneService(port))
            == Some(SpecOf(targetIP, ip, port, Itoa(FirstFree(pool, MIN_PORT).value)))
  {
    hide GetRuleName, FirstFree, Held, Itoa, NewForwarderSpec, UsedPortsForIngress, PoolOf, Assign;
    OneNewKey(Demand(GetRuleName(ip).value, Key(targetIP, Itoa(port))), UsedPortsForIngress(s.gateways));
    ForwarderWith(s, name, targetIP, ip, port, Itoa(FirstFree(PoolOf(UsedPortsForIngress(s.gateways), GetRuleName(ip).value), MIN_PORT).value));
  }

  /** A key that the gateway knows keeps its port. */
  lemma SameForwarder(s: System, name: string, targetIP: string, ip: string, port: int, relay: string)
    requires GetRuleName(ip).Some? && AllFunctional(UsedPortsForIngress(s.gateways))
    requires var pool := PoolOf(UsedPortsForIngress(s.gateways), GetRuleName(ip).value);
             relay in pool && pool[relay] == Key(targetIP, Itoa(port))
    ensures NewForwarderSpec(s, OneSource(name, targetIP, ip), OneService(port)) == Some(SpecOf(targetIP, ip, port, relay))
  {
    hide GetRuleName, Itoa, NewForwarderSpec, UsedPortsForIngress, PoolOf, Assign, AllFunctional;
    var d := Demand(GetRuleName(ip).value, Key(targetIP, Itoa(port)));
    var pools := UsedPortsForIngress(s.gateways);
    HeldKeysAllocateNothing([d], pools);
    HeldKeyKeepsPort([d], pools, 0, relay);
    assert Assign([d], pools).value.ports == [relay];
    ForwarderWith(s, name, targetIP, ip, port, relay);
  }

  lemma FirstPort(s: System, name: string, targetIP: string)
    requires s.gateways == map[]
    ensures GetRuleName(GATEWAY_IP).Some?
    ensures NewForwarderSpec(s, OneSource(name, targetIP, GATEWAY_IP), VIEW) == Some(SpecOf(targetIP, GATEWAY_IP, 80, Itoa(2049)))
  {
    hide GetRuleName, NewForwarderSpec;
    GatewayNamed();
    var none: Pool := map[];
    assert PoolOf(UsedPortsForIngress(s.gateways), GetRuleName(GATEWAY_IP).value) == none;
    assert FirstFree(none, MIN_PORT) == Some(MIN_PORT);
    OneForwarder(s, name, targetIP, GATEWAY_IP, 80);
  }

  ghost predicate SharedPort(s: System, m: string, n: string) {
    && m in s.forwarders && n in s.forwarders
    && exists r, q :: SharesPort(s, m, n, r, q)
  }

  /** Rules of two forwarders have one relay port of one gateway, for different external servers. */
  ghost predicate SharesPort(s: System, m: string, n: string, r: ForwarderRule, q: ForwarderRule)
    requires m in s.forwarders && n in s.forwarders
  {
    && r in s.forwarders[m].spec.ingressRules && q in s.forwarders[n].spec.ingressRules
    && r.gateway == q.gateway && r.relayPort == q.relayPort && r.sourceIP != q.sourceIP
  }

  // ----- a harmful interruption -----

  /** es1 is interrupted after its forwarder was written and before its gateway was; es2 then completes.
      Both forwarders hold one relay port of one gateway, for different external servers. */
  lemma TwoForwardersShareAPort()
    ensures NewForwarderSpec(EMPTY_SYSTEM, FIRST, VIEW).Some?
    ensures var s1 := WithForwarder(EMPTY_SYSTEM, "es1", NewForwarderSpec(EMPTY_SYSTEM, FIRST, VIEW).value);
            var op := Reconcile(SECOND, VIEW, ["es1", "es2"]);
            && Enumerates(["es1"], s1.forwarders.Keys)
            && Interrupted(s1, "es1", ["es1"], {}, s1)
            && LegalOp(s1, op)
            && SharedPort(Apply(s1, op), "es1", "es2")
  {
    hide NewForwarderSpec, GetRuleName, Dotted, SharedPort, SpecOf;
    FirstPort(EMPTY_SYSTEM, "es1", "192.168.122.139");
    var s1 := WithForwarder(EMPTY_SYSTEM, "es1", NewForwarderSpec(EMPTY_SYSTEM, FIRST, VIEW).value);
    assert s1.forwarders.Keys == {"es1"} && s1.forwarders.Keys + {"es2"} == {"es1", "es2"};
    assert "es1"[2] != "es2"[2];
    FirstPort(s1, "es2", "192.168.122.140");
    SharesAfter(s1);
  }

  lemma SharesAfter(s1: System)
    requires GetRuleName(GATEWAY_IP).Some?
    requires s1.forwarders.Keys == {"es1"} && s1.forwarders["es1"].spec == SpecOf("192.168.122.139", GATEWAY_IP, 80, Itoa(2049))
    ensures var s2 := WithForwarder(s1, "es2", SpecOf("192.168.122.140", GATEWAY_IP, 80, Itoa(2049)));
            && Enumerates(["es1", "es2"], s2.forwarders.Keys)
            && SharedPort(WithGateways(s2, "es2", ["es1", "es2"]), "es1", "es2")
  {
    hide GetRuleName, Dotted, Itoa;
    assert "es1"[2] != "es2"[2];
    var s2 := WithForwarder(s1, "es2", SpecOf("192.168.122.140", GATEWAY_IP, 80, Itoa(2049)));
    assert s2.forwarders.Keys == {"es1", "es2"};
    var t := WithGateways(s2, "es2", ["es1", "es2"]);
    var r, q := s2.forwarders["es1"].spec.ingressRules[0], s2.forwarders["es2"].spec.ingressRules[0];
    assert r.sourceIP[13] != q.sourceIP[13];
    assert SharesPort(t, "es1", "es2", r, q);
  }
}
