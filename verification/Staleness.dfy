// A gateway that a forwarder stops naming is not rewritten: exactly when gateway rules go stale, and what
// connections a gateway rewrites while they have not.
module Staleness {
  import opened Text
  import opened Address
  import opened Api
  import opened PortPool
  import opened RuleGen
  import opened Operator
  import opened Ledger
  import opened Printed
  import opened NatTable
  import opened Tunnels
  import opened GatewayAgent
  import opened EgressRuns
  import opened IngressRouting
  import opened PostRouting
  import opened Interruption

  /** The gateway's ingress rules are exactly the images of the forwarder rules that name it. */
  ghost predicate ExactAt(s: System, g: string) {
    && g in s.gateways
    && forall q :: q in s.gateways[g].spec.ingressRules <==> exists n, r :: Stems(Ingress, s.forwarders, n, r, g, q)
  }

  ghost predicate Exact(s: System) {
    forall g :: g in s.gateways ==> ExactAt(s, g)
  }

  /** A gateway that was just rewritten is exact. */
  lemma ProjectionIsExact(t: System, order: seq<string>, g: string)
    requires g in t.gateways && Enumerates(order, t.forwarders.Keys)
    requires t.gateways[g].spec.ingressRules == Project(Ingress, order, t.forwarders, g)
    ensures ExactAt(t, g)
  {
    hide Stems, Project;
    forall q ensures q in t.gateways[g].spec.ingressRules <==> exists n, r :: Stems(Ingress, t.forwarders, n, r, g, q) {
      ProjectMeaning(Ingress, order, t.forwarders, g, q);
      if n, r :| Stems(Ingress, t.forwarders, n, r, g, q) {
        StemIsListed(t.forwarders, n, r, g, q);
      }
    }
  }

  lemma StemIsListed(fwds: map<string, Forwarder>, n: string, r: ForwarderRule, g: string, q: GatewayRule)
    requires Stems(Ingress, fwds, n, r, g, q)
    ensures n in fwds && r in fwds[n].spec.ingressRules && r.gateway == Ref(CONNECTOR_NAMESPACE, g)
    ensures q == ToGatewayRule(n, fwds[n].spec.forwarderIP, r)
  {
  }

  /** A gateway that is left as it was, while one forwarder `name` is replaced by one that does not name it, stays
      exact if and only if the old one did not name it either. */
  lemma UntouchedIsExactIff(s: System, t: System, name: string, g: string)
    requires ExactAt(s, g) && g in t.gateways && t.gateways[g].spec == s.gateways[g].spec
    requires forall n :: n != name ==> (n in s.forwarders <==> n in t.forwarders)
    requires forall n :: n != name && n in s.forwarders ==> t.forwarders[n].spec == s.forwarders[n].spec
    requires name in t.forwarders ==> g !in Named(t.forwarders[name].spec.ingressRules)
    requires forall r :: r in ForwarderOf(s, name).spec.ingressRules ==> WellFormed(r)
    ensures ExactAt(t, g) <==> g !in Named(ForwarderOf(s, name).spec.ingressRules)
  {
    hide WellFormed;
    var was := ForwarderOf(s, name).spec;
    forall n, r, q | Stems(Ingress, t.forwarders, n, r, g, q) ensures n != name && Stems(Ingress, s.forwarders, n, r, g, q) {
      assert g in Named(t.forwarders[n].spec.ingressRules);
    }
    if g in Named(was.ingressRules) {
      var r0 :| r0 in was.ingressRules && r0.gateway.name == g;
      assert r0.gateway == Ref(CONNECTOR_NAMESPACE, g) by { WellFormedNamespace(r0); }
      var q0 := ToGatewayRule(name, was.forwarderIP, r0);
      assert Stems(Ingress, s.forwarders, name, r0, g, q0);
      assert q0 in t.gateways[g].spec.ingressRules;
      assert forall n, r :: Stems(Ingress, t.forwarders, n, r, g, q0) ==> q0.forwarder.name == n;
    } else {
      forall n, r, q | Stems(Ingress, s.forwarders, n, r, g, q) ensures Stems(Ingress, t.forwarders, n, r, g, q) {
        assert g in Named(s.forwarders[n].spec.ingressRules);
      }
    }
  }

  lemma WellFormedNamespace(r: ForwarderRule)
    requires WellFormed(r)
    ensures r.gateway.namespace == CONNECTOR_NAMESPACE
  {
  }

  /** A source with this gateway's address has a service with a port. */
  ghost predicate NamesNow(es: ExternalService, view: ClusterView, g: string) {
    exists src, port :: HasPort(es, view, src, port) && GetRuleName(src.sourceIP) == Some(g)
  }

  lemma NamedIffNamesNow(s: System, es: ExternalService, view: ClusterView, g: string)
    requires NewForwarderSpec(s, es, view).Some?
    ensures g in Named(NewForwarderSpec(s, es, view).value.ingressRules) <==> NamesNow(es, view, g)
  {
    hide NewForwarderSpec, HasPort, GetRuleName, Named, IngressRules, EgressRules;
    SpecParts(s, es, view);
    IngressNames(es, view, UsedPortsForIngress(s.gateways), g);
  }

  /** After a completed reconcile a gateway that was exact is exact if and only if a source with its address has a
      service with a port, or the forwarder did not name it before. */
  lemma StaleAtIff(s: System, es: ExternalService, view: ClusterView, order: seq<string>, g: string)
    requires Inv(s) && LegalOp(s, Reconcile(es, view, order)) && NewForwarderSpec(s, es, view).Some?
    requires ExactAt(s, g)
    ensures g in Apply(s, Reconcile(es, view, order)).gateways
    ensures ExactAt(Apply(s, Reconcile(es, view, order)), g) <==>
            NamesNow(es, view, g) || g !in Named(ForwarderOf(s, es.name).spec.ingressRules)
  {
    OwnRulesFormed(s, es.name);
    hide NewForwarderSpec, Inv, WellFormed, ExactAt, Named, NewGateway, NamesNow;
    NamedIffNamesNow(s, es, view, g);
    var spec := NewForwarderSpec(s, es, view).value;
    AfterReconcile(s, es.name, spec, order);
    var t := Apply(s, Reconcile(es, view, order));
    if g in Named(spec.ingressRules) {
      ProjectionIsExact(t, order, g);
    } else {
      KnownGateway(s, g);
      UntouchedIsExactIff(s, t, es.name, g);
    }
  }

  lemma KnownGateway(s: System, g: string)
    requires ExactAt(s, g)
    ensures g in s.gateways
  {
  }

  lemma OwnRulesFormed(s: System, name: string)
    requires Inv(s)
    ensures forall r :: r in ForwarderOf(s, name).spec.ingressRules ==> WellFormed(r) && r.gateway.name in s.gateways
  {
    forall r | r in ForwarderOf(s, name).spec.ingressRules ensures WellFormed(r) && r.gateway.name in s.gateways {
      assert ForwarderOk(s, name) && RuleCovered(s, r);
    }
  }

  /** From an exact system a completed reconcile leads to an exact one if and only if, for every gateway that its
      forwarder named before, a source with the gateway's address has a service with a port. */
  lemma StaleIff(s: System, es: ExternalService, view: ClusterView, order: seq<string>)
    requires Inv(s) && Exact(s) && LegalOp(s, Reconcile(es, view, order)) && NewForwarderSpec(s, es, view).Some?
    ensures Exact(Apply(s, Reconcile(es, view, order))) <==>
            forall g :: g in Named(ForwarderOf(s, es.name).spec.ingressRules) ==> NamesNow(es, view, g)
  {
    OwnRulesFormed(s, es.name);
    var was := ForwarderOf(s, es.name).spec.ingressRules;
    assert forall g :: g in Named(was) ==> g in s.gateways;
    hide NewForwarderSpec, Inv, WellFormed, ExactAt, Named, Project, NamesNow;
    var spec := NewForwarderSpec(s, es, view).value;
    AfterReconcile(s, es.name, spec, order);
    var t := Apply(s, Reconcile(es, view, order));
    forall g | g in s.gateways ensures ExactAt(t, g) <==> NamesNow(es, view, g) || g !in Named(was) {
      StaleAtIff(s, es, view, order, g);
    }
    forall g | g in t.gateways && g !in s.gateways ensures ExactAt(t, g) {
      ProjectionIsExact(t, order, g);
    }
  }

  /** A completed deletion leaves every gateway exact, whatever was stale before. */
  lemma DeletionIsExact(s: System, name: string, order: seq<string>)
    requires LegalOp(s, Delete(name, order))
    ensures Exact(Apply(s, Delete(name, order)))
  {
    hide ExactAt;
    var t := Apply(s, Delete(name, order));
    forall g | g in t.gateways ensures ExactAt(t, g) {
      ProjectionIsExact(t, order, g);
    }
  }

  // ----- what exact gateways rewrite -----

  /** A rule of forwarder n is for this packet. */
  ghost predicate AsksInward(s: System, n: string, r: ForwarderRule, p: Packet) {
    && n in s.forwarders && r in s.forwarders[n].spec.ingressRules
    && r.gatewayIP == p.dst && r.sourceIP == p.src && r.targetPort == p.dport
  }

  /** An exact gateway rewrites a packet to its address if and only if some forwarder's rule is for it now. */
  lemma OnlyAskedIsRewritten(s: System, g: string, chains: Chains, p: Packet)
    requires Inv(s) && Tidy(s) && ExactAt(s, g) && GetRuleName(p.dst) == Some(g)
    requires Holds(chains, p.dst, s.gateways[g].spec) && NothingElse(chains, p)
    ensures Evaluate(chains, chains[PREROUTING], p).Some? <==> exists n, r :: AsksInward(s, n, r, p)
  {
    assert g in s.gateways;
    hide *;
    OnlyRulesAreRewritten(s, g, chains, p);
    AskedIffMet(s, g, p);
  }

  /** The rules of an exact gateway meet a packet if and only if a forwarder rule is for it. */
  lemma AskedIffMet(s: System, g: string, p: Packet)
    requires Inv(s) && ExactAt(s, g) && GetRuleName(p.dst) == Some(g)
    ensures (exists q :: q in s.gateways[g].spec.ingressRules && Meets(q, p)) <==> exists n, r :: AsksInward(s, n, r, p)
  {
    hide GetRuleName;
    if q :| q in s.gateways[g].spec.ingressRules && Meets(q, p) {
      var n, r :| Stems(Ingress, s.forwarders, n, r, g, q);
      assert ForwarderOk(s, n) && WellFormed(r);
      RuleNameInjective(r.gatewayIP, p.dst);
      assert AsksInward(s, n, r, p);
    }
    if n, r :| AsksInward(s, n, r, p) {
      assert ForwarderOk(s, n) && WellFormed(r);
      var q := ToGatewayRule(n, s.forwarders[n].spec.forwarderIP, r);
      assert Stems(Ingress, s.forwarders, n, r, g, q);
      assert q in s.gateways[g].spec.ingressRules && Meets(q, p);
    }
  }

  /** Some forwarder's rule that names gateway g is for connections to this destination that arrive at this relay port. */
  ghost predicate AsksOutward(s: System, g: string, p: Packet) {
    exists n, r :: n in s.forwarders && r in s.forwarders[n].spec.ingressRules && r.gateway == Ref("external-services", g)
                   && r.destinationIP == p.dst && r.relayPort == p.dport
  }

  /** An exact gateway gives its own address to a packet if and only if some forwarder's rule that names it is for the
      packet's destination and has its port as relay port. */
  lemma OnlyAskedIsTranslated(s: System, g: string, p: Packet)
    requires ExactAt(s, g)
    ensures FirstMatch(Dedup(PostRules(s.gateways[g].spec)), p) ==
            if AsksOutward(s, g, p) then Some(SNAT(s.gateways[g].spec.gatewayIP)) else None
  {
    var rules := s.gateways[g].spec.ingressRules;
    if q :| q in rules && q.destinationIP == p.dst && q.relayPort == p.dport {
      var n, r :| Stems(Ingress, s.forwarders, n, r, g, q);
    }
    if n, r :| n in s.forwarders && r in s.forwarders[n].spec.ingressRules && r.gateway == Ref("external-services", g)
               && r.destinationIP == p.dst && r.relayPort == p.dport {
      assert Stems(Ingress, s.forwarders, n, r, g, ToGatewayRule(n, s.forwarders[n].spec.forwarderIP, r));
    }
    hide PostRules, FirstMatch, Dedup, Stems;
    PostChainVerdict(s.gateways[g].spec, p);
  }

  // ----- a gateway that goes stale -----

  /** The ExternalService of `Interruption`, after its only source was removed */
  const NO_SOURCE := FIRST.(sources := [])

  lemma NothingAsked(s: System, es: ExternalService)
    requires es.sources == []
    ensures NewForwarderSpec(s, es, VIEW) == Some(ForwarderSpec([], [], "10.0.0.3"))
  {
    assert Assign([], map["" := UsedPortsForEgress(ForwarderOf(s, es.name).spec.egressRules)]).Some?;
    assert Demands(Egress, []) == [] && Demands(Ingress, []) == [] && Fill([], []) == [];
  }

  /** es1 is reconciled with its source and again without it. The gateway keeps the rule, and with every object
      synced it still rewrites connections that no forwarder asks for. */
  lemma GatewayGoesStale()
    ensures var op := Reconcile(FIRST, VIEW, ["es1"]);
            && LegalOp(EMPTY_SYSTEM, op)
            && var s1 := Apply(EMPTY_SYSTEM, op);
               && Exact(s1) && LegalOp(s1, Reconcile(NO_SOURCE, VIEW, ["es1"]))
               && var s2 := Apply(s1, Reconcile(NO_SOURCE, VIEW, ["es1"]));
                  && !Exact(s2)
                  && (forall n :: n in s2.forwarders ==> s2.forwarders[n].spec.ingressRules == [])
                  && exists g :: g in s2.gateways && StillRewrites(s2.gateways[g].spec)
  {
    hide *;
    var r := FirstReconciled();
    GoesStale(Apply(EMPTY_SYSTEM, Reconcile(FIRST, VIEW, ["es1"])), r);
  }

  /** Connections from the first external server to port 80 of the gateway are sent to a relay port. */
  ghost predicate StillRewrites(spec: GatewaySpec) {
    FirstMatch(PreRules(spec), Packet("192.168.122.139", GATEWAY_IP, Itoa(80))) == Some(DNAT(Endpoint(GATEWAY_IP, Itoa(2049))))
  }

  lemma FirstReconciled() returns (r: ForwarderRule)
    ensures LegalOp(EMPTY_SYSTEM, Reconcile(FIRST, VIEW, ["es1"]))
    ensures var s1 := Apply(EMPTY_SYSTEM, Reconcile(FIRST, VIEW, ["es1"]));
            && Inv(s1) && Exact(s1) && s1.forwarders.Keys == {"es1"} && s1.forwarders["es1"].spec.ingressRules == [r]
            && r.gateway.name in s1.gateways && StillRewrites(s1.gateways[r.gateway.name].spec)
  {
    hide *;
    FirstStart();
    FirstPort(EMPTY_SYSTEM, "es1", "192.168.122.139");
    r := RuleOfFirst();
    FirstSettled(Reconcile(FIRST, VIEW, ["es1"]), r);
  }

  lemma FirstStart()
    ensures FIRST == OneSource("es1", "192.168.122.139", GATEWAY_IP) && FIRST.name == "es1"
    ensures EMPTY_SYSTEM.gateways == map[]
    ensures LegalOp(EMPTY_SYSTEM, Reconcile(FIRST, VIEW, ["es1"])) && TidyOp(Reconcile(FIRST, VIEW, ["es1"]))
    ensures Inv(EMPTY_SYSTEM) && Tidy(EMPTY_SYSTEM) && Exact(EMPTY_SYSTEM)
    ensures Named(ForwarderOf(EMPTY_SYSTEM, "es1").spec.ingressRules) == {}
  {
    hide Dotted, GetRuleName;
    assert EMPTY_SYSTEM.forwarders.Keys + {"es1"} == {"es1"};
  }

  lemma RuleOfFirst() returns (r: ForwarderRule)
    requires GetRuleName(GATEWAY_IP).Some?
    ensures SpecOf("192.168.122.139", GATEWAY_IP, 80, Itoa(2049)).ingressRules == [r]
    ensures r.sourceIP == "192.168.122.139" && r.gatewayIP == GATEWAY_IP && r.targetPort == Itoa(80) && r.relayPort == Itoa(2049)
  {
    hide Dotted, GetRuleName, Itoa;
    r := SpecOf("192.168.122.139", GATEWAY_IP, 80, Itoa(2049)).ingressRules[0];
  }

  lemma FirstSettled(op: Op, r: ForwarderRule)
    requires op == Reconcile(FIRST, VIEW, ["es1"]) && LegalOp(EMPTY_SYSTEM, op) && TidyOp(op)
    requires Inv(EMPTY_SYSTEM) && Tidy(EMPTY_SYSTEM) && Exact(EMPTY_SYSTEM)
    requires Named(ForwarderOf(EMPTY_SYSTEM, "es1").spec.ingressRules) == {}
    requires NewForwarderSpec(EMPTY_SYSTEM, FIRST, VIEW).Some?
    requires NewForwarderSpec(EMPTY_SYSTEM, FIRST, VIEW).value.ingressRules == [r]
    requires r.sourceIP == "192.168.122.139" && r.gatewayIP == GATEWAY_IP && r.targetPort == Itoa(80) && r.relayPort == Itoa(2049)
    ensures var s1 := Apply(EMPTY_SYSTEM, op);
            && Inv(s1) && Exact(s1) && s1.forwarders.Keys == {"es1"} && s1.forwarders["es1"].spec.ingressRules == [r]
            && r.gateway.name in s1.gateways && StillRewrites(s1.gateways[r.gateway.name].spec)
  {
    hide GetRuleName, Dotted, Itoa, FirstMatch, PreRules, NewForwarderSpec, Inv, Tidy, WellFormed, Exact, GatewaysOk, TidyOp, NewGateway, Project;
    var s1 := Apply(EMPTY_SYSTEM, op);
    StaleIff(EMPTY_SYSTEM, FIRST, VIEW, ["es1"]);
    AfterReconcile(EMPTY_SYSTEM, "es1", NewForwarderSpec(EMPTY_SYSTEM, FIRST, VIEW).value, ["es1"]);
    InvIsRecoverable(EMPTY_SYSTEM, "");
    ApplyKeepsInv(EMPTY_SYSTEM, op);
    ApplyKeepsTidy(EMPTY_SYSTEM, op);
    assert r in s1.forwarders["es1"].spec.ingressRules;
    GatewayRelays(s1, "es1", r);
  }

  lemma GoesStale(s1: System, r: ForwarderRule)
    requires Inv(s1) && Exact(s1) && s1.forwarders.Keys == {"es1"} && s1.forwarders["es1"].spec.ingressRules == [r]
    requires r.gateway.name in s1.gateways
    ensures LegalOp(s1, Reconcile(NO_SOURCE, VIEW, ["es1"]))
    ensures var s2 := Apply(s1, Reconcile(NO_SOURCE, VIEW, ["es1"]));
            && !Exact(s2) && r.gateway.name in s2.gateways
            && s2.gateways[r.gateway.name].spec == s1.gateways[r.gateway.name].spec
            && (forall n :: n in s2.forwarders ==> s2.forwarders[n].spec.ingressRules == [])
  {
    hide Inv, Exact, NewForwarderSpec, NewGateway, AddressOf, GetRuleName, Dotted;
    assert s1.forwarders.Keys + {"es1"} == {"es1"};
    NothingAsked(s1, NO_SOURCE);
    StaleIff(s1, NO_SOURCE, VIEW, ["es1"]);
    assert r.gateway.name in Named([r]);
    assert !NamesNow(NO_SOURCE, VIEW, r.gateway.name);
  }
}
