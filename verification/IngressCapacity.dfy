// Exactly when the operator can hand out ingress relay ports, and so when a reconcile can complete.
module IngressCapacity {
  import opened Text
  import opened Api
  import opened PortPool
  import opened RuleGen
  import opened Operator
  import opened Ledger
  import opened EgressCapacity
  import opened Outcomes

  /** The distinct keys that `ts` asks of gateway g and that are not in its rules */
  ghost function NewAt(s: System, ts: seq<ForwarderRule>, g: string): set<string> {
    set t | t in ts && t.gateway.name == g && !Known(s, g, RuleKey(t)) :: RuleKey(t)
  }

  ghost predicate Stores(s: System, g: string, port: string) {
    exists q :: q in GatewayOf(s, g).spec.ingressRules && q.relayPort == port
  }

  /** The distinct ports of the pool's range that the gateway's rules use, whichever forwarders they are for */
  ghost function StoredAt(s: System, g: string): set<int> {
    set n | 2049 <= n <= 65536 && Stores(s, g, Itoa(n))
  }

  ghost predicate Roomy(s: System, ts: seq<ForwarderRule>) {
    forall g :: |NewAt(s, ts, g)| + |StoredAt(s, g)| <= 63488
  }

  lemma StoredIsTaken(s: System, g: string)
    requires GatewaysOk(s)
    ensures InRange(PoolOf(UsedPortsForIngress(s.gateways), g)) == StoredAt(s, g)
  {
    hide GatewayKey;
    if g in s.gateways {
      assert GatewayOk(s, g);
      var rules := s.gateways[g].spec.ingressRules;
      GatewayPoolMeaning(rules);
      forall p ensures p in UsedPortsOfGateway(rules) <==> Stores(s, g, p) {
        if p in UsedPortsOfGateway(rules) {
          assert Covers(rules, p, UsedPortsOfGateway(rules)[p]);
        }
      }
    }
  }

  lemma NewIsUnheld(s: System, ts: seq<ForwarderRule>, g: string)
    requires GatewaysOk(s)
    ensures NewKeys(Demands(Ingress, ts), UsedPortsForIngress(s.gateways), g) == NewAt(s, ts, g)
  {
    hide GatewaysOk, Known, Held, RuleKey, UsedPortsForIngress;
    var ds, pools := Demands(Ingress, ts), UsedPortsForIngress(s.gateways);
    forall key ensures Known(s, g, key) <==> Held(PoolOf(pools, g), key) {
      KnownIffHeld(s, g, key);
    }
    forall d | d in ds ensures exists t :: t in ts && d == DemandOf(Ingress, t) {
      var i :| 0 <= i < |ds| && ds[i] == d;
      assert ts[i] in ts && d == DemandOf(Ingress, ts[i]);
    }
    forall t | t in ts ensures DemandOf(Ingress, t) in ds {
      var i :| 0 <= i < |ts| && ts[i] == t;
      assert ds[i] == DemandOf(Ingress, t);
    }
  }

  /** Exact ingress capacity: generation succeeds if and only if every source address is valid and, on each gateway, the
      distinct new keys together with the distinct in-range ports of all rules stored there number at most 63488. */
  lemma IngressSucceeds(s: System, es: ExternalService, view: ClusterView)
    requires GatewaysOk(s)
    ensures IngressRules(es, view, UsedPortsForIngress(s.gateways)).Some? <==>
            ValidSources(es.sources) && Roomy(s, IngressTemplates(es, view, es.sources))
  {
    if ValidSources(es.sources) {
      PoolsOfGateways(s);
      hide GatewaysOk, ValidSources, IngressTemplates, AllFunctional, UsedPortsForIngress, NewKeys, NewAt, StoredAt, InRange, Assign;
      var ts := IngressTemplates(es, view, es.sources);
      Capacity(Demands(Ingress, ts), UsedPortsForIngress(s.gateways));
      forall g
        ensures NewKeys(Demands(Ingress, ts), UsedPortsForIngress(s.gateways), g) == NewAt(s, ts, g)
        ensures InRange(PoolOf(UsedPortsForIngress(s.gateways), g)) == StoredAt(s, g)
      {
        NewIsUnheld(s, ts, g);
        StoredIsTaken(s, g);
      }
    }
  }

  /** From a state with the invariant, whose own old target ports contain no colon, a reconcile can generate its rules if
      and only if the pod has an address, the source addresses are valid, and both capacities suffice. */
  lemma ReconcileSucceedsIff(s: System, es: ExternalService, view: ClusterView)
    requires Inv(s) && NoColonInPorts(ForwarderOf(s, es.name).spec.egressRules)
    ensures NewForwarderSpec(s, es, view).Some? <==>
            && view.podIP.Some? && view.podIP.value != "" && ValidSources(es.sources)
            && |KeysIn(EgressTemplates(es, view, es.sources))| + |PortsIn(ForwarderOf(s, es.name).spec.egressRules)| <= 63488
            && Roomy(s, IngressTemplates(es, view, es.sources))
  {
    hide EgressRules, IngressRules, Roomy, ValidSources, KeysIn, PortsIn, GatewaysOk, EgressTemplates, IngressTemplates;
    InvIsRecoverable(s, es.name);
    Succeeds(es, view, ForwarderOf(s, es.name).spec.egressRules);
    IngressSucceeds(s, es, view);
  }

  lemma MayGenerateIff(dir: Direction, ts: seq<ForwarderRule>, pools: Pools)
    ensures (exists rules :: MayGenerate(dir, ts, pools, rules)) <==> Fits(Demands(dir, ts), pools)
  {
    hide MayServe, Fits, DemandOf;
    var ds := Demands(dir, ts);
    if rules :| MayGenerate(dir, ts, pools, rules) {
      var after :| MayServe(ds, pools, RelayPorts(rules), after);
      OutcomeFits(ds, pools, RelayPorts(rules), after);
    }
    if Fits(ds, pools) {
      var ports, after := FittingHasOutcome(ds, pools);
      MayServeCount(ds, pools, ports, after);
      assert RelayPorts(Fill(ts, ports)) == ports;
      assert MayGenerate(dir, ts, pools, Fill(ts, ports));
    }
  }

  /** From any state at all, the one reconciles that fail or overlap leave included: a reconcile can generate its rules if and
      only if the pod has an address, the source addresses are valid, and in the forwarder's pool and in every gateway's
      pool, as they are read back, the distinct new keys fit into what is free. */
  lemma AnyReconcileSucceedsIff(s: System, es: ExternalService, view: ClusterView)
    ensures (exists spec :: MayGenerateSpec(s, es, view, spec)) <==>
            && view.podIP.Some? && view.podIP.value != "" && ValidSources(es.sources)
            && Fits(Demands(Egress, EgressTemplates(es, view, es.sources)), EgressPools(ForwarderOf(s, es.name).spec.egressRules))
            && Fits(Demands(Ingress, IngressTemplates(es, view, es.sources)), UsedPortsForIngress(s.gateways))
  {
    hide MayGenerate, Fits, ValidSources, EgressTemplates, IngressTemplates, UsedPortsForEgress, UsedPortsForIngress;
    if view.podIP.Some? && view.podIP.value != "" && ValidSources(es.sources) {
      var out, inward := EgressTemplates(es, view, es.sources), IngressTemplates(es, view, es.sources);
      var mine, pools := EgressPools(ForwarderOf(s, es.name).spec.egressRules), UsedPortsForIngress(s.gateways);
      MayGenerateIff(Egress, out, mine);
      MayGenerateIff(Ingress, inward, pools);
      if e, i :| MayGenerate(Egress, out, mine, e) && MayGenerate(Ingress, inward, pools, i) {
        assert MayGenerateSpec(s, es, view, ForwarderSpec(e, i, view.podIP.value));
      }
    }
  }
}
