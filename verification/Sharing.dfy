// When a completed retry ends the sharing of a relay port, after whatever others did in the meantime.
module Sharing {
  import opened Text
  import opened Address
  import opened Api
  import opened PortPool
  import opened RuleGen
  import opened Operator
  import opened Ledger
  import opened Cluster
  import opened Outcomes

  // ----- sharing -----

  /** Two rules have one port of one gateway for different keys. */
  ghost predicate Clash(r: ForwarderRule, q: ForwarderRule) {
    r.gateway == q.gateway && r.relayPort == q.relayPort && RuleKey(r) != RuleKey(q)
  }

  ghost predicate OtherRule(s: System, name: string, m: string, q: ForwarderRule) {
    m != name && m in s.forwarders && q in s.forwarders[m].spec.ingressRules
  }

  /** Some rule of `rules` clashes with a rule of a forwarder other than `name`. */
  ghost predicate SharesWithOthers(s: System, name: string, rules: seq<ForwarderRule>) {
    exists m, q, r :: OtherRule(s, name, m, q) && r in rules && Clash(r, q)
  }

  /** After a completed reconcile, whether the forwarder shares a port is whether what it generated does. */
  lemma SharingIsGenerated(s: System, name: string, spec: ForwarderSpec, order: seq<string>, t: System)
    requires Completed(s, name, spec, order, t)
    ensures name in t.forwarders && t.forwarders[name].spec == spec
    ensures SharesWithOthers(t, name, t.forwarders[name].spec.ingressRules) <==> SharesWithOthers(s, name, spec.ingressRules)
  {
    hide NewGateway, Clash, Enumerates;
    OthersKept(s, name, spec, order, t);
  }

  lemma OthersKept(s: System, name: string, spec: ForwarderSpec, order: seq<string>, t: System)
    requires Completed(s, name, spec, order, t)
    ensures name in t.forwarders && t.forwarders[name].spec == spec
    ensures forall m, q :: OtherRule(t, name, m, q) <==> OtherRule(s, name, m, q)
  {
    hide NewGateway;
  }

  // ----- the exact condition, in any state -----

  /** A lookup for some asked key may answer a port that another forwarder has for another key. */
  ghost predicate MayClash(s: System, es: ExternalService, view: ClusterView)
    requires ValidSources(es.sources)
  {
    exists i: nat, m, q :: i < |IngressTemplates(es, view, es.sources)| && ClashAt(s, es, view, i, m, q)
  }

  ghost predicate ClashAt(s: System, es: ExternalService, view: ClusterView, i: nat, m: string, q: ForwarderRule)
    requires ValidSources(es.sources) && i < |IngressTemplates(es, view, es.sources)|
  {
    var ts := IngressTemplates(es, view, es.sources);
    && OtherRule(s, es.name, m, q) && q.gateway == ts[i].gateway && RuleKey(q) != RuleKey(ts[i])
    && MayGet(Demands(Ingress, ts), UsedPortsForIngress(s.gateways), i, q.relayPort)
  }

  lemma FilledRule(ts: seq<ForwarderRule>, ports: seq<string>, i: nat)
    requires |ports| == |ts| && i < |ts|
    ensures |Fill(ts, ports)| == |ts| && Fill(ts, ports)[i].gateway == ts[i].gateway
    ensures RuleKey(Fill(ts, ports)[i]) == RuleKey(ts[i]) && Fill(ts, ports)[i].relayPort == ports[i]
    ensures Fill(ts, ports)[i] in Fill(ts, ports)
  {
  }

  /** What generation made clashes only where the condition says it may. */
  lemma ClashIsMayClash(s: System, es: ExternalService, view: ClusterView, spec: ForwarderSpec)
    requires MayGenerateSpec(s, es, view, spec) && SharesWithOthers(s, es.name, spec.ingressRules)
    ensures ValidSources(es.sources) && MayClash(s, es, view)
  {
    hide GetRuleName, MayServe, IngressTemplates, EgressTemplates, MayGet, OtherRule, RuleKey, ValidSources;
    var ts, rules := IngressTemplates(es, view, es.sources), spec.ingressRules;
    var pools := UsedPortsForIngress(s.gateways);
    var after: Pools :| MayServe(Demands(Ingress, ts), pools, RelayPorts(rules), after);
    var m, q, r :| OtherRule(s, es.name, m, q) && r in rules && Clash(r, q);
    var i: nat :| i < |rules| && rules[i] == r;
    FilledRule(ts, RelayPorts(rules), i);
    OutcomeIsMayGet(Demands(Ingress, ts), pools, RelayPorts(rules), after, "", i);
    assert ClashAt(s, es, view, i, m, q);
  }

  /** And where it may, some iteration order makes it. */
  lemma MayClashIsClash(s: System, es: ExternalService, view: ClusterView, spec: ForwarderSpec) returns (other: ForwarderSpec)
    requires MayGenerateSpec(s, es, view, spec) && MayClash(s, es, view)
    ensures MayGenerateSpec(s, es, view, other) && SharesWithOthers(s, es.name, other.ingressRules)
  {
    hide GetRuleName, MayServe, IngressTemplates, EgressTemplates, MayGet, OtherRule, RuleKey, ValidSources;
    var ts, rules := IngressTemplates(es, view, es.sources), spec.ingressRules;
    var pools := UsedPortsForIngress(s.gateways);
    var after: Pools :| MayServe(Demands(Ingress, ts), pools, RelayPorts(rules), after);
    var i: nat, m, q :| i < |ts| && ClashAt(s, es, view, i, m, q);
    var ports := MayGetIsOutcome(Demands(Ingress, ts), pools, RelayPorts(rules), after, i, q.relayPort);
    other := spec.(ingressRules := Fill(ts, ports));
    FilledRule(ts, ports, i);
    assert RelayPorts(Fill(ts, ports)) == ports;
    assert Clash(other.ingressRules[i], q);
  }

  /** In any state in which a retry can complete: every way in which it can complete ends all sharing of its forwarder,
      if and only if no lookup for an asked key may answer a port that another forwarder has for another key. */
  lemma RetryEndsSharingIff(s: System, es: ExternalService, view: ClusterView, possible: ForwarderSpec)
    requires MayGenerateSpec(s, es, view, possible)
    ensures ValidSources(es.sources)
    ensures (forall spec :: MayGenerateSpec(s, es, view, spec) ==> !SharesWithOthers(s, es.name, spec.ingressRules)) <==>
            !MayClash(s, es, view)
  {
    hide MayGenerateSpec, SharesWithOthers, MayClash, ValidSources;
    OutcomeValid(s, es, view, possible);
    if MayClash(s, es, view) {
      var other := MayClashIsClash(s, es, view, possible);
    } else {
      forall spec | MayGenerateSpec(s, es, view, spec) ensures !SharesWithOthers(s, es.name, spec.ingressRules) {
        if SharesWithOthers(s, es.name, spec.ingressRules) {
          ClashIsMayClash(s, es, view, spec);
          assert false;
        }
      }
    }
  }

  lemma OutcomeValid(s: System, es: ExternalService, view: ClusterView, spec: ForwarderSpec)
    requires MayGenerateSpec(s, es, view, spec)
    ensures ValidSources(es.sources)
  {
  }

  // ----- the condition on stored gateway rules -----

  /** The last of the gateway's rules at this port is for this key. */
  ghost predicate LastStored(rules: seq<GatewayRule>, port: string, key: string) {
    exists i :: 0 <= i < |rules| && rules[i].relayPort == port && GatewayKey(rules[i]) == key
                && forall j :: i < j < |rules| ==> rules[j].relayPort != port
  }

  lemma {:induction false} PoolIsLastStored(rules: seq<GatewayRule>, port: string, key: string)
    ensures port in UsedPortsOfGateway(rules) && UsedPortsOfGateway(rules)[port] == key <==> LastStored(rules, port, key)
    ensures port in UsedPortsOfGateway(rules) <==> exists q :: q in rules && q.relayPort == port
  {
    if rules != [] {
      var init, last := rules[..|rules| - 1], rules[|rules| - 1];
      assert rules == init + [last];
      PoolIsLastStored(init, port, key);
      hide GatewayKey;
      if last.relayPort == port {
        assert last in rules;
        if GatewayKey(last) == key {
          assert rules[|rules| - 1] == last;
        }
      } else {
        LastStoredInit(rules, port, key);
      }
    }
  }

  lemma LastStoredInit(rules: seq<GatewayRule>, port: string, key: string)
    requires rules != [] && rules[|rules| - 1].relayPort != port
    ensures LastStored(rules, port, key) <==> LastStored(rules[..|rules| - 1], port, key)
  {
    hide GatewayKey;
    var n := |rules| - 1;
    if LastStored(rules[..n], port, key) {
      var i :| 0 <= i < n && rules[..n][i].relayPort == port && GatewayKey(rules[..n][i]) == key
               && forall j :: i < j < n ==> rules[..n][j].relayPort != port;
      assert forall j :: i < j < n ==> rules[j] == rules[..n][j];
      assert rules[i] == rules[..n][i];
    }
    if LastStored(rules, port, key) {
      var i :| 0 <= i < |rules| && rules[i].relayPort == port && GatewayKey(rules[i]) == key
               && forall j :: i < j < |rules| ==> rules[j].relayPort != port;
      assert rules[..n][i] == rules[i];
    }
  }

  /** Every rule of every forwarder but `name` is stored in the gateway it names. */
  ghost predicate OthersStored(s: System, name: string) {
    forall m, q :: OtherRule(s, name, m, q) ==> WellFormed(q) && RuleCovered(s, q)
  }

  /** Some asked key is the last one stored at a port that another forwarder's rule on that gateway has for another key. */
  ghost predicate AskedIsLastStored(s: System, es: ExternalService, view: ClusterView)
    requires ValidSources(es.sources)
  {
    exists t, m, q :: t in IngressTemplates(es, view, es.sources) && LastStoredAt(s, es.name, t, m, q)
  }

  ghost predicate LastStoredAt(s: System, name: string, t: ForwarderRule, m: string, q: ForwarderRule) {
    && OtherRule(s, name, m, q) && q.gateway == t.gateway && RuleKey(q) != RuleKey(t)
    && LastStored(GatewayOf(s, t.gateway.name).spec.ingressRules, q.relayPort, RuleKey(t))
  }

  lemma PoolOfGateway(s: System, g: string)
    ensures PoolOf(UsedPortsForIngress(s.gateways), g) == UsedPortsOfGateway(GatewayOf(s, g).spec.ingressRules)
  {
  }

  /** A new key never gets a port that is stored. */
  lemma NewPortIsFree(ds: seq<Demand>, pools: Pools, i: nat, port: string)
    requires i < |ds| && !Held(PoolOf(pools, ds[i].pool), ds[i].key) && MayGet(ds, pools, i, port)
    ensures port !in PoolOf(pools, ds[i].pool)
  {
    hide NewKeys, Held, FirstAsk;
    TakenGrows(PoolOf(pools, ds[i].pool), |NewKeys(ds[..FirstAsk(ds, i)], pools, ds[i].pool)|);
  }

  lemma {:induction false} TakenGrows(pool: Pool, k: nat)
    ensures pool.Keys <= TakenPool(pool, k).Keys
  {
    hide FirstFree, Itoa;
    if k > 0 {
      TakenGrows(pool, k - 1);
    }
  }

  lemma ClashAtIffLastStored(s: System, es: ExternalService, view: ClusterView, i: nat, m: string, q: ForwarderRule)
    requires ValidSources(es.sources) && i < |IngressTemplates(es, view, es.sources)| && OthersStored(s, es.name)
    ensures ClashAt(s, es, view, i, m, q) <==> LastStoredAt(s, es.name, IngressTemplates(es, view, es.sources)[i], m, q)
  {
    hide IngressTemplates, ValidSources, GetRuleName, LastStored, NewPort, WellFormed, UsedPortsForIngress, UsedPortsOfGateway, PoolOf, GatewayOf, Covers;
    var t := IngressTemplates(es, view, es.sources)[i];
    var ds, pools := Demands(Ingress, IngressTemplates(es, view, es.sources)), UsedPortsForIngress(s.gateways);
    var g := t.gateway.name;
    assert ds[i] == DemandOf(Ingress, t);
    if OtherRule(s, es.name, m, q) && q.gateway == t.gateway {
      PoolOfGateway(s, g);
      PoolIsLastStored(GatewayOf(s, g).spec.ingressRules, q.relayPort, RuleKey(t));
      CoveredIsStored(s, q);
      if !Held(PoolOf(pools, g), RuleKey(t)) && MayGet(ds, pools, i, q.relayPort) {
        NewPortIsFree(ds, pools, i, q.relayPort);
        assert false;
      }
    }
  }

  lemma CoveredIsStored(s: System, q: ForwarderRule)
    requires RuleCovered(s, q)
    ensures q.relayPort in UsedPortsOfGateway(GatewayOf(s, q.gateway.name).spec.ingressRules)
  {
    var rules := s.gateways[q.gateway.name].spec.ingressRules;
    assert Covers(rules, q.relayPort, RuleKey(q));
    var p :| p in rules && p.relayPort == q.relayPort;
    PoolIsLastStored(rules, q.relayPort, "");
  }

  /** When the other forwarders' rules are stored in their gateways, a retry that completes ends all sharing of its
      forwarder, whatever the iteration order, if and only if no asked key is the last one stored at a port that
      another forwarder's rule on that gateway has for another key. */
  lemma RetryEndsSharingIffNotLast(s: System, es: ExternalService, view: ClusterView, possible: ForwarderSpec)
    requires OthersStored(s, es.name) && MayGenerateSpec(s, es, view, possible)
    ensures ValidSources(es.sources)
    ensures (forall spec :: MayGenerateSpec(s, es, view, spec) ==> !SharesWithOthers(s, es.name, spec.ingressRules)) <==>
            !AskedIsLastStored(s, es, view)
  {
    hide *;
    RetryEndsSharingIff(s, es, view, possible);
    MayClashIffLast(s, es, view);
  }

  lemma MayClashIffLast(s: System, es: ExternalService, view: ClusterView)
    requires ValidSources(es.sources) && OthersStored(s, es.name)
    ensures MayClash(s, es, view) <==> AskedIsLastStored(s, es, view)
  {
    hide ClashAt, LastStoredAt, OthersStored, IngressTemplates, ValidSources;
    var ts := IngressTemplates(es, view, es.sources);
    if i: nat, m, q :| i < |ts| && ClashAt(s, es, view, i, m, q) {
      ClashAtIffLastStored(s, es, view, i, m, q);
      assert ts[i] in ts;
    }
    if t, m, q :| t in ts && LastStoredAt(s, es.name, t, m, q) {
      var i: nat :| i < |ts| && ts[i] == t;
      ClashAtIffLastStored(s, es, view, i, m, q);
    }
  }
}
