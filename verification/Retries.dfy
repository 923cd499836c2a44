// Retries and deletions after an interruption, with operations of others in between.
module Retries {
  import opened Text
  import opened Address
  import opened Api
  import opened PortPool
  import opened RuleGen
  import opened Operator
  import opened Ledger
  import opened Cluster
  import opened Interruption
  import opened Sharing

  // ----- whatever happens in between -----

  /** What may happen while the reconciles of one ExternalService keep failing: any outcome of a completed reconcile
      of any other or of itself, its own reconciles stopping anywhere, others failing before they write rules, and
      deletions, completed or not */
  datatype Event =
    | Finished(es: ExternalService, view: ClusterView, spec: ForwarderSpec, order: seq<string>)
    | Stopped(es: ExternalService, view: ClusterView, spec: ForwarderSpec, order: seq<string>, written: set<string>)
    | Marked(name: string)
    | Deleted(name: string, order: seq<string>)

  ghost predicate Happens(s: System, e: Event, name: string, t: System) {
    match e
    case Finished(es, view, spec, order) => MayGenerateSpec(s, es, view, spec) && Completed(s, es.name, spec, order, t)
    case Stopped(es, view, spec, order, written) =>
      es.name == name && MayGenerateSpec(s, es, view, spec) && StoppedWith(s, name, spec, order, written, t)
    case Marked(n) => OnlyMarked(s, n, t)
    case Deleted(n, order) => Enumerates(order, t.forwarders.Keys) && PartlyDeleted(s, n, order, t)
  }

  lemma ProjectedIsCovered(fwds: map<string, Forwarder>, order: seq<string>, m: string, q: ForwarderRule)
    requires Enumerates(order, fwds.Keys) && m in fwds && q in fwds[m].spec.ingressRules && WellFormed(q)
    ensures Covers(Project(Ingress, order, fwds, q.gateway.name), q.relayPort, RuleKey(q))
  {
    hide GetRuleName, Project;
    var p := ToGatewayRule(m, fwds[m].spec.forwarderIP, q);
    assert Stems(Ingress, fwds, m, q, q.gateway.name, p);
    ProjectMeaning(Ingress, order, fwds, q.gateway.name, p);
  }

  /** A rule whose gateway is rewritten from all forwarders, or left alone, stays stored. */
  lemma StaysStored(s: System, t: System, order: seq<string>, m: string, q: ForwarderRule)
    requires Enumerates(order, t.forwarders.Keys) && m in t.forwarders && q in t.forwarders[m].spec.ingressRules && WellFormed(q)
    requires var g := q.gateway.name;
             g in t.gateways && (t.gateways[g].spec.ingressRules == Project(Ingress, order, t.forwarders, g)
                                 || (RuleCovered(s, q) && t.gateways[g].spec == s.gateways[g].spec))
    ensures RuleCovered(t, q)
  {
    hide GetRuleName, Project, WellFormed, Covers;
    if t.gateways[q.gateway.name].spec.ingressRules == Project(Ingress, order, t.forwarders, q.gateway.name) {
      ProjectedIsCovered(t.forwarders, order, m, q);
    }
  }

  lemma FinishedKeepsStored(s: System, es: ExternalService, view: ClusterView, spec: ForwarderSpec, order: seq<string>, t: System, name: string)
    requires OthersStored(s, name) && MayGenerateSpec(s, es, view, spec) && Completed(s, es.name, spec, order, t)
    ensures OthersStored(t, name)
  {
    OutcomeFormed(s, es, view, spec);
    hide GetRuleName, Project, WellFormed, Covers, MayGenerateSpec, AddressOf;
    forall m, q | OtherRule(t, name, m, q) ensures WellFormed(q) && RuleCovered(t, q) {
      if m != es.name {
        assert OtherRule(s, name, m, q);
      }
      assert q.gateway.name in t.gateways;
      StaysStored(s, t, order, m, q);
    }
  }

  lemma StoppedKeepsStored(s: System, spec: ForwarderSpec, order: seq<string>, written: set<string>, t: System, name: string)
    requires OthersStored(s, name) && StoppedWith(s, name, spec, order, written, t)
    ensures OthersStored(t, name)
  {
    hide GetRuleName, Project, WellFormed, Covers, AddressOf;
    var s1 := WithForwarder(s, name, spec);
    forall m, q | OtherRule(t, name, m, q) ensures WellFormed(q) && RuleCovered(t, q) {
      assert OtherRule(s, name, m, q);
      SameSpecsProject(s1.forwarders, t.forwarders, order, q.gateway.name);
      StaysStored(s, t, order, m, q);
    }
  }

  lemma SameSpecsProject(a: map<string, Forwarder>, b: map<string, Forwarder>, order: seq<string>, g: string)
    requires SameSpecs(a, b) && Enumerates(order, a.Keys)
    ensures Enumerates(order, b.Keys) && Project(Ingress, order, a, g) == Project(Ingress, order, b, g)
  {
    ProjectCongruent(order, a, b, g);
  }

  lemma DeletedKeepsStored(s: System, n: string, order: seq<string>, t: System, name: string)
    requires OthersStored(s, name) && Enumerates(order, t.forwarders.Keys) && PartlyDeleted(s, n, order, t)
    ensures OthersStored(t, name)
  {
    hide GetRuleName, Project, WellFormed, Covers;
    if t != s {
      forall m, q | OtherRule(t, name, m, q) ensures WellFormed(q) && RuleCovered(t, q) {
        assert OtherRule(s, name, m, q);
        StaysStored(s, t, order, m, q);
      }
    }
  }

  lemma MarkedKeepsStored(s: System, n: string, t: System, name: string)
    requires OthersStored(s, name) && OnlyMarked(s, n, t)
    ensures OthersStored(t, name)
  {
    hide GetRuleName, WellFormed, Covers;
    forall m, q | OtherRule(t, name, m, q) ensures WellFormed(q) && RuleCovered(t, q) {
      assert OtherRule(s, name, m, q);
    }
  }

  lemma EventKeepsStored(s: System, e: Event, name: string, t: System)
    requires OthersStored(s, name) && Happens(s, e, name, t)
    ensures OthersStored(t, name)
  {
    hide OthersStored, MayGenerateSpec, Completed, StoppedWith, OnlyMarked, PartlyDeleted, Enumerates;
    match e
    case Finished(es, view, spec, order) => FinishedKeepsStored(s, es, view, spec, order, t, name);
    case Stopped(_, _, spec, order, written) => StoppedKeepsStored(s, spec, order, written, t, name);
    case Marked(n) => MarkedKeepsStored(s, n, t, name);
    case Deleted(n, order) => DeletedKeepsStored(s, n, order, t, name);
  }

  datatype Happening = Happening(event: Event, after: System)

  ghost predicate Happened(s: System, name: string, hs: seq<Happening>)
    decreases |hs|
  {
    hs == [] || (Happens(s, hs[0].event, name, hs[0].after) && Happened(hs[0].after, name, hs[1..]))
  }

  function Since(s: System, hs: seq<Happening>): System {
    if hs == [] then s else hs[|hs| - 1].after
  }

  lemma {:induction false} HappenedKeepsStored(s: System, name: string, hs: seq<Happening>)
    requires OthersStored(s, name) && Happened(s, name, hs)
    ensures OthersStored(Since(s, hs), name)
    decreases |hs|
  {
    hide OthersStored, Happens;
    if hs != [] {
      EventKeepsStored(s, hs[0].event, name, hs[0].after);
      assert Since(s, hs) == Since(hs[0].after, hs[1..]);
      HappenedKeepsStored(hs[0].after, name, hs[1..]);
    }
  }

  lemma InvIsStored(s: System, name: string)
    requires Inv(s)
    ensures OthersStored(s, name)
  {
    hide GetRuleName;
    forall m, q | OtherRule(s, name, m, q) ensures WellFormed(q) && RuleCovered(s, q) {
      assert ForwarderOk(s, m);
    }
  }

  /** From a state with the invariant, let reconciles of one ExternalService fail and anything else happen in between.
      A retry that completes then ends all sharing of its forwarder, whatever the iteration order, if and only if no
      key it asks is the last one stored at a port that another forwarder's rule on that gateway has for another key. */
  lemma RetryAfterOthersEndsSharingIff(s: System, hs: seq<Happening>, es: ExternalService, view: ClusterView, possible: ForwarderSpec)
    requires Inv(s) && Happened(s, es.name, hs) && MayGenerateSpec(Since(s, hs), es, view, possible)
    ensures ValidSources(es.sources)
    ensures (forall spec :: MayGenerateSpec(Since(s, hs), es, view, spec) ==>
               !SharesWithOthers(Since(s, hs), es.name, spec.ingressRules)) <==>
            !AskedIsLastStored(Since(s, hs), es, view)
  {
    hide *;
    InvIsStored(s, es.name);
    HappenedKeepsStored(s, es.name, hs);
    RetryEndsSharingIffNotLast(Since(s, hs), es, view, possible);
  }

  // ----- deletion -----

  /** On each gateway the remaining rules have one port exactly for one key. */
  ghost predicate RestExclusive(s: System, name: string) {
    forall m, q, n, r :: OtherRule(s, name, m, q) && OtherRule(s, name, n, r) && q.gateway == r.gateway ==>
      (q.relayPort == r.relayPort <==> RuleKey(q) == RuleKey(r))
  }

  /** The gateways of the remaining rules were written with their addresses. */
  ghost predicate RestAddressed(s: System, name: string) {
    forall m, q :: OtherRule(s, name, m, q) ==>
      q.gateway.name in s.gateways && GetRuleName(s.gateways[q.gateway.name].spec.gatewayIP) == Some(q.gateway.name)
  }

  /** A completed deletion ends the sharing of the deleted forwarder and leaves that of the others exactly as it was.
      It restores the invariant if and only if the others share nothing and their gateways have addresses. */
  lemma DeletionRestoresIff(s: System, name: string, order: seq<string>)
    requires OthersStored(s, name) && LegalOp(s, Delete(name, order))
    ensures var t := Apply(s, Delete(name, order));
            && name !in t.forwarders
            && (forall m, n :: m != name && n != name ==> (SharedPort(t, m, n) <==> SharedPort(s, m, n)))
            && (Inv(t) <==> RestExclusive(s, name) && RestAddressed(s, name))
  {
    var t := Apply(s, Delete(name, order));
    forall m, n | m != name && n != name ensures SharedPort(t, m, n) <==> SharedPort(s, m, n) {
      SharedAlike(s, t, name, m, n);
    }
    hide Inv, RestExclusive, RestAddressed, Apply, SharedPort;
    if RestExclusive(s, name) && RestAddressed(s, name) {
      RestoredIfExclusive(s, name, order);
    }
    if Inv(t) {
      ExclusiveIfRestored(s, name, order);
    }
  }

  lemma SharedAlike(s: System, t: System, name: string, m: string, n: string)
    requires t.forwarders == s.forwarders - {name} && m != name && n != name
    ensures SharedPort(t, m, n) <==> SharedPort(s, m, n)
  {
    if SharedPort(s, m, n) {
      var r, q :| SharesPort(s, m, n, r, q);
      assert SharesPort(t, m, n, r, q);
    }
    if SharedPort(t, m, n) {
      var r, q :| SharesPort(t, m, n, r, q);
      assert SharesPort(s, m, n, r, q);
    }
  }

  lemma RemainingRule(s: System, name: string, order: seq<string>, g: string, p: GatewayRule) returns (m: string, q: ForwarderRule)
    requires LegalOp(s, Delete(name, order)) && p in Project(Ingress, order, s.forwarders - {name}, g)
    ensures OtherRule(s, name, m, q) && q.gateway == Ref(CONNECTOR_NAMESPACE, g)
    ensures p.relayPort == q.relayPort && GatewayKey(p) == RuleKey(q)
  {
    hide Project;
    ProjectMeaning(Ingress, order, s.forwarders - {name}, g, p);
    var n, r :| n in order && Stems(Ingress, s.forwarders - {name}, n, r, g, p);
    m, q := n, r;
  }

  lemma RestoredIfExclusive(s: System, name: string, order: seq<string>)
    requires OthersStored(s, name) && LegalOp(s, Delete(name, order)) && RestExclusive(s, name) && RestAddressed(s, name)
    ensures Inv(Apply(s, Delete(name, order)))
  {
    hide GetRuleName, Project, WellFormed, Covers, GatewayKey, RuleKey;
    var t := Apply(s, Delete(name, order));
    forall g | g in t.gateways ensures GatewayOk(t, g) {
      var rules := t.gateways[g].spec.ingressRules;
      forall a, b | a in rules && b in rules ensures a.relayPort == b.relayPort <==> GatewayKey(a) == GatewayKey(b) {
        var m, q := RemainingRule(s, name, order, g, a);
        var n, r := RemainingRule(s, name, order, g, b);
      }
      if rules != [] {
        var m, q := RemainingRule(s, name, order, g, rules[0]);
      }
    }
    forall n | n in t.forwarders ensures ForwarderOk(t, n) {
      forall r | r in t.forwarders[n].spec.ingressRules ensures WellFormed(r) && RuleCovered(t, r) {
        assert OtherRule(s, name, n, r);
        ProjectedIsCovered(t.forwarders, order, n, r);
      }
    }
  }

  lemma ExclusiveIfRestored(s: System, name: string, order: seq<string>)
    requires OthersStored(s, name) && LegalOp(s, Delete(name, order)) && Inv(Apply(s, Delete(name, order)))
    ensures RestExclusive(s, name) && RestAddressed(s, name)
  {
    hide GetRuleName, Project, WellFormed;
    var t := Apply(s, Delete(name, order));
    forall m, q | OtherRule(s, name, m, q)
      ensures q.gateway.name in s.gateways && GetRuleName(s.gateways[q.gateway.name].spec.gatewayIP) == Some(q.gateway.name)
    {
      StoredInDeleted(s, name, order, m, q);
    }
    forall m, q, n, r | OtherRule(s, name, m, q) && OtherRule(s, name, n, r) && q.gateway == r.gateway
      ensures q.relayPort == r.relayPort <==> RuleKey(q) == RuleKey(r)
    {
      StoredInDeleted(s, name, order, m, q);
      StoredInDeleted(s, name, order, n, r);
    }
  }

  lemma StoredInDeleted(s: System, name: string, order: seq<string>, m: string, q: ForwarderRule)
    requires OthersStored(s, name) && LegalOp(s, Delete(name, order)) && Inv(Apply(s, Delete(name, order)))
    requires OtherRule(s, name, m, q)
    ensures var t := Apply(s, Delete(name, order));
            var g := q.gateway.name;
            && g in s.gateways && g in t.gateways && GatewayOk(t, g) && t.gateways[g].spec.gatewayIP == s.gateways[g].spec.gatewayIP
            && Covers(t.gateways[g].spec.ingressRules, q.relayPort, RuleKey(q))
            && GetRuleName(s.gateways[g].spec.gatewayIP) == Some(g)
  {
    hide GetRuleName, Project;
    var t := Apply(s, Delete(name, order));
    assert WellFormed(q) && RuleCovered(s, q);
    ProjectedIsCovered(t.forwarders, order, m, q);
    assert GatewayOk(t, q.gateway.name);
    var rules := t.gateways[q.gateway.name].spec.ingressRules;
    assert Covers(rules, q.relayPort, RuleKey(q));
  }

  // ----- a retry that does not help -----

  const T1 := "192.168.122.139"
  const T2 := "192.168.122.140"

  function Rule(target: string): ForwarderRule
    requires GetRuleName(GATEWAY_IP).Some?
  {
    SpecOf(target, GATEWAY_IP, 80, Itoa(2049)).ingressRules[0]
  }

  function TargetOf(name: string): string {
    if name == "es1" then T1 else T2
  }

  /** What the gateway stores of one of the two */
  function Stored(name: string): GatewayRule
    requires GetRuleName(GATEWAY_IP).Some?
  {
    ToGatewayRule(name, "10.0.0.3", Rule(TargetOf(name)))
  }

  /** es1 was interrupted, es2 completed, and the gateway lists their rules in this order. */
  ghost predicate BothStored(s: System, first: string, second: string)
    requires GetRuleName(GATEWAY_IP).Some?
  {
    var g := GetRuleName(GATEWAY_IP).value;
    && s.forwarders.Keys == {"es1", "es2"} && s.gateways.Keys == {g}
    && (forall n :: n in s.forwarders ==> s.forwarders[n].spec == SpecOf(TargetOf(n), GATEWAY_IP, 80, Itoa(2049)))
    && s.gateways[g].spec.ingressRules == [Stored(first), Stored(second)]
  }

  lemma ProjectTwo(fwds: map<string, Forwarder>, g: string, first: string, second: string)
    requires first in fwds && second in fwds
    requires |fwds[first].spec.ingressRules| == 1 && fwds[first].spec.ingressRules[0].gateway == Ref(CONNECTOR_NAMESPACE, g)
    requires |fwds[second].spec.ingressRules| == 1 && fwds[second].spec.ingressRules[0].gateway == Ref(CONNECTOR_NAMESPACE, g)
    ensures Project(Ingress, [first, second], fwds, g)
            == [ToGatewayRule(first, fwds[first].spec.forwarderIP, fwds[first].spec.ingressRules[0]),
                ToGatewayRule(second, fwds[second].spec.forwarderIP, fwds[second].spec.ingressRules[0])]
  {
    hide ToGatewayRule;
    var f, r := fwds[first].spec, fwds[second].spec;
    assert f.ingressRules[..0] == [] && r.ingressRules[..0] == [];
    assert ProjectRules(first, f.forwarderIP, f.ingressRules, g) == [ToGatewayRule(first, f.forwarderIP, f.ingressRules[0])];
    assert ProjectRules(second, r.forwarderIP, r.ingressRules, g) == [ToGatewayRule(second, r.forwarderIP, r.ingressRules[0])];
    var order := [first, second];
    assert order[..1] == [first] && order[..1][..0] == [];
    assert Project(Ingress, order[..1][..0], fwds, g) == [];
    assert Project(Ingress, order[..1], fwds, g) == [ToGatewayRule(first, f.forwarderIP, f.ingressRules[0])];
  }

  /** What the gateway's pool reads back */
  lemma PoolOfBoth(s: System, first: string, second: string)
    requires GetRuleName(GATEWAY_IP).Some? && BothStored(s, first, second) && first != second
    ensures var pool := PoolOf(UsedPortsForIngress(s.gateways), GetRuleName(GATEWAY_IP).value);
            pool == map[Itoa(2049) := Key(TargetOf(second), Itoa(80))]
    ensures AllFunctional(UsedPortsForIngress(s.gateways))
  {
    hide GetRuleName, Itoa, Dotted;
    var g := GetRuleName(GATEWAY_IP).value;
    var rules := s.gateways[g].spec.ingressRules;
    assert rules[..1] == [rules[0]] && rules[..1][..0] == [];
    assert UsedPortsOfGateway(rules[..1][..0]) == map[];
    assert UsedPortsOfGateway(rules[..1]) == map[Itoa(2049) := GatewayKey(rules[0])];
    assert UsedPortsOfGateway(rules) == map[Itoa(2049) := GatewayKey(rules[1])];
    forall h ensures Functional(PoolOf(UsedPortsForIngress(s.gateways), h)) {}
  }

  lemma KeysDiffer()
    ensures Key(T1, Itoa(80)) != Key(T2, Itoa(80))
  {
    ItoaHasNoSeparator(80);
    hide Itoa, Key;
    KeyInjective(T1, Itoa(80), T2, Itoa(80));
    assert T1[13] != T2[13];
  }

  /** The retry leaves es1 on the port it finds and es2 where it was. */
  lemma Retried(s: System, first: string, second: string, relay: string, order: seq<string>)
    requires GetRuleName(GATEWAY_IP).Some? && BothStored(s, first, second) && Enumerates(order, {"es1", "es2"}) && "es1" != "es2"
    requires NewForwarderSpec(s, OneSource("es1", T1, GATEWAY_IP), OneService(80)) == Some(SpecOf(T1, GATEWAY_IP, 80, relay))
    ensures LegalOp(s, Reconcile(FIRST, VIEW, order))
    ensures var t := Apply(s, Reconcile(FIRST, VIEW, order));
            && t.forwarders.Keys == {"es1", "es2"} && t.forwarders["es1"].spec == SpecOf(T1, GATEWAY_IP, 80, relay)
            && t.forwarders["es2"].spec == SpecOf(T2, GATEWAY_IP, 80, Itoa(2049))
  {
    hide GetRuleName, Itoa, Dotted, NewForwarderSpec, NewGateway, AddressOf, SpecOf, Stored;
    assert s.forwarders.Keys + {"es1"} == {"es1", "es2"};
    AfterReconcile(s, "es1", SpecOf(T1, GATEWAY_IP, 80, relay), order);
  }

  lemma SharedIff(t: System, relay: string)
    requires GetRuleName(GATEWAY_IP).Some? && T1 != T2
    requires t.forwarders.Keys == {"es1", "es2"} && t.forwarders["es1"].spec == SpecOf(T1, GATEWAY_IP, 80, relay)
    requires t.forwarders["es2"].spec == SpecOf(T2, GATEWAY_IP, 80, Itoa(2049))
    ensures SharedPort(t, "es1", "es2") <==> relay == Itoa(2049)
  {
    hide GetRuleName, Itoa, Dotted;
    var r, q := t.forwarders["es1"].spec.ingressRules[0], t.forwarders["es2"].spec.ingressRules[0];
    if relay == Itoa(2049) {
      assert SharesPort(t, "es1", "es2", r, q);
    }
  }

  /** If the gateway lists es1 last, the retry finds es1's old port and stays on it. */
  lemma StaysShared(s: System, order: seq<string>)
    requires GetRuleName(GATEWAY_IP).Some? && BothStored(s, "es2", "es1") && Enumerates(order, {"es1", "es2"})
    ensures LegalOp(s, Reconcile(FIRST, VIEW, order)) && SharedPort(Apply(s, Reconcile(FIRST, VIEW, order)), "es1", "es2")
  {
    hide *;
    Apart();
    PoolOfBoth(s, "es2", "es1");
    SameForwarder(s, "es1", T1, GATEWAY_IP, 80, Itoa(2049));
    Retried(s, "es2", "es1", Itoa(2049), order);
    SharedIff(Apply(s, Reconcile(FIRST, VIEW, order)), Itoa(2049));
  }

  lemma Apart()
    ensures "es1" != "es2" && T1 != T2 && TargetOf("es1") == T1 && TargetOf("es2") == T2
  {
    assert "es1"[2] != "es2"[2] && T1[13] != T2[13];
  }

  /** If it lists es2 last, the retry does not find es1's key and moves to the next port. */
  lemma MovesAway(s: System, order: seq<string>)
    requires GetRuleName(GATEWAY_IP).Some? && BothStored(s, "es1", "es2") && Enumerates(order, {"es1", "es2"})
    ensures LegalOp(s, Reconcile(FIRST, VIEW, order)) && !SharedPort(Apply(s, Reconcile(FIRST, VIEW, order)), "es1", "es2")
  {
    hide *;
    Apart();
    KeysDiffer();
    PoolOfBoth(s, "es1", "es2");
    SecondFree(s);
    OneForwarder(s, "es1", T1, GATEWAY_IP, 80);
    Retried(s, "es1", "es2", Itoa(2050), order);
    SharedIff(Apply(s, Reconcile(FIRST, VIEW, order)), Itoa(2050));
    ItoaInjective(2050, 2049);
  }

  lemma SecondFree(s: System)
    requires GetRuleName(GATEWAY_IP).Some?
    requires var pool := PoolOf(UsedPortsForIngress(s.gateways), GetRuleName(GATEWAY_IP).value);
             pool == map[Itoa(2049) := Key(TargetOf("es2"), Itoa(80))]
    requires Key(T1, Itoa(80)) != Key(T2, Itoa(80)) && TargetOf("es2") == T2
    ensures var pool := PoolOf(UsedPortsForIngress(s.gateways), GetRuleName(GATEWAY_IP).value);
            !Held(pool, Key(T1, Itoa(80))) && FirstFree(pool, MIN_PORT) == Some(2050)
  {
    ItoaInjective(2049, 2050);
    hide GetRuleName, Itoa, Dotted, UsedPortsForIngress, PoolOf, Key;
    var pool := PoolOf(UsedPortsForIngress(s.gateways), GetRuleName(GATEWAY_IP).value);
    assert Itoa(2049) in pool && Itoa(2050) !in pool;
    assert FirstFree(pool, 2050) == Some(2050);
  }

  /** es1 after it was interrupted before its gateway was written */
  ghost predicate FirstInterrupted(s: System)
    requires GetRuleName(GATEWAY_IP).Some?
  {
    s.forwarders.Keys == {"es1"} && s.gateways == map[] && s.forwarders["es1"].spec == SpecOf(T1, GATEWAY_IP, 80, Itoa(2049))
  }

  lemma SecondCompletes(s1: System, order: seq<string>)
    requires GetRuleName(GATEWAY_IP).Some? && FirstInterrupted(s1) && (order == ["es1", "es2"] || order == ["es2", "es1"])
    ensures LegalOp(s1, Reconcile(SECOND, VIEW, order)) && Enumerates(order, {"es1", "es2"})
    ensures BothStored(Apply(s1, Reconcile(SECOND, VIEW, order)), order[0], order[1])
  {
    hide *;
    Apart();
    NoGateways(s1, order);
    FirstPort(s1, "es2", T2);
    AppliedIs(s1, SECOND, VIEW, SpecOf(T2, GATEWAY_IP, 80, Itoa(2049)), order);
    WrittenByBoth(s1, SpecOf(T2, GATEWAY_IP, 80, Itoa(2049)), order);
  }

  lemma NoGateways(s1: System, order: seq<string>)
    requires GetRuleName(GATEWAY_IP).Some? && FirstInterrupted(s1) && (order == ["es1", "es2"] || order == ["es2", "es1"])
    ensures s1.gateways == map[] && SECOND == OneSource("es2", T2, GATEWAY_IP) && SECOND.name == "es2"
    ensures LegalOp(s1, Reconcile(SECOND, VIEW, order)) && Enumerates(order, {"es1", "es2"})
  {
    hide GetRuleName, Dotted, Itoa;
    assert s1.forwarders.Keys + {"es2"} == {"es1", "es2"};
  }

  lemma AppliedIs(s: System, es: ExternalService, view: ClusterView, spec: ForwarderSpec, order: seq<string>)
    requires LegalOp(s, Reconcile(es, view, order)) && NewForwarderSpec(s, es, view) == Some(spec)
    ensures Enumerates(order, WithForwarder(s, es.name, spec).forwarders.Keys)
    ensures Apply(s, Reconcile(es, view, order)) == WithGateways(WithForwarder(s, es.name, spec), es.name, order)
  {
    hide NewForwarderSpec;
    AfterReconcile(s, es.name, spec, order);
  }

  lemma WrittenByBoth(s1: System, spec: ForwarderSpec, order: seq<string>)
    requires GetRuleName(GATEWAY_IP).Some? && FirstInterrupted(s1) && (order == ["es1", "es2"] || order == ["es2", "es1"])
    requires spec == SpecOf(T2, GATEWAY_IP, 80, Itoa(2049)) && "es1" != "es2"
    requires Enumerates(order, WithForwarder(s1, "es2", spec).forwarders.Keys)
    ensures BothStored(WithGateways(WithForwarder(s1, "es2", spec), "es2", order), order[0], order[1])
  {
    hide GetRuleName, Itoa, Dotted, AddressOf, Enumerates, Project, ToGatewayRule;
    var s2 := WithForwarder(s1, "es2", spec);
    var g := GetRuleName(GATEWAY_IP).value;
    assert s2.forwarders.Keys == {"es1", "es2"};
    assert Named(spec.ingressRules) == {g};
    assert s2.forwarders["es1"].spec.ingressRules == [Rule(T1)] && s2.forwarders["es2"].spec.ingressRules == [Rule(T2)];
    assert Rule(T1).gateway == Ref(CONNECTOR_NAMESPACE, g) && Rule(T2).gateway == Ref(CONNECTOR_NAMESPACE, g);
    ProjectTwo(s2.forwarders, g, order[0], order[1]);
    assert [order[0], order[1]] == order;
  }

  /** es1 is interrupted between its writes, then es2 completes, then es1 is retried and completes. Whether both still
      share the relay port depends on the order in which the forwarders were listed when es2 wrote the gateway. */
  lemma RetryMayNotHelp()
    ensures GetRuleName(GATEWAY_IP).Some? && NewForwarderSpec(EMPTY_SYSTEM, FIRST, VIEW).Some?
    ensures var s1 := WithForwarder(EMPTY_SYSTEM, "es1", NewForwarderSpec(EMPTY_SYSTEM, FIRST, VIEW).value);
            && StoppedWriting(EMPTY_SYSTEM, FIRST, VIEW, ["es1"], {}, s1)
            && LegalOp(s1, Reconcile(SECOND, VIEW, ["es2", "es1"])) && LegalOp(s1, Reconcile(SECOND, VIEW, ["es1", "es2"]))
            && var bad := Apply(s1, Reconcile(SECOND, VIEW, ["es2", "es1"]));
               var good := Apply(s1, Reconcile(SECOND, VIEW, ["es1", "es2"]));
               && LegalOp(bad, Reconcile(FIRST, VIEW, ["es2", "es1"])) && LegalOp(good, Reconcile(FIRST, VIEW, ["es2", "es1"]))
               && SharedPort(Apply(bad, Reconcile(FIRST, VIEW, ["es2", "es1"])), "es1", "es2")
               && !SharedPort(Apply(good, Reconcile(FIRST, VIEW, ["es2", "es1"])), "es1", "es2")
  {
    hide *;
    FirstPort(EMPTY_SYSTEM, "es1", T1) by { AtStart(); }
    AtStart();
    FirstStops();
    var s1 := WithForwarder(EMPTY_SYSTEM, "es1", NewForwarderSpec(EMPTY_SYSTEM, FIRST, VIEW).value);
    SecondCompletes(s1, ["es2", "es1"]);
    SecondCompletes(s1, ["es1", "es2"]);
    StaysShared(Apply(s1, Reconcile(SECOND, VIEW, ["es2", "es1"])), ["es2", "es1"]);
    MovesAway(Apply(s1, Reconcile(SECOND, VIEW, ["es1", "es2"])), ["es2", "es1"]);
  }

  lemma AtStart()
    ensures EMPTY_SYSTEM.gateways == map[] && FIRST == OneSource("es1", T1, GATEWAY_IP)
  {
  }

  lemma FirstStops()
    requires GetRuleName(GATEWAY_IP).Some?
    requires NewForwarderSpec(EMPTY_SYSTEM, FIRST, VIEW) == Some(SpecOf(T1, GATEWAY_IP, 80, Itoa(2049)))
    ensures var s1 := WithForwarder(EMPTY_SYSTEM, "es1", NewForwarderSpec(EMPTY_SYSTEM, FIRST, VIEW).value);
            FirstInterrupted(s1) && StoppedWriting(EMPTY_SYSTEM, FIRST, VIEW, ["es1"], {}, s1)
  {
    hide GetRuleName, Dotted, NewForwarderSpec, Itoa;
    var s1 := WithForwarder(EMPTY_SYSTEM, "es1", NewForwarderSpec(EMPTY_SYSTEM, FIRST, VIEW).value);
    assert s1.forwarders.Keys == {"es1"};
  }
}
