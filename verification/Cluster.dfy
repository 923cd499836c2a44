// The operator's methods over an API server whose writes may fail (pkg/controller/externalservice/reconciler.go).
module Cluster {
  import opened Text
  import opened Address
  import opened Api
  import opened PortPool
  import opened RuleGen
  import opened Operator
  import opened Ledger
  import opened Printed

  method GenUsedPortsForEgress(rules: seq<ForwarderRule>) returns (used: Pool)
    ensures used == UsedPortsForEgress(rules)
  {
    used := map[];
    for i := 0 to |rules|
      invariant used == UsedPortsForEgress(rules[..i])
    {
      assert rules[..i + 1][..i] == rules[..i];
      used := used[rules[i].relayPort := rules[i].targetPort];
    }
    assert rules[..|rules|] == rules;
  }

  method GenUsedPortsOfGateway(rules: seq<GatewayRule>) returns (used: Pool)
    ensures used == UsedPortsOfGateway(rules)
  {
    used := map[];
    for i := 0 to |rules|
      invariant used == UsedPortsOfGateway(rules[..i])
    {
      assert rules[..i + 1][..i] == rules[..i];
      used := used[rules[i].relayPort := rules[i].sourceIP + ":" + rules[i].targetPort];
    }
    assert rules[..|rules|] == rules;
  }

  method GenUsedPortsForIngress(gws: map<string, Gateway>) returns (used: Pools)
    ensures used == UsedPortsForIngress(gws)
  {
    used := map[];
    var todo := gws.Keys;
    while todo != {}
      invariant todo <= gws.Keys
      invariant used == map g | g in gws && g !in todo :: UsedPortsOfGateway(gws[g].spec.ingressRules)
    {
      var g :| g in todo;
      var pool := GenUsedPortsOfGateway(gws[g].spec.ingressRules);
      used := used[g := pool];
      todo := todo - {g};
    }
  }

  /** genGatewayEgressRules and genGatewayIngressRules */
  method GenGatewayRules(dir: Direction, order: seq<string>, fwds: map<string, Forwarder>, g: string)
    returns (rules: seq<GatewayRule>)
    requires forall n :: n in order ==> n in fwds
    ensures rules == Project(dir, order, fwds, g)
  {
    hide ToGatewayRule, RulesOf;
    rules := [];
    for i := 0 to |order|
      invariant forall n :: n in order[..i] ==> n in fwds
      invariant rules == Project(dir, order[..i], fwds, g)
    {
      var n := order[i];
      var fr := RulesOf(dir, fwds[n].spec);
      ghost var before := rules;
      for j := 0 to |fr|
        invariant rules == before + ProjectRules(n, fwds[n].spec.forwarderIP, fr[..j], g)
      {
        assert fr[..j + 1][..j] == fr[..j];
        if fr[j].gateway.namespace != CONNECTOR_NAMESPACE || fr[j].gateway.name != g {
          continue;
        }
        rules := rules + [ToGatewayRule(n, fwds[n].spec.forwarderIP, fr[j])];
      }
      assert fr[..|fr|] == fr;
      assert order[..i + 1][..i] == order[..i];
    }
    assert order[..|order|] == order;
  }

  /** getUniqueGatwey: the first gateway named for each gateway address */
  method GetUniqueGateway(rules: seq<ForwarderRule>) returns (m: map<string, Ref>)
    ensures forall r :: r in rules ==> r.gatewayIP in m
    ensures forall ip :: ip in m ==> exists r :: r in rules && r.gatewayIP == ip && r.gateway == m[ip]
  {
    m := map[];
    for i := 0 to |rules|
      invariant forall r :: r in rules[..i] ==> r.gatewayIP in m
      invariant forall ip :: ip in m ==> exists r :: r in rules && r.gatewayIP == ip && r.gateway == m[ip]
    {
      if rules[i].gatewayIP in m {
        continue;
      }
      m := m[rules[i].gatewayIP := rules[i].gateway];
    }
  }

  /** Some order of all maps lets the reconcile generate its rules. */
  ghost predicate CanGenerate(s: System, es: ExternalService, view: ClusterView) {
    exists possible :: MayGenerateSpec(s, es, view, possible)
  }

  lemma NoEgressOutcome(s: System, es: ExternalService, view: ClusterView, used: Pool)
    requires used == UsedPortsForEgress(ForwarderOf(s, es.name).spec.egressRules)
    requires ValidSources(es.sources) ==>
               forall possible :: !MayGenerate(Egress, EgressTemplates(es, view, es.sources), map["" := used], possible)
    ensures !CanGenerate(s, es, view)
  {
    hide MayGenerate, EgressTemplates, IngressTemplates, ValidSources;
    assert forall possible: ForwarderSpec :: ValidSources(es.sources) ==>
        !MayGenerate(Egress, EgressTemplates(es, view, es.sources), map["" := used], possible.egressRules);
  }

  lemma NoIngressOutcome(s: System, es: ExternalService, view: ClusterView)
    requires ValidSources(es.sources) ==>
               forall possible :: !MayGenerate(Ingress, IngressTemplates(es, view, es.sources), UsedPortsForIngress(s.gateways), possible)
    ensures !CanGenerate(s, es, view)
  {
    hide MayGenerate, EgressTemplates, IngressTemplates, ValidSources, UsedPortsForIngress;
    assert forall possible: ForwarderSpec :: ValidSources(es.sources) ==>
        !MayGenerate(Ingress, IngressTemplates(es, view, es.sources), UsedPortsForIngress(s.gateways), possible.ingressRules);
  }

  class ApiServer {
    var state: System
    /** False while writes may be rejected */
    var healthy: bool

    constructor ()
      ensures state == EMPTY_SYSTEM && healthy
    {
      state, healthy := EMPTY_SYSTEM, true;
    }

    /** A create or update that either takes effect or is rejected. The operator creates objects empty, marks them as
        updating, writes their spec or publishes them, and does nothing else to them. */
    method PutForwarder(name: string, f: Forwarder) returns (ok: bool)
      requires UpdateWrite(StoredForwarder(state, name), Content(f.spec, f.status), ForwarderSpec([], [], ""))
      modifies this`state
      ensures state == if ok then old(state).(forwarders := old(state).forwarders[name := f]) else old(state)
      ensures healthy ==> ok
    {
      ok := *;
      if healthy {
        ok := true;
      }
      if ok {
        state := state.(forwarders := state.forwarders[name := f]);
      }
    }

    method PutGateway(g: string, gw: Gateway) returns (ok: bool)
      requires UpdateWrite(StoredGateway(state, g), Content(gw.spec, gw.status), GatewaySpec([], [], ""))
      modifies this`state
      ensures state == if ok then old(state).(gateways := old(state).gateways[g := gw]) else old(state)
      ensures healthy ==> ok
    {
      ok := *;
      if healthy {
        ok := true;
      }
      if ok {
        state := state.(gateways := state.gateways[g := gw]);
      }
    }

    method DeleteForwarder(name: string) returns (ok: bool)
      modifies this`state
      ensures state == if ok then old(state).(forwarders := old(state).forwarders - {name}) else old(state)
      ensures healthy ==> ok
    {
      ok := *;
      if healthy {
        ok := true;
      }
      if ok {
        state := state.(forwarders := state.forwarders - {name});
      }
    }

    /** The forwarders that exist, in whatever order the client returns them */
    method ListForwarders() returns (order: seq<string>)
      ensures Enumerates(order, state.forwarders.Keys)
    {
      order := [];
      var todo := state.forwarders.Keys;
      while todo != {}
        invariant todo <= state.forwarders.Keys
        invariant Enumerates(order, state.forwarders.Keys - todo)
      {
        var n :| n in todo;
        order := order + [n];
        todo := todo - {n};
      }
    }

    /** The middle part of updateForwarderRules: read pools back and generate both rule lists */
    method GenerateSpec(fwd: Forwarder, es: ExternalService, view: ClusterView) returns (spec: Option<ForwarderSpec>)
      requires fwd.spec == ForwarderOf(state, es.name).spec
      ensures spec.Some? ==> MayGenerateSpec(state, es, view, spec.value)
      ensures spec.Some? <==> CanGenerate(state, es, view)
      ensures PoolsFunctional(state, es.name) ==> spec == NewForwarderSpec(state, es, view)
    {
      hide EgressRules, IngressRules, Functional, Produced, Project, EgressTemplates, IngressTemplates, MayGenerate, ValidSources;
      if view.podIP.None? || view.podIP.value == "" {
        return None;
      }
      var used := GenUsedPortsForEgress(fwd.spec.egressRules);
      var ePorts := new EgressPool(used);
      var eRules := GenForwarderEgressRules(es, view, ePorts);
      if eRules.None? {
        NoEgressOutcome(state, es, view, used);
        return None;
      }
      ProducedIsOutcome(Egress, EgressTemplates(es, view, es.sources), eRules.value, map["" := used], map["" := ePorts.used]);
      var usedPorts := GenUsedPortsForIngress(state.gateways);
      var iPorts := new IngressPools(usedPorts);
      var iRules := GenForwarderIngressRules(es, view, iPorts);
      if iRules.None? {
        NoIngressOutcome(state, es, view);
        return None;
      }
      ProducedIsOutcome(Ingress, IngressTemplates(es, view, es.sources), iRules.value, usedPorts, iPorts.used);
      return Some(ForwarderSpec(eRules.value, iRules.value, view.podIP.value));
    }

    /** updateForwarderRules: mark as updating, write the rules, publish them. `spec` is what was generated. */
    method UpdateForwarderRules(es: ExternalService, view: ClusterView) returns (ok: bool, ghost spec: Option<ForwarderSpec>)
      modifies this`state
      ensures state == old(state).(forwarders := state.forwarders)
      ensures state.forwarders == old(state).forwarders
              || state.forwarders == old(state).forwarders[es.name := ForwarderOf(state, es.name)]
      ensures spec.Some? ==> MayGenerateSpec(old(state), es, view, spec.value)
      ensures PoolsFunctional(old(state), es.name) && spec.Some? ==> NewForwarderSpec(old(state), es, view) == spec
      ensures ok ==> CanGenerate(old(state), es, view)
      ensures healthy && CanGenerate(old(state), es, view) ==> ok
      ensures ok ==> es.name in state.forwarders
                     && FreshlyPublished(ForwarderOf(old(state), es.name).status, state.forwarders[es.name].status)
      ensures if ok then spec.Some? && state == WithForwarder(old(state), es.name, spec.value)
              else PartlyUpdated(old(state), es.name, spec, ForwarderOf(state, es.name))
    {
      hide NewForwarderSpec, PoolsFunctional, MayGenerateSpec;
      spec := None;
      var fwd := ForwarderOf(state, es.name);
      if es.name !in state.forwarders {
        ok := PutForwarder(es.name, fwd);
        if !ok {
          return;
        }
      }
      if fwd.status.updating != IsTrue {
        fwd := fwd.(status := fwd.status.(updating := IsTrue));
        ok := PutForwarder(es.name, fwd);
        if !ok {
          return;
        }
      }
      assert fwd == Forwarder(ForwarderOf(old(state), es.name).spec, Updating(ForwarderOf(old(state), es.name).status));
      GenerationReads(old(state), state, es, view);
      var generated := GenerateSpec(fwd, es, view);
      spec := generated;
      if generated.None? {
        ok := false;
        return;
      }
      fwd := fwd.(spec := generated.value);
      ok := PutForwarder(es.name, fwd);
      if !ok {
        return;
      }
      fwd := fwd.(status := fwd.status.(updating := IsFalse, syncing := IsUnknown, ruleGeneration := fwd.status.ruleGeneration + 1));
      ok := PutForwarder(es.name, fwd);
    }

    /** updateRulesForOneGateway: mark as updating, write the projected rules, publish them */
    method UpdateRulesForOneGateway(order: seq<string>, g: string, ip: string) returns (ok: bool, ghost wrote: bool)
      requires Enumerates(order, state.forwarders.Keys) && g in state.gateways
      modifies this`state
      ensures state.forwarders == old(state).forwarders && g in state.gateways
      ensures state.gateways == old(state).gateways[g := state.gateways[g]]
      ensures ok ==> wrote && state.gateways[g] == NewGateway(old(state), order, g, ip)
      ensures ok ==> FreshlyPublished(old(state).gateways[g].status, state.gateways[g].status)
      ensures wrote ==> state.gateways[g].spec.gatewayIP == ip
      ensures state.gateways[g].spec ==
              if wrote then NewGateway(old(state), order, g, ip).spec else old(state).gateways[g].spec
      ensures !ok && wrote ==> state.gateways[g].status.updating == IsTrue
      ensures healthy ==> ok
    {
      wrote := false;
      var gw := state.gateways[g];
      if gw.status.updating != IsTrue {
        gw := gw.(status := gw.status.(updating := IsTrue));
        ok := PutGateway(g, gw);
        if !ok {
          return;
        }
      }
      var eRules := GenGatewayRules(Egress, order, state.forwarders, g);
      var iRules := GenGatewayRules(Ingress, order, state.forwarders, g);
      gw := gw.(spec := GatewaySpec(eRules, iRules, ip));
      ok := PutGateway(g, gw);
      if !ok {
        return;
      }
      wrote := true;
      gw := gw.(status := gw.status.(updating := IsFalse, syncing := IsUnknown, ruleGeneration := gw.status.ruleGeneration + 1));
      ok := PutGateway(g, gw);
    }

    /** One round of updateGatewayRules: create the gateway if need be, then update it */
    method EnsureGateway(order: seq<string>, g: string, ip: string) returns (ok: bool, ghost wrote: bool)
      requires Enumerates(order, state.forwarders.Keys)
      modifies this`state
      ensures state.forwarders == old(state).forwarders
      ensures ok ==> wrote && state == old(state).(gateways := old(state).gateways[g := NewGateway(old(state), order, g, ip)])
      ensures !ok ==>
                || (state == old(state) && !wrote)
                || (g in state.gateways
                    && state.gateways == old(state).gateways[g := state.gateways[g]]
                    && state.gateways[g].spec ==
                       if wrote then NewGateway(old(state), order, g, ip).spec else GatewayOf(old(state), g).spec)
      ensures healthy ==> ok
    {
      hide Project, Enumerates;
      wrote := false;
      if g !in state.gateways {
        ok := PutGateway(g, Gateway(EMPTY_GATEWAY, NO_STATUS));
        if !ok {
          return;
        }
      }
      ok, wrote := UpdateRulesForOneGateway(order, g, ip);
    }

    /** updateGatewayRules: rewrite the gateways the forwarder's ingress rules name, in any order */
    method UpdateGatewayRules(name: string) returns (ok: bool, ghost order: seq<string>, ghost written: set<string>)
      modifies this`state
      ensures Enumerates(order, state.forwarders.Keys)
      ensures state.forwarders == old(state).forwarders
      ensures name !in old(state).forwarders ==> !ok && state == old(state)
      ensures healthy && name in old(state).forwarders ==> ok
      ensures name in old(state).forwarders
              && (forall r :: r in old(state).forwarders[name].spec.ingressRules ==> WellFormed(r)) ==>
                && Interrupted(old(state), name, order, written, state)
                && (ok ==> state == WithGateways(old(state), name, order))
    {
      hide Project, WellFormed, NewGateway, GetRuleName, Interrupted, Enumerates, Rewritten;
      written := {};
      if name !in state.forwarders {
        order := Listing(state.forwarders.Keys);
        ok := false;
        return;
      }
      var fwds := ListForwarders();
      order := fwds;
      ghost var s := state;
      ghost var rules := s.forwarders[name].spec.ingressRules;
      var unique := GetUniqueGateway(state.forwarders[name].spec.ingressRules);
      RewrittenEnds(s, name, order);
      assert NamesOf(unique, {}) == {};
      var todo := unique.Keys;
      while todo != {}
        invariant todo <= unique.Keys && state.forwarders == s.forwarders
        invariant AllFormed(rules) ==> written == NamesOf(unique, unique.Keys - todo) && written <= Named(rules)
        invariant AllFormed(rules) ==> state == Rewritten(s, order, rules, written)
      {
        var ip :| ip in todo;
        var g := unique[ip].name;
        ghost var before := state;
        ghost var wrote;
        ok, wrote := EnsureGateway(fwds, g, ip);
        if AllFormed(rules) {
          UniqueNames(rules, unique, ip, todo);
          OneMoreRewritten(s, order, rules, written, g, before, state);
          if !ok {
            StoppedHere(s, name, order, written, g, before, state, wrote);
          }
        }
        if wrote {
          written := written + {g};
        }
        if !ok {
          return;
        }
        todo := todo - {ip};
      }
      if AllFormed(rules) {
        AllNamed(rules, unique);
        assert unique.Keys - todo == unique.Keys;
        RewrittenEnds(s, name, order);
      }
      ok := true;
    }

    /** Reconcile of an ExternalService that is not being deleted, from any state at all: its whole effect, or one of
        the ways to stop. */
    method Reconcile(es: ExternalService, view: ClusterView)
      returns (ok: bool, ghost spec: Option<ForwarderSpec>, ghost order: seq<string>, ghost written: set<string>)
      modifies this`state
      ensures ok ==> spec.Some?
      ensures spec.Some? ==> MayGenerateSpec(old(state), es, view, spec.value)
      ensures Enumerates(order, old(state).forwarders.Keys + {es.name})
      ensures if ok then Completed(old(state), es.name, spec.value, order, state)
              else OnlyMarked(old(state), es.name, state)
                   || (spec.Some? && StoppedWith(old(state), es.name, spec.value, order, written, state))
      // it completes only if some outcome of generation is possible, and always then while no write is rejected
      ensures ok ==> CanGenerate(old(state), es, view)
      ensures healthy && CanGenerate(old(state), es, view) ==> ok
      // what this means when the pools that are read back give each key one port
      ensures PoolsFunctional(old(state), es.name) ==>
                if ok then
                  LegalOp(old(state), Op.Reconcile(es, view, order)) && state == Apply(old(state), Op.Reconcile(es, view, order))
                else
                  OnlyMarked(old(state), es.name, state) || StoppedWriting(old(state), es, view, order, written, state)
    {
      hide NewForwarderSpec, PoolsFunctional, Interrupted, MayGenerateSpec, WellFormed, Enumerates;
      ghost var s := state;
      ok, spec := UpdateForwarderRules(es, view);
      if !ok {
        written := {};
        order := Listing(s.forwarders.Keys + {es.name});
        StoppedEarly(s, es.name, spec, order, state);
        return;
      }
      OutcomeFormed(s, es, view, spec.value);
      ForwarderWritten(s, es.name, spec.value);
      ok, order, written := UpdateGatewayRules(es.name);
    }

    /** deleteResourceForExternalService: drop the forwarder, then rewrite all gateways, in any order */
    method DeleteResource(name: string) returns (ok: bool, ghost order: seq<string>)
      modifies this`state
      ensures Enumerates(order, state.forwarders.Keys)
      ensures ok ==> state.forwarders.Keys == old(state).forwarders.Keys - {name}
                     && state == WithoutForwarder(old(state), name, order)
      ensures PartlyDeleted(old(state), name, order, state)
      ensures healthy ==> ok
    {
      if name in state.forwarders {
        ok := DeleteForwarder(name);
      }
      var fwds := ListForwarders();
      order := fwds;
      if name in state.forwarders {
        ok := false;
        return;
      }
      ghost var rest := old(state).(forwarders := old(state).forwarders - {name});
      assert rest.forwarders == state.forwarders;
      assert rest == state;
      ok := RewriteAll(fwds);
    }

    /** The last loop of deleteResourceForExternalService */
    method RewriteAll(order: seq<string>) returns (ok: bool)
      requires Enumerates(order, state.forwarders.Keys)
      modifies this`state
      ensures state.forwarders == old(state).forwarders && state.gateways.Keys == old(state).gateways.Keys
      ensures ok ==> state.gateways ==
                     map g | g in old(state).gateways :: NewGateway(old(state), order, g, old(state).gateways[g].spec.gatewayIP)
      ensures forall g :: g in state.gateways ==>
                || state.gateways[g].spec == old(state).gateways[g].spec
                || state.gateways[g].spec == NewGateway(old(state), order, g, old(state).gateways[g].spec.gatewayIP).spec
      ensures healthy ==> ok
    {
      hide Project;
      ghost var s := state;
      var todo := state.gateways.Keys;
      while todo != {}
        invariant todo <= s.gateways.Keys && state.forwarders == s.forwarders
        invariant state.gateways.Keys == s.gateways.Keys
        invariant forall g :: g in s.gateways ==>
                    (state.gateways[g] ==
                     if g in todo then s.gateways[g] else NewGateway(s, order, g, s.gateways[g].spec.gatewayIP))
      {
        var g :| g in todo;
        ghost var wrote;
        ok, wrote := UpdateRulesForOneGateway(order, g, state.gateways[g].spec.gatewayIP);
        if !ok {
          return;
        }
        todo := todo - {g};
      }
      ok := true;
    }
  }

  /** A forwarder update that stops anywhere leaves the old rules, or the new ones still marked as updating. */
  ghost predicate PartlyUpdated(s: System, name: string, spec: Option<ForwarderSpec>, f: Forwarder) {
    var was := ForwarderOf(s, name);
    || f == was
    || f == was.(status := Updating(was.status))
    || (f.status == Updating(was.status) && spec == Some(f.spec))
  }

  /** A completed reconcile that generated `spec` */
  ghost predicate Completed(s: System, name: string, spec: ForwarderSpec, order: seq<string>, t: System) {
    var s1 := WithForwarder(s, name, spec);
    Enumerates(order, s1.forwarders.Keys) && t == WithGateways(s1, name, order)
  }

  /** No rule was written: at most the forwarder was created empty or marked as updating. */
  ghost predicate OnlyMarked(s: System, name: string, t: System) {
    && t.gateways == s.gateways
    && (t.forwarders == s.forwarders
        || (name in t.forwarders && t.forwarders == s.forwarders[name := t.forwarders[name]]
            && t.forwarders[name].spec == ForwarderOf(s, name).spec))
  }

  lemma StoppedEarly(s: System, name: string, spec: Option<ForwarderSpec>, order: seq<string>, t: System)
    requires t == s.(forwarders := t.forwarders) && Enumerates(order, s.forwarders.Keys + {name})
    requires t.forwarders == s.forwarders || t.forwarders == s.forwarders[name := ForwarderOf(t, name)]
    requires PartlyUpdated(s, name, spec, ForwarderOf(t, name))
    ensures OnlyMarked(s, name, t) || (spec.Some? && StoppedWith(s, name, spec.value, order, {}, t))
  {
    if !OnlyMarked(s, name, t) {
      var s1 := WithForwarder(s, name, spec.value);
      assert s1.forwarders.Keys == s.forwarders.Keys + {name};
    }
  }

  /** What a stopped reconcile means for the invariant: nothing if no rule was written, and otherwise it holds
      exactly if every key asked of a gateway that was not reached was known there. */
  lemma StoppedReconcileIsSafeIff(s: System, es: ExternalService, view: ClusterView, order: seq<string>, written: set<string>, t: System)
    requires Inv(s) && (OnlyMarked(s, es.name, t) || StoppedWriting(s, es, view, order, written, t))
    ensures ValidSources(es.sources) || OnlyMarked(s, es.name, t)
    ensures Inv(t) <==> OnlyMarked(s, es.name, t) || UnreachedKnown(s, IngressTemplates(es, view, es.sources), written)
  {
    hide NewForwarderSpec, GetRuleName;
    if OnlyMarked(s, es.name, t) {
      hide Covers, WellFormed, Bijective;
      forall g | g in t.gateways ensures GatewayOk(t, g) {
        assert GatewayOk(s, g);
      }
      forall n | n in t.forwarders ensures ForwarderOk(t, n) {
        forall r | r in t.forwarders[n].spec.ingressRules ensures WellFormed(r) && RuleCovered(t, r) {
          assert n in s.forwarders && ForwarderOk(s, n);
          assert RuleCovered(s, r);
        }
      }
    } else {
      InterruptionIsSafeIff(s, es, view, order, written, t);
    }
  }

  /** Whatever failed reconciles of one ExternalService leave behind, no rule of another is missing from a gateway. */
  lemma StoppedReconcileIsRecoverable(s: System, es: ExternalService, view: ClusterView, order: seq<string>, written: set<string>, t: System)
    requires Recoverable(s, es.name) && (OnlyMarked(s, es.name, t) || StoppedWriting(s, es, view, order, written, t))
    ensures Recoverable(t, es.name)
  {
    hide NewForwarderSpec, GetRuleName;
    if OnlyMarked(s, es.name, t) {
      hide Covers, WellFormed, Bijective;
      forall g | g in t.gateways ensures GatewayOk(t, g) {
        assert GatewayOk(s, g);
      }
      forall n | n in t.forwarders && n != es.name ensures ForwarderOk(t, n) {
        forall r | r in t.forwarders[n].spec.ingressRules ensures WellFormed(r) && RuleCovered(t, r) {
          assert n in s.forwarders && ForwarderOk(s, n);
          assert RuleCovered(s, r);
        }
      }
    } else {
      InterruptedIsRecoverable(s, es, view, order, written, t);
    }
  }

  /** One failed reconcile: what it was asked to do and what it left behind */
  datatype Try = Try(es: ExternalService, view: ClusterView, order: seq<string>, written: set<string>, after: System)

  ghost predicate FailedTries(s: System, name: string, tries: seq<Try>)
    decreases |tries|
  {
    tries == [] ||
    (var a := tries[0];
     && a.es.name == name && (OnlyMarked(s, name, a.after) || StoppedWriting(s, a.es, a.view, a.order, a.written, a.after))
     && FailedTries(a.after, name, tries[1..]))
  }

  function Left(s: System, tries: seq<Try>): System {
    if tries == [] then s else tries[|tries| - 1].after
  }

  /** However often an ExternalService's reconcile failed, wherever and whatever it was asked each time: the first
      retry that completes restores the invariant, and so does a completed deletion. */
  lemma {:induction false} RetriesRecover(s: System, name: string, tries: seq<Try>, op: Op)
    requires Recoverable(s, name) && FailedTries(s, name, tries) && LegalOp(Left(s, tries), op) && Concerns(op, name)
    requires op.Reconcile? ==> NewForwarderSpec(Left(s, tries), op.es, op.view).Some?
    ensures Inv(Apply(Left(s, tries), op))
    decreases |tries|
  {
    hide Recoverable, OnlyMarked, StoppedWriting, NewForwarderSpec, Inv;
    if tries == [] {
      match op
      case Reconcile(es, view, order) => ReconcileRecovers(s, es, view, order);
      case Delete(_, order) => DeleteRecovers(s, name, order);
    } else {
      var a := tries[0];
      StoppedReconcileIsRecoverable(s, a.es, a.view, a.order, a.written, a.after);
      assert Left(s, tries) == Left(a.after, tries[1..]);
      RetriesRecover(a.after, name, tries[1..], op);
    }
  }

  /** Marking a forwarder as updating does not change what is generated for it. */
  lemma GenerationReads(s: System, t: System, es: ExternalService, view: ClusterView)
    requires t.gateways == s.gateways && ForwarderOf(t, es.name).spec == ForwarderOf(s, es.name).spec
    ensures NewForwarderSpec(t, es, view) == NewForwarderSpec(s, es, view)
    ensures PoolsFunctional(t, es.name) == PoolsFunctional(s, es.name)
    ensures forall spec :: MayGenerateSpec(t, es, view, spec) <==> MayGenerateSpec(s, es, view, spec)
    ensures CanGenerate(t, es, view) <==> CanGenerate(s, es, view)
  {
  }

  lemma ForwarderWritten(s: System, name: string, spec: ForwarderSpec)
    ensures var t := WithForwarder(s, name, spec);
            t.forwarders.Keys == s.forwarders.Keys + {name} && t.forwarders[name].spec == spec && t.gateways == s.gateways
  {
  }

  /** Whatever is generated names its gateways after their addresses. */
  lemma OutcomeFormed(s: System, es: ExternalService, view: ClusterView, spec: ForwarderSpec)
    requires MayGenerateSpec(s, es, view, spec)
    ensures AllFormed(spec.ingressRules)
  {
    hide GetRuleName, MayServe, EgressTemplates, IngressTemplates, WellFormed;
    var ts, rules := IngressTemplates(es, view, es.sources), spec.ingressRules;
    forall r | r in rules ensures WellFormed(r) {
      var i :| 0 <= i < |rules| && rules[i] == r;
      TemplateFormed(es, view, i, r.relayPort);
    }
  }

  lemma TemplateFormed(es: ExternalService, view: ClusterView, i: nat, relay: string)
    requires ValidSources(es.sources) && i < |IngressTemplates(es, view, es.sources)|
    ensures WellFormed(IngressTemplates(es, view, es.sources)[i].(relayPort := relay))
  {
    hide GetRuleName;
    assert es.sources[..|es.sources|] == es.sources;
    var t := IngressTemplates(es, view, es.sources)[i];
    IngressTemplatesMeaning(es, view, |es.sources|, t);
    var src, port :| src in es.sources[..|es.sources|] && AsksIngress(es, view, src, port, t);
    ItoaHasNoSeparator(port.port);
  }

  lemma OneMoreRewritten(s: System, order: seq<string>, rules: seq<ForwarderRule>, written: set<string>, g: string,
                         before: System, after: System)
    requires Enumerates(order, s.forwarders.Keys) && written <= Named(rules)
    requires before == Rewritten(s, order, rules, written) && g in Named(rules) && g !in written
    requires after.forwarders == before.forwarders
    ensures after == before.(gateways := before.gateways[g := NewGateway(before, order, g, AddressOf(rules, g))]) ==>
              after == Rewritten(s, order, rules, written + {g})
    ensures NewGateway(before, order, g, AddressOf(rules, g)) == NewGateway(s, order, g, AddressOf(rules, g))
    ensures GatewayOf(before, g) == GatewayOf(s, g)
  {
    hide NewGateway, AddressOf, Named, Enumerates, GatewayOf;
    Untouched(s, order, rules, written, g, before);
  }

  /** A gateway that is not rewritten yet is as it was, and so is what would be written into it. */
  lemma Untouched(s: System, order: seq<string>, rules: seq<ForwarderRule>, written: set<string>, g: string, before: System)
    requires Enumerates(order, s.forwarders.Keys) && written <= Named(rules)
    requires before == Rewritten(s, order, rules, written) && g in Named(rules) && g !in written
    ensures GatewayOf(before, g) == GatewayOf(s, g)
    ensures NewGateway(before, order, g, AddressOf(rules, g)) == NewGateway(s, order, g, AddressOf(rules, g))
  {
    hide Project, AddressOf, Named, Enumerates;
  }

  lemma RewrittenEnds(s: System, name: string, order: seq<string>)
    requires name in s.forwarders && Enumerates(order, s.forwarders.Keys)
    ensures var rules := s.forwarders[name].spec.ingressRules;
            && Rewritten(s, order, rules, {}) == s
            && Rewritten(s, order, rules, Named(rules)) == WithGateways(s, name, order)
            && Interrupted(s, name, order, Named(rules), WithGateways(s, name, order))
  {
    hide Project;
    CompletedIsInterrupted(s, name, order);
    assert s.gateways + map[] == s.gateways;
  }

  lemma StoppedHere(s: System, name: string, order: seq<string>, written: set<string>, g: string,
                    before: System, after: System, wrote: bool)
    requires name in s.forwarders && Enumerates(order, s.forwarders.Keys)
    requires written <= Named(s.forwarders[name].spec.ingressRules) && g in Named(s.forwarders[name].spec.ingressRules)
    requires before == Rewritten(s, order, s.forwarders[name].spec.ingressRules, written) && g !in written
    requires after.forwarders == before.forwarders
    requires
      || (after == before && !wrote)
      || (g in after.gateways
          && after.gateways == before.gateways[g := after.gateways[g]]
          && after.gateways[g].spec ==
             if wrote then NewGateway(before, order, g, AddressOf(s.forwarders[name].spec.ingressRules, g)).spec
             else GatewayOf(before, g).spec)
    ensures Interrupted(s, name, order, if wrote then written + {g} else written, after)
  {
    var rules := s.forwarders[name].spec.ingressRules;
    RewrittenSoFar(s, name, order, written, before);
    Untouched(s, order, rules, written, g, before);
    hide Rewritten, NewGateway, AddressOf, Enumerates, Named, Interrupted;
    if after != before || wrote {
      OneTouched(s, name, order, written, g, before, after, wrote);
    }
  }

  lemma OneTouched(s: System, name: string, order: seq<string>, written: set<string>, g: string,
                   before: System, after: System, wrote: bool)
    requires name in s.forwarders && Enumerates(order, s.forwarders.Keys) && Interrupted(s, name, order, written, before)
    requires g in Named(s.forwarders[name].spec.ingressRules) && g !in written && after.forwarders == before.forwarders
    requires g in after.gateways && after.gateways == before.gateways[g := after.gateways[g]]
    requires after.gateways[g].spec ==
             if wrote then NewGateway(s, order, g, AddressOf(s.forwarders[name].spec.ingressRules, g)).spec else GatewayOf(s, g).spec
    ensures Interrupted(s, name, order, if wrote then written + {g} else written, after)
  {
    hide NewGateway, AddressOf, Enumerates, Named, GatewayOf;
  }

  /** Having rewritten the gateways in `written` is one way to be interrupted. */
  lemma RewrittenSoFar(s: System, name: string, order: seq<string>, written: set<string>, t: System)
    requires name in s.forwarders && Enumerates(order, s.forwarders.Keys)
    requires written <= Named(s.forwarders[name].spec.ingressRules)
    requires t == Rewritten(s, order, s.forwarders[name].spec.ingressRules, written)
    ensures Interrupted(s, name, order, written, t)
  {
    hide NewGateway, AddressOf, Enumerates, Named;
  }

  ghost predicate AllFormed(rules: seq<ForwarderRule>) {
    forall r :: r in rules ==> WellFormed(r)
  }

  ghost function NamesOf(unique: map<string, Ref>, ips: set<string>): set<string>
    requires ips <= unique.Keys
  {
    set ip | ip in ips :: unique[ip].name
  }

  ghost function Rewritten(s: System, order: seq<string>, rules: seq<ForwarderRule>, written: set<string>): System
    requires written <= Named(rules) && Enumerates(order, s.forwarders.Keys)
  {
    s.(gateways := s.gateways + map g | g in written :: NewGateway(s, order, g, AddressOf(rules, g)))
  }

  /** Distinct gateway addresses have distinct gateway objects. */
  lemma UniqueNames(rules: seq<ForwarderRule>, unique: map<string, Ref>, ip: string, todo: set<string>)
    requires AllFormed(rules) && ip in todo && todo <= unique.Keys
    requires forall a :: a in unique ==> exists r :: r in rules && r.gatewayIP == a && r.gateway == unique[a]
    ensures unique[ip].name in Named(rules) && unique[ip].name !in NamesOf(unique, unique.Keys - todo)
    ensures AddressOf(rules, unique[ip].name) == ip
    ensures NamesOf(unique, unique.Keys - (todo - {ip})) == NamesOf(unique, unique.Keys - todo) + {unique[ip].name}
  {
    hide GetRuleName;
    var g := unique[ip].name;
    var r :| r in rules && r.gatewayIP == ip && r.gateway == unique[ip];
    assert WellFormed(r);
    var q :| q in rules && q.gateway.name == g && AddressOf(rules, g) == q.gatewayIP;
    assert WellFormed(q);
    RuleNameInjective(ip, q.gatewayIP);
    forall a | a in unique.Keys - todo ensures unique[a].name != g {
      var p :| p in rules && p.gatewayIP == a && p.gateway == unique[a];
      assert WellFormed(p);
      RuleNameInjective(ip, a);
    }
  }

  lemma AllNamed(rules: seq<ForwarderRule>, unique: map<string, Ref>)
    requires AllFormed(rules)
    requires forall r :: r in rules ==> r.gatewayIP in unique
    requires forall a :: a in unique ==> exists r :: r in rules && r.gatewayIP == a && r.gateway == unique[a]
    ensures NamesOf(unique, unique.Keys) == Named(rules)
  {
    forall r | r in rules ensures r.gateway.name in NamesOf(unique, unique.Keys) {
      assert WellFormed(r);
      var q :| q in rules && q.gatewayIP == r.gatewayIP && q.gateway == unique[r.gatewayIP];
      assert WellFormed(q);
    }
  }

  /** A deletion that stops anywhere: the forwarder is still there and nothing else changed, or it is gone
      and each gateway holds either its old rules or the projection of the remaining forwarders. */
  ghost predicate PartlyDeleted(s: System, name: string, order: seq<string>, t: System)
    requires Enumerates(order, t.forwarders.Keys)
  {
    || t == s
    || (&& t.forwarders == s.forwarders - {name}
        && t.gateways.Keys == s.gateways.Keys
        && forall g :: g in t.gateways ==>
             || t.gateways[g].spec == s.gateways[g].spec
             || t.gateways[g].spec == NewGateway(t, order, g, s.gateways[g].spec.gatewayIP).spec)
  }

  /** Unlike an interrupted reconcile, an interrupted deletion is always safe. */
  lemma PartialDeletionIsSafe(s: System, name: string, order: seq<string>, t: System)
    requires Inv(s) && Enumerates(order, t.forwarders.Keys) && PartlyDeleted(s, name, order, t)
    ensures Inv(t)
  {
    hide GetRuleName;
    if t != s {
      PoolsOfInv(s);
      var pools := UsedPortsForIngress(s.gateways);
      assert Within(t.forwarders, pools);
      forall g | g in t.gateways ensures GatewayOk(t, g) {
        assert GatewayOk(s, g);
        ProjectionOk(order, t.forwarders, pools, g);
        DeletedGatewayAddress(s, name, t, order, g);
      }
      forall n | n in t.forwarders ensures ForwarderOk(t, n) {
        forall r | r in t.forwarders[n].spec.ingressRules ensures WellFormed(r) && RuleCovered(t, r) {
          assert ForwarderOk(s, n) && RuleCovered(s, r);
          ProjectionOk(order, t.forwarders, pools, r.gateway.name);
        }
      }
    }
  }
}
