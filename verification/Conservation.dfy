// Projecting forwarders onto gateways neither loses nor duplicates nor reorders a rule.
module Conservation {
  import opened Api
  import opened RuleGen
  import opened Operator
  import opened Ledger

  /** The rules of a gateway that stem from forwarder n, in order */
  function FromForwarder(rules: seq<GatewayRule>, n: string): seq<GatewayRule> {
    if rules == [] then []
    else
      FromForwarder(rules[..|rules| - 1], n)
      + if rules[|rules| - 1].forwarder == Ref(CONNECTOR_NAMESPACE, n) then [rules[|rules| - 1]] else []
  }

  lemma {:induction false} FromForwarderConcat(a: seq<GatewayRule>, b: seq<GatewayRule>, n: string)
    ensures FromForwarder(a + b, n) == FromForwarder(a, n) + FromForwarder(b, n)
  {
    if b == [] {
      assert a + b == a;
    } else {
      var last := |b| - 1;
      FromForwarderConcat(a, b[..last], n);
      assert (a + b)[..|a + b| - 1] == a + b[..last];
    }
  }

  lemma {:induction false} FromOneForwarder(m: string, ip: string, rules: seq<ForwarderRule>, g: string, n: string)
    ensures FromForwarder(ProjectRules(m, ip, rules, g), n) == if m == n then ProjectRules(m, ip, rules, g) else []
  {
    if rules != [] {
      var r := rules[|rules| - 1];
      var init := ProjectRules(m, ip, rules[..|rules| - 1], g);
      FromOneForwarder(m, ip, rules[..|rules| - 1], g, n);
      var more := if r.gateway == Ref(CONNECTOR_NAMESPACE, g) then [ToGatewayRule(m, ip, r)] else [];
      FromForwarderConcat(init, more, n);
      if more != [] {
        assert more[..0] == [];
      }
    }
  }

  /** What a gateway holds of one forwarder is that forwarder's rules for the gateway, in order; of a
      forwarder that is not listed it holds nothing. */
  lemma {:induction false} KeptInOrder(dir: Direction, order: seq<string>, fwds: map<string, Forwarder>, g: string, n: string)
    requires forall m :: m in order ==> m in fwds
    requires forall i, j :: 0 <= i < j < |order| ==> order[i] != order[j]
    ensures FromForwarder(Project(dir, order, fwds, g), n) ==
            if n in order then ProjectRules(n, fwds[n].spec.forwarderIP, RulesOf(dir, fwds[n].spec), g) else []
  {
    hide ProjectRules;
    if order != [] {
      var init, m := order[..|order| - 1], order[|order| - 1];
      assert n in order <==> n in init || n == m;
      assert m !in init;
      var rules := RulesOf(dir, fwds[m].spec);
      KeptInOrder(dir, init, fwds, g, n);
      FromForwarderConcat(Project(dir, init, fwds, g), ProjectRules(m, fwds[m].spec.forwarderIP, rules, g), n);
      FromOneForwarder(m, fwds[m].spec.forwarderIP, rules, g, n);
    }
  }

  // ----- counting -----

  function CountRules(dir: Direction, order: seq<string>, fwds: map<string, Forwarder>): nat
    requires forall n :: n in order ==> n in fwds
  {
    if order == [] then 0
    else CountRules(dir, order[..|order| - 1], fwds) + |RulesOf(dir, fwds[order[|order| - 1]].spec)|
  }

  function CountProjected(dir: Direction, order: seq<string>, fwds: map<string, Forwarder>, gs: seq<string>): nat
    requires forall n :: n in order ==> n in fwds
  {
    if gs == [] then 0
    else CountProjected(dir, order, fwds, gs[..|gs| - 1]) + |Project(dir, order, fwds, gs[|gs| - 1])|
  }

  function CountOne(rules: seq<ForwarderRule>, gs: seq<string>): nat {
    if gs == [] then 0 else CountOne(rules, gs[..|gs| - 1]) + |ProjectRules("", "", rules, gs[|gs| - 1])|
  }

  lemma {:induction false} SameLength(n: string, ip: string, rules: seq<ForwarderRule>, g: string)
    ensures |ProjectRules(n, ip, rules, g)| == |ProjectRules("", "", rules, g)|
  {
    if rules != [] {
      SameLength(n, ip, rules[..|rules| - 1], g);
    }
  }

  lemma {:induction false} OneMoreRule(rules: seq<ForwarderRule>, gs: seq<string>)
    requires rules != [] && rules[|rules| - 1].gateway.namespace == CONNECTOR_NAMESPACE
    requires forall i, j :: 0 <= i < j < |gs| ==> gs[i] != gs[j]
    ensures CountOne(rules, gs) ==
            CountOne(rules[..|rules| - 1], gs) + if rules[|rules| - 1].gateway.name in gs then 1 else 0
  {
    if gs != [] {
      OneMoreRule(rules, gs[..|gs| - 1]);
      assert gs == gs[..|gs| - 1] + [gs[|gs| - 1]];
      var g := rules[|rules| - 1].gateway;
      assert g == Ref(CONNECTOR_NAMESPACE, g.name);
    }
  }

  lemma {:induction false} NoRules(gs: seq<string>)
    ensures CountOne([], gs) == 0
  {
    if gs != [] {
      NoRules(gs[..|gs| - 1]);
    }
  }

  lemma {:induction false} EachRuleOnce(rules: seq<ForwarderRule>, gs: seq<string>)
    requires forall r :: r in rules ==> r.gateway.namespace == CONNECTOR_NAMESPACE && r.gateway.name in gs
    requires forall i, j :: 0 <= i < j < |gs| ==> gs[i] != gs[j]
    ensures CountOne(rules, gs) == |rules|
  {
    if rules == [] {
      NoRules(gs);
    } else {
      EachRuleOnce(rules[..|rules| - 1], gs);
      OneMoreRule(rules, gs);
      assert rules[|rules| - 1] in rules;
    }
  }

  lemma {:induction false} OneMoreForwarder(dir: Direction, order: seq<string>, fwds: map<string, Forwarder>, gs: seq<string>)
    requires order != [] && forall n :: n in order ==> n in fwds
    ensures CountProjected(dir, order, fwds, gs) ==
            CountProjected(dir, order[..|order| - 1], fwds, gs) + CountOne(RulesOf(dir, fwds[order[|order| - 1]].spec), gs)
  {
    if gs != [] {
      OneMoreForwarder(dir, order, fwds, gs[..|gs| - 1]);
      var n := order[|order| - 1];
      SameLength(n, fwds[n].spec.forwarderIP, RulesOf(dir, fwds[n].spec), gs[|gs| - 1]);
    }
  }

  lemma {:induction false} NoForwarders(dir: Direction, fwds: map<string, Forwarder>, gs: seq<string>)
    ensures CountProjected(dir, [], fwds, gs) == 0
  {
    if gs != [] {
      NoForwarders(dir, fwds, gs[..|gs| - 1]);
    }
  }

  /** Over a list of distinct gateways that contains every gateway named, the projections together have
      exactly as many rules as the forwarders. */
  lemma {:induction false} NothingLostOrDuplicated(dir: Direction, order: seq<string>, fwds: map<string, Forwarder>, gs: seq<string>)
    requires forall n :: n in order ==> n in fwds
    requires forall n, r :: n in order && r in RulesOf(dir, fwds[n].spec) ==>
               r.gateway.namespace == CONNECTOR_NAMESPACE && r.gateway.name in gs
    requires forall i, j :: 0 <= i < j < |gs| ==> gs[i] != gs[j]
    ensures CountProjected(dir, order, fwds, gs) == CountRules(dir, order, fwds)
  {
    if order == [] {
      NoForwarders(dir, fwds, gs);
    } else {
      NothingLostOrDuplicated(dir, order[..|order| - 1], fwds, gs);
      OneMoreForwarder(dir, order, fwds, gs);
      EachRuleOnce(RulesOf(dir, fwds[order[|order| - 1]].spec), gs);
    }
  }

  function CountGatewayRules(gws: map<string, Gateway>, gs: seq<string>): nat
    requires forall g :: g in gs ==> g in gws
  {
    if gs == [] then 0
    else CountGatewayRules(gws, gs[..|gs| - 1]) + |gws[gs[|gs| - 1]].spec.ingressRules|
  }

  lemma {:induction false} CountOfProjections(order: seq<string>, fwds: map<string, Forwarder>, gws: map<string, Gateway>, gs: seq<string>)
    requires forall n :: n in order ==> n in fwds
    requires forall g :: g in gs ==> g in gws && gws[g].spec.ingressRules == Project(Ingress, order, fwds, g)
    ensures CountGatewayRules(gws, gs) == CountProjected(Ingress, order, fwds, gs)
  {
    if gs != [] {
      CountOfProjections(order, fwds, gws, gs[..|gs| - 1]);
      assert gs[|gs| - 1] in gs;
    }
  }

  /** After a completed deletion the gateways hold exactly the remaining forwarders' ingress rules: each
      forwarder's part in order, as many in all, and nothing of the deleted one. */
  lemma DeletionConserves(s: System, name: string, order: seq<string>, gs: seq<string>, n: string)
    requires Inv(s) && LegalOp(s, Delete(name, order)) && Enumerates(gs, s.gateways.Keys)
    ensures var t := Apply(s, Delete(name, order));
            && t.gateways.Keys == s.gateways.Keys && t.forwarders == s.forwarders - {name}
            && CountGatewayRules(t.gateways, gs) == CountRules(Ingress, order, t.forwarders)
            && forall g :: g in t.gateways ==>
                 FromForwarder(t.gateways[g].spec.ingressRules, n) ==
                 if n in t.forwarders
                 then ProjectRules(n, t.forwarders[n].spec.forwarderIP, t.forwarders[n].spec.ingressRules, g) else []
  {
    var t := Apply(s, Delete(name, order));
    RemainingRulesNamed(s, name);
    hide WellFormed, Inv, FromForwarder, ProjectRules, Project, CountRules, CountProjected, CountGatewayRules;
    forall g | g in t.gateways
      ensures FromForwarder(t.gateways[g].spec.ingressRules, n) ==
              if n in t.forwarders
              then ProjectRules(n, t.forwarders[n].spec.forwarderIP, t.forwarders[n].spec.ingressRules, g) else []
    {
      KeptInOrder(Ingress, order, t.forwarders, g, n);
    }
    NothingLostOrDuplicated(Ingress, order, t.forwarders, gs);
    CountOfProjections(order, t.forwarders, t.gateways, gs);
  }

  lemma RemainingRulesNamed(s: System, name: string)
    requires Inv(s)
    ensures forall n, r :: n in s.forwarders - {name} && r in s.forwarders[n].spec.ingressRules ==>
              r.gateway.namespace == CONNECTOR_NAMESPACE && r.gateway.name in s.gateways
  {
    forall n, r | n in s.forwarders - {name} && r in s.forwarders[n].spec.ingressRules
      ensures r.gateway.namespace == CONNECTOR_NAMESPACE && r.gateway.name in s.gateways
    {
      assert ForwarderOk(s, n) && WellFormed(r) && RuleCovered(s, r);
    }
  }
}
