// Repeating a completed reconcile, with the forwarders listed in any other order.
module Repetition {
  import opened Text
  import opened Api
  import opened RuleGen
  import opened Operator
  import opened Ledger
  import opened Conservation

  // ----- the order in which a gateway lists its forwarders -----

  predicate Names(fwds: map<string, Forwarder>, n: string, g: string)
    requires n in fwds
  {
    ProjectRules(n, fwds[n].spec.forwarderIP, fwds[n].spec.ingressRules, g) != []
  }

  /** The forwarders that name gateway g, in the order of the list */
  function Namers(order: seq<string>, fwds: map<string, Forwarder>, g: string): (names: seq<string>)
    requires forall n :: n in order ==> n in fwds
    ensures forall n :: n in names <==> n in order && Names(fwds, n, g)
  {
    if order == [] then []
    else
      var n := order[|order| - 1];
      assert order == order[..|order| - 1] + [n];
      Namers(order[..|order| - 1], fwds, g) + if Names(fwds, n, g) then [n] else []
  }

  lemma {:induction false} NamersDistinct(order: seq<string>, fwds: map<string, Forwarder>, g: string)
    requires forall n :: n in order ==> n in fwds
    requires forall i, j :: 0 <= i < j < |order| ==> order[i] != order[j]
    ensures var names := Namers(order, fwds, g); forall i, j :: 0 <= i < j < |names| ==> names[i] != names[j]
  {
    hide Names;
    if order != [] {
      var init, n := order[..|order| - 1], order[|order| - 1];
      assert forall i :: 0 <= i < |init| ==> init[i] == order[i];
      NamersDistinct(init, fwds, g);
      assert n !in Namers(init, fwds, g);
      assert Namers(order, fwds, g) == Namers(init, fwds, g) + if Names(fwds, n, g) then [n] else [];
    }
  }

  /** Only they matter for the projection. */
  lemma {:induction false} ProjectOfNamers(order: seq<string>, fwds: map<string, Forwarder>, g: string)
    requires forall n :: n in order ==> n in fwds
    ensures Project(Ingress, order, fwds, g) == Project(Ingress, Namers(order, fwds, g), fwds, g)
  {
    hide ProjectRules, RulesOf;
    if order != [] {
      var init, n := order[..|order| - 1], order[|order| - 1];
      ProjectOfNamers(init, fwds, g);
      assert Project(Ingress, order, fwds, g)
             == Project(Ingress, init, fwds, g) + ProjectRules(n, fwds[n].spec.forwarderIP, RulesOf(Ingress, fwds[n].spec), g);
      OneMoreNamer(Namers(init, fwds, g), n, fwds, g);
      hide Project, Names;
      if !Names(fwds, n, g) {
        assert Namers(order, fwds, g) == Namers(init, fwds, g);
      } else {
        assert Namers(order, fwds, g) == Namers(init, fwds, g) + [n];
      }
    }
  }

  lemma OneMoreNamer(names: seq<string>, n: string, fwds: map<string, Forwarder>, g: string)
    requires n in fwds && forall m :: m in names ==> m in fwds
    ensures var block := ProjectRules(n, fwds[n].spec.forwarderIP, RulesOf(Ingress, fwds[n].spec), g);
            && (Names(fwds, n, g) <==> block != [])
            && (forall m :: m in names + [n] ==> m in fwds)
            && Project(Ingress, names + [n], fwds, g) == Project(Ingress, names, fwds, g) + block
  {
    hide ProjectRules;
    var all := names + [n];
    assert all[..|all| - 1] == names && all[|all| - 1] == n;
  }

  lemma {:induction false} BlockIsOwn(n: string, ip: string, rules: seq<ForwarderRule>, g: string)
    ensures forall q :: q in ProjectRules(n, ip, rules, g) ==> q.forwarder == Ref(CONNECTOR_NAMESPACE, n)
  {
    if rules != [] {
      BlockIsOwn(n, ip, rules[..|rules| - 1], g);
    }
  }

  /** The projection of a list that ends with a forwarder that names the gateway ends with that forwarder's block. */
  lemma EndsWithBlock(order: seq<string>, fwds: map<string, Forwarder>, g: string)
    requires order != [] && (forall n :: n in order ==> n in fwds && Names(fwds, n, g))
    ensures var n := order[|order| - 1];
            var block := ProjectRules(n, fwds[n].spec.forwarderIP, fwds[n].spec.ingressRules, g);
            var all := Project(Ingress, order, fwds, g);
            && block != [] && all == Project(Ingress, order[..|order| - 1], fwds, g) + block
            && all[|all| - 1].forwarder == Ref(CONNECTOR_NAMESPACE, n)
  {
    hide ProjectRules;
    var n := order[|order| - 1];
    BlockIsOwn(n, fwds[n].spec.forwarderIP, fwds[n].spec.ingressRules, g);
    assert n in order;
    var block := ProjectRules(n, fwds[n].spec.forwarderIP, fwds[n].spec.ingressRules, g);
    assert block[|block| - 1] in block;
  }

  ghost predicate AllName(order: seq<string>, fwds: map<string, Forwarder>, g: string) {
    forall n :: n in order ==> n in fwds && Names(fwds, n, g)
  }

  lemma AllNameInit(order: seq<string>, fwds: map<string, Forwarder>, g: string)
    requires order != [] && AllName(order, fwds, g)
    ensures AllName(order[..|order| - 1], fwds, g) && order == order[..|order| - 1] + [order[|order| - 1]]
  {
  }

  /** One list of rules ends with one forwarder's block. */
  lemma SameEnd(a: seq<string>, b: seq<string>, fwds: map<string, Forwarder>, g: string)
    requires a != [] && b != [] && AllName(a, fwds, g) && AllName(b, fwds, g)
    requires Project(Ingress, a, fwds, g) == Project(Ingress, b, fwds, g)
    ensures a[|a| - 1] == b[|b| - 1]
    ensures Project(Ingress, a[..|a| - 1], fwds, g) == Project(Ingress, b[..|b| - 1], fwds, g)
  {
    hide ProjectRules, Names, Project;
    EndsWithBlock(a, fwds, g);
    EndsWithBlock(b, fwds, g);
    var n, all := a[|a| - 1], Project(Ingress, a, fwds, g);
    var block := ProjectRules(n, fwds[n].spec.forwarderIP, fwds[n].spec.ingressRules, g);
    assert Project(Ingress, a[..|a| - 1], fwds, g) == all[..|all| - |block|];
    assert Project(Ingress, b[..|b| - 1], fwds, g) == all[..|all| - |block|];
  }

  lemma NotEmpty(order: seq<string>, fwds: map<string, Forwarder>, g: string)
    requires AllName(order, fwds, g)
    ensures Project(Ingress, order, fwds, g) == [] <==> order == []
  {
    hide ProjectRules;
    if order != [] {
      EndsWithBlock(order, fwds, g);
    }
  }

  /** Lists of forwarders that all name the gateway project to one list of rules only if they are one list. */
  lemma {:induction false} ProjectionDecides(a: seq<string>, b: seq<string>, fwds: map<string, Forwarder>, g: string)
    requires AllName(a, fwds, g) && AllName(b, fwds, g) && Project(Ingress, a, fwds, g) == Project(Ingress, b, fwds, g)
    ensures a == b
    decreases |a|
  {
    hide Project, Names;
    NotEmpty(a, fwds, g);
    NotEmpty(b, fwds, g);
    if a != [] && b != [] {
      SameEnd(a, b, fwds, g);
      AllNameInit(a, fwds, g);
      AllNameInit(b, fwds, g);
      ProjectionDecides(a[..|a| - 1], b[..|b| - 1], fwds, g);
    }
  }

  /** Two listings project to the same rules, in order, if and only if they list the gateway's forwarders alike. */
  lemma SameProjectionIff(a: seq<string>, b: seq<string>, fwds: map<string, Forwarder>, g: string)
    requires Enumerates(a, fwds.Keys) && Enumerates(b, fwds.Keys)
    ensures Project(Ingress, a, fwds, g) == Project(Ingress, b, fwds, g) <==> Namers(a, fwds, g) == Namers(b, fwds, g)
  {
    hide Names, Project;
    ProjectOfNamers(a, fwds, g);
    ProjectOfNamers(b, fwds, g);
    if Project(Ingress, a, fwds, g) == Project(Ingress, b, fwds, g) {
      ProjectionDecides(Namers(a, fwds, g), Namers(b, fwds, g), fwds, g);
    }
  }

  /** Every forwarder's part of the projection is the same for both. */
  lemma SameParts(a: seq<string>, b: seq<string>, fwds: map<string, Forwarder>, g: string, n: string)
    requires Enumerates(a, fwds.Keys) && Enumerates(b, fwds.Keys)
    ensures FromForwarder(Project(Ingress, a, fwds, g), n) == FromForwarder(Project(Ingress, b, fwds, g), n)
  {
    hide ProjectRules, Project, FromForwarder;
    KeptInOrder(Ingress, a, fwds, g, n);
    KeptInOrder(Ingress, b, fwds, g, n);
  }

  // ----- repetition -----

  ghost predicate SameForwarderRules(s: System, t: System) {
    && s.forwarders.Keys == t.forwarders.Keys && s.gateways.Keys == t.gateways.Keys
    && forall n :: n in s.forwarders ==> s.forwarders[n].spec.ingressRules == t.forwarders[n].spec.ingressRules
  }

  /** What a repetition that lists the forwarders in the order `again` does to the ingress rules */
  ghost predicate RepeatsRules(t: System, es: ExternalService, view: ClusterView, order: seq<string>, again: seq<string>, u: System)
    requires Enumerates(order, t.forwarders.Keys) && Enumerates(again, t.forwarders.Keys)
  {
    && SameForwarderRules(t, u)
    && (forall g, n :: g in t.gateways ==>
          FromForwarder(u.gateways[g].spec.ingressRules, n) == FromForwarder(t.gateways[g].spec.ingressRules, n))
    && (forall g :: g in t.gateways ==>
          (u.gateways[g].spec.ingressRules == t.gateways[g].spec.ingressRules <==>
           NewForwarderSpec(t, es, view).None? || g !in Named(ForwarderOf(t, es.name).spec.ingressRules)
           || Namers(order, t.forwarders, g) == Namers(again, t.forwarders, g)))
  }

  /** Writing a forwarder with unchanged ingress rules and address, and the gateways from another listing */
  lemma RewrittenAgain(t: System, name: string, spec: ForwarderSpec, again: seq<string>)
    requires name in t.forwarders && Enumerates(again, t.forwarders.Keys)
    requires spec.ingressRules == t.forwarders[name].spec.ingressRules && spec.forwarderIP == t.forwarders[name].spec.forwarderIP
    ensures Enumerates(again, WithForwarder(t, name, spec).forwarders.Keys)
    ensures var u := WithGateways(WithForwarder(t, name, spec), name, again);
            && u.forwarders.Keys == t.forwarders.Keys && u.gateways.Keys == t.gateways.Keys + Named(spec.ingressRules)
            && (forall n :: n in t.forwarders ==> u.forwarders[n].spec.ingressRules == t.forwarders[n].spec.ingressRules)
            && (forall g :: g in Named(spec.ingressRules) ==> u.gateways[g].spec.ingressRules == Project(Ingress, again, t.forwarders, g))
            && (forall g :: g in t.gateways && g !in Named(spec.ingressRules) ==> u.gateways[g] == t.gateways[g])
  {
    hide Project, AddressOf;
    var t1 := WithForwarder(t, name, spec);
    assert t1.forwarders.Keys == t.forwarders.Keys;
    forall g ensures Project(Ingress, again, t1.forwarders, g) == Project(Ingress, again, t.forwarders, g) {
      ProjectCongruent(again, t1.forwarders, t.forwarders, g);
    }
  }

  lemma RewrittenRepeats(t: System, es: ExternalService, view: ClusterView, order: seq<string>, again: seq<string>, spec: ForwarderSpec)
    requires es.name in t.forwarders && Enumerates(order, t.forwarders.Keys) && Enumerates(again, t.forwarders.Keys)
    requires NewForwarderSpec(t, es, view) == Some(spec)
    requires spec.ingressRules == t.forwarders[es.name].spec.ingressRules && spec.forwarderIP == t.forwarders[es.name].spec.forwarderIP
    requires forall g :: g in Named(spec.ingressRules) ==>
               g in t.gateways && t.gateways[g].spec.ingressRules == Project(Ingress, order, t.forwarders, g)
    ensures Enumerates(again, WithForwarder(t, es.name, spec).forwarders.Keys)
    ensures RepeatsRules(t, es, view, order, again, WithGateways(WithForwarder(t, es.name, spec), es.name, again))
  {
    hide NewForwarderSpec, Project, Namers, FromForwarder, Named, WithForwarder, WithGateways;
    RewrittenAgain(t, es.name, spec, again);
    forall g | g in Named(spec.ingressRules)
      ensures Project(Ingress, again, t.forwarders, g) == Project(Ingress, order, t.forwarders, g) <==>
              Namers(order, t.forwarders, g) == Namers(again, t.forwarders, g)
    {
      SameProjectionIff(order, again, t.forwarders, g);
    }
    forall g, n | g in Named(spec.ingressRules)
      ensures FromForwarder(Project(Ingress, again, t.forwarders, g), n) == FromForwarder(Project(Ingress, order, t.forwarders, g), n)
    {
      SameParts(order, again, t.forwarders, g, n);
    }
    assert t.gateways.Keys + Named(spec.ingressRules) == t.gateways.Keys;
  }

  lemma FailedRepeats(t: System, es: ExternalService, view: ClusterView, order: seq<string>, again: seq<string>)
    requires es.name in t.forwarders && Enumerates(order, t.forwarders.Keys) && Enumerates(again, t.forwarders.Keys)
    requires NewForwarderSpec(t, es, view).None?
    ensures RepeatsRules(t, es, view, order, again, WithAttempt(t, es.name))
  {
    hide NewForwarderSpec, Namers, FromForwarder, Enumerates;
    assert WithAttempt(t, es.name).forwarders.Keys == t.forwarders.Keys;
  }

  /** From a state in which the forwarder and its gateways hold what a completed reconcile wrote, a repetition with any
      listing leaves all forwarder rules as they are, in order, and every forwarder's part of every gateway's rules.
      A gateway's whole list stays the same, in order, if and only if it is not rewritten or both listings have the
      forwarders that name it in the same order. */
  lemma RepetitionChangesNothing(t: System, es: ExternalService, view: ClusterView, order: seq<string>, again: seq<string>)
    requires Inv(t) && JustReconciled(t, es, view, order) && Enumerates(again, t.forwarders.Keys)
    ensures LegalOp(t, Reconcile(es, view, again))
    ensures RepeatsRules(t, es, view, order, again, Apply(t, Reconcile(es, view, again)))
  {
    hide Inv, NewForwarderSpec, RepeatsRules, IngressTemplates;
    assert t.forwarders.Keys + {es.name} == t.forwarders.Keys;
    if NewForwarderSpec(t, es, view).Some? {
      var ports :| |ports| == |IngressTemplates(es, view, es.sources)|
                   && t.forwarders[es.name].spec.ingressRules == Fill(IngressTemplates(es, view, es.sources), ports);
      SameGeneration(t, es, view, ports);
      SpecAddress(t, es, view);
      RewrittenRepeats(t, es, view, order, again, NewForwarderSpec(t, es, view).value);
    } else {
      FailedRepeats(t, es, view, order, again);
    }
  }

  /** Over every run: repeating a completed reconcile with any other listing does just that. */
  lemma ReconcileIsFixpoint(s: System, es: ExternalService, view: ClusterView, order: seq<string>, again: seq<string>)
    requires Inv(s) && LegalOp(s, Reconcile(es, view, order)) && NewForwarderSpec(s, es, view).Some?
    requires LegalOp(s, Reconcile(es, view, again))
    ensures var t := Apply(s, Reconcile(es, view, order));
            && LegalOp(t, Reconcile(es, view, again))
            && Enumerates(order, t.forwarders.Keys) && Enumerates(again, t.forwarders.Keys)
            && RepeatsRules(t, es, view, order, again, Apply(t, Reconcile(es, view, again)))
  {
    ApplyKeepsInv(s, Reconcile(es, view, order));
    ReconcileCompletes(s, es, view, order);
    SameNames(s, es, view, order, again);
    hide *;
    RepetitionChangesNothing(Apply(s, Reconcile(es, view, order)), es, view, order, again);
  }

  lemma SameNames(s: System, es: ExternalService, view: ClusterView, order: seq<string>, again: seq<string>)
    requires LegalOp(s, Reconcile(es, view, order)) && LegalOp(s, Reconcile(es, view, again)) && NewForwarderSpec(s, es, view).Some?
    ensures var t := Apply(s, Reconcile(es, view, order)); Enumerates(order, t.forwarders.Keys) && Enumerates(again, t.forwarders.Keys)
  {
    hide NewForwarderSpec;
    AfterReconcile(s, es.name, NewForwarderSpec(s, es, view).value, order);
  }
}
