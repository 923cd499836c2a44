// What completed reconciles and deletions leave in objects, field by field: status, address and rules.
module Publication {
  import opened Text
  import opened Address
  import opened Api
  import opened RuleGen
  import opened Operator
  import opened Ledger
  import Handshake

  // ----- publication -----

  /** A freshly published object needs a sync, unless its agent is ahead of the operator, which it never is. */
  lemma PublishedNeedsSync(was: Status, now: Status)
    requires FreshlyPublished(was, now) && was.syncGeneration <= was.ruleGeneration
    ensures Handshake.NeedSync(now) && !Handshake.NeedCheckSync(now) && now.ruleGeneration != now.syncGeneration
  {
  }

  /** A completed reconcile publishes its forwarder and every gateway that this names, and touches no other object. */
  lemma ReconcilePublishes(s: System, es: ExternalService, view: ClusterView, order: seq<string>)
    requires LegalOp(s, Op.Reconcile(es, view, order)) && NewForwarderSpec(s, es, view).Some?
    ensures var t := Apply(s, Op.Reconcile(es, view, order));
            var spec := NewForwarderSpec(s, es, view).value;
            && es.name in t.forwarders && t.forwarders[es.name].spec == spec
            && FreshlyPublished(ForwarderOf(s, es.name).status, t.forwarders[es.name].status)
            && (forall g :: (exists r :: r in spec.ingressRules && r.gateway.name == g) ==>
                  g in t.gateways && FreshlyPublished(GatewayOf(s, g).status, t.gateways[g].status))
            && (forall n :: n != es.name ==> (n in t.forwarders <==> n in s.forwarders))
            && (forall n :: n != es.name && n in s.forwarders ==> t.forwarders[n] == s.forwarders[n])
            && (forall g :: g in t.gateways && (forall r :: r in spec.ingressRules ==> r.gateway.name != g) ==>
                  g in s.gateways && t.gateways[g] == s.gateways[g])
  {
    hide NewForwarderSpec, Project, AddressOf;
    var spec := NewForwarderSpec(s, es, view).value;
    AfterReconcile(s, es.name, spec, order);
    assert forall g :: g in Named(spec.ingressRules) <==> exists r :: r in spec.ingressRules && r.gateway.name == g;
  }

  /** An attempt that generates nothing leaves the forwarder marked as updating, and nothing else changes. */
  lemma AttemptMarks(s: System, es: ExternalService, view: ClusterView, order: seq<string>)
    requires LegalOp(s, Op.Reconcile(es, view, order)) && NewForwarderSpec(s, es, view).None?
    ensures var t := Apply(s, Op.Reconcile(es, view, order));
            && t.gateways == s.gateways && es.name in t.forwarders
            && Marks(Content(ForwarderOf(s, es.name).spec, ForwarderOf(s, es.name).status),
                     Content(t.forwarders[es.name].spec, t.forwarders[es.name].status))
            && t.forwarders - {es.name} == s.forwarders - {es.name}
  {
    hide NewForwarderSpec;
  }

  /** A completed deletion publishes every gateway, and touches no other forwarder. */
  lemma DeletionPublishes(s: System, name: string, order: seq<string>)
    requires LegalOp(s, Op.Delete(name, order))
    ensures var t := Apply(s, Op.Delete(name, order));
            && t.forwarders == s.forwarders - {name} && t.gateways.Keys == s.gateways.Keys
            && forall g :: g in s.gateways ==> FreshlyPublished(s.gateways[g].status, t.gateways[g].status)
  {
    hide Project;
  }

  /** An object that a reconcile or deletion creates starts as never updated: its first publication is generation 1. */
  lemma FirstGeneration(s: System, es: ExternalService, view: ClusterView, order: seq<string>)
    requires LegalOp(s, Op.Reconcile(es, view, order)) && NewForwarderSpec(s, es, view).Some? && es.name !in s.forwarders
    ensures var status := Apply(s, Op.Reconcile(es, view, order)).forwarders[es.name].status;
            status == Status(IsFalse, IsUnknown, 1, 0)
  {
    ReconcilePublishes(s, es, view, order);
    hide NewForwarderSpec, Apply, LegalOp;
  }

  // ----- rules in both directions -----

  /** The gateway's rules in this direction are exactly what the forwarders' rules that name it become. */
  ghost predicate ExactRules(dir: Direction, t: System, g: string, rules: seq<GatewayRule>) {
    forall q :: q in rules <==> exists n, r :: Stems(dir, t.forwarders, n, r, g, q)
  }

  lemma ProjectionIsExactRules(dir: Direction, t: System, order: seq<string>, g: string)
    requires Enumerates(order, t.forwarders.Keys)
    ensures ExactRules(dir, t, g, Project(dir, order, t.forwarders, g))
  {
    hide Project;
    forall q ensures q in Project(dir, order, t.forwarders, g) <==> exists n, r :: Stems(dir, t.forwarders, n, r, g, q) {
      ProjectMeaning(dir, order, t.forwarders, g, q);
      if n, r :| Stems(dir, t.forwarders, n, r, g, q) {
        assert n in order;
      }
    }
  }

  /** A gateway that a reconcile or a deletion rewrites has exactly the egress rules and the ingress rules of the forwarders
      there are then. */
  lemma RewrittenIsExact(t: System, order: seq<string>, g: string, ip: string)
    requires Enumerates(order, t.forwarders.Keys)
    ensures var spec := NewGateway(t, order, g, ip).spec;
            ExactRules(Egress, t, g, spec.egressRules) && ExactRules(Ingress, t, g, spec.ingressRules) && spec.gatewayIP == ip
  {
    ProjectionIsExactRules(Egress, t, order, g);
    ProjectionIsExactRules(Ingress, t, order, g);
  }

  /** So after a completed reconcile the gateways it names have the rules, in both directions, of all forwarders there are
      then, and after a completed deletion every gateway has. */
  lemma CompletedIsExact(s: System, op: Op, g: string)
    requires LegalOp(s, op)
    requires match op
             case Reconcile(es, view, _) =>
               && NewForwarderSpec(s, es, view).Some?
               && exists r :: r in NewForwarderSpec(s, es, view).value.ingressRules && r.gateway.name == g
             case Delete(_, _) => g in s.gateways
    ensures var t := Apply(s, op);
            && g in t.gateways
            && ExactRules(Egress, t, g, t.gateways[g].spec.egressRules) && ExactRules(Ingress, t, g, t.gateways[g].spec.ingressRules)
  {
    hide NewForwarderSpec, Project, ExactRules, AddressOf;
    var t := Apply(s, op);
    match op
    case Reconcile(es, view, order) =>
      var spec := NewForwarderSpec(s, es, view).value;
      assert g in Named(spec.ingressRules);
      assert t.forwarders == WithForwarder(s, es.name, spec).forwarders;
      RewrittenIsExact(WithForwarder(s, es.name, spec), order, g, AddressOf(spec.ingressRules, g));
      SameForwardersExact(WithForwarder(s, es.name, spec), t, g);
    case Delete(name, order) =>
      var rest := s.(forwarders := s.forwarders - {name});
      RewrittenIsExact(rest, order, g, s.gateways[g].spec.gatewayIP);
      SameForwardersExact(rest, t, g);
  }

  lemma SameForwardersExact(s: System, t: System, g: string)
    requires s.forwarders == t.forwarders
    ensures forall dir, rules :: ExactRules(dir, s, g, rules) <==> ExactRules(dir, t, g, rules)
  {
  }

  // ----- addresses -----

  /** A completed deletion changes no gateway's address. */
  lemma DeletionKeepsAddresses(s: System, name: string, order: seq<string>, g: string)
    requires LegalOp(s, Op.Delete(name, order)) && g in s.gateways
    ensures var t := Apply(s, Op.Delete(name, order)); g in t.gateways && t.gateways[g].spec.gatewayIP == s.gateways[g].spec.gatewayIP
  {
    hide Project;
  }

  /** Every gateway has the address that its name stands for, with or without rules. */
  ghost predicate Addressed(s: System) {
    forall g :: g in s.gateways ==> GetRuleName(s.gateways[g].spec.gatewayIP) == Some(g)
  }

  lemma ReconcileKeepsAddressed(s: System, es: ExternalService, view: ClusterView, order: seq<string>)
    requires GatewaysOk(s) && Addressed(s) && LegalOp(s, Op.Reconcile(es, view, order))
    ensures Addressed(Apply(s, Op.Reconcile(es, view, order)))
  {
    hide GetRuleName, NewForwarderSpec, Project, GatewaysOk, HeldAt;
    if NewForwarderSpec(s, es, view).Some? {
      NewRulesHeld(s, es, view);
      var rules := NewForwarderSpec(s, es, view).value.ingressRules;
      AfterReconcile(s, es.name, NewForwarderSpec(s, es, view).value, order);
      forall g | g in Named(rules) ensures GetRuleName(AddressOf(rules, g)) == Some(g) {
        var r :| r in rules && r.gateway.name == g && AddressOf(rules, g) == r.gatewayIP;
        assert WellFormed(r);
      }
    }
  }

  lemma ApplyKeepsAddressed(s: System, op: Op)
    requires GatewaysOk(s) && Addressed(s) && LegalOp(s, op)
    ensures Addressed(Apply(s, op))
  {
    hide GetRuleName, Project, GatewaysOk;
    match op
    case Reconcile(es, view, order) => ReconcileKeepsAddressed(s, es, view, order);
    case Delete(name, order) =>
      forall g | g in s.gateways ensures Apply(s, op).gateways[g].spec.gatewayIP == s.gateways[g].spec.gatewayIP {
        DeletionKeepsAddresses(s, name, order, g);
      }
  }

  /** Over every run from an empty cluster, every gateway object has the address that its name stands for, and so one that its
      agent can apply, whether or not it has rules left. */
  lemma {:induction false} RunKeepsAddressed(s: System, ops: seq<Op>)
    requires Inv(s) && Addressed(s) && LegalRun(s, ops)
    ensures Addressed(Run(s, ops)) && forall g :: g in Run(s, ops).gateways ==> GetHexIP(Run(s, ops).gateways[g].spec.gatewayIP).Some?
    decreases |ops|
  {
    hide Inv, Apply, LegalOp, GatewaysOk;
    if ops != [] {
      InvIsRecoverable(s, "");
      ApplyKeepsInv(s, ops[0]);
      ApplyKeepsAddressed(s, ops[0]);
      RunKeepsAddressed(Apply(s, ops[0]), ops[1..]);
    }
  }

  lemma AddressedAtStart()
    ensures Inv(EMPTY_SYSTEM) && Addressed(EMPTY_SYSTEM)
  {
  }
}
