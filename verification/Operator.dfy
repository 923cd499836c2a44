// How the operator rewrites forwarder and gateway objects (pkg/controller/externalservice/reconciler.go).
module Operator {
  import opened Text
  import opened Address
  import opened Api
  import opened PortPool
  import opened RuleGen

  /** The forwarder and gateway objects of the connector namespace */
  datatype System = System(forwarders: map<string, Forwarder>, gateways: map<string, Gateway>)

  const EMPTY_SYSTEM := System(map[], map[])

  // ----- pools read back from objects -----

  function UsedPortsForEgress(rules: seq<ForwarderRule>): Pool {
    if rules == [] then map[]
    else UsedPortsForEgress(rules[..|rules| - 1])[rules[|rules| - 1].relayPort := rules[|rules| - 1].targetPort]
  }

  function GatewayKey(q: GatewayRule): string {
    Key(q.sourceIP, q.targetPort)
  }

  function UsedPortsOfGateway(rules: seq<GatewayRule>): Pool {
    if rules == [] then map[]
    else UsedPortsOfGateway(rules[..|rules| - 1])[rules[|rules| - 1].relayPort := GatewayKey(rules[|rules| - 1])]
  }

  function UsedPortsForIngress(gws: map<string, Gateway>): Pools {
    map g | g in gws :: UsedPortsOfGateway(gws[g].spec.ingressRules)
  }

  // ----- projection of forwarder rules onto one gateway -----

  function ToGatewayRule(name: string, forwarderIP: string, r: ForwarderRule): GatewayRule {
    GatewayRule(r.protocol, r.sourceIP, r.targetPort, r.destinationPort, r.destinationIP,
                Ref(CONNECTOR_NAMESPACE, name), forwarderIP, r.relayPort)
  }

  function ProjectRules(name: string, forwarderIP: string, rules: seq<ForwarderRule>, g: string): seq<GatewayRule> {
    if rules == [] then []
    else
      var r := rules[|rules| - 1];
      ProjectRules(name, forwarderIP, rules[..|rules| - 1], g)
      + if r.gateway == Ref(CONNECTOR_NAMESPACE, g) then [ToGatewayRule(name, forwarderIP, r)] else []
  }

  function RulesOf(dir: Direction, spec: ForwarderSpec): seq<ForwarderRule> {
    if dir.Egress? then spec.egressRules else spec.ingressRules
  }

  ghost predicate Enumerates(order: seq<string>, names: set<string>) {
    && (forall n :: n in order <==> n in names)
    && (forall i, j :: 0 <= i < j < |order| ==> order[i] != order[j])
  }

  /** The rules of all forwarders, in the order of the list, that name gateway g */
  function Project(dir: Direction, order: seq<string>, fwds: map<string, Forwarder>, g: string): seq<GatewayRule>
    requires forall n :: n in order ==> n in fwds
  {
    if order == [] then []
    else
      var n := order[|order| - 1];
      Project(dir, order[..|order| - 1], fwds, g)
      + ProjectRules(n, fwds[n].spec.forwarderIP, RulesOf(dir, fwds[n].spec), g)
  }

  // ----- status of an object after the operator's three writes -----

  function Updating(s: Status): Status {
    s.(updating := IsTrue)
  }

  function Published(s: Status): Status {
    s.(updating := IsFalse, syncing := IsUnknown, ruleGeneration := s.ruleGeneration + 1)
  }

  function ForwarderOf(s: System, name: string): Forwarder {
    if name in s.forwarders then s.forwarders[name] else Forwarder(EMPTY_FORWARDER, NO_STATUS)
  }

  function GatewayOf(s: System, g: string): Gateway {
    if g in s.gateways then s.gateways[g] else Gateway(EMPTY_GATEWAY, NO_STATUS)
  }

  // ----- what every single write of the operator is -----

  /** The two halves of an object */
  datatype Content<S> = Content(spec: S, status: Status)

  /** Updating becomes True, and nothing else changes. */
  ghost predicate Marks<S(!new)>(was: Content<S>, now: Content<S>) {
    && now.spec == was.spec && now.status.updating == IsTrue && now.status.syncing == was.status.syncing
    && now.status.ruleGeneration == was.status.ruleGeneration && now.status.syncGeneration == was.status.syncGeneration
  }

  /** The spec is written while Updating is True. */
  ghost predicate Writes<S(!new)>(was: Content<S>, now: Content<S>) {
    was.status.updating == IsTrue && now.status == was.status
  }

  /** Updating becomes False, Syncing Unknown, and the spec is the next generation. */
  ghost predicate Publishes<S(!new)>(was: Content<S>, now: Content<S>) {
    was.status.updating == IsTrue && now.spec == was.spec && FreshlyPublished(was.status, now.status)
  }

  ghost predicate FreshlyPublished(was: Status, now: Status) {
    && now.updating == IsFalse && now.syncing == IsUnknown
    && now.ruleGeneration == was.ruleGeneration + 1 && now.syncGeneration == was.syncGeneration
  }

  ghost predicate UpdateWrite<S(!new)>(was: Option<Content<S>>, now: Content<S>, empty: S) {
    match was
    case None => now == Content(empty, Status(Missing, Missing, 0, 0))
    case Some(o) => Marks(o, now) || Writes(o, now) || Publishes(o, now)
  }

  ghost function StoredForwarder(s: System, name: string): Option<Content<ForwarderSpec>> {
    if name in s.forwarders then Some(Content(s.forwarders[name].spec, s.forwarders[name].status)) else None
  }

  ghost function StoredGateway(s: System, g: string): Option<Content<GatewaySpec>> {
    if g in s.gateways then Some(Content(s.gateways[g].spec, s.gateways[g].status)) else None
  }

  // ----- updateForwarderRules -----

  /** The rules a reconcile writes into the forwarder, if it gets that far */
  ghost function NewForwarderSpec(s: System, es: ExternalService, view: ClusterView): Option<ForwarderSpec> {
    if view.podIP.None? || view.podIP.value == "" then None
    else
      match EgressRules(es, view, UsedPortsForEgress(ForwarderOf(s, es.name).spec.egressRules))
      case None => None
      case Some(e) =>
        match IngressRules(es, view, UsedPortsForIngress(s.gateways))
        case None => None
        case Some(i) => Some(ForwarderSpec(e, i, view.podIP.value))
  }

  /** What a reconcile may write into the forwarder, whatever the stored rules are and in whatever order maps
      are iterated */
  ghost predicate MayGenerateSpec(s: System, es: ExternalService, view: ClusterView, spec: ForwarderSpec) {
    && view.podIP == Some(spec.forwarderIP) && spec.forwarderIP != "" && ValidSources(es.sources)
    && MayGenerate(Egress, EgressTemplates(es, view, es.sources),
                   map["" := UsedPortsForEgress(ForwarderOf(s, es.name).spec.egressRules)], spec.egressRules)
    && MayGenerate(Ingress, IngressTemplates(es, view, es.sources), UsedPortsForIngress(s.gateways), spec.ingressRules)
  }

  function WithForwarder(s: System, name: string, spec: ForwarderSpec): System {
    s.(forwarders := s.forwarders[name := Forwarder(spec, Published(ForwarderOf(s, name).status))])
  }

  /** An attempt that ends before it writes rules leaves the forwarder marked as updating. */
  function WithAttempt(s: System, name: string): System {
    var f := ForwarderOf(s, name);
    s.(forwarders := s.forwarders[name := f.(status := Updating(f.status))])
  }

  // ----- updateGatewayRules -----

  /** The gateways a list of rules names */
  function Named(rules: seq<ForwarderRule>): set<string> {
    set r | r in rules :: r.gateway.name
  }

  /** An ingress rule generated by the operator names its gateway after the gateway's address, in the
      connector namespace, and its target port is a printed number. */
  predicate WellFormed(r: ForwarderRule) {
    && GetRuleName(r.gatewayIP) == Some(r.gateway.name)
    && r.gateway.namespace == CONNECTOR_NAMESPACE
    && ':' !in r.targetPort
  }

  ghost function NewGateway(s: System, order: seq<string>, g: string, ip: string): Gateway
    requires Enumerates(order, s.forwarders.Keys)
  {
    Gateway(GatewaySpec(Project(Egress, order, s.forwarders, g), Project(Ingress, order, s.forwarders, g), ip),
            Published(GatewayOf(s, g).status))
  }

  /** The address under which the rules reach gateway g */
  ghost function AddressOf(rules: seq<ForwarderRule>, g: string): string
    requires g in Named(rules)
  {
    var r :| r in rules && r.gateway.name == g;
    r.gatewayIP
  }

  /** Every gateway the forwarder's rules name is rewritten from all forwarders. */
  ghost function WithGateways(s: System, name: string, order: seq<string>): System
    requires name in s.forwarders && Enumerates(order, s.forwarders.Keys)
  {
    var rules := s.forwarders[name].spec.ingressRules;
    s.(gateways := s.gateways + map g | g in Named(rules) :: NewGateway(s, order, g, AddressOf(rules, g)))
  }

  // ----- whole reconciles -----

  datatype Op =
    | Reconcile(es: ExternalService, view: ClusterView, order: seq<string>)
    | Delete(name: string, order: seq<string>)

  /** The order in which the client lists the forwarders that exist at that moment */
  ghost predicate LegalOp(s: System, op: Op) {
    match op
    case Reconcile(es, _, order) => Enumerates(order, s.forwarders.Keys + {es.name})
    case Delete(name, order) => Enumerates(order, s.forwarders.Keys - {name})
  }

  /** deleteResourceForExternalService: drop the forwarder and rewrite every gateway */
  ghost function WithoutForwarder(s: System, name: string, order: seq<string>): System
    requires Enumerates(order, s.forwarders.Keys - {name})
  {
    var rest := s.(forwarders := s.forwarders - {name});
    rest.(gateways := map g | g in s.gateways :: NewGateway(rest, order, g, s.gateways[g].spec.gatewayIP))
  }

  /** The effect of one completed reconcile */
  ghost function Apply(s: System, op: Op): System
    requires LegalOp(s, op)
  {
    match op
    case Reconcile(es, view, order) =>
      (match NewForwarderSpec(s, es, view)
       case None => WithAttempt(s, es.name)
       case Some(spec) => WithGateways(WithForwarder(s, es.name, spec), es.name, order))
    case Delete(name, order) => WithoutForwarder(s, name, order)
  }
}
