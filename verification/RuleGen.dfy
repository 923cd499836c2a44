// Relay-port lookup and forwarder-rule generation (pkg/controller/externalservice/reconciler.go).
module RuleGen {
  import opened Text
  import opened Address
  import opened Api
  import opened PortPool

  function Key(srcIP: string, tPort: string): string {
    srcIP + ":" + tPort
  }

  function RuleKey(r: ForwarderRule): string {
    Key(r.sourceIP, r.targetPort)
  }

  /** Keys identify (source, port) pairs as long as ports contain no ':', whatever the source looks like. */
  lemma KeyInjective(s: string, p: string, t: string, q: string)
    requires ':' !in p && ':' !in q
    ensures Key(s, p) == Key(t, q) <==> s == t && p == q
  {
    if Key(s, p) == Key(t, q) {
      assert s + [':'] + p == t + [':'] + q;
      LastSeparatorDecides(s, p, t, q, ':');
    }
  }

  // ----- the rules before they get a relay port -----

  predicate ValidSources(sources: seq<Source>) {
    forall s :: s in sources ==> GetRuleName(s.sourceIP).Some?
  }

  function GatewayRefFor(ip: string): Ref
    requires GetRuleName(ip).Some?
  {
    Ref(CONNECTOR_NAMESPACE, GetRuleName(ip).value)
  }

  function EgressTemplate(es: ExternalService, src: Source, port: Port, addr: string): ForwarderRule
    requires GetRuleName(src.sourceIP).Some?
  {
    ForwarderRule(port.protocol, addr, port.targetPort, Itoa(port.port), es.targetIP,
                  GatewayRefFor(src.sourceIP), src.sourceIP, "")
  }

  function IngressTemplate(es: ExternalService, src: Source, svc: Service, port: ServicePort): ForwarderRule
    requires GetRuleName(src.sourceIP).Some?
  {
    ForwarderRule(port.protocol, es.targetIP, Itoa(port.port), Itoa(port.port), svc.clusterIP,
                  GatewayRefFor(src.sourceIP), src.sourceIP, "")
  }

  function EgressOfPort(es: ExternalService, src: Source, port: Port, addrs: seq<string>): seq<ForwarderRule>
    requires GetRuleName(src.sourceIP).Some?
  {
    seq(|addrs|, i requires 0 <= i < |addrs| => EgressTemplate(es, src, port, addrs[i]))
  }

  function EgressOfSource(es: ExternalService, src: Source, ports: seq<Port>, addrs: seq<string>): seq<ForwarderRule>
    requires GetRuleName(src.sourceIP).Some?
  {
    if ports == [] then []
    else EgressOfSource(es, src, ports[..|ports| - 1], addrs) + EgressOfPort(es, src, ports[|ports| - 1], addrs)
  }

  function EgressTemplates(es: ExternalService, view: ClusterView, sources: seq<Source>): seq<ForwarderRule>
    requires ValidSources(sources)
  {
    if sources == [] then []
    else
      var src := sources[|sources| - 1];
      EgressTemplates(es, view, sources[..|sources| - 1])
      + EgressOfSource(es, src, es.ports, view.EndpointAddrs(src.service))
  }

  function IngressOfSource(es: ExternalService, src: Source, svc: Service, ports: seq<ServicePort>): seq<ForwarderRule>
    requires GetRuleName(src.sourceIP).Some?
  {
    seq(|ports|, i requires 0 <= i < |ports| => IngressTemplate(es, src, svc, ports[i]))
  }

  function IngressTemplates(es: ExternalService, view: ClusterView, sources: seq<Source>): seq<ForwarderRule>
    requires ValidSources(sources)
  {
    if sources == [] then []
    else
      var src := sources[|sources| - 1];
      var svc := view.ServiceFor(src.service);
      IngressTemplates(es, view, sources[..|sources| - 1]) + IngressOfSource(es, src, svc, svc.ports)
  }

  /** Rule t without a relay port is for this address of this source on this port. */
  ghost predicate AsksEgress(es: ExternalService, view: ClusterView, src: Source, port: Port, addr: string, t: ForwarderRule) {
    && src in es.sources && port in es.ports
    && src.service in view.endpoints && addr in view.endpoints[src.service]
    && t.protocol == port.protocol && t.sourceIP == addr && t.targetPort == port.targetPort
    && t.destinationIP == es.targetIP && t.destinationPort == Itoa(port.port)
    && t.gateway.namespace == "external-services" && GetRuleName(src.sourceIP) == Some(t.gateway.name)
    && t.gatewayIP == src.sourceIP && t.relayPort == ""
  }

  /** Rule t without a relay port is for this port of this source's service. */
  ghost predicate AsksIngress(es: ExternalService, view: ClusterView, src: Source, port: ServicePort, t: ForwarderRule) {
    && src in es.sources && src.service in view.services && port in view.services[src.service].ports
    && t.protocol == port.protocol && t.sourceIP == es.targetIP && t.targetPort == Itoa(port.port)
    && t.destinationIP == view.services[src.service].clusterIP && t.destinationPort == Itoa(port.port)
    && t.gateway.namespace == "external-services" && GetRuleName(src.sourceIP) == Some(t.gateway.name)
    && t.gatewayIP == src.sourceIP && t.relayPort == ""
  }

  lemma EgressTemplateAsks(es: ExternalService, view: ClusterView, src: Source, port: Port, addr: string, t: ForwarderRule)
    requires src in es.sources && GetRuleName(src.sourceIP).Some?
    ensures AsksEgress(es, view, src, port, addr, t) <==>
            port in es.ports && addr in view.EndpointAddrs(src.service) && t == EgressTemplate(es, src, port, addr)
  {
    hide GetRuleName;
  }

  lemma IngressTemplateAsks(es: ExternalService, view: ClusterView, src: Source, port: ServicePort, t: ForwarderRule)
    requires src in es.sources && GetRuleName(src.sourceIP).Some?
    ensures AsksIngress(es, view, src, port, t) <==>
            port in view.ServiceFor(src.service).ports && t == IngressTemplate(es, src, view.ServiceFor(src.service), port)
  {
    hide GetRuleName;
  }

  lemma {:induction false} EgressOfSourceMeaning(es: ExternalService, src: Source, ports: seq<Port>, addrs: seq<string>, t: ForwarderRule)
    requires GetRuleName(src.sourceIP).Some?
    ensures t in EgressOfSource(es, src, ports, addrs) <==>
            exists port, addr :: port in ports && addr in addrs && t == EgressTemplate(es, src, port, addr)
  {
    hide GetRuleName;
    if ports != [] {
      var last := ports[|ports| - 1];
      EgressOfSourceMeaning(es, src, ports[..|ports| - 1], addrs, t);
      assert ports == ports[..|ports| - 1] + [last];
      if addr :| addr in addrs && t == EgressTemplate(es, src, last, addr) {
        var i :| 0 <= i < |addrs| && addrs[i] == addr;
        assert EgressOfPort(es, src, last, addrs)[i] == t;
      }
    }
  }

  /** One source's rules are what it asks for. */
  lemma EgressOfSourceAsks(es: ExternalService, view: ClusterView, src: Source, t: ForwarderRule)
    requires src in es.sources && GetRuleName(src.sourceIP).Some?
    ensures t in EgressOfSource(es, src, es.ports, view.EndpointAddrs(src.service)) <==>
            exists port, addr :: AsksEgress(es, view, src, port, addr, t)
  {
    hide GetRuleName, AsksEgress, EgressTemplate, EgressOfSource;
    var addrs := view.EndpointAddrs(src.service);
    EgressOfSourceMeaning(es, src, es.ports, addrs, t);
    forall port, addr ensures AsksEgress(es, view, src, port, addr, t) <==>
                              port in es.ports && addr in addrs && t == EgressTemplate(es, src, port, addr) {
      EgressTemplateAsks(es, view, src, port, addr, t);
    }
  }

  /** The egress rules ask for every endpoint address of every source on every port, and for nothing else. */
  lemma {:induction false} EgressTemplatesMeaning(es: ExternalService, view: ClusterView, n: nat, t: ForwarderRule)
    requires n <= |es.sources| && ValidSources(es.sources[..n])
    ensures t in EgressTemplates(es, view, es.sources[..n]) <==>
            exists src, port, addr :: src in es.sources[..n] && AsksEgress(es, view, src, port, addr, t)
  {
    hide GetRuleName, AsksEgress, EgressOfSource;
    if n > 0 {
      var src := es.sources[n - 1];
      assert es.sources[..n][..n - 1] == es.sources[..n - 1];
      assert es.sources[..n] == es.sources[..n - 1] + [src];
      EgressTemplatesMeaning(es, view, n - 1, t);
      EgressOfSourceAsks(es, view, src, t);
    }
  }

  /** The ingress rules ask for every port of every source's service, and for nothing else. */
  lemma {:induction false} IngressTemplatesMeaning(es: ExternalService, view: ClusterView, n: nat, t: ForwarderRule)
    requires n <= |es.sources| && ValidSources(es.sources[..n])
    ensures t in IngressTemplates(es, view, es.sources[..n]) <==>
            exists src, port :: src in es.sources[..n] && AsksIngress(es, view, src, port, t)
  {
    hide GetRuleName;
    if n > 0 {
      var src := es.sources[n - 1];
      assert es.sources[..n][..n - 1] == es.sources[..n - 1];
      assert es.sources[..n] == es.sources[..n - 1] + [src];
      IngressTemplatesMeaning(es, view, n - 1, t);
      var svc := view.ServiceFor(src.service);
      if port :| port in svc.ports && t == IngressTemplate(es, src, svc, port) {
        var i :| 0 <= i < |svc.ports| && svc.ports[i] == port;
        assert IngressOfSource(es, src, svc, svc.ports)[i] == t;
        assert AsksIngress(es, view, src, port, t);
      }
    }
  }

  // ----- their order -----

  lemma {:induction false} EgressOfSourceAt(es: ExternalService, src: Source, ports: seq<Port>, addrs: seq<string>, j: nat, k: nat)
    requires GetRuleName(src.sourceIP).Some?
    ensures |EgressOfSource(es, src, ports, addrs)| == |ports| * |addrs|
    ensures j < |ports| && k < |addrs| ==>
              0 <= j * |addrs| + k < |ports| * |addrs|
              && EgressOfSource(es, src, ports, addrs)[j * |addrs| + k] == EgressTemplate(es, src, ports[j], addrs[k])
  {
    hide GetRuleName, EgressTemplate;
    if ports != [] {
      var n := |ports| - 1;
      EgressOfSourceAt(es, src, ports[..n], addrs, j, k);
      assert (n + 1) * |addrs| == n * |addrs| + |addrs|;
      if j < n {
        assert ports[..n][j] == ports[j];
      }
    }
  }

  /** The number of egress rules for the first n sources: one for each of their addresses on each port */
  function EgressCount(es: ExternalService, view: ClusterView, n: nat): nat
    requires n <= |es.sources|
  {
    if n == 0 then 0
    else
      var service := es.sources[n - 1].service;
      EgressCount(es, view, n - 1) + |es.ports| * if service in view.endpoints then |view.endpoints[service]| else 0
  }

  /** The place of the rule for source i, port j and address k */
  function EgressPlace(es: ExternalService, view: ClusterView, i: nat, j: nat, k: nat): int
    requires i < |es.sources| && es.sources[i].service in view.endpoints
  {
    EgressCount(es, view, i) + (j * |view.endpoints[es.sources[i].service]| + k)
  }

  lemma EgressSplit(es: ExternalService, view: ClusterView, n: nat)
    requires 0 < n <= |es.sources| && ValidSources(es.sources[..n])
    ensures var src := es.sources[n - 1];
            && ValidSources(es.sources[..n - 1]) && GetRuleName(src.sourceIP).Some?
            && EgressTemplates(es, view, es.sources[..n])
               == EgressTemplates(es, view, es.sources[..n - 1]) + EgressOfSource(es, src, es.ports, view.EndpointAddrs(src.service))
            && |EgressOfSource(es, src, es.ports, view.EndpointAddrs(src.service))| == EgressCount(es, view, n) - EgressCount(es, view, n - 1)
  {
    hide GetRuleName, EgressOfSource;
    assert es.sources[..n][..n - 1] == es.sources[..n - 1] && es.sources[..n][n - 1] == es.sources[n - 1];
    EgressOfSourceAt(es, es.sources[n - 1], es.ports, view.EndpointAddrs(es.sources[n - 1].service), 0, 0);
  }

  lemma LastSourceInOrder(es: ExternalService, view: ClusterView, n: nat, j: nat, k: nat)
    requires 0 < n <= |es.sources| && ValidSources(es.sources[..n]) && es.sources[n - 1].service in view.endpoints
    requires j < |es.ports| && k < |view.endpoints[es.sources[n - 1].service]|
    requires |EgressTemplates(es, view, es.sources[..n - 1])| == EgressCount(es, view, n - 1)
    ensures 0 <= EgressPlace(es, view, n - 1, j, k) < EgressCount(es, view, n) == |EgressTemplates(es, view, es.sources[..n])|
    ensures AsksEgress(es, view, es.sources[n - 1], es.ports[j], view.endpoints[es.sources[n - 1].service][k],
                       EgressTemplates(es, view, es.sources[..n])[EgressPlace(es, view, n - 1, j, k)])
  {
    hide GetRuleName, AsksEgress, EgressTemplate, EgressTemplates, EgressOfSource, EgressCount, ValidSources;
    EgressSplit(es, view, n);
    var src := es.sources[n - 1];
    var addrs := view.endpoints[src.service];
    EgressOfSourceAt(es, src, es.ports, addrs, j, k);
    EgressTemplateAsks(es, view, src, es.ports[j], addrs[k], EgressTemplate(es, src, es.ports[j], addrs[k]));
  }

  /** Egress rules come source by source, port by port, address by address, one for each and no others. */
  lemma {:induction false} EgressInOrder(es: ExternalService, view: ClusterView, n: nat, i: nat, j: nat, k: nat)
    requires n <= |es.sources| && ValidSources(es.sources[..n])
    ensures |EgressTemplates(es, view, es.sources[..n])| == EgressCount(es, view, n)
    ensures i < n && j < |es.ports| && es.sources[i].service in view.endpoints && k < |view.endpoints[es.sources[i].service]| ==>
              var at := EgressPlace(es, view, i, j, k);
              && 0 <= at < EgressCount(es, view, n)
              && AsksEgress(es, view, es.sources[i], es.ports[j], view.endpoints[es.sources[i].service][k],
                            EgressTemplates(es, view, es.sources[..n])[at])
  {
    hide GetRuleName, AsksEgress, EgressOfSource, EgressPlace, ValidSources;
    if n > 0 {
      EgressSplit(es, view, n);
      EgressInOrder(es, view, n - 1, i, j, k);
      hide EgressTemplates, EgressCount;
      if i == n - 1 && j < |es.ports| && es.sources[i].service in view.endpoints && k < |view.endpoints[es.sources[i].service]| {
        LastSourceInOrder(es, view, n, j, k);
      }
    }
  }

  function IngressCount(es: ExternalService, view: ClusterView, n: nat): nat
    requires n <= |es.sources|
  {
    if n == 0 then 0
    else
      var service := es.sources[n - 1].service;
      IngressCount(es, view, n - 1) + if service in view.services then |view.services[service].ports| else 0
  }

  /** Ingress rules come source by source, port by port, one for each and no others. */
  lemma {:induction false} IngressInOrder(es: ExternalService, view: ClusterView, n: nat, i: nat, j: nat)
    requires n <= |es.sources| && ValidSources(es.sources[..n])
    ensures |IngressTemplates(es, view, es.sources[..n])| == IngressCount(es, view, n)
    ensures i < n && es.sources[i].service in view.services && j < |view.services[es.sources[i].service].ports| ==>
              var at := IngressCount(es, view, i) + j;
              && 0 <= at < IngressCount(es, view, n)
              && AsksIngress(es, view, es.sources[i], view.services[es.sources[i].service].ports[j],
                             IngressTemplates(es, view, es.sources[..n])[at])
  {
    hide GetRuleName, AsksIngress, IngressTemplate;
    if n > 0 {
      var src := es.sources[n - 1];
      assert es.sources[..n][..n - 1] == es.sources[..n - 1] && es.sources[..n][n - 1] == src;
      IngressInOrder(es, view, n - 1, i, j);
      if i == n - 1 && src.service in view.services && j < |view.services[src.service].ports| {
        var svc := view.services[src.service];
        IngressTemplateAsks(es, view, src, svc.ports[j], IngressTemplate(es, src, svc, svc.ports[j]));
      }
    }
  }

  // ----- the rules with their relay ports -----

  datatype Direction = Egress | Ingress

  function DemandOf(dir: Direction, t: ForwarderRule): Demand {
    Demand(if dir.Egress? then "" else t.gateway.name, RuleKey(t))
  }

  function Demands(dir: Direction, ts: seq<ForwarderRule>): (ds: seq<Demand>)
    ensures |ds| == |ts|
    ensures AreKeys(ds)
  {
    seq(|ts|, i requires 0 <= i < |ts| => DemandOf(dir, ts[i]))
  }

  function Fill(ts: seq<ForwarderRule>, ports: seq<string>): seq<ForwarderRule>
    requires |ts| == |ports|
  {
    seq(|ts|, i requires 0 <= i < |ts| => ts[i].(relayPort := ports[i]))
  }

  function RelayPorts(rules: seq<ForwarderRule>): seq<string> {
    seq(|rules|, i requires 0 <= i < |rules| => rules[i].relayPort)
  }

  /** The rules for `ts`, if the pools can serve them */
  ghost function Generate(dir: Direction, ts: seq<ForwarderRule>, pools: Pools): Option<seq<ForwarderRule>> {
    match Assign(Demands(dir, ts), pools)
    case None => None
    case Some(a) => Some(Fill(ts, a.ports))
  }

  ghost function EgressRules(es: ExternalService, view: ClusterView, used: Pool): Option<seq<ForwarderRule>> {
    if !ValidSources(es.sources) then None
    else Generate(Egress, EgressTemplates(es, view, es.sources), map["" := used])
  }

  ghost function IngressRules(es: ExternalService, view: ClusterView, used: Pools): Option<seq<ForwarderRule>> {
    if !ValidSources(es.sources) then None
    else Generate(Ingress, IngressTemplates(es, view, es.sources), used)
  }

  // ----- the allocator as the code runs it -----

  /** What generation may make of the templates, from any pools at all */
  ghost predicate MayGenerate(dir: Direction, ts: seq<ForwarderRule>, pools: Pools, rules: seq<ForwarderRule>) {
    && |rules| == |ts| && rules == Fill(ts, RelayPorts(rules))
    && exists after: Pools :: MayServe(Demands(dir, ts), pools, RelayPorts(rules), after)
  }

  /** What a lookup may answer: any port that holds the key, or else the least free one */
  ghost predicate MayAnswer(pool: Pool, key: string, port: Option<string>, after: Pool) {
    if Held(pool, key) then
      port.Some? && port.value in pool && pool[port.value] == key && after == pool
    else
      match FirstFree(pool, MIN_PORT)
      case None => port.None? && after == pool
      case Some(n) => port == Some(Itoa(n)) && after == pool[Itoa(n) := key]
  }

  /** The same for a demand on one of several pools; the other pools do not change. */
  ghost predicate Answers(d: Demand, port: Option<string>, before: Pools, after: Pools) {
    && MayAnswer(PoolOf(before, d.pool), d.key, port, PoolOf(after, d.pool))
    && after == before[d.pool := PoolOf(after, d.pool)]
  }

  /** What a sequence of lookups may answer, in any iteration order of the maps, from any pools at all */
  ghost predicate MayServe(ds: seq<Demand>, before: Pools, ports: seq<string>, after: Pools)
    decreases |ds|
  {
    if ds == [] then ports == [] && after == before
    else
      var last := |ds| - 1;
      && |ports| == |ds|
      && exists mid: Pools :: MayServe(ds[..last], before, ports[..last], mid) && Answers(ds[last], Some(ports[last]), mid, after)
  }

  lemma MayServeNext(ds: seq<Demand>, before: Pools, ports: seq<string>, mid: Pools, d: Demand, port: string, after: Pools)
    requires MayServe(ds, before, ports, mid) && Answers(d, Some(port), mid, after)
    ensures MayServe(ds + [d], before, ports + [port], after)
  {
    hide Answers;
    MayServeCount(ds, before, ports, mid);
    var all, out := ds + [d], ports + [port];
    assert all[..|all| - 1] == ds && out[..|all| - 1] == ports;
    assert MayServe(all[..|all| - 1], before, out[..|all| - 1], mid) && Answers(all[|all| - 1], Some(out[|all| - 1]), mid, after);
  }

  lemma MayServeCount(ds: seq<Demand>, before: Pools, ports: seq<string>, after: Pools)
    requires MayServe(ds, before, ports, after)
    ensures |ports| == |ds|
  {
  }

  /** In a functional pool the answer does not depend on the order in which a map is iterated. */
  lemma AnswerIsUnique(pool: Pool, key: string, port: Option<string>, after: Pool)
    requires Functional(pool) && IsKey(key)
    ensures MayAnswer(pool, key, port, after) <==>
            match Allocate(pool, key)
            case None => port.None? && after == pool
            case Some(r) => port == Some(r.port) && after == r.pool
  {
  }

  class EgressPool {
    var used: Pool
    constructor (used: Pool)
      ensures this.used == used
    {
      this.used := used;
    }
  }

  class IngressPools {
    var used: Pools
    constructor (used: Pools)
      ensures this.used == used
    {
      this.used := used;
    }
  }

  /** for k, v := range pool, in whatever order the map yields its keys */
  method FindPort(pool: Pool, key: string) returns (port: Option<string>)
    ensures port.Some? <==> Held(pool, key)
    ensures port.Some? ==> port.value in pool && pool[port.value] == key
  {
    var todo := pool.Keys;
    while todo != {}
      invariant todo <= pool.Keys
      invariant forall k :: k in pool && k !in todo ==> pool[k] != key
    {
      var k :| k in todo;
      if pool[k] == key {
        return Some(k);
      }
      todo := todo - {k};
    }
    return None;
  }

  method FindFree(pool: Pool) returns (port: Option<string>)
    ensures port == match FirstFree(pool, MIN_PORT) case None => None case Some(n) => Some(Itoa(n))
  {
    for n := MIN_PORT to MAX_PORT + 1
      invariant FirstFree(pool, n) == FirstFree(pool, MIN_PORT)
    {
      if Itoa(n) !in pool {
        return Some(Itoa(n));
      }
    }
    return None;
  }

  method GenRelayPortForEgress(srcIP: string, tPort: string, ePorts: EgressPool) returns (port: Option<string>)
    modifies ePorts
    ensures Answers(Demand("", Key(srcIP, tPort)), port, map["" := old(ePorts.used)], map["" := ePorts.used])
  {
    hide FirstFree, Itoa;
    port := FindPort(ePorts.used, srcIP + ":" + tPort);
    if port.Some? {
      return;
    }
    port := FindFree(ePorts.used);
    if port.Some? {
      ePorts.used := ePorts.used[port.value := srcIP + ":" + tPort];
    }
  }

  method GenRelayPortForIngress(srcIP: string, tPort: string, gwName: string, iPorts: IngressPools)
    returns (port: Option<string>)
    modifies iPorts
    ensures Answers(Demand(gwName, Key(srcIP, tPort)), port, old(iPorts.used), iPorts.used)
  {
    hide FirstFree, Itoa;
    if gwName !in iPorts.used {
      iPorts.used := iPorts.used[gwName := map[]];
    }
    port := FindPort(iPorts.used[gwName], srcIP + ":" + tPort);
    if port.Some? {
      return;
    }
    port := FindFree(iPorts.used[gwName]);
    if port.Some? {
      iPorts.used := iPorts.used[gwName := iPorts.used[gwName][port.value := srcIP + ":" + tPort]];
    }
  }

  /** The state of a generator that has turned the templates `ts` into `rules` */
  ghost predicate Produced(dir: Direction, ts: seq<ForwarderRule>, rules: seq<ForwarderRule>, before: Pools, after: Pools) {
    && |rules| == |ts| && rules == Fill(ts, RelayPorts(rules))
    && MayServe(Demands(dir, ts), before, RelayPorts(rules), after)
  }

  /** In no order of any map can the templates be given ports. */
  ghost predicate NeverProduced(dir: Direction, ts: seq<ForwarderRule>, before: Pools) {
    forall ports, after :: !MayServe(Demands(dir, ts), before, ports, after)
  }

  lemma AssignAnswered(ds: seq<Demand>, d: Demand, before: Pools, a: Assignment, port: string, after: Pools)
    requires AllFunctional(a.pools) && IsKey(d.key) && Assign(ds, before) == Some(a)
    requires MayAnswer(PoolOf(a.pools, d.pool), d.key, Some(port), PoolOf(after, d.pool))
    requires after == a.pools[d.pool := PoolOf(after, d.pool)]
    ensures Assign(ds + [d], before) == Some(Assignment(a.ports + [port], after))
    ensures AllFunctional(after)
  {
    assert Functional(PoolOf(a.pools, d.pool));
    AnswerIsUnique(PoolOf(a.pools, d.pool), d.key, Some(port), PoolOf(after, d.pool));
    AssignSnoc(ds, d, before);
    AllocateServesNext(d, a.pools);
  }

  /** Two pools that have the same ports and the same keys, perhaps paired differently */
  ghost predicate Alike(x: Pool, y: Pool) {
    x.Keys == y.Keys && forall key :: Held(x, key) <==> Held(y, key)
  }

  ghost predicate AllAlike(a: Pools, b: Pools) {
    forall g :: Alike(PoolOf(a, g), PoolOf(b, g))
  }

  lemma AnswerAlike(key: string, x: Pool, p: Option<string>, x': Pool, y: Pool, q: Option<string>, y': Pool)
    requires Alike(x, y) && MayAnswer(x, key, p, x') && MayAnswer(y, key, q, y')
    ensures Alike(x', y') && (p.Some? <==> q.Some?)
  {
    hide Held, FirstFree;
    SameKeysSameFree(x, y, MIN_PORT);
    if !Held(x, key) && FirstFree(x, MIN_PORT).Some? {
      var n := FirstFree(x, MIN_PORT).value;
      FreeIsFree(x, n);
      HeldOneMore(x, Itoa(n), key);
      HeldOneMore(y, Itoa(n), key);
      forall k ensures Held(x', k) <==> Held(y', k) {
        assert Held(x[Itoa(n) := key], k) <==> Held(x, k) || k == key;
        assert Held(y[Itoa(n) := key], k) <==> Held(y, k) || k == key;
      }
      assert x'.Keys == x.Keys + {Itoa(n)} && y'.Keys == y.Keys + {Itoa(n)};
    }
  }

  lemma AnswersAlike(d: Demand, a: Pools, p: Option<string>, a': Pools, b: Pools, q: Option<string>, b': Pools)
    requires AllAlike(a, b) && Answers(d, p, a, a') && Answers(d, q, b, b')
    ensures AllAlike(a', b') && (p.Some? <==> q.Some?)
  {
    hide Alike, MayAnswer;
    AnswerAlike(d.key, PoolOf(a, d.pool), p, PoolOf(a', d.pool), PoolOf(b, d.pool), q, PoolOf(b', d.pool));
    forall g ensures Alike(PoolOf(a', g), PoolOf(b', g)) {
      assert g != d.pool ==> PoolOf(a', g) == PoolOf(a, g) && PoolOf(b', g) == PoolOf(b, g);
    }
  }

  lemma FreeIsFree(pool: Pool, n: int)
    requires FirstFree(pool, MIN_PORT) == Some(n)
    ensures Itoa(n) !in pool
  {
  }

  /** However maps are iterated, serving the same demands takes the same ports and adds the same keys. */
  lemma {:induction false} ServedAlike(ds: seq<Demand>, before: Pools, ports: seq<string>, after: Pools, other: seq<string>, end: Pools)
    requires MayServe(ds, before, ports, after) && MayServe(ds, before, other, end)
    ensures AllAlike(after, end)
    decreases |ds|
  {
    hide *;
    if ds == [] {
      MayServeNone(before, ports, after);
      MayServeNone(before, other, end);
      AlikeItself(before);
    } else {
      var last := |ds| - 1;
      var mid := MayServeLast(ds, before, ports, after);
      var half := MayServeLast(ds, before, other, end);
      ServedAlike(ds[..last], before, ports[..last], mid, other[..last], half);
      AnswersAlike(ds[last], mid, Some(ports[last]), after, half, Some(other[last]), end);
    }
  }

  lemma AlikeItself(pools: Pools)
    ensures AllAlike(pools, pools)
  {
  }

  /** A demand that finds its pool exhausted after some iteration orders does so after any. */
  lemma StuckNever(ds: seq<Demand>, before: Pools, ports: seq<string>, now: Pools, d: Demand, after: Pools,
                   other: seq<string>, end: Pools)
    requires MayServe(ds, before, ports, now) && Answers(d, None, now, after)
    ensures !MayServe(ds + [d], before, other, end)
  {
    hide *;
    if MayServe(ds + [d], before, other, end) {
      var mid := MayServeLast(ds + [d], before, other, end);
      assert (ds + [d])[..|ds + [d]| - 1] == ds && (ds + [d])[|ds|] == d;
      ServedAlike(ds, before, ports, now, other[..|ds|], mid);
      AnswersAlike(d, now, None, after, mid, Some(other[|ds|]), end);
    }
  }

  /** What can never be served cannot be served when more is asked. */
  lemma {:induction false} NeverForMore(dir: Direction, ts: seq<ForwarderRule>, more: seq<ForwarderRule>, before: Pools)
    requires NeverProduced(dir, ts, before)
    ensures NeverProduced(dir, ts + more, before)
    decreases |more|
  {
    hide MayServe, DemandOf;
    if more == [] {
      assert ts + more == ts;
    } else {
      var last := |more| - 1;
      NeverForMore(dir, ts, more[..last], before);
      var ds := Demands(dir, ts + more);
      assert ds[..|ds| - 1] == Demands(dir, ts + more[..last]);
      forall ports, after ensures !MayServe(ds, before, ports, after) {
        if MayServe(ds, before, ports, after) {
          var mid := MayServeLast(ds, before, ports, after);
        }
      }
    }
  }

  lemma ProducedNext(dir: Direction, ts: seq<ForwarderRule>, all: seq<ForwarderRule>, k: nat, rules: seq<ForwarderRule>,
                     before: Pools, now: Pools, port: string, after: Pools)
    requires k < |all| && Produced(dir, ts + all[..k], rules, before, now) && Answers(DemandOf(dir, all[k]), Some(port), now, after)
    ensures Produced(dir, ts + all[..k + 1], rules + [all[k].(relayPort := port)], before, after)
  {
    hide Answers, MayServe;
    var was, t := ts + all[..k], all[k];
    assert ts + all[..k + 1] == was + [t];
    MayServeNext(Demands(dir, was), before, RelayPorts(rules), now, DemandOf(dir, t), port, after);
    assert Demands(dir, was + [t]) == Demands(dir, was) + [DemandOf(dir, t)];
    var out := rules + [t.(relayPort := port)];
    assert RelayPorts(out) == RelayPorts(rules) + [port];
    assert out == Fill(was + [t], RelayPorts(out));
  }

  lemma StuckAt(dir: Direction, ts: seq<ForwarderRule>, all: seq<ForwarderRule>, k: nat, rules: seq<ForwarderRule>,
                before: Pools, now: Pools, after: Pools)
    requires k < |all| && Produced(dir, ts + all[..k], rules, before, now)
    requires Answers(DemandOf(dir, all[k]), None, now, after)
    ensures NeverProduced(dir, ts + all, before)
  {
    hide Answers, MayServe;
    var was, t := ts + all[..k], all[k];
    assert ts + all[..k + 1] == was + [t];
    assert Demands(dir, was + [t]) == Demands(dir, was) + [DemandOf(dir, t)];
    forall ports, end ensures !MayServe(Demands(dir, was + [t]), before, ports, end) {
      StuckNever(Demands(dir, was), before, RelayPorts(rules), now, DemandOf(dir, t), after, ports, end);
    }
    NeverForMore(dir, was + [t], all[k + 1..], before);
    assert was + [t] + all[k + 1..] == ts + all;
  }

  lemma ProducedIsOutcome(dir: Direction, ts: seq<ForwarderRule>, rules: seq<ForwarderRule>, before: Pools, after: Pools)
    requires Produced(dir, ts, rules, before, after)
    ensures MayGenerate(dir, ts, before, rules)
    ensures AllFunctional(before) ==> Generate(dir, ts, before) == Some(rules)
  {
    assert MayGenerate(dir, ts, before, rules);
    hide MayServe;
    if AllFunctional(before) {
      OutcomeIsGenerated(dir, ts, before, rules);
    }
  }

  /** What can never be served has no outcome, and the specification fails. */
  lemma NeverIsNone(dir: Direction, ts: seq<ForwarderRule>, before: Pools)
    requires NeverProduced(dir, ts, before)
    ensures forall rules :: !MayGenerate(dir, ts, before, rules)
    ensures AllFunctional(before) ==> Generate(dir, ts, before).None?
  {
    hide MayServe, Assign;
    if AllFunctional(before) && Generate(dir, ts, before).Some? {
      OutcomeIsGenerated(dir, ts, before, Generate(dir, ts, before).value);
      assert false;
    }
  }

  /** From pools that give each key one port there is at most one outcome, the specified one. */
  lemma OutcomeIsGenerated(dir: Direction, ts: seq<ForwarderRule>, pools: Pools, rules: seq<ForwarderRule>)
    requires AllFunctional(pools)
    ensures MayGenerate(dir, ts, pools, rules) <==> Generate(dir, ts, pools) == Some(rules)
  {
    hide AllFunctional, MayServe, Assign;
    if MayGenerate(dir, ts, pools, rules) {
      var after :| MayServe(Demands(dir, ts), pools, RelayPorts(rules), after);
      ServeIsAssign(Demands(dir, ts), pools, RelayPorts(rules), after);
    }
    if Generate(dir, ts, pools) == Some(rules) {
      var a := Assign(Demands(dir, ts), pools).value;
      AssignIsServe(Demands(dir, ts), pools);
      assert RelayPorts(Fill(ts, a.ports)) == a.ports;
    }
  }

  lemma MayServeNone(before: Pools, ports: seq<string>, after: Pools)
    ensures MayServe([], before, ports, after) <==> ports == [] && after == before
    ensures Assign([], before) == Some(Assignment([], before))
  {
  }

  lemma MayServeLast(ds: seq<Demand>, before: Pools, ports: seq<string>, after: Pools) returns (mid: Pools)
    requires ds != [] && MayServe(ds, before, ports, after)
    ensures |ports| == |ds| && MayServe(ds[..|ds| - 1], before, ports[..|ds| - 1], mid)
    ensures Answers(ds[|ds| - 1], Some(ports[|ds| - 1]), mid, after)
  {
    hide Answers;
    var last := |ds| - 1;
    mid :| MayServe(ds[..last], before, ports[..last], mid) && Answers(ds[last], Some(ports[last]), mid, after);
  }

  lemma KeysSplit(ds: seq<Demand>)
    requires ds != [] && AreKeys(ds)
    ensures AreKeys(ds[..|ds| - 1]) && IsKey(ds[|ds| - 1].key)
  {
    assert ds[|ds| - 1] in ds;
  }

  lemma {:induction false} ServeIsAssign(ds: seq<Demand>, before: Pools, ports: seq<string>, after: Pools)
    requires AllFunctional(before) && AreKeys(ds) && MayServe(ds, before, ports, after)
    ensures Assign(ds, before) == Some(Assignment(ports, after)) && AllFunctional(after)
    decreases |ds|
  {
    hide *;
    if ds == [] {
      MayServeNone(before, ports, after);
    } else {
      var last := |ds| - 1;
      KeysSplit(ds);
      var mid := MayServeLast(ds, before, ports, after);
      ServeIsAssign(ds[..last], before, ports[..last], mid);
      AnswerMeans(ds[last], ports[last], mid, after);
      AssignAnswered(ds[..last], ds[last], before, Assignment(ports[..last], mid), ports[last], after);
      assert ds[..last] + [ds[last]] == ds && ports[..last] + [ports[last]] == ports;
    }
  }

  lemma AnswerMeans(d: Demand, port: string, mid: Pools, after: Pools)
    requires Answers(d, Some(port), mid, after)
    ensures MayAnswer(PoolOf(mid, d.pool), d.key, Some(port), PoolOf(after, d.pool)) && after == mid[d.pool := PoolOf(after, d.pool)]
  {
  }

  lemma {:induction false} AssignIsServe(ds: seq<Demand>, before: Pools)
    requires AllFunctional(before) && AreKeys(ds) && Assign(ds, before).Some?
    ensures var a := Assign(ds, before).value; MayServe(ds, before, a.ports, a.pools)
    decreases |ds|
  {
    hide AllFunctional, MayServe, Serves, Answers, Allocate, AreKeys, IsKey, Functional, PoolOf;
    if ds == [] {
      MayServeNone(before, [], before);
    } else {
      var last := |ds| - 1;
      KeysSplit(ds);
      AssignIsServe(ds[..last], before);
      AssignServes(ds[..last], before);
      var a := Assign(ds[..last], before).value;
      FunctionalAt(ds[..last], before, a, ds[last].pool);
      OneAnswer(ds[last], a.pools);
      var r := Allocate(PoolOf(a.pools, ds[last].pool), ds[last].key).value;
      MayServeNext(ds[..last], before, a.ports, a.pools, ds[last], r.port, a.pools[ds[last].pool := r.pool]);
      assert ds[..last] + [ds[last]] == ds;
    }
  }

  lemma FunctionalAt(ds: seq<Demand>, before: Pools, a: Assignment, g: string)
    requires Serves(ds, before, a)
    ensures Functional(PoolOf(a.pools, g))
  {
  }

  lemma OneAnswer(d: Demand, pools: Pools)
    requires IsKey(d.key) && Functional(PoolOf(pools, d.pool)) && Allocate(PoolOf(pools, d.pool), d.key).Some?
    ensures var r := Allocate(PoolOf(pools, d.pool), d.key).value;
            Answers(d, Some(r.port), pools, pools[d.pool := r.pool])
  {
    var r := Allocate(PoolOf(pools, d.pool), d.key).value;
    AnswerIsUnique(PoolOf(pools, d.pool), d.key, Some(r.port), r.pool);
  }

  lemma NothingProduced(dir: Direction, before: Pools)
    ensures Produced(dir, [], [], before, before)
  {
    assert Demands(dir, []) == [] && RelayPorts([]) == [];
  }

  /** The innermost loop of genForwarderEgressRules: one rule for each endpoint address */
  method GenEgressForPort(es: ExternalService, src: Source, port: Port, addrs: seq<string>, ePorts: EgressPool,
                          soFar: seq<ForwarderRule>, ghost ts: seq<ForwarderRule>, ghost before: Pools)
    returns (rules: Option<seq<ForwarderRule>>)
    requires GetRuleName(src.sourceIP).Some? && Produced(Egress, ts, soFar, before, map["" := ePorts.used])
    modifies ePorts
    ensures rules.Some? ==>
              Produced(Egress, ts + EgressOfPort(es, src, port, addrs), rules.value, before, map["" := ePorts.used])
    ensures rules.None? ==> NeverProduced(Egress, ts + EgressOfPort(es, src, port, addrs), before)
  {
    hide GetRuleName, Produced, NeverProduced, Answers;
    ghost var all := EgressOfPort(es, src, port, addrs);
    var out := soFar;
    assert ts + all[..0] == ts;
    for k := 0 to |addrs|
      invariant Produced(Egress, ts + all[..k], out, before, map["" := ePorts.used])
    {
      ghost var now: Pools := map["" := ePorts.used];
      var rPort := GenRelayPortForEgress(addrs[k], port.targetPort, ePorts);
      ghost var after: Pools := map["" := ePorts.used];
      if rPort.None? {
        StuckAt(Egress, ts, all, k, out, before, now, after);
        return None;
      }
      ProducedNext(Egress, ts, all, k, out, before, now, rPort.value, after);
      out := out + [ForwarderRule(port.protocol, addrs[k], port.targetPort, Itoa(port.port), es.targetIP,
                                  GatewayRefFor(src.sourceIP), src.sourceIP, rPort.value)];
    }
    assert all[..|addrs|] == all;
    return Some(out);
  }

  method GenEgressForSource(es: ExternalService, src: Source, addrs: seq<string>, ePorts: EgressPool,
                            soFar: seq<ForwarderRule>, ghost ts: seq<ForwarderRule>, ghost before: Pools)
    returns (rules: Option<seq<ForwarderRule>>)
    requires GetRuleName(src.sourceIP).Some? && Produced(Egress, ts, soFar, before, map["" := ePorts.used])
    modifies ePorts
    ensures rules.Some? ==>
              Produced(Egress, ts + EgressOfSource(es, src, es.ports, addrs), rules.value, before, map["" := ePorts.used])
    ensures rules.None? ==> NeverProduced(Egress, ts + EgressOfSource(es, src, es.ports, addrs), before)
  {
    hide GetRuleName, Produced, NeverProduced;
    rules := Some(soFar);
    assert ts + EgressOfSource(es, src, [], addrs) == ts;
    var j := 0;
    while j < |es.ports|
      invariant j <= |es.ports|
      invariant rules.Some? ==>
                  Produced(Egress, ts + EgressOfSource(es, src, es.ports[..j], addrs), rules.value, before, map["" := ePorts.used])
      invariant rules.None? ==> NeverProduced(Egress, ts + EgressOfSource(es, src, es.ports[..j], addrs), before)
      decreases |es.ports| - j
    {
      ghost var a := EgressOfSource(es, src, es.ports[..j], addrs);
      ghost var b := EgressOfPort(es, src, es.ports[j], addrs);
      assert es.ports[..j + 1][..j] == es.ports[..j];
      assert ts + EgressOfSource(es, src, es.ports[..j + 1], addrs) == ts + a + b;
      if rules.Some? {
        rules := GenEgressForPort(es, src, es.ports[j], addrs, ePorts, rules.value, ts + a, before);
      } else {
        NeverForMore(Egress, ts + a, b, before);
      }
      j := j + 1;
    }
    assert es.ports[..|es.ports|] == es.ports;
  }

  method GenForwarderEgressRules(es: ExternalService, view: ClusterView, ePorts: EgressPool)
    returns (rules: Option<seq<ForwarderRule>>)
    modifies ePorts
    ensures Functional(old(ePorts.used)) ==> rules == EgressRules(es, view, old(ePorts.used))
    ensures rules.Some? ==>
              && ValidSources(es.sources)
              && Produced(Egress, EgressTemplates(es, view, es.sources), rules.value,
                          map["" := old(ePorts.used)], map["" := ePorts.used])
    ensures rules.Some? <==>
              && ValidSources(es.sources)
              && exists possible :: MayGenerate(Egress, EgressTemplates(es, view, es.sources), map["" := old(ePorts.used)], possible)
  {
    hide GetRuleName, Produced, NeverProduced, Generate, MayGenerate;
    ghost var before: Pools := map["" := ePorts.used];
    NothingProduced(Egress, before);
    var out: seq<ForwarderRule> := [];
    for i := 0 to |es.sources|
      invariant ValidSources(es.sources[..i])
      invariant Produced(Egress, EgressTemplates(es, view, es.sources[..i]), out, before, map["" := ePorts.used])
    {
      var src := es.sources[i];
      if GetRuleName(src.sourceIP).None? {
        return None;
      }
      assert es.sources[..i + 1][..i] == es.sources[..i];
      var more := GenEgressForSource(es, src, view.EndpointAddrs(src.service), ePorts, out,
                                     EgressTemplates(es, view, es.sources[..i]), before);
      if more.None? {
        if ValidSources(es.sources) {
          EgressFailsLater(es, view, es.sources, i + 1, before);
          NeverIsNone(Egress, EgressTemplates(es, view, es.sources), before);
        }
        return None;
      }
      out := more.value;
    }
    assert es.sources[..|es.sources|] == es.sources;
    ProducedIsOutcome(Egress, EgressTemplates(es, view, es.sources), out, before, map["" := ePorts.used]);
    return Some(out);
  }

  lemma {:induction false} EgressFailsLater(es: ExternalService, view: ClusterView, sources: seq<Source>, i: nat, before: Pools)
    requires i <= |sources| && ValidSources(sources) && ValidSources(sources[..i])
    requires NeverProduced(Egress, EgressTemplates(es, view, sources[..i]), before)
    ensures NeverProduced(Egress, EgressTemplates(es, view, sources), before)
  {
    hide GetRuleName, NeverProduced;
    if i < |sources| {
      var init, src := sources[..|sources| - 1], sources[|sources| - 1];
      assert init[..i] == sources[..i];
      EgressFailsLater(es, view, init, i, before);
      NeverForMore(Egress, EgressTemplates(es, view, init),
                   EgressOfSource(es, src, es.ports, view.EndpointAddrs(src.service)), before);
    } else {
      assert sources[..i] == sources;
    }
  }

  /** The inner loop of genForwarderIngressRules: one rule for each port of the source's service */
  method GenIngressForSource(es: ExternalService, src: Source, svc: Service, iPorts: IngressPools,
                             soFar: seq<ForwarderRule>, ghost ts: seq<ForwarderRule>, ghost before: Pools)
    returns (rules: Option<seq<ForwarderRule>>)
    requires GetRuleName(src.sourceIP).Some? && Produced(Ingress, ts, soFar, before, iPorts.used)
    modifies iPorts
    ensures rules.Some? ==>
              Produced(Ingress, ts + IngressOfSource(es, src, svc, svc.ports), rules.value, before, iPorts.used)
    ensures rules.None? ==> NeverProduced(Ingress, ts + IngressOfSource(es, src, svc, svc.ports), before)
  {
    hide GetRuleName, Produced, NeverProduced, Answers;
    ghost var all := IngressOfSource(es, src, svc, svc.ports);
    var gw := GatewayRefFor(src.sourceIP);
    var out := soFar;
    assert ts + all[..0] == ts;
    for j := 0 to |svc.ports|
      invariant Produced(Ingress, ts + all[..j], out, before, iPorts.used)
    {
      ghost var now := iPorts.used;
      var rPort := GenRelayPortForIngress(es.targetIP, Itoa(svc.ports[j].port), gw.name, iPorts);
      if rPort.None? {
        StuckAt(Ingress, ts, all, j, out, before, now, iPorts.used);
        return None;
      }
      ProducedNext(Ingress, ts, all, j, out, before, now, rPort.value, iPorts.used);
      out := out + [ForwarderRule(svc.ports[j].protocol, es.targetIP, Itoa(svc.ports[j].port), Itoa(svc.ports[j].port),
                                  svc.clusterIP, gw, src.sourceIP, rPort.value)];
    }
    assert all[..|svc.ports|] == all;
    return Some(out);
  }

  method GenForwarderIngressRules(es: ExternalService, view: ClusterView, iPorts: IngressPools)
    returns (rules: Option<seq<ForwarderRule>>)
    modifies iPorts
    ensures AllFunctional(old(iPorts.used)) ==> rules == IngressRules(es, view, old(iPorts.used))
    ensures rules.Some? ==>
              && ValidSources(es.sources)
              && Produced(Ingress, IngressTemplates(es, view, es.sources), rules.value, old(iPorts.used), iPorts.used)
    ensures rules.Some? <==>
              && ValidSources(es.sources)
              && exists possible :: MayGenerate(Ingress, IngressTemplates(es, view, es.sources), old(iPorts.used), possible)
  {
    hide GetRuleName, Produced, NeverProduced, Generate, MayGenerate;
    ghost var before := iPorts.used;
    NothingProduced(Ingress, before);
    var out: seq<ForwarderRule> := [];
    for i := 0 to |es.sources|
      invariant ValidSources(es.sources[..i])
      invariant Produced(Ingress, IngressTemplates(es, view, es.sources[..i]), out, before, iPorts.used)
    {
      var src := es.sources[i];
      if GetRuleName(src.sourceIP).None? {
        return None;
      }
      assert es.sources[..i + 1][..i] == es.sources[..i];
      var more := GenIngressForSource(es, src, view.ServiceFor(src.service), iPorts, out,
                                      IngressTemplates(es, view, es.sources[..i]), before);
      if more.None? {
        if ValidSources(es.sources) {
          IngressFailsLater(es, view, es.sources, i + 1, before);
          NeverIsNone(Ingress, IngressTemplates(es, view, es.sources), before);
        }
        return None;
      }
      out := more.value;
    }
    assert es.sources[..|es.sources|] == es.sources;
    ProducedIsOutcome(Ingress, IngressTemplates(es, view, es.sources), out, before, iPorts.used);
    return Some(out);
  }

  lemma {:induction false} IngressFailsLater(es: ExternalService, view: ClusterView, sources: seq<Source>, i: nat, before: Pools)
    requires i <= |sources| && ValidSources(sources) && ValidSources(sources[..i])
    requires NeverProduced(Ingress, IngressTemplates(es, view, sources[..i]), before)
    ensures NeverProduced(Ingress, IngressTemplates(es, view, sources), before)
  {
    hide GetRuleName, NeverProduced;
    if i < |sources| {
      var init, src := sources[..|sources| - 1], sources[|sources| - 1];
      var svc := view.ServiceFor(src.service);
      assert init[..i] == sources[..i];
      IngressFailsLater(es, view, init, i, before);
      NeverForMore(Ingress, IngressTemplates(es, view, init), IngressOfSource(es, src, svc, svc.ports), before);
    } else {
      assert sources[..i] == sources;
    }
  }
}
