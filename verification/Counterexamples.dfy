// Concrete inputs at which the code falls short: an exhausted pool, a port that is none, two tunnels on one port,
// a gateway nobody creates, and a source address that depends on history.
module Counterexamples {
  import opened Text
  import opened Address
  import opened Api
  import opened PortPool
  import opened RuleGen
  import opened Operator
  import opened Ledger
  import opened EgressCapacity
  import opened NatTable
  import opened Tunnels
  import opened ForwarderAgent
  import opened GatewayAgent
  import opened EgressRouting
  import opened EgressRuns
  import opened Interruption
  import opened Staleness
  import opened PostRouting
  import opened Printed
  import opened IngressRouting

  const TARGET := "192.168.122.139"
  const ADDR := "10.244.0.11"

  /** One pod, whose service lists no ports */
  const ONE_POD := ClusterView(map[SERVICE := [ADDR]], map[], Some("10.0.0.3"))

  function WithPorts(ports: seq<Port>): ExternalService {
    ExternalService("es1", TARGET, [Source(SERVICE, GATEWAY_IP)], ports)
  }

  lemma ValidHere(ports: seq<Port>)
    ensures ValidSources(WithPorts(ports).sources)
  {
    GatewayNamed();
  }

  /** A template of such an ExternalService is for the one pod and one of the ports. */
  lemma TemplatesHere(ports: seq<Port>, t: ForwarderRule)
    ensures ValidSources(WithPorts(ports).sources)
    ensures t in EgressTemplates(WithPorts(ports), ONE_POD, WithPorts(ports).sources) <==>
            exists port :: port in ports && AsksEgress(WithPorts(ports), ONE_POD, Source(SERVICE, GATEWAY_IP), port, ADDR, t)
  {
    ValidHere(ports);
    hide GetRuleName, EgressTemplates, Dotted;
    var es := WithPorts(ports);
    assert es.sources[..|es.sources|] == es.sources;
    EgressTemplatesMeaning(es, ONE_POD, |es.sources|, t);
    assert ONE_POD.EndpointAddrs(SERVICE) == [ADDR];
    if src, port, addr :| src in es.sources[..|es.sources|] && AsksEgress(es, ONE_POD, src, port, addr, t) {
      assert src == Source(SERVICE, GATEWAY_IP) && addr == ADDR && port in ports;
    }
  }

  lemma KeyHere(ports: seq<Port>, port: Port, t: ForwarderRule)
    requires AsksEgress(WithPorts(ports), ONE_POD, Source(SERVICE, GATEWAY_IP), port, ADDR, t)
    ensures RuleKey(t) == Key(ADDR, port.targetPort) && t.targetPort == port.targetPort
  {
    hide GetRuleName, Dotted;
  }

  lemma AskedHere(ports: seq<Port>, port: Port) returns (t: ForwarderRule)
    requires port in ports
    ensures AsksEgress(WithPorts(ports), ONE_POD, Source(SERVICE, GATEWAY_IP), port, ADDR, t)
  {
    ValidHere(ports);
    hide GetRuleName, Dotted;
    assert WithPorts(ports).sources[0] == Source(SERVICE, GATEWAY_IP);
    t := EgressTemplate(WithPorts(ports), Source(SERVICE, GATEWAY_IP), port, ADDR);
  }

  // ----- half the pool -----

  /** The ports 1 to k, each its own target port */
  function ManyPorts(k: nat): seq<Port> {
    seq(k, i requires 0 <= i => Port("TCP", i + 1, Itoa(i + 1)))
  }

  function ManyKeys(k: nat): (keys: set<string>)
    ensures forall key :: key in keys <==> exists n :: 1 <= n <= k && key == Key(ADDR, Itoa(n))
  {
    if k == 0 then {} else ManyKeys(k - 1) + {Key(ADDR, Itoa(k))}
  }

  lemma {:induction false} ManyKeysSize(k: nat)
    ensures |ManyKeys(k)| == k
  {
    if k > 0 {
      ManyKeysSize(k - 1);
      if Key(ADDR, Itoa(k)) in ManyKeys(k - 1) {
        var n :| 1 <= n <= k - 1 && Key(ADDR, Itoa(k)) == Key(ADDR, Itoa(n));
        ItoaHasNoSeparator(k);
        ItoaHasNoSeparator(n);
        KeyInjective(ADDR, Itoa(k), ADDR, Itoa(n));
        ItoaInjective(k, n);
        assert false;
      }
    }
  }

  lemma KeysOfMany(k: nat)
    ensures ValidSources(WithPorts(ManyPorts(k)).sources)
    ensures KeysIn(EgressTemplates(WithPorts(ManyPorts(k)), ONE_POD, WithPorts(ManyPorts(k)).sources)) == ManyKeys(k)
  {
    ValidHere(ManyPorts(k));
    hide GetRuleName, EgressTemplates, AsksEgress, Dotted, Itoa, Key, RuleKey;
    var ports := ManyPorts(k);
    var ts := EgressTemplates(WithPorts(ports), ONE_POD, WithPorts(ports).sources);
    forall t | t in ts ensures RuleKey(t) in ManyKeys(k) {
      TemplatesHere(ports, t);
      var port :| port in ports && AsksEgress(WithPorts(ports), ONE_POD, Source(SERVICE, GATEWAY_IP), port, ADDR, t);
      KeyHere(ports, port, t);
      var i :| 0 <= i < k && ports[i] == port;
      assert 1 <= i + 1 <= k && RuleKey(t) == Key(ADDR, Itoa(i + 1));
    }
    forall key | key in ManyKeys(k) ensures key in KeysIn(ts) {
      var n :| 1 <= n <= k && key == Key(ADDR, Itoa(n));
      assert ports[n - 1] in ports;
      var t := AskedHere(ports, ports[n - 1]);
      TemplatesHere(ports, t);
      KeyHere(ports, ports[n - 1], t);
    }
  }

  /** An ExternalService with one pod and k target ports can be reconciled if k is at most 63488, and once more if and
      only if k is at most 31744. */
  lemma ManyPortsTwice(k: nat)
    requires k <= 63488
    ensures var es := WithPorts(ManyPorts(k));
            && EgressRules(es, ONE_POD, UsedPortsForEgress([])).Some?
            && (EgressRules(es, ONE_POD, UsedPortsForEgress(EgressRules(es, ONE_POD, UsedPortsForEgress([])).value)).Some? <==> k <= 31744)
  {
    var es := WithPorts(ManyPorts(k));
    assert forall p :: p in es.ports ==> ':' !in p.targetPort by {
      forall p | p in es.ports ensures ':' !in p.targetPort {
        var i :| 0 <= i < k && es.ports[i] == p;
        ItoaHasNoSeparator(i + 1);
      }
    }
    hide ValidSources, EgressTemplates, EgressRules, WithPorts, KeysIn, UsedPortsForEgress;
    KeysOfMany(k);
    ManyKeysSize(k);
    assert PortsIn([]) == {};
    Succeeds(es, ONE_POD, []);
    RepeatsIff(es, ONE_POD, []);
  }

  /** 31745 target ports: the first reconcile succeeds, and every repetition that follows it at once fails. */
  lemma HalfThePoolIsTheLimit()
    ensures var es := WithPorts(ManyPorts(31745));
            && EgressRules(es, ONE_POD, UsedPortsForEgress([])).Some?
            && EgressRules(es, ONE_POD, UsedPortsForEgress(EgressRules(es, ONE_POD, UsedPortsForEgress([])).value)) == None
  {
    hide EgressRules, UsedPortsForEgress, WithPorts, ManyPorts;
    ManyPortsTwice(31745);
  }

  // ----- a port that is none -----

  /** The ports 2049 to 65535, each held by one key of another pod */
  lemma FullPool() returns (pool: Pool)
    ensures forall p :: p in pool <==> exists n :: 2049 <= n <= 65535 && p == Itoa(n)
    ensures forall n :: 2049 <= n <= 65535 ==> Itoa(n) in pool && pool[Itoa(n)] == Key("10.244.0.12", Itoa(n))
  {
    hide Itoa, Key;
    forall m, n | Itoa(m) == Itoa(n) ensures m == n {
      ItoaInjective(m, n);
    }
    pool := map n | 2049 <= n <= 65535 :: Itoa(n) := Key("10.244.0.12", Itoa(n));
    forall n | 2049 <= n <= 65535 ensures Itoa(n) in pool {}
  }

  lemma KeysApart(m: int, n: int)
    ensures Key("10.244.0.12", Itoa(m)) != Key(ADDR, "8000")
    ensures Key("10.244.0.12", Itoa(m)) == Key("10.244.0.12", Itoa(n)) ==> m == n
  {
    hide Itoa, Key;
    ItoaHasNoSeparator(m);
    ItoaHasNoSeparator(n);
    KeyInjective("10.244.0.12", Itoa(m), ADDR, "8000");
    KeyInjective("10.244.0.12", Itoa(m), "10.244.0.12", Itoa(n));
    ItoaInjective(m, n);
    assert "10.244.0.12"[10] != ADDR[10];
  }

  /** With the ports 2049 to 65535 taken, the next key is given 65536. */
  lemma LastPortIsGivenOut() returns (pool: Pool)
    ensures Functional(pool) && (forall p :: p in pool <==> exists n :: 2049 <= n <= 65535 && p == Itoa(n))
    ensures var key := Key(ADDR, "8000");
            !Held(pool, key) && Allocate(pool, key).Some? && Allocate(pool, key).value.port == Itoa(65536)
  {
    pool := FullPool();
    hide Itoa, Key;
    forall p | p in pool ensures pool[p] != Key(ADDR, "8000") {
      var n :| 2049 <= n <= 65535 && p == Itoa(n);
      KeysApart(n, n);
    }
    forall p, q | p in pool && q in pool && pool[p] == pool[q] ensures p == q {
      var m :| 2049 <= m <= 65535 && p == Itoa(m);
      var n :| 2049 <= n <= 65535 && q == Itoa(n);
      KeysApart(m, n);
    }
    FirstFreeIsLast(pool);
  }

  lemma FirstFreeIsLast(pool: Pool)
    requires forall p :: p in pool <==> exists n :: 2049 <= n <= 65535 && p == Itoa(n)
    ensures FirstFree(pool, MIN_PORT) == Some(65536)
  {
    hide Itoa, FirstFree;
    forall n | Itoa(n) == Itoa(65536) ensures n == 65536 {
      ItoaInjective(n, 65536);
    }
    forall n | 2049 <= n <= 65535 ensures Itoa(n) in pool {}
    assert Itoa(65536) !in pool;
  }

  // ----- two tunnels on one relay port -----

  const TWO_PORTS := [Port("TCP", 8000, "80"), Port("TCP", 9000, "80")]

  lemma TwoPortsGenerate()
    ensures EgressRules(WithPorts(TWO_PORTS), ONE_POD, UsedPortsForEgress([])).Some?
  {
    hide GetRuleName, EgressTemplates, AsksEgress, Dotted, RuleKey, EgressRules, ValidSources, UsedPortsForEgress;
    ValidHere(TWO_PORTS);
    var es := WithPorts(TWO_PORTS);
    var ts := EgressTemplates(es, ONE_POD, es.sources);
    forall t | t in ts ensures RuleKey(t) == Key(ADDR, "80") {
      TemplatesHere(TWO_PORTS, t);
      var port :| port in TWO_PORTS && AsksEgress(es, ONE_POD, Source(SERVICE, GATEWAY_IP), port, ADDR, t);
      KeyHere(TWO_PORTS, port, t);
    }
    assert KeysIn(ts) <= {Key(ADDR, "80")};
    SubsetSize(KeysIn(ts), {Key(ADDR, "80")});
    assert PortsIn([]) == {};
    Succeeds(es, ONE_POD, []);
  }

  /** Ports 8000 and 9000 with one target port: connections to it reach a relay port, but neither port's tunnel is the
      only one there. */
  lemma TwoPortsOneTargetPort() returns (rules: seq<ForwarderRule>, relay: string)
    ensures EgressRules(WithPorts(TWO_PORTS), ONE_POD, UsedPortsForEgress([])) == Some(rules)
    ensures var spec := ForwarderSpec(rules, [], "10.0.0.3");
            var chains := Replaced(map[], ExpectedRules(spec));
            && PREROUTING in chains
            && Evaluate(chains, chains[PREROUTING], Packet(ADDR, "10.0.0.3", "80")) == Some(DNAT(Endpoint("10.0.0.3", relay)))
            && forall port :: port in TWO_PORTS ==>
                 !OnlyTunnel(ExpectedTunnels(spec), Wanted(WithPorts(TWO_PORTS), "10.0.0.3", relay, Source(SERVICE, GATEWAY_IP), port))
  {
    TwoPortsGenerate();
    hide GetRuleName, Dotted, EgressRules, OnlyTunnel, Wanted, Evaluate, Replaced, UsedPortsForEgress, DNATs, SNATs, ExpectedTunnels;
    var es, src := WithPorts(TWO_PORTS), Source(SERVICE, GATEWAY_IP);
    rules := EgressRules(es, ONE_POD, UsedPortsForEgress([])).value;
    var spec := ForwarderSpec(rules, [], "10.0.0.3");
    ReplacedTwice(map[], ExpectedRules(spec));
    var chains := Replaced(map[], ExpectedRules(spec));
    assert es.sources[0] == src && ONE_POD.EndpointAddrs(SERVICE) == [ADDR];
    assert TWO_PORTS[0] in es.ports && TWO_PORTS[1] in es.ports && ADDR in ONE_POD.EndpointAddrs(SERVICE);
    assert Asks(es, ONE_POD, ADDR, "80", src, TWO_PORTS[0]) && Asks(es, ONE_POD, ADDR, "80", src, TWO_PORTS[1]);
    AppliedChainDst(spec, chains, Packet(ADDR, "10.0.0.3", "80"));
    relay := DemandedIsRouted(es, ONE_POD, [], spec, chains, ADDR, src, TWO_PORTS[0]);
    var again := DemandedIsRouted(es, ONE_POD, [], spec, chains, ADDR, src, TWO_PORTS[1]);
    EndpointInjective("10.0.0.3", relay, "10.0.0.3", again);
  }

  // ----- a gateway that nobody creates -----

  lemma NoIngressHere(ports: seq<Port>)
    ensures IngressRules(WithPorts(ports), ONE_POD, map[]) == Some([])
  {
    ValidHere(ports);
    hide GetRuleName, Dotted;
    var es := WithPorts(ports);
    assert ONE_POD.ServiceFor(SERVICE).ports == [];
    assert es.sources[..|es.sources| - 1] == [];
    assert IngressTemplates(es, ONE_POD, es.sources) == [];
    assert Demands(Ingress, []) == [] && Fill([], []) == [];
    var none: Pools := map[];
    assert Assign([], none) == Some(Assignment([], none));
  }

  /** A pod behind a service without ports: its egress tunnel leads through a gateway for which no object exists. */
  lemma GatewayIsMissing()
    ensures LegalOp(EMPTY_SYSTEM, Reconcile(WithPorts(TWO_PORTS), ONE_POD, ["es1"]))
    ensures NewForwarderSpec(EMPTY_SYSTEM, WithPorts(TWO_PORTS), ONE_POD).Some?
    ensures !(Named(NewForwarderSpec(EMPTY_SYSTEM, WithPorts(TWO_PORTS), ONE_POD).value.egressRules)
              <= Apply(EMPTY_SYSTEM, Reconcile(WithPorts(TWO_PORTS), ONE_POD, ["es1"])).gateways.Keys)
  {
    TwoPortsGenerate();
    NoIngressHere(TWO_PORTS);
    GatewayNamed();
    hide GetRuleName, Dotted, EgressRules, IngressRules, Apply, Named;
    var es := WithPorts(TWO_PORTS);
    assert EMPTY_SYSTEM.forwarders.Keys + {"es1"} == {"es1"};
    assert UsedPortsForEgress([]) == map[] && UsedPortsForIngress(EMPTY_SYSTEM.gateways) == map[];
    EgressGatewaysExistIff(EMPTY_SYSTEM, es, ONE_POD, ["es1"]);
    var src := Source(SERVICE, GATEWAY_IP);
    assert es.sources[0] == src && ONE_POD.EndpointAddrs(SERVICE) == [ADDR];
    assert Sends(es, ONE_POD, src);
    assert forall other, port :: !HasPort(es, ONE_POD, other, port);
    assert !GatewayReached(EMPTY_SYSTEM, es, ONE_POD, src);
  }

  // ----- a source address that depends on history -----

  const OTHER_IP := Dotted(IPv4(192, 168, 122, 201))

  /** One service is to be seen under two addresses. */
  const TWO_SOURCES := ExternalService("es1", TARGET, [Source(SERVICE, GATEWAY_IP), Source(SERVICE, OTHER_IP)], [])

  lemma TwoNames()
    ensures GetRuleName(GATEWAY_IP).Some? && GetRuleName(OTHER_IP).Some? && GATEWAY_IP != OTHER_IP
    ensures GetRuleName(GATEWAY_IP) != GetRuleName(OTHER_IP)
  {
    ParsePrint(IPv4(192, 168, 122, 200), GATEWAY_IP);
    ParsePrint(IPv4(192, 168, 122, 201), OTHER_IP);
    hide GetRuleName, ParseIP, Dotted;
    RuleNameInjective(GATEWAY_IP, OTHER_IP);
  }

  function RuleThrough(ip: string): ForwarderRule
    requires GetRuleName(ip).Some?
  {
    ForwarderRule("TCP", TARGET, Itoa(80), Itoa(80), "10.96.0.8", GatewayRefFor(ip), ip, Itoa(2049))
  }

  lemma TwoNewKeys(d: Demand, e: Demand, empty: Pools)
    requires empty == map[] && d.pool != e.pool
    ensures Assign([d, e], empty).Some? && Assign([d, e], empty).value.ports == [Itoa(2049), Itoa(2049)]
  {
    hide Itoa;
    var none: Pool := map[];
    assert FirstFree(none, MIN_PORT) == Some(MIN_PORT) && PoolOf(empty, d.pool) == none;
    OneNewKey(d, empty);
    AssignSnoc([d], e, empty);
    assert [d] + [e] == [d, e];
    assert [d][..0] == [] && Assign([], empty) == Some(Assignment([], empty));
    var after := Assign([d], empty).value.pools;
    assert PoolOf(after, e.pool) == none;
  }

  lemma TwoRules()
    ensures GetRuleName(GATEWAY_IP).Some? && GetRuleName(OTHER_IP).Some?
    ensures IngressRules(TWO_SOURCES, VIEW, map[]) == Some([RuleThrough(GATEWAY_IP), RuleThrough(OTHER_IP)])
  {
    TwoNames();
    hide GetRuleName, Dotted, Itoa, Assign;
    var es := TWO_SOURCES;
    var svc := VIEW.ServiceFor(SERVICE);
    var t := IngressTemplate(es, es.sources[0], svc, ServicePort("TCP", 80));
    var u := IngressTemplate(es, es.sources[1], svc, ServicePort("TCP", 80));
    assert es.sources[..1] == [es.sources[0]] && es.sources[..1][..0] == [];
    assert IngressOfSource(es, es.sources[0], svc, svc.ports) == [t];
    assert IngressOfSource(es, es.sources[1], svc, svc.ports) == [u];
    assert IngressTemplates(es, VIEW, es.sources[..1]) == [t];
    assert IngressTemplates(es, VIEW, es.sources) == [t, u];
    assert Demands(Ingress, [t, u]) == [DemandOf(Ingress, t), DemandOf(Ingress, u)];
    TwoNewKeys(DemandOf(Ingress, t), DemandOf(Ingress, u), map[]);
    assert Fill([t, u], [Itoa(2049), Itoa(2049)]) == [RuleThrough(GATEWAY_IP), RuleThrough(OTHER_IP)];
  }

  lemma NoEgressWithoutPorts(es: ExternalService, view: ClusterView, src: seq<Source>)
    requires es.ports == [] && ValidSources(src)
    ensures EgressTemplates(es, view, src) == []
  {
    hide GetRuleName;
  }

  lemma TwoSourcesGenerate()
    ensures GetRuleName(GATEWAY_IP).Some? && GetRuleName(OTHER_IP).Some?
    ensures NewForwarderSpec(EMPTY_SYSTEM, TWO_SOURCES, VIEW)
            == Some(ForwarderSpec([], [RuleThrough(GATEWAY_IP), RuleThrough(OTHER_IP)], "10.0.0.3"))
  {
    TwoRules();
    hide GetRuleName, Dotted, IngressRules, RuleThrough;
    NoEgressWithoutPorts(TWO_SOURCES, VIEW, TWO_SOURCES.sources);
    var none: Pools := map["" := map[]];
    assert Demands(Egress, []) == [] && Fill([], []) == [] && Assign([], none) == Some(Assignment([], none));
    assert UsedPortsForEgress([]) == map[] && UsedPortsForIngress(EMPTY_SYSTEM.gateways) == map[];
  }

  /** What `s` stores for the gateway of this address */
  ghost predicate SpecAt(s: System, ip: string, spec: GatewaySpec) {
    GetRuleName(ip).Some? && GetRuleName(ip).value in s.gateways && s.gateways[GetRuleName(ip).value].spec == spec
  }

  /** Two completed applies on a fresh table, first of `spec`, then of `other`, after which the packet gets this source */
  ghost predicate AppliedInTurn(run: seq<Attempt>, spec: GatewaySpec, other: GatewaySpec, p: Packet, source: string) {
    && |run| == 2 && run[0].spec == spec && run[1].spec == other
    && LegalAttempts(BUILTIN_CHAINS, run) && AllCompleted(run)
    && var chains := TableAfter(BUILTIN_CHAINS, run);
       HasBuiltins(chains) && Evaluate(chains, chains[POSTROUTING], p) == Some(SNAT(source))
  }

  /** After one reconcile two gateways translate the packets to the service's address and port 2049: applying them in
      one order gives these packets one source address, and in the other order the other. */
  lemma TwoGatewaysTranslate() returns (a: GatewaySpec, b: GatewaySpec, first: seq<Attempt>, second: seq<Attempt>)
    ensures LegalOp(EMPTY_SYSTEM, Reconcile(TWO_SOURCES, VIEW, ["es1"]))
    ensures var s := Apply(EMPTY_SYSTEM, Reconcile(TWO_SOURCES, VIEW, ["es1"])); SpecAt(s, GATEWAY_IP, a) && SpecAt(s, OTHER_IP, b)
    ensures AppliedInTurn(first, a, b, Packet("", "10.96.0.8", Itoa(2049)), GATEWAY_IP)
    ensures AppliedInTurn(second, b, a, Packet("", "10.96.0.8", Itoa(2049)), OTHER_IP)
    ensures GATEWAY_IP != OTHER_IP
  {
    hide *;
    TwoNames();
    TwoSettled();
    var s := Apply(EMPTY_SYSTEM, Reconcile(TWO_SOURCES, VIEW, ["es1"]));
    a := RuleTranslates(s, RuleThrough(GATEWAY_IP), GATEWAY_IP);
    b := RuleTranslates(s, RuleThrough(OTHER_IP), OTHER_IP);
    first := InTurn(a, GATEWAY_IP, b, OTHER_IP, Packet("", "10.96.0.8", Itoa(2049)));
    second := InTurn(b, OTHER_IP, a, GATEWAY_IP, Packet("", "10.96.0.8", Itoa(2049)));
  }

  lemma InTurn(a: GatewaySpec, ip: string, b: GatewaySpec, other: string, p: Packet) returns (run: seq<Attempt>)
    requires ip != other && a.gatewayIP == ip && b.gatewayIP == other && GetHexIP(ip).Some? && GetHexIP(other).Some?
    requires Translates(a, p)
    ensures AppliedInTurn(run, a, b, p, ip)
  {
    hide GetHexIP, LegalAttempts, TableAfter, Evaluate, Translates, LastApplied;
    var last := map[ip := a, other := b];
    assert last.Keys == {ip, other};
    var order;
    order, run := FirstAppliedDecides(last, ip, p);
    PairInOrder(order, ip, other);
  }

  lemma {:induction false} DistinctCount(order: seq<string>)
    requires forall i, j :: 0 <= i < j < |order| ==> order[i] != order[j]
    ensures |Listed(order)| == |order|
  {
    if order != [] {
      ListedSplit(order);
      DistinctCount(order[1..]);
    }
  }

  lemma PairInOrder(order: seq<string>, a: string, b: string)
    requires Enumerates(order, {a, b}) && a != b && order != [] && order[0] == a
    ensures order == [a, b]
  {
    DistinctCount(order);
    assert Listed(order) == {a, b};
    assert order[1] in order;
  }

  lemma StartIsExact()
    ensures Inv(EMPTY_SYSTEM) && Exact(EMPTY_SYSTEM)
    ensures Named(ForwarderOf(EMPTY_SYSTEM, "es1").spec.ingressRules) == {} && TWO_SOURCES.name == "es1"
    ensures EMPTY_SYSTEM.forwarders.Keys + {"es1"} == {"es1"} && Enumerates(["es1"], {"es1"})
    ensures LegalOp(EMPTY_SYSTEM, Reconcile(TWO_SOURCES, VIEW, ["es1"]))
  {
    hide Dotted, GetRuleName;
  }

  lemma TwoSettled()
    ensures GetRuleName(GATEWAY_IP).Some? && GetRuleName(OTHER_IP).Some?
    ensures LegalOp(EMPTY_SYSTEM, Reconcile(TWO_SOURCES, VIEW, ["es1"]))
    ensures var s := Apply(EMPTY_SYSTEM, Reconcile(TWO_SOURCES, VIEW, ["es1"]));
            && Inv(s) && Exact(s) && "es1" in s.forwarders
            && RuleThrough(GATEWAY_IP) in s.forwarders["es1"].spec.ingressRules
            && RuleThrough(OTHER_IP) in s.forwarders["es1"].spec.ingressRules
  {
    StartIsExact();
    TwoSourcesGenerate();
    hide GetRuleName, Dotted, Inv, Exact, NewForwarderSpec, NewGateway, RuleThrough, Project, AddressOf, Named, ForwarderOf;
    var op := Reconcile(TWO_SOURCES, VIEW, ["es1"]);
    ApplyKeepsInv(EMPTY_SYSTEM, op);
    StaleIff(EMPTY_SYSTEM, TWO_SOURCES, VIEW, ["es1"]);
    AfterReconcile(EMPTY_SYSTEM, "es1", NewForwarderSpec(EMPTY_SYSTEM, TWO_SOURCES, VIEW).value, ["es1"]);
    var rules := Apply(EMPTY_SYSTEM, op).forwarders["es1"].spec.ingressRules;
    assert rules[0] in rules && rules[1] in rules;
  }

  lemma NamedIsHex(ip: string)
    requires GetRuleName(ip).Some?
    ensures GetHexIP(ip).Some?
  {
  }

  lemma RuleTranslates(s: System, r: ForwarderRule, ip: string) returns (spec: GatewaySpec)
    requires GetRuleName(ip).Some? && r == RuleThrough(ip) && Inv(s) && Exact(s)
    requires "es1" in s.forwarders && r in s.forwarders["es1"].spec.ingressRules
    ensures SpecAt(s, ip, spec) && spec.gatewayIP == ip && GetHexIP(ip).Some?
    ensures Translates(spec, Packet("", "10.96.0.8", Itoa(2049)))
  {
    NamedIsHex(ip);
    hide GetRuleName, Dotted, Itoa, GetHexIP;
    var g := r.gateway.name;
    spec := s.gateways[g].spec;
    assert ForwarderOk(s, "es1") && WellFormed(r) && RuleCovered(s, r) && GatewayOk(s, g);
    RuleNameInjective(s.gateways[g].spec.gatewayIP, ip);
    assert ExactAt(s, g);
    var q := ToGatewayRule("es1", s.forwarders["es1"].spec.forwarderIP, r);
    assert Stems(Ingress, s.forwarders, "es1", r, g, q);
    assert q in s.gateways[g].spec.ingressRules;
  }

  // ----- two services behind one key -----

  const SECOND_SERVICE := Ref("ns2", "my-service2")

  /** Two services are to be reached under one address and port. */
  const TWO_SERVICES := ExternalService("es1", TARGET, [Source(SERVICE, GATEWAY_IP), Source(SECOND_SERVICE, GATEWAY_IP)], [])
  const BOTH := ClusterView(map[], map[SERVICE := Service("10.96.0.8", [ServicePort("TCP", 80)]),
                                       SECOND_SERVICE := Service("10.96.0.9", [ServicePort("TCP", 80)])], Some("10.0.0.3"))

  function RuleTo(clusterIP: string): ForwarderRule
    requires GetRuleName(GATEWAY_IP).Some?
  {
    ForwarderRule("TCP", TARGET, Itoa(80), Itoa(80), clusterIP, GatewayRefFor(GATEWAY_IP), GATEWAY_IP, Itoa(2049))
  }

  lemma OneKeyTwice(d: Demand, empty: Pools)
    requires empty == map[] && IsKey(d.key)
    ensures Assign([d, d], empty).Some? && Assign([d, d], empty).value.ports == [Itoa(2049), Itoa(2049)]
  {
    hide Itoa;
    var none: Pool := map[];
    assert FirstFree(none, MIN_PORT) == Some(MIN_PORT) && PoolOf(empty, d.pool) == none;
    OneNewKey(d, empty);
    AssignSnoc([d], d, empty);
    assert [d] + [d] == [d, d];
    assert [d][..0] == [] && Assign([], empty) == Some(Assignment([], empty));
    var after := Assign([d], empty).value.pools;
    assert PoolOf(after, d.pool) == map[Itoa(2049) := d.key];
    assert Held(PoolOf(after, d.pool), d.key);
  }

  lemma ServicesApart()
    ensures SERVICE != SECOND_SERVICE && "10.96.0.8" != "10.96.0.9"
  {
    assert "ns1"[2] != "ns2"[2] && "10.96.0.8"[8] != "10.96.0.9"[8];
  }

  lemma ServicesRules()
    ensures GetRuleName(GATEWAY_IP).Some?
    ensures IngressRules(TWO_SERVICES, BOTH, map[]) == Some([RuleTo("10.96.0.8"), RuleTo("10.96.0.9")])
  {
    GatewayNamed();
    ServicesApart();
    hide GetRuleName, Dotted, Itoa, Assign;
    var es := TWO_SERVICES;
    var one, two := BOTH.ServiceFor(SERVICE), BOTH.ServiceFor(SECOND_SERVICE);
    assert one == Service("10.96.0.8", [ServicePort("TCP", 80)]) && two == Service("10.96.0.9", [ServicePort("TCP", 80)]);
    var t := IngressTemplate(es, es.sources[0], one, ServicePort("TCP", 80));
    var u := IngressTemplate(es, es.sources[1], two, ServicePort("TCP", 80));
    assert es.sources[..1] == [es.sources[0]] && es.sources[..1][..0] == [];
    assert IngressOfSource(es, es.sources[0], one, one.ports) == [t];
    assert IngressOfSource(es, es.sources[1], two, two.ports) == [u];
    assert IngressTemplates(es, BOTH, es.sources[..1]) == [t];
    assert IngressTemplates(es, BOTH, es.sources) == [t, u];
    assert Demands(Ingress, [t, u]) == [DemandOf(Ingress, t), DemandOf(Ingress, t)];
    OneKeyTwice(DemandOf(Ingress, t), map[]);
    assert Fill([t, u], [Itoa(2049), Itoa(2049)]) == [RuleTo("10.96.0.8"), RuleTo("10.96.0.9")];
  }

  lemma ServicesGenerate()
    ensures GetRuleName(GATEWAY_IP).Some?
    ensures NewForwarderSpec(EMPTY_SYSTEM, TWO_SERVICES, BOTH)
            == Some(ForwarderSpec([], [RuleTo("10.96.0.8"), RuleTo("10.96.0.9")], "10.0.0.3"))
  {
    ServicesRules();
    hide GetRuleName, Dotted, IngressRules, RuleTo;
    NoEgressWithoutPorts(TWO_SERVICES, BOTH, TWO_SERVICES.sources);
    var none: Pools := map["" := map[]];
    assert Demands(Egress, []) == [] && Fill([], []) == [] && Assign([], none) == Some(Assignment([], none));
    assert UsedPortsForEgress([]) == map[] && UsedPortsForIngress(EMPTY_SYSTEM.gateways) == map[];
  }

  lemma ServicesStart()
    ensures Inv(EMPTY_SYSTEM) && Tidy(EMPTY_SYSTEM) && TidyOp(Reconcile(TWO_SERVICES, BOTH, ["es1"]))
    ensures LegalOp(EMPTY_SYSTEM, Reconcile(TWO_SERVICES, BOTH, ["es1"])) && TWO_SERVICES.name == "es1"
  {
    hide Dotted, GetRuleName;
    assert EMPTY_SYSTEM.forwarders.Keys + {"es1"} == {"es1"};
  }

  lemma ServicesSettled()
    ensures GetRuleName(GATEWAY_IP).Some? && LegalOp(EMPTY_SYSTEM, Reconcile(TWO_SERVICES, BOTH, ["es1"]))
    ensures var s := Apply(EMPTY_SYSTEM, Reconcile(TWO_SERVICES, BOTH, ["es1"]));
            && Inv(s) && Tidy(s) && "es1" in s.forwarders
            && s.forwarders["es1"].spec.ingressRules == [RuleTo("10.96.0.8"), RuleTo("10.96.0.9")]
  {
    ServicesStart();
    ServicesGenerate();
    hide GetRuleName, Dotted, Inv, Tidy, TidyOp, GatewaysOk, NewForwarderSpec, NewGateway, RuleTo, Project, AddressOf, Named;
    var op := Reconcile(TWO_SERVICES, BOTH, ["es1"]);
    ApplyKeepsInv(EMPTY_SYSTEM, op);
    InvIsRecoverable(EMPTY_SYSTEM, "");
    ApplyKeepsTidy(EMPTY_SYSTEM, op);
    AfterReconcile(EMPTY_SYSTEM, "es1", NewForwarderSpec(EMPTY_SYSTEM, TWO_SERVICES, BOTH).value, ["es1"]);
  }

  lemma NeitherIsSole(s: System)
    requires GetRuleName(GATEWAY_IP).Some? && "es1" in s.forwarders
    requires s.forwarders["es1"].spec.ingressRules == [RuleTo("10.96.0.8"), RuleTo("10.96.0.9")]
    ensures !SoleRule(s, "es1", RuleTo("10.96.0.8")) && !SoleRule(s, "es1", RuleTo("10.96.0.9"))
    ensures RuleTo("10.96.0.8") in s.forwarders["es1"].spec.ingressRules && RuleTo("10.96.0.9") in s.forwarders["es1"].spec.ingressRules
  {
    ServicesApart();
    hide GetRuleName, Dotted, Itoa;
    var r, q := RuleTo("10.96.0.8"), RuleTo("10.96.0.9");
    assert SameKey(q, r) && SameKey(r, q);
  }

  /** One ExternalService with two sources of one address whose services have the same port: connections to it reach a
      relay port, but with every agent synced neither service's tunnel is the only one there. */
  lemma TwoServicesOneKey(agents: map<string, ForwarderAgent.Reconciler>)
    requires LegalOp(EMPTY_SYSTEM, Reconcile(TWO_SERVICES, BOTH, ["es1"]))
    requires AgentsSynced(Apply(EMPTY_SYSTEM, Reconcile(TWO_SERVICES, BOTH, ["es1"])), agents)
    ensures GetRuleName(GATEWAY_IP).Some?
    ensures var s := Apply(EMPTY_SYSTEM, Reconcile(TWO_SERVICES, BOTH, ["es1"]));
            && GetRuleName(GATEWAY_IP).value in s.gateways
            && FirstMatch(PreRules(s.gateways[GetRuleName(GATEWAY_IP).value].spec), Packet(TARGET, GATEWAY_IP, Itoa(80)))
               == Some(DNAT(Endpoint(GATEWAY_IP, Itoa(2049))))
    ensures !OnlyRunning(agents, "es1", RemoteEnds(RuleTo("10.96.0.8"))) && !OnlyRunning(agents, "es1", RemoteEnds(RuleTo("10.96.0.9")))
  {
    hide *;
    ServicesSettled();
    var s := Apply(EMPTY_SYSTEM, Reconcile(TWO_SERVICES, BOTH, ["es1"]));
    NeitherIsSole(s);
    OnlyRunningIffSole(s, "es1", RuleTo("10.96.0.8"), agents);
    OnlyRunningIffSole(s, "es1", RuleTo("10.96.0.9"), agents);
    GatewayRelays(s, "es1", RuleTo("10.96.0.8"));
    FieldsOfRule();
  }

  lemma FieldsOfRule()
    requires GetRuleName(GATEWAY_IP).Some?
    ensures var r := RuleTo("10.96.0.8");
            && r.sourceIP == TARGET && r.gatewayIP == GATEWAY_IP && r.targetPort == Itoa(80) && r.relayPort == Itoa(2049)
            && r.gateway.name == GetRuleName(GATEWAY_IP).value
  {
    hide GetRuleName, Dotted, Itoa;
  }
}
