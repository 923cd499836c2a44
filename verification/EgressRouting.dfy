// End to end, outwards: generated rules, nat chain and tunnels together route a pod's connection.
module EgressRouting {
  import opened Text
  import opened Address
  import opened Api
  import opened PortPool
  import opened RuleGen
  import opened Operator
  import opened EgressCapacity
  import opened NatTable
  import opened Tunnels
  import opened ForwarderAgent

  // ----- chains without jumps -----

  lemma {:induction false} EvaluateWithoutJumps(chains: Chains, rules: seq<RuleSpec>, p: Packet)
    requires forall r :: r in rules ==> !IsJump(r)
    ensures Evaluate(chains, rules, p) == FirstMatch(rules, p)
  {
    if rules != [] {
      EvaluateWithoutJumps(chains, rules[1..], p);
    }
  }

  /** What a DNAT rule says about a packet */
  lemma DNATVerdict(dstIP: string, srcIP: string, dPort: string, ip: string, port: string, p: Packet)
    ensures !IsJump(DNATRuleSpec(dstIP, srcIP, dPort, ip, port))
    ensures RuleVerdict(DNATRuleSpec(dstIP, srcIP, dPort, ip, port), p) ==
            if p.dst == dstIP && p.src == srcIP && p.dport == dPort then Some(DNAT(Endpoint(ip, port))) else None
  {
    hide RuleVerdict, DNATRuleSpec;
    DNATMeaning(dstIP, srcIP, dPort, ip, port, p);
  }

  ghost predicate Matches(r: ForwarderRule, p: Packet) {
    r.sourceIP == p.src && r.targetPort == p.dport
  }

  /** If all rules for a packet's (source, port) pair have one relay port, the chain sends the packet there;
      other packets it leaves alone. */
  lemma ChainVerdict(fip: string, rules: seq<ForwarderRule>, p: Packet, relay: string)
    requires forall r :: r in rules && Matches(r, p) ==> r.relayPort == relay
    ensures FirstMatch(DNATs(fip, rules), p) ==
            if p.dst == fip && exists r :: r in rules && Matches(r, p) then Some(DNAT(Endpoint(fip, relay))) else None
    ensures forall d :: d in DNATs(fip, rules) ==> !IsJump(d)
  {
    hide DNATRuleSpec, RuleVerdict, FirstMatch;
    var specs := DNATs(fip, rules);
    forall i | 0 <= i < |rules|
      ensures !IsJump(specs[i])
      ensures RuleVerdict(specs[i], p) ==
              if p.dst == fip && Matches(rules[i], p) then Some(DNAT(Endpoint(fip, rules[i].relayPort))) else None
    {
      DNATVerdict(fip, rules[i].sourceIP, rules[i].targetPort, fip, rules[i].relayPort, p);
    }
    forall d | d in specs && RuleVerdict(d, p).Some? ensures RuleVerdict(d, p) == Some(DNAT(Endpoint(fip, relay))) {
      var i :| 0 <= i < |specs| && specs[i] == d;
      assert rules[i] in rules;
    }
    AgreeingMatch(specs, p, DNAT(Endpoint(fip, relay)));
    if p.dst == fip && exists r :: r in rules && Matches(r, p) {
      var r :| r in rules && Matches(r, p);
      var i :| 0 <= i < |rules| && rules[i] == r;
      assert specs[i] in specs;
    } else {
      forall d | d in specs ensures RuleVerdict(d, p).None? {
        var i :| 0 <= i < |specs| && specs[i] == d;
        assert rules[i] in rules;
      }
    }
  }

  // ----- the generated rules -----

  /** Forwarder rules for an ExternalService: one for each thing asked, nothing else, and one relay port for each key */
  ghost predicate Compiled(es: ExternalService, view: ClusterView, rules: seq<ForwarderRule>) {
    && (forall r :: r in rules ==>
          IsPort(r.relayPort) && exists src, port, addr :: AsksEgress(es, view, src, port, addr, r.(relayPort := "")))
    && (forall src, port, addr, t :: AsksEgress(es, view, src, port, addr, t) ==>
          exists r :: r in rules && r.(relayPort := "") == t)
    && (forall r, q :: r in rules && q in rules ==> (r.relayPort == q.relayPort <==> RuleKey(r) == RuleKey(q)))
  }

  /** `rules` are the templates with relay ports, one for each key. */
  ghost predicate Filled(ts: seq<ForwarderRule>, rules: seq<ForwarderRule>) {
    && |rules| == |ts|
    && (forall i :: 0 <= i < |ts| ==> rules[i].(relayPort := "") == ts[i] && IsPort(rules[i].relayPort))
    && (forall i, j :: 0 <= i < |ts| && 0 <= j < |ts| ==>
          (rules[i].relayPort == rules[j].relayPort <==> RuleKey(rules[i]) == RuleKey(rules[j])))
  }

  lemma TemplateHasNoPort(es: ExternalService, view: ClusterView, i: nat)
    requires ValidSources(es.sources) && i < |EgressTemplates(es, view, es.sources)|
    ensures EgressTemplates(es, view, es.sources)[i].relayPort == ""
  {
    hide GetRuleName;
    assert es.sources[..|es.sources|] == es.sources;
    EgressTemplatesMeaning(es, view, |es.sources|, EgressTemplates(es, view, es.sources)[i]);
  }

  lemma GenerationFills(es: ExternalService, view: ClusterView, before: seq<ForwarderRule>)
    requires NoColonInPorts(before) && EgressRules(es, view, UsedPortsForEgress(before)).Some?
    ensures ValidSources(es.sources)
    ensures Filled(EgressTemplates(es, view, es.sources), EgressRules(es, view, UsedPortsForEgress(before)).value)
  {
    assert ValidSources(es.sources);
    hide ValidSources, EgressTemplates, IsPort;
    var ts := EgressTemplates(es, view, es.sources);
    var rules := EgressRules(es, view, UsedPortsForEgress(before)).value;
    assert |rules| == |ts|;
    hide EgressRules;
    forall i | 0 <= i < |ts| ensures rules[i].(relayPort := "") == ts[i] && IsPort(rules[i].relayPort) {
      NewPortsAreFresh(es, view, before, i, i);
      TemplateHasNoPort(es, view, i);
    }
    forall i, j | 0 <= i < |ts| && 0 <= j < |ts|
      ensures rules[i].relayPort == rules[j].relayPort <==> RuleKey(rules[i]) == RuleKey(rules[j])
    {
      NewPortsAreFresh(es, view, before, i, j);
    }
  }

  lemma FilledIsCompiled(es: ExternalService, view: ClusterView, rules: seq<ForwarderRule>)
    requires ValidSources(es.sources) && Filled(EgressTemplates(es, view, es.sources), rules)
    ensures Compiled(es, view, rules)
  {
    hide ValidSources, EgressTemplates, AsksEgress, IsPort, RuleKey;
    var ts := EgressTemplates(es, view, es.sources);
    assert es.sources[..|es.sources|] == es.sources;
    forall r | r in rules
      ensures IsPort(r.relayPort) && exists src, port, addr :: AsksEgress(es, view, src, port, addr, r.(relayPort := ""))
    {
      var i :| 0 <= i < |rules| && rules[i] == r;
      EgressTemplatesMeaning(es, view, |es.sources|, ts[i]);
    }
    forall src, port, addr, t | AsksEgress(es, view, src, port, addr, t)
      ensures exists r :: r in rules && r.(relayPort := "") == t
    {
      assert src in es.sources by { AskerIsSource(es, view, src, port, addr, t); }
      EgressTemplatesMeaning(es, view, |es.sources|, t);
      var i :| 0 <= i < |ts| && ts[i] == t;
      assert rules[i] in rules;
    }
  }

  lemma AskerIsSource(es: ExternalService, view: ClusterView, src: Source, port: Port, addr: string, t: ForwarderRule)
    requires AsksEgress(es, view, src, port, addr, t)
    ensures src in es.sources
  {
  }

  lemma GenerationCompiles(es: ExternalService, view: ClusterView, before: seq<ForwarderRule>)
    requires NoColonInPorts(before) && EgressRules(es, view, UsedPortsForEgress(before)).Some?
    ensures ValidSources(es.sources) && Compiled(es, view, EgressRules(es, view, UsedPortsForEgress(before)).value)
  {
    hide *;
    GenerationFills(es, view, before);
    FilledIsCompiled(es, view, EgressRules(es, view, UsedPortsForEgress(before)).value);
  }

  // ----- routing -----

  ghost predicate NoColons(es: ExternalService, fip: string) {
    ':' !in fip && ':' !in es.targetIP && forall p :: p in es.ports ==> ':' !in p.targetPort
  }

  /** Some source of the ExternalService has the endpoint address, and some port the target port. */
  ghost predicate Asked(es: ExternalService, view: ClusterView, addr: string, tPort: string) {
    exists src, port :: Asks(es, view, addr, tPort, src, port)
  }

  ghost predicate Asks(es: ExternalService, view: ClusterView, addr: string, tPort: string, src: Source, port: Port) {
    && src in es.sources && port in es.ports && port.targetPort == tPort
    && src.service in view.endpoints && addr in view.endpoints[src.service]
  }

  /** Whoever asks for this endpoint address and target port asks for the same source IP and destination port. */
  ghost predicate SoleDemand(es: ExternalService, view: ClusterView, addr: string, src: Source, port: Port) {
    forall other, second :: Asks(es, view, addr, port.targetPort, other, second) ==>
      other.sourceIP == src.sourceIP && second.port == port.port
  }

  /** Exactly one key listens at `ends.local`, and it is the one with these endpoints. */
  ghost predicate OnlyTunnel(keys: set<string>, ends: Endpoints) {
    exists k :: k in keys && HasSixParts(k) && ToEndpoints(k) == ends
                && forall l :: l in keys && HasSixParts(l) && ToEndpoints(l).local == ends.local ==> l == k
  }

  lemma KeyParses(es: ExternalService, view: ClusterView, spec: ForwarderSpec, r: ForwarderRule)
    requires Compiled(es, view, spec.egressRules) && r in spec.egressRules && NoColons(es, spec.forwarderIP)
    ensures var k := SSHTunnelKey(spec.forwarderIP, r);
            && HasSixParts(k)
            && ToEndpoints(k) == Endpoints(Endpoint(spec.forwarderIP, r.relayPort), Endpoint(r.gatewayIP, SSH_PORT),
                                           Endpoint(r.destinationIP, r.destinationPort))
  {
    hide HasSixParts, ToEndpoints, TunnelKey, ParseIP, Endpoint, Itoa;
    var src, port, addr :| AsksEgress(es, view, src, port, addr, r.(relayPort := ""));
    var n :| 2049 <= n <= 65536 && r.relayPort == Itoa(n);
    ItoaHasNoSeparator(n);
    ItoaHasNoSeparator(port.port);
    ValidAddressHasNoColon(src.sourceIP);
    KeyRoundTrip(spec.forwarderIP, r.relayPort, r.gatewayIP, SSH_PORT, r.destinationIP, r.destinationPort);
  }

  lemma EndpointInjective(a: string, b: string, c: string, d: string)
    ensures Endpoint(a, b) == Endpoint(a, d) ==> b == d
    ensures Endpoint(a, b) == Endpoint(c, b) ==> a == c
  {
    if Endpoint(a, b) == Endpoint(a, d) {
      assert Endpoint(a, b)[|a| + 1..] == b && Endpoint(a, d)[|a| + 1..] == d;
    }
    if Endpoint(a, b) == Endpoint(c, b) {
      assert Endpoint(a, b)[..|a|] == a && Endpoint(c, b)[..|c|] == c;
    }
  }

  /** A rule for a demanded (address, target port) pair. */
  lemma RuleFor(es: ExternalService, view: ClusterView, rules: seq<ForwarderRule>, addr: string, src: Source, port: Port)
    returns (r: ForwarderRule)
    requires Compiled(es, view, rules) && ValidSources(es.sources) && Asks(es, view, addr, port.targetPort, src, port)
    ensures r in rules && r.sourceIP == addr && r.targetPort == port.targetPort && r.destinationIP == es.targetIP
    ensures r.gatewayIP == src.sourceIP && r.destinationPort == Itoa(port.port)
  {
    var t := EgressTemplate(es, src, port, addr);
    assert AsksEgress(es, view, src, port, addr, t);
    r :| r in rules && r.(relayPort := "") == t;
  }

  lemma PortPerKey(es: ExternalService, view: ClusterView, rules: seq<ForwarderRule>, r: ForwarderRule, q: ForwarderRule)
    requires Compiled(es, view, rules) && r in rules && q in rules
    ensures IsPort(r.relayPort) && (r.relayPort == q.relayPort <==> RuleKey(r) == RuleKey(q))
  {
    hide AsksEgress, IsPort, RuleKey;
  }

  /** Rules share a relay port exactly when they match the same packets. */
  lemma SamePortMatches(es: ExternalService, view: ClusterView, rules: seq<ForwarderRule>, r: ForwarderRule, q: ForwarderRule)
    requires Compiled(es, view, rules) && r in rules && q in rules && forall p :: p in es.ports ==> ':' !in p.targetPort
    ensures r.relayPort == q.relayPort <==> r.sourceIP == q.sourceIP && r.targetPort == q.targetPort
  {
    hide Compiled;
    PortPerKey(es, view, rules, r, q);
    var s, p := AskerOf(es, view, rules, r);
    var t, o := AskerOf(es, view, rules, q);
    KeyInjective(r.sourceIP, r.targetPort, q.sourceIP, q.targetPort);
  }

  /** The ends of the tunnel that a demand needs */
  function Wanted(es: ExternalService, fip: string, relay: string, src: Source, port: Port): Endpoints {
    Endpoints(Endpoint(fip, relay), Endpoint(src.sourceIP, "2022"), Endpoint(es.targetIP, Itoa(port.port)))
  }

  lemma TunnelOfSoleDemand(es: ExternalService, view: ClusterView, spec: ForwarderSpec, src: Source, port: Port, r: ForwarderRule)
    requires Compiled(es, view, spec.egressRules) && NoColons(es, spec.forwarderIP)
    requires r in spec.egressRules && r.targetPort == port.targetPort && r.destinationIP == es.targetIP
    requires r.gatewayIP == src.sourceIP && r.destinationPort == Itoa(port.port)
    requires SoleDemand(es, view, r.sourceIP, src, port)
    ensures OnlyTunnel(ExpectedTunnels(spec), Wanted(es, spec.forwarderIP, r.relayPort, src, port))
  {
    hide HasSixParts, ToEndpoints, TunnelKey, GetRuleName, Compiled;
    var ends := Wanted(es, spec.forwarderIP, r.relayPort, src, port);
    var k := SSHTunnelKey(spec.forwarderIP, r);
    KeyParses(es, view, spec, r);
    forall l | l in ExpectedTunnels(spec) && HasSixParts(l) && ToEndpoints(l).local == ends.local ensures l == k {
      var q :| q in spec.egressRules && l == SSHTunnelKey(spec.forwarderIP, q);
      KeyParses(es, view, spec, q);
      EndpointInjective(spec.forwarderIP, r.relayPort, spec.forwarderIP, q.relayPort);
      SamePortMatches(es, view, spec.egressRules, r, q);
      var other, second := AskerOf(es, view, spec.egressRules, q);
    }
  }

  lemma AskerOf(es: ExternalService, view: ClusterView, rules: seq<ForwarderRule>, q: ForwarderRule) returns (src: Source, port: Port)
    requires Compiled(es, view, rules) && q in rules
    ensures Asks(es, view, q.sourceIP, q.targetPort, src, port)
    ensures q.gatewayIP == src.sourceIP && q.destinationIP == es.targetIP && q.destinationPort == Itoa(port.port)
  {
    hide GetRuleName;
    var s, p, addr :| AsksEgress(es, view, s, p, addr, q.(relayPort := ""));
    src, port := s, p;
  }

  /** A second demand for the same key with another way out puts a second tunnel on the relay port. */
  lemma TunnelOfTwoDemands(es: ExternalService, view: ClusterView, spec: ForwarderSpec, src: Source, port: Port, r: ForwarderRule)
    requires Compiled(es, view, spec.egressRules) && NoColons(es, spec.forwarderIP) && ValidSources(es.sources)
    requires r in spec.egressRules && r.targetPort == port.targetPort
    requires OnlyTunnel(ExpectedTunnels(spec), Wanted(es, spec.forwarderIP, r.relayPort, src, port))
    ensures SoleDemand(es, view, r.sourceIP, src, port)
  {
    hide HasSixParts, ToEndpoints, TunnelKey, GetRuleName, Compiled;
    var ends := Wanted(es, spec.forwarderIP, r.relayPort, src, port);
    forall other, second | Asks(es, view, r.sourceIP, port.targetPort, other, second)
      ensures other.sourceIP == src.sourceIP && second.port == port.port
    {
      var q := RuleFor(es, view, spec.egressRules, r.sourceIP, other, second);
      SamePortMatches(es, view, spec.egressRules, r, q);
      KeyParses(es, view, spec, q);
      assert SSHTunnelKey(spec.forwarderIP, q) in ExpectedTunnels(spec);
      assert ToEndpoints(SSHTunnelKey(spec.forwarderIP, q)) == ends;
      EndpointInjective(other.sourceIP, SSH_PORT, src.sourceIP, SSH_PORT);
      EndpointInjective(es.targetIP, Itoa(second.port), es.targetIP, Itoa(port.port));
      ItoaInjective(second.port, port.port);
    }
  }

  /** A connection from an endpoint of a source to the forwarder is sent to a relay port; exactly one tunnel
      listens there, and it leads through the source's IP to the target, if and only if everybody who asks
      for that address and port asks for the same way out. */
  lemma DemandedIsRouted(es: ExternalService, view: ClusterView, before: seq<ForwarderRule>, spec: ForwarderSpec,
                         chains: Chains, addr: string, src: Source, port: Port)
    returns (relay: string)
    requires NoColonInPorts(before) && EgressRules(es, view, UsedPortsForEgress(before)) == Some(spec.egressRules)
    requires NoColons(es, spec.forwarderIP)
    requires chains == Replaced(chains, ExpectedRules(spec))
    requires Asks(es, view, addr, port.targetPort, src, port)
    ensures IsPort(relay)
    ensures Evaluate(chains, chains[PREROUTING], Packet(addr, spec.forwarderIP, port.targetPort))
            == Some(DNAT(Endpoint(spec.forwarderIP, relay)))
    ensures OnlyTunnel(ExpectedTunnels(spec), Wanted(es, spec.forwarderIP, relay, src, port)) <==>
            SoleDemand(es, view, addr, src, port)
  {
    GenerationCompiles(es, view, before);
    hide GetRuleName, Compiled, EgressRules, OnlyTunnel, SoleDemand;
    var r := RuleFor(es, view, spec.egressRules, addr, src, port);
    relay := r.relayPort;
    PortPerKey(es, view, spec.egressRules, r, r);
    SettledVerdict(es, view, spec, chains, Packet(addr, spec.forwarderIP, port.targetPort), relay, r);
    if SoleDemand(es, view, addr, src, port) {
      TunnelOfSoleDemand(es, view, spec, src, port, r);
    }
    if OnlyTunnel(ExpectedTunnels(spec), Wanted(es, spec.forwarderIP, relay, src, port)) {
      TunnelOfTwoDemands(es, view, spec, src, port, r);
    }
  }

  /** The prerouting chain as the agent leaves it */
  lemma AppliedChain(spec: ForwarderSpec, chains: Chains, p: Packet, relay: string)
    requires chains == Replaced(chains, ExpectedRules(spec))
    requires forall r :: r in spec.egressRules && Matches(r, p) ==> r.relayPort == relay
    ensures PREROUTING in chains
    ensures Evaluate(chains, chains[PREROUTING], p) ==
            if p.dst == spec.forwarderIP && exists r :: r in spec.egressRules && Matches(r, p)
            then Some(DNAT(Endpoint(spec.forwarderIP, relay))) else None
  {
    hide Matches, DNATs, SNATs, FirstMatch, IsJump, Evaluate, RuleVerdict;
    var specs := DNATs(spec.forwarderIP, spec.egressRules);
    assert PREROUTING[1] != POSTROUTING[1];
    assert chains[PREROUTING] == Dedup(specs);
    ChainVerdict(spec.forwarderIP, spec.egressRules, p, relay);
    AppendAllMeaning([], specs);
    DedupKeepsVerdict(specs, p);
    EvaluateWithoutJumps(chains, chains[PREROUTING], p);
  }

  /** The postrouting chain as the agent leaves it: packets to the destination and relay port of an egress rule leave
      under the forwarder's address, all others under their own. */
  lemma AppliedPostChain(spec: ForwarderSpec, chains: Chains, p: Packet)
    requires chains == Replaced(chains, ExpectedRules(spec))
    ensures POSTROUTING in chains
    ensures Evaluate(chains, chains[POSTROUTING], p) ==
            if exists r :: r in spec.egressRules && r.destinationIP == p.dst && r.relayPort == p.dport
            then Some(SNAT(spec.forwarderIP)) else None
  {
    hide DNATs, FirstMatch, Evaluate, RuleVerdict, SNATRuleSpec, IsJump;
    var specs := SNATs(spec.forwarderIP, spec.egressRules);
    assert PREROUTING[1] != POSTROUTING[1];
    assert chains[POSTROUTING] == Dedup(specs);
    hide Dedup;
    forall i | 0 <= i < |specs|
      ensures !IsJump(specs[i])
      ensures RuleVerdict(specs[i], p) ==
              if spec.egressRules[i].destinationIP == p.dst && spec.egressRules[i].relayPort == p.dport
              then Some(SNAT(spec.forwarderIP)) else None
    {
      SNATMeaning(spec.egressRules[i].destinationIP, spec.forwarderIP, spec.egressRules[i].relayPort, p);
    }
    AgreeingMatch(specs, p, SNAT(spec.forwarderIP));
    if r :| r in spec.egressRules && r.destinationIP == p.dst && r.relayPort == p.dport {
      var i :| 0 <= i < |spec.egressRules| && spec.egressRules[i] == r;
      assert specs[i] in specs && RuleVerdict(specs[i], p).Some?;
    } else {
      forall d | d in specs ensures RuleVerdict(d, p).None? {
        var i :| 0 <= i < |specs| && specs[i] == d;
        assert spec.egressRules[i] in spec.egressRules;
      }
    }
    DedupKeepsVerdict(specs, p);
    DedupMembers(specs);
    EvaluateWithoutJumps(chains, chains[POSTROUTING], p);
  }

  lemma DedupMembers(specs: seq<RuleSpec>)
    ensures forall r :: r in Dedup(specs) <==> r in specs
  {
    AppendAllMeaning([], specs);
  }

  lemma SettledVerdict(es: ExternalService, view: ClusterView, spec: ForwarderSpec, chains: Chains, p: Packet, relay: string, r: ForwarderRule)
    requires Compiled(es, view, spec.egressRules) && NoColons(es, spec.forwarderIP)
    requires chains == Replaced(chains, ExpectedRules(spec))
    requires r in spec.egressRules && Matches(r, p) && r.relayPort == relay
    ensures PREROUTING in chains
    ensures p.dst == spec.forwarderIP ==>
              Evaluate(chains, chains[PREROUTING], p) == Some(DNAT(Endpoint(spec.forwarderIP, relay)))
  {
    hide Compiled, Replaced, Evaluate, ExpectedRules;
    forall q | q in spec.egressRules && Matches(q, p) ensures q.relayPort == relay {
      SamePortMatches(es, view, spec.egressRules, r, q);
    }
    AppliedChain(spec, chains, p, relay);
  }

  /** The forwarder rewrites a connection if and only if it is to the forwarder, from an endpoint of one of the
      sources, and to a target port of the ExternalService. */
  lemma OnlyDemandedIsRewritten(es: ExternalService, view: ClusterView, before: seq<ForwarderRule>, spec: ForwarderSpec,
                                chains: Chains, p: Packet)
    requires NoColonInPorts(before) && EgressRules(es, view, UsedPortsForEgress(before)) == Some(spec.egressRules)
    requires NoColons(es, spec.forwarderIP)
    requires chains == Replaced(chains, ExpectedRules(spec))
    ensures PREROUTING in chains
    ensures Evaluate(chains, chains[PREROUTING], p).Some? <==> p.dst == spec.forwarderIP && Asked(es, view, p.src, p.dport)
  {
    GenerationCompiles(es, view, before);
    hide GetRuleName, Compiled, EgressRules, Replaced, Evaluate, ExpectedRules;
    if Asked(es, view, p.src, p.dport) {
      var src, port :| Asks(es, view, p.src, p.dport, src, port);
      var r := RuleFor(es, view, spec.egressRules, p.src, src, port);
      SettledVerdict(es, view, spec, chains, p, r.relayPort, r);
      AppliedChainDst(spec, chains, p);
    } else {
      forall r | r in spec.egressRules ensures !Matches(r, p) {
        var src, port := AskerOf(es, view, spec.egressRules, r);
      }
      AppliedChain(spec, chains, p, "");
    }
  }

  lemma AppliedChainDst(spec: ForwarderSpec, chains: Chains, p: Packet)
    requires chains == Replaced(chains, ExpectedRules(spec))
    ensures PREROUTING in chains
    ensures p.dst != spec.forwarderIP ==> Evaluate(chains, chains[PREROUTING], p) == None
  {
    hide DNATRuleSpec, RuleVerdict, FirstMatch, SNATs, Evaluate, IsJump;
    var specs := DNATs(spec.forwarderIP, spec.egressRules);
    assert PREROUTING[1] != POSTROUTING[1];
    AppendAllMeaning([], specs);
    forall d | d in chains[PREROUTING] ensures !IsJump(d) && (p.dst != spec.forwarderIP ==> RuleVerdict(d, p).None?) {
      var i :| 0 <= i < |specs| && specs[i] == d;
      var r := spec.egressRules[i];
      DNATVerdict(spec.forwarderIP, r.sourceIP, r.targetPort, spec.forwarderIP, r.relayPort, p);
    }
    NoMatchAnywhere(chains[PREROUTING], p);
    EvaluateWithoutJumps(chains, chains[PREROUTING], p);
  }

  // ----- the tunnels that run -----

  /** The agent started this local tunnel and did not cancel it. */
  ghost predicate Live(f: Reconciler, t: Tunnel)
    reads *
  {
    t in f.tunnels.made && t.forwards > 0 && t.cancels == 0
  }

  /** Of all local tunnels of the agent that run, exactly one listens at `ends.local`, and it has these ends. */
  ghost predicate OnlyLive(f: Reconciler, ends: Endpoints)
    reads *
  {
    exists t :: t in f.tunnels.made && Live(f, t) && t.ends == ends
                && forall u :: u in f.tunnels.made && Live(f, u) && u.ends.local == ends.local ==> u == t
  }

  /** The running tunnels are the entries of the map, each under its own key. */
  lemma LiveIsEntry(f: Reconciler, t: Tunnel) returns (key: string)
    requires f.Valid() && f.NoOrphans() && Live(f, t)
    ensures key in f.tunnels.tunnels && f.tunnels.tunnels[key] == t && HasSixParts(key) && t.ends == ToEndpoints(key)
  {
    hide HasSixParts, ToEndpoints;
    key :| key in f.tunnels.tunnels && f.tunnels.tunnels[key] == t;
  }

  lemma EntryIsLive(f: Reconciler, key: string)
    requires f.Valid() && key in f.tunnels.tunnels
    ensures var t := f.tunnels.tunnels[key]; Live(f, t) && t.ends == ToEndpoints(key) && HasSixParts(key)
    ensures var running := f.tunnels.tunnels; forall l :: l in running && running[l] == running[key] ==> l == key
  {
    assert f.tunnels.tunnels[key] in f.tunnels.made;
    hide HasSixParts, ToEndpoints;
  }

  /** With the rules applied, one running tunnel means one expected key. */
  lemma OnlyLiveIff(f: Reconciler, spec: ForwarderSpec, ends: Endpoints)
    requires f.Valid() && f.NoOrphans() && f.Applied(spec)
    ensures OnlyLive(f, ends) <==> OnlyTunnel(ExpectedTunnels(spec), ends)
  {
    var keys := ExpectedTunnels(spec);
    assert f.tunnels.tunnels.Keys == keys;
    hide HasSixParts, ToEndpoints, ExpectedTunnels, ExpectedRules, Replaced, ExpectedRemoteTunnels;
    if OnlyLive(f, ends) {
      var t :| t in f.tunnels.made && Live(f, t) && t.ends == ends
               && forall u :: u in f.tunnels.made && Live(f, u) && u.ends.local == ends.local ==> u == t;
      var k := LiveIsEntry(f, t);
      forall l | l in keys && HasSixParts(l) && ToEndpoints(l).local == ends.local ensures l == k {
        EntryIsLive(f, l);
        EntryIsLive(f, k);
      }
    }
    if OnlyTunnel(keys, ends) {
      var k :| k in keys && HasSixParts(k) && ToEndpoints(k) == ends
               && forall l :: l in keys && HasSixParts(l) && ToEndpoints(l).local == ends.local ==> l == k;
      EntryIsLive(f, k);
      forall u | u in f.tunnels.made && Live(f, u) && u.ends.local == ends.local ensures u == f.tunnels.tunnels[k] {
        var l := LiveIsEntry(f, u);
      }
    }
  }

  /** After entries were lost while their tunnels ran, the expected tunnel is the only one at its port if and only if none
      of those tunnels listens there. */
  lemma OnlyLiveIffNoOrphan(f: Reconciler, spec: ForwarderSpec, ends: Endpoints)
    requires f.Valid() && f.Applied(spec) && OnlyTunnel(ExpectedTunnels(spec), ends)
    ensures OnlyLive(f, ends) <==> forall o :: o in f.tunnels.orphans ==> o.ends.local != ends.local
  {
    assert f.tunnels.tunnels.Keys == ExpectedTunnels(spec);
    hide HasSixParts, ToEndpoints, ExpectedTunnels, ExpectedRules, Replaced, ExpectedRemoteTunnels;
    var k :| k in f.tunnels.tunnels && HasSixParts(k) && ToEndpoints(k) == ends
             && forall l :: l in f.tunnels.tunnels && HasSixParts(l) && ToEndpoints(l).local == ends.local ==> l == k;
    var t := f.tunnels.tunnels[k];
    EntryIsLive(f, k);
    if o :| o in f.tunnels.orphans && o.ends.local == ends.local {
      assert Live(f, o) && o != t;
    } else {
      forall u | u in f.tunnels.made && Live(f, u) && u.ends.local == ends.local ensures u == t {
        assert u in f.tunnels.tunnels.Values;
        var l :| l in f.tunnels.tunnels && f.tunnels.tunnels[l] == u;
      }
    }
  }

  /** The same on the agent's own state: with the rules applied, of all tunnels the agent ever started and did not
      cancel exactly one listens at the relay port, and it leads through the source's IP to the target, if and
      only if everybody who asks for that address and port asks for the same way out. */
  lemma DemandedReachesOneTunnel(f: Reconciler, es: ExternalService, view: ClusterView, before: seq<ForwarderRule>,
                                 spec: ForwarderSpec, addr: string, src: Source, port: Port)
    returns (relay: string)
    requires f.Valid() && f.NoOrphans() && f.Applied(spec)
    requires NoColonInPorts(before) && EgressRules(es, view, UsedPortsForEgress(before)) == Some(spec.egressRules)
    requires NoColons(es, spec.forwarderIP)
    requires Asks(es, view, addr, port.targetPort, src, port)
    ensures IsPort(relay) && PREROUTING in f.table.chains
    ensures Evaluate(f.table.chains, f.table.chains[PREROUTING], Packet(addr, spec.forwarderIP, port.targetPort))
            == Some(DNAT(Endpoint(spec.forwarderIP, relay)))
    ensures OnlyLive(f, Wanted(es, spec.forwarderIP, relay, src, port)) <==> SoleDemand(es, view, addr, src, port)
  {
    hide HasSixParts, ToEndpoints, Evaluate, Replaced, EgressRules, SoleDemand, ExpectedTunnels, OnlyLive, OnlyTunnel, IsPort;
    AppliedChainDst(spec, f.table.chains, Packet("", "", ""));
    relay := DemandedIsRouted(es, view, before, spec, f.table.chains, addr, src, port);
    OnlyLiveIff(f, spec, Wanted(es, spec.forwarderIP, relay, src, port));
  }
}
