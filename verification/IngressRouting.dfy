// End to end, inwards: gateway chains and the remote tunnels of all forwarders together route a connection
// from an external server to the service it is meant for.
module IngressRouting {
  import opened Text
  import opened Address
  import opened Api
  import opened PortPool
  import opened RuleGen
  import opened Operator
  import opened Ledger
  import opened Printed
  import opened NatTable
  import opened Tunnels
  import opened ForwarderAgent
  import opened EgressRouting
  import opened GatewayAgent

  // ----- the gateway's side -----

  ghost predicate Meets(q: GatewayRule, p: Packet) {
    q.sourceIP == p.src && q.targetPort == p.dport
  }

  lemma GatewayChainVerdict(spec: GatewaySpec, p: Packet, relay: string)
    requires forall q :: q in spec.ingressRules && Meets(q, p) ==> q.relayPort == relay
    ensures FirstMatch(PreRules(spec), p) ==
            if p.dst == spec.gatewayIP && exists q :: q in spec.ingressRules && Meets(q, p)
            then Some(DNAT(Endpoint(spec.gatewayIP, relay))) else None
  {
    hide DNATRuleSpec, RuleVerdict, FirstMatch;
    var specs := PreRules(spec);
    forall i | 0 <= i < |specs|
      ensures RuleVerdict(specs[i], p) ==
              if p.dst == spec.gatewayIP && Meets(spec.ingressRules[i], p)
              then Some(DNAT(Endpoint(spec.gatewayIP, spec.ingressRules[i].relayPort))) else None
    {
      var q := spec.ingressRules[i];
      DNATVerdict(spec.gatewayIP, q.sourceIP, q.targetPort, spec.gatewayIP, q.relayPort, p);
    }
    forall d | d in specs && RuleVerdict(d, p).Some?
      ensures RuleVerdict(d, p) == Some(DNAT(Endpoint(spec.gatewayIP, relay)))
      ensures p.dst == spec.gatewayIP && exists q :: q in spec.ingressRules && Meets(q, p)
    {
      var i :| 0 <= i < |specs| && specs[i] == d;
      assert spec.ingressRules[i] in spec.ingressRules;
    }
    AgreeingMatch(specs, p, DNAT(Endpoint(spec.gatewayIP, relay)));
    if p.dst == spec.gatewayIP && exists q :: q in spec.ingressRules && Meets(q, p) {
      var q :| q in spec.ingressRules && Meets(q, p);
      var i :| 0 <= i < |spec.ingressRules| && spec.ingressRules[i] == q;
      assert specs[i] in specs;
    }
  }

  /** The gateway that a rule names has the rule's address and sends the rule's packets to its relay port. */
  lemma GatewayRelays(s: System, n: string, r: ForwarderRule)
    requires Inv(s) && Tidy(s) && n in s.forwarders && r in s.forwarders[n].spec.ingressRules
    ensures r.gateway.name in s.gateways
    ensures var spec := s.gateways[r.gateway.name].spec;
            && spec.gatewayIP == r.gatewayIP
            && FirstMatch(PreRules(spec), Packet(r.sourceIP, r.gatewayIP, r.targetPort))
               == Some(DNAT(Endpoint(r.gatewayIP, r.relayPort)))
  {
    hide GetRuleName, FirstMatch, PreRules;
    var g := r.gateway.name;
    assert ForwarderOk(s, n) && WellFormed(r) && RuleCovered(s, r) && GatewayOk(s, g);
    var spec := s.gateways[g].spec;
    RuleNameInjective(spec.gatewayIP, r.gatewayIP);
    var p := Packet(r.sourceIP, r.gatewayIP, r.targetPort);
    var own :| own in spec.ingressRules && own.relayPort == r.relayPort && GatewayKey(own) == RuleKey(r);
    forall q | q in spec.ingressRules ensures Meets(q, p) <==> GatewayKey(q) == RuleKey(r) {
      assert TidyGatewayRule(q);
      KeyInjective(q.sourceIP, q.targetPort, r.sourceIP, r.targetPort);
    }
    GatewayChainVerdict(spec, p, r.relayPort);
  }

  // ----- the forwarders' side -----

  /** Forwarder n runs the remote tunnel `key`. */
  ghost predicate Claims(s: System, n: string, key: string) {
    n in s.forwarders && key in ExpectedRemoteTunnels(s.forwarders[n].spec)
  }

  /** Of all remote tunnels of all forwarders, exactly forwarder n's tunnel `key` listens at the remote end of
      `ends`, and it has these ends. */
  ghost predicate OnlyClaim(s: System, n: string, key: string, ends: Endpoints) {
    && Claims(s, n, key) && HasSixParts(key) && ToEndpoints(key) == ends
    && forall m, l :: Claims(s, m, l) && HasSixParts(l) && ToEndpoints(l).remote == ends.remote ==> m == n && l == key
  }

  /** Every rule of any forwarder for this gateway, source and target port is forwarder n's and goes to one
      destination. */
  ghost predicate SoleRule(s: System, n: string, r: ForwarderRule) {
    forall m, q :: m in s.forwarders && q in s.forwarders[m].spec.ingressRules && SameKey(q, r) ==>
      m == n && q.destinationIP == r.destinationIP && q.destinationPort == r.destinationPort
  }

  ghost predicate SameKey(q: ForwarderRule, r: ForwarderRule) {
    q.gatewayIP == r.gatewayIP && q.sourceIP == r.sourceIP && q.targetPort == r.targetPort
  }

  function RemoteEnds(r: ForwarderRule): Endpoints {
    Endpoints(Endpoint(r.destinationIP, r.destinationPort), Endpoint(r.gatewayIP, "2022"), Endpoint(r.gatewayIP, r.relayPort))
  }

  lemma RemoteKeyParses(r: ForwarderRule)
    requires TidyRule(r) && WellFormed(r)
    ensures HasSixParts(RemoteTunnelKey(r)) && ToEndpoints(RemoteTunnelKey(r)) == RemoteEnds(r) && ':' !in r.gatewayIP
  {
    hide HasSixParts, ToEndpoints, TunnelKey, ParseIP, IsPort;
    ValidAddressHasNoColon(r.gatewayIP);
    IsPortTidy(r.relayPort);
    KeyRoundTrip(r.destinationIP, r.destinationPort, r.gatewayIP, SSH_PORT, r.gatewayIP, r.relayPort);
  }

  /** Two forwarders' rules claim one remote end exactly when they are for one gateway, source and target port. */
  lemma SameRemoteEnd(s: System, m: string, n: string, q: ForwarderRule, r: ForwarderRule)
    requires Inv(s) && Tidy(s) && m in s.forwarders && n in s.forwarders
    requires q in s.forwarders[m].spec.ingressRules && r in s.forwarders[n].spec.ingressRules
    ensures RemoteEnds(q).remote == RemoteEnds(r).remote <==> SameKey(q, r)
  {
    ForwarderTidy(s, m);
    ForwarderTidy(s, n);
    IsPortTidy(q.relayPort);
    IsPortTidy(r.relayPort);
    hide Inv, Tidy, ParseIP, GetHexIP, IsPort;
    RemoteKeyParses(q);
    RemoteKeyParses(r);
    if RemoteEnds(q).remote == RemoteEnds(r).remote {
      OnlySeparatorDecides(q.gatewayIP, q.relayPort, r.gatewayIP, r.relayPort, ':');
    }
    if q.gatewayIP == r.gatewayIP {
      assert q.gateway == r.gateway;
      PortsAreExclusive(s, m, n, q, r);
    }
  }

  lemma ClaimOfSoleRule(s: System, n: string, r: ForwarderRule)
    requires Inv(s) && Tidy(s) && n in s.forwarders && r in s.forwarders[n].spec.ingressRules && SoleRule(s, n, r)
    ensures OnlyClaim(s, n, RemoteTunnelKey(r), RemoteEnds(r))
  {
    ForwarderTidy(s, n);
    RemoteKeyParses(r);
    forall m, l | Claims(s, m, l) && HasSixParts(l) && ToEndpoints(l).remote == RemoteEnds(r).remote
      ensures m == n && l == RemoteTunnelKey(r)
    {
      var q :| q in s.forwarders[m].spec.ingressRules && l == RemoteTunnelKey(q);
      ForwarderTidy(s, m);
      hide Inv, Tidy, TidyForwarder, HasSixParts, ToEndpoints, TunnelKey, TidyRule, WellFormed;
      RemoteKeyParses(q);
      SameRemoteEnd(s, m, n, q, r);
      SameRemoteEnd(s, m, n, r, r);
    }
  }

  lemma SoleRuleOfClaim(s: System, n: string, r: ForwarderRule)
    requires Inv(s) && Tidy(s) && n in s.forwarders && r in s.forwarders[n].spec.ingressRules
    requires OnlyClaim(s, n, RemoteTunnelKey(r), RemoteEnds(r))
    ensures SoleRule(s, n, r)
  {
    ForwarderTidy(s, n);
    forall m, q | m in s.forwarders && q in s.forwarders[m].spec.ingressRules && SameKey(q, r)
      ensures m == n && q.destinationIP == r.destinationIP && q.destinationPort == r.destinationPort
    {
      ForwarderTidy(s, m);
      hide Inv, Tidy, HasSixParts, ToEndpoints, TunnelKey, WellFormed;
      RemoteKeyParses(q);
      SameRemoteEnd(s, m, n, q, r);
      assert Claims(s, m, RemoteTunnelKey(q));
      assert RemoteEnds(q) == RemoteEnds(r);
      OnlySeparatorDecides(q.destinationIP, q.destinationPort, r.destinationIP, r.destinationPort, ':');
    }
  }

  // ----- both sides -----

  /** The shared table holds, for the gateway with this address, what the gateway object says. */
  ghost predicate GatewaySynced(s: System, ip: string, chains: Chains) {
    forall g :: g in s.gateways && GetRuleName(ip) == Some(g) ==> Holds(chains, ip, s.gateways[g].spec)
  }

  /** What the table holds besides gateways says nothing about the packet. */
  ghost predicate NothingElse(chains: Chains, p: Packet) {
    HasBuiltins(chains) && GetHexIP(p.dst).Some? && OthersSilent(chains, p)
  }

  /** Both conditions on the table hold on a machine that started with empty built-in chains and on which only
      the agent wrote, as soon as the last apply for the gateway was a success with the object's current spec. */
  lemma AppliedTableSuffices(s: System, attempts: seq<Attempt>, p: Packet)
    requires LegalAttempts(BUILTIN_CHAINS, attempts) && p.dst in LastApplied(map[], attempts)
    requires forall g :: g in s.gateways && GetRuleName(p.dst) == Some(g) ==> LastApplied(map[], attempts)[p.dst] == s.gateways[g].spec
    ensures GatewaySynced(s, p.dst, TableAfter(BUILTIN_CHAINS, attempts))
    ensures NothingElse(TableAfter(BUILTIN_CHAINS, attempts), p)
  {
    hide GetRuleName, GetHexIP, LegalAttempts, LastApplied, TableAfter, Evaluate, FirstMatch, PreRules, PostRules, Dedup;
    Isolation(BUILTIN_CHAINS, map[], attempts, "", [], p);
    assert Holds(TableAfter(BUILTIN_CHAINS, attempts), p.dst, LastApplied(map[], attempts)[p.dst]);
  }

  // ----- the tunnels that run -----

  /** The forwarder agents by the names of their forwarders; each has applied its forwarder's rules. */
  ghost predicate AgentsSynced(s: System, agents: map<string, ForwarderAgent.Reconciler>)
    reads *
  {
    && agents.Keys == s.forwarders.Keys
    && forall n :: n in agents ==> agents[n].Valid() && agents[n].NoOrphans() && agents[n].Applied(s.forwarders[n].spec)
  }

  /** Agent m started the remote tunnel t and did not cancel it. */
  ghost predicate Runs(agents: map<string, ForwarderAgent.Reconciler>, m: string, t: Tunnel)
    reads *
  {
    m in agents && t in agents[m].remoteTunnels.made && t.remoteForwards > 0 && t.cancels == 0
  }

  /** Of all remote tunnels of all agents, exactly one of agent n's listens at the remote end of `ends`, and it
      has these ends. */
  ghost predicate OnlyRunning(agents: map<string, ForwarderAgent.Reconciler>, n: string, ends: Endpoints)
    reads *
  {
    n in agents
    && exists t :: t in agents[n].remoteTunnels.made && Runs(agents, n, t) && t.ends == ends
         && forall m, u :: m in agents && u in agents[m].remoteTunnels.made && Runs(agents, m, u) && u.ends.remote == ends.remote ==>
              m == n && u == t
  }

  /** A claimed key has a running tunnel of its own. */
  lemma ClaimRuns(s: System, agents: map<string, ForwarderAgent.Reconciler>, n: string, key: string)
    requires AgentsSynced(s, agents) && Claims(s, n, key)
    ensures n in agents && key in agents[n].remoteTunnels.tunnels && HasSixParts(key)
    ensures var t := agents[n].remoteTunnels.tunnels[key]; Runs(agents, n, t) && t.ends == ToEndpoints(key)
    ensures var running := agents[n].remoteTunnels.tunnels;
            forall l :: l in running && running[l] == running[key] ==> l == key
  {
    hide HasSixParts, ToEndpoints, ExpectedTunnels, ExpectedRemoteTunnels, ExpectedRules, Replaced;
    assert agents[n].Valid() && agents[n].NoOrphans() && agents[n].Applied(s.forwarders[n].spec);
    assert agents[n].remoteTunnels.tunnels[key] in agents[n].remoteTunnels.made;
  }

  /** A running tunnel has a claimed key. */
  lemma RunningHasKey(s: System, agents: map<string, ForwarderAgent.Reconciler>, n: string, t: Tunnel) returns (key: string)
    requires AgentsSynced(s, agents) && Runs(agents, n, t)
    ensures Claims(s, n, key) && key in agents[n].remoteTunnels.tunnels && agents[n].remoteTunnels.tunnels[key] == t
  {
    hide HasSixParts, ToEndpoints, ExpectedTunnels, ExpectedRemoteTunnels, ExpectedRules, Replaced;
    assert agents[n].Valid() && agents[n].NoOrphans() && agents[n].Applied(s.forwarders[n].spec);
    key :| key in agents[n].remoteTunnels.tunnels && agents[n].remoteTunnels.tunnels[key] == t;
  }

  /** With all agents synced, the tunnels that run are the keys that are claimed. */
  lemma ClaimIsRunning(s: System, agents: map<string, ForwarderAgent.Reconciler>, n: string, key: string, ends: Endpoints)
    requires AgentsSynced(s, agents) && OnlyClaim(s, n, key, ends)
    ensures OnlyRunning(agents, n, ends)
  {
    hide HasSixParts, ToEndpoints, AgentsSynced, Claims;
    ClaimRuns(s, agents, n, key);
    var t := agents[n].remoteTunnels.tunnels[key];
    forall m, u | m in agents && u in agents[m].remoteTunnels.made && Runs(agents, m, u) && u.ends.remote == ends.remote
      ensures m == n && u == t
    {
      var l := RunningHasKey(s, agents, m, u);
      ClaimRuns(s, agents, m, l);
    }
  }

  lemma RunningIsClaim(s: System, agents: map<string, ForwarderAgent.Reconciler>, n: string, key: string, ends: Endpoints)
    requires AgentsSynced(s, agents) && OnlyRunning(agents, n, ends)
    requires Claims(s, n, key) && HasSixParts(key) && ToEndpoints(key) == ends
    ensures OnlyClaim(s, n, key, ends)
  {
    hide HasSixParts, ToEndpoints, AgentsSynced, Claims;
    ClaimRuns(s, agents, n, key);
    forall m, l | Claims(s, m, l) && HasSixParts(l) && ToEndpoints(l).remote == ends.remote ensures m == n && l == key {
      ClaimRuns(s, agents, m, l);
    }
  }

  /** The rule's own tunnel is the only one that runs at its relay port if and only if the rule is the only one for its
      gateway, source and port. */
  lemma OnlyRunningIffSole(s: System, n: string, r: ForwarderRule, agents: map<string, ForwarderAgent.Reconciler>)
    requires Inv(s) && Tidy(s) && n in s.forwarders && r in s.forwarders[n].spec.ingressRules && AgentsSynced(s, agents)
    ensures OnlyRunning(agents, n, RemoteEnds(r)) <==> SoleRule(s, n, r)
  {
    ForwarderTidy(s, n);
    assert Claims(s, n, RemoteTunnelKey(r));
    hide *;
    RemoteKeyParses(r);
    if SoleRule(s, n, r) {
      ClaimOfSoleRule(s, n, r);
      ClaimIsRunning(s, agents, n, RemoteTunnelKey(r), RemoteEnds(r));
    }
    if OnlyRunning(agents, n, RemoteEnds(r)) {
      RunningIsClaim(s, agents, n, RemoteTunnelKey(r), RemoteEnds(r));
      SoleRuleOfClaim(s, n, r);
    }
  }

  /** A connection that matches an ingress rule is sent by its gateway to the rule's relay port, and of all
      remote tunnels that run on any forwarder only one listens there, the rule's own, if and only if the rule is
      the only one for its gateway, source and port. */
  lemma RuleIsRouted(s: System, n: string, r: ForwarderRule, chains: Chains, agents: map<string, ForwarderAgent.Reconciler>)
    requires Inv(s) && Tidy(s) && n in s.forwarders && r in s.forwarders[n].spec.ingressRules
    requires GatewaySynced(s, r.gatewayIP, chains) && NothingElse(chains, Packet(r.sourceIP, r.gatewayIP, r.targetPort))
    requires AgentsSynced(s, agents)
    ensures Evaluate(chains, chains[PREROUTING], Packet(r.sourceIP, r.gatewayIP, r.targetPort))
            == Some(DNAT(Endpoint(r.gatewayIP, r.relayPort)))
    ensures OnlyRunning(agents, n, RemoteEnds(r)) <==> SoleRule(s, n, r)
  {
    ForwarderTidy(s, n);
    hide Inv, Tidy, TidyForwarder, Evaluate, FirstMatch, PreRules, OthersSilent, Holds, SoleRule, GetHexIP, AgentsSynced, OnlyRunning;
    GatewayRelays(s, n, r);
    VerdictIsOwnRules(chains, s.gateways[r.gateway.name].spec, Packet(r.sourceIP, r.gatewayIP, r.targetPort));
    OnlyRunningIffSole(s, n, r, agents);
  }

  /** The rule that a completed reconcile made for a source and a port of its service */
  lemma RuleOfService(s: System, es: ExternalService, view: ClusterView, src: Source, port: ServicePort)
    returns (r: ForwarderRule)
    requires GatewaysOk(s) && NewForwarderSpec(s, es, view).Some?
    requires src in es.sources && src.service in view.services && port in view.services[src.service].ports
    ensures r in NewForwarderSpec(s, es, view).value.ingressRules && r.gatewayIP == src.sourceIP && r.sourceIP == es.targetIP
    ensures r.targetPort == Itoa(port.port) == r.destinationPort
    ensures r.destinationIP == view.services[src.service].clusterIP
  {
    hide GetRuleName, NewForwarderSpec, Serves, GatewaysOk, Assign;
    NewRulesHeld(s, es, view);
    var t := IngressTemplate(es, src, view.ServiceFor(src.service), port);
    assert AsksIngress(es, view, src, port, t);
    assert es.sources[..|es.sources|] == es.sources;
    IngressTemplatesMeaning(es, view, |es.sources|, t);
    var ts := IngressTemplates(es, view, es.sources);
    var i :| 0 <= i < |ts| && ts[i] == t;
    r := NewForwarderSpec(s, es, view).value.ingressRules[i];
  }

  /** Over every run: after a completed reconcile and anything that does not concern its ExternalService, with
      every object synced, a connection from the target IP to a source's IP and a port of its service is sent to a
      relay port where, of all remote tunnels that run on any forwarder, only one listens, which leads to that
      service's ClusterIP and port, if and only if no other rule is for that gateway, target IP and port. */
  lemma ServiceIsReached(ops: seq<Op>, op: Op, more: seq<Op>, src: Source, port: ServicePort, chains: Chains,
                         agents: map<string, ForwarderAgent.Reconciler>)
    returns (r: ForwarderRule)
    requires Settled(ops, op, more)
    requires src in op.es.sources && src.service in op.view.services && port in op.view.services[src.service].ports
    requires NothingElse(chains, Packet(op.es.targetIP, src.sourceIP, Itoa(port.port)))
    requires GatewaySynced(SettledState(ops, op, more), src.sourceIP, chains)
    requires AgentsSynced(SettledState(ops, op, more), agents)
    ensures var s := SettledState(ops, op, more);
            var to := Endpoint(src.sourceIP, r.relayPort);
            && Evaluate(chains, chains[PREROUTING], Packet(op.es.targetIP, src.sourceIP, Itoa(port.port))) == Some(DNAT(to))
            && (OnlyRunning(agents, op.es.name,
                            Endpoints(Endpoint(op.view.services[src.service].clusterIP, Itoa(port.port)),
                                      Endpoint(src.sourceIP, "2022"), to))
                <==> SoleRule(s, op.es.name, r))
  {
    hide *;
    SettledSucceeds(ops, op, more);
    SettledMeans(ops, op, more);
    var before, s := Run(EMPTY_SYSTEM, ops), SettledState(ops, op, more);
    InvIsRecoverable(before, "");
    r := RuleOfService(before, op.es, op.view, src, port);
    RuleIsRouted(s, op.es.name, r, chains, agents);
    EndsOf(r);
  }

  lemma EndsOf(r: ForwarderRule)
    ensures RemoteEnds(r) == Endpoints(Endpoint(r.destinationIP, r.destinationPort), Endpoint(r.gatewayIP, "2022"),
                                       Endpoint(r.gatewayIP, r.relayPort))
  {
  }

  /** A gateway leaves alone every packet to its address that none of its rules asks for. */
  lemma OnlyRulesAreRewritten(s: System, g: string, chains: Chains, p: Packet)
    requires Inv(s) && Tidy(s) && g in s.gateways
    requires Holds(chains, p.dst, s.gateways[g].spec) && NothingElse(chains, p)
    ensures Evaluate(chains, chains[PREROUTING], p).Some? <==>
            exists q :: q in s.gateways[g].spec.ingressRules && Meets(q, p)
  {
    hide Evaluate, FirstMatch, PreRules, OthersSilent, GetHexIP, PreChain, PostChain, Dedup, PostRules;
    var spec := s.gateways[g].spec;
    VerdictIsOwnRules(chains, spec, p);
    assert GatewayOk(s, g);
    if q0 :| q0 in spec.ingressRules && Meets(q0, p) {
      GatewayChainVerdict(spec, p, q0.relayPort);
    } else {
      GatewayChainVerdict(spec, p, "");
    }
  }
}
