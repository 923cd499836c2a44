// The protocol runs of all objects put together: when every object says it is synced, inward connections go
// where the rules say.
module SyncedSystem {
  import opened Text
  import opened Address
  import opened Api
  import opened RuleGen
  import opened Operator
  import opened Ledger
  import opened Printed
  import opened NatTable
  import opened Tunnels
  import opened ForwarderAgent
  import opened GatewayAgent
  import opened IngressRouting
  import opened Staleness
  import opened Publication
  import Handshake
  import GatewayFleet
  import ForwarderRun

  /** The whole protocol run of one forwarder object and its agent */
  datatype SiteRun = SiteRun(initial: ForwarderSpec, machine: ForwarderRun.Machine, steps: seq<ForwarderRun.SiteStep>)

  ghost predicate LegalSite(run: SiteRun) {
    ForwarderRun.LegalSteps(ForwarderRun.Site(Handshake.Init(run.initial), run.machine), run.steps)
  }

  ghost function SiteNow(run: SiteRun): ForwarderRun.Site
    requires LegalSite(run)
  {
    ForwarderRun.After(ForwarderRun.Site(Handshake.Init(run.initial), run.machine), run.steps)
  }

  /** The object of a run says that it is synced, and its spec is this one. */
  ghost predicate SiteSynced(run: SiteRun, spec: ForwarderSpec) {
    && LegalSite(run)
    && var obj := SiteNow(run).obj;
       obj.history != [] && Handshake.NeedCheckSync(Handshake.Current(obj).status) && Handshake.Current(obj).spec == spec
  }

  ghost predicate SitesSynced(s: System, sites: map<string, SiteRun>) {
    sites.Keys == s.forwarders.Keys && forall n :: n in sites ==> SiteSynced(sites[n], s.forwarders[n].spec)
  }

  /** The object of this gateway address says that it is synced, and its spec is this one. */
  ghost predicate GatewaySaysSynced(f: GatewayFleet.Fleet, ip: string, spec: GatewaySpec) {
    && ip in f.objs && f.objs[ip].history != []
    && Handshake.NeedCheckSync(Handshake.Current(f.objs[ip]).status) && Handshake.Current(f.objs[ip]).spec == spec
  }

  lemma SiteRemote(run: SiteRun, spec: ForwarderSpec)
    requires SiteSynced(run, spec)
    ensures LegalSite(run) && SiteNow(run).machine.remoteTunnels == ExpectedRemoteTunnels(spec)
  {
    hide ExpectedRemoteTunnels;
    ForwarderRun.SyncedForwarderIsApplied(run.initial, run.machine, run.steps);
    ForwarderRun.AppliedMeans(SiteNow(run).machine, spec);
  }

  /** The machine of forwarder m runs the remote tunnel `key`. */
  ghost predicate Listens(sites: map<string, SiteRun>, m: string, key: string) {
    m in sites && LegalSite(sites[m]) && key in SiteNow(sites[m]).machine.remoteTunnels
  }

  /** Of the remote tunnels on all machines, exactly one listens at the remote end of `ends`; it is forwarder n's
      and has these ends. */
  ghost predicate OnlyListener(sites: map<string, SiteRun>, n: string, ends: Endpoints) {
    exists key :: Listens(sites, n, key) && HasSixParts(key) && ToEndpoints(key) == ends
                  && forall m, l :: Listens(sites, m, l) && HasSixParts(l) && ToEndpoints(l).remote == ends.remote ==> m == n && l == key
  }

  lemma ListensIffClaims(s: System, sites: map<string, SiteRun>, m: string, key: string)
    requires SitesSynced(s, sites)
    ensures Listens(sites, m, key) <==> Claims(s, m, key)
  {
    hide SiteSynced, LegalSite, SiteNow, ExpectedRemoteTunnels;
    if m in sites {
      SiteRemote(sites[m], s.forwarders[m].spec);
    }
  }

  lemma OnlyListenerIff(s: System, sites: map<string, SiteRun>, n: string, key: string, ends: Endpoints)
    requires SitesSynced(s, sites) && Claims(s, n, key) && HasSixParts(key) && ToEndpoints(key) == ends
    ensures OnlyListener(sites, n, ends) <==> OnlyClaim(s, n, key, ends)
  {
    forall m, l ensures Listens(sites, m, l) <==> Claims(s, m, l) {
      ListensIffClaims(s, sites, m, l);
    }
    hide SitesSynced, Listens, Claims, HasSixParts, ToEndpoints;
  }

  /** With the rule's gateway object and all forwarder objects synced, as their own statuses say, after any runs of the
      protocol: a connection that matches the rule is sent to its relay port, and of the remote tunnels on all
      machines only the rule's own listens there if and only if no other rule is for its gateway, source and port. */
  lemma SyncedRuleIsRouted(s: System, n: string, r: ForwarderRule, start: Chains, steps: seq<GatewayFleet.FleetStep>,
                           sites: map<string, SiteRun>)
    requires Inv(s) && Tidy(s) && n in s.forwarders && r in s.forwarders[n].spec.ingressRules
    requires NothingElse(start, Packet(r.sourceIP, r.gatewayIP, r.targetPort))
    requires GatewayFleet.LegalSteps(GatewayFleet.Fleet(map[], start), steps)
    requires r.gateway.name in s.gateways ==>
               GatewaySaysSynced(GatewayFleet.After(GatewayFleet.Fleet(map[], start), steps), r.gatewayIP, s.gateways[r.gateway.name].spec)
    requires SitesSynced(s, sites)
    ensures var chains := GatewayFleet.After(GatewayFleet.Fleet(map[], start), steps).chains;
            && PREROUTING in chains
            && Evaluate(chains, chains[PREROUTING], Packet(r.sourceIP, r.gatewayIP, r.targetPort)) == Some(DNAT(Endpoint(r.gatewayIP, r.relayPort)))
    ensures OnlyListener(sites, n, RemoteEnds(r)) <==> SoleRule(s, n, r)
  {
    ForwarderTidy(s, n);
    RuleClaims(s, n, r);
    hide *;
    GatewayRelays(s, n, r);
    TableRelays(start, steps, r.gatewayIP, s.gateways[r.gateway.name].spec, Packet(r.sourceIP, r.gatewayIP, r.targetPort));
    RemoteKeyParses(r);
    OnlyListenerIff(s, sites, n, RemoteTunnelKey(r), RemoteEnds(r));
    if SoleRule(s, n, r) {
      ClaimOfSoleRule(s, n, r);
    }
    if OnlyClaim(s, n, RemoteTunnelKey(r), RemoteEnds(r)) {
      SoleRuleOfClaim(s, n, r);
    }
  }

  lemma RuleClaims(s: System, n: string, r: ForwarderRule)
    requires n in s.forwarders && r in s.forwarders[n].spec.ingressRules
    ensures Claims(s, n, RemoteTunnelKey(r))
  {
  }

  lemma TableRelays(start: Chains, steps: seq<GatewayFleet.FleetStep>, ip: string, spec: GatewaySpec, p: Packet)
    requires p.dst == ip && NothingElse(start, p) && GatewayFleet.LegalSteps(GatewayFleet.Fleet(map[], start), steps)
    requires GatewaySaysSynced(GatewayFleet.After(GatewayFleet.Fleet(map[], start), steps), ip, spec)
    ensures var chains := GatewayFleet.After(GatewayFleet.Fleet(map[], start), steps).chains;
            PREROUTING in chains && Evaluate(chains, chains[PREROUTING], p) == FirstMatch(PreRules(spec), p)
  {
    hide GetHexIP, FirstMatch, Evaluate, PreRules, OthersSilent, Holds;
    var f := GatewayFleet.After(GatewayFleet.Fleet(map[], start), steps);
    GatewayFleet.SyncedGatewayHolds(start, steps, ip, p);
    GatewayFleet.HoldsBuiltins(f.chains, ip, spec);
  }

  // ----- a gateway that nobody needs any more -----

  lemma NoRulesNoVerdict(spec: GatewaySpec, p: Packet)
    requires spec.ingressRules == []
    ensures FirstMatch(PreRules(spec), p) == None
  {
  }

  /** A completed deletion of the last forwarder that names a gateway empties it. */
  lemma LastDeletionEmpties(s: System, name: string, order: seq<string>, g: string)
    requires LegalOp(s, Delete(name, order)) && g in s.gateways
    requires forall n, r :: n in s.forwarders && n != name && r in s.forwarders[n].spec.ingressRules ==> r.gateway.name != g
    ensures var t := Apply(s, Delete(name, order));
            g in t.gateways && t.gateways[g].spec.ingressRules == [] && t.gateways[g].spec.gatewayIP == s.gateways[g].spec.gatewayIP
  {
    DeletionIsExact(s, name, order);
    DeletionKeepsAddresses(s, name, order, g);
    var t := Apply(s, Delete(name, order));
    var rules := t.gateways[g].spec.ingressRules;
    assert t.forwarders == s.forwarders - {name};
    assert forall n, r, q :: !Stems(Ingress, t.forwarders, n, r, g, q);
    assert ExactAt(t, g);
    HasMemberUnlessEmpty(rules);
  }

  lemma HasMemberUnlessEmpty(rules: seq<GatewayRule>)
    ensures rules == [] || exists q :: q in rules
  {
    if rules != [] {
      assert rules[0] in rules;
    }
  }

  /** Over every run: after that deletion the gateway's agent can still apply its object, and once the object says it is synced
      no packet to the gateway's address is rewritten any more. */
  lemma EmptiedGatewayIsSilent(ops: seq<Op>, name: string, order: seq<string>, g: string, start: Chains,
                               steps: seq<GatewayFleet.FleetStep>, p: Packet)
    requires LegalRun(EMPTY_SYSTEM, ops) && LegalOp(Run(EMPTY_SYSTEM, ops), Delete(name, order)) && g in Run(EMPTY_SYSTEM, ops).gateways
    requires var s := Run(EMPTY_SYSTEM, ops);
             && (forall n, r :: n in s.forwarders && n != name && r in s.forwarders[n].spec.ingressRules ==> r.gateway.name != g)
             && p.dst == s.gateways[g].spec.gatewayIP
    requires NothingElse(start, p) && GatewayFleet.LegalSteps(GatewayFleet.Fleet(map[], start), steps)
    requires var t := Apply(Run(EMPTY_SYSTEM, ops), Delete(name, order));
             g in t.gateways ==> GatewaySaysSynced(GatewayFleet.After(GatewayFleet.Fleet(map[], start), steps), p.dst, t.gateways[g].spec)
    ensures GetRuleName(p.dst) == Some(g) && GetHexIP(p.dst).Some?
    ensures var chains := GatewayFleet.After(GatewayFleet.Fleet(map[], start), steps).chains;
            PREROUTING in chains && Evaluate(chains, chains[PREROUTING], p) == None
  {
    hide *;
    AddressedAtStart();
    RunKeepsAddressed(EMPTY_SYSTEM, ops);
    var s := Run(EMPTY_SYSTEM, ops);
    AddressedAt(s, g);
    LastDeletionEmpties(s, name, order, g);
    var t := Apply(s, Delete(name, order));
    TableRelays(start, steps, p.dst, t.gateways[g].spec, p);
    NoRulesNoVerdict(t.gateways[g].spec, p);
  }

  lemma AddressedAt(s: System, g: string)
    requires Addressed(s) && g in s.gateways
    ensures GetRuleName(s.gateways[g].spec.gatewayIP) == Some(g)
  {
  }
}
