// The forwarder agent: tunnels and nat rules of one Forwarder object (pkg/forwarder/reconciler.go).
module ForwarderAgent {
  import opened Api
  import opened Handshake
  import opened NatTable
  import opened Tunnels
  import opened AgentStatus

  // ----- what a Forwarder asks for -----

  function SSHTunnelKey(forwarderIP: string, r: ForwarderRule): string {
    TunnelKey(forwarderIP, r.relayPort, r.gatewayIP, SSH_PORT, r.destinationIP, r.destinationPort)
  }

  function RemoteTunnelKey(r: ForwarderRule): string {
    TunnelKey(r.destinationIP, r.destinationPort, r.gatewayIP, SSH_PORT, r.gatewayIP, r.relayPort)
  }

  /** The keys as they read, with the port that the sshd of every gateway listens at */
  lemma KeysWrittenOut(fip: string, r: ForwarderRule)
    ensures SSHTunnelKey(fip, r) == fip + ":" + r.relayPort + ":" + r.gatewayIP + ":" + "2022"
                                    + ":" + r.destinationIP + ":" + r.destinationPort
    ensures RemoteTunnelKey(r) == r.destinationIP + ":" + r.destinationPort + ":" + r.gatewayIP + ":" + "2022"
                                  + ":" + r.gatewayIP + ":" + r.relayPort
  {
    hide TunnelKey;
    SixJoined(fip, r.relayPort, r.gatewayIP, "2022", r.destinationIP, r.destinationPort);
    SixJoined(r.destinationIP, r.destinationPort, r.gatewayIP, "2022", r.gatewayIP, r.relayPort);
  }

  function ExpectedTunnels(spec: ForwarderSpec): set<string> {
    set r | r in spec.egressRules :: SSHTunnelKey(spec.forwarderIP, r)
  }

  function ExpectedRemoteTunnels(spec: ForwarderSpec): set<string> {
    set r | r in spec.ingressRules :: RemoteTunnelKey(r)
  }

  function EgressDNAT(forwarderIP: string, r: ForwarderRule): RuleSpec {
    DNATRuleSpec(forwarderIP, r.sourceIP, r.targetPort, forwarderIP, r.relayPort)
  }

  function EgressSNAT(forwarderIP: string, r: ForwarderRule): RuleSpec {
    SNATRuleSpec(r.destinationIP, forwarderIP, r.relayPort)
  }

  function DNATs(forwarderIP: string, rules: seq<ForwarderRule>): seq<RuleSpec> {
    seq(|rules|, i requires 0 <= i < |rules| => EgressDNAT(forwarderIP, rules[i]))
  }

  function SNATs(forwarderIP: string, rules: seq<ForwarderRule>): seq<RuleSpec> {
    seq(|rules|, i requires 0 <= i < |rules| => EgressSNAT(forwarderIP, rules[i]))
  }

  function ExpectedRules(spec: ForwarderSpec): Chains {
    map[PREROUTING := DNATs(spec.forwarderIP, spec.egressRules), POSTROUTING := SNATs(spec.forwarderIP, spec.egressRules)]
  }

  method GetExpectedSSHTunnel(spec: ForwarderSpec) returns (st: set<string>)
    ensures st == ExpectedTunnels(spec)
    ensures forall k :: k in st ==> HasSixParts(k)
  {
    st := {};
    for i := 0 to |spec.egressRules|
      invariant st == set r | r in spec.egressRules[..i] :: SSHTunnelKey(spec.forwarderIP, r)
      invariant forall k :: k in st ==> HasSixParts(k)
    {
      var r := spec.egressRules[i];
      KeyRoundTrip(spec.forwarderIP, r.relayPort, r.gatewayIP, SSH_PORT, r.destinationIP, r.destinationPort);
      st := st + {SSHTunnelKey(spec.forwarderIP, r)};
      assert spec.egressRules[..i + 1] == spec.egressRules[..i] + [r];
    }
    assert spec.egressRules[..|spec.egressRules|] == spec.egressRules;
  }

  method GetExpectedRemoteSSHTunnel(spec: ForwarderSpec) returns (rt: set<string>)
    ensures rt == ExpectedRemoteTunnels(spec)
    ensures forall k :: k in rt ==> HasSixParts(k)
  {
    rt := {};
    for i := 0 to |spec.ingressRules|
      invariant rt == set r | r in spec.ingressRules[..i] :: RemoteTunnelKey(r)
      invariant forall k :: k in rt ==> HasSixParts(k)
    {
      var r := spec.ingressRules[i];
      KeyRoundTrip(r.destinationIP, r.destinationPort, r.gatewayIP, SSH_PORT, r.gatewayIP, r.relayPort);
      rt := rt + {RemoteTunnelKey(r)};
      assert spec.ingressRules[..i + 1] == spec.ingressRules[..i] + [r];
    }
    assert spec.ingressRules[..|spec.ingressRules|] == spec.ingressRules;
  }

  method GetExpectedIptablesRule(spec: ForwarderSpec) returns (it: Chains)
    ensures it == ExpectedRules(spec)
  {
    it := map[PREROUTING := [], POSTROUTING := []];
    assert PREROUTING[1] != POSTROUTING[1];
    for i := 0 to |spec.egressRules|
      invariant it.Keys == {PREROUTING, POSTROUTING}
      invariant it[PREROUTING] == DNATs(spec.forwarderIP, spec.egressRules[..i])
      invariant it[POSTROUTING] == SNATs(spec.forwarderIP, spec.egressRules[..i])
    {
      var r := spec.egressRules[i];
      it := it[PREROUTING := it[PREROUTING] + [EgressDNAT(spec.forwarderIP, r)]];
      it := it[POSTROUTING := it[POSTROUTING] + [EgressSNAT(spec.forwarderIP, r)]];
    }
    assert spec.egressRules[..|spec.egressRules|] == spec.egressRules;
  }

  lemma ExpectedRulesHaveNoJumps(spec: ForwarderSpec, cs: set<string>)
    ensures JumpsInto(ExpectedRules(spec), cs)
  {
  }

  lemma ReplacedContains(chains: Chains, expected: Chains)
    ensures Contains(Replaced(chains, expected), expected)
  {
    forall c, r | c in expected && r in expected[c] ensures r in Replaced(chains, expected)[c] {
      AppendAllMeaning([], expected[c]);
    }
  }

  lemma ReplacedTwice(chains: Chains, expected: Chains)
    ensures Replaced(Replaced(chains, expected), expected) == Replaced(chains, expected)
  {
    hide Dedup;
  }

  lemma PartlyByNothing(chains: Chains, expected: Chains)
    ensures PartlyReplaced(chains, expected, chains)
  {
  }

  lemma RulesPresent(chains: Chains, spec: ForwarderSpec)
    ensures Contains(chains, ExpectedRules(spec)) <==>
            forall r :: r in spec.egressRules ==>
              && HasRule(chains, "PREROUTING", EgressDNAT(spec.forwarderIP, r))
              && HasRule(chains, "POSTROUTING", EgressSNAT(spec.forwarderIP, r))
  {
    var rules, ip := spec.egressRules, spec.forwarderIP;
    assert PREROUTING[1] != POSTROUTING[1];
    hide EgressDNAT, EgressSNAT, HasRule, Contains;
    ContainsTwo(chains, PREROUTING, DNATs(ip, rules), POSTROUTING, SNATs(ip, rules));
    if forall r :: r in rules ==> HasRule(chains, PREROUTING, EgressDNAT(ip, r)) && HasRule(chains, POSTROUTING, EgressSNAT(ip, r)) {
      assert forall i :: 0 <= i < |rules| ==> rules[i] in rules;
    } else {
      var r :| r in rules && !(HasRule(chains, PREROUTING, EgressDNAT(ip, r)) && HasRule(chains, POSTROUTING, EgressSNAT(ip, r)));
      var i :| 0 <= i < |rules| && rules[i] == r;
      assert DNATs(ip, rules)[i] == EgressDNAT(ip, r) && SNATs(ip, rules)[i] == EgressSNAT(ip, r);
      assert DNATs(ip, rules)[i] in DNATs(ip, rules) && SNATs(ip, rules)[i] in SNATs(ip, rules);
    }
  }

  /** Keys that stay keep their tunnel. */
  ghost predicate KeptTunnels(before: map<string, Tunnel>, after: map<string, Tunnel>) {
    forall k :: k in before && k in after ==> after[k] == before[k]
  }

  class Reconciler {
    const tunnels: TunnelMap
    const remoteTunnels: TunnelMap
    const table: Table

    constructor (table: Table)
      ensures Valid() && this.table == table && fresh(tunnels) && fresh(remoteTunnels) && NoOrphans()
    {
      this.table := table;
      tunnels := new TunnelMap(false);
      remoteTunnels := new TunnelMap(true);
    }

    ghost predicate Valid()
      reads this, tunnels, tunnels.made, remoteTunnels, remoteTunnels.made
    {
      && !tunnels.remote && remoteTunnels.remote && tunnels.made !! remoteTunnels.made
      && tunnels.Valid() && remoteTunnels.Valid()
    }

    /** No tunnel runs without an entry in its map. */
    ghost predicate NoOrphans()
      reads this, tunnels, remoteTunnels
    {
      tunnels.orphans == {} && remoteTunnels.orphans == {}
    }

    /** Exactly the expected tunnels run, and the two chains are exactly what the rules say. */
    ghost predicate Applied(spec: ForwarderSpec)
      reads this, tunnels, remoteTunnels, table
    {
      && tunnels.tunnels.Keys == ExpectedTunnels(spec)
      && remoteTunnels.tunnels.Keys == ExpectedRemoteTunnels(spec)
      && table.chains == Replaced(table.chains, ExpectedRules(spec))
    }

    /** Nothing that is expected is missing. */
    ghost predicate Present(spec: ForwarderSpec)
      reads this, tunnels, remoteTunnels, table
    {
      && ExpectedTunnels(spec) <= tunnels.tunnels.Keys
      && ExpectedRemoteTunnels(spec) <= remoteTunnels.tunnels.Keys
      && Contains(table.chains, ExpectedRules(spec))
    }

    lemma AppliedIsPresent(spec: ForwarderSpec)
      requires Applied(spec)
      ensures Present(spec)
    {
      ReplacedContains(table.chains, ExpectedRules(spec));
    }

    /** Nothing is missing if and only if each egress rule has its tunnel, its DNAT rule and its SNAT rule, and each ingress
        rule its remote tunnel. */
    lemma PresentMeans(spec: ForwarderSpec)
      ensures Present(spec) <==>
              && (forall r :: r in spec.egressRules ==>
                    TunnelKey(spec.forwarderIP, r.relayPort, r.gatewayIP, "2022", r.destinationIP, r.destinationPort) in tunnels.tunnels)
              && (forall r :: r in spec.ingressRules ==>
                    TunnelKey(r.destinationIP, r.destinationPort, r.gatewayIP, "2022", r.gatewayIP, r.relayPort) in remoteTunnels.tunnels)
              && (forall r :: r in spec.egressRules ==>
                    && HasRule(table.chains, "PREROUTING",
                               DNATRuleSpec(spec.forwarderIP, r.sourceIP, r.targetPort, spec.forwarderIP, r.relayPort))
                    && HasRule(table.chains, "POSTROUTING", SNATRuleSpec(r.destinationIP, spec.forwarderIP, r.relayPort)))
    {
      hide TunnelKey, DNATRuleSpec, SNATRuleSpec, HasRule, Contains;
      RulesPresent(table.chains, spec);
      hide ExpectedRules;
      assert ExpectedTunnels(spec) <= tunnels.tunnels.Keys <==>
             forall r :: r in spec.egressRules ==> SSHTunnelKey(spec.forwarderIP, r) in tunnels.tunnels;
      assert ExpectedRemoteTunnels(spec) <= remoteTunnels.tunnels.Keys <==>
             forall r :: r in spec.ingressRules ==> RemoteTunnelKey(r) in remoteTunnels.tunnels;
    }

    /** updateSSHTunnel and updateRemoteSSHTunnel on the two maps */
    method UpdateTunnels(st: set<string>, rt: set<string>)
      requires Valid() && (forall k :: k in st ==> HasSixParts(k)) && (forall k :: k in rt ==> HasSixParts(k))
      modifies tunnels, tunnels.made, remoteTunnels, remoteTunnels.made
      ensures Valid()
      ensures fresh(tunnels.made - old(tunnels.made)) && fresh(remoteTunnels.made - old(remoteTunnels.made))
      ensures old(tunnels.made) <= tunnels.made && old(remoteTunnels.made) <= remoteTunnels.made
      ensures tunnels.orphans == old(tunnels.orphans) && remoteTunnels.orphans == old(remoteTunnels.orphans)
      ensures tunnels.tunnels.Keys == st && remoteTunnels.tunnels.Keys == rt
      ensures forall k :: k in st && k in old(tunnels.tunnels) ==> tunnels.tunnels[k] == old(tunnels.tunnels)[k]
      ensures forall k :: k in rt && k in old(remoteTunnels.tunnels) ==> remoteTunnels.tunnels[k] == old(remoteTunnels.tunnels)[k]
    {
      hide HasSixParts, ToEndpoints;
      tunnels.Update(st);
      remoteTunnels.Update(rt);
    }

    method SyncRule(spec: ForwarderSpec) returns (ok: bool)
      requires Valid()
      modifies tunnels, tunnels.made, remoteTunnels, remoteTunnels.made, table`chains
      ensures Valid()
      ensures fresh(tunnels.made - old(tunnels.made)) && fresh(remoteTunnels.made - old(remoteTunnels.made))
      ensures old(tunnels.made) <= tunnels.made && old(remoteTunnels.made) <= remoteTunnels.made
      ensures tunnels.orphans == old(tunnels.orphans) && remoteTunnels.orphans == old(remoteTunnels.orphans)
      ensures tunnels.tunnels.Keys == ExpectedTunnels(spec)
      ensures remoteTunnels.tunnels.Keys == ExpectedRemoteTunnels(spec)
      ensures KeptTunnels(old(tunnels.tunnels), tunnels.tunnels)
      ensures KeptTunnels(old(remoteTunnels.tunnels), remoteTunnels.tunnels)
      ensures PartlyReplaced(old(table.chains), ExpectedRules(spec), table.chains)
      ensures ok ==> table.chains == Replaced(old(table.chains), ExpectedRules(spec)) && Applied(spec)
      ensures table.healthy ==> ok
    {
      hide HasSixParts, ToEndpoints, PartlyReplaced, ExpectedTunnels, ExpectedRemoteTunnels, ExpectedRules;
      var st := GetExpectedSSHTunnel(spec);
      var rt := GetExpectedRemoteSSHTunnel(spec);
      UpdateTunnels(st, rt);
      var it := GetExpectedIptablesRule(spec);
      ExpectedRulesHaveNoJumps(spec, table.chains.Keys + it.Keys);
      ok := table.ReplaceChains(it);
      ReplacedTwice(old(table.chains), ExpectedRules(spec));
    }

    method RuleSynced(spec: ForwarderSpec) returns (synced: bool)
      ensures synced ==> Present(spec)
      ensures table.healthy && Present(spec) ==> synced
    {
      var st := GetExpectedSSHTunnel(spec);
      var todo := st;
      while todo != {}
        invariant todo <= st && st - todo <= tunnels.tunnels.Keys
      {
        var k :| k in todo;
        if k !in tunnels.tunnels {
          return false;
        }
        todo := todo - {k};
      }
      var rt := GetExpectedRemoteSSHTunnel(spec);
      todo := rt;
      while todo != {}
        invariant todo <= rt && rt - todo <= remoteTunnels.tunnels.Keys
      {
        var k :| k in todo;
        if k !in remoteTunnels.tunnels {
          return false;
        }
        todo := todo - {k};
      }
      var it := GetExpectedIptablesRule(spec);
      synced := table.CheckChainsExist(it);
    }

    /** Reconcile's branch for an object that needs a sync, with the copy just read */
    method ApplyPass(store: Store<ForwarderSpec>, fwd: Local<ForwarderSpec>) returns (ok: bool)
      requires Valid() && NeedSync(fwd.obj.status) && fwd.obj == store.obj
      modifies tunnels, tunnels.made, remoteTunnels, remoteTunnels.made, table`chains, store`obj, fwd
      ensures Valid()
      ensures fresh(tunnels.made - old(tunnels.made)) && fresh(remoteTunnels.made - old(remoteTunnels.made))
      ensures old(tunnels.made) <= tunnels.made && old(remoteTunnels.made) <= remoteTunnels.made
      ensures tunnels.orphans == old(tunnels.orphans) && remoteTunnels.orphans == old(remoteTunnels.orphans)
      ensures KeptTunnels(old(tunnels.tunnels), tunnels.tunnels) && KeptTunnels(old(remoteTunnels.tunnels), remoteTunnels.tunnels)
      ensures PartlyReplaced(old(table.chains), ExpectedRules(old(store.obj).spec), table.chains)
      ensures store.obj.spec == old(store.obj).spec
      ensures || (!ok && (store.obj == old(store.obj) || store.obj.status == Syncing(old(store.obj).status)))
              || (ok && store.obj.status == SyncedStatus(old(store.obj).status) && Applied(old(store.obj).spec))
      ensures store.reachable && table.healthy ==>
                && Applied(old(store.obj).spec)
                && table.chains == Replaced(old(table.chains), ExpectedRules(old(store.obj).spec))
                && (ok <==> old(store.obj).status.syncing == IsTrue)
                && store.obj.status == (if ok then SyncedStatus(old(store.obj).status) else Syncing(old(store.obj).status))
    {
      hide ExpectedTunnels, ExpectedRemoteTunnels, ExpectedRules, Replaced, PartlyReplaced;
      PartlyByNothing(table.chains, ExpectedRules(store.obj.spec));
      ok := fwd.SetSyncing(store);
      if !ok {
        return;
      }
      ok := SyncRule(fwd.obj.spec);
      if !ok {
        return;
      }
      ok := fwd.SetSynced(store);
    }

    /** Its branch for an object that is marked as synced */
    method CheckPass(store: Store<ForwarderSpec>, fwd: Local<ForwarderSpec>) returns (ok: bool)
      requires Valid() && NeedCheckSync(fwd.obj.status) && fwd.obj == store.obj
      modifies store`obj, fwd
      ensures store.obj.spec == old(store.obj).spec
      ensures store.obj == old(store.obj) || (ok && store.obj.status == Syncing(old(store.obj).status))
      ensures store.reachable && table.healthy ==>
                ok && store.obj.status ==
                      (if old(Present(store.obj.spec)) then old(store.obj).status else Syncing(old(store.obj).status))
    {
      hide ExpectedTunnels, ExpectedRemoteTunnels, ExpectedRules, Contains;
      ok := true;
      var synced := RuleSynced(fwd.obj.spec);
      if !synced {
        ok := fwd.SetSyncing(store);
      }
    }

    /** Reconcile for the forwarder's own object */
    method Reconcile(store: Store<ForwarderSpec>) returns (ok: bool)
      requires Valid()
      modifies tunnels, tunnels.made, remoteTunnels, remoteTunnels.made, table`chains, store`obj
      ensures Valid()
      ensures fresh(tunnels.made - old(tunnels.made)) && fresh(remoteTunnels.made - old(remoteTunnels.made))
      ensures old(tunnels.made) <= tunnels.made && old(remoteTunnels.made) <= remoteTunnels.made
      ensures tunnels.orphans == old(tunnels.orphans) && remoteTunnels.orphans == old(remoteTunnels.orphans)
      ensures KeptTunnels(old(tunnels.tunnels), tunnels.tunnels) && KeptTunnels(old(remoteTunnels.tunnels), remoteTunnels.tunnels)
      // whatever fails: the object is left alone, marked as syncing, or marked as synced with its spec applied
      ensures store.obj.spec == old(store.obj).spec
      ensures || store.obj == old(store.obj)
              || (store.obj.status == Syncing(old(store.obj).status)
                  && (NeedSync(old(store.obj).status) || (NeedCheckSync(old(store.obj).status) && ok)))
              || (store.obj.status == SyncedStatus(old(store.obj).status)
                  && NeedSync(old(store.obj).status) && ok && Applied(old(store.obj).spec))
      // whatever fails: a pass that reports success has applied and is recorded, and nothing is applied unasked
      ensures ok && NeedSync(old(store.obj).status) ==>
                Applied(old(store.obj).spec) && store.obj.status == SyncedStatus(old(store.obj).status)
      ensures PartlyReplaced(old(table.chains), ExpectedRules(old(store.obj).spec), table.chains)
      ensures !NeedSync(old(store.obj).status) ==>
                && tunnels.tunnels == old(tunnels.tunnels) && remoteTunnels.tunnels == old(remoteTunnels.tunnels)
                && table.chains == old(table.chains)
      // a pass that applies
      ensures store.reachable && table.healthy && NeedSync(old(store.obj).status) ==>
                && Applied(old(store.obj).spec) && store.obj.spec == old(store.obj).spec
                && table.chains == Replaced(old(table.chains), ExpectedRules(old(store.obj).spec))
                && (ok <==> old(store.obj).status.syncing == IsTrue)
                && store.obj.status == (if ok then SyncedStatus(old(store.obj).status) else Syncing(old(store.obj).status))
      // a pass that checks
      ensures store.reachable && table.healthy && NeedCheckSync(old(store.obj).status) ==>
                && ok && tunnels.tunnels == old(tunnels.tunnels) && remoteTunnels.tunnels == old(remoteTunnels.tunnels)
                && table.chains == old(table.chains) && store.obj.spec == old(store.obj).spec
                && store.obj.status ==
                   (if old(Present(store.obj.spec)) then old(store.obj).status else Syncing(old(store.obj).status))
    {
      hide ExpectedTunnels, ExpectedRemoteTunnels, ExpectedRules, Replaced, PartlyReplaced, Contains;
      PartlyByNothing(table.chains, ExpectedRules(store.obj.spec));
      var c;
      c, ok := store.Get();
      if !ok {
        return;
      }
      var fwd := new Local(c);
      if NeedSync(fwd.obj.status) {
        ok := ApplyPass(store, fwd);
      } else if NeedCheckSync(fwd.obj.status) {
        ok := CheckPass(store, fwd);
      }
    }

    /** Two passes without interference: whatever expected rule or tunnel entry was lost, the check notices, and the
        exact chains and tunnel keys come back. What runs then are the expected tunnels and those whose entry was
        lost while they ran: these are never cancelled. */
    method DriftHeals(store: Store<ForwarderSpec>)
      requires Valid() && store.reachable && table.healthy && NeedCheckSync(store.obj.status)
      requires !Present(store.obj.spec)
      modifies tunnels, tunnels.made, remoteTunnels, remoteTunnels.made, table`chains, store`obj
      ensures Valid() && NeedCheckSync(store.obj.status) && store.obj.spec == old(store.obj.spec)
      ensures store.obj.status == old(store.obj.status)
      ensures Applied(store.obj.spec) && Present(store.obj.spec)
      ensures forall t :: t in tunnels.made ==>
                (t.forwards == 1 && t.cancels == 0 <==> t in tunnels.tunnels.Values || t in old(tunnels.orphans))
      ensures forall t :: t in remoteTunnels.made ==>
                (t.remoteForwards == 1 && t.cancels == 0 <==> t in remoteTunnels.tunnels.Values || t in old(remoteTunnels.orphans))
      ensures old(tunnels.orphans) <= tunnels.made && old(remoteTunnels.orphans) <= remoteTunnels.made
      ensures table.chains == Replaced(old(table.chains), ExpectedRules(old(store.obj.spec)))
    {
      hide ExpectedTunnels, ExpectedRemoteTunnels, ExpectedRules, Replaced, PartlyReplaced, Contains, KeptTunnels, HasSixParts, ToEndpoints;
      var first := Reconcile(store);
      var second := Reconcile(store);
      AppliedIsPresent(store.obj.spec);
    }
  }
}
