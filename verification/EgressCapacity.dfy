// Exactly when the operator can hand out egress relay ports.
module EgressCapacity {
  import opened Text
  import opened Api
  import opened PortPool
  import opened RuleGen
  import opened Operator

  ghost predicate UsesPort(rules: seq<ForwarderRule>, p: string) {
    exists r :: r in rules && r.relayPort == p
  }

  /** The distinct relay ports of the pool's range that the rules use */
  ghost function PortsIn(rules: seq<ForwarderRule>): set<int> {
    set n | 2049 <= n <= 65536 && UsesPort(rules, Itoa(n))
  }

  /** The distinct (source IP, target port) keys of the rules */
  ghost function KeysIn(rules: seq<ForwarderRule>): set<string> {
    set r | r in rules :: RuleKey(r)
  }

  ghost predicate NoColonInPorts(rules: seq<ForwarderRule>) {
    forall r :: r in rules ==> ':' !in r.targetPort
  }

  lemma {:induction false} EgressPoolMeaning(rules: seq<ForwarderRule>)
    ensures forall p :: p in UsedPortsForEgress(rules) <==> UsesPort(rules, p)
    ensures NoColonInPorts(rules) ==> forall p :: p in UsedPortsForEgress(rules) ==> ':' !in UsedPortsForEgress(rules)[p]
  {
    if rules != [] {
      var init, last := rules[..|rules| - 1], rules[|rules| - 1];
      EgressPoolMeaning(init);
      assert rules == init + [last];
      forall p ensures UsesPort(rules, p) <==> UsesPort(init, p) || p == last.relayPort {
        if p == last.relayPort {
          assert last in rules;
        }
        if UsesPort(init, p) {
          var r :| r in init && r.relayPort == p;
          assert r in rules;
        }
      }
    }
  }

  /** The i-th rule is the last one at this port, and it is for this target port. */
  ghost predicate LastAt(rules: seq<ForwarderRule>, i: int, p: string, targetPort: string) {
    0 <= i < |rules| && rules[i].relayPort == p && rules[i].targetPort == targetPort
    && forall j :: i < j < |rules| ==> rules[j].relayPort != p
  }

  ghost predicate LastAtPort(rules: seq<ForwarderRule>, p: string, targetPort: string) {
    exists i :: LastAt(rules, i, p, targetPort)
  }

  /** The egress pool read back from a forwarder maps a port to the bare target port of the last rule stored at it. */
  lemma {:induction false} EgressPoolIsLastStored(rules: seq<ForwarderRule>, p: string, targetPort: string)
    ensures p in UsedPortsForEgress(rules) && UsedPortsForEgress(rules)[p] == targetPort <==> LastAtPort(rules, p, targetPort)
  {
    if rules != [] {
      var n := |rules| - 1;
      EgressPoolIsLastStored(rules[..n], p, targetPort);
      if rules[n].relayPort != p {
        LastAtPortOfInit(rules, p, targetPort);
      } else {
        assert rules[n].targetPort == targetPort ==> LastAt(rules, n, p, targetPort);
      }
    }
  }

  lemma LastAtOfInit(rules: seq<ForwarderRule>, i: int, p: string, targetPort: string)
    requires rules != [] && rules[|rules| - 1].relayPort != p
    ensures LastAt(rules, i, p, targetPort) <==> LastAt(rules[..|rules| - 1], i, p, targetPort)
  {
    var n := |rules| - 1;
    var init := rules[..n];
    if LastAt(init, i, p, targetPort) {
      forall j | i < j < |rules| ensures rules[j].relayPort != p {
        assert j < n ==> rules[j] == init[j];
      }
    }
  }

  lemma LastAtPortOfInit(rules: seq<ForwarderRule>, p: string, targetPort: string)
    requires rules != [] && rules[|rules| - 1].relayPort != p
    ensures LastAtPort(rules, p, targetPort) <==> LastAtPort(rules[..|rules| - 1], p, targetPort)
  {
    var init := rules[..|rules| - 1];
    if i :| LastAt(rules, i, p, targetPort) {
      LastAtOfInit(rules, i, p, targetPort);
    }
    if i :| LastAt(init, i, p, targetPort) {
      LastAtOfInit(rules, i, p, targetPort);
    }
  }

  /** Egress pools rebuilt from rules hold no key: lookups never find a port of an earlier reconcile. */
  lemma EgressPoolHoldsNoKey(rules: seq<ForwarderRule>, key: string)
    requires NoColonInPorts(rules) && IsKey(key)
    ensures Functional(UsedPortsForEgress(rules)) && !Held(UsedPortsForEgress(rules), key)
    ensures InRange(UsedPortsForEgress(rules)) == PortsIn(rules)
  {
    EgressPoolMeaning(rules);
  }

  ghost function EgressPools(rules: seq<ForwarderRule>): Pools {
    map["" := UsedPortsForEgress(rules)]
  }

  lemma KeysAreNew(ts: seq<ForwarderRule>, before: seq<ForwarderRule>)
    requires NoColonInPorts(before)
    ensures AllFunctional(EgressPools(before))
    ensures InRange(PoolOf(EgressPools(before), "")) == PortsIn(before)
    ensures NewKeys(Demands(Egress, ts), EgressPools(before), "") == KeysIn(ts)
    ensures forall d :: d in Demands(Egress, ts) ==> d.pool == "" && !Held(PoolOf(EgressPools(before), ""), d.key)
  {
    var ds := Demands(Egress, ts);
    EgressPoolHoldsNoKey(before, ":");
    forall t | t in ts ensures Demand("", RuleKey(t)) in ds && !Held(UsedPortsForEgress(before), RuleKey(t)) {
      EgressPoolHoldsNoKey(before, RuleKey(t));
      var i :| 0 <= i < |ts| && ts[i] == t;
      assert ds[i] == DemandOf(Egress, t);
    }
    forall d | d in ds ensures exists t :: t in ts && d == Demand("", RuleKey(t)) {
      var i :| 0 <= i < |ds| && ds[i] == d;
      assert d == DemandOf(Egress, ts[i]);
    }
  }

  lemma FitsAlone(ds: seq<Demand>, pools: Pools)
    requires forall d :: d in ds ==> d.pool == ""
    ensures Fits(ds, pools) <==> |NewKeys(ds, pools, "")| + |InRange(PoolOf(pools, ""))| <= 63488
  {
    forall g | g != "" ensures |NewKeys(ds, pools, g)| + |InRange(PoolOf(pools, g))| <= 63488 {
      assert NewKeys(ds, pools, g) == {};
      FreePortExists(PoolOf(pools, g));
    }
  }

  /** Exact egress capacity: generation succeeds if and only if every source address is valid and the
      distinct keys asked for, together with the distinct in-range ports of the old rules, number at most 63488. */
  lemma Succeeds(es: ExternalService, view: ClusterView, before: seq<ForwarderRule>)
    requires NoColonInPorts(before)
    ensures EgressRules(es, view, UsedPortsForEgress(before)).Some? <==>
            && ValidSources(es.sources)
            && |KeysIn(EgressTemplates(es, view, es.sources))| + |PortsIn(before)| <= 63488
  {
    if ValidSources(es.sources) {
      var ts := EgressTemplates(es, view, es.sources);
      KeysAreNew(ts, before);
      FitsAlone(Demands(Egress, ts), EgressPools(before));
      Capacity(Demands(Egress, ts), EgressPools(before));
    }
  }

  /** The rules that come out: one per template in order, sharing a relay port exactly when they share
      the key, on ports of the range that no old rule uses. */
  lemma NewPortsAreFresh(es: ExternalService, view: ClusterView, before: seq<ForwarderRule>, i: nat, j: nat)
    requires NoColonInPorts(before) && EgressRules(es, view, UsedPortsForEgress(before)).Some?
    requires var n := |EgressTemplates(es, view, es.sources)|; i < n && j < n
    ensures var ts := EgressTemplates(es, view, es.sources);
            var rules := EgressRules(es, view, UsedPortsForEgress(before)).value;
            && |rules| == |ts|
            && rules[i] == ts[i].(relayPort := rules[i].relayPort)
            && (rules[i].relayPort == rules[j].relayPort <==> RuleKey(rules[i]) == RuleKey(rules[j]))
            && IsPort(rules[i].relayPort) && !UsesPort(before, rules[i].relayPort)
  {
    hide ValidSources, EgressTemplates;
    GeneratedPortsAreFresh(EgressTemplates(es, view, es.sources), before, i, j);
  }

  lemma GeneratedPortsAreFresh(ts: seq<ForwarderRule>, before: seq<ForwarderRule>, i: nat, j: nat)
    requires NoColonInPorts(before) && Generate(Egress, ts, EgressPools(before)).Some? && i < |ts| && j < |ts|
    ensures var rules := Generate(Egress, ts, EgressPools(before)).value;
            && |rules| == |ts|
            && rules[i] == ts[i].(relayPort := rules[i].relayPort)
            && (rules[i].relayPort == rules[j].relayPort <==> RuleKey(rules[i]) == RuleKey(rules[j]))
            && IsPort(rules[i].relayPort) && !UsesPort(before, rules[i].relayPort)
  {
    hide Serves, AllFunctional;
    var ds := Demands(Egress, ts);
    KeysAreNew(ts, before);
    SamePortIffSameKey(ds, EgressPools(before), i, j);
    AssignServes(ds, EgressPools(before));
    assert ds[i] in ds;
    FreshPort(ds, EgressPools(before), i);
    EgressPoolMeaning(before);
  }

  lemma FreshPort(ds: seq<Demand>, pools: Pools, i: nat)
    requires Assign(ds, pools).Some? && Serves(ds, pools, Assign(ds, pools).value) && i < |ds|
    requires !Held(PoolOf(pools, ds[i].pool), ds[i].key)
    ensures var port := Assign(ds, pools).value.ports[i]; IsPort(port) && port !in PoolOf(pools, ds[i].pool)
  {
    var a := Assign(ds, pools).value;
    assert a.ports[i] in PoolOf(a.pools, ds[i].pool);
  }

  /** As many distinct ports come out as distinct keys went in. */
  lemma AsManyPortsAsKeys(es: ExternalService, view: ClusterView, before: seq<ForwarderRule>)
    requires NoColonInPorts(before) && EgressRules(es, view, UsedPortsForEgress(before)).Some?
    ensures var rules := EgressRules(es, view, UsedPortsForEgress(before)).value;
            |PortsIn(rules)| == |KeysIn(EgressTemplates(es, view, es.sources))|
  {
    hide ValidSources, EgressTemplates;
    GeneratedPortCount(EgressTemplates(es, view, es.sources), before);
  }

  lemma GeneratedPortCount(ts: seq<ForwarderRule>, before: seq<ForwarderRule>)
    requires NoColonInPorts(before) && Generate(Egress, ts, EgressPools(before)).Some?
    ensures |PortsIn(Generate(Egress, ts, EgressPools(before)).value)| == |KeysIn(ts)|
  {
    hide AllFunctional, Serves, InRange;
    var ds := Demands(Egress, ts);
    var pools := EgressPools(before);
    KeysAreNew(ts, before);
    AssignServes(ds, pools);
    AssignCount(ds, pools, "");
    var a := Assign(ds, pools).value;
    var rules := Fill(ts, a.ports);
    NewPortsAreTheDifference(ts, pools, a, rules);
    var all, was := InRange(PoolOf(a.pools, "")), InRange(PoolOf(pools, ""));
    assert |all| == |was| + |PortsIn(rules)|;
  }

  lemma NewPortsAreTheDifference(ts: seq<ForwarderRule>, pools: Pools, a: Assignment, rules: seq<ForwarderRule>)
    requires var ds := Demands(Egress, ts);
             Serves(ds, pools, a) && forall d :: d in ds ==> !Held(PoolOf(pools, ""), d.key)
    requires rules == Fill(ts, a.ports)
    ensures InRange(PoolOf(a.pools, "")) == InRange(PoolOf(pools, "")) + PortsIn(rules)
    ensures InRange(PoolOf(pools, "")) !! PortsIn(rules)
  {
    var ds := Demands(Egress, ts);
    forall i | 0 <= i < |rules|
      ensures rules[i].relayPort in PoolOf(a.pools, "") && rules[i].relayPort !in PoolOf(pools, "")
    {
      assert ds[i] == DemandOf(Egress, ts[i]) && ds[i] in ds;
      assert a.ports[i] in PoolOf(a.pools, ds[i].pool);
    }
    forall n | 2049 <= n <= 65536 && Itoa(n) in PoolOf(a.pools, "") && Itoa(n) !in PoolOf(pools, "")
      ensures UsesPort(rules, Itoa(n))
    {
      var key := PoolOf(a.pools, "")[Itoa(n)];
      assert Demand("", key) in ds;
      var i :| 0 <= i < |ds| && ds[i] == Demand("", key);
      assert a.ports[i] in PoolOf(a.pools, ds[i].pool);
      assert Functional(PoolOf(a.pools, ""));
      assert rules[i].relayPort == Itoa(n);
    }
  }

  /** An ExternalService whose egress rules were generated can have them generated again, and so over and
      over, if and only if it asks for at most 31744 distinct keys: half the pool, because the ports of one
      reconcile are not found again by the next. */
  lemma RepeatsIff(es: ExternalService, view: ClusterView, before: seq<ForwarderRule>)
    requires NoColonInPorts(before) && EgressRules(es, view, UsedPortsForEgress(before)).Some?
    requires forall p :: p in es.ports ==> ':' !in p.targetPort
    ensures var rules := EgressRules(es, view, UsedPortsForEgress(before)).value;
            && NoColonInPorts(rules)
            && (EgressRules(es, view, UsedPortsForEgress(rules)).Some? <==>
                |KeysIn(EgressTemplates(es, view, es.sources))| <= 31744)
  {
    var rules := EgressRules(es, view, UsedPortsForEgress(before)).value;
    AsManyPortsAsKeys(es, view, before);
    var ts := EgressTemplates(es, view, es.sources);
    forall r | r in rules ensures ':' !in r.targetPort {
      var i :| 0 <= i < |rules| && rules[i] == r;
      assert es.sources[..|es.sources|] == es.sources;
      EgressTemplatesMeaning(es, view, |es.sources|, ts[i]);
    }
    Succeeds(es, view, rules);
  }
}
