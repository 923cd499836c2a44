// The gateway agent: two chains per gateway in one shared nat table (pkg/gateway/reconciler.go).
module GatewayAgent {
  import opened Text
  import opened Address
  import opened Api
  import opened Handshake
  import opened NatTable
  import opened AgentStatus

  function PreChain(ip: string): string
    requires GetHexIP(ip).Some?
  {
    "pre" + GetHexIP(ip).value
  }

  function PostChain(ip: string): string
    requires GetHexIP(ip).Some?
  {
    "pst" + GetHexIP(ip).value
  }

  /** Chain names of distinct gateways are distinct from each other and from the built-in chains. */
  lemma ChainNamesDistinct(s: string, t: string)
    requires GetHexIP(s).Some? && GetHexIP(t).Some?
    ensures PreChain(s) == PreChain(t) <==> s == t
    ensures PostChain(s) == PostChain(t) <==> s == t
    ensures PreChain(s) != PostChain(t)
    ensures PreChain(s) != PREROUTING && PreChain(s) != POSTROUTING && PostChain(s) != PREROUTING && PostChain(s) != POSTROUTING
  {
    HexIPInjective(s, t);
    hide GetHexIP;
    assert PreChain(s)[3..] == GetHexIP(s).value && PreChain(t)[3..] == GetHexIP(t).value;
    assert PostChain(s)[3..] == GetHexIP(s).value && PostChain(t)[3..] == GetHexIP(t).value;
    assert PreChain(s)[1] == 'r' && PostChain(t)[1] == 's' && PostChain(s)[0] == 'p';
    assert PREROUTING[0] == 'P' && POSTROUTING[0] == 'P';
  }

  function IngressDNAT(gatewayIP: string, r: GatewayRule): RuleSpec {
    DNATRuleSpec(gatewayIP, r.sourceIP, r.targetPort, gatewayIP, r.relayPort)
  }

  function IngressSNAT(gatewayIP: string, r: GatewayRule): RuleSpec {
    SNATRuleSpec(r.destinationIP, gatewayIP, r.relayPort)
  }

  function PreRules(spec: GatewaySpec): seq<RuleSpec> {
    seq(|spec.ingressRules|, i requires 0 <= i < |spec.ingressRules| => IngressDNAT(spec.gatewayIP, spec.ingressRules[i]))
  }

  function PostRules(spec: GatewaySpec): seq<RuleSpec> {
    seq(|spec.ingressRules|, i requires 0 <= i < |spec.ingressRules| => IngressSNAT(spec.gatewayIP, spec.ingressRules[i]))
  }

  function ExpectedChains(spec: GatewaySpec): Chains
    requires GetHexIP(spec.gatewayIP).Some?
  {
    map[PreChain(spec.gatewayIP) := PreRules(spec), PostChain(spec.gatewayIP) := PostRules(spec)]
  }

  function ExpectedJumps(ip: string): Chains
    requires GetHexIP(ip).Some?
  {
    map[PREROUTING := [JumpSpec(PreChain(ip))], POSTROUTING := [JumpSpec(PostChain(ip))]]
  }

  method GetExpectedIptablesRule(spec: GatewaySpec) returns (jumps: Chains, chains: Chains, ok: bool)
    ensures ok <==> GetHexIP(spec.gatewayIP).Some?
    ensures ok ==> jumps == ExpectedJumps(spec.gatewayIP) && chains == ExpectedChains(spec)
  {
    hide GetHexIP;
    jumps, chains := map[], map[];
    if GetHexIP(spec.gatewayIP).None? {
      return jumps, chains, false;
    }
    ChainNamesDistinct(spec.gatewayIP, spec.gatewayIP);
    var pre, post := PreChain(spec.gatewayIP), PostChain(spec.gatewayIP);
    jumps := map[PREROUTING := [JumpSpec(pre)], POSTROUTING := [JumpSpec(post)]];
    chains := map[pre := [], post := []];
    for i := 0 to |spec.ingressRules|
      invariant chains.Keys == {pre, post}
      invariant chains[pre] == PreRules(spec)[..i] && chains[post] == PostRules(spec)[..i]
    {
      var r := spec.ingressRules[i];
      chains := chains[pre := chains[pre] + [IngressDNAT(spec.gatewayIP, r)]];
      chains := chains[post := chains[post] + [IngressSNAT(spec.gatewayIP, r)]];
    }
    assert PreRules(spec)[..|spec.ingressRules|] == PreRules(spec);
    assert PostRules(spec)[..|spec.ingressRules|] == PostRules(spec);
    ok := true;
  }

  /** A check of the chains and the jumps finds everything if and only if each ingress rule has its DNAT rule and its SNAT rule
      in the gateway's own chains, and both chains are jumped to. */
  lemma PresentMeans(chains: Chains, spec: GatewaySpec, hex: string)
    requires GetHexIP(spec.gatewayIP) == Some(hex)
    ensures Contains(chains, ExpectedChains(spec)) && Contains(chains, ExpectedJumps(spec.gatewayIP)) <==>
            && (forall r :: r in spec.ingressRules ==>
                  && "pre" + hex in chains && "pst" + hex in chains
                  && DNATRuleSpec(spec.gatewayIP, r.sourceIP, r.targetPort, spec.gatewayIP, r.relayPort) in chains["pre" + hex]
                  && SNATRuleSpec(r.destinationIP, spec.gatewayIP, r.relayPort) in chains["pst" + hex])
            && "PREROUTING" in chains && ["-j", "pre" + hex] in chains["PREROUTING"]
            && "POSTROUTING" in chains && ["-j", "pst" + hex] in chains["POSTROUTING"]
  {
    hide GetHexIP, DNATRuleSpec, SNATRuleSpec, PreRules, PostRules;
    ChainNamesDistinct(spec.gatewayIP, spec.gatewayIP);
    assert PREROUTING[1] != POSTROUTING[1];
    ChainsPresent(chains, spec, "pre" + hex, "pst" + hex);
    JumpsPresent(chains, "pre" + hex, "pst" + hex);
    hide Contains;
  }

  lemma JumpsPresent(chains: Chains, pre: string, post: string)
    ensures Contains(chains, map[PREROUTING := [JumpSpec(pre)], POSTROUTING := [JumpSpec(post)]]) <==>
            HasRule(chains, "PREROUTING", ["-j", pre]) && HasRule(chains, "POSTROUTING", ["-j", post])
  {
    assert PREROUTING[1] != POSTROUTING[1];
    ContainsTwo(chains, PREROUTING, [JumpSpec(pre)], POSTROUTING, [JumpSpec(post)]);
    hide Contains, HasRule;
  }

  lemma ChainsPresent(chains: Chains, spec: GatewaySpec, pre: string, post: string)
    requires pre != post
    ensures Contains(chains, map[pre := PreRules(spec), post := PostRules(spec)]) <==>
            forall r :: r in spec.ingressRules ==>
              && HasRule(chains, pre, IngressDNAT(spec.gatewayIP, r)) && HasRule(chains, post, IngressSNAT(spec.gatewayIP, r))
  {
    hide IngressDNAT, IngressSNAT, HasRule, Contains;
    ContainsTwo(chains, pre, PreRules(spec), post, PostRules(spec));
    var rules, ip := spec.ingressRules, spec.gatewayIP;
    if forall r :: r in rules ==> HasRule(chains, pre, IngressDNAT(ip, r)) && HasRule(chains, post, IngressSNAT(ip, r)) {
      assert forall i :: 0 <= i < |rules| ==> rules[i] in rules;
    } else {
      var r :| r in rules && !(HasRule(chains, pre, IngressDNAT(ip, r)) && HasRule(chains, post, IngressSNAT(ip, r)));
      var i :| 0 <= i < |rules| && rules[i] == r;
      assert PreRules(spec)[i] == IngressDNAT(ip, r) && PostRules(spec)[i] == IngressSNAT(ip, r);
      assert PreRules(spec)[i] in PreRules(spec) && PostRules(spec)[i] in PostRules(spec);
    }
  }

  // ----- what applying does to the table -----

  ghost predicate HasBuiltins(chains: Chains) {
    PREROUTING in chains && POSTROUTING in chains
  }

  /** A table that nobody has written to */
  const BUILTIN_CHAINS: Chains := map[PREROUTING := [], POSTROUTING := []]

  function AfterApply(chains: Chains, spec: GatewaySpec): Chains
    requires HasBuiltins(chains) && GetHexIP(spec.gatewayIP).Some?
  {
    Appended(Replaced(chains, ExpectedChains(spec)), ExpectedJumps(spec.gatewayIP), {PREROUTING, POSTROUTING})
  }

  /** An apply that stops anywhere: while the own chains are replaced, or while the jumps are added. */
  ghost predicate MaybeApplied(before: Chains, spec: GatewaySpec, after: Chains)
    requires GetHexIP(spec.gatewayIP).Some?
  {
    && HasBuiltins(before)
    && (|| PartlyReplaced(before, ExpectedChains(spec), after)
        || PartlyAppended(Replaced(before, ExpectedChains(spec)), ExpectedJumps(spec.gatewayIP), after))
  }

  /** At most the own chains changed, and a built-in chain may have gained the own jump. */
  ghost predicate Confined(before: Chains, ip: string, after: Chains)
    requires GetHexIP(ip).Some?
  {
    && HasBuiltins(before) && before.Keys <= after.Keys
    && (forall c :: c in after && c !in {PreChain(ip), PostChain(ip), PREROUTING, POSTROUTING} ==>
          c in before && after[c] == before[c])
    && (after[PREROUTING] == before[PREROUTING] || after[PREROUTING] == AppendOne(before[PREROUTING], JumpSpec(PreChain(ip))))
    && (after[POSTROUTING] == before[POSTROUTING] || after[POSTROUTING] == AppendOne(before[POSTROUTING], JumpSpec(PostChain(ip))))
  }

  lemma PartialChains(before: Chains, spec: GatewaySpec, after: Chains)
    requires GetHexIP(spec.gatewayIP).Some? && HasBuiltins(before) && PartlyReplaced(before, ExpectedChains(spec), after)
    ensures Confined(before, spec.gatewayIP, after)
    ensures HasBuiltins(after) && after[PREROUTING] == before[PREROUTING] && after[POSTROUTING] == before[POSTROUTING]
  {
    hide GetHexIP, PreRules, PostRules, Partial;
    ChainNamesDistinct(spec.gatewayIP, spec.gatewayIP);
  }

  lemma PartialJumps(before: Chains, ip: string, after: Chains)
    requires GetHexIP(ip).Some? && HasBuiltins(before) && PartlyAppended(before, ExpectedJumps(ip), after)
    ensures Confined(before, ip, after) && after.Keys == before.Keys
    ensures forall c :: c in after && c !in {PREROUTING, POSTROUTING} ==> after[c] == before[c]
  {
    hide GetHexIP, Partial;
    OneRulePartial(before[PREROUTING], JumpSpec(PreChain(ip)), after[PREROUTING]);
    OneRulePartial(before[POSTROUTING], JumpSpec(PostChain(ip)), after[POSTROUTING]);
  }

  lemma ConfinedTwice(before: Chains, ip: string, middle: Chains, after: Chains)
    requires GetHexIP(ip).Some? && HasBuiltins(before) && Confined(before, ip, middle) && Confined(middle, ip, after)
    requires middle[PREROUTING] == before[PREROUTING] && middle[POSTROUTING] == before[POSTROUTING]
    ensures Confined(before, ip, after)
  {
    hide GetHexIP, PreChain, PostChain;
  }

  /** A complete apply is one of the ways an apply may end. */
  lemma CompleteIsMaybe(before: Chains, spec: GatewaySpec)
    requires HasBuiltins(before) && GetHexIP(spec.gatewayIP).Some?
    ensures MaybeApplied(before, spec, AfterApply(before, spec)) && HasBuiltins(AfterApply(before, spec))
  {
    hide GetHexIP, PreRules, PostRules, Partial, AppendAll, Dedup;
    assert ExpectedJumps(spec.gatewayIP).Keys == {PREROUTING, POSTROUTING};
    AppendedIsPartly(Replaced(before, ExpectedChains(spec)), ExpectedJumps(spec.gatewayIP), {PREROUTING, POSTROUTING});
  }

  lemma ReplacedIsPartly(before: Chains, expected: Chains)
    ensures PartlyReplaced(before, expected, Replaced(before, expected))
  {
    hide Partial;
    forall c | c in expected ensures Partial([], expected[c], Dedup(expected[c])) {
      PartialEnds([], expected[c]);
    }
  }

  /** Wherever an apply of one gateway stops, it touches nothing of the others, and a jump is only ever added to
      a chain that holds exactly the gateway's rules. */
  lemma ApplyIsConfined(before: Chains, spec: GatewaySpec, after: Chains)
    requires GetHexIP(spec.gatewayIP).Some? && MaybeApplied(before, spec, after)
    ensures HasBuiltins(after) && Confined(before, spec.gatewayIP, after)
    ensures after[PREROUTING] != before[PREROUTING] ==>
              PreChain(spec.gatewayIP) in after && after[PreChain(spec.gatewayIP)] == Dedup(PreRules(spec))
    ensures after[POSTROUTING] != before[POSTROUTING] ==>
              PostChain(spec.gatewayIP) in after && after[PostChain(spec.gatewayIP)] == Dedup(PostRules(spec))
    ensures PreChain(spec.gatewayIP) in after ==>
              var chain := after[PreChain(spec.gatewayIP)];
              || (PreChain(spec.gatewayIP) in before && chain == before[PreChain(spec.gatewayIP)])
              || Partial([], PreRules(spec), chain)
  {
    hide GetHexIP, PreRules, PostRules, Partial, Confined, PartlyAppended, Dedup;
    var ip, chains := spec.gatewayIP, ExpectedChains(spec);
    ChainNamesDistinct(ip, ip);
    if PartlyReplaced(before, chains, after) {
      PartialChains(before, spec, after);
    } else {
      var middle := Replaced(before, chains);
      ReplacedIsPartly(before, chains);
      PartialChains(before, spec, middle);
      PartialJumps(middle, ip, after);
      ConfinedTwice(before, ip, middle, after);
      assert middle[PreChain(ip)] == Dedup(PreRules(spec));
      assert middle[PostChain(ip)] == Dedup(PostRules(spec));
      assert after[PreChain(ip)] == middle[PreChain(ip)] && after[PostChain(ip)] == middle[PostChain(ip)];
      PartialEnds([], PreRules(spec));
      assert Dedup(PreRules(spec)) == AppendAll([], PreRules(spec)) by { DedupIs(PreRules(spec)); }
    }
  }

  /** Every jump of the table leads to a chain, wherever an apply stops: a gateway's own chains hold no jumps,
      and its jumps are added only once both chains are there. */
  lemma ApplyKeepsTargets(before: Chains, spec: GatewaySpec, after: Chains)
    requires GetHexIP(spec.gatewayIP).Some? && MaybeApplied(before, spec, after) && TargetsDefined(before)
    ensures TargetsDefined(after)
  {
    hide GetHexIP, PreRules, PostRules, PreChain, PostChain, Partial, AppendAll;
    var chains, ip := ExpectedChains(spec), spec.gatewayIP;
    if PartlyReplaced(before, chains, after) {
      ReplacedKeepsTargets(before, spec, after);
    } else {
      var middle := Replaced(before, chains);
      ReplacedIsPartly(before, chains);
      ReplacedKeepsTargets(before, spec, middle);
      assert PreChain(ip) in middle && PostChain(ip) in middle && HasBuiltins(middle);
      JumpsKeepTargets(middle, ip, after);
    }
  }

  lemma JumpsKeepTargets(middle: Chains, ip: string, after: Chains)
    requires GetHexIP(ip).Some? && HasBuiltins(middle) && PartlyAppended(middle, ExpectedJumps(ip), after)
    requires TargetsDefined(middle) && PreChain(ip) in middle && PostChain(ip) in middle
    ensures TargetsDefined(after)
  {
    hide GetHexIP, PreChain, PostChain, PartlyAppended;
    PartialJumps(middle, ip, after);
    forall c | c in after ensures forall r :: r in after[c] && IsJump(r) ==> r[1] in after {
      assert c in middle;
    }
  }

  lemma ReplacedKeepsTargets(before: Chains, spec: GatewaySpec, after: Chains)
    requires GetHexIP(spec.gatewayIP).Some? && TargetsDefined(before) && PartlyReplaced(before, ExpectedChains(spec), after)
    ensures TargetsDefined(after)
  {
    var chains := ExpectedChains(spec);
    forall c, r | c in chains && r in chains[c] ensures !IsJump(r) {}
    hide GetHexIP, ExpectedChains, AppendAll;
    forall c | c in after ensures forall r :: r in after[c] && IsJump(r) ==> r[1] in after {
      if c in chains && Partial([], chains[c], after[c]) {
        var n: nat :| n <= |chains[c]| && after[c] == AppendAll([], chains[c][..n]);
        AppendAllMeaning([], chains[c][..n]);
      } else {
        assert c in before && after[c] == before[c];
      }
    }
  }

  lemma DedupIs(rules: seq<RuleSpec>)
    ensures Dedup(rules) == AppendAll([], rules)
  {
  }

  lemma OneRulePartial(rules: seq<RuleSpec>, r: RuleSpec, now: seq<RuleSpec>)
    requires Partial(rules, [r], now)
    ensures now == rules || now == AppendOne(rules, r)
    ensures AppendAll(rules, [r]) == AppendOne(rules, r)
  {
    assert [r][..0] == [] && [r][..1] == [r];
    assert AppendAll(rules, []) == rules;
    assert AppendAll(rules, [r]) == AppendOne(AppendAll(rules, [r][..0]), r);
  }

  class Reconciler {
    const table: Table

    constructor (table: Table)
      ensures this.table == table
    {
      this.table := table;
    }

    method ApplyIptablesRules(spec: GatewaySpec) returns (ok: bool)
      requires HasBuiltins(table.chains)
      modifies table`chains
      ensures HasBuiltins(table.chains)
      ensures TargetsDefined(old(table.chains)) ==> TargetsDefined(table.chains)
      ensures GetHexIP(spec.gatewayIP).None? ==> !ok && table.chains == old(table.chains)
      ensures GetHexIP(spec.gatewayIP).Some? ==> MaybeApplied(old(table.chains), spec, table.chains)
      ensures ok ==> table.chains == AfterApply(old(table.chains), spec)
      ensures table.healthy && GetHexIP(spec.gatewayIP).Some? ==> ok
    {
      hide GetHexIP, TargetsDefined, PreRules, PostRules, PreChain, PostChain, PartlyReplaced, PartlyAppended;
      var jumps, chains;
      jumps, chains, ok := GetExpectedIptablesRule(spec);
      if !ok {
        return;
      }
      ghost var before := table.chains;
      ChainNamesDistinct(spec.gatewayIP, spec.gatewayIP);
      ChainsHaveNoJumps(spec, before.Keys + chains.Keys);
      ok := table.ReplaceChains(chains);
      PartialChains(before, spec, table.chains);
      if !ok {
        return;
      }
      assert jumps.Keys == {PREROUTING, POSTROUTING};
      ok := table.AddChains(jumps);
      ApplyIsConfined(before, spec, table.chains);
    }

    method CheckIptablesRulesApplied(spec: GatewaySpec) returns (found: bool)
      ensures found ==> GetHexIP(spec.gatewayIP).Some?
      ensures found ==> Contains(table.chains, ExpectedChains(spec)) && Contains(table.chains, ExpectedJumps(spec.gatewayIP))
      ensures table.healthy && GetHexIP(spec.gatewayIP).Some? ==>
                (found <==> Contains(table.chains, ExpectedChains(spec)) && Contains(table.chains, ExpectedJumps(spec.gatewayIP)))
    {
      hide GetHexIP, Contains;
      var jumps, chains, ok := GetExpectedIptablesRule(spec);
      if !ok {
        return false;
      }
      found := table.CheckChainsExist(chains);
      if found {
        found := table.CheckChainsExist(jumps);
      }
    }

    /** Reconcile for one gateway object; `sshd` is what the port check finds. */
    method Reconcile(store: Store<GatewaySpec>, sshd: bool) returns (ok: bool)
      requires HasBuiltins(table.chains)
      modifies table`chains, store`obj
      ensures HasBuiltins(table.chains)
      ensures TargetsDefined(old(table.chains)) ==> TargetsDefined(table.chains)
      // whatever fails: the object is left alone, marked as syncing, or marked as synced with its spec applied
      ensures store.obj.spec == old(store.obj).spec
      ensures || store.obj == old(store.obj)
              || (store.obj.status == Syncing(old(store.obj).status)
                  && (NeedSync(old(store.obj).status) || (NeedCheckSync(old(store.obj).status) && ok)))
              || (store.obj.status == SyncedStatus(old(store.obj).status) && NeedSync(old(store.obj).status) && ok)
      // whatever fails: a pass that reports success has applied and is recorded, and nothing is applied unasked
      ensures ok && NeedSync(old(store.obj).status) ==>
                && GetHexIP(old(store.obj).spec.gatewayIP).Some?
                && table.chains == AfterApply(old(table.chains), old(store.obj).spec)
                && store.obj.status == SyncedStatus(old(store.obj).status)
      ensures NeedSync(old(store.obj).status) && GetHexIP(old(store.obj).spec.gatewayIP).Some? ==>
                table.chains == old(table.chains) || MaybeApplied(old(table.chains), old(store.obj).spec, table.chains)
      ensures !NeedSync(old(store.obj).status) ==> table.chains == old(table.chains)
      ensures store.reachable && table.healthy && NeedSync(old(store.obj).status) && GetHexIP(old(store.obj).spec.gatewayIP).Some? ==>
                && table.chains == AfterApply(old(table.chains), old(store.obj).spec)
                && store.obj.spec == old(store.obj).spec
                && (ok <==> old(store.obj).status.syncing == IsTrue)
                && store.obj.status == (if ok then SyncedStatus(old(store.obj).status) else Syncing(old(store.obj).status))
      ensures NeedSync(old(store.obj).status) && GetHexIP(old(store.obj).spec.gatewayIP).None? ==>
                !ok && table.chains == old(table.chains)
      ensures store.reachable && table.healthy && NeedCheckSync(old(store.obj).status) && GetHexIP(old(store.obj).spec.gatewayIP).Some? ==>
                var spec := old(store.obj).spec;
                && ok && table.chains == old(table.chains) && store.obj.spec == spec
                && store.obj.status ==
                   (if sshd && Contains(table.chains, ExpectedChains(spec)) && Contains(table.chains, ExpectedJumps(spec.gatewayIP))
                    then old(store.obj).status else Syncing(old(store.obj).status))
    {
      hide GetHexIP, TargetsDefined, MaybeApplied, AfterApply, Contains;
      var c;
      c, ok := store.Get();
      if !ok {
        return;
      }
      var gw := new Local(c);
      if NeedSync(gw.obj.status) {
        ok := gw.SetSyncing(store);
        if !ok {
          return;
        }
        ok := ApplyIptablesRules(gw.obj.spec);
        if !ok {
          return;
        }
        ok := gw.SetSynced(store);
      } else if NeedCheckSync(gw.obj.status) {
        var synced := sshd;
        if synced {
          synced := CheckIptablesRulesApplied(gw.obj.spec);
        }
        if !synced {
          ok := gw.SetSyncing(store);
        }
      }
    }

    /** Two passes without interference: whatever rules of the gateway's chains or jumps were lost, or if sshd was found
        closed, the check notices, and the exact chains, both jumps and the synced status come back. */
    method DriftHeals(store: Store<GatewaySpec>, sshd: bool)
      requires HasBuiltins(table.chains) && store.reachable && table.healthy
      requires NeedCheckSync(store.obj.status) && GetHexIP(store.obj.spec.gatewayIP).Some?
      requires var spec := store.obj.spec;
               !(sshd && Contains(table.chains, ExpectedChains(spec)) && Contains(table.chains, ExpectedJumps(spec.gatewayIP)))
      modifies table`chains, store`obj
      ensures HasBuiltins(table.chains) && NeedCheckSync(store.obj.status)
      ensures store.obj.spec == old(store.obj.spec) && store.obj.status == old(store.obj.status)
      ensures table.chains == AfterApply(old(table.chains), old(store.obj.spec))
      ensures Holds(table.chains, store.obj.spec.gatewayIP, store.obj.spec)
    {
      hide GetHexIP, AfterApply, Contains, Holds, MaybeApplied, TargetsDefined;
      var first := Reconcile(store, sshd);
      var second := Reconcile(store, sshd);
      OwnGatewayApplied(old(table.chains), store.obj.spec);
    }
  }

  lemma ChainsHaveNoJumps(spec: GatewaySpec, cs: set<string>)
    requires GetHexIP(spec.gatewayIP).Some?
    ensures JumpsInto(ExpectedChains(spec), cs)
    ensures PreChain(spec.gatewayIP) in cs && PostChain(spec.gatewayIP) in cs ==> JumpsInto(ExpectedJumps(spec.gatewayIP), cs)
  {
    hide GetHexIP;
  }

  // ----- isolation over whole runs -----

  ghost predicate AtMostOnce(rules: seq<RuleSpec>, r: RuleSpec) {
    forall i, j :: 0 <= i < j < |rules| && rules[i] == r ==> rules[j] != r
  }

  /** Gateway `ip` has both its jumps, once each, and its two chains hold what `spec` says. */
  ghost predicate Holds(chains: Chains, ip: string, spec: GatewaySpec) {
    && GetHexIP(ip).Some? && HasBuiltins(chains) && spec.gatewayIP == ip
    && PreChain(ip) in chains && chains[PreChain(ip)] == Dedup(PreRules(spec))
    && PostChain(ip) in chains && chains[PostChain(ip)] == Dedup(PostRules(spec))
    && JumpSpec(PreChain(ip)) in chains[PREROUTING] && JumpSpec(PostChain(ip)) in chains[POSTROUTING]
  }

  ghost predicate AllHold(chains: Chains, last: map<string, GatewaySpec>) {
    forall ip :: ip in last ==> Holds(chains, ip, last[ip])
  }

  /** One attempt of the agent to apply a gateway, which succeeds or stops somewhere */
  datatype Attempt = Attempt(spec: GatewaySpec, ok: bool, after: Chains)

  ghost predicate LegalAttempt(before: Chains, a: Attempt) {
    && HasBuiltins(before) && GetHexIP(a.spec.gatewayIP).Some?
    && MaybeApplied(before, a.spec, a.after)
    && (a.ok ==> a.after == AfterApply(before, a.spec))
  }

  ghost predicate LegalAttempts(before: Chains, attempts: seq<Attempt>)
    decreases |attempts|
  {
    attempts == [] || (LegalAttempt(before, attempts[0]) && LegalAttempts(attempts[0].after, attempts[1..]))
  }

  function TableAfter(before: Chains, attempts: seq<Attempt>): Chains {
    if attempts == [] then before else attempts[|attempts| - 1].after
  }

  /** The gateways whose last attempt succeeded, with the rules it applied */
  function LastApplied(last: map<string, GatewaySpec>, attempts: seq<Attempt>): map<string, GatewaySpec>
    decreases |attempts|
  {
    if attempts == [] then last
    else
      var a := attempts[0];
      LastApplied(if a.ok then last[a.spec.gatewayIP := a.spec] else last - {a.spec.gatewayIP}, attempts[1..])
  }

  lemma OtherGatewayKept(before: Chains, ip: string, after: Chains, other: string, spec: GatewaySpec)
    requires GetHexIP(ip).Some? && Confined(before, ip, after) && other != ip && Holds(before, other, spec)
    ensures Holds(after, other, spec)
  {
    ChainNamesDistinct(ip, other);
    ChainNamesDistinct(other, ip);
    hide GetHexIP, Dedup, PreRules, PostRules;
    assert PreChain(other) in after && PostChain(other) in after;
  }

  lemma OwnGatewayApplied(before: Chains, spec: GatewaySpec)
    requires HasBuiltins(before) && GetHexIP(spec.gatewayIP).Some?
    ensures Holds(AfterApply(before, spec), spec.gatewayIP, spec)
  {
    ChainNamesDistinct(spec.gatewayIP, spec.gatewayIP);
    hide GetHexIP, Dedup, PreRules, PostRules, Partial, AppendAll;
    var ip, jumps := spec.gatewayIP, ExpectedJumps(spec.gatewayIP);
    var middle := Replaced(before, ExpectedChains(spec));
    assert jumps.Keys == {PREROUTING, POSTROUTING};
    assert middle[PreChain(ip)] == Dedup(PreRules(spec)) && middle[PostChain(ip)] == Dedup(PostRules(spec));
    var after := AfterApply(before, spec);
    assert after[PREROUTING] == AppendAll(middle[PREROUTING], [JumpSpec(PreChain(ip))]);
    assert after[POSTROUTING] == AppendAll(middle[POSTROUTING], [JumpSpec(PostChain(ip))]);
    AppendAllMeaning(middle[PREROUTING], [JumpSpec(PreChain(ip))]);
    AppendAllMeaning(middle[POSTROUTING], [JumpSpec(PostChain(ip))]);
  }

  // ----- verdicts -----

  /** A top-level chain whose rules either say nothing about a packet or say v, and one of which says v */
  lemma {:induction false} EvaluateAgrees(chains: Chains, rules: seq<RuleSpec>, p: Packet, v: Option<Verdict>)
    requires forall r :: r in rules ==> TopVerdict(chains, r, p) == None || TopVerdict(chains, r, p) == v
    requires v.Some? ==> exists r :: r in rules && TopVerdict(chains, r, p) == v
    ensures Evaluate(chains, rules, p) == v
  {
    if rules != [] {
      assert rules == [rules[0]] + rules[1..];
      if TopVerdict(chains, rules[0], p).None? {
        EvaluateAgrees(chains, rules[1..], p, v);
      }
    }
  }

  /** A gateway's chain, as far as it may have been filled, says nothing about packets to another address. */
  lemma OnlyOwnPackets(spec: GatewaySpec, now: seq<RuleSpec>, p: Packet)
    requires Partial([], PreRules(spec), now) && p.dst != spec.gatewayIP
    ensures FirstMatch(now, p) == None
  {
    var n: nat :| n <= |PreRules(spec)| && now == AppendAll([], PreRules(spec)[..n]);
    hide RuleVerdict, FirstMatch, AppendAll;
    AppendAllMeaning([], PreRules(spec)[..n]);
    forall r | r in now ensures RuleVerdict(r, p).None? {
      var i :| 0 <= i < n && PreRules(spec)[i] == r;
      IngressDNATSilent(spec.gatewayIP, spec.ingressRules[i], p);
    }
    NoMatchAnywhere(now, p);
  }

  lemma IngressDNATSilent(ip: string, r: GatewayRule, p: Packet)
    requires p.dst != ip
    ensures RuleVerdict(IngressDNAT(ip, r), p).None?
  {
    hide RuleVerdict, DNATRuleSpec;
    DNATMeaning(ip, r.sourceIP, r.targetPort, ip, r.relayPort, p);
  }

  /** The rule does not jump where a gateway's post-routing rules or a built-in chain are. */
  ghost predicate LeadsElsewhere(r: RuleSpec) {
    IsJump(r) ==> r[1] !in {PREROUTING, POSTROUTING} && forall ip :: GetHexIP(ip).Some? ==> r[1] != PostChain(ip)
  }

  /** No rule of PREROUTING says anything about the packet, except possibly the jump of the gateway it is sent to. */
  ghost predicate OthersSilent(chains: Chains, p: Packet)
    requires HasBuiltins(chains) && GetHexIP(p.dst).Some?
  {
    forall r :: r in chains[PREROUTING] && r != JumpSpec(PreChain(p.dst)) ==>
      TopVerdict(chains, r, p) == None && LeadsElsewhere(r)
  }

  /** The jump of another gateway stays silent, or is silent when it is added. */
  lemma OtherJumpSilent(before: Chains, spec: GatewaySpec, after: Chains, p: Packet)
    requires GetHexIP(spec.gatewayIP).Some? && GetHexIP(p.dst).Some? && p.dst != spec.gatewayIP
    requires HasBuiltins(before) && OthersSilent(before, p) && MaybeApplied(before, spec, after)
    requires PREROUTING in after && JumpSpec(PreChain(spec.gatewayIP)) in after[PREROUTING]
    ensures TopVerdict(after, JumpSpec(PreChain(spec.gatewayIP)), p) == None
    ensures LeadsElsewhere(JumpSpec(PreChain(spec.gatewayIP)))
  {
    var ip := spec.gatewayIP;
    forall other | GetHexIP(other).Some? ensures PreChain(ip) != PostChain(other) {
      ChainNamesDistinct(ip, other);
    }
    ChainNamesDistinct(ip, p.dst);
    ApplyIsConfined(before, spec, after);
    hide GetHexIP, PreChain, PostChain, PreRules, Partial, FirstMatch, MaybeApplied, LeadsElsewhere;
    assert JumpSpec(PreChain(ip))[1] == PreChain(ip) && JumpSpec(PreChain(p.dst))[1] == PreChain(p.dst);
    if PreChain(ip) in after {
      if Partial([], PreRules(spec), after[PreChain(ip)]) {
        OnlyOwnPackets(spec, after[PreChain(ip)], p);
      } else if after[PREROUTING] != before[PREROUTING] {
        PartialEnds([], PreRules(spec));
        assert false;
      } else {
        assert TopVerdict(before, JumpSpec(PreChain(ip)), p) == None;
      }
    }
    assert LeadsElsewhere(JumpSpec(PreChain(ip))) by { JumpLeadsElsewhere(ip); }
  }

  lemma JumpLeadsElsewhere(ip: string)
    requires GetHexIP(ip).Some?
    ensures LeadsElsewhere(JumpSpec(PreChain(ip)))
  {
    hide GetHexIP;
    forall other | GetHexIP(other).Some? ensures PreChain(ip) != PostChain(other) {
      ChainNamesDistinct(ip, other);
    }
    ChainNamesDistinct(ip, ip);
  }

  /** Applying any gateway, completely or not, adds nothing that speaks about a packet to another address. */
  lemma SilenceKept(before: Chains, spec: GatewaySpec, after: Chains, p: Packet)
    requires GetHexIP(spec.gatewayIP).Some? && GetHexIP(p.dst).Some?
    requires HasBuiltins(before) && OthersSilent(before, p) && MaybeApplied(before, spec, after)
    ensures HasBuiltins(after) && OthersSilent(after, p)
  {
    var ip := spec.gatewayIP;
    ApplyIsConfined(before, spec, after);
    hide GetHexIP, PreChain, PostChain, PreRules, Partial, FirstMatch, MaybeApplied, RuleVerdict;
    forall r | r in after[PREROUTING] && r != JumpSpec(PreChain(p.dst))
      ensures TopVerdict(after, r, p) == None && LeadsElsewhere(r)
    {
      if r == JumpSpec(PreChain(ip)) {
        OtherJumpSilent(before, spec, after, p);
      } else {
        assert r in before[PREROUTING];
        assert TopVerdict(before, r, p) == None && LeadsElsewhere(r);
        if IsJump(r) {
          assert r == JumpSpec(r[1]);
          assert r[1] !in {PreChain(ip), PostChain(ip), PREROUTING, POSTROUTING};
        }
      }
    }
  }

  /** A packet to a gateway address gets the verdict of that gateway's own rules as they were listed,
      whatever the order of the jumps and whatever other gateways share the table. */
  lemma VerdictIsOwnRules(chains: Chains, spec: GatewaySpec, p: Packet)
    requires Holds(chains, p.dst, spec) && OthersSilent(chains, p)
    ensures Evaluate(chains, chains[PREROUTING], p) == FirstMatch(PreRules(spec), p)
  {
    var v := FirstMatch(PreRules(spec), p);
    DedupKeepsVerdict(PreRules(spec), p);
    hide GetHexIP, PreRules, Dedup, FirstMatch, PreChain, PostChain;
    var own := JumpSpec(PreChain(p.dst));
    assert own in chains[PREROUTING] && TopVerdict(chains, own, p) == v;
    EvaluateAgrees(chains, chains[PREROUTING], p, v);
  }

  // ----- isolation over whole runs -----

  lemma AllHoldAt(chains: Chains, last: map<string, GatewaySpec>, ip: string)
    requires AllHold(chains, last) && ip in last
    ensures Holds(chains, ip, last[ip])
  {
  }

  /** The same for one attempt */
  lemma AttemptKeeps(before: Chains, last: map<string, GatewaySpec>, a: Attempt, c: string, r: RuleSpec, p: Packet)
    requires TargetsDefined(before) && AllHold(before, last) && LegalAttempt(before, a)
    ensures var ip, after := a.spec.gatewayIP, a.after;
            && HasBuiltins(before) && HasBuiltins(after) && TargetsDefined(after) && GetHexIP(ip).Some?
            && AllHold(after, if a.ok then last[ip := a.spec] else last - {ip})
            && (AtMostOnce(before[PREROUTING], r) ==> AtMostOnce(after[PREROUTING], r))
            && (AtMostOnce(before[POSTROUTING], r) ==> AtMostOnce(after[POSTROUTING], r))
            && (c in before && c !in {PREROUTING, POSTROUTING, PreChain(ip), PostChain(ip)} ==> c in after && after[c] == before[c])
            && (GetHexIP(p.dst).Some? && OthersSilent(before, p) ==> OthersSilent(after, p))
  {
    hide GetHexIP, TargetsDefined, AfterApply, MaybeApplied, OthersSilent, Holds, PreChain, PostChain, PreRules, JumpSpec;
    var ip := a.spec.gatewayIP;
    var now := if a.ok then last[ip := a.spec] else last - {ip};
    ApplyIsConfined(before, a.spec, a.after);
    ApplyKeepsTargets(before, a.spec, a.after);
    if GetHexIP(p.dst).Some? && OthersSilent(before, p) {
      SilenceKept(before, a.spec, a.after, p);
    }
    forall other | other in now ensures Holds(a.after, other, now[other]) {
      if other == ip {
        OwnGatewayApplied(before, a.spec);
      } else {
        OtherGatewayKept(before, ip, a.after, other, last[other]);
      }
    }
  }

  /** Every jump target stays defined, every gateway whose last attempt succeeded holds exactly that
      attempt's rules, no rule of a built-in chain is duplicated by the agent, and foreign chains are
      untouched. If nothing but gateway jumps spoke about a packet at the start, a packet to a gateway whose last
      attempt succeeded gets exactly the verdict of the rules it applied: whatever gateways are applied, in
      whatever order, however often, and wherever attempts stop. */
  lemma {:induction false} Isolation(before: Chains, last: map<string, GatewaySpec>, attempts: seq<Attempt>,
                                     c: string, r: RuleSpec, p: Packet)
    requires HasBuiltins(before) && TargetsDefined(before) && AllHold(before, last) && LegalAttempts(before, attempts)
    ensures var after := TableAfter(before, attempts);
            && HasBuiltins(after) && TargetsDefined(after) && AllHold(after, LastApplied(last, attempts))
            && (AtMostOnce(before[PREROUTING], r) ==> AtMostOnce(after[PREROUTING], r))
            && (AtMostOnce(before[POSTROUTING], r) ==> AtMostOnce(after[POSTROUTING], r))
            && (c in before && c !in {PREROUTING, POSTROUTING}
                && (forall a :: a in attempts && GetHexIP(a.spec.gatewayIP).Some? ==>
                      c != PreChain(a.spec.gatewayIP) && c != PostChain(a.spec.gatewayIP)) ==>
                  c in after && after[c] == before[c])
            && (GetHexIP(p.dst).Some? && OthersSilent(before, p) ==>
                  && OthersSilent(after, p)
                  && (p.dst in LastApplied(last, attempts) ==>
                        Evaluate(after, after[PREROUTING], p) == FirstMatch(PreRules(LastApplied(last, attempts)[p.dst]), p)))
    decreases |attempts|
  {
    hide GetHexIP, TargetsDefined, AfterApply, MaybeApplied, Evaluate, FirstMatch, PreRules, OthersSilent, Holds, AllHold, PreChain, PostChain, AtMostOnce;
    if attempts == [] {
      if GetHexIP(p.dst).Some? && OthersSilent(before, p) && p.dst in last {
        AllHoldAt(before, last, p.dst);
        VerdictIsOwnRules(before, last[p.dst], p);
      }
    } else {
      var a := attempts[0];
      var ip := a.spec.gatewayIP;
      var now := if a.ok then last[ip := a.spec] else last - {ip};
      assert a in attempts;
      AttemptKeeps(before, last, a, c, r, p);
      Isolation(a.after, now, attempts[1..], c, r, p);
      assert forall b :: b in attempts[1..] ==> b in attempts;
    }
  }
}
