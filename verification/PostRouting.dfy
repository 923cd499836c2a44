// Source translation of several gateways in one table: when the order of their jumps matters.
module PostRouting {
  import opened Text
  import opened Address
  import opened Api
  import opened Operator
  import opened Ledger
  import opened NatTable
  import opened GatewayAgent

  /** Some rule of the gateway translates the source of packets to this destination and port. */
  ghost predicate Translates(spec: GatewaySpec, p: Packet) {
    exists q :: q in spec.ingressRules && q.destinationIP == p.dst && q.relayPort == p.dport
  }

  lemma SNATVerdict(gatewayIP: string, r: GatewayRule, p: Packet)
    ensures RuleVerdict(IngressSNAT(gatewayIP, r), p) ==
            if r.destinationIP == p.dst && r.relayPort == p.dport then Some(SNAT(gatewayIP)) else None
  {
    hide RuleVerdict, SNATRuleSpec;
    SNATMeaning(r.destinationIP, gatewayIP, r.relayPort, p);
  }

  /** A gateway's post-routing chain gives its own address to the packets its rules are for, and no others. */
  lemma PostChainVerdict(spec: GatewaySpec, p: Packet)
    ensures FirstMatch(Dedup(PostRules(spec)), p) == if Translates(spec, p) then Some(SNAT(spec.gatewayIP)) else None
  {
    hide RuleVerdict, FirstMatch, Dedup;
    var specs := PostRules(spec);
    DedupKeepsVerdict(specs, p);
    forall i | 0 <= i < |specs|
      ensures RuleVerdict(specs[i], p) ==
              if spec.ingressRules[i].destinationIP == p.dst && spec.ingressRules[i].relayPort == p.dport
              then Some(SNAT(spec.gatewayIP)) else None
    {
      SNATVerdict(spec.gatewayIP, spec.ingressRules[i], p);
    }
    forall r | r in specs && RuleVerdict(r, p).Some? ensures RuleVerdict(r, p) == Some(SNAT(spec.gatewayIP)) && Translates(spec, p) {
      var i :| 0 <= i < |specs| && specs[i] == r;
      assert spec.ingressRules[i] in spec.ingressRules;
    }
    AgreeingMatch(specs, p, SNAT(spec.gatewayIP));
    if Translates(spec, p) {
      var q :| q in spec.ingressRules && q.destinationIP == p.dst && q.relayPort == p.dport;
      var i :| 0 <= i < |spec.ingressRules| && spec.ingressRules[i] == q;
      assert specs[i] in specs && RuleVerdict(specs[i], p).Some?;
    }
  }

  /** The jumps of POSTROUTING when gateways were first applied in this order */
  function PostJumps(order: seq<string>): seq<RuleSpec>
    requires forall ip :: ip in order ==> GetHexIP(ip).Some?
  {
    seq(|order|, i requires 0 <= i < |order| => JumpSpec(PostChain(order[i])))
  }

  lemma JumpVerdict(chains: Chains, ip: string, spec: GatewaySpec, p: Packet)
    requires Holds(chains, ip, spec)
    ensures TopVerdict(chains, JumpSpec(PostChain(ip)), p) == if Translates(spec, p) then Some(SNAT(ip)) else None
  {
    hide GetHexIP, PostRules, PreRules, Dedup, FirstMatch, Translates, PostChain, PreChain;
    PostChainVerdict(spec, p);
    assert JumpSpec(PostChain(ip))[1] == PostChain(ip);
  }

  /** First match over the jumps finds the first gateway in the order that translates the packet. */
  lemma {:induction false} FirstTranslator(chains: Chains, last: map<string, GatewaySpec>, order: seq<string>, p: Packet) returns (i: nat)
    requires AllHold(chains, last) && forall ip :: ip in order ==> ip in last && GetHexIP(ip).Some?
    ensures i <= |order| && forall j :: 0 <= j < i ==> !Translates(last[order[j]], p)
    ensures i < |order| ==> Translates(last[order[i]], p)
    ensures Evaluate(chains, PostJumps(order), p) == if i < |order| then Some(SNAT(order[i])) else None
    decreases |order|
  {
    hide GetHexIP, Translates, Holds, PostChain, JumpSpec, TopVerdict;
    if order == [] {
      i := 0;
    } else {
      assert Holds(chains, order[0], last[order[0]]);
      JumpVerdict(chains, order[0], last[order[0]], p);
      assert PostJumps(order)[0] == JumpSpec(PostChain(order[0])) && PostJumps(order)[1..] == PostJumps(order[1..]);
      if Translates(last[order[0]], p) {
        i := 0;
      } else {
        var k := FirstTranslator(chains, last, order[1..], p);
        i := k + 1;
      }
    }
  }

  /** At most one gateway translates the packet. */
  ghost predicate OneTranslator(last: map<string, GatewaySpec>, p: Packet) {
    forall a, b :: a in last && b in last && Translates(last[a], p) && Translates(last[b], p) ==> a == b
  }

  // ----- the jumps that a run of the agent leaves -----

  /** The gateways in the order in which their jumps were first appended to POSTROUTING */
  ghost function FirstAppended(seen: seq<string>, attempts: seq<Attempt>): seq<string>
    decreases |attempts|
  {
    if attempts == [] then seen
    else
      var a, ip := attempts[0], attempts[0].spec.gatewayIP;
      var appended := ip !in seen && GetHexIP(ip).Some? && POSTROUTING in a.after && JumpSpec(PostChain(ip)) in a.after[POSTROUTING];
      FirstAppended(if appended then seen + [ip] else seen, attempts[1..])
  }

  lemma OneMoreJump(order: seq<string>, ip: string)
    requires (forall h :: h in order ==> GetHexIP(h).Some?) && GetHexIP(ip).Some?
    ensures JumpSpec(PostChain(ip)) in PostJumps(order) <==> ip in order
    ensures (forall h :: h in order + [ip] ==> GetHexIP(h).Some?) && PostJumps(order + [ip]) == PostJumps(order) + [JumpSpec(PostChain(ip))]
  {
    hide GetHexIP, PostChain;
    var jumps := PostJumps(order);
    if JumpSpec(PostChain(ip)) in jumps {
      var i :| 0 <= i < |jumps| && jumps[i] == JumpSpec(PostChain(ip));
      assert jumps[i][1] == PostChain(order[i]) && JumpSpec(PostChain(ip))[1] == PostChain(ip);
      assert order[i] in order;
      ChainNamesDistinct(order[i], ip);
    }
    if ip in order {
      var i :| 0 <= i < |order| && order[i] == ip;
      assert jumps[i] in jumps;
    }
  }

  lemma JumpsAfterAttempt(before: Chains, seen: seq<string>, a: Attempt)
    requires LegalAttempt(before, a) && HasBuiltins(before) && (forall h :: h in seen ==> GetHexIP(h).Some?)
    requires before[POSTROUTING] == PostJumps(seen)
    ensures HasBuiltins(a.after) && (forall h :: h in FirstAppended(seen, [a]) ==> GetHexIP(h).Some?)
    ensures a.after[POSTROUTING] == PostJumps(FirstAppended(seen, [a]))
  {
    ApplyIsConfined(before, a.spec, a.after);
    hide GetHexIP, MaybeApplied, PostChain, PreChain, PostJumps, JumpSpec;
    var ip := a.spec.gatewayIP;
    OneMoreJump(seen, ip);
    assert [a][0] == a && [a][1..] == [];
    assert FirstAppended(seen, []) == seen && FirstAppended(seen + [ip], []) == seen + [ip];
  }

  lemma FirstAppendedStep(seen: seq<string>, attempts: seq<Attempt>)
    requires attempts != []
    ensures FirstAppended(seen, attempts) == FirstAppended(FirstAppended(seen, [attempts[0]]), attempts[1..])
  {
    hide GetHexIP, PostChain, JumpSpec;
    var a := attempts[0];
    assert [a][0] == a && [a][1..] == [];
    assert FirstAppended(seen, []) == seen && FirstAppended(seen + [a.spec.gatewayIP], []) == seen + [a.spec.gatewayIP];
  }

  lemma LegalSplit(before: Chains, attempts: seq<Attempt>)
    requires attempts != [] && LegalAttempts(before, attempts)
    ensures LegalAttempt(before, attempts[0]) && HasBuiltins(before) && LegalAttempts(attempts[0].after, attempts[1..])
    ensures TableAfter(before, attempts) == TableAfter(attempts[0].after, attempts[1..])
  {
    hide LegalAttempt;
    LegalHasBuiltins(before, attempts[0]);
  }

  lemma LegalHasBuiltins(before: Chains, a: Attempt)
    requires LegalAttempt(before, a)
    ensures HasBuiltins(before)
  {
  }

  lemma NoAttempts(before: Chains, seen: seq<string>, last: map<string, GatewaySpec>)
    ensures TableAfter(before, []) == before && FirstAppended(seen, []) == seen && LastApplied(last, []) == last
  {
  }

  /** However attempts go, POSTROUTING lists the gateways' jumps in the order in which they were first appended. */
  lemma {:induction false} JumpsOfRun(before: Chains, seen: seq<string>, attempts: seq<Attempt>)
    requires HasBuiltins(before) && LegalAttempts(before, attempts) && (forall h :: h in seen ==> GetHexIP(h).Some?)
    requires before[POSTROUTING] == PostJumps(seen)
    ensures HasBuiltins(TableAfter(before, attempts)) && (forall h :: h in FirstAppended(seen, attempts) ==> GetHexIP(h).Some?)
    ensures TableAfter(before, attempts)[POSTROUTING] == PostJumps(FirstAppended(seen, attempts))
    decreases |attempts|
  {
    hide GetHexIP, LegalAttempt, LegalAttempts, PostJumps, FirstAppended, TableAfter;
    if attempts == [] {
      NoAttempts(before, seen, map[]);
    } else {
      LegalSplit(before, attempts);
      JumpsAfterAttempt(before, seen, attempts[0]);
      FirstAppendedStep(seen, attempts);
      JumpsOfRun(attempts[0].after, FirstAppended(seen, [attempts[0]]), attempts[1..]);
    }
  }

  // ----- runs of completed applies -----

  ghost predicate AllCompleted(attempts: seq<Attempt>) {
    forall a :: a in attempts ==> a.ok
  }

  /** A run of completed applies on a fresh table after which each gateway of `last` has its spec applied */
  ghost predicate AppliesAll(attempts: seq<Attempt>, last: map<string, GatewaySpec>) {
    LegalAttempts(BUILTIN_CHAINS, attempts) && AllCompleted(attempts) && LastApplied(map[], attempts) == last
  }

  lemma CompletedAppends(before: Chains, seen: seq<string>, a: Attempt)
    requires HasBuiltins(before) && LegalAttempt(before, a) && a.ok
    ensures FirstAppended(seen, [a]) == if a.spec.gatewayIP in seen then seen else seen + [a.spec.gatewayIP]
  {
    OwnGatewayApplied(before, a.spec);
    hide GetHexIP, MaybeApplied, PostChain, PreChain, PreRules, PostRules, Dedup, AfterApply, JumpSpec;
    var ip := a.spec.gatewayIP;
    assert JumpSpec(PostChain(ip)) in a.after[POSTROUTING];
    assert [a][0] == a && [a][1..] == [];
    assert FirstAppended(seen, []) == seen && FirstAppended(seen + [ip], []) == seen + [ip];
  }

  lemma OneMoreListed(seen: seq<string>, names: set<string>, ip: string)
    requires Enumerates(seen, names)
    ensures Enumerates(if ip in seen then seen else seen + [ip], names + {ip})
  {
  }

  lemma CompletedStep(before: Chains, seen: seq<string>, last: map<string, GatewaySpec>, attempts: seq<Attempt>)
    requires attempts != [] && LegalAttempts(before, attempts) && AllCompleted(attempts) && Enumerates(seen, last.Keys)
    ensures var a := attempts[0];
            var now := last[a.spec.gatewayIP := a.spec];
            && LegalAttempts(a.after, attempts[1..]) && AllCompleted(attempts[1..])
            && Enumerates(FirstAppended(seen, [a]), now.Keys)
            && FirstAppended(seen, attempts) == FirstAppended(FirstAppended(seen, [a]), attempts[1..])
            && LastApplied(last, attempts) == LastApplied(now, attempts[1..])
  {
    hide GetHexIP, LegalAttempt, LegalAttempts, FirstAppended, Enumerates, HasBuiltins, TableAfter;
    var a := attempts[0];
    assert a in attempts;
    LegalSplit(before, attempts);
    CompletedAppends(before, seen, a);
    FirstAppendedStep(seen, attempts);
    OneMoreListed(seen, last.Keys, a.spec.gatewayIP);
    assert last[a.spec.gatewayIP := a.spec].Keys == last.Keys + {a.spec.gatewayIP};
  }

  /** After completed applies the jumps are those of exactly the gateways applied, once each. */
  lemma {:induction false} CompletedEnumerates(before: Chains, seen: seq<string>, last: map<string, GatewaySpec>, attempts: seq<Attempt>)
    requires LegalAttempts(before, attempts) && AllCompleted(attempts) && Enumerates(seen, last.Keys)
    ensures Enumerates(FirstAppended(seen, attempts), LastApplied(last, attempts).Keys)
    decreases |attempts|
  {
    hide *;
    if attempts == [] {
      NoAttempts(before, seen, last);
    } else {
      CompletedStep(before, seen, last, attempts);
      var a := attempts[0];
      CompletedEnumerates(a.after, FirstAppended(seen, [a]), last[a.spec.gatewayIP := a.spec], attempts[1..]);
    }
  }

  /** What such a run does to a packet: the first of its gateways that translates it decides. */
  lemma RunTranslates(attempts: seq<Attempt>, last: map<string, GatewaySpec>, p: Packet) returns (order: seq<string>, i: nat)
    requires AppliesAll(attempts, last)
    ensures HasBuiltins(TableAfter(BUILTIN_CHAINS, attempts)) && order == FirstAppended([], attempts) && Enumerates(order, last.Keys)
    ensures i <= |order| && forall j :: 0 <= j < i ==> !Translates(last[order[j]], p)
    ensures i < |order| ==> Translates(last[order[i]], p)
    ensures var chains := TableAfter(BUILTIN_CHAINS, attempts);
            Evaluate(chains, chains[POSTROUTING], p) == if i < |order| then Some(SNAT(order[i])) else None
  {
    FreshTable();
    hide GetHexIP, Translates, Evaluate, PostJumps, LegalAttempts, LastApplied, TableAfter, FirstAppended, AllHold;
    Isolation(BUILTIN_CHAINS, map[], attempts, "", [], p);
    JumpsOfRun(BUILTIN_CHAINS, [], attempts);
    CompletedEnumerates(BUILTIN_CHAINS, [], map[], attempts);
    order := FirstAppended([], attempts);
    i := FirstTranslator(TableAfter(BUILTIN_CHAINS, attempts), last, order, p);
  }

  lemma FreshTable()
    ensures HasBuiltins(BUILTIN_CHAINS) && TargetsDefined(BUILTIN_CHAINS) && AllHold(BUILTIN_CHAINS, map[])
    ensures BUILTIN_CHAINS[POSTROUTING] == PostJumps([]) && Enumerates([], {}) && AllCompleted([])
  {
    var none: map<string, GatewaySpec> := map[];
    assert none.Keys == {};
  }

  lemma BuiltinsStay(before: Chains, spec: GatewaySpec)
    requires HasBuiltins(before) && GetHexIP(spec.gatewayIP).Some?
    ensures HasBuiltins(AfterApply(before, spec))
  {
    hide GetHexIP, MaybeApplied, AfterApply;
    CompleteIsMaybe(before, spec);
  }

  /** Applying the gateways of a list one after the other */
  ghost function InOrder(before: Chains, order: seq<string>, last: map<string, GatewaySpec>): (attempts: seq<Attempt>)
    requires HasBuiltins(before) && Applicable(order, last)
    ensures |attempts| == |order|
    decreases |order|
  {
    if order == [] then []
    else
      var spec := last[order[0]];
      BuiltinsStay(before, spec);
      [Attempt(spec, true, AfterApply(before, spec))] + InOrder(AfterApply(before, spec), order[1..], last)
  }

  ghost predicate Applicable(order: seq<string>, last: map<string, GatewaySpec>) {
    forall ip :: ip in order ==> ip in last && GetHexIP(ip).Some? && last[ip].gatewayIP == ip
  }

  lemma InOrderStep(before: Chains, order: seq<string>, last: map<string, GatewaySpec>)
    requires HasBuiltins(before) && Applicable(order, last) && order != []
    ensures Applicable(order[1..], last) && HasBuiltins(AfterApply(before, last[order[0]]))
    ensures var attempts := InOrder(before, order, last);
            && LegalAttempt(before, attempts[0]) && attempts[0] == Attempt(last[order[0]], true, AfterApply(before, last[order[0]]))
            && attempts[1..] == InOrder(attempts[0].after, order[1..], last)
  {
    CompleteIsMaybe(before, last[order[0]]);
    hide GetHexIP, MaybeApplied, AfterApply;
  }

  lemma {:induction false} InOrderIsLegal(before: Chains, order: seq<string>, last: map<string, GatewaySpec>)
    requires HasBuiltins(before) && Applicable(order, last)
    ensures LegalAttempts(before, InOrder(before, order, last))
    decreases |order|
  {
    if order != [] {
      InOrderStep(before, order, last);
      hide LegalAttempt, Applicable, InOrder, HasBuiltins;
      InOrderIsLegal(AfterApply(before, last[order[0]]), order[1..], last);
    }
  }

  lemma {:induction false} InOrderEach(before: Chains, order: seq<string>, last: map<string, GatewaySpec>, i: nat)
    requires HasBuiltins(before) && Applicable(order, last) && i < |order|
    ensures var attempts := InOrder(before, order, last); order[i] in last && attempts[i].spec == last[order[i]] && attempts[i].ok
    decreases |order|
  {
    InOrderStep(before, order, last);
    hide InOrder, AfterApply, HasBuiltins, LegalAttempt;
    if i > 0 {
      InOrderEach(AfterApply(before, last[order[0]]), order[1..], last, i - 1);
      assert InOrder(before, order, last)[1..][i - 1] == InOrder(before, order, last)[i];
    }
    assert order[i] in order;
  }

  ghost predicate Agrees(done: map<string, GatewaySpec>, last: map<string, GatewaySpec>) {
    forall ip :: ip in done ==> ip in last && done[ip] == last[ip]
  }

  lemma AppliesStep(before: Chains, order: seq<string>, last: map<string, GatewaySpec>, done: map<string, GatewaySpec>)
    requires HasBuiltins(before) && Applicable(order, last) && order != [] && Agrees(done, last)
    ensures var now := done[order[0] := last[order[0]]];
            && Agrees(now, last) && now.Keys == done.Keys + {order[0]}
            && HasBuiltins(AfterApply(before, last[order[0]])) && Applicable(order[1..], last)
            && LastApplied(done, InOrder(before, order, last))
               == LastApplied(now, InOrder(AfterApply(before, last[order[0]]), order[1..], last))
  {
    InOrderStep(before, order, last);
    hide GetHexIP, LegalAttempt, InOrder, HasBuiltins, AfterApply;
    assert order[0] in order;
  }

  lemma {:induction false} InOrderApplies(before: Chains, order: seq<string>, last: map<string, GatewaySpec>, done: map<string, GatewaySpec>)
    requires HasBuiltins(before) && Applicable(order, last) && Agrees(done, last)
    ensures var now := LastApplied(done, InOrder(before, order, last));
            Agrees(now, last) && now.Keys == done.Keys + Listed(order)
    decreases |order|
  {
    hide *;
    if order == [] {
      NoAttempts(before, [], done);
      AppliesNone(before, last);
    } else {
      ApplicableFirst(order, last);
      AppliesStep(before, order, last, done);
      ListedSplit(order);
      InOrderApplies(AfterApply(before, last[order[0]]), order[1..], last, done[order[0] := last[order[0]]]);
    }
  }

  lemma ApplicableFirst(order: seq<string>, last: map<string, GatewaySpec>)
    requires order != [] && Applicable(order, last)
    ensures order[0] in last && GetHexIP(last[order[0]].gatewayIP).Some?
  {
  }

  lemma AppliesNone(before: Chains, last: map<string, GatewaySpec>)
    requires HasBuiltins(before) && Applicable([], last)
    ensures InOrder(before, [], last) == [] && Listed([]) == {}
  {
  }

  function Listed(order: seq<string>): set<string> {
    set ip | ip in order
  }

  lemma ListedSplit(order: seq<string>)
    requires order != []
    ensures Listed(order) == {order[0]} + Listed(order[1..])
  {
    assert order == [order[0]] + order[1..];
  }

  lemma AgreesOnAll(now: map<string, GatewaySpec>, last: map<string, GatewaySpec>)
    requires Agrees(now, last) && now.Keys == last.Keys
    ensures now == last
  {
  }

  /** A run that applies the gateways of `last` in this order */
  lemma RunInOrder(order: seq<string>, last: map<string, GatewaySpec>) returns (attempts: seq<Attempt>)
    requires (forall ip :: ip in last ==> GetHexIP(ip).Some? && last[ip].gatewayIP == ip) && Enumerates(order, last.Keys)
    ensures AppliesAll(attempts, last) && |attempts| == |order|
    ensures forall i :: 0 <= i < |order| ==> attempts[i].spec == last[order[i]]
    ensures order != [] ==> FirstAppended([], attempts) != [] && FirstAppended([], attempts)[0] == order[0]
  {
    assert Applicable(order, last) && Listed(order) == last.Keys;
    FreshTable();
    attempts := AppliedInOrder(order, last);
    hide GetHexIP, LegalAttempts, LastApplied, InOrder, Applicable, FirstAppended;
    if order != [] {
      assert order[0] in order;
      FirstStays(order, attempts, last);
    }
  }

  lemma AppliedInOrder(order: seq<string>, last: map<string, GatewaySpec>) returns (attempts: seq<Attempt>)
    requires HasBuiltins(BUILTIN_CHAINS) && Applicable(order, last) && Listed(order) == last.Keys
    ensures AppliesAll(attempts, last) && |attempts| == |order|
    ensures forall i :: 0 <= i < |order| ==> order[i] in last && attempts[i].spec == last[order[i]] && attempts[i].ok
  {
    hide GetHexIP, LegalAttempts, LastApplied, InOrder, Applicable, Agrees;
    attempts := InOrder(BUILTIN_CHAINS, order, last);
    InOrderIsLegal(BUILTIN_CHAINS, order, last);
    NothingAgrees(last);
    InOrderApplies(BUILTIN_CHAINS, order, last, map[]);
    var none: map<string, GatewaySpec> := map[];
    assert none.Keys + Listed(order) == last.Keys;
    AgreesOnAll(LastApplied(map[], attempts), last);
    forall i | 0 <= i < |order| ensures order[i] in last && attempts[i].spec == last[order[i]] && attempts[i].ok {
      InOrderEach(BUILTIN_CHAINS, order, last, i);
    }
  }

  lemma NothingAgrees(last: map<string, GatewaySpec>)
    ensures Agrees(map[], last)
  {
  }

  lemma FirstStays(order: seq<string>, attempts: seq<Attempt>, last: map<string, GatewaySpec>)
    requires order != [] && attempts != [] && LegalAttempts(BUILTIN_CHAINS, attempts) && AllCompleted(attempts)
    requires order[0] in last && attempts[0].spec == last[order[0]] && last[order[0]].gatewayIP == order[0]
    ensures FirstAppended([], attempts) != [] && FirstAppended([], attempts)[0] == order[0]
  {
    FreshTable();
    assert attempts[0] in attempts;
    CompletedAppends(BUILTIN_CHAINS, [], attempts[0]);
    hide FirstAppended, LegalAttempts, LegalAttempt;
    FirstAppendedStep([], attempts);
    assert FirstAppended([], [attempts[0]]) == [order[0]];
    AppendedGrows([order[0]], attempts[1..]);
  }

  lemma {:induction false} AppendedGrows(seen: seq<string>, attempts: seq<Attempt>)
    ensures seen <= FirstAppended(seen, attempts)
    decreases |attempts|
  {
    hide GetHexIP, PostChain, JumpSpec;
    if attempts != [] {
      AppendedGrows(seen + [attempts[0].spec.gatewayIP], attempts[1..]);
      AppendedGrows(seen, attempts[1..]);
    }
  }

  /** Any two runs of completed applies that end with these specs give the packet the same source. */
  ghost predicate OrderIrrelevant(last: map<string, GatewaySpec>, p: Packet) {
    forall a, b :: AppliesAll(a, last) && AppliesAll(b, last) ==> SameSource(TableAfter(BUILTIN_CHAINS, a), TableAfter(BUILTIN_CHAINS, b), p)
  }

  ghost predicate SameSource(x: Chains, y: Chains, p: Packet) {
    HasBuiltins(x) && HasBuiltins(y) && Evaluate(x, x[POSTROUTING], p) == Evaluate(y, y[POSTROUTING], p)
  }

  lemma StartingWith(names: set<string>, a: string) returns (order: seq<string>)
    requires a in names
    ensures Enumerates(order, names) && order != [] && order[0] == a
  {
    var rest := Listing(names - {a});
    order := [a] + rest;
  }

  lemma FirstDecides(attempts: seq<Attempt>, last: map<string, GatewaySpec>, ip: string, p: Packet)
    requires AppliesAll(attempts, last) && FirstAppended([], attempts) != [] && FirstAppended([], attempts)[0] == ip
    requires ip in last && Translates(last[ip], p)
    ensures var chains := TableAfter(BUILTIN_CHAINS, attempts);
            HasBuiltins(chains) && Evaluate(chains, chains[POSTROUTING], p) == Some(SNAT(ip))
  {
    hide AppliesAll, FirstAppended, Translates, Evaluate, TableAfter;
    var order, i := RunTranslates(attempts, last, p);
    assert order[0] == ip;
  }

  /** With two gateways that translate the packet, the one that was applied first decides. */
  lemma FirstAppliedDecides(last: map<string, GatewaySpec>, ip: string, p: Packet) returns (order: seq<string>, attempts: seq<Attempt>)
    requires (forall h :: h in last ==> GetHexIP(h).Some? && last[h].gatewayIP == h) && ip in last && Translates(last[ip], p)
    ensures Enumerates(order, last.Keys) && order != [] && order[0] == ip
    ensures AppliesAll(attempts, last) && |attempts| == |order| && (forall i :: 0 <= i < |order| ==> attempts[i].spec == last[order[i]])
    ensures var chains := TableAfter(BUILTIN_CHAINS, attempts);
            HasBuiltins(chains) && Evaluate(chains, chains[POSTROUTING], p) == Some(SNAT(ip))
  {
    hide GetHexIP, AppliesAll, FirstAppended, Translates, Evaluate, TableAfter, Enumerates;
    order := StartingWith(last.Keys, ip);
    attempts := RunInOrder(order, last);
    FirstDecides(attempts, last, ip, p);
  }

  /** The source address a packet gets does not depend on the order in which gateways were first applied, or on
      anything else about the runs of completed applies, if and only if at most one gateway has a rule for its
      destination and relay port. */
  lemma OrderIrrelevantIff(last: map<string, GatewaySpec>, p: Packet)
    requires forall ip :: ip in last ==> GetHexIP(ip).Some? && last[ip].gatewayIP == ip
    ensures OrderIrrelevant(last, p) <==> OneTranslator(last, p)
  {
    hide GetHexIP, AppliesAll, FirstAppended, Translates, Evaluate, TableAfter;
    if OneTranslator(last, p) {
      forall a, b | AppliesAll(a, last) && AppliesAll(b, last)
        ensures SameSource(TableAfter(BUILTIN_CHAINS, a), TableAfter(BUILTIN_CHAINS, b), p)
      {
        var x, i := RunTranslates(a, last, p);
        var y, j := RunTranslates(b, last, p);
        if i < |x| {
          assert x[i] in y;
        }
        if j < |y| {
          assert y[j] in x;
        }
      }
    } else {
      var a, b :| a in last && b in last && Translates(last[a], p) && Translates(last[b], p) && a != b;
      var x, first := FirstAppliedDecides(last, a, p);
      var y, second := FirstAppliedDecides(last, b, p);
      assert !SameSource(TableAfter(BUILTIN_CHAINS, first), TableAfter(BUILTIN_CHAINS, second), p);
    }
  }
}
