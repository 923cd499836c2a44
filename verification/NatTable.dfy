// The nat table and its writer (pkg/util/iptables.go).
module NatTable {
  import opened Text

  const PREROUTING := "PREROUTING"
  const POSTROUTING := "POSTROUTING"

  /** A rule is the argument list handed to iptables. */
  type RuleSpec = seq<string>
  type Chains = map<string, seq<RuleSpec>>

  function DNATRuleSpec(dstIP: string, srcIP: string, dPort: string, destinationIP: string, destinationPort: string): RuleSpec {
    ["-m", "tcp", "-p", "tcp", "--dst", dstIP, "--src", srcIP, "--dport", dPort,
     "-j", "DNAT", "--to-destination", destinationIP + ":" + destinationPort]
  }

  function SNATRuleSpec(dstIP: string, srcIP: string, dPort: string): RuleSpec {
    ["-m", "tcp", "-p", "tcp", "--dst", dstIP, "--dport", dPort, "-j", "SNAT", "--to-source", srcIP]
  }

  function JumpSpec(chain: string): RuleSpec {
    ["-j", chain]
  }

  predicate IsJump(r: RuleSpec) {
    |r| == 2 && r[0] == "-j"
  }

  // ----- what rules mean -----

  /** A TCP packet as far as the rules look at it; ports in their printed form */
  datatype Packet = Packet(src: string, dst: string, dport: string)

  datatype Verdict = DNAT(to: string) | SNAT(source: string)

  /** The value of an option in an argument list of options and values */
  function Flag(r: RuleSpec, name: string): Option<string> {
    if |r| < 2 then None else if r[0] == name then Some(r[1]) else Flag(r[2..], name)
  }

  /** An option that is given must agree with the packet. */
  predicate Agrees(r: RuleSpec, name: string, value: string) {
    Flag(r, name).None? || Flag(r, name) == Some(value)
  }

  /** What one rule without a jump says about a packet: if its match options agree with it, what its target does */
  function RuleVerdict(r: RuleSpec, p: Packet): Option<Verdict> {
    if !(Agrees(r, "-p", "tcp") && Agrees(r, "--dst", p.dst) && Agrees(r, "--src", p.src) && Agrees(r, "--dport", p.dport)) then None
    else if Flag(r, "-j") == Some("DNAT") && Flag(r, "--to-destination").Some? then Some(DNAT(Flag(r, "--to-destination").value))
    else if Flag(r, "-j") == Some("SNAT") && Flag(r, "--to-source").Some? then Some(SNAT(Flag(r, "--to-source").value))
    else None
  }

  /** First match in a chain without jumps */
  function FirstMatch(rules: seq<RuleSpec>, p: Packet): Option<Verdict> {
    if rules == [] then None
    else if RuleVerdict(rules[0], p).Some? then RuleVerdict(rules[0], p)
    else FirstMatch(rules[1..], p)
  }

  /** A rule of a top-level chain: a jump tries the target chain and returns when nothing there matches. */
  function TopVerdict(chains: Chains, r: RuleSpec, p: Packet): Option<Verdict> {
    if IsJump(r) then
      if r[1] in chains then FirstMatch(chains[r[1]], p) else None
    else RuleVerdict(r, p)
  }

  function Evaluate(chains: Chains, rules: seq<RuleSpec>, p: Packet): Option<Verdict> {
    if rules == [] then None
    else if TopVerdict(chains, rules[0], p).Some? then TopVerdict(chains, rules[0], p)
    else Evaluate(chains, rules[1..], p)
  }

  lemma OneFlag(key: string, value: string, rest: RuleSpec, name: string)
    ensures Flag([key, value] + rest, name) == if key == name then Some(value) else Flag(rest, name)
  {
    assert ([key, value] + rest)[2..] == rest;
  }

  /** The options that a rule may have are different words. */
  lemma OptionsDiffer()
    ensures var names := ["-m", "-p", "-j", "--dst", "--src", "--dport", "--to-source", "--to-destination"];
            forall i, j :: 0 <= i < j < |names| ==> names[i] != names[j]
    ensures "DNAT" != "SNAT"
  {
    assert "-m"[1] != "-p"[1] && "-m"[1] != "-j"[1] && "-p"[1] != "-j"[1];
    assert "--dst"[2] != "--src"[2] && "DNAT"[0] != "SNAT"[0];
  }

  lemma FlagsOfFour(a: seq<string>, b: seq<string>, c: seq<string>, d: seq<string>, rest: RuleSpec, name: string)
    requires |a| == |b| == |c| == |d| == 2
    ensures Flag(a + b + c + d + rest, name) ==
            if a[0] == name then Some(a[1]) else if b[0] == name then Some(b[1]) else if c[0] == name then Some(c[1])
            else if d[0] == name then Some(d[1]) else Flag(rest, name)
  {
    OneFlag(d[0], d[1], rest, name);
    OneFlag(c[0], c[1], d + rest, name);
    OneFlag(b[0], b[1], c + (d + rest), name);
    OneFlag(a[0], a[1], b + (c + (d + rest)), name);
    assert a == [a[0], a[1]] && b == [b[0], b[1]] && c == [c[0], c[1]] && d == [d[0], d[1]];
    assert a + b + c + d + rest == a + (b + (c + (d + rest)));
  }

  lemma FlagsOfDNAT(dstIP: string, srcIP: string, dPort: string, ip: string, port: string, name: string)
    ensures Flag(DNATRuleSpec(dstIP, srcIP, dPort, ip, port), name) ==
            if name == "-m" then Some("tcp") else if name == "-p" then Some("tcp") else if name == "--dst" then Some(dstIP)
            else if name == "--src" then Some(srcIP) else if name == "--dport" then Some(dPort) else if name == "-j" then Some("DNAT")
            else if name == "--to-destination" then Some(ip + ":" + port) else None
  {
    var rest := ["--dport", dPort] + (["-j", "DNAT"] + (["--to-destination", ip + ":" + port] + []));
    OneFlag("--to-destination", ip + ":" + port, [], name);
    OneFlag("-j", "DNAT", ["--to-destination", ip + ":" + port] + [], name);
    OneFlag("--dport", dPort, ["-j", "DNAT"] + (["--to-destination", ip + ":" + port] + []), name);
    FlagsOfFour(["-m", "tcp"], ["-p", "tcp"], ["--dst", dstIP], ["--src", srcIP], rest, name);
    assert DNATRuleSpec(dstIP, srcIP, dPort, ip, port)
           == ["-m", "tcp"] + ["-p", "tcp"] + ["--dst", dstIP] + ["--src", srcIP] + rest;
  }

  lemma FlagsOfSNAT(dstIP: string, srcIP: string, dPort: string, name: string)
    ensures Flag(SNATRuleSpec(dstIP, srcIP, dPort), name) ==
            if name == "-m" then Some("tcp") else if name == "-p" then Some("tcp") else if name == "--dst" then Some(dstIP)
            else if name == "--dport" then Some(dPort) else if name == "-j" then Some("SNAT")
            else if name == "--to-source" then Some(srcIP) else None
  {
    var rest := ["-j", "SNAT"] + (["--to-source", srcIP] + []);
    OneFlag("--to-source", srcIP, [], name);
    OneFlag("-j", "SNAT", ["--to-source", srcIP] + [], name);
    FlagsOfFour(["-m", "tcp"], ["-p", "tcp"], ["--dst", dstIP], ["--dport", dPort], rest, name);
    assert SNATRuleSpec(dstIP, srcIP, dPort) == ["-m", "tcp"] + ["-p", "tcp"] + ["--dst", dstIP] + ["--dport", dPort] + rest;
  }

  /** A DNAT rule sends exactly the packets from its source to its address and port to its destination. */
  lemma DNATMeaning(dstIP: string, srcIP: string, dPort: string, ip: string, port: string, p: Packet)
    ensures !IsJump(DNATRuleSpec(dstIP, srcIP, dPort, ip, port))
    ensures RuleVerdict(DNATRuleSpec(dstIP, srcIP, dPort, ip, port), p) ==
            if p.dst == dstIP && p.src == srcIP && p.dport == dPort then Some(DNAT(ip + ":" + port)) else None
  {
    OptionsDiffer();
    var r := DNATRuleSpec(dstIP, srcIP, dPort, ip, port);
    assert !IsJump(r);
    hide Flag, DNATRuleSpec;
    FlagsOfDNAT(dstIP, srcIP, dPort, ip, port, "-p");
    FlagsOfDNAT(dstIP, srcIP, dPort, ip, port, "--dst");
    FlagsOfDNAT(dstIP, srcIP, dPort, ip, port, "--src");
    FlagsOfDNAT(dstIP, srcIP, dPort, ip, port, "--dport");
    FlagsOfDNAT(dstIP, srcIP, dPort, ip, port, "-j");
    FlagsOfDNAT(dstIP, srcIP, dPort, ip, port, "--to-destination");
  }

  /** An SNAT rule gives exactly the packets to its address and port its source. */
  lemma SNATMeaning(dstIP: string, srcIP: string, dPort: string, p: Packet)
    ensures !IsJump(SNATRuleSpec(dstIP, srcIP, dPort))
    ensures RuleVerdict(SNATRuleSpec(dstIP, srcIP, dPort), p) ==
            if p.dst == dstIP && p.dport == dPort then Some(SNAT(srcIP)) else None
  {
    OptionsDiffer();
    var r := SNATRuleSpec(dstIP, srcIP, dPort);
    assert !IsJump(r);
    hide Flag, SNATRuleSpec;
    FlagsOfSNAT(dstIP, srcIP, dPort, "-p");
    FlagsOfSNAT(dstIP, srcIP, dPort, "--dst");
    FlagsOfSNAT(dstIP, srcIP, dPort, "--src");
    FlagsOfSNAT(dstIP, srcIP, dPort, "--dport");
    FlagsOfSNAT(dstIP, srcIP, dPort, "-j");
    FlagsOfSNAT(dstIP, srcIP, dPort, "--to-source");
    FlagsOfSNAT(dstIP, srcIP, dPort, "--to-destination");
  }

  // ----- what the writer produces -----

  function AppendOne(rules: seq<RuleSpec>, r: RuleSpec): seq<RuleSpec> {
    if r in rules then rules else rules + [r]
  }

  function AppendAll(rules: seq<RuleSpec>, more: seq<RuleSpec>): seq<RuleSpec> {
    if more == [] then rules
    else AppendOne(AppendAll(rules, more[..|more| - 1]), more[|more| - 1])
  }

  /** The rules with later duplicates dropped */
  function Dedup(rules: seq<RuleSpec>): seq<RuleSpec> {
    AppendAll([], rules)
  }

  predicate NoDuplicates(rules: seq<RuleSpec>) {
    forall i, j :: 0 <= i < j < |rules| ==> rules[i] != rules[j]
  }

  lemma {:induction false} AppendAllMeaning(rules: seq<RuleSpec>, more: seq<RuleSpec>)
    ensures rules <= AppendAll(rules, more)
    ensures forall r :: r in AppendAll(rules, more) <==> r in rules || r in more
    ensures NoDuplicates(rules) ==> NoDuplicates(AppendAll(rules, more))
  {
    if more != [] {
      AppendAllMeaning(rules, more[..|more| - 1]);
      assert more == more[..|more| - 1] + [more[|more| - 1]];
    }
  }

  /** Dropping later duplicates keeps the order of first occurrences: a rule before another one in the result also occurs
      before any occurrence of that one in the list. */
  lemma {:induction false} DedupOrder(rules: seq<RuleSpec>, i: nat, j: nat) returns (k: nat)
    requires i < j < |Dedup(rules)|
    ensures k < |rules| && rules[k] == Dedup(rules)[i] && Dedup(rules)[j] !in rules[..k + 1]
  {
    var n: nat := |rules| - 1;
    var init, last := rules[..n], rules[n];
    AppendAllMeaning([], init);
    if j < |Dedup(init)| {
      k := DedupOrder(init, i, j);
      assert rules[..k + 1] == init[..k + 1];
    } else {
      assert Dedup(rules)[j] == last && last !in init;
      assert Dedup(init)[i] in init;
      k :| 0 <= k < n && init[k] == Dedup(init)[i];
      assert rules[..k + 1] == init[..k + 1];
    }
  }

  lemma {:induction false} AppendAllAgain(rules: seq<RuleSpec>, more: seq<RuleSpec>)
    requires forall r :: r in more ==> r in rules
    ensures AppendAll(rules, more) == rules
  {
    if more != [] {
      AppendAllAgain(rules, more[..|more| - 1]);
      assert more[|more| - 1] in more;
    }
  }

  lemma {:induction false} FirstMatchConcat(a: seq<RuleSpec>, b: seq<RuleSpec>, p: Packet)
    ensures FirstMatch(a + b, p) == if FirstMatch(a, p).Some? then FirstMatch(a, p) else FirstMatch(b, p)
  {
    if a == [] {
      assert a + b == b;
    } else {
      assert (a + b)[1..] == a[1..] + b;
      FirstMatchConcat(a[1..], b, p);
    }
  }

  lemma {:induction false} NoMatchAnywhere(rules: seq<RuleSpec>, p: Packet)
    ensures FirstMatch(rules, p).None? <==> forall r :: r in rules ==> RuleVerdict(r, p).None?
  {
    if rules != [] {
      NoMatchAnywhere(rules[1..], p);
      assert rules == [rules[0]] + rules[1..];
    }
  }

  /** Dropping duplicates changes no packet's verdict. */
  lemma {:induction false} DedupKeepsVerdict(rules: seq<RuleSpec>, p: Packet)
    ensures FirstMatch(Dedup(rules), p) == FirstMatch(rules, p)
  {
    if rules != [] {
      var init, last := rules[..|rules| - 1], rules[|rules| - 1];
      DedupKeepsVerdict(init, p);
      assert rules == init + [last];
      FirstMatchConcat(init, [last], p);
      FirstMatchConcat(Dedup(init), [last], p);
      if last in Dedup(init) {
        NoMatchAnywhere(Dedup(init), p);
        assert FirstMatch([last], p) == RuleVerdict(last, p);
      }
    }
  }

  /** A chain in which all rules that match a packet agree gives that verdict. */
  lemma {:induction false} AgreeingMatch(rules: seq<RuleSpec>, p: Packet, v: Verdict)
    requires forall r :: r in rules && RuleVerdict(r, p).Some? ==> RuleVerdict(r, p) == Some(v)
    ensures FirstMatch(rules, p) == Some(v) <==> exists r :: r in rules && RuleVerdict(r, p).Some?
    ensures FirstMatch(rules, p) == Some(v) || FirstMatch(rules, p) == None
  {
    if rules != [] {
      assert rules == [rules[0]] + rules[1..];
      AgreeingMatch(rules[1..], p, v);
    }
  }

  // ----- the table -----

  /** iptables refuses to append to a chain that does not exist, or to jump to one. */
  predicate CanAppend(chains: Chains, chain: string, r: RuleSpec) {
    chain in chains && (IsJump(r) ==> r[1] in chains)
  }

  predicate TargetsDefined(chains: Chains) {
    forall c :: c in chains ==> forall r :: r in chains[c] && IsJump(r) ==> r[1] in chains
  }

  function Cleared(chains: Chains, cs: set<string>): Chains {
    chains + map c | c in cs :: []
  }

  /** Chains `cs` hold what appending `expected` to them yields, the others are as before. */
  function Appended(chains: Chains, expected: Chains, cs: set<string>): Chains
    requires cs <= expected.Keys && cs <= chains.Keys
  {
    chains + map c | c in cs :: AppendAll(chains[c], expected[c])
  }

  function Replaced(chains: Chains, expected: Chains): Chains {
    chains + map c | c in expected :: Dedup(expected[c])
  }

  /** After a replacement each expected chain has the expected rules once each and no others; every other chain is untouched
      and no chain is gone. */
  lemma ReplacedMeaning(chains: Chains, expected: Chains, c: string)
    ensures c in Replaced(chains, expected) <==> c in chains || c in expected
    ensures c in expected ==>
              var now := Replaced(chains, expected)[c];
              (forall r :: r in now <==> r in expected[c]) && (forall i, j :: 0 <= i < j < |now| ==> now[i] != now[j])
    ensures c in chains && c !in expected ==> Replaced(chains, expected)[c] == chains[c]
  {
    if c in expected {
      AppendAllMeaning([], expected[c]);
    }
  }

  /** `now` is `rules` with an initial part of `more` appended. */
  ghost predicate Partial(rules: seq<RuleSpec>, more: seq<RuleSpec>, now: seq<RuleSpec>) {
    exists n: nat :: n <= |more| && now == AppendAll(rules, more[..n])
  }

  lemma PartialEnds(rules: seq<RuleSpec>, more: seq<RuleSpec>)
    ensures Partial(rules, more, rules) && Partial(rules, more, AppendAll(rules, more))
  {
    assert rules == AppendAll(rules, more[..0]);
    assert more[..|more|] == more;
  }

  /** What is left when replacing stops anywhere: chains that are not named are untouched, and a named one
      has its old rules or an initial part of the expected ones. */
  ghost predicate PartlyReplaced(before: Chains, expected: Chains, after: Chains) {
    && before.Keys <= after.Keys <= before.Keys + expected.Keys
    && (forall c :: c in after && c !in expected ==> c in before && after[c] == before[c])
    && (forall c :: c in after && c in expected ==>
          || (c in before && after[c] == before[c])
          || Partial([], expected[c], after[c]))
  }

  ghost predicate PartlyAppended(before: Chains, expected: Chains, after: Chains) {
    && before.Keys == after.Keys
    && (forall c :: c in after && c !in expected ==> after[c] == before[c])
    && (forall c :: c in after && c in expected ==> Partial(before[c], expected[c], after[c]))
  }

  class Table {
    var chains: Chains
    /** False while iptables calls may fail for reasons outside the table */
    var healthy: bool

    constructor ()
      ensures chains == map[PREROUTING := [], POSTROUTING := []] && healthy
    {
      chains := map[PREROUTING := [], POSTROUTING := []];
      healthy := true;
    }

    /** Creates the chain if it does not exist */
    method ClearChain(chain: string) returns (ok: bool)
      modifies this`chains
      ensures healthy ==> ok
      ensures chains == if ok then old(chains)[chain := []] else old(chains)
    {
      ok := *;
      if healthy {
        ok := true;
      }
      if ok {
        chains := chains[chain := []];
      }
    }

    method AppendUnique(chain: string, rule: RuleSpec) returns (ok: bool)
      modifies this`chains
      ensures ok ==> CanAppend(old(chains), chain, rule) && chains == old(chains)[chain := AppendOne(old(chains)[chain], rule)]
      ensures !ok ==> chains == old(chains)
      ensures healthy && CanAppend(old(chains), chain, rule) ==> ok
    {
      ok := *;
      if healthy {
        ok := true;
      }
      if !CanAppend(chains, chain, rule) {
        ok := false;
      }
      if ok && rule !in chains[chain] {
        chains := chains[chain := chains[chain] + [rule]];
      }
    }

    /** The inner loop of appendChains */
    method AppendRules(chain: string, rules: seq<RuleSpec>) returns (ok: bool, n: nat)
      modifies this`chains
      ensures n <= |rules| && (ok ==> n == |rules|)
      ensures chain in old(chains) ==> chains == old(chains)[chain := AppendAll(old(chains)[chain], rules[..n])]
      ensures chain !in old(chains) ==> chains == old(chains) && (ok ==> rules == [])
      ensures TargetsDefined(old(chains)) ==> TargetsDefined(chains)
      ensures healthy && (forall r :: r in rules ==> CanAppend(old(chains), chain, r)) ==> ok
    {
      n := 0;
      assert chain in chains ==> chains == chains[chain := AppendAll(chains[chain], rules[..0])];
      while n < |rules|
        invariant n <= |rules|
        invariant chain in old(chains) ==> chains == old(chains)[chain := AppendAll(old(chains)[chain], rules[..n])]
        invariant chain !in old(chains) ==> chains == old(chains) && n == 0
        invariant chains.Keys == old(chains).Keys
        invariant TargetsDefined(old(chains)) ==> TargetsDefined(chains)
      {
        assert rules[..n + 1][..n] == rules[..n];
        assert rules[n] in rules;
        ghost var before := chains;
        ok := AppendUnique(chain, rules[n]);
        if !ok {
          return;
        }
        AppendKeepsTargets(before, chain, rules[n]);
        n := n + 1;
      }
      assert rules[..n] == rules;
      ok := true;
    }

    /** The first loop of appendChains, over the chains in any order */
    method ClearChains(expected: Chains) returns (ok: bool)
      modifies this`chains
      ensures exists cs :: cs <= expected.Keys && chains == Cleared(old(chains), cs) && (ok ==> cs == expected.Keys)
      ensures healthy ==> ok
    {
      var todo := expected.Keys;
      assert Cleared(chains, {}) == chains;
      hide Cleared;
      while todo != {}
        invariant todo <= expected.Keys
        invariant chains == Cleared(old(chains), expected.Keys - todo)
      {
        var c :| c in todo;
        assert expected.Keys - (todo - {c}) == (expected.Keys - todo) + {c};
        OneMoreCleared(old(chains), expected.Keys - todo, c);
        ok := ClearChain(c);
        if !ok {
          return;
        }
        todo := todo - {c};
      }
      assert expected.Keys - todo == expected.Keys;
      ok := true;
    }

    /** The second loop of appendChains, over the chains in any order */
    method FillChains(expected: Chains) returns (ok: bool)
      modifies this`chains
      ensures PartlyAppended(old(chains), expected, chains)
      ensures ok ==> chains == Appended(old(chains), expected, expected.Keys * old(chains).Keys)
      ensures ok ==> forall c :: c in expected && expected[c] != [] ==> c in old(chains)
      ensures TargetsDefined(old(chains)) ==> TargetsDefined(chains)
      ensures healthy && (forall c, r :: c in expected && r in expected[c] ==> CanAppend(old(chains), c, r)) ==> ok
    {
      hide PartlyAppended, TargetsDefined;
      var todo := expected.Keys;
      ghost var done: set<string> := {};
      assert Appended(chains, expected, {}) == chains;
      while todo != {}
        invariant todo <= expected.Keys && done == (expected.Keys - todo) * old(chains).Keys
        invariant chains == Appended(old(chains), expected, done)
        invariant forall c :: c in expected.Keys - todo && expected[c] != [] ==> c in old(chains)
        invariant TargetsDefined(old(chains)) ==> TargetsDefined(chains)
      {
        var c :| c in todo;
        ghost var before := chains;
        assert chains.Keys == old(chains).Keys;
        var n;
        ok, n := AppendRules(c, expected[c]);
        OneMoreAppended(old(chains), expected, done, c, before, n, chains);
        if !ok {
          return;
        }
        todo := todo - {c};
        assert (expected.Keys - todo) * old(chains).Keys == done + ({c} * old(chains).Keys);
        done := (expected.Keys - todo) * old(chains).Keys;
      }
      assert done == expected.Keys * old(chains).Keys;
      AppendedIsPartly(old(chains), expected, done);
      ok := true;
    }

    method AppendChains(expected: Chains, flash: bool) returns (ok: bool)
      modifies this`chains
      ensures flash ==> PartlyReplaced(old(chains), expected, chains) && (ok ==> chains == Replaced(old(chains), expected))
      ensures !flash ==> PartlyAppended(old(chains), expected, chains)
      ensures !flash && ok ==> chains == Appended(old(chains), expected, expected.Keys * old(chains).Keys)
      ensures TargetsDefined(old(chains)) ==> TargetsDefined(chains)
      ensures healthy && flash && JumpsInto(expected, old(chains).Keys + expected.Keys) ==> ok
      ensures healthy && !flash && expected.Keys <= old(chains).Keys && JumpsInto(expected, old(chains).Keys) ==> ok
    {
      hide PartlyAppended;
      if flash {
        ok := ClearChains(expected);
        ghost var cs :| cs <= expected.Keys && chains == Cleared(old(chains), cs) && (ok ==> cs == expected.Keys);
        ClearedIsPartly(old(chains), expected, cs);
        if !ok {
          return;
        }
        ok := FillChains(expected);
        FilledIsReplaced(old(chains), expected, chains);
        return;
      }
      ok := FillChains(expected);
    }

    method ReplaceChains(expected: Chains) returns (ok: bool)
      modifies this`chains
      ensures PartlyReplaced(old(chains), expected, chains)
      ensures ok ==> chains == Replaced(old(chains), expected)
      ensures TargetsDefined(old(chains)) ==> TargetsDefined(chains)
      ensures healthy && JumpsInto(expected, old(chains).Keys + expected.Keys) ==> ok
    {
      ok := AppendChains(expected, true);
    }

    method AddChains(expected: Chains) returns (ok: bool)
      requires expected.Keys <= chains.Keys
      modifies this`chains
      ensures PartlyAppended(old(chains), expected, chains)
      ensures ok ==> chains == Appended(old(chains), expected, expected.Keys)
      ensures TargetsDefined(old(chains)) ==> TargetsDefined(chains)
      ensures healthy && JumpsInto(expected, old(chains).Keys) ==> ok
    {
      ok := AppendChains(expected, false);
      assert expected.Keys * old(chains).Keys == expected.Keys;
    }

    /** checkChainsExist: true only if every expected rule is there; when nothing fails, exactly then */
    method CheckChainsExist(expected: Chains) returns (found: bool)
      ensures found ==> Contains(chains, expected)
      ensures healthy && Contains(chains, expected) ==> found
    {
      var todo := expected.Keys;
      while todo != {}
        invariant todo <= expected.Keys
        invariant forall c, r :: c in expected.Keys - todo && r in expected[c] ==> c in chains && r in chains[c]
      {
        var c :| c in todo;
        for i := 0 to |expected[c]|
          invariant forall r :: r in expected[c][..i] ==> c in chains && r in chains[c]
        {
          assert expected[c][i] in expected[c];
          var there, ok := Exists(c, expected[c][i]);
          if !ok || !there {
            return false;
          }
        }
        assert expected[c][..|expected[c]|] == expected[c];
        todo := todo - {c};
      }
      return true;
    }

    method Exists(chain: string, rule: RuleSpec) returns (exists_: bool, ok: bool)
      ensures ok ==> exists_ == (chain in chains && rule in chains[chain])
      ensures healthy ==> ok
    {
      ok := *;
      if healthy {
        ok := true;
      }
      exists_ := chain in chains && rule in chains[chain];
    }
  }

  /** Every jump in the expected rules leads to one of the chains `cs`. */
  predicate JumpsInto(expected: Chains, cs: set<string>) {
    forall c :: c in expected ==> forall r :: r in expected[c] && IsJump(r) ==> r[1] in cs
  }

  ghost predicate Contains(chains: Chains, expected: Chains) {
    forall c, r :: c in expected && r in expected[c] ==> c in chains && r in chains[c]
  }

  ghost predicate HasRule(chains: Chains, chain: string, r: RuleSpec) {
    chain in chains && r in chains[chain]
  }

  lemma ContainsTwo(chains: Chains, a: string, rules: seq<RuleSpec>, b: string, more: seq<RuleSpec>)
    requires a != b
    ensures Contains(chains, map[a := rules, b := more]) <==>
            (forall r :: r in rules ==> HasRule(chains, a, r)) && (forall r :: r in more ==> HasRule(chains, b, r))
  {
    var it := map[a := rules, b := more];
    assert it[a] == rules && it[b] == more;
  }

  lemma AppendKeepsTargets(chains: Chains, chain: string, r: RuleSpec)
    requires CanAppend(chains, chain, r)
    ensures TargetsDefined(chains) ==> TargetsDefined(chains[chain := AppendOne(chains[chain], r)])
  {
  }

  lemma OneMoreAppended(before: Chains, expected: Chains, done: set<string>, c: string, now: Chains, n: nat, after: Chains)
    requires done <= expected.Keys && done <= before.Keys && c in expected && c !in done
    requires now == Appended(before, expected, done) && n <= |expected[c]|
    requires after == if c in now then now[c := AppendAll(now[c], expected[c][..n])] else now
    ensures PartlyAppended(before, expected, after)
    ensures n == |expected[c]| ==> after == Appended(before, expected, done + ({c} * before.Keys))
  {
    hide AppendAll;
    assert expected[c][..|expected[c]|] == expected[c];
    AppendedIsPartly(before, expected, done);
    forall d | d in after && d in expected ensures Partial(before[d], expected[d], after[d]) {
      if d != c {
        assert after[d] == now[d];
      }
    }
  }

  lemma AppendedIsPartly(before: Chains, expected: Chains, done: set<string>)
    requires done <= expected.Keys && done <= before.Keys
    ensures PartlyAppended(before, expected, Appended(before, expected, done))
  {
    hide Partial;
    var after := Appended(before, expected, done);
    forall d | d in after && d in expected ensures Partial(before[d], expected[d], after[d]) {
      PartialEnds(before[d], expected[d]);
    }
  }

  lemma OneMoreCleared(chains: Chains, cs: set<string>, c: string)
    ensures Cleared(chains, cs + {c}) == Cleared(chains, cs)[c := []]
  {
  }

  lemma ClearedIsPartly(before: Chains, expected: Chains, cs: set<string>)
    requires cs <= expected.Keys
    ensures PartlyReplaced(before, expected, Cleared(before, cs))
    ensures TargetsDefined(before) ==> TargetsDefined(Cleared(before, cs))
  {
    hide Partial;
    var after := Cleared(before, cs);
    forall c | c in after && c in cs ensures Partial([], expected[c], after[c]) {
      PartialEnds([], expected[c]);
    }
  }

  lemma FilledIsReplaced(before: Chains, expected: Chains, after: Chains)
    requires PartlyAppended(Cleared(before, expected.Keys), expected, after)
    ensures PartlyReplaced(before, expected, after)
    ensures Appended(Cleared(before, expected.Keys), expected, expected.Keys) == Replaced(before, expected)
    ensures expected.Keys * Cleared(before, expected.Keys).Keys == expected.Keys
  {
    hide AppendAll, Partial;
    ClearedFacts(before, expected);
    AppendedToCleared(before, expected, Cleared(before, expected.Keys));
    forall c | c in after && c in expected ensures Partial([], expected[c], after[c]) {
      assert Cleared(before, expected.Keys)[c] == [];
    }
  }

  lemma ClearedFacts(before: Chains, expected: Chains)
    ensures var cleared := Cleared(before, expected.Keys);
            && cleared.Keys == before.Keys + expected.Keys
            && expected.Keys * cleared.Keys == expected.Keys
            && forall c :: c in cleared ==> cleared[c] == if c in expected then [] else before[c]
  {
  }

  lemma AppendedToCleared(before: Chains, expected: Chains, cleared: Chains)
    requires cleared.Keys == before.Keys + expected.Keys
    requires forall c :: c in cleared ==> cleared[c] == if c in expected then [] else before[c]
    ensures Appended(cleared, expected, expected.Keys) == Replaced(before, expected)
  {
    hide AppendAll;
    var a, b := Appended(cleared, expected, expected.Keys), Replaced(before, expected);
    assert a.Keys == b.Keys;
    forall c | c in a ensures a[c] == b[c] {}
  }

  /** A successful replacement after any number of replacements that stopped anywhere yields the same table
      as one successful replacement from the start. */
  lemma {:induction false} RetryRecovers(tables: seq<Chains>, expected: Chains)
    requires tables != []
    requires forall i :: 0 <= i < |tables| - 1 ==> PartlyReplaced(tables[i], expected, tables[i + 1])
    ensures Replaced(tables[|tables| - 1], expected) == Replaced(tables[0], expected)
    ensures Contains(Replaced(tables[|tables| - 1], expected), expected)
    decreases |tables|
  {
    hide AppendAll, Partial;
    if |tables| > 1 {
      var last := |tables| - 1;
      RetryRecovers(tables[..last], expected);
      assert PartlyReplaced(tables[last - 1], expected, tables[last]);
    }
    var t := tables[|tables| - 1];
    forall c, r | c in expected && r in expected[c] ensures r in Replaced(t, expected)[c] {
      AppendAllMeaning([], expected[c]);
    }
  }
}
