// Exactly when an interrupted reconcile can make two forwarders share a relay port.
module Harm {
  import opened Text
  import opened Address
  import opened Api
  import opened PortPool
  import opened RuleGen
  import opened Operator
  import opened Ledger
  import opened Printed
  import opened Interruption

  // ----- a free key for every gateway that has a free port -----

  lemma {:induction false} InjectionSize<T>(a: set<T>, b: set<T>, f: map<T, T>)
    requires f.Keys == a && (forall n :: n in a ==> f[n] in b) && forall m, n :: m in a && n in a && f[m] == f[n] ==> m == n
    ensures |a| <= |b|
    decreases |a|
  {
    if |a| > 0 {
      var n :| n in a;
      var rest := map m | m in f && m != n :: f[m];
      assert rest.Keys == a - {n};
      InjectionSize(a - {n}, b - {f[n]}, rest);
      assert |a - {n}| == |a| - 1 && |b - {f[n]}| == |b| - 1;
    }
  }

  ghost function Ports16(from: int): (r: set<int>)
    ensures forall n :: n in r <==> from <= n <= 65535
    decreases 65536 - from
  {
    if from > 65535 then {} else {from} + Ports16(from + 1)
  }

  lemma {:induction false} Ports16Size(from: int)
    requires from <= 65536
    ensures |Ports16(from)| == 65536 - from
    decreases 65536 - from
  {
    if from <= 65535 {
      Ports16Size(from + 1);
    }
  }

  /** The number of the port that holds the key */
  ghost function Holder(pool: Pool, key: string): (n: int)
    requires Held(pool, key) && forall p :: p in pool ==> IsPort(p)
    ensures n in InRange(pool) && pool[Itoa(n)] == key
  {
    var p :| p in pool && pool[p] == key;
    assert IsPort(p);
    var n :| 2049 <= n <= 65536 && p == Itoa(n);
    n
  }

  /** A pool with a free port does not hold all 65535 ports of any one external server. */
  lemma FreeKey(pool: Pool, target: string) returns (n: int)
    requires FirstFree(pool, MIN_PORT).Some? && forall p :: p in pool ==> IsPort(p)
    ensures 1 <= n <= 65535 && !Held(pool, Key(target, Itoa(n)))
  {
    hide FirstFree, Held, IsPort, Itoa, InRange;
    if forall m :: 1 <= m <= 65535 ==> Held(pool, Key(target, Itoa(m))) {
      var f := map m | m in Ports16(1) :: Holder(pool, Key(target, Itoa(m)));
      forall m, k | m in Ports16(1) && k in Ports16(1) && f[m] == f[k] ensures m == k {
        ItoaHasNoSeparator(m);
        ItoaHasNoSeparator(k);
        KeyInjective(target, Itoa(m), target, Itoa(k));
        ItoaInjective(m, k);
      }
      InjectionSize(Ports16(1), InRange(pool), f);
      Ports16Size(1);
      FreePortExists(pool);
      assert false;
    }
    n :| 1 <= n <= 65535 && !Held(pool, Key(target, Itoa(n)));
  }

  // ----- the next ExternalService gets the same port -----

  /** Some key that `ts` asks of gateway g is new there. */
  ghost predicate AsksNew(s: System, ts: seq<ForwarderRule>, g: string) {
    exists r :: r in ts && r.gateway.name == g && !Known(s, g, RuleKey(r))
  }

  /** The first new key at a gateway gets the gateway's first free port. */
  lemma FirstNewRule(s: System, es: ExternalService, view: ClusterView, g: string) returns (r: ForwarderRule)
    requires GatewaysOk(s) && NewForwarderSpec(s, es, view).Some? && ValidSources(es.sources)
    requires AsksNew(s, IngressTemplates(es, view, es.sources), g)
    ensures r in NewForwarderSpec(s, es, view).value.ingressRules && WellFormed(r) && r.gateway.name == g
    ensures r.sourceIP == es.targetIP
    ensures var pool := PoolOf(UsedPortsForIngress(s.gateways), g);
            FirstFree(pool, MIN_PORT).Some? && r.relayPort == Itoa(FirstFree(pool, MIN_PORT).value)
  {
    hide GetRuleName, NewForwarderSpec, Serves, IngressTemplates, Itoa, WellFormed, HeldAt, FirstFree, Known, Held, GatewaysOk;
    NewRulesHeld(s, es, view);
    var ts := IngressTemplates(es, view, es.sources);
    var pools := UsedPortsForIngress(s.gateways);
    var ds := Demands(Ingress, ts);
    var t0 :| t0 in ts && t0.gateway.name == g && !Known(s, g, RuleKey(t0));
    var k :| 0 <= k < |ts| && ts[k] == t0;
    KnownIffHeld(s, g, RuleKey(t0));
    assert ds[k] == DemandOf(Ingress, t0);
    var i := FirstUnheld(ds, pools, g, k);
    FirstNewKey(ds, pools, i);
    TemplateSource(es, view, i);
    r := NewForwarderSpec(s, es, view).value.ingressRules[i];
    assert ds[i] == DemandOf(Ingress, ts[i]);
  }

  lemma TemplateSource(es: ExternalService, view: ClusterView, i: nat)
    requires ValidSources(es.sources) && i < |IngressTemplates(es, view, es.sources)|
    ensures IngressTemplates(es, view, es.sources)[i].sourceIP == es.targetIP
  {
    hide GetRuleName;
    assert es.sources[..|es.sources|] == es.sources;
    IngressTemplatesMeaning(es, view, |es.sources|, IngressTemplates(es, view, es.sources)[i]);
  }

  /** Any other ExternalService whose next reconcile asks an unreached gateway with a new key for one key that the
      gateway does not know either ends up on the same relay port. */
  lemma NextReconcileSharesPort(s: System, es: ExternalService, view: ClusterView, order: seq<string>, written: set<string>, t: System,
                                ip: string, name: string, target: string, port: int, listed: seq<string>)
    requires Recoverable(s, es.name) && StoppedWriting(s, es, view, order, written, t) && ValidSources(es.sources)
    requires GetRuleName(ip).Some? && GetRuleName(ip).value !in written
    requires AsksNew(s, IngressTemplates(es, view, es.sources), GetRuleName(ip).value)
    requires !Known(s, GetRuleName(ip).value, Key(target, Itoa(port))) && name != es.name && target != es.targetIP
    requires LegalOp(t, Reconcile(OneSource(name, target, ip), OneService(port), listed))
    ensures SharedPort(Apply(t, Reconcile(OneSource(name, target, ip), OneService(port), listed)), es.name, name)
  {
    hide GetRuleName, NewForwarderSpec, StoppedWriting, WellFormed, GatewayOk, RuleCovered, Known, Held, Itoa, AsksNew, FirstFree, IngressTemplates, UsedPortsForIngress, PoolOf;
    var g := GetRuleName(ip).value;
    StoppedMeans(s, es, view, order, written, t);
    var r := FirstNewRule(s, es, view, g);
    UnreachedPoolSame(s, es, view, order, written, t, g);
    KnownIffHeld(s, g, Key(target, Itoa(port)));
    OneForwarder(t, name, target, ip, port);
    BothHold(t, es.name, name, target, ip, port, listed, r);
  }

  lemma BothHold(t: System, first: string, name: string, target: string, ip: string, port: int, listed: seq<string>, r: ForwarderRule)
    requires first in t.forwarders && r in t.forwarders[first].spec.ingressRules && first != name && r.sourceIP != target
    requires GetRuleName(ip).Some? && WellFormed(r) && r.gateway.name == GetRuleName(ip).value
    requires NewForwarderSpec(t, OneSource(name, target, ip), OneService(port)) == Some(SpecOf(target, ip, port, r.relayPort))
    requires LegalOp(t, Reconcile(OneSource(name, target, ip), OneService(port), listed))
    ensures SharedPort(Apply(t, Reconcile(OneSource(name, target, ip), OneService(port), listed)), first, name)
  {
    hide GetRuleName, NewForwarderSpec, Itoa;
    var op := Reconcile(OneSource(name, target, ip), OneService(port), listed);
    AfterReconcile(t, name, SpecOf(target, ip, port, r.relayPort), listed);
    var q := SpecOf(target, ip, port, r.relayPort).ingressRules[0];
    assert r.gateway == q.gateway;
    assert SharesPort(Apply(t, op), first, name, r, q);
  }

  // ----- the exact condition -----

  ghost predicate NeverShared(t: System) {
    forall ops, m, n :: LegalRun(t, ops) ==> !SharedPort(Run(t, ops), m, n)
  }

  lemma InvNeverShares(t: System)
    requires Inv(t)
    ensures NeverShared(t)
  {
    hide Inv, LegalRun, Run, RuleCovered;
    forall ops, m, n | LegalRun(t, ops) ensures !SharedPort(Run(t, ops), m, n) {
      RunKeepsInv(t, ops);
      var u := Run(t, ops);
      if m in u.forwarders && n in u.forwarders {
        forall r, q ensures !SharesPort(u, m, n, r, q) {
          if SharesPort(u, m, n, r, q) {
            PortsAreExclusive(u, m, n, r, q);
            assert false;
          }
        }
      }
    }
  }

  lemma OneStep(t: System, op: Op)
    requires LegalOp(t, op)
    ensures LegalRun(t, [op]) && Run(t, [op]) == Apply(t, op)
  {
    hide LegalOp, Apply;
    assert [op][0] == op && [op][1..] == [];
    assert LegalRun(Apply(t, op), []) && Run(Apply(t, op), []) == Apply(t, op);
  }

  /** A new key at an unreached gateway does harm: a legal next reconcile of another ExternalService, with an IPv4
      target and a 16-bit port, takes the same relay port. */
  lemma UnreachedHarms(s: System, es: ExternalService, view: ClusterView, order: seq<string>, written: set<string>, t: System)
    returns (op: Op)
    requires GatewaysOk(s) && Recoverable(s, es.name) && Tidy(s) && StoppedWriting(s, es, view, order, written, t) && ValidSources(es.sources)
    requires !UnreachedKnown(s, IngressTemplates(es, view, es.sources), written)
    ensures LegalOp(t, op) && TidyOp(op) && op.Reconcile? && op.es.name != es.name
    ensures SharedPort(Apply(t, op), es.name, op.es.name)
  {
    hide GetRuleName, NewForwarderSpec, StoppedWriting, WellFormed, GatewayOk, RuleCovered, Known, Held, Itoa, FirstFree, IngressTemplates, Tidy, SharedPort, Apply, UsedPortsForIngress, GatewaysOk, Recoverable, IsPort;
    var ts := IngressTemplates(es, view, es.sources);
    var r0 :| r0 in ts && r0.gateway.name !in written && !Known(s, r0.gateway.name, RuleKey(r0));
    var g := r0.gateway.name;
    assert AsksNew(s, ts, g);
    StoppedSucceeds(s, es, view, order, written, t);
    var r := FirstNewRule(s, es, view, g);
    var ip := r.gatewayIP;
    WellFormedName(r);
    var target := if es.targetIP == "192.0.2.1" then "192.0.2.2" else "192.0.2.1";
    assert "192.0.2.1"[8] != "192.0.2.2"[8];
    var pool := PoolOf(UsedPortsForIngress(s.gateways), g);
    forall p | p in pool ensures IsPort(p) {
      TidyPools(s, g, p);
    }
    var port := FreeKey(pool, target);
    KnownIffHeld(s, g, Key(target, Itoa(port)));
    var name := es.name + "2";
    assert |name| != |es.name|;
    var listed := Listing(t.forwarders.Keys + {name});
    op := Reconcile(OneSource(name, target, ip), OneService(port), listed);
    NextReconcileSharesPort(s, es, view, order, written, t, ip, name, target, port, listed);
  }

  lemma StoppedSucceeds(s: System, es: ExternalService, view: ClusterView, order: seq<string>, written: set<string>, t: System)
    requires StoppedWriting(s, es, view, order, written, t)
    ensures NewForwarderSpec(s, es, view).Some?
  {
  }

  lemma WellFormedName(r: ForwarderRule)
    requires WellFormed(r)
    ensures GetRuleName(r.gatewayIP) == Some(r.gateway.name)
  {
  }

  /** A reconcile that stops between its writes is harmless, so that no run after it ever lets two forwarders share
      a relay port, if and only if every key it asked of a gateway it did not reach was in that gateway's rules. */
  lemma HarmlessIff(s: System, es: ExternalService, view: ClusterView, order: seq<string>, written: set<string>, t: System)
    requires Inv(s) && Tidy(s) && StoppedWriting(s, es, view, order, written, t)
    ensures ValidSources(es.sources)
    ensures NeverShared(t) <==> UnreachedKnown(s, IngressTemplates(es, view, es.sources), written)
  {
    hide *;
    InvIsRecoverable(s, es.name);
    InterruptionIsSafeIff(s, es, view, order, written, t);
    if UnreachedKnown(s, IngressTemplates(es, view, es.sources), written) {
      InvNeverShares(t);
    } else {
      var op := UnreachedHarms(s, es, view, order, written, t);
      OneStep(t, op);
      SharesAtOnce(t, op, es.name, op.es.name);
    }
  }

  lemma SharesAtOnce(t: System, op: Op, m: string, n: string)
    requires LegalRun(t, [op]) && SharedPort(Run(t, [op]), m, n)
    ensures !NeverShared(t)
  {
  }
}
