// One forwarder object, its agent and the machine it works on, joined in one protocol run: what a synced
// forwarder object says is what its tunnels and chains do.
module ForwarderRun {
  import opened Text
  import opened Api
  import opened PortPool
  import opened RuleGen
  import opened Operator
  import opened EgressCapacity
  import opened Handshake
  import opened NatTable
  import opened Tunnels
  import opened ForwarderAgent
  import opened EgressRouting

  /** What the agent keeps on its machine: the keys of its running tunnels, and its own nat table */
  datatype Machine = Machine(tunnels: set<string>, remoteTunnels: set<string>, chains: Chains)

  ghost predicate AppliedTo(m: Machine, spec: ForwarderSpec) {
    && m.tunnels == ExpectedTunnels(spec) && m.remoteTunnels == ExpectedRemoteTunnels(spec)
    && m.chains == Replaced(m.chains, ExpectedRules(spec))
  }

  ghost function MachineOf(f: Reconciler): Machine
    reads f.tunnels, f.remoteTunnels, f.table
  {
    Machine(f.tunnels.tunnels.Keys, f.remoteTunnels.tunnels.Keys, f.table.chains)
  }

  /** The agent of `ForwarderAgent` has applied a spec exactly when its machine has. */
  lemma AppliedIffMachine(f: Reconciler, spec: ForwarderSpec)
    ensures f.Applied(spec) <==> AppliedTo(MachineOf(f), spec)
  {
    hide ExpectedTunnels, ExpectedRemoteTunnels, ExpectedRules, Replaced;
  }

  datatype Site = Site(obj: State<ForwarderSpec>, machine: Machine)

  datatype SiteStep = SiteStep(step: Step<ForwarderSpec>, after: Machine)

  /** What a step may do to the machine: only an apply changes it. A completed one does what SyncRule promises; one
      that is cut off may leave anything. */
  ghost predicate Changes(s: State<ForwarderSpec>, step: Step<ForwarderSpec>, before: Machine, after: Machine) {
    if s.agent.AgApplying? && step.AgApply? then
      var spec := s.agent.c.spec;
      && after.tunnels == ExpectedTunnels(spec) && after.remoteTunnels == ExpectedRemoteTunnels(spec)
      && PartlyReplaced(before.chains, ExpectedRules(spec), after.chains)
      && (step.ok ==> after.chains == Replaced(before.chains, ExpectedRules(spec)))
    else
      (s.agent.AgApplying? && step.AgAbort?) || after == before
  }

  ghost predicate LegalSteps(site: Site, steps: seq<SiteStep>)
    decreases |steps|
  {
    steps == [] ||
    (&& site.obj.history != [] && Changes(site.obj, steps[0].step, site.machine, steps[0].after)
     && LegalSteps(Site(Take(site.obj, steps[0].step), steps[0].after), steps[1..]))
  }

  ghost function After(site: Site, steps: seq<SiteStep>): Site
    requires LegalSteps(site, steps)
    decreases |steps|
  {
    if steps == [] then site else After(Site(Take(site.obj, steps[0].step), steps[0].after), steps[1..])
  }

  ghost predicate SiteOk(site: Site) {
    Inv(site.obj) && (site.obj.node.Clean? ==> AppliedTo(site.machine, site.obj.node.spec))
  }

  lemma StepKeepsSiteOk(site: Site, st: SiteStep)
    requires SiteOk(site) && site.obj.history != [] && Changes(site.obj, st.step, site.machine, st.after)
    ensures SiteOk(Site(Take(site.obj, st.step), st.after))
  {
    var s := site.obj;
    TakeKeepsInv(s, st.step);
    NodeAfter(s, st.step);
    ApplyingIsDirty(s);
    hide Inv, Take, ExpectedTunnels, ExpectedRemoteTunnels, ExpectedRules, PartlyReplaced, Replaced;
    if s.agent.AgApplying? {
      ReplacedTwice(site.machine.chains, ExpectedRules(s.agent.c.spec));
    }
  }

  lemma ApplyingIsDirty(s: State<ForwarderSpec>)
    requires Inv(s)
    ensures s.agent.AgApplying? ==> s.node == Dirty
  {
  }

  lemma NodeAfter(s: State<ForwarderSpec>, step: Step<ForwarderSpec>)
    requires s.history != []
    ensures var t := Take(s, step);
            || t.node == s.node || t.node == Dirty
            || (s.agent.AgApplying? && step == AgApply(true) && t.node == Clean(s.agent.c.spec))
  {
  }

  lemma {:induction false} RunKeepsSiteOk(site: Site, steps: seq<SiteStep>)
    requires SiteOk(site) && LegalSteps(site, steps)
    ensures SiteOk(After(site, steps))
    decreases |steps|
  {
    hide SiteOk, Take, Changes;
    if steps != [] {
      StepKeepsSiteOk(site, steps[0]);
      RunKeepsSiteOk(Site(Take(site.obj, steps[0].step), steps[0].after), steps[1..]);
    }
  }

  /** Sync safety down to the machine, under every interleaving of the two parties, with rejected writes, crashes and
      applies that stop anywhere: whenever the forwarder object says it is synced, exactly the tunnels and chains of
      its current spec are in place. */
  lemma SyncedForwarderIsApplied(initial: ForwarderSpec, machine: Machine, steps: seq<SiteStep>)
    requires LegalSteps(Site(Init(initial), machine), steps)
    requires var t := After(Site(Init(initial), machine), steps); t.obj.history != [] && NeedCheckSync(Current(t.obj).status)
    ensures var t := After(Site(Init(initial), machine), steps); AppliedTo(t.machine, Current(t.obj).spec)
  {
    InitInv(initial);
    RunKeepsSiteOk(Site(Init(initial), machine), steps);
    var t := After(Site(Init(initial), machine), steps);
    hide AppliedTo, LegalSteps, After, HistoryOk, AgentOk, StartedOk, OperatorOk;
    assert NodeOk(t.obj);
  }

  /** And so, whenever the object says it is synced and holds generated rules, a connection from an endpoint of a
      source is sent to a relay port where exactly one tunnel of the machine listens, the one to the target, if and
      only if everybody who asks for that address and port asks for the same way out. */
  lemma SyncedForwarderRoutes(initial: ForwarderSpec, machine: Machine, steps: seq<SiteStep>,
                              es: ExternalService, view: ClusterView, before: seq<ForwarderRule>, addr: string, src: Source, port: Port)
    returns (relay: string)
    requires LegalSteps(Site(Init(initial), machine), steps)
    requires var t := After(Site(Init(initial), machine), steps);
             && t.obj.history != [] && NeedCheckSync(Current(t.obj).status)
             && EgressRules(es, view, UsedPortsForEgress(before)) == Some(Current(t.obj).spec.egressRules)
             && NoColons(es, Current(t.obj).spec.forwarderIP)
    requires NoColonInPorts(before) && Asks(es, view, addr, port.targetPort, src, port)
    ensures IsPort(relay)
    ensures var t := After(Site(Init(initial), machine), steps);
            var fip := Current(t.obj).spec.forwarderIP;
            && PREROUTING in t.machine.chains
            && Evaluate(t.machine.chains, t.machine.chains[PREROUTING], Packet(addr, fip, port.targetPort)) == Some(DNAT(Endpoint(fip, relay)))
            && (OnlyTunnel(t.machine.tunnels, Wanted(es, fip, relay, src, port)) <==> SoleDemand(es, view, addr, src, port))
  {
    hide *;
    SyncedForwarderIsApplied(initial, machine, steps);
    var t := After(Site(Init(initial), machine), steps);
    var spec := Current(t.obj).spec;
    AppliedMeans(t.machine, spec);
    AppliedChainDst(spec, t.machine.chains, Packet("", "", ""));
    relay := DemandedIsRouted(es, view, before, spec, t.machine.chains, addr, src, port);
  }

  lemma AppliedMeans(m: Machine, spec: ForwarderSpec)
    requires AppliedTo(m, spec)
    ensures m.tunnels == ExpectedTunnels(spec) && m.remoteTunnels == ExpectedRemoteTunnels(spec)
    ensures m.chains == Replaced(m.chains, ExpectedRules(spec))
  {
  }
}
