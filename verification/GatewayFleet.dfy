// All gateway objects, their agent and the one nat table it writes, joined in one protocol run: what a synced
// gateway object says is what the table does.
module GatewayFleet {
  import opened Address
  import opened Api
  import opened Handshake
  import opened NatTable
  import opened GatewayAgent

  /** Each gateway address has an object under the protocol of `Handshake`; all share one table. */
  datatype Fleet = Fleet(objs: map<string, State<GatewaySpec>>, chains: Chains)

  datatype FleetStep =
    | Create(ip: string)                                             // the operator creates an empty object
    | Act(ip: string, step: Step<GatewaySpec>, after: Chains)        // either party's step on one object

  predicate Applying(s: State<GatewaySpec>, step: Step<GatewaySpec>) {
    s.agent.AgApplying? && (step.AgApply? || step.AgAbort?)
  }

  /** What a step may do to the table: only an apply writes, and it writes what ApplyIptablesRules may. */
  ghost predicate Writes(s: State<GatewaySpec>, step: Step<GatewaySpec>, before: Chains, after: Chains) {
    if !Applying(s, step) then after == before
    else if GetHexIP(s.agent.c.spec.gatewayIP).None? then after == before && step != AgApply(true)
    else
      && HasBuiltins(before)
      && (after == before || MaybeApplied(before, s.agent.c.spec, after))
      && (step == AgApply(true) ==> after == AfterApply(before, s.agent.c.spec))
  }

  /** The operator writes a gateway's own address, or none that can be applied: a gateway that was created and not yet written
      has the empty address. */
  predicate OwnAddress(spec: GatewaySpec, ip: string) {
    spec.gatewayIP == ip || GetHexIP(spec.gatewayIP).None?
  }

  ghost predicate LegalStep(f: Fleet, st: FleetStep) {
    match st
    case Create(ip) => ip !in f.objs && GetHexIP(ip).Some?
    case Act(ip, step, after) =>
      && ip in f.objs && f.objs[ip].history != []
      && (step.OpWrite? ==> OwnAddress(step.spec, ip))
      && Writes(f.objs[ip], step, f.chains, after)
  }

  function Next(f: Fleet, st: FleetStep): Fleet
    requires st.Act? ==> st.ip in f.objs && f.objs[st.ip].history != []
  {
    match st
    case Create(ip) => f.(objs := f.objs[ip := Init(EMPTY_GATEWAY)])
    case Act(ip, step, after) => Fleet(f.objs[ip := Take(f.objs[ip], step)], after)
  }

  ghost predicate LegalSteps(f: Fleet, steps: seq<FleetStep>)
    decreases |steps|
  {
    steps == [] || (LegalStep(f, steps[0]) && LegalSteps(Next(f, steps[0]), steps[1..]))
  }

  ghost function After(f: Fleet, steps: seq<FleetStep>): Fleet
    requires LegalSteps(f, steps)
    decreases |steps|
  {
    if steps == [] then f else After(Next(f, steps[0]), steps[1..])
  }

  // ----- the invariant -----

  /** No version of the object is for another gateway. */
  ghost predicate Owned(history: seq<Obj<GatewaySpec>>, ip: string) {
    forall i :: 0 <= i < |history| ==> history[i].spec.gatewayIP == ip || GetHexIP(history[i].spec.gatewayIP).None?
  }

  /** The object follows the protocol, and what its protocol state takes for applied is in the table. */
  ghost predicate ObjectOk(s: State<GatewaySpec>, ip: string, chains: Chains) {
    && Inv(s) && Owned(s.history, ip)
    && (s.node.Clean? ==> Holds(chains, ip, s.node.spec))
  }

  ghost predicate FleetOk(f: Fleet) {
    HasBuiltins(f.chains) && forall ip :: ip in f.objs ==> GetHexIP(ip).Some? && ObjectOk(f.objs[ip], ip, f.chains)
  }

  /** The copy an agent works on is of its own gateway. */
  lemma CopyOwned(s: State<GatewaySpec>, ip: string)
    requires Inv(s) && Owned(s.history, ip) && s.agent.AgApplying?
    ensures s.agent.c.spec.gatewayIP == ip || GetHexIP(s.agent.c.spec.gatewayIP).None?
    ensures s.node == Dirty
  {
    hide GetHexIP;
  }

  lemma OwnedKept(s: State<GatewaySpec>, step: Step<GatewaySpec>, ip: string)
    requires Inv(s) && Owned(s.history, ip) && (step.OpWrite? ==> OwnAddress(step.spec, ip))
    ensures s.history != [] && Owned(Take(s, step).history, ip)
  {
    NonEmptyInv(s);
    hide GetHexIP, Inv, NeedSync, NeedCheckSync;
    assert Current(s).spec.gatewayIP == ip || GetHexIP(Current(s).spec.gatewayIP).None?;
    OperatorStores(s, step, ip);
    AgentStores(OperatorStep(s, step), step, ip);
  }

  lemma OperatorStores(s: State<GatewaySpec>, step: Step<GatewaySpec>, ip: string)
    requires s.history != [] && Owned(s.history, ip) && (step.OpWrite? ==> OwnAddress(step.spec, ip))
    ensures OperatorStep(s, step).history != [] && Owned(OperatorStep(s, step).history, ip)
  {
    hide GetHexIP;
    assert Current(s).spec.gatewayIP == ip || GetHexIP(Current(s).spec.gatewayIP).None?;
  }

  lemma AgentStores(s: State<GatewaySpec>, step: Step<GatewaySpec>, ip: string)
    requires s.history != [] && Owned(s.history, ip)
    ensures Owned(AgentStep(s, step).history, ip)
  {
    hide GetHexIP;
    assert Current(s).spec.gatewayIP == ip || GetHexIP(Current(s).spec.gatewayIP).None?;
  }

  /** How a step changes what is taken for applied */
  lemma NodeAfter(s: State<GatewaySpec>, step: Step<GatewaySpec>)
    requires s.history != []
    ensures var t := Take(s, step);
            || t.node == s.node || t.node == Dirty
            || (s.agent.AgApplying? && step == AgApply(true) && t.node == Clean(s.agent.c.spec))
  {
  }

  /** The object whose step it is */
  lemma OwnStep(s: State<GatewaySpec>, step: Step<GatewaySpec>, ip: string, before: Chains, after: Chains)
    requires HasBuiltins(before) && GetHexIP(ip).Some? && ObjectOk(s, ip, before) && s.history != []
    requires (step.OpWrite? ==> OwnAddress(step.spec, ip)) && Writes(s, step, before, after)
    ensures HasBuiltins(after) && ObjectOk(Take(s, step), ip, after)
  {
    TakeKeepsInv(s, step);
    OwnedKept(s, step, ip);
    NodeAfter(s, step);
    hide GetHexIP, Inv, Owned, Take, Holds, AfterApply, MaybeApplied;
    if Applying(s, step) {
      CopyOwned(s, ip);
      var spec := s.agent.c.spec;
      if GetHexIP(spec.gatewayIP).Some? {
        if after != before {
          ApplyIsConfined(before, spec, after);
        }
        OwnGatewayApplied(before, spec);
      }
    }
  }

  /** Every other object */
  lemma OtherStep(s: State<GatewaySpec>, step: Step<GatewaySpec>, ip: string, before: Chains, after: Chains,
                  other: State<GatewaySpec>, otherIP: string)
    requires HasBuiltins(before) && ObjectOk(s, ip, before) && Writes(s, step, before, after)
    requires otherIP != ip && GetHexIP(otherIP).Some? && ObjectOk(other, otherIP, before)
    ensures ObjectOk(other, otherIP, after)
  {
    hide GetHexIP, Inv, Owned, Holds, AfterApply, MaybeApplied;
    if Applying(s, step) && after != before {
      CopyOwned(s, ip);
      ApplyIsConfined(before, s.agent.c.spec, after);
      if other.node.Clean? {
        OtherGatewayKept(before, s.agent.c.spec.gatewayIP, after, otherIP, other.node.spec);
      }
    }
  }

  lemma StepKeepsFleetOk(f: Fleet, st: FleetStep)
    requires FleetOk(f) && LegalStep(f, st)
    ensures FleetOk(Next(f, st))
  {
    hide GetHexIP, ObjectOk, Writes, Take, HasBuiltins;
    match st
    case Create(ip) =>
      CreatedOk(ip, f.chains);
    case Act(ip, step, after) =>
      OwnStep(f.objs[ip], step, ip, f.chains, after);
      forall other | other in f.objs && other != ip ensures ObjectOk(f.objs[other], other, after) {
        OtherStep(f.objs[ip], step, ip, f.chains, after, f.objs[other], other);
      }
  }

  lemma CreatedOk(ip: string, chains: Chains)
    ensures ObjectOk(Init(EMPTY_GATEWAY), ip, chains)
  {
    InitInv(EMPTY_GATEWAY);
    assert GetHexIP("").None?;
  }

  /** What the table says besides does not speak about packets to a gateway, if it did not at the start. */
  lemma StepKeepsSilence(f: Fleet, st: FleetStep, p: Packet)
    requires FleetOk(f) && LegalStep(f, st) && GetHexIP(p.dst).Some? && OthersSilent(f.chains, p)
    ensures HasBuiltins(Next(f, st).chains) && OthersSilent(Next(f, st).chains, p)
  {
    StepKeepsFleetOk(f, st);
    hide GetHexIP, ObjectOk, Take, OthersSilent, MaybeApplied, AfterApply;
    if st.Act? && Applying(f.objs[st.ip], st.step) && st.after != f.chains {
      SilenceKept(f.chains, f.objs[st.ip].agent.c.spec, st.after, p);
    }
  }

  lemma {:induction false} RunKeepsFleetOk(f: Fleet, steps: seq<FleetStep>, p: Packet)
    requires FleetOk(f) && LegalSteps(f, steps)
    ensures FleetOk(After(f, steps))
    ensures GetHexIP(p.dst).Some? && OthersSilent(f.chains, p) ==> OthersSilent(After(f, steps).chains, p)
    decreases |steps|
  {
    hide GetHexIP, Writes, Next, OthersSilent, ObjectOk;
    if steps != [] {
      StepKeepsFleetOk(f, steps[0]);
      BuiltinsOf(f);
      if GetHexIP(p.dst).Some? && OthersSilent(f.chains, p) {
        StepKeepsSilence(f, steps[0], p);
      }
      RunKeepsFleetOk(Next(f, steps[0]), steps[1..], p);
    }
  }

  lemma BuiltinsOf(f: Fleet)
    requires FleetOk(f)
    ensures HasBuiltins(f.chains)
  {
  }

  /** Sync safety down to the table, under every interleaving of the operator and the agent over all gateway objects,
      with rejected writes, crashes and applies that stop anywhere: whenever a gateway object says it is synced, the
      table holds exactly the rules of its current spec, and a packet to the gateway that nothing else in the table
      spoke about at the start gets the verdict of these rules. */
  lemma SyncedGatewayHolds(start: Chains, steps: seq<FleetStep>, ip: string, p: Packet)
    requires HasBuiltins(start) && LegalSteps(Fleet(map[], start), steps)
    requires var f := After(Fleet(map[], start), steps);
             ip in f.objs && f.objs[ip].history != [] && NeedCheckSync(Current(f.objs[ip]).status)
    ensures var f := After(Fleet(map[], start), steps);
            && GetHexIP(ip).Some? && Holds(f.chains, ip, Current(f.objs[ip]).spec)
            && (p.dst == ip && OthersSilent(start, p) ==>
                  && OthersSilent(f.chains, p)
                  && Evaluate(f.chains, f.chains[PREROUTING], p) == FirstMatch(PreRules(Current(f.objs[ip]).spec), p))
  {
    var f0 := Fleet(map[], start);
    RunKeepsFleetOk(f0, steps, p);
    var f := After(f0, steps);
    hide GetHexIP, LegalSteps, After, OthersSilent, Holds, Evaluate, PreRules, FirstMatch, Owned;
    assert ObjectOk(f.objs[ip], ip, f.chains);
    SyncedIsClean(f.objs[ip]);
    HoldsBuiltins(f.chains, ip, Current(f.objs[ip]).spec);
    if p.dst == ip && OthersSilent(start, p) {
      VerdictIsOwnRules(f.chains, Current(f.objs[ip]).spec, p);
    }
  }

  lemma SyncedIsClean(s: State<GatewaySpec>)
    requires Inv(s) && s.history != [] && NeedCheckSync(Current(s).status)
    ensures s.node == Clean(Current(s).spec)
  {
  }

  lemma HoldsBuiltins(chains: Chains, ip: string, spec: GatewaySpec)
    requires Holds(chains, ip, spec)
    ensures GetHexIP(ip).Some? && HasBuiltins(chains)
  {
  }
}
