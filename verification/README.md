# Verified model of k8s-ext-connector

k8s-ext-connector compiles an `ExternalService` into relay ports, nat chains and ssh tunnels that are spread over
several agents, and keeps these in step through generations and conditions. This project models the logic of the
operator and of the two agents in Dafny and proves what it is for: that the pieces together route each connection
as the repository's `README.md` lines 219-222 promise, over every run, every interleaving and every map order.

`dafny verify dfyconfig.toml` checks the whole project.

| file | subject |
|---|---|
| `Text.dfy`, `Address.dfy`, `Api.dfy` | printed numbers, split and join, IPv4 addresses and the names made of them, the exchanged objects |
| `PortPool.dfy`, `RuleGen.dfy` | the first-free allocator and the rule generators: specification, in-place methods, capacity |
| `Operator.dfy`, `Publication.dfy`, `Ledger.dfy`, `Printed.dfy` | what a reconcile or deletion does to all objects; the status, address and rules it leaves in each; port safety, stability, recovery and fixpoint over whole runs; what gets into printed keys |
| `Cluster.dfy` | the operator's methods over an API server whose writes may be rejected |
| `Interruption.dfy`, `Harm.dfy`, `Staleness.dfy` | interrupted reconciles and exactly when they do harm; gateways that go stale |
| `Outcomes.dfy`, `Sharing.dfy`, `Retries.dfy`, `Repetition.dfy` | what generation can do in any state; when a retry or a deletion ends sharing; repeated reconciles |
| `Conservation.dfy`, `EgressCapacity.dfy`, `IngressCapacity.dfy`, `Counterexamples.dfy` | conservation of rules, exact capacities, inputs at which the code falls short |
| `Handshake.dfy`, `AgentStatus.dfy` | the update/sync protocol as a state machine over single API calls |
| `NatTable.dfy`, `Tunnels.dfy` | the chain writer with a first-match semantics, the tunnel maps with their ledger |
| `ForwarderAgent.dfy`, `GatewayAgent.dfy`, `PostRouting.dfy` | the two agents; source translation by several gateways |
| `ForwarderRun.dfy`, `GatewayFleet.dfy` | the protocol joined with what the agents apply |
| `EgressRouting.dfy`, `EgressRuns.dfy`, `IngressRouting.dfy`, `SyncedSystem.dfy` | the end-to-end theorems |

## Assumptions

- API writes are compare-and-swap on the version that was read; spec and status writes are blind to each other
  (the status subresource of `deploy/crds/submariner.io_forwarders_crd.yaml`); an agent's Get is linearizable; the
  operator may read any earlier version of the object it is about to update.
- The runs in `Ledger.dfy` read consistently: the pools and lists of one reconcile are those of one state. There is
  one worker, and ExternalService names are distinct.
- The endpoints of a service are the addresses of all subsets of its Endpoints object, in order.
- Cluster contents, the pod's address and map and list orders are parameters. Map iteration is a nondeterministic
  choice in every method.
- A write whose response is lost is a write that took effect followed by a failure.
- A packet is a source, a destination and a printed destination port. Chains are evaluated by first match, a jump
  returns when nothing in its target matches; a rule is read by its options, and matches if every match option it gives
  agrees with the packet.

## Where the code falls short of what it says

These are properties that are false of the code. Each has its exact condition and a failing input as theorems.

- A reconcile that fails between writing the forwarder and writing its gateways can let two forwarders share a relay
  port. Condition: `Harm.HarmlessIff`; input: `Interruption.TwoForwardersShareAPort`.
- Retrying the interrupted ExternalService always repairs this if no operation of another came in between
  (`Cluster.RetriesRecover`). If one did, the retry may find its old port again and keep sharing it, because of two
  rules stored at one port the last one is read back. Condition: `Retries.RetryAfterOthersEndsSharingIff`; input:
  `Retries.RetryMayNotHelp`. Deleting it ends its own sharing and nothing else (`Retries.DeletionRestoresIff`).
- A gateway that a forwarder stops naming is not rewritten until something else touches it
  (`pkg/controller/externalservice/reconciler.go:514`), and goes on rewriting connections nobody asks for. Condition:
  `Staleness.StaleIff`; input: `Staleness.GatewayGoesStale`.
- Egress pools store only the target port (`pkg/controller/externalservice/reconciler.go:125`) while lookups ask for
  `source:port` (line 133). Egress ports are therefore never found again, and a reconcile can be repeated only if
  it asks for at most half the pool. Condition: `EgressCapacity.RepeatsIff`; input:
  `Counterexamples.HalfThePoolIsTheLimit`.
- `MaxPort` is called the biggest port number that can be used and is 65536, one more than a 16-bit port field holds
  (section 3.1 of RFC 9293). Condition: `PortPool.UnusablePortIff`; input: `Counterexamples.LastPortIsGivenOut`.
- A relay port stands for a source and a target port, not for a destination. Conditions:
  `EgressRouting.DemandedIsRouted`, `IngressRouting.RuleIsRouted`; inputs: `Counterexamples.TwoPortsOneTargetPort`,
  `Counterexamples.TwoServicesOneKey`.
- Gateways are created for ingress rules only, although egress tunnels lead through them too. Condition:
  `EgressRuns.EgressGatewaysExistIff`; input: `Counterexamples.GatewayIsMissing`.
- The source address that several gateways' post-routing rules give to a packet can depend on the order in which the
  gateways were first applied. Condition: `PostRouting.OrderIrrelevantIff`; input:
  `Counterexamples.TwoGatewaysTranslate`.
- `setSyncing` leaves its caller with the old version, so one pass completes exactly if Syncing was True before
  (`Handshake.OnePass`), which it never is in a freshly published state (`Handshake.RetryPublishes`); two passes
  always suffice.

A repeated reconcile writes a gateway's rules in whatever order it lists the forwarders; `Repetition.ReconcileIsFixpoint`
says exactly when that leaves the list as it was.

The comment at `pkg/forwarder/reconciler.go:77` and `pkg/gateway/reconciler.go:67` announces that an error is returned
to requeue. The code returns none once Syncing is set, and the model follows the code: a checking pass that finds
drift succeeds, as the contracts of `ForwarderAgent.Reconciler.Reconcile` and `GatewayAgent.Reconciler.Reconcile` say.

## Model

| member | source | states |
|---|---|---|
| `EgressRouting.DemandedIsRouted` | README.md:220-221 | For every endpoint address of a source and every port of the ExternalService, first match in the applied chain sends a connection to ForwarderIP:targetPort to a relay port; exactly one expected tunnel listens there and leads through the source's IP to targetIP:port, if and only if everybody who asks for that address and target port asks for the same source IP and destination port |
| `EgressRouting.OnlyDemandedIsRewritten` | pkg/forwarder/reconciler.go:218-237 | The forwarder rewrites a packet if and only if it is to the forwarder's IP, from an endpoint of one of the sources, and to one of the target ports |
| `EgressRouting.AppliedPostChain` | pkg/forwarder/reconciler.go:218-237 | The forwarder's POSTROUTING chain gives the forwarder's address to exactly the packets to the destination and relay port of one of its egress rules, and leaves all others alone |
| `EgressRouting.DemandedReachesOneTunnel` | pkg/forwarder/reconciler.go:87-97 | On the agent's own state: among all tunnels ever started and not cancelled exactly one listens at the relay port, with the ends the ExternalService asks for, under the same if-and-only-if condition |
| `EgressRuns.EndpointReachesTarget` | README.md:220-221 | The same over every run: after a completed reconcile and anything that does not concern its ExternalService, with the forwarder's rules applied |
| `EgressRuns.OnlyEndpointsAreRewritten` | pkg/forwarder/reconciler.go:218-237 | Over every run the forwarder rewrites exactly the packets its ExternalService asks for |
| `EgressRuns.EgressGatewaysExistIff` | pkg/controller/externalservice/reconciler.go:514-532 | After a completed reconcile every gateway that an egress tunnel leads through exists if and only if, for every source with endpoints and ports, it existed before or a source with the same address has a service with a port |
| `EgressRouting.GenerationCompiles` | pkg/controller/externalservice/reconciler.go:203-245 | Every generation of egress rules has one rule for each thing asked, nothing else, a port of the range in each, and one relay port exactly for each (source, target port) key |
| `ForwarderAgent.KeysWrittenOut` | pkg/forwarder/reconciler.go:190-216 | The tunnel keys written out, with port 2022 of the gateway as the server |
| `IngressRouting.ServiceIsReached` | README.md:222 | Over every run: after a completed reconcile of an ExternalService and anything that does not concern it, with every object synced, a connection from targetIP to a source's IP and service port is sent to a relay port where, of all remote tunnels that any forwarder agent started and did not cancel, only one listens, which ends at that service's ClusterIP and port, if and only if no other rule is for that gateway, target IP and port |
| `IngressRouting.RuleIsRouted` | pkg/gateway/reconciler.go:131-164 | The same for any ingress rule of any forwarder in any system that satisfies the invariants, and for the tunnels that run on any agents that have applied their rules |
| `IngressRouting.OnlyRunningIffSole` | pkg/forwarder/reconciler.go:204-216 | On agents that have applied their rules, a rule's own tunnel is the only one that runs at its relay port if and only if the rule is the only one for its gateway, source and port |
| `IngressRouting.ClaimIsRunning` | pkg/forwarder/reconciler.go:157-174 | A remote listening address that only one expected key claims is served by exactly one running tunnel of all agents |
| `SyncedSystem.SyncedRuleIsRouted` | pkg/gateway/reconciler.go:51-64 | The same with no assumption on tables or machines: whenever the rule's gateway object and all forwarder objects say they are synced, after any interleaving of the protocol on all of them |
| `IngressRouting.GatewayRelays` | pkg/gateway/reconciler.go:158-161 | The gateway object a forwarder rule names carries the rule's address, and its rules send the rule's packets to the rule's relay port |
| `IngressRouting.SameRemoteEnd` | pkg/forwarder/reconciler.go:204-216 | Two rules of any two forwarders claim one remote listening address exactly when they are for one gateway address, source and target port |
| `IngressRouting.OnlyRulesAreRewritten` | pkg/gateway/reconciler.go:131-164 | A packet to a gateway's address is rewritten if and only if one of that gateway's rules is for its source and port |
| `Printed.RunKeepsTidy` | pkg/forwarder/reconciler.go:211-213 | Over every run whose ClusterIPs and target ports contain no colon, all relay ports are of the range and no component of a tunnel key contains a colon |
| `Printed.PoolsStayFunctional` | pkg/controller/externalservice/reconciler.go:131-136 | Over every such run each key is held by at most one port of each pool that is read back, so no result depends on map order |
| `Printed.ForwarderKept` | pkg/controller/externalservice/reconciler.go:299-301 | A forwarder object is left alone by every operation on other ExternalServices |
| `Printed.SettledMeans` | pkg/controller/externalservice/reconciler.go:353-356 | After a completed reconcile and any operations on others the forwarder holds exactly what that reconcile generated, and all invariants hold |
| `Staleness.StaleIff` | pkg/controller/externalservice/reconciler.go:514-537 | From a system in which every gateway's rules are exactly the images of current forwarder rules, a completed reconcile leads to such a system if and only if, for every gateway its forwarder named before, a source with that gateway's address has a service with a port |
| `Staleness.StaleAtIff` | pkg/controller/externalservice/reconciler.go:514-537 | The same gateway by gateway |
| `Staleness.DeletionIsExact` | pkg/controller/externalservice/reconciler.go:606-610 | A completed deletion leaves every gateway with exactly the images of the remaining forwarders' rules, whatever was stale before |
| `Staleness.OnlyAskedIsRewritten` | README.md:222 | A gateway that is not stale rewrites a packet to its address if and only if some forwarder rule asks for it now |
| `Staleness.OnlyAskedIsTranslated` | pkg/controller/externalservice/reconciler.go:423 | A gateway that is not stale gives its address to a packet if and only if some forwarder rule that names it is for the packet's destination and has its port as relay port |
| `Publication.ReconcilePublishes` | pkg/controller/externalservice/reconciler.go:353-372 | After a completed reconcile the forwarder holds what was generated; it and every gateway its rules name have Updating False, Syncing Unknown and the next RuleGeneration; no other object changed |
| `Publication.PublishedNeedsSync` | pkg/forwarder/status.go:11-28 | A freshly published object needs a sync, as long as its agent was not ahead |
| `Publication.DeletionPublishes` | pkg/controller/externalservice/reconciler.go:606-610 | After a completed deletion every gateway is published as its next generation, and no other forwarder changed |
| `Publication.AttemptMarks` | pkg/controller/externalservice/reconciler.go:315-351 | A reconcile that can generate nothing leaves its forwarder with Updating True and changes nothing else |
| `Publication.FirstGeneration` | pkg/controller/externalservice/reconciler.go:362-368 | The first completed reconcile of an ExternalService publishes generation 1, with nothing synced |
| `Publication.CompletedIsExact` | pkg/controller/externalservice/reconciler.go:439-473 | Every gateway that a completed reconcile names, and every gateway after a completed deletion, holds in both directions exactly the images of the rules of the forwarders there are then |
| `Publication.DeletionKeepsAddresses` | pkg/controller/externalservice/reconciler.go:607 | A deletion changes no gateway's address, whether or not rules are left |
| `Publication.RunKeepsAddressed` | pkg/controller/externalservice/reconciler.go:453 | Over every run each gateway object has the address its name stands for, so that its agent can apply it |
| `SyncedSystem.EmptiedGatewayIsSilent` | pkg/controller/externalservice/reconciler.go:600-612 | Over every run: after a completed deletion of the last forwarder that names a gateway, the gateway can still be applied, and once its object says it is synced no packet to its address is rewritten any more |
| `Staleness.GatewayGoesStale` | pkg/controller/externalservice/reconciler.go:514-537 | A concrete run: an ExternalService that loses its only source leaves a gateway that still rewrites connections nobody asks for |
| `Ledger.PortSafety` | pkg/controller/externalservice/reconciler.go:494-540 | Over every sequence of reconciles and deletions from an empty cluster: each gateway's relay ports and (source, target port) keys correspond one to one, every forwarder ingress rule is among its gateway's rules, and rules of any two forwarders on one gateway share a port exactly when they share source and target port |
| `Ledger.ApplyKeepsInv` | pkg/controller/externalservice/reconciler.go:293-375 | Every completed reconcile and every completed deletion keeps the system-wide invariant, whatever the view of the cluster and the listing order |
| `Ledger.RunKeepsInv` | pkg/controller/externalservice/reconciler.go:107-119 | So does every run of them |
| `Ledger.PortsAreExclusive` | pkg/controller/externalservice/reconciler.go:163-184 | Port equality is key equality between any two forwarders on one gateway |
| `Ledger.StablePorts` | pkg/controller/externalservice/reconciler.go:163-172 | While an ExternalService keeps demanding a key on a gateway, its relay port is the same after any run of reconciles and deletions of others and of itself |
| `Repetition.ReconcileIsFixpoint` | pkg/controller/externalservice/reconciler.go:494-540 | Repeating a completed reconcile with the forwarders listed in any other order leaves every forwarder's ingress rules identical and in order, and every forwarder's part of every gateway's rules; a gateway's whole list is identical and in order if and only if it is not rewritten or both listings have the forwarders that name it in the same order |
| `Repetition.RepetitionChangesNothing` | pkg/controller/externalservice/reconciler.go:507-540 | The same from any state in which the forwarder and its gateways hold what a completed reconcile wrote |
| `Repetition.SameProjectionIff` | pkg/controller/externalservice/reconciler.go:410-437 | Two listings of the forwarders give a gateway the same rules in the same order if and only if they list the forwarders that name it alike |
| `Ledger.InterruptionIsSafeIff` | pkg/controller/externalservice/reconciler.go:514-537 | A reconcile that stops between its writes keeps the invariant if and only if every key it asks of a gateway it did not reach was in that gateway's rules beforehand |
| `Ledger.UnreachedRuleCoveredIff` | pkg/controller/externalservice/reconciler.go:163-183 | A generated port is in the gateway's stored rules under its key exactly when the key was |
| `Ledger.GatewayPoolMeaning` | pkg/controller/externalservice/reconciler.go:150-161 | The pool read back from one-to-one gateway rules holds exactly the rules' ports, each for its rule's key |
| `Ledger.PoolsOfInv` | pkg/controller/externalservice/reconciler.go:341-347 | Under the invariant the pools read back give each key one port and hold every forwarder's rules |
| `Ledger.NewRulesHeld` | pkg/controller/externalservice/reconciler.go:269-287 | Generated ingress rules are the templates in order, named after their gateway's address, each on a port the pools hold for its key |
| `Ledger.ProjectMeaning` | pkg/controller/externalservice/reconciler.go:410-437 | A gateway's rules are exactly the images of the forwarder rules that name it |
| `Ledger.ProjectionOk` | pkg/controller/externalservice/reconciler.go:410-437 | Projecting rules that are held in pools yields one-to-one gateway rules that cover them |
| `Ledger.DeletedGatewayAddress` | pkg/controller/externalservice/reconciler.go:606-610 | A gateway that still has rules after a deletion keeps the address its name stands for |
| `Ledger.ReconcileRecovers` | pkg/controller/externalservice/reconciler.go:107-119 | A completed reconcile establishes the invariant even if its own forwarder's earlier rules were not covered |
| `Ledger.DeleteRecovers` | pkg/controller/externalservice/reconciler.go:577-612 | So does a completed deletion |
| `Ledger.InterruptedIsRecoverable` | pkg/controller/externalservice/reconciler.go:514-537 | However often a reconcile of one ExternalService is interrupted, only its own rules can be missing from gateways |
| `Cluster.RetriesRecover` | pkg/controller/externalservice/reconciler.go:107-119 | After any number of failed reconciles of one ExternalService, whatever each was asked and with no operation of another in between, the first that completes, or a completed deletion, restores the invariant |
| `Retries.RetryAfterOthersEndsSharingIff` | pkg/controller/externalservice/reconciler.go:163-184 | With any operations of others in between: a retry that completes ends all sharing of its forwarder, whatever the map order, if and only if no key it asks is the last one stored at a port that another forwarder's rule on that gateway has for another key |
| `Sharing.RetryEndsSharingIffNotLast` | pkg/controller/externalservice/reconciler.go:150-184 | The same in every state in which the other forwarders' rules are stored in their gateways |
| `Sharing.RetryEndsSharingIff` | pkg/controller/externalservice/reconciler.go:163-184 | The same in every state at all: if and only if no lookup for an asked key may answer a port that another forwarder has for another key |
| `Sharing.SharingIsGenerated` | pkg/controller/externalservice/reconciler.go:353-356 | After a completed reconcile its forwarder shares a port with another exactly if what was generated did |
| `Sharing.PoolIsLastStored` | pkg/controller/externalservice/reconciler.go:156-158 | The pool read back from any gateway rules maps a port to a key exactly if the last rule at the port is for that key |
| `Retries.EventKeepsStored` | pkg/controller/externalservice/reconciler.go:494-540 | Whatever happens while reconciles of one ExternalService keep failing, the rules of all others stay stored in their gateways |
| `Retries.RetryMayNotHelp` | pkg/controller/externalservice/reconciler.go:156-158 | A concrete run: es1 is interrupted, es2 completes, es1 is retried and completes; both still share a port if es2's write listed es1 last, and no longer if it listed es1 first |
| `Retries.DeletionRestoresIff` | pkg/controller/externalservice/reconciler.go:577-612 | A completed deletion ends the sharing of the deleted forwarder, leaves that of all others exactly as it was, and restores the invariant if and only if the others share nothing and their gateways have addresses |
| `Outcomes.OutcomeIsMayGet` | pkg/controller/externalservice/reconciler.go:163-184 | In any state and map order every demand is answered with a port that holds its key, or, for a new key, with the free port whose turn it is |
| `Outcomes.MayGetIsOutcome` | pkg/controller/externalservice/reconciler.go:163-184 | And every such port comes out of some map order, if the lookups can succeed at all |
| `RuleGen.OutcomeIsGenerated` | pkg/controller/externalservice/reconciler.go:163-184 | From pools that give each key one port there is at most one outcome, the specified one |
| `Printed.FunctionalPoolsDecide` | pkg/controller/externalservice/reconciler.go:334-351 | So a reconcile has at most one outcome there |
| `Harm.HarmlessIff` | pkg/controller/externalservice/reconciler.go:353-360 | After a reconcile that stops between its writes no run ever lets two forwarders share a relay port, if and only if every key it asked of a gateway it did not reach was in that gateway's rules |
| `Harm.UnreachedHarms` | pkg/controller/externalservice/reconciler.go:163-183 | Otherwise there is a legal next reconcile of another ExternalService, with an IPv4 target and a 16-bit port, that takes the same relay port of the same gateway |
| `Harm.NextReconcileSharesPort` | pkg/controller/externalservice/reconciler.go:163-183 | And so does every next reconcile that asks that gateway for one key it does not know |
| `Interruption.TwoForwardersShareAPort` | pkg/controller/externalservice/reconciler.go:353-360 | A concrete run: a reconcile that stops after its forwarder write lets a second ExternalService get the same relay port of the same gateway for another external server |
| `PortPool.AllocateMeaning` | pkg/controller/externalservice/reconciler.go:130-148 | A lookup answers the port that holds the key, or the least port from 2049 up that the pool does not hold, and adds exactly that |
| `PortPool.FirstPortEver` | pkg/util/util.go:15-18 | The first key asked of an empty pool gets port 2049 |
| `PortPool.UnusablePortIff` | pkg/util/util.go:15-18 | A port above 65535 is handed out exactly when every port from 2049 to 65535 is taken |
| `PortPool.AssignServes` | pkg/controller/externalservice/reconciler.go:163-184 | Serving any list of demands answers each with a port that holds its key, loses nothing that was held, and adds only demanded keys on free ports of the range |
| `PortPool.SamePortIffSameKey` | pkg/controller/externalservice/reconciler.go:130-148 | Two demands on one pool get one port exactly when they are for one key |
| `PortPool.HeldKeyKeepsPort` | pkg/controller/externalservice/reconciler.go:167-172 | A demand for a held key is answered with the port that holds it, whatever else is demanded |
| `PortPool.HeldKeysAllocateNothing` | pkg/controller/externalservice/reconciler.go:167-172 | Demands for held keys always succeed and change no pool |
| `PortPool.FreePortExists` | pkg/controller/externalservice/reconciler.go:139-147 | A port is free exactly when fewer than 63488 of the range are taken |
| `PortPool.Capacity` | pkg/controller/externalservice/reconciler.go:174-183 | Demands on any number of pools are all served if and only if in each pool the distinct new keys fit into what is free |
| `PortPool.FirstNewKey` | pkg/controller/externalservice/reconciler.go:174-181 | Among any demands the first for a key its pool does not hold gets that pool's first free port |
| `PortPool.AssignCount` | pkg/controller/externalservice/reconciler.go:174-181 | Serving demands takes exactly one port of the range for each distinct new key |
| `Outcomes.OutcomeExistsIff` | pkg/controller/externalservice/reconciler.go:163-184 | In any state, also when keys have several ports: some map order lets all demands be served if and only if in each pool the distinct new keys fit into what is free |
| `EgressCapacity.Succeeds` | pkg/controller/externalservice/reconciler.go:203-245 | Egress generation succeeds if and only if the source addresses are valid and distinct keys plus distinct old in-range ports number at most 63488 |
| `EgressCapacity.NewPortsAreFresh` | pkg/controller/externalservice/reconciler.go:122-148 | On success two rules share a port exactly when they share the key, and no new port is one of an old rule |
| `EgressCapacity.AsManyPortsAsKeys` | pkg/controller/externalservice/reconciler.go:203-245 | As many distinct ports come out as distinct keys went in |
| `EgressCapacity.EgressPoolHoldsNoKey` | pkg/controller/externalservice/reconciler.go:122-128 | Pools read back from egress rules hold no key, so no lookup ever finds a port of an earlier reconcile |
| `EgressCapacity.EgressPoolIsLastStored` | pkg/controller/externalservice/reconciler.go:122-128 | The egress pool maps a port to the bare target port of the last rule stored at it, and to nothing else |
| `IngressCapacity.IngressSucceeds` | pkg/controller/externalservice/reconciler.go:247-291 | Ingress generation succeeds if and only if the source addresses are valid and, on each gateway, the distinct new keys plus the distinct in-range ports of all stored rules number at most 63488 |
| `IngressCapacity.ReconcileSucceedsIff` | pkg/controller/externalservice/reconciler.go:324-351 | A reconcile can generate its rules if and only if the pod has an address, the source addresses are valid and both capacities suffice |
| `IngressCapacity.AnyReconcileSucceedsIff` | pkg/controller/externalservice/reconciler.go:324-351 | From any state at all, those that failed reconciles leave included: some outcome is possible if and only if the pod has an address, the source addresses are valid, and the distinct new keys fit into every pool as it is read back |
| `EgressCapacity.RepeatsIff` | pkg/controller/externalservice/reconciler.go:122-136 | Egress generation can be repeated if and only if at most 31744 distinct keys are asked |
| `Counterexamples.HalfThePoolIsTheLimit` | pkg/controller/externalservice/reconciler.go:122-136 | 31745 target ports and one pod: the first reconcile succeeds, its repetition fails |
| `Counterexamples.LastPortIsGivenOut` | pkg/util/util.go:15-18 | With 2049 to 65535 taken the next key is given 65536 |
| `Counterexamples.TwoPortsOneTargetPort` | pkg/forwarder/reconciler.go:197-199 | Two ports with one target port: neither has the only tunnel at their relay port |
| `Counterexamples.GatewayIsMissing` | pkg/controller/externalservice/reconciler.go:514-532 | A pod behind a service without ports: its egress rules name a gateway for which no object exists |
| `Counterexamples.TwoGatewaysTranslate` | pkg/gateway/reconciler.go:158-161 | One service under two addresses: applying the two gateways in one order gives the same packets one source address, and in the other order the other |
| `Counterexamples.TwoServicesOneKey` | pkg/forwarder/reconciler.go:211-213 | Two services with one port under one address: connections reach a relay port, but neither service's tunnel is the only one that runs there |
| `RuleGen.KeyInjective` | pkg/controller/externalservice/reconciler.go:133 | Keys identify (source, port) pairs as long as ports contain no colon |
| `RuleGen.EgressTemplatesMeaning` | pkg/controller/externalservice/reconciler.go:206-241 | A template is generated exactly for every endpoint address of every source on every port |
| `RuleGen.IngressTemplatesMeaning` | pkg/controller/externalservice/reconciler.go:252-288 | A template is generated exactly for every port of every source's service |
| `RuleGen.EgressInOrder` | pkg/controller/externalservice/reconciler.go:206-241 | Templates come source by source, port by port, address by address: the template for each is at the place that this order gives it, and there are no more |
| `RuleGen.IngressInOrder` | pkg/controller/externalservice/reconciler.go:252-288 | The same for sources and the ports of their services |
| `RuleGen.ServedAlike` | pkg/controller/externalservice/reconciler.go:131-136 | Whatever the map orders, serving the same demands takes the same ports and adds the same keys, in any state |
| `RuleGen.AnswerIsUnique` | pkg/controller/externalservice/reconciler.go:131-136 | In a pool that gives each key one port, the answer does not depend on the order in which the map is iterated |
| `RuleGen.FindPort` | pkg/controller/externalservice/reconciler.go:132-136 | The search finds a port exactly if one holds the key, and what it finds holds it |
| `RuleGen.FindFree` | pkg/controller/externalservice/reconciler.go:139-147 | The loop finds the least free port of the range, or nothing if there is none |
| `RuleGen.GenRelayPortForEgress` | pkg/controller/externalservice/reconciler.go:130-148 | The answer and the pool afterwards are what a lookup may give |
| `RuleGen.GenRelayPortForIngress` | pkg/controller/externalservice/reconciler.go:163-184 | The same on the named gateway's pool, all other pools unchanged |
| `RuleGen.GenEgressForPort` | pkg/controller/externalservice/reconciler.go:224-240 | Appends one rule for each endpoint address on a port that a lookup may answer, or fails only where no map order would let it succeed |
| `RuleGen.GenEgressForSource` | pkg/controller/externalservice/reconciler.go:223-241 | The same over all ports |
| `RuleGen.GenForwarderEgressRules` | pkg/controller/externalservice/reconciler.go:203-245 | The loops succeed if and only if the source addresses are valid and some outcome is possible, and what they build is one; from pools that give each key one port it is the specified one |
| `RuleGen.GenIngressForSource` | pkg/controller/externalservice/reconciler.go:269-287 | The same for each service port |
| `RuleGen.GenForwarderIngressRules` | pkg/controller/externalservice/reconciler.go:247-291 | The loops succeed if and only if the source addresses are valid and some outcome is possible, and what they build is one; from pools that give each key one port it is the specified one |
| `RuleGen.NeverForMore` | pkg/controller/externalservice/reconciler.go:225-228 | What no map order can serve cannot be served when more is asked |
| `Cluster.GenUsedPortsForEgress` | pkg/controller/externalservice/reconciler.go:122-128 | Builds the egress pool of the specification |
| `Cluster.GenUsedPortsOfGateway` | pkg/controller/externalservice/reconciler.go:156-158 | Builds one gateway's pool of the specification |
| `Cluster.GenUsedPortsForIngress` | pkg/controller/externalservice/reconciler.go:150-161 | Builds the pools of all gateways, in whatever order they are listed |
| `Cluster.GenGatewayRules` | pkg/controller/externalservice/reconciler.go:377-437 | The nested loops compute the projection of the listed forwarders onto one gateway |
| `Cluster.GetUniqueGateway` | pkg/controller/externalservice/reconciler.go:475-492 | Every gateway address among the rules has an entry, and every entry is the gateway of some rule with that address |
| `Cluster.ApiServer.GenerateSpec` | pkg/controller/externalservice/reconciler.go:324-351 | In any state something is generated if and only if some outcome is possible, and it is one; it is the specified one if pools give each key one port |
| `Cluster.ApiServer.PutForwarder` | pkg/controller/externalservice/reconciler.go:297-372 | Every write the operator makes to a forwarder creates it empty and never updated, sets Updating and nothing else, writes the spec while Updating is True, or publishes the next generation |
| `Cluster.ApiServer.PutGateway` | pkg/controller/externalservice/reconciler.go:439-473 | The same for gateways |
| `Cluster.ApiServer.UpdateForwarderRules` | pkg/controller/externalservice/reconciler.go:293-375 | From any state: what is written is a possible outcome of generation, the specified one if pools give each key one port; on success the forwarder holds it and is published as the next generation; on failure it is one of the listed partial states; nothing else changes |
| `Cluster.ApiServer.UpdateRulesForOneGateway` | pkg/controller/externalservice/reconciler.go:439-473 | On success the gateway holds the projections and is published; on failure it has the old or the new rules and nothing else changes |
| `Cluster.ApiServer.EnsureGateway` | pkg/controller/externalservice/reconciler.go:515-536 | The same for a gateway that may have to be created first |
| `Cluster.ApiServer.UpdateGatewayRules` | pkg/controller/externalservice/reconciler.go:494-540 | In whatever order the gateways are visited: success rewrites exactly the gateways named, failure is an interruption with the gateways written so far |
| `Cluster.ApiServer.Reconcile` | pkg/controller/externalservice/reconciler.go:107-119 | From any state: success writes a possible outcome of generation into the forwarder and rewrites exactly the gateways it names; failure leaves no rule written, or is an interruption with such an outcome. From pools that give each key one port this is the specified effect of a reconcile |
| `Cluster.StoppedReconcileIsRecoverable` | pkg/controller/externalservice/reconciler.go:107-119 | Whatever a failed reconcile leaves behind, no rule of another ExternalService is missing from a gateway |
| `Cluster.StoppedReconcileIsSafeIff` | pkg/controller/externalservice/reconciler.go:107-119 | What a failed reconcile does to the invariant: nothing if no rule was written, otherwise it holds if and only if every key asked of an unreached gateway was known there |
| `Cluster.ApiServer.DeleteResource` | pkg/controller/externalservice/reconciler.go:558-613 | Success drops the forwarder and rewrites every gateway from the rest; failure is a partial deletion |
| `Cluster.ApiServer.RewriteAll` | pkg/controller/externalservice/reconciler.go:606-610 | All gateways are rewritten from the listed forwarders, in whatever order |
| `Cluster.PartialDeletionIsSafe` | pkg/controller/externalservice/reconciler.go:577-612 | A deletion that stops anywhere keeps the invariant |
| `Cluster.UniqueNames` | pkg/controller/externalservice/reconciler.go:475-492 | Gateways visited under distinct addresses are distinct objects, and each is written with the address of its rules |
| `Conservation.KeptInOrder` | pkg/controller/externalservice/reconciler.go:413-434 | What a gateway holds of one forwarder is that forwarder's rules for the gateway, in order |
| `Ledger.ProjectInOrder` | pkg/controller/externalservice/reconciler.go:410-437 | A gateway's rules come forwarder by forwarder in the order of the list |
| `Conservation.NothingLostOrDuplicated` | pkg/controller/externalservice/reconciler.go:410-437 | Over all gateways the projections have exactly as many rules as the forwarders |
| `Conservation.DeletionConserves` | pkg/controller/externalservice/reconciler.go:586-612 | After a completed deletion the gateways hold exactly the remaining forwarders' ingress rules, in order, as many in all, and none of the deleted one |
| `Handshake.SyncSafety` | pkg/forwarder/reconciler.go:56-73 | Under every interleaving of operator and agent calls, stale operator reads, rejected writes and crashes included: whenever the object says it is synced, the current spec is the last published one, it is completely applied, and no apply is in progress |
| `Handshake.NoTornOrBackwardApply` | pkg/controller/externalservice/reconciler.go:316-372 | Every spec an agent starts to apply is exactly one published by a completed update, the generations it applies never decrease, and SyncGeneration never exceeds RuleGeneration |
| `Handshake.PublishedGrows` | pkg/controller/externalservice/reconciler.go:439-473 | What was published stays published |
| `Handshake.NoStuckState` | pkg/forwarder/status.go:11-28 | In every reachable state needCheckSync holds exactly of an object with Updating False that says it is synced, and needSync exactly of any other with Updating False |
| `Handshake.OnePass` | pkg/forwarder/status.go:30-53 | One undisturbed agent pass completes exactly if Syncing was True; otherwise its last write is rejected because its own first write made its copy stale |
| `Handshake.TwoPassesConverge` | pkg/forwarder/reconciler.go:61-82 | With the operator quiet and applies succeeding, one pass syncs exactly if Syncing was True, and two passes in any case |
| `Handshake.DriftIsApplied` | pkg/forwarder/reconciler.go:74-82 | A check that finds everything in place changes nothing; one that finds something missing marks the object, and the next pass applies it and restores its status |
| `Handshake.RetryPublishes` | pkg/controller/externalservice/reconciler.go:297-372 | From every reachable state, wherever the operator was interrupted, an undisturbed retry publishes its spec as the next generation |
| `Handshake.StaleUpdateIsRejected` | pkg/controller/externalservice/reconciler.go:297-372 | From every reachable state an update that starts from a copy which is no longer current stores nothing |
| `Handshake.WriteIsRun` | pkg/controller/externalservice/reconciler.go:297-372 | Every write that the operator makes to an existing object is what a run of its protocol steps makes of it |
| `Handshake.RetriedUpdateIsApplied` | pkg/gateway/reconciler.go:47-63 | From every reachable state, also if the agent stops in the middle of an apply there, one retried update and two agent passes bring the new spec onto the machine |
| `Handshake.OperatorStepKeepsInv` | pkg/controller/externalservice/reconciler.go:439-473 | Each operator step keeps the protocol invariant |
| `Handshake.AgentStepKeepsInv` | pkg/gateway/status.go:11-53 | Each agent step keeps the protocol invariant |
| `Handshake.DecidedToSync` | pkg/forwarder/status.go:30-40 | setSyncing marks the object and leaves the caller with the old version if it had to write |
| `Handshake.Finishes` | pkg/forwarder/status.go:42-53 | setSynced takes effect exactly if the caller's copy is not stale |
| `ForwarderRun.SyncedForwarderIsApplied` | pkg/forwarder/reconciler.go:50-97 | Sync safety down to the machine, under every interleaving: whenever a forwarder object says it is synced, exactly the tunnels and chains of its current spec are in place |
| `ForwarderRun.SyncedForwarderRoutes` | README.md:220-221 | And so its egress connections are routed as generated, under the same if-and-only-if condition as above |
| `ForwarderRun.AppliedIffMachine` | pkg/forwarder/reconciler.go:87-97 | A forwarder agent object has applied a spec exactly when its tunnel keys and chains are those of the protocol run's machine |
| `GatewayFleet.SyncedGatewayHolds` | pkg/gateway/reconciler.go:40-87 | Sync safety down to the shared table, under every interleaving over all gateway objects and applies that stop anywhere: whenever a gateway object says it is synced, the table holds exactly the rules of its current spec, and its packets get the verdict of these rules |
| `GatewayFleet.StepKeepsFleetOk` | pkg/gateway/reconciler.go:40-87 | Each step of either party on any gateway object keeps what the protocol takes for applied in the table |
| `AgentStatus.Store.UpdateStatus` | pkg/forwarder/status.go:46 | A status write takes effect only at the version it was read at, and never touches the spec |
| `AgentStatus.Local.SetSyncingCondition` | pkg/forwarder/status.go:32 | Reports whether the condition changed |
| `AgentStatus.Local.SetSyncing` | pkg/forwarder/status.go:30-40 | Writes Syncing=True only if it was not; the copy gets the condition but keeps its version |
| `AgentStatus.Local.SetSynced` | pkg/gateway/status.go:42-53 | Writes Syncing=False with SyncGeneration=RuleGeneration exactly if the copy is current |
| `NatTable.AppendAllMeaning` | pkg/util/iptables.go:71-78 | Appending keeps what is there, adds exactly what is missing, and introduces no duplicate |
| `NatTable.DedupOrder` | pkg/util/iptables.go:61-81 | Dropping duplicates keeps the order of first occurrences |
| `NatTable.ReplacedMeaning` | pkg/util/iptables.go:61-81 | After a replacement each expected chain has exactly the expected rules, once each; all other chains are untouched |
| `NatTable.DNATMeaning` | pkg/util/iptables.go:14-17 | By the options it gives, a DNAT rule sends exactly the TCP packets from its source to its address and port to its destination |
| `NatTable.SNATMeaning` | pkg/util/iptables.go:19-22 | By the options it gives, an SNAT rule gives its source to exactly the TCP packets to its address and port |
| `NatTable.DedupKeepsVerdict` | pkg/util/iptables.go:73-77 | Dropping later duplicates changes no packet's first-match verdict |
| `NatTable.FirstMatchConcat` | pkg/util/iptables.go:72-78 | First match over two lists is first match in the first, or else in the second |
| `NatTable.AgreeingMatch` | pkg/util/iptables.go:15-17 | A chain whose matching rules agree gives their verdict exactly if some rule matches |
| `NatTable.Table.AppendUnique` | pkg/util/iptables.go:74-76 | Appends exactly if the rule is missing and the chain and jump target exist |
| `NatTable.Table.AppendRules` | pkg/util/iptables.go:73-77 | Stopping anywhere leaves the chain with an initial part of the rules appended; no jump loses its target |
| `NatTable.Table.ClearChains` | pkg/util/iptables.go:63-70 | Stopping anywhere leaves some of the named chains empty and all others as they were |
| `NatTable.Table.FillChains` | pkg/util/iptables.go:72-78 | In whatever order the chains are visited |
| `NatTable.Table.AppendChains` | pkg/util/iptables.go:61-81 | Both modes: the exact table on success, the exact family of partial tables on failure, jump targets defined throughout |
| `NatTable.Table.ReplaceChains` | pkg/util/iptables.go:37-44 | Success makes each named chain its expected list with later duplicates dropped and leaves the others alone, from any table |
| `NatTable.Table.AddChains` | pkg/util/iptables.go:52-59 | Success appends what is missing to the named chains and leaves the others alone |
| `NatTable.Table.CheckChainsExist` | pkg/util/iptables.go:97-111 | True only if every expected rule is there, and exactly then when no call fails |
| `NatTable.RetryRecovers` | pkg/util/iptables.go:61-81 | A successful replacement after any number of partial ones yields the same table as one from the start |
| `Tunnels.KeyRoundTrip` | pkg/forwarder/reconciler.go:99-106 | A printed key is always safe to parse, and parsing returns the printed endpoints exactly when no component contains a colon |
| `Tunnels.TunnelMap.CancelUnused` | pkg/forwarder/reconciler.go:108-116 | Cancels exactly the tunnels that are no longer expected, once each |
| `Tunnels.TunnelMap.Drop` | pkg/forwarder/reconciler.go:118-120 | Drops exactly those from the map |
| `Tunnels.TunnelMap.DeleteUnused` | pkg/forwarder/reconciler.go:108-121 | The map keeps exactly the expected entries; the ledger of started and cancelled tunnels stays exact |
| `Tunnels.TunnelMap.CreateMissing` | pkg/forwarder/reconciler.go:123-135 | Starts one new tunnel for each missing key, with the ends its key names |
| `Tunnels.TunnelMap.Ensure` | pkg/forwarder/reconciler.go:123-140 | Adds them; existing entries keep their tunnel |
| `Tunnels.TunnelMap.Update` | pkg/forwarder/reconciler.go:176-184 | Afterwards the keys are the expected set, keys that stay keep their tunnel object, and the tunnels started and not cancelled are exactly those in the map, none started or cancelled twice |
| `ForwarderAgent.GetExpectedSSHTunnel` | pkg/forwarder/reconciler.go:190-202 | The set of printed keys, all safe to parse |
| `ForwarderAgent.GetExpectedRemoteSSHTunnel` | pkg/forwarder/reconciler.go:204-216 | The set of printed keys, all safe to parse |
| `ForwarderAgent.GetExpectedIptablesRule` | pkg/forwarder/reconciler.go:218-237 | Both built-in chains with the rules in order |
| `ForwarderAgent.Reconciler.UpdateTunnels` | pkg/forwarder/reconciler.go:176-184 | Both tunnel maps hold exactly the expected keys, kept keys their tunnel |
| `ForwarderAgent.Reconciler.SyncRule` | pkg/forwarder/reconciler.go:87-97 | Success applies exactly the expected tunnels and chains, tunnels of kept keys untouched; failure leaves the tunnels exact and the chains partly replaced |
| `ForwarderAgent.Reconciler.AppliedIsPresent` | pkg/forwarder/reconciler.go:239-241 | What was applied passes the check |
| `ForwarderAgent.Reconciler.PresentMeans` | pkg/forwarder/reconciler.go:239-274 | Nothing is missing if and only if each egress rule has its tunnel, its DNAT rule in PREROUTING and its SNAT rule in POSTROUTING, and each ingress rule its remote tunnel |
| `ForwarderAgent.Reconciler.RuleSynced` | pkg/forwarder/reconciler.go:239-274 | True exactly if no expected tunnel or rule is missing, when no call fails |
| `ForwarderAgent.Reconciler.Reconcile` | pkg/forwarder/reconciler.go:50-85 | Whatever fails: the object is left alone, marked as syncing, or marked as synced with its spec applied; success of an applying pass means both; nothing is applied unasked. When nothing fails: the exact effect of an applying and of a checking pass, the latter returning no error even if it found drift |
| `ForwarderAgent.Reconciler.ApplyPass` | pkg/forwarder/reconciler.go:61-73 | Synced is stored only with the spec applied, whatever fails |
| `ForwarderAgent.Reconciler.CheckPass` | pkg/forwarder/reconciler.go:74-82 | Marks the object as syncing exactly if something expected is missing, when no call fails |
| `ForwarderAgent.Reconciler.DriftHeals` | pkg/forwarder/reconciler.go:74-82 | Whatever expected rule or tunnel entry was lost, two passes restore the exact chains and tunnel keys and the synced status; what runs then are the expected tunnels and those whose entry was lost while they ran |
| `EgressRouting.OnlyLiveIffNoOrphan` | pkg/forwarder/reconciler.go:123-140 | After entries were lost while their tunnels ran, the expected tunnel is the only one at its port if and only if none of those listens there |
| `Tunnels.TunnelMap.LoseEntry` | pkg/forwarder/reconciler.go:243-246 | A lost entry leaves its tunnel running and the ledger exact |
| `GatewayAgent.ChainNamesDistinct` | pkg/gateway/reconciler.go:137-138 | Chains of distinct gateways differ from each other and from the built-in chains |
| `GatewayAgent.GetExpectedIptablesRule` | pkg/gateway/reconciler.go:131-164 | Succeeds exactly for a valid address and builds the two chains and the two jumps |
| `GatewayAgent.Reconciler.ApplyIptablesRules` | pkg/gateway/reconciler.go:166-181 | Success is the exact table; failure touches only the own chains and adds at most the own jumps; jump targets stay defined |
| `GatewayAgent.Reconciler.CheckIptablesRulesApplied` | pkg/gateway/reconciler.go:193-207 | True exactly if every expected rule and jump is there, when no call fails |
| `GatewayAgent.PresentMeans` | pkg/gateway/reconciler.go:193-207 | The check finds everything if and only if each ingress rule has its DNAT and SNAT rule in the chains named "pre" and "pst" with the hexadecimal address, and both built-in chains jump there |
| `GatewayAgent.Reconciler.Reconcile` | pkg/gateway/reconciler.go:40-75 | Whatever fails: the object is left alone, marked as syncing, or marked as synced with its spec applied; the table is left alone or is one an apply of this spec can leave; nothing is applied unasked. When nothing fails: the exact effect of an applying and of a checking pass |
| `GatewayAgent.Reconciler.DriftHeals` | pkg/gateway/reconciler.go:64-72 | Whatever rules of the gateway's chains or jumps were lost, two passes restore the exact chains, both jumps and the synced status |
| `GatewayAgent.ApplyIsConfined` | pkg/gateway/reconciler.go:166-181 | Wherever an apply stops, only the own chains changed and at most the own jumps were added, and a jump is only ever added to a chain that holds exactly the gateway's rules |
| `GatewayAgent.ApplyKeepsTargets` | pkg/gateway/reconciler.go:166-181 | Wherever an apply stops, every jump of the table still leads to a chain |
| `GatewayAgent.OtherGatewayKept` | pkg/gateway/reconciler.go:166-181 | An apply of one gateway, complete or not, leaves another gateway's chains and jumps intact |
| `GatewayAgent.OwnGatewayApplied` | pkg/gateway/reconciler.go:166-181 | A complete apply puts exactly the gateway's rules and both jumps in place |
| `GatewayAgent.SilenceKept` | pkg/gateway/reconciler.go:158-161 | An apply of any gateway, complete or not, adds nothing that speaks about a packet to another gateway's address |
| `GatewayAgent.Isolation` | pkg/gateway/reconciler.go:131-181 | Whatever gateways are applied, in any order, any number of times and wherever attempts stop: each gateway's chains hold its last applied rules, no jump is duplicated, every jump target is defined, foreign chains are untouched, and a packet to a gateway gets the verdict of the rules that were last applied for it |
| `GatewayAgent.VerdictIsOwnRules` | pkg/gateway/reconciler.go:158-161 | A packet to a gateway's address gets the verdict of that gateway's own rules, whatever the order of the jumps |
| `GatewayAgent.OnlyOwnPackets` | pkg/gateway/reconciler.go:158-161 | A gateway's rules, all or an initial part, say nothing about packets to another address |
| `PostRouting.PostChainVerdict` | pkg/gateway/reconciler.go:158-161 | A gateway's post-routing chain gives the gateway's address to exactly the packets to a destination and relay port of its rules |
| `PostRouting.JumpsOfRun` | pkg/gateway/reconciler.go:176-178 | However attempts go, POSTROUTING lists the gateways' jumps in the order in which they were first appended |
| `PostRouting.RunTranslates` | pkg/gateway/reconciler.go:166-181 | After any run of completed applies on a fresh table the first applied gateway that has a rule for a packet's destination and relay port gives the source |
| `PostRouting.OrderIrrelevantIff` | pkg/gateway/reconciler.go:166-181 | All runs of completed applies that end with the same specs give a packet the same source if and only if at most one gateway has a rule for its destination and relay port |
| `IngressRouting.AppliedTableSuffices` | pkg/gateway/reconciler.go:166-181 | On a machine that started with empty built-in chains, any sequence of attempts whose last one for a gateway applied its current spec meets what the routing theorems ask of the table |
| `Address.ParsePrint` | pkg/util/util.go:39-43 | Canonical dotted addresses parse back to their four bytes, and every accepted text is the canonical one |
| `Address.HexIPInjective` | pkg/util/util.go:39-50 | Distinct addresses get distinct names of eight hexadecimal digits |
| `Address.RuleNameInjective` | pkg/util/util.go:54-61 | Distinct gateway addresses get distinct object names |
| `Address.RuleNameDecodes` | pkg/util/util.go:39-61 | A gateway object's name is "gwrule" and eight hexadecimal digits that spell the four bytes of its address in order |
| `Address.RuleNameIff` | pkg/util/util.go:54-61 | Exactly the canonical dotted addresses have a name |
| `Text.ItoaInjective` | pkg/controller/externalservice/reconciler.go:140 | Decimal rendering never makes two port numbers collide |
| `Text.ItoaMeaning` | pkg/controller/externalservice/reconciler.go:140 | A printed number is a sign, if it is negative, and the decimal digits of its size without leading zeros |

## Left out

- Address.ParsePrint: covers canonical dotted IPv4 text only; IPv6 and IPv4-mapped text, which `net.ParseIP` also accepts, is not modelled.
- EgressRouting.DemandedIsRouted: ends at the ssh server of the source's gateway and the target's address; that the server dials out from its own address (the laddr binding in `pkg/util/ssh.go`) is taken for granted.
- EgressRuns.EndpointReachesTarget: the same.
- ForwarderRun.SyncedForwarderRoutes: the same.
- GatewayAgent.Reconciler.Reconcile: whether sshd runs is a parameter; starting it is not modelled.
- Sockets, ssh sessions and credentials (`pkg/util/ssh.go`): a tunnel is its three endpoints and its start and cancel events in either direction; that a cancelled tunnel stops forwarding is not claimed.
- Source translation end to end: `EgressRouting.AppliedPostChain` and `PostRouting` say which packets the POSTROUTING chains translate; the routing theorems go through PREROUTING and the tunnels only.
- Changes to a machine from outside in the protocol runs: `ForwarderRun` and `GatewayFleet` assume that only the agents write; lost rules and tunnels are the subject of `ForwarderAgent.Reconciler.DriftHeals`.
- Chains with jumps below the top level, and rules other than the DNAT, SNAT and jump rules the code writes, have no effect in the semantics.
- Named target ports and UDP: target ports are text without colons, and packets are TCP.
- Gateway EgressRules: computed and stored, but no agent reads them.
- Workqueues, watches, retries and backoff (`pkg/util/controller.go`, `externalservice_controller.go`), and the checks by which an agent ignores objects that are not its own.
- Generated clients, start-up code and logging.
- Pods, services and finalizers, on creation and deletion; only the effect of a deletion on rules is modelled.
- API reads that fail for reasons other than "not found": they end a reconcile as a rejected write at the same place does.
- A restarted agent that has lost its tunnel map but not its kernel state.
- Cached lists that lag behind the operator's own writes: the two-party protocol allows stale reads, the whole-system runs do not.
