// The update/sync protocol between the operator and one agent over one object
// (updateForwarderRules, updateRulesForOneGateway, both status.go files and both agent Reconcile methods).
// The API server is a versioned store: every write is a compare-and-swap on the version the writer read.
module Handshake {
  import opened Text
  import opened Api
  import opened Operator

  // ----- status.go -----

  predicate NeedSync(s: Status) {
    s.updating == IsFalse && (s.ruleGeneration != s.syncGeneration || s.syncing == IsTrue)
  }

  predicate NeedCheckSync(s: Status) {
    s.updating == IsFalse && s.ruleGeneration == s.syncGeneration && s.syncing == IsFalse
  }

  function Syncing(s: Status): Status {
    s.(syncing := IsTrue)
  }

  function SyncedStatus(s: Status): Status {
    s.(syncing := IsFalse, syncGeneration := s.ruleGeneration)
  }

  // ----- the store -----

  datatype Obj<S> = Obj(version: nat, spec: S, status: Status)

  /** A status write: ignored when it changes nothing, rejected when the version is stale, and blind to the spec */
  function PutStatus<S>(o: Obj<S>, version: nat, status: Status): Option<Obj<S>> {
    if version != o.version then None
    else if status == o.status then Some(o)
    else Some(Obj(o.version + 1, o.spec, status))
  }

  /** A spec write: the same, blind to the status */
  function PutSpec<S(==)>(o: Obj<S>, version: nat, spec: S): Option<Obj<S>> {
    if version != o.version then None
    else if spec == o.spec then Some(o)
    else Some(Obj(o.version + 1, spec, o.status))
  }

  // ----- the two parties -----

  datatype OperatorPc<S> =
    | OpIdle
    | OpRead(c: Obj<S>)     // got a copy, possibly out of a stale cache
    | OpMarked(c: Obj<S>)   // Updating is True
    | OpWritten(c: Obj<S>)  // the new spec is written

  datatype AgentPc<S> =
    | AgIdle
    | AgRead(c: Obj<S>)      // got a copy
    | AgReady(c: Obj<S>)     // after setSyncing; the copy keeps the version it was read at
    | AgApplying(c: Obj<S>)  // syncRule is running
    | AgDone(c: Obj<S>)      // syncRule has succeeded

  /** What is applied on the agent's machine: one complete spec, or something unfinished */
  datatype Node<S> = Clean(spec: S) | Dirty

  datatype Start<S> = Start(generation: nat, spec: S)

  datatype State<S> = State(
    history: seq<Obj<S>>,     // every version of the object; the last one is current
    op: OperatorPc<S>, agent: AgentPc<S>, node: Node<S>,
    published: seq<S>,        // published[g] is the spec of generation g; generation 0 is the object as created
    started: seq<Start<S>>)   // every apply the agent ever started

  function Current<S>(s: State<S>): Obj<S>
    requires s.history != []
  {
    s.history[|s.history| - 1]
  }

  function Stored<S>(s: State<S>, o: Obj<S>): State<S>
    requires s.history != []
  {
    if o.version == Current(s).version then s else s.(history := s.history + [o])
  }

  function Init<S>(spec: S): State<S> {
    State([Obj(0, spec, NO_STATUS)], OpIdle, AgIdle, Dirty, [spec], [])
  }

  datatype Step<S> =
    | OpGet(i: nat) | OpMark | OpWrite(spec: S) | OpPublish | OpAbort
    | AgGet | AgDecide(ruleSynced: bool) | AgStart | AgApply(ok: bool) | AgFinish | AgAbort

  function OperatorStep<S(==)>(s: State<S>, step: Step<S>): State<S>
    requires s.history != []
  {
    match (step, s.op)
    case (OpGet(i), OpIdle) =>
      if i < |s.history| then s.(op := OpRead(s.history[i])) else s
    case (OpMark, OpRead(c)) =>
      if c.status.updating == IsTrue then s.(op := OpMarked(c))
      else
        (match PutStatus(Current(s), c.version, Updating(c.status))
         case None => s.(op := OpIdle)
         case Some(o) => Stored(s, o).(op := OpMarked(o)))
    case (OpWrite(spec), OpMarked(c)) =>
      (match PutSpec(Current(s), c.version, spec)
       case None => s.(op := OpIdle)
       case Some(o) => Stored(s, o).(op := OpWritten(o)))
    case (OpPublish, OpWritten(c)) =>
      if c.status.updating == IsFalse && c.status.syncing == IsUnknown then s.(op := OpIdle)
      else
        (match PutStatus(Current(s), c.version, Published(c.status))
         case None => s.(op := OpIdle)
         case Some(o) => Stored(s, o).(op := OpIdle, published := s.published + [o.spec]))
    case (OpAbort, _) => s.(op := OpIdle)
    case _ => s
  }

  function AgentStep<S(==)>(s: State<S>, step: Step<S>): State<S>
    requires s.history != []
  {
    match (step, s.agent)
    case (AgGet, AgIdle) => s.(agent := AgRead(Current(s)))
    case (AgDecide(ruleSynced), AgRead(c)) =>
      if NeedSync(c.status) then
        if c.status.syncing == IsTrue then s.(agent := AgReady(c))
        else
          (match PutStatus(Current(s), c.version, Syncing(c.status))
           case None => s.(agent := AgIdle)
           case Some(o) => Stored(s, o).(agent := AgReady(c.(status := Syncing(c.status)))))
      else if NeedCheckSync(c.status) && !ruleSynced then
        (match PutStatus(Current(s), c.version, Syncing(c.status))
         case None => s.(agent := AgIdle)
         case Some(o) => Stored(s, o).(agent := AgIdle))
      else s.(agent := AgIdle)
    case (AgStart, AgReady(c)) =>
      s.(agent := AgApplying(c), node := Dirty, started := s.started + [Start(c.status.ruleGeneration, c.spec)])
    case (AgApply(ok), AgApplying(c)) =>
      if ok then s.(agent := AgDone(c), node := Clean(c.spec)) else s.(agent := AgIdle)
    case (AgFinish, AgDone(c)) =>
      if c.status.syncing == IsFalse then s.(agent := AgIdle)
      else
        (match PutStatus(Current(s), c.version, SyncedStatus(c.status))
         case None => s.(agent := AgIdle)
         case Some(o) => Stored(s, o).(agent := AgIdle))
    case (AgAbort, _) => s.(agent := AgIdle)
    case _ => s
  }

  /** One step of either party; a step that is not enabled changes nothing. */
  function Take<S(==)>(s: State<S>, step: Step<S>): (t: State<S>)
    requires s.history != []
    ensures t.history != []
  {
    AgentStep(OperatorStep(s, step), step)
  }

  function Run<S(==)>(s: State<S>, steps: seq<Step<S>>): (t: State<S>)
    requires s.history != []
    ensures t.history != []
    decreases |steps|
  {
    if steps == [] then s else Run(Take(s, steps[0]), steps[1..])
  }

  // ----- the invariant -----

  ghost predicate IsCopy<S>(history: seq<Obj<S>>, c: Obj<S>) {
    c.version < |history| && history[c.version] == c
  }

  /** One version of the object; a version that is not being updated holds the spec of its generation. */
  ghost predicate VersionOk<S>(o: Obj<S>, i: nat, published: seq<S>) {
    && o.version == i
    && o.status.syncGeneration <= o.status.ruleGeneration < |published|
    && (o.status.updating == IsFalse ==> o.spec == published[o.status.ruleGeneration])
    && (o.status.updating == IsFalse && o.status.syncing != IsTrue && o.status.syncing != IsFalse ==>
          o.status.syncGeneration < o.status.ruleGeneration)
  }

  ghost predicate HistoryOk<S>(history: seq<Obj<S>>, published: seq<S>) {
    && history != []
    && (forall i :: 0 <= i < |history| ==> VersionOk(history[i], i, published))
    && (forall i, j :: 0 <= i <= j < |history| ==> history[i].status.ruleGeneration <= history[j].status.ruleGeneration)
    && |published| == history[|history| - 1].status.ruleGeneration + 1
  }

  ghost predicate OperatorOk<S>(history: seq<Obj<S>>, op: OperatorPc<S>) {
    match op
    case OpIdle => true
    case OpRead(c) => IsCopy(history, c)
    case OpMarked(c) => IsCopy(history, c) && c.status.updating == IsTrue
    case OpWritten(c) => IsCopy(history, c) && c.status.updating == IsTrue
  }

  /** From this version on, no version is marked as synced. */
  ghost predicate NotSyncedSince<S>(history: seq<Obj<S>>, version: nat) {
    forall i :: version <= i < |history| ==> !NeedCheckSync(history[i].status)
  }

  /** The agent works on a copy of a published version that needs a sync; if its own setSyncing wrote,
      the copy is stale. */
  ghost predicate Works<S>(history: seq<Obj<S>>, c: Obj<S>) {
    && c.version < |history|
    && var o := history[c.version];
       && c.spec == o.spec && c.status == Syncing(o.status) && NeedSync(o.status)
       && (o.status.syncing != IsTrue ==> c.version + 1 < |history|)
       && NotSyncedSince(history, c.version)
  }

  ghost predicate AgentOk<S>(history: seq<Obj<S>>, agent: AgentPc<S>, node: Node<S>) {
    match agent
    case AgIdle => true
    case AgRead(c) => IsCopy(history, c) && (NeedSync(c.status) ==> NotSyncedSince(history, c.version))
    case AgReady(c) => Works(history, c)
    case AgApplying(c) => Works(history, c) && node == Dirty
    case AgDone(c) => Works(history, c) && node == Clean(c.spec)
  }

  ghost predicate Busy<S>(agent: AgentPc<S>) {
    agent.AgReady? || agent.AgApplying? || agent.AgDone?
  }

  /** Every apply was of a published spec, and the generations never decrease: not so far, and not with
      the copy the agent holds. */
  ghost predicate StartedOk<S>(s: State<S>)
    requires s.history != []
  {
    var floor := if s.agent.AgIdle? then Current(s).status.ruleGeneration else s.agent.c.status.ruleGeneration;
    && (forall i :: 0 <= i < |s.started| ==>
          && s.started[i].generation < |s.published|
          && s.started[i].spec == s.published[s.started[i].generation]
          && s.started[i].generation <= floor)
    && (forall i, j :: 0 <= i <= j < |s.started| ==> s.started[i].generation <= s.started[j].generation)
  }

  ghost predicate NodeOk<S>(s: State<S>)
    requires s.history != []
  {
    NeedCheckSync(Current(s).status) ==> s.node == Clean(Current(s).spec) && !Busy(s.agent)
  }

  ghost predicate Inv<S>(s: State<S>) {
    && HistoryOk(s.history, s.published)
    && OperatorOk(s.history, s.op)
    && AgentOk(s.history, s.agent, s.node)
    && StartedOk(s)
    && NodeOk(s)
  }

  /** Appending a version to the history */
  lemma HistoryGrows<S>(history: seq<Obj<S>>, published: seq<S>, o: Obj<S>, more: seq<S>)
    requires HistoryOk(history, published) && VersionOk(o, |history|, published + more)
    requires o.status.ruleGeneration == history[|history| - 1].status.ruleGeneration + |more|
    ensures HistoryOk(history + [o], published + more)
  {
    forall i | 0 <= i < |history| + 1 ensures VersionOk((history + [o])[i], i, published + more) {
      if i < |history| {
        assert VersionOk(history[i], i, published);
      }
    }
  }

  lemma CopyIsCurrent<S>(s: State<S>, c: Obj<S>)
    requires HistoryOk(s.history, s.published) && IsCopy(s.history, c)
    ensures Current(s).version == |s.history| - 1
    ensures c.version == Current(s).version <==> c == Current(s)
    ensures VersionOk(c, c.version, s.published)
  {
    assert VersionOk(s.history[|s.history| - 1], |s.history| - 1, s.published);
    assert VersionOk(s.history[c.version], c.version, s.published);
  }

  /** New versions that are not synced leave the agent's view intact. */
  lemma AgentKeeps<S>(s: State<S>, t: State<S>)
    requires HistoryOk(s.history, s.published) && HistoryOk(t.history, t.published)
    requires AgentOk(s.history, s.agent, s.node) && StartedOk(s)
    requires s.history <= t.history && s.published <= t.published
    requires t.agent == s.agent && t.node == s.node && t.started == s.started
    requires forall i :: |s.history| <= i < |t.history| ==> !NeedCheckSync(t.history[i].status)
    ensures AgentOk(t.history, t.agent, t.node) && StartedOk(t)
  {
    hide VersionOk, NeedSync, NeedCheckSync;
    assert Current(s) == t.history[|s.history| - 1];
  }

  /** A write of the operator that does not mark the object as synced keeps the invariant. */
  lemma OperatorWrites<S>(s: State<S>, t: State<S>, more: seq<S>)
    requires Inv(s) && s.history != [] && t.history != [] && t.history == s.history + [Current(t)] && t.published == s.published + more
    requires VersionOk(Current(t), |s.history|, t.published) && !NeedCheckSync(Current(t).status)
    requires Current(t).status.ruleGeneration == Current(s).status.ruleGeneration + |more|
    requires t.agent == s.agent && t.node == s.node && t.started == s.started && OperatorOk(t.history, t.op)
    ensures Inv(t)
  {
    hide VersionOk, OperatorOk, NeedCheckSync, AgentOk, StartedOk;
    HistoryGrows(s.history, s.published, Current(t), more);
    AgentKeeps(s, t);
  }

  lemma OperatorMoves<S>(s: State<S>, t: State<S>)
    requires Inv(s) && t == s.(op := t.op) && OperatorOk(s.history, t.op)
    ensures Inv(t)
  {
  }

  lemma OperatorStepKeepsInv<S>(s: State<S>, step: Step<S>)
    requires Inv(s)
    ensures Inv(OperatorStep(s, step))
  {
    hide HistoryOk, AgentOk, StartedOk, NodeOk;
    NonEmpty(s.history, s.published);
    GenerationCount(s);
    VersionIs(s, |s.history| - 1);
    if !s.op.OpIdle? {
      CopyIsCurrent(s, s.op.c);
    }
    var t := OperatorStep(s, step);
    if t.history == s.history {
      if step.OpGet? && step.i < |s.history| {
        VersionIs(s, step.i);
      }
      OperatorMoves(s, t);
    } else {
      OperatorWrites(s, t, if step.OpPublish? then [s.op.c.spec] else []);
    }
  }

  lemma NonEmpty<S>(history: seq<Obj<S>>, published: seq<S>)
    requires HistoryOk(history, published)
    ensures history != []
  {
  }

  lemma GenerationCount<S>(s: State<S>)
    requires HistoryOk(s.history, s.published)
    ensures s.history != [] && |s.published| == Current(s).status.ruleGeneration + 1
  {
  }

  lemma VersionIs<S>(s: State<S>, i: nat)
    requires HistoryOk(s.history, s.published) && i < |s.history|
    ensures VersionOk(s.history[i], i, s.published)
  {
  }

  lemma AgentStepKeepsInv<S>(s: State<S>, step: Step<S>)
    requires Inv(s)
    ensures Inv(AgentStep(s, step))
  {
    var t := AgentStep(s, step);
    match (step, s.agent)
    case (AgGet, AgIdle) =>
      VersionIs(s, |s.history| - 1);
    case (AgDecide(ruleSynced), AgRead(c)) =>
      DecideKeepsInv(s, c, ruleSynced);
    case (AgStart, AgReady(c)) =>
      VersionIs(s, c.version);
    case (AgApply(ok), AgApplying(c)) =>
    case (AgFinish, AgDone(c)) =>
      FinishKeepsInv(s, c);
    case _ =>
  }

  lemma DecideKeepsInv<S>(s: State<S>, c: Obj<S>, ruleSynced: bool)
    requires Inv(s) && s.agent == AgRead(c)
    ensures Inv(AgentStep(s, AgDecide(ruleSynced)))
  {
    var t := AgentStep(s, AgDecide(ruleSynced));
    CopyIsCurrent(s, c);
    hide HistoryOk, VersionOk, OperatorOk;
    if c == Current(s) && c.status.syncing != IsTrue && (NeedSync(c.status) || (NeedCheckSync(c.status) && !ruleSynced)) {
      OneMoreVersion(s, Current(t));
    }
  }

  /** A new version of the current spec and generation leaves history and the operator's copy in order. */
  lemma OneMoreVersion<S>(s: State<S>, o: Obj<S>)
    requires HistoryOk(s.history, s.published) && OperatorOk(s.history, s.op) && s.history != []
    requires o.version == |s.history| && o.spec == Current(s).spec
    requires o.status == Syncing(Current(s).status) || o.status == SyncedStatus(Current(s).status)
    ensures HistoryOk(s.history + [o], s.published) && OperatorOk(s.history + [o], s.op)
  {
    VersionIs(s, |s.history| - 1);
    HistoryGrows(s.history, s.published, o, []);
    assert s.published + [] == s.published;
    hide HistoryOk;
  }

  lemma FinishKeepsInv<S>(s: State<S>, c: Obj<S>)
    requires Inv(s) && s.agent == AgDone(c)
    ensures Inv(AgentStep(s, AgFinish))
  {
    var t := AgentStep(s, AgFinish);
    VersionIs(s, |s.history| - 1);
    VersionIs(s, c.version);
    if c.version == Current(s).version {
      HistoryGrows(s.history, s.published, Current(t), []);
      assert s.published + [] == s.published;
    }
  }

  // ----- whole runs -----

  lemma TakeKeepsInv<S>(s: State<S>, step: Step<S>)
    requires Inv(s)
    ensures s.history != [] && Inv(Take(s, step))
  {
    hide Inv;
    NonEmptyInv(s);
    OperatorStepKeepsInv(s, step);
    NonEmptyInv(OperatorStep(s, step));
    AgentStepKeepsInv(OperatorStep(s, step), step);
  }

  lemma NonEmptyInv<S>(s: State<S>)
    requires Inv(s)
    ensures s.history != []
  {
  }

  lemma {:induction false} RunKeepsInv<S>(s: State<S>, steps: seq<Step<S>>)
    requires Inv(s)
    ensures s.history != [] && Inv(Run(s, steps))
    decreases |steps|
  {
    hide Inv;
    NonEmptyInv(s);
    if steps != [] {
      TakeKeepsInv(s, steps[0]);
      RunKeepsInv(Take(s, steps[0]), steps[1..]);
    }
  }

  lemma InitInv<S>(spec: S)
    ensures Inv(Init(spec))
  {
  }

  /** Sync safety under every interleaving of the two parties, stale operator reads, rejected writes and
      crashes between any two calls included: whenever the object says it is synced, the current spec, as
      last published, is completely applied, and no apply is under way. */
  lemma SyncSafety<S>(spec: S, steps: seq<Step<S>>)
    ensures var t := Run(Init(spec), steps);
            var st := Current(t).status;
            st.updating == IsFalse && st.syncing == IsFalse && st.ruleGeneration == st.syncGeneration ==>
              && t.node == Clean(Current(t).spec)
              && (t.agent.AgIdle? || t.agent.AgRead?)
              && Current(t).status.ruleGeneration < |t.published|
              && Current(t).spec == t.published[Current(t).status.ruleGeneration]
  {
    InitInv(spec);
    RunKeepsInv(Init(spec), steps);
    var t := Run(Init(spec), steps);
    VersionIs(t, |t.history| - 1);
  }

  /** Every apply the agent starts, now or with the copy it holds, is of exactly the spec that one completed
      operator update published; the generations applied never decrease; SyncGeneration never overtakes
      RuleGeneration. */
  lemma NoTornOrBackwardApply<S>(spec: S, steps: seq<Step<S>>, i: nat, j: nat)
    requires i <= j < |Run(Init(spec), steps).started|
    ensures var t := Run(Init(spec), steps);
            && t.started[i].generation <= t.started[j].generation < |t.published|
            && t.started[j].spec == t.published[t.started[j].generation]
            && Current(t).status.syncGeneration <= Current(t).status.ruleGeneration
            && |t.published| == Current(t).status.ruleGeneration + 1
  {
    InitInv(spec);
    RunKeepsInv(Init(spec), steps);
    var t := Run(Init(spec), steps);
    VersionIs(t, |t.history| - 1);
  }

  lemma TakeGrows<S>(s: State<S>, step: Step<S>)
    requires s.history != []
    ensures s.published <= Take(s, step).published && s.started <= Take(s, step).started
  {
    var m := OperatorStep(s, step);
    assert s.published <= m.published && s.started == m.started;
    assert m.published == AgentStep(m, step).published && m.started <= AgentStep(m, step).started;
  }

  /** What was published stays published, and the record of applies only grows. */
  lemma {:induction false} PublishedGrows<S>(s: State<S>, steps: seq<Step<S>>)
    requires s.history != []
    ensures s.published <= Run(s, steps).published && s.started <= Run(s, steps).started
    decreases |steps|
  {
    hide Take;
    if steps != [] {
      TakeGrows(s, steps[0]);
      PublishedGrows(Take(s, steps[0]), steps[1..]);
    }
  }

  /** No stuck state: while the operator is not updating, the agent has exactly one thing to do, which is to check an object
      that says it is synced and to apply any other; and while the operator is updating it has nothing to do. */
  lemma NoStuckState<S>(spec: S, steps: seq<Step<S>>)
    ensures var st := Current(Run(Init(spec), steps)).status;
            && (NeedCheckSync(st) <==> st.updating == IsFalse && st.syncing == IsFalse && st.ruleGeneration == st.syncGeneration)
            && (NeedSync(st) <==> st.updating == IsFalse && (st.syncing != IsFalse || st.ruleGeneration != st.syncGeneration))
  {
    InitInv(spec);
    RunKeepsInv(Init(spec), steps);
    var t := Run(Init(spec), steps);
    VersionIs(t, |t.history| - 1);
  }

  // ----- convergence -----

  /** One undisturbed pass of the agent's Reconcile with a successful apply */
  function Pass<S>(): seq<Step<S>> {
    [AgGet, AgDecide(true), AgStart, AgApply(true), AgFinish]
  }

  function AfterPass<S(==)>(s: State<S>): (t: State<S>)
    requires s.history != []
    ensures t.history != []
  {
    Run(s, Pass())
  }

  lemma RunFive<S>(s: State<S>, a: Step<S>, b: Step<S>, c: Step<S>, d: Step<S>, e: Step<S>)
    requires s.history != []
    ensures Run(s, [a, b, c, d, e]) == Take(Take(Take(Take(Take(s, a), b), c), d), e)
  {
    hide Take;
    assert [a, b, c, d, e][1..] == [b, c, d, e];
    assert [b, c, d, e][1..] == [c, d, e];
    assert [c, d, e][1..] == [d, e];
    assert [d, e][1..] == [e];
    assert [e][1..] == [];
    var s1 := Take(s, a);
    var s2 := Take(s1, b);
    var s3 := Take(s2, c);
    var s4 := Take(s3, d);
    assert Run(s4, [e]) == Run(Take(s4, e), []);
    assert Run(s3, [d, e]) == Run(s4, [e]);
    assert Run(s2, [c, d, e]) == Run(s3, [d, e]);
    assert Run(s1, [b, c, d, e]) == Run(s2, [c, d, e]);
  }

  /** What one pass does when a sync is needed: it completes if Syncing was already True; otherwise its own
      setSyncing makes its copy stale, setSynced is rejected, and the object is left with Syncing True. */
  lemma OnePass<S>(s: State<S>)
    requires Inv(s) && s.agent == AgIdle && NeedSync(Current(s).status)
    ensures var o, t := Current(s), AfterPass(s);
            var now := Current(t).status;
            && t.agent == AgIdle && t.op == s.op && Current(t).spec == o.spec && t.node == Clean(o.spec)
            && now.updating == IsFalse && now.ruleGeneration == o.status.ruleGeneration
            && (o.status.syncing == IsTrue ==> now.syncing == IsFalse && now.syncGeneration == o.status.ruleGeneration)
            && (o.status.syncing != IsTrue ==> now.syncing == IsTrue && now.syncGeneration == o.status.syncGeneration)
  {
    VersionIs(s, |s.history| - 1);
    hide Take, Inv, VersionOk, Run;
    assert AfterPass(s) == Take(Take(Take(Take(Take(s, AgGet), AgDecide(true)), AgStart), AgApply(true)), AgFinish) by {
      RunFive(s, AgGet, AgDecide(true), AgStart, AgApply(true), AgFinish);
    }
    hide AgentStep, NeedSync;
    var s1 := Take(s, AgGet);
    Fetches(s);
    var s2 := Take(s1, AgDecide(true));
    DecidedToSync(s1);
    var s4 := Take(Take(s2, AgStart), AgApply(true));
    Applies(s2);
    Finishes(s4);
  }

  lemma Fetches<S>(s: State<S>)
    requires s.history != [] && s.agent == AgIdle
    ensures Take(s, AgGet) == s.(agent := AgRead(Current(s)))
  {
    AgentAlone(s, AgGet);
  }

  /** An apply that succeeds leaves the copy's spec on the machine. */
  lemma Applies<S>(s: State<S>)
    requires s.history != [] && s.agent.AgReady?
    ensures var t := Take(Take(s, AgStart), AgApply(true));
            t.history == s.history && t.op == s.op && t.agent == AgDone(s.agent.c) && t.node == Clean(s.agent.c.spec)
  {
    AgentAlone(s, AgStart);
    AgentAlone(Take(s, AgStart), AgApply(true));
  }

  lemma AgentAlone<S>(s: State<S>, step: Step<S>)
    requires s.history != []
    requires step.AgGet? || step.AgDecide? || step.AgStart? || step.AgApply? || step.AgFinish?
    ensures Take(s, step) == AgentStep(s, step)
  {
  }

  /** setSyncing with a fresh copy: the object is marked, and the copy is stale if that took a write. */
  lemma DecidedToSync<S>(s: State<S>)
    requires s.history != [] && s.agent == AgRead(Current(s)) && NeedSync(Current(s).status)
    ensures var o, t := Current(s), Take(s, AgDecide(true));
            && t.agent == AgReady(o.(status := Syncing(o.status))) && t.op == s.op && Current(t).spec == o.spec
            && Current(t).status == Syncing(o.status)
            && (o.status.syncing == IsTrue <==> Current(t).version == o.version)
  {
    AgentAlone(s, AgDecide(true));
  }

  /** setSynced succeeds exactly with a copy that is not stale. */
  lemma Finishes<S>(s: State<S>)
    requires s.history != [] && s.agent.AgDone? && s.agent.c.status.syncing == IsTrue
    requires s.agent.c.status == Current(s).status
    ensures var o, t := Current(s), Take(s, AgFinish);
            && t.agent == AgIdle && t.op == s.op && t.node == s.node && Current(t).spec == o.spec
            && Current(t).status == (if s.agent.c.version == o.version then SyncedStatus(o.status) else o.status)
  {
    AgentAlone(s, AgFinish);
  }

  /** Bounded convergence: with the operator quiet and applies succeeding, a state that needs a sync is
      synced after one pass exactly if Syncing was True, and after two passes in any case. */
  lemma TwoPassesConverge<S>(s: State<S>)
    requires Inv(s) && s.agent == AgIdle
    requires var st := Current(s).status; st.updating == IsFalse && (st.syncing != IsFalse || st.ruleGeneration != st.syncGeneration)
    ensures var o, t := Current(s), AfterPass(s);
            && (Current(t).status == Status(IsFalse, IsFalse, o.status.ruleGeneration, o.status.ruleGeneration) <==>
                o.status.syncing == IsTrue)
            && (o.status.syncing != IsTrue ==>
                  && Current(AfterPass(t)).status == Status(IsFalse, IsFalse, o.status.ruleGeneration, o.status.ruleGeneration)
                  && Current(AfterPass(t)).spec == o.spec && AfterPass(t).node == Clean(o.spec))
  {
    VersionIs(s, |s.history| - 1);
    OnePass(s);
    var t := AfterPass(s);
    if Current(s).status.syncing != IsTrue {
      RunKeepsInv(s, Pass());
      assert NeedSync(Current(t).status);
      hide Inv;
      OnePass(t);
    }
  }

  /** An object that says it is synced: a check that finds everything in place changes nothing; one that finds something
      missing marks the object, and one pass later it is applied and says the same as before. */
  lemma DriftIsApplied<S>(s: State<S>)
    requires Inv(s) && s.agent == AgIdle
    requires var st := Current(s).status; st.updating == IsFalse && st.syncing == IsFalse && st.ruleGeneration == st.syncGeneration
    ensures Take(Take(s, AgGet), AgDecide(true)) == s
    ensures var t := Take(Take(s, AgGet), AgDecide(false));
            var marked, now := Current(t), Current(AfterPass(t));
            && marked.spec == now.spec == Current(s).spec && t.agent == AgIdle && t.node == s.node
            && marked.status == Status(IsFalse, IsTrue, Current(s).status.ruleGeneration, Current(s).status.syncGeneration)
            && now.status == Current(s).status && AfterPass(t).node == Clean(Current(s).spec)
  {
    VersionIs(s, |s.history| - 1);
    TakeKeepsInv(s, AgGet);
    TakeKeepsInv(Take(s, AgGet), AgDecide(false));
    Fetches(s);
    AgentAlone(Take(s, AgGet), AgDecide(true));
    AgentAlone(Take(s, AgGet), AgDecide(false));
    hide Inv, Take, AfterPass;
    OnePass(Take(Take(s, AgGet), AgDecide(false)));
  }

  /** One undisturbed update of the operator that writes `spec` */
  function AfterUpdate<S(==)>(s: State<S>, spec: S): (t: State<S>)
    requires s.history != []
    ensures t.history != []
  {
    Run(s, [OpAbort, OpGet(|s.history| - 1), OpMark, OpWrite(spec), OpPublish])
  }

  /** Wherever the operator was interrupted, an undisturbed retry publishes its spec as the next generation. */
  lemma RetryPublishes<S>(s: State<S>, spec: S)
    requires Inv(s)
    ensures var t := AfterUpdate(s, spec);
            && Current(t).spec == spec && Current(t).status.updating == IsFalse && Current(t).status.syncing == IsUnknown
            && Current(t).status.syncGeneration == Current(s).status.syncGeneration < Current(t).status.ruleGeneration
            && Current(t).status.ruleGeneration == Current(s).status.ruleGeneration + 1
            && t.published == s.published + [spec] && t.agent == s.agent && t.op == OpIdle
  {
    var n: nat := |s.history| - 1;
    VersionIs(s, n);
    RunFive(s, OpAbort, OpGet(n), OpMark, OpWrite(spec), OpPublish);
    hide Inv, Take;
    ReadStep(s);
    MarkStep(Take(Take(s, OpAbort), OpGet(n)));
    WriteStep(Take(Take(Take(s, OpAbort), OpGet(n)), OpMark), spec);
    PublishStep(Take(Take(Take(Take(s, OpAbort), OpGet(n)), OpMark), OpWrite(spec)));
  }

  /** The operator holds nothing, or a copy that is not current. */
  ghost predicate HoldsStale<S>(s: State<S>) {
    s.history != [] && (s.op.OpIdle? || s.op.c.version != Current(s).version)
  }

  lemma StaleStep<S>(s: State<S>, step: Step<S>)
    requires HoldsStale(s) && (step.OpMark? || step.OpWrite? || step.OpPublish?)
    ensures Take(s, step).(op := OpIdle) == s.(op := OpIdle) && HoldsStale(Take(s, step))
  {
    OperatorAlone(s, step);
  }

  lemma StaleRead<S>(s: State<S>, i: nat)
    requires Inv(s) && i + 1 < |s.history|
    ensures var t := Take(Take(s, OpAbort), OpGet(i)); t == s.(op := OpRead(s.history[i])) && HoldsStale(t)
  {
    VersionIs(s, |s.history| - 1);
    VersionIs(s, i);
    OperatorAlone(s, OpAbort);
    OperatorAlone(Take(s, OpAbort), OpGet(i));
  }

  /** An update that starts from a copy which is no longer current changes nothing: one of its writes is rejected before
      anything is stored. */
  lemma StaleUpdateIsRejected<S>(s: State<S>, i: nat, spec: S)
    requires Inv(s) && i + 1 < |s.history|
    ensures s.history != [] && Run(s, [OpAbort, OpGet(i), OpMark, OpWrite(spec), OpPublish]).(op := OpIdle) == s.(op := OpIdle)
  {
    NonEmptyInv(s);
    RunFive(s, OpAbort, OpGet(i), OpMark, OpWrite(spec), OpPublish);
    hide *;
    StaleRead(s, i);
    var s2 := Take(Take(s, OpAbort), OpGet(i));
    StaleStep(s2, OpMark);
    StaleStep(Take(s2, OpMark), OpWrite(spec));
    StaleStep(Take(Take(s2, OpMark), OpWrite(spec)), OpPublish);
  }

  /** The operator holds the current version and the agent's side is that of `s`. */
  ghost predicate UpToDate<S>(s: State<S>, t: State<S>, c: Obj<S>) {
    && t.history != [] && c == Current(t) && c.version == |t.history| - 1
    && t.published == s.published && t.agent == s.agent
  }

  lemma ReadStep<S>(s: State<S>)
    requires s.history != [] && Current(s).version == |s.history| - 1
    ensures var t := Take(Take(s, OpAbort), OpGet(|s.history| - 1));
            t.op == OpRead(Current(s)) && UpToDate(s, t, Current(s))
  {
    OperatorAlone(s, OpAbort);
    OperatorAlone(Take(s, OpAbort), OpGet(|s.history| - 1));
  }

  lemma MarkStep<S>(s: State<S>)
    requires s.op.OpRead? && UpToDate(s, s, s.op.c)
    ensures var t := Take(s, OpMark);
            && t.op == OpMarked(Current(t)) && UpToDate(s, t, t.op.c)
            && Current(t).status == Updating(Current(s).status) && Current(t).spec == Current(s).spec
  {
    OperatorAlone(s, OpMark);
  }

  lemma WriteStep<S>(s: State<S>, spec: S)
    requires s.op.OpMarked? && UpToDate(s, s, s.op.c)
    ensures var t := Take(s, OpWrite(spec));
            && t.op == OpWritten(Current(t)) && UpToDate(s, t, t.op.c)
            && Current(t).status == Current(s).status && Current(t).spec == spec
  {
    OperatorAlone(s, OpWrite(spec));
  }

  lemma PublishStep<S>(s: State<S>)
    requires s.op.OpWritten? && UpToDate(s, s, s.op.c) && s.op.c.status.updating == IsTrue
    ensures var t := Take(s, OpPublish);
            && t.op == OpIdle && t.agent == s.agent && t.published == s.published + [Current(s).spec]
            && Current(t).status == Published(Current(s).status) && Current(t).spec == Current(s).spec
  {
    OperatorAlone(s, OpPublish);
  }

  lemma OperatorAlone<S>(s: State<S>, step: Step<S>)
    requires s.history != []
    requires step.OpGet? || step.OpMark? || step.OpWrite? || step.OpPublish? || step.OpAbort?
    ensures Take(s, step) == OperatorStep(s, step)
  {
  }

  /** From every reachable state, also if the agent stops in the middle of an apply there: one retried update and two passes
      bring the new spec onto the machine. */
  lemma RetriedUpdateIsApplied<S>(initial: S, steps: seq<Step<S>>, spec: S)
    ensures var t := AfterPass(AfterPass(AfterUpdate(Take(Run(Init(initial), steps), AgAbort), spec)));
            var st := Current(t).status;
            && st.updating == IsFalse && st.syncing == IsFalse && st.syncGeneration == st.ruleGeneration
            && Current(t).spec == spec && t.node == Clean(spec)
  {
    InitInv(initial);
    RunKeepsInv(Init(initial), steps);
    TakeKeepsInv(Run(Init(initial), steps), AgAbort);
    var s := Take(Run(Init(initial), steps), AgAbort);
    assert s.agent == AgIdle;
    RetryPublishes(s, spec);
    RunKeepsInv(s, [OpAbort, OpGet(|s.history| - 1), OpMark, OpWrite(spec), OpPublish]);
    hide Inv, Take, Run;
    TwoPassesConverge(AfterUpdate(s, spec));
  }

  // ----- the operator's writes are the protocol's -----

  /** The operator's steps that lead to one write, from a fresh copy */
  function StepsFor<S(==)>(s: State<S>, now: Content<S>): seq<Step<S>>
    requires s.history != []
  {
    var o := Current(s);
    var get: Step<S> := OpGet(|s.history| - 1);
    if now.status.updating == IsFalse then [OpAbort, get, OpMark, OpWrite(now.spec), OpPublish]
    else if now.spec == o.spec then [OpAbort, get, OpMark, OpAbort, OpAbort]
    else [OpAbort, get, OpMark, OpWrite(now.spec), OpAbort]
  }

  lemma AbortStep<S>(s: State<S>)
    requires s.history != []
    ensures var t := Take(s, OpAbort);
            && t.history == s.history && t.published == s.published && t.agent == s.agent && t.node == s.node
            && Current(t) == Current(s)
  {
    OperatorAlone(s, OpAbort);
  }

  /** Where the operator is after it marked a fresh copy */
  lemma FreshlyMarked<S>(s: State<S>)
    requires Inv(s)
    ensures s.history != []
    ensures var t := Take(Take(Take(s, OpAbort), OpGet(|s.history| - 1)), OpMark);
            && t.op == OpMarked(Current(t)) && UpToDate(t, t, t.op.c) && t.agent == s.agent
            && Current(t).spec == Current(s).spec && Current(t).status == Updating(Current(s).status)
  {
    NonEmptyInv(s);
    VersionIs(s, |s.history| - 1);
    hide Inv, Take, VersionOk;
    ReadStep(s);
    MarkStep(Take(Take(s, OpAbort), OpGet(|s.history| - 1)));
  }

  lemma MarkIsRun<S>(s: State<S>)
    requires Inv(s)
    ensures s.history != []
    ensures var t := Run(s, [OpAbort, OpGet(|s.history| - 1), OpMark, OpAbort, OpAbort]);
            Current(t).spec == Current(s).spec && Current(t).status == Updating(Current(s).status) && t.agent == s.agent
  {
    hide *;
    FreshlyMarked(s);
    RunFive(s, OpAbort, OpGet(|s.history| - 1), OpMark, OpAbort, OpAbort);
    var s3 := Take(Take(Take(s, OpAbort), OpGet(|s.history| - 1)), OpMark);
    AbortStep(s3);
    AbortStep(Take(s3, OpAbort));
  }

  lemma SpecIsRun<S>(s: State<S>, spec: S)
    requires Inv(s)
    ensures s.history != []
    ensures var t := Run(s, [OpAbort, OpGet(|s.history| - 1), OpMark, OpWrite(spec), OpAbort]);
            Current(t).spec == spec && Current(t).status == Updating(Current(s).status) && t.agent == s.agent
  {
    hide *;
    FreshlyMarked(s);
    RunFive(s, OpAbort, OpGet(|s.history| - 1), OpMark, OpWrite(spec), OpAbort);
    var s3 := Take(Take(Take(s, OpAbort), OpGet(|s.history| - 1)), OpMark);
    WriteStep(s3, spec);
    AbortStep(Take(s3, OpWrite(spec)));
  }

  /** Every write that the operator makes to an object that exists is what a run of its protocol steps makes of it, from any
      reachable state; the agent is not involved. */
  lemma WriteIsRun<S(!new)>(s: State<S>, now: Content<S>, empty: S)
    requires Inv(s) && s.history != [] && UpdateWrite(Some(Content(Current(s).spec, Current(s).status)), now, empty)
    ensures var t := Run(s, StepsFor(s, now));
            Current(t).spec == now.spec && Current(t).status == now.status && t.agent == s.agent
  {
    hide Inv, Run;
    if now.status.updating == IsFalse {
      RetryPublishes(s, now.spec);
    } else if now.spec == Current(s).spec {
      MarkIsRun(s);
    } else {
      SpecIsRun(s, now.spec);
    }
  }
}
