/**
 The six transitions that the launcher, the worker and the takeover make. With only these, a chain
 is short, its transition identities are distinct, and the reader never refuses it.
 */
module HandoffAutomaton {
  import opened Wrappers
  import opened HandoffRecords
  import opened HandoffProtocol

  /** The identity of one operation and its worker, shared by all callers. */
  datatype Operation = Operation(operationId: string, workerId: string)

  function IdOf(op: Operation, t: Transition): TransitionId {
    TransitionId(op.operationId, t, op.workerId)
  }

  predicate IsOf(op: Operation, h: Handoff) {
    h.identity.operationId == op.operationId && h.identity.workerId == op.workerId
  }

  /** A call that one of the callers makes for this operation. */
  predicate IsCallerCall(op: Operation, call: Call) {
    match call
    case Create(h, _, id) => id == IdOf(op, Genesis) && IsOf(op, h) && h.owner == Parent && h.state == Launching
    case Swap(owner, state, next, id) =>
      || (id == IdOf(op, WorkerClaim) && owner == Parent && state == Launching && next.owner == Worker
         && next.state == WorkerOwned)
      || (id == IdOf(op, LaunchFailed) && owner == Parent && state == Launching
          && next.owner == Parent && next.state == ReconciliationRequired)
      || (id == IdOf(op, TakeoverTerminal) && next.owner == owner && next.state == Terminal
          && ((owner == Parent && state == Launching) || (owner == Worker && state == WorkerOwned)))
      || (id == IdOf(op, WorkerTerminal) && owner == Worker && state == WorkerOwned && next.owner == Worker
         && next.state == Terminal)
      || (id == IdOf(op, WorkerFailed) && owner == Worker && state == WorkerOwned
          && next.owner == Worker && next.state == ReconciliationRequired)
  }

  predicate OnlyCallers(op: Operation, actions: seq<Action>) {
    forall i :: 0 <= i < |actions| && actions[i].Begin? ==> IsCallerCall(op, actions[i].call)
  }

  /** What may follow the launching parent. */
  predicate AfterLaunching(op: Operation, next: Revision) {
    || (next.transitionId == IdOf(op, WorkerClaim) && next.handoff.owner == Worker && next.handoff.state == WorkerOwned)
    || (next.transitionId == IdOf(op, LaunchFailed) && next.handoff.state == ReconciliationRequired)
    || (next.transitionId == IdOf(op, TakeoverTerminal) && next.handoff.state == Terminal)
  }

  /** What may follow the owning worker. */
  predicate AfterOwned(op: Operation, next: Revision) {
    || (next.transitionId == IdOf(op, WorkerTerminal) && next.handoff.state == Terminal)
    || (next.transitionId == IdOf(op, WorkerFailed) && next.handoff.state == ReconciliationRequired)
    || (next.transitionId == IdOf(op, TakeoverTerminal) && next.handoff.state == Terminal)
  }

  /** One edge of the automaton. */
  predicate Edge(op: Operation, prev: Handoff, next: Revision) {
    || (prev.owner == Parent && prev.state == Launching && AfterLaunching(op, next))
    || (prev.owner == Worker && prev.state == WorkerOwned && AfterOwned(op, next))
  }

  predicate IsStart(op: Operation, r: Revision) {
    && r.transitionId == IdOf(op, Genesis) && IsOf(op, r.handoff)
    && r.handoff.owner == Parent && r.handoff.state == Launching
  }

  /** The chain is a path of the automaton from the launching parent, all of it for one operation. */
  ghost predicate IsPath(op: Operation, published: map<nat, Revision>) {
    && (0 in published ==> IsStart(op, published[0]))
    && (forall k :: k in published ==> IsOf(op, published[k].handoff))
    && forall k :: k in published && k > 0 ==> k - 1 in published && Edge(op, published[k - 1].handoff, published[k])
  }

  ghost predicate CallsAreCallers(op: Operation, w: World) {
    forall pid :: pid in w.procs && IsRunning(w.procs[pid]) ==> IsCallerCall(op, w.procs[pid].call)
  }

  lemma StepKeepsCallers(op: Operation, w: World, a: Action)
    requires CallsAreCallers(op, w) && (a.Begin? ==> IsCallerCall(op, a.call))
    ensures CallsAreCallers(op, Apply(w, a))
  {
    hide IsCallerCall, ReadAuthority;
    match a
    case Advance(pid) => StepKeepsCall(w, pid);
    case _ =>
  }

  lemma StepKeepsCall(w: World, pid: Pid)
    ensures
      var w' := Step(w, pid);
      && (forall other :: other in w'.procs && other != pid ==> other in w.procs && w'.procs[other] == w.procs[other])
      && (IsRunning(At(w', pid)) ==> IsRunning(At(w, pid)) && At(w', pid).call == At(w, pid).call)
  {
    hide ReadAuthority;
  }

  lemma CallMakesEdge(op: Operation, call: Call, r: Revision)
    requires IsCallerCall(op, call) && Wants(call, r)
    ensures r.number == 0 ==> IsStart(op, r)
    ensures r.number > 0 ==> r.previous.Some? && Edge(op, r.previous.value.handoff, r)
  {
  }

  lemma StepKeepsPath(op: Operation, w: World, a: Action)
    requires Safe(w) && IsPath(op, w.published) && CallsAreCallers(op, w)
    ensures IsPath(op, Apply(w, a).published)
  {
    hide IsCallerCall, Edge, IsChain, ReadAuthority, SameLaunch, Wants;
    var w' := Apply(w, a);
    if w'.published != w.published {
      var l := At(w, a.pid);
      LinkKeepsChain(w.published, l.revision);
      CallMakesEdge(op, l.call, l.revision);
      PathGrows(op, w.published, l.revision);
    }
  }

  lemma PathGrows(op: Operation, published: map<nat, Revision>, r: Revision)
    requires IsPath(op, published) && r.number !in published && Fits(published, r)
    requires r.number == 0 ==> IsStart(op, r)
    requires r.number > 0 ==> r.previous.Some? && Edge(op, r.previous.value.handoff, r)
    ensures IsPath(op, published[r.number := r])
  {
    hide Edge, WellFormedRevision;
  }

  /** With only the callers' transitions, every run walks along the automaton. */
  lemma {:induction false} RunsArePaths(op: Operation, actions: seq<Action>)
    requires OnlyCallers(op, actions)
    ensures IsPath(op, Run(actions).published) && CallsAreCallers(op, Run(actions))
  {
    hide IsCallerCall, Apply, IsPath;
    if actions == [] {
      NoPath(op);
    } else {
      var before := actions[..|actions| - 1];
      assert forall i :: 0 <= i < |before| ==> before[i] == actions[i];
      RunsArePaths(op, before);
      RunsAreSafe(before);
      hide Safe;
      StepKeepsPath(op, Run(before), actions[|actions| - 1]);
      StepKeepsCallers(op, Run(before), actions[|actions| - 1]);
    }
  }

  lemma NoPath(op: Operation)
    ensures IsPath(op, START.published)
  {
  }

  predicate IsFinal(r: Revision) {
    r.handoff.state == Terminal || r.handoff.state == ReconciliationRequired
  }

  lemma PathEnds(op: Operation, published: map<nat, Revision>)
    requires IsPath(op, published)
    ensures 1 in published ==> published[1].handoff.state == WorkerOwned || IsFinal(published[1])
    ensures 2 in published ==>
      1 in published && published[1].transitionId == IdOf(op, WorkerClaim) && IsFinal(published[2])
    ensures 3 !in published
  {
  }

  /**
   A path has at most three revisions, distinct transition identities, and a final state wherever it
   cannot go on: after launching comes exactly one of claim, launch failure and takeover.
   */
  lemma PathIsShort(op: Operation, published: map<nat, Revision>)
    requires IsPath(op, published) && IsChain(published)
    ensures |published| <= 3 && DistinctIds(published)
    ensures |published| >= 2 ==>
      && 1 in published
      && published[1].transitionId in {IdOf(op, WorkerClaim), IdOf(op, LaunchFailed), IdOf(op, TakeoverTerminal)}
    ensures |published| == 3 ==> 1 in published && published[1].transitionId == IdOf(op, WorkerClaim)
    ensures forall k :: k in published && IsFinal(published[k]) ==> k == |published| - 1
    ensures |published| == 3 ==> 2 in published && IsFinal(published[2])
  {
    ChainLength(published);
    PathEnds(op, published);
    hide IsChain;
    if 1 in published { assert Edge(op, published[0].handoff, published[1]); }
    if 2 in published { assert Edge(op, published[1].handoff, published[2]); }
  }

  /**
   Whatever the callers do, in any order and with any crashes: the chain has at most three revisions,
   the reader never refuses it, from the launching parent at most one of claim, launch failure and
   takeover is published, and it is published once.
   */
  lemma CallersAreSafe(op: Operation, actions: seq<Action>)
    requires OnlyCallers(op, actions)
    ensures
      var p := Run(actions).published;
      && |p| <= 3 && ReadAuthority(p).Some?
      && (|p| >= 2 ==>
         1 in p && p[1].transitionId in {IdOf(op, WorkerClaim), IdOf(op, LaunchFailed), IdOf(op, TakeoverTerminal)})
      && (|p| == 3 ==> 1 in p && p[1].transitionId == IdOf(op, WorkerClaim))
  {
    hide IsPath, Run, OnlyCallers, ReadAuthority, DistinctIds;
    RunsArePaths(op, actions);
    RunsAreSafe(actions);
    PathIsShort(op, Run(actions).published);
    ReaderRefusesOnlyRepeats(actions);
  }

  /** Nothing leaves a final state: once the head is final, no later run of the callers changes the chain. */
  lemma FinalIsFinal(op: Operation, earlier: seq<Action>, later: seq<Action>)
    requires OnlyCallers(op, earlier + later)
    requires |Run(earlier).published| - 1 in Run(earlier).published
    requires IsFinal(Run(earlier).published[|Run(earlier).published| - 1])
    ensures Run(earlier + later).published == Run(earlier).published
  {
    hide IsPath, Run, OnlyCallers, DistinctIds;
    var p, q := Run(earlier).published, Run(earlier + later).published;
    RunsAreSafe(earlier);
    RunsAreSafe(earlier + later);
    RunsArePaths(op, earlier + later);
    RunsExtend(earlier, later);
    PathIsShort(op, q);
    ChainLength(p);
    ChainLength(q);
    assert q[|p| - 1] == p[|p| - 1];
    assert |p| == |q|;
  }
}
