/**
 Taking over from a dead worker: the reconciler appends one event to the session log and closes the
 handoff. It may crash at any step and is then run again.
 */
module WorkerTakeover {
  import opened Wrappers
  import opened HandoffRecords
  import opened HandoffProtocol
  import opened HandoffAutomaton
  import B = BackgroundProjector

  // ---------- one swap without rivals ----------

  /** The revision that a swap publishes on top of a head. */
  function SwapRevision(published: map<nat, Revision>, head: Revision, call: Call): Revision
    requires call.Swap? && 0 in published
  {
    Hashed(call.next, None, published[0].launchHash, Some(head), head.number + 1, call.id)
  }

  /** A swap that can succeed: the head is as expected, and the transition is new. */
  ghost predicate CanSwap(published: map<nat, Revision>, head: Revision, call: Call) {
    && call.Swap? && IsReadable(published) && SameLaunch(published) && published != map[]
    && head == published[|published| - 1]
    && head.handoff.owner == call.expectedOwner && head.handoff.state == call.expectedState
    && head.handoff.identity == call.next.identity && head.handoff != call.next
    && forall k :: k in published ==> published[k].transitionId != call.id
  }

  /** A candidate of exactly this revision was opened, never finished, and is in the way. */
  predicate Blocked(w: World, r: Revision) {
    r in w.torn && r !in w.candidates
  }

  predicate SameDirectory(w0: World, w: World) {
    w.published == w0.published && w.torn == w0.torn && w.candidates == w0.candidates
  }

  /** How a swap to the revision `r` stands when nobody else acts. */
  ghost predicate Stands(w0: World, r: Revision, head: Revision, call: Call, w: World, l: Local) {
    && (w.published == w0.published || w.published == w0.published[r.number := r])
    && w0.torn - {r} <= w.torn <= w0.torn + {r} && w0.candidates <= w.candidates
    && match l
       case Reading(c) => c == call && SameDirectory(w0, w)
       case Checked(c, a) => c == call && a == head && SameDirectory(w0, w)
       case Opening(c, x) => c == call && x == r && SameDirectory(w0, w)
       case Writing(c, x) => c == call && x == r && w.published == w0.published && !Blocked(w0, r)
       case Linking(c, x) => c == call && x == r && w.published == w0.published && !Blocked(w0, r)
       case Verifying(c, x) => c == call && x == r && w.published == w0.published[r.number := r] && !Blocked(w0, r)
       case Returned(c, x) => c == call && x == r && w.published == w0.published[r.number := r] && !Blocked(w0, r)
       case Failed(c, e) => c == call && SameDirectory(w0, w) && e.Reconcile? && Blocked(w0, r)
       case Idle => false
  }

  lemma ExtendedIsReadable(published: map<nat, Revision>, head: Revision, call: Call)
    requires CanSwap(published, head, call)
    ensures 0 in published && |published| - 1 in published && published[0].number == 0 && published[0].launch.Some?
    ensures
      var r := SwapRevision(published, head, call);
      && WellFormedRevision(r) && r.number == |published| && r.number !in published
      && ReadAuthority(published[r.number := r]) == Some(Some(r))
      && IsChain(published[r.number := r]) && SameLaunch(published[r.number := r])
  {
    hide Follows;
    var r := SwapRevision(published, head, call);
    var extended := published[r.number := r];
    assert r.number == |published|;
    FollowsFromHead(published, head, call);
    LinkKeepsChain(published, r);
    ChainLength(extended);
    assert DistinctIds(extended);
  }

  lemma FollowsFromHead(published: map<nat, Revision>, head: Revision, call: Call)
    requires CanSwap(published, head, call)
    ensures 0 in published && |published| - 1 in published && head.number == |published| - 1
    ensures Follows(head, SwapRevision(published, head, call))
  {
  }

  function Rank(l: Local): nat {
    match l
    case Reading(_) => 6
    case Checked(_, _) => 5
    case Opening(_, _) => 4
    case Writing(_, _) => 3
    case Linking(_, _) => 2
    case Verifying(_, _) => 1
    case _ => 0
  }

  lemma SoloReading(w0: World, head: Revision, call: Call)
    requires CanSwap(w0.published, head, call)
    ensures AfterReadingSwap(call, ReadAuthority(w0.published)) == Checked(call, head)
  {
    hide IsChain, DistinctIds, SameLaunch;
    assert ReadAuthority(w0.published) == Some(Some(head));
  }

  lemma SoloChecked(w0: World, head: Revision, call: Call)
    requires CanSwap(w0.published, head, call)
    ensures AfterGenesis(call, head, w0.published) == Opening(call, SwapRevision(w0.published, head, call))
  {
    ExtendedIsReadable(w0.published, head, call);
    hide CanSwap;
  }

  lemma SoloPublish(w0: World, r: Revision, head: Revision, call: Call, w: World, pid: Pid)
    requires Stands(w0, r, head, call, w, At(w, pid)) && r.number !in w0.published
    requires ReadAuthority(w0.published[r.number := r]) == Some(Some(r))
    requires At(w, pid).Opening? || At(w, pid).Writing? || At(w, pid).Linking? || At(w, pid).Verifying?
    ensures Stands(w0, r, head, call, Step(w, pid), At(Step(w, pid), pid))
      && Rank(At(Step(w, pid), pid)) < Rank(At(w, pid))
  {
    hide ReadAuthority, AfterGenesis, AfterReadingSwap, AfterReadingCreate;
    match At(w, pid)
    case Opening(_, _) =>
    case Writing(_, _) =>
    case Linking(_, _) =>
    case Verifying(_, _) =>
  }

  lemma SoloStep(w0: World, w: World, pid: Pid, head: Revision, call: Call)
    requires CanSwap(w0.published, head, call) && 0 in w0.published
    requires Stands(w0, SwapRevision(w0.published, head, call), head, call, w, At(w, pid)) && IsRunning(At(w, pid))
    ensures
      var w' := Step(w, pid);
      Stands(w0, SwapRevision(w0.published, head, call), head, call, w', At(w', pid))
        && Rank(At(w', pid)) < Rank(At(w, pid))
  {
    ExtendedIsReadable(w0.published, head, call);
    var r := SwapRevision(w0.published, head, call);
    hide CanSwap, SwapRevision, ReadAuthority, AfterGenesis, AfterReadingSwap, AfterReadingCreate, IsChain, SameLaunch,
      WellFormedRevision;
    if At(w, pid).Reading? {
      SoloReading(w0, head, call);
    } else if At(w, pid).Checked? {
      SoloChecked(w0, head, call);
    } else {
      hide Step;
      SoloPublish(w0, r, head, call, w, pid);
    }
  }

  // ---------- the scenario ----------

  datatype Probe = Matching | Missing | Different | Unknowable

  datatype Takeover = Takeover(observation: B.Observation, operationId: string, workerId: string, eventId: string)

  datatype TakeoverError = ReconciliationRequired | ControlStale | HandoffConflict | ProtocolMismatch | OwnerActive
    | OwnerUnknown

  datatype Outcome = Done(takeover: Takeover) | Refused(error: TakeoverError) | Crashed

  /** What one attempt is given: how many steps it lives, a new event identity, the clock. */
  datatype Attempt = Attempt(pid: Pid, steps: nat, eventId: string, now: string)

  function ExpectedOwner(started: bool): Owner {
    if started then Owner.Worker else Owner.Parent
  }

  function ExpectedState(started: bool): State {
    if started then WorkerOwned else State.Launching
  }

  predicate BelongsTo(h: Handoff, w: B.Worker) {
    && h.identity.operationId == w.operationId && h.identity.workerId == w.workerId
    && h.identity.workerNonce == w.workerNonce && h.identity.graph == w.graph.hash
  }

  function TakeoverCall(h: Handoff, started: bool, now: string): Call {
    Swap(ExpectedOwner(started), ExpectedState(started), h.(state := State.Terminal, updatedAt := now),
         TransitionId(h.identity.operationId, TakeoverTerminal, h.identity.workerId))
  }

  function ReconciledEvent(log: seq<B.Event>, eventId: string, w: B.Worker, observation: B.Observation): B.Event {
    B.Event(eventId, |log| + 1, true, B.Reconciled(w.operationId, w.workerId, w.graph, observation))
  }

  function ObservationOf(started: bool): B.Observation {
    if started then B.OwnerDeadClean else B.NotStarted
  }

  predicate IsClean(o: B.Observation) {
    o == B.NotStarted || o == B.OwnerDeadClean
  }

  predicate IsLifecycle(e: B.Event, revision: nat, hash: string) {
    e.sessionScoped && !e.body.Other? && e.body.graph.revision == revision && e.body.graph.hash == hash
  }

  /** The worker events of one graph. */
  function Lifecycle(log: seq<B.Event>, revision: nat, hash: string): seq<B.Event> {
    if log == [] then []
    else
      Lifecycle(log[..|log| - 1], revision, hash)
      + if IsLifecycle(log[|log| - 1], revision, hash) then [log[|log| - 1]] else []
  }

  predicate IsCleanFor(e: B.Event, operationId: string, workerId: string) {
    && e.body.Reconciled? && e.body.operationId == operationId && e.body.workerId == workerId
    && IsClean(e.body.observation)
  }

  /** How many clean reconciliations of a worker there are. */
  function CountClean(events: seq<B.Event>, operationId: string, workerId: string): nat {
    if events == [] then 0
    else
      CountClean(events[..|events| - 1], operationId, workerId)
      + if IsCleanFor(events[|events| - 1], operationId, workerId) then 1 else 0
  }

  /** The last worker event of the graph is its worker's only clean reconciliation. */
  predicate IsResumable(log: seq<B.Event>, revision: nat, hash: string) {
    var events := Lifecycle(log, revision, hash);
    && events != []
    && var last := events[|events| - 1];
       && last.body.Reconciled? && IsClean(last.body.observation)
       && CountClean(events, last.body.operationId, last.body.workerId) == 1
  }

  /** Where the takeover starts: a live current worker, and the handoff that it left behind. */
  datatype Scene = Scene(log: seq<B.Event>, published: map<nat, Revision>, revision: nat, hash: string)

  ghost predicate HasCurrent(log: seq<B.Event>) {
    && B.Project(log).Ok? && B.Project(log).value.current.Some?
    && B.Project(log).value.current.value in B.Project(log).value.workers
  }

  ghost function CurrentOf(log: seq<B.Event>): B.Worker
    requires HasCurrent(log)
  {
    B.Project(log).value.workers[B.Project(log).value.current.value]
  }

  ghost predicate IsScene(s: Scene) {
    && HasCurrent(s.log) && B.IsLive(CurrentOf(s.log))
    && CurrentOf(s.log).graph.revision == s.revision && CurrentOf(s.log).graph.hash == s.hash
    && s.published != map[] && 0 in s.published && |s.published| - 1 in s.published
    && var w, head := CurrentOf(s.log), s.published[|s.published| - 1];
       && BelongsTo(head.handoff, w)
       && head.handoff.owner == ExpectedOwner(w.startedEventId.Some?)
       && head.handoff.state == ExpectedState(w.startedEventId.Some?)
       && CanSwap(s.published, head, TakeoverCall(head.handoff, w.startedEventId.Some?, ""))
  }

  /** How far the takeover has come. */
  datatype Phase = Untouched | Appended(eventId: string) | Finished(eventId: string, now: string)

  ghost function HeadOf(s: Scene): Revision
    requires IsScene(s)
  {
    s.published[|s.published| - 1]
  }

  ghost function WasStarted(s: Scene): bool
    requires IsScene(s)
  {
    CurrentOf(s.log).startedEventId.Some?
  }

  ghost function CallAt(s: Scene, now: string): Call
    requires IsScene(s)
  {
    TakeoverCall(HeadOf(s).handoff, WasStarted(s), now)
  }

  /** The terminal revision that an attempt at this time publishes. */
  ghost function TerminalAt(s: Scene, now: string): Revision
    requires IsScene(s)
  {
    SwapRevision(s.published, HeadOf(s), CallAt(s, now))
  }

  ghost function Closed(s: Scene, now: string): map<nat, Revision>
    requires IsScene(s)
  {
    s.published[TerminalAt(s, now).number := TerminalAt(s, now)]
  }

  ghost function LogWith(s: Scene, eventId: string): seq<B.Event>
    requires IsScene(s)
  {
    s.log + [ReconciledEvent(s.log, eventId, CurrentOf(s.log), ObservationOf(WasStarted(s)))]
  }

  ghost predicate InPhase(s: Scene, phase: Phase, log: seq<B.Event>, published: map<nat, Revision>)
    requires IsScene(s)
  {
    match phase
    case Untouched => log == s.log && published == s.published
    case Appended(id) => log == LogWith(s, id) && published == s.published
    case Finished(id, now) => log == LogWith(s, id) && published == Closed(s, now)
  }

  /** A phase and its successors; the event of the first append stays. */
  predicate Reaches(p: Phase, q: Phase) {
    || p == q || p.Untouched?
    || (p.Appended? && q.Finished? && p.eventId == q.eventId)
  }

  ghost function ResultOf(s: Scene, eventId: string): Takeover
    requires IsScene(s)
  {
    Takeover(ObservationOf(WasStarted(s)), CurrentOf(s.log).operationId, CurrentOf(s.log).workerId, eventId)
  }

  // ---------- what the log says in each phase ----------

  lemma SceneFacts(s: Scene)
    requires IsScene(s)
    ensures
      var w := CurrentOf(s.log);
      && B.Project(s.log).value.current == Some(w.operationId)
      && (w.status == B.Running <==> WasStarted(s)) && (w.status == B.Launching <==> !WasStarted(s))
      && forall i :: 0 <= i < |s.log| && s.log[i].sessionScoped && s.log[i].body.Reconciled? ==>
           s.log[i].body.operationId != w.operationId
  {
    hide CanSwap;
    var w := CurrentOf(s.log);
    B.NamesAreKeys(s.log);
    B.RunningHasStarted(s.log);
    forall i | 0 <= i < |s.log| && s.log[i].sessionScoped && s.log[i].body.Reconciled?
      ensures s.log[i].body.operationId != w.operationId
    {
      B.ReconciledIsNotLive(s.log, i);
    }
  }

  /** After the append the worker is terminal and no longer current. */
  lemma AfterAppend(s: Scene, eventId: string)
    requires IsScene(s)
    ensures
      var w, log := CurrentOf(s.log), LogWith(s, eventId);
      var p := B.Project(log);
      && p.Ok? && p.value.current == None && w.operationId in p.value.workers
      && p.value.workers[w.operationId] == w.(status := B.Terminal)
  {
    hide CanSwap;
    SceneFacts(s);
    B.NamesAreKeys(s.log);
    var log := LogWith(s, eventId);
    assert log[..|log| - 1] == s.log;
  }

  lemma {:induction false} NoneClean(log: seq<B.Event>, revision: nat, hash: string, operationId: string,
                                     workerId: string)
    requires forall i :: 0 <= i < |log| && log[i].sessionScoped && log[i].body.Reconciled? ==>
      log[i].body.operationId != operationId
    ensures CountClean(Lifecycle(log, revision, hash), operationId, workerId) == 0
  {
    if log != [] {
      var front := log[..|log| - 1];
      NoneClean(front, revision, hash, operationId, workerId);
      CountOne(Lifecycle(front, revision, hash), log[|log| - 1], operationId, workerId);
      assert Lifecycle(front, revision, hash) + [] == Lifecycle(front, revision, hash);
    }
  }

  lemma CountOne(events: seq<B.Event>, e: B.Event, operationId: string, workerId: string)
    ensures CountClean(events + [e], operationId, workerId)
         == CountClean(events, operationId, workerId) + if IsCleanFor(e, operationId, workerId) then 1 else 0
  {
  }

  /** After the append there is exactly one clean reconciliation, and it is the last event. */
  lemma ExactlyOne(s: Scene, eventId: string)
    requires IsScene(s)
    ensures
      var w, log := CurrentOf(s.log), LogWith(s, eventId);
      var events := Lifecycle(log, s.revision, s.hash);
      && events != [] && events[|events| - 1] == log[|log| - 1]
         == ReconciledEvent(s.log, eventId, w, ObservationOf(WasStarted(s)))
      && CountClean(events, w.operationId, w.workerId) == 1
  {
    hide CanSwap, B.Project, B.Fold, BelongsTo, Lifecycle, CountClean;
    SceneFacts(s);
    var w, log := CurrentOf(s.log), LogWith(s, eventId);
    var e := log[|log| - 1];
    LifecycleOne(s.log, e, s.revision, s.hash);
    NoneClean(s.log, s.revision, s.hash, w.operationId, w.workerId);
    CountOne(Lifecycle(s.log, s.revision, s.hash), e, w.operationId, w.workerId);
  }

  lemma LifecycleOne(log: seq<B.Event>, e: B.Event, revision: nat, hash: string)
    requires IsLifecycle(e, revision, hash)
    ensures Lifecycle(log + [e], revision, hash) == Lifecycle(log, revision, hash) + [e]
  {
    assert (log + [e])[..|log|] == log;
  }

  /** The handoff in each phase is the one left behind, or its terminal successor. */
  lemma HandoffInPhase(s: Scene, phase: Phase, published: map<nat, Revision>, log: seq<B.Event>)
    requires IsScene(s) && InPhase(s, phase, log, published)
    ensures 0 in s.published
    ensures !phase.Finished? ==> ReadAuthority(published) == Some(Some(HeadOf(s)))
    ensures phase.Finished? ==>
      var read := ReadAuthority(published);
      read.Some? && read.value.Some? && read.value.value.handoff == CallAt(s, phase.now).next
    ensures forall now :: CanSwap(s.published, HeadOf(s), CallAt(s, now))
  {
    forall now ensures CanSwap(s.published, HeadOf(s), CallAt(s, now)) { StillCanSwap(s, now); }
    hide CanSwap;
    StillCanSwap(s, "");
    ExtendedIsReadable(s.published, HeadOf(s), CallAt(s, ""));
    SceneReads(s);
    if phase.Finished? {
      ExtendedIsReadable(s.published, HeadOf(s), CallAt(s, phase.now));
    }
  }

  lemma StillCanSwap(s: Scene, now: string)
    requires IsScene(s)
    ensures CanSwap(s.published, HeadOf(s), CallAt(s, now))
  {
  }

  lemma SceneReads(s: Scene)
    requires IsScene(s)
    ensures ReadAuthority(s.published) == Some(Some(HeadOf(s)))
  {
    hide IsChain, DistinctIds, SameLaunch;
  }

  // ---------- the reconciler ----------

  datatype SwapEnd = Swapped | SwapFailed(error: Error) | SwapCrashed

  lemma RankFalls(w: World, pid: Pid)
    requires IsRunning(At(w, pid)) && At(w, pid).call.Swap?
    ensures Rank(At(Step(w, pid), pid)) < Rank(At(w, pid))
    ensures IsRunning(At(Step(w, pid), pid)) ==> At(Step(w, pid), pid).call == At(w, pid).call
    ensures At(Step(w, pid), pid) != Idle
  {
    hide ReadAuthority, CreateRevision;
  }

  lemma RunningHasRank(l: Local)
    ensures IsRunning(l) <==> Rank(l) > 0
  {
  }

  lemma SoloBegin(w0: World, r: Revision, head: Revision, call: Call, pid: Pid)
    requires !IsRunning(At(w0, pid))
    ensures
      var w := Apply(w0, Begin(pid, call));
      At(w, pid) == Reading(call) && Stands(w0, r, head, call, w, Reading(call))
  {
  }

  /** The revision that a swap will publish, if it can. */
  ghost function Target(published: map<nat, Revision>, call: Call): Revision
    requires call.Swap? && 0 in published && |published| - 1 in published
  {
    SwapRevision(published, published[|published| - 1], call)
  }

  ghost predicate Swappable(published: map<nat, Revision>, call: Call) {
    call.Swap? && 0 in published && |published| - 1 in published && CanSwap(published, published[|published| - 1], call)
  }

  ghost predicate StandsFor(w0: World, call: Call, w: World, l: Local) {
    Swappable(w0.published, call) ==>
      Stands(w0, Target(w0.published, call), w0.published[|w0.published| - 1], call, w, l)
  }

  lemma StandsForStep(w0: World, call: Call, w: World, pid: Pid)
    requires StandsFor(w0, call, w, At(w, pid)) && IsRunning(At(w, pid))
    ensures StandsFor(w0, call, Step(w, pid), At(Step(w, pid), pid))
  {
    hide Step, Stands, CanSwap;
    if Swappable(w0.published, call) {
      SoloStep(w0, w, pid, w0.published[|w0.published| - 1], call);
    }
  }

  /** What a swap has done when it ends. */
  ghost predicate SwapEnds(w0: World, call: Call, w: World, end: SwapEnd) {
    Swappable(w0.published, call) ==>
      var r := Target(w0.published, call);
      && (w.published == w0.published || w.published == w0.published[r.number := r])
      && w.torn <= w0.torn + {r} && w0.candidates <= w.candidates
      && (end.Swapped? ==> w.published == w0.published[r.number := r] && !Blocked(w0, r))
      && (end.SwapFailed? ==> SameDirectory(w0, w) && end.error.Reconcile? && Blocked(w0, r))
  }

  function EndOf(l: Local): SwapEnd {
    if l.Failed? then SwapFailed(l.error) else Swapped
  }

  /** The error that a failed swap raises. */
  function ErrorOf(e: Error): TakeoverError {
    match e
    case Conflict => TakeoverError.HandoffConflict
    case Invalid => TakeoverError.ProtocolMismatch
    case _ => TakeoverError.ReconciliationRequired
  }

  lemma SwapEnded(w0: World, call: Call, w: World, pid: Pid)
    requires StandsFor(w0, call, w, At(w, pid))
    ensures SwapEnds(w0, call, Apply(w, Crash(pid)), SwapCrashed)
    ensures !IsRunning(At(w, pid)) && At(w, pid) != Idle ==> SwapEnds(w0, call, w, EndOf(At(w, pid)))
    ensures !IsRunning(At(w, pid)) && At(w, pid) != Idle && Swappable(w0.published, call) ==>
      (EndOf(At(w, pid)).Swapped? <==> !Blocked(w0, Target(w0.published, call)))
  {
    hide CanSwap;
  }

  /** Whether a worker record and a handoff say the same, for an owner that has started or not. */
  predicate Agrees(h: Handoff, w: B.Worker, started: bool) {
    BelongsTo(h, w) && h.owner == ExpectedOwner(started)
  }

  // ---------- who is refused ----------

  /** An event of the background workers of one graph. */
  predicate OfGraph(e: B.Event, revision: nat, hash: string) {
    e.sessionScoped && e.body != B.Other && e.body.graph.revision == revision && e.body.graph.hash == hash
  }

  predicate IsLastOf(log: seq<B.Event>, revision: nat, hash: string, i: int) {
    0 <= i < |log| && OfGraph(log[i], revision, hash) && forall j :: i < j < |log| ==> !OfGraph(log[j], revision, hash)
  }

  /** A reconciliation of a worker of this graph that found its owner dead. */
  predicate ClearsAt(log: seq<B.Event>, revision: nat, hash: string, operationId: string, workerId: string, i: int) {
    && 0 <= i < |log| && OfGraph(log[i], revision, hash)
    && log[i].body.Reconciled? && log[i].body.operationId == operationId && log[i].body.workerId == workerId
    && (log[i].body.observation == B.NotStarted || log[i].body.observation == B.OwnerDeadClean)
  }

  predicate SameWorker(h: Handoff, w: B.Worker) {
    && h.identity.operationId == w.operationId && h.identity.workerId == w.workerId
    && h.identity.workerNonce == w.workerNonce && h.identity.graph == w.graph.hash
  }

  /** The handoff that a worker leaves behind: the parent's before its start, its own afterwards. */
  predicate OwnerIsRight(h: Handoff, started: bool) {
    if started then h.owner == Owner.Worker else h.owner == Owner.Parent
  }

  predicate StateIsPending(h: Handoff, started: bool) {
    if started then h.state == State.WorkerOwned else h.state == State.Launching
  }

  predicate ProbeRefuses(probe: Probe, e: TakeoverError) {
    (probe.Matching? && e.OwnerActive?) || (probe.Unknowable? && e.OwnerUnknown?)
  }

  /** Why the takeover of a live worker is refused. */
  ghost predicate FreshRefused(published: map<nat, Revision>, w: B.Worker, revision: nat, hash: string, probe: Probe,
                               e: TakeoverError)
  {
    if !(w.status == B.Launching || w.status == B.Running) || w.graph.revision != revision || w.graph.hash != hash then
      e.ControlStale?
    else
      var read := ReadAuthority(published);
      if read.None? then e.ReconciliationRequired?
      else if read.value.None? then e.HandoffConflict?
      else
        var h := read.value.value.handoff;
        if !SameWorker(h, w) || !OwnerIsRight(h, w.status == B.Running) || !StateIsPending(h, w.status == B.Running)
        then e.HandoffConflict?
        else ProbeRefuses(probe, e)
  }

  /** Entry `i` is the only clean reconciliation of its worker, and the worker is terminal. */
  ghost predicate LogAllows(log: seq<B.Event>, workers: map<string, B.Worker>, revision: nat, hash: string, i: int) {
    && IsLastOf(log, revision, hash, i)
    && var b := log[i].body;
       && b.Reconciled? && ClearsAt(log, revision, hash, b.operationId, b.workerId, i)
       && (forall j :: j != i ==> !ClearsAt(log, revision, hash, b.operationId, b.workerId, j))
       && b.operationId in workers && workers[b.operationId].workerId == b.workerId
       && workers[b.operationId].status == B.Terminal && workers[b.operationId].graph == b.graph
  }

  /** A result that reports a reconciliation of the log. */
  predicate IsResultOf(log: seq<B.Event>, i: int, t: Takeover) {
    && 0 <= i < |log| && log[i].body.Reconciled? && t.eventId == log[i].eventId
    && t.observation == log[i].body.observation && t.operationId == log[i].body.operationId
    && t.workerId == log[i].body.workerId
  }

  /** Why the log refuses to resume at its last entry for the graph. */
  ghost predicate LogRefuses(log: seq<B.Event>, workers: map<string, B.Worker>, revision: nat, hash: string, i: int,
                             e: TakeoverError)
  {
    && IsLastOf(log, revision, hash, i) && !LogAllows(log, workers, revision, hash, i)
    && var b := log[i].body;
       if !b.Reconciled? then e.ControlStale?
       else if !ClearsAt(log, revision, hash, b.operationId, b.workerId, i) then e.ReconciliationRequired?
       else if exists j :: j != i && ClearsAt(log, revision, hash, b.operationId, b.workerId, j) then e.HandoffConflict?
       else e.ProtocolMismatch?
  }

  /** Why the handoff of a reconciled worker refuses to be closed. */
  ghost predicate ChainRefuses(published: map<nat, Revision>, w: B.Worker, probe: Probe, e: TakeoverError) {
    var read := ReadAuthority(published);
    if read.None? then e.ReconciliationRequired?
    else if read.value.None? then e.HandoffConflict?
    else
      var h := read.value.value.handoff;
      if !SameWorker(h, w) || !OwnerIsRight(h, w.startedEventId.Some?) then e.HandoffConflict?
      else if StateIsPending(h, w.startedEventId.Some?) then ProbeRefuses(probe, e)
      else !h.state.Terminal? && e.HandoffConflict?
  }

  /** Why the takeover of a worker that was reconciled at entry `i` is refused. */
  ghost predicate ResumeRefused(log: seq<B.Event>, workers: map<string, B.Worker>, published: map<nat, Revision>,
                                revision: nat, hash: string, probe: Probe, i: int, e: TakeoverError)
  {
    || LogRefuses(log, workers, revision, hash, i, e)
    || (&& LogAllows(log, workers, revision, hash, i)
        && ChainRefuses(published, workers[log[i].body.operationId], probe, e))
  }

  /** Why an attempt is refused before it changes anything. */
  ghost predicate IsRefused(log: seq<B.Event>, published: map<nat, Revision>, revision: nat, hash: string,
                            allowed: bool, probe: Probe, e: TakeoverError)
  {
    var p := B.Project(log);
    if p.Err? || !allowed then e.ReconciliationRequired?
    else if p.value.current.Some? then
      p.value.current.value in p.value.workers
      && FreshRefused(published, p.value.workers[p.value.current.value], revision, hash, probe, e)
    else if forall i :: 0 <= i < |log| ==> !OfGraph(log[i], revision, hash) then e.ControlStale?
    else
      exists i :: ResumeRefused(log, p.value.workers, published, revision, hash, probe, i, e)
  }

  /** The events end in the last one of the graph that the log has. */
  ghost predicate EndsRight(log: seq<B.Event>, events: seq<B.Event>, revision: nat, hash: string) {
    if events == [] then forall i :: 0 <= i < |log| ==> !OfGraph(log[i], revision, hash)
    else exists i :: IsLastOf(log, revision, hash, i) && log[i] == events[|events| - 1]
  }

  /** The worker events of a graph, found one by one. */
  lemma {:induction false} LifecycleEnds(log: seq<B.Event>, revision: nat, hash: string)
    ensures EndsRight(log, Lifecycle(log, revision, hash), revision, hash)
  {
    if log != [] {
      var front, last := log[..|log| - 1], log[|log| - 1];
      LifecycleEnds(front, revision, hash);
      var before := Lifecycle(front, revision, hash);
      assert Lifecycle(log, revision, hash) == before + if OfGraph(last, revision, hash) then [last] else [];
      hide Lifecycle, EndsRight;
      if OfGraph(last, revision, hash) {
        EndsHere(log, before, revision, hash);
      } else {
        assert before + [] == before;
        StillLast(log, before, revision, hash);
      }
    }
  }

  lemma EndsHere(log: seq<B.Event>, before: seq<B.Event>, revision: nat, hash: string)
    requires log != [] && OfGraph(log[|log| - 1], revision, hash)
    ensures EndsRight(log, before + [log[|log| - 1]], revision, hash)
  {
    hide OfGraph;
    assert IsLastOf(log, revision, hash, |log| - 1);
  }

  lemma StillLast(log: seq<B.Event>, events: seq<B.Event>, revision: nat, hash: string)
    requires log != [] && !OfGraph(log[|log| - 1], revision, hash)
    requires EndsRight(log[..|log| - 1], events, revision, hash)
    ensures EndsRight(log, events, revision, hash)
  {
    hide OfGraph;
    var front := log[..|log| - 1];
    assert forall j :: 0 <= j < |front| ==> front[j] == log[j];
    if events != [] {
      var i :| IsLastOf(front, revision, hash, i) && front[i] == events[|events| - 1];
      assert IsLastOf(log, revision, hash, i);
    }
  }

  ghost predicate OneClears(log: seq<B.Event>, revision: nat, hash: string, operationId: string, workerId: string) {
    exists i :: ClearsAt(log, revision, hash, operationId, workerId, i)
  }

  ghost predicate TwoClear(log: seq<B.Event>, revision: nat, hash: string, operationId: string, workerId: string) {
    exists i, j :: i < j && ClearsAt(log, revision, hash, operationId, workerId, i)
                   && ClearsAt(log, revision, hash, operationId, workerId, j)
  }

  /** The count of clean reconciliations says whether there are none, one or more in the log. */
  lemma {:induction false} CountIsRight(log: seq<B.Event>, revision: nat, hash: string, operationId: string,
                                        workerId: string)
    ensures
      var n := CountClean(Lifecycle(log, revision, hash), operationId, workerId);
      && (n >= 1 <==> OneClears(log, revision, hash, operationId, workerId))
      && (n >= 2 <==> TwoClear(log, revision, hash, operationId, workerId))
  {
    if log != [] {
      var front, last := log[..|log| - 1], log[|log| - 1];
      CountIsRight(front, revision, hash, operationId, workerId);
      var events := Lifecycle(front, revision, hash);
      CountOne(events, last, operationId, workerId);
      assert events + [] == events;
      assert IsLifecycle(last, revision, hash) <==> OfGraph(last, revision, hash);
      assert CountClean(Lifecycle(log, revision, hash), operationId, workerId)
          == CountClean(events, operationId, workerId)
             + if ClearsAt(log, revision, hash, operationId, workerId, |log| - 1) then 1 else 0;
      hide CountClean, Lifecycle, ClearsAt, TwoClear, OneClears;
      ClearsMore(log, revision, hash, operationId, workerId);
    }
  }

  lemma ClearsMore(log: seq<B.Event>, revision: nat, hash: string, operationId: string, workerId: string)
    requires log != []
    ensures
      var front, here := log[..|log| - 1], ClearsAt(log, revision, hash, operationId, workerId, |log| - 1);
      && (forall i :: i != |log| - 1 ==> (ClearsAt(log, revision, hash, operationId, workerId, i)
                                          <==> ClearsAt(front, revision, hash, operationId, workerId, i)))
      && (OneClears(log, revision, hash, operationId, workerId) <==>
           here || OneClears(front, revision, hash, operationId, workerId))
      && (TwoClear(log, revision, hash, operationId, workerId) <==>
           || TwoClear(front, revision, hash, operationId, workerId)
           || (here && OneClears(front, revision, hash, operationId, workerId)))
  {
    var front := log[..|log| - 1];
    assert forall i :: 0 <= i < |front| ==> front[i] == log[i];
    if ClearsAt(log, revision, hash, operationId, workerId, |log| - 1) {
      forall i | ClearsAt(front, revision, hash, operationId, workerId, i)
        ensures TwoClear(log, revision, hash, operationId, workerId)
      {
        assert ClearsAt(log, revision, hash, operationId, workerId, i);
      }
    }
    if TwoClear(front, revision, hash, operationId, workerId) {
      var i, j :| i < j && ClearsAt(front, revision, hash, operationId, workerId, i)
                  && ClearsAt(front, revision, hash, operationId, workerId, j);
      assert ClearsAt(log, revision, hash, operationId, workerId, i)
        && ClearsAt(log, revision, hash, operationId, workerId, j);
    }
  }

  /** What the reconciler looks up is what the refusals speak of. */
  lemma ResumeLooksUp(log: seq<B.Event>, revision: nat, hash: string)
    requires Lifecycle(log, revision, hash) != []
    ensures
      var last := Lifecycle(log, revision, hash)[|Lifecycle(log, revision, hash)| - 1];
      forall i :: IsLastOf(log, revision, hash, i) ==>
        && log[i] == last
        && (last.body.Reconciled? && IsClean(last.body.observation) ==>
             (CountClean(Lifecycle(log, revision, hash), last.body.operationId, last.body.workerId) == 1 <==>
              forall j :: j != i ==> !ClearsAt(log, revision, hash, last.body.operationId, last.body.workerId, j)))
  {
    hide CountClean, Lifecycle;
    LifecycleEnds(log, revision, hash);
    var last := Lifecycle(log, revision, hash)[|Lifecycle(log, revision, hash)| - 1];
    if last.body.Reconciled? && IsClean(last.body.observation) {
      CountIsRight(log, revision, hash, last.body.operationId, last.body.workerId);
      forall i | IsLastOf(log, revision, hash, i)
        ensures CountClean(Lifecycle(log, revision, hash), last.body.operationId, last.body.workerId) == 1 <==>
          forall j :: j != i ==> !ClearsAt(log, revision, hash, last.body.operationId, last.body.workerId, j)
      {
        OthersClear(log, revision, hash, last.body.operationId, last.body.workerId, i);
      }
    }
  }

  lemma OthersClear(log: seq<B.Event>, revision: nat, hash: string, operationId: string, workerId: string, i: int)
    requires ClearsAt(log, revision, hash, operationId, workerId, i)
    ensures TwoClear(log, revision, hash, operationId, workerId) <==>
      exists j :: j != i && ClearsAt(log, revision, hash, operationId, workerId, j)
  {
    hide ClearsAt;
    forall j | j != i && ClearsAt(log, revision, hash, operationId, workerId, j)
      ensures TwoClear(log, revision, hash, operationId, workerId)
    {
      assert i < j || j < i;
    }
  }

  class Reconciler {
    /** The session log and the operation directory survive every crash. */
    var log: seq<B.Event>
    var world: World

    constructor (log: seq<B.Event>, world: World)
      ensures this.log == log && this.world == world
    {
      this.log := log;
      this.world := world;
    }

    /** Makes a swap step by step, at most as many steps as the process lives. */
    method RunSwap(pid: Pid, call: Call, steps: nat) returns (end: SwapEnd)
      requires call.Swap? && !IsRunning(At(world, pid))
      modifies this`world
      ensures !IsRunning(At(world, pid))
      ensures SwapEnds(old(world), call, world, end)
      ensures steps >= 6 ==> !end.SwapCrashed?
      // A swap that can succeed and lives long enough does so exactly when no unfinished candidate is in its way.
      ensures steps >= 6 && Swappable(old(world).published, call) ==>
        (end.Swapped? <==> !Blocked(old(world), Target(old(world).published, call)))
    {
      hide Step, Apply, Stands, SwapEnds, Rank;
      ghost var w0 := world;
      if Swappable(w0.published, call) {
        SoloBegin(w0, Target(w0.published, call), w0.published[|w0.published| - 1], call, pid);
      }
      BeginReads(w0, pid, call);
      world := Apply(world, Begin(pid, call));
      var left := steps;
      while IsRunning(At(world, pid))
        invariant StandsFor(w0, call, world, At(world, pid)) && At(world, pid) != Idle
        invariant IsRunning(At(world, pid)) ==> At(world, pid).call == call
        invariant steps >= 6 ==> left >= Rank(At(world, pid))
        decreases Rank(At(world, pid))
      {
        RunningHasRank(At(world, pid));
        if left == 0 {
          SwapEnded(w0, call, world, pid);
          CrashIdles(world, pid);
          world := Apply(world, Crash(pid));
          return SwapCrashed;
        }
        RankFalls(world, pid);
        StandsForStep(w0, call, world, pid);
        AdvanceSteps(world, pid);
        world := Apply(world, Advance(pid));
        left := left - 1;
      }
      SwapEnded(w0, call, world, pid);
      return EndOf(At(world, pid));
    }

    /** Swaps a handoff to terminal, and reports the takeover when that succeeds. */
    method CloseHandoff(a: Attempt, h: Handoff, started: bool, steps: nat, takeover: Takeover, ghost s: Scene,
                        ghost phase: Phase)
      returns (r: Outcome, ghost phase': Phase)
      requires !IsRunning(At(world, a.pid))
      modifies this`world
      ensures !IsRunning(At(world, a.pid)) && (r.Done? ==> r.takeover == takeover)
      ensures TakeoverCall(h, started, a.now) == CallIn(s, a.now) ==>
        Closes(s, phase, phase', a, log, old(world), world, steps, r)
    {
      hide CanSwap, InPhase, SwapEnds;
      phase' := phase;
      var end := RunSwap(a.pid, TakeoverCall(h, started, a.now), steps);
      if phase.Appended? && world.published != old(world).published { phase' := Finished(phase.eventId, a.now); }
      SwapFinishes(s, phase, a, log, old(world), world, end);
      r := match end
        case SwapCrashed => Crashed
        case SwapFailed(error) => Refused(ErrorOf(error))
        case Swapped => Done(takeover);
    }

    /** Closes a live worker: first the event, then the handoff. */
    method CloseFresh(a: Attempt, revision: nat, hash: string, probe: Probe, w: B.Worker, ghost s: Scene,
                      ghost phase: Phase)
      returns (r: Outcome, ghost phase': Phase)
      requires !IsRunning(At(world, a.pid))
      modifies this
      ensures !IsRunning(At(world, a.pid))
      ensures probe != Missing && probe != Different ==> log == old(log) && world == old(world)
      // The handoff is touched only after the one event for a live worker of exactly this graph.
      ensures log == old(log) ==> world == old(world) && !r.Done?
      ensures log != old(log) ==>
        && B.IsLive(w) && w.graph.revision == revision && w.graph.hash == hash
        && log == old(log) + [ReconciledEvent(old(log), a.eventId, w, ObservationOf(w.status == B.Running))]
      ensures r.Done? ==>
        r.takeover == Takeover(ObservationOf(w.status == B.Running), w.operationId, w.workerId, a.eventId)
      ensures forall e :: FreshRefused(old(world.published), w, revision, hash, probe, e) ==>
        r == Refused(e) && log == old(log) && world == old(world)
      ensures AtWork(s, revision, hash, phase, old(log), old(world)) && phase.Untouched? && w == CurrentOf(s.log) ==>
        Progressed(s, phase, phase', a, probe, log, old(world), world, r)
    {
      hide Lifecycle, CanSwap, B.Project, InPhase, ReadAuthority;
      phase' := phase;
      if !B.IsLive(w) || w.graph.revision != revision || w.graph.hash != hash {
        r := Refused(TakeoverError.ControlStale);
        FreshAgrees(s, revision, hash, phase, log, world, w);
        return;
      }
      var authority := ReadAuthority(world.published);
      var started := w.status == B.Running;
      FreshAgrees(s, revision, hash, phase, log, world, w);
      if authority.None? { r := Refused(TakeoverError.ReconciliationRequired); return; }
      if authority.value.None? { r := Refused(TakeoverError.HandoffConflict); return; }
      var h := authority.value.value.handoff;
      if !Agrees(h, w, started) || h.state != ExpectedState(started) {
        r := Refused(TakeoverError.HandoffConflict);
        return;
      }
      if probe == Matching { r := Refused(TakeoverError.OwnerActive); return; }
      if probe != Missing && probe != Different { r := Refused(TakeoverError.OwnerUnknown); return; }
      if a.steps == 0 { r := Crashed; return; }
      log := log + [ReconciledEvent(log, a.eventId, w, ObservationOf(started))];
      var takeover := Takeover(ObservationOf(started), w.operationId, w.workerId, a.eventId);
      r, phase' := CloseHandoff(a, h, started, a.steps - 1, takeover, s, Phase.Appended(a.eventId));
    }

    /** Finds the event of an earlier attempt, and its worker. */
    method FindReconciled(revision: nat, hash: string, session: B.Projection)
      returns (r: Result<(B.Event, B.Worker), TakeoverError>, ghost at: int)
      ensures (forall i :: 0 <= i < |log| ==> !OfGraph(log[i], revision, hash)) ==> r == Err(TakeoverError.ControlStale)
      ensures forall i, e :: LogRefuses(log, session.workers, revision, hash, i, e) ==> r == Err(e)
      ensures r.Ok? ==>
        && IsResumable(log, revision, hash)
        && r.value.0 == Lifecycle(log, revision, hash)[|Lifecycle(log, revision, hash)| - 1]
        && r.value.0.body.Reconciled? && r.value.0.body.operationId in session.workers
        && r.value.1 == session.workers[r.value.0.body.operationId]
        && LogAllows(log, session.workers, revision, hash, at) && 0 <= at < |log| && log[at] == r.value.0
      ensures forall i :: LogAllows(log, session.workers, revision, hash, i) ==> r.Ok? && i == at
      ensures
        var events := Lifecycle(log, revision, hash);
        (&& events != [] && events[|events| - 1].body.Reconciled? && IsClean(events[|events| - 1].body.observation)
         && var b := events[|events| - 1].body;
            && CountClean(events, b.operationId, b.workerId) == 1 && b.operationId in session.workers
            && session.workers[b.operationId].workerId == b.workerId
            && session.workers[b.operationId].status == B.Terminal
            && session.workers[b.operationId].graph == b.graph) ==> r.Ok?
    {
      hide Lifecycle, CountClean;
      at := -1;
      var events := Lifecycle(log, revision, hash);
      LifecycleEnds(log, revision, hash);
      if events != [] {
        ResumeLooksUp(log, revision, hash);
        at :| IsLastOf(log, revision, hash, at) && log[at] == events[|events| - 1];
      }
      if events == [] || !events[|events| - 1].body.Reconciled? { r := Err(TakeoverError.ControlStale); return; }
      var last := events[|events| - 1];
      var op, workerId := last.body.operationId, last.body.workerId;
      if !IsClean(last.body.observation) { r := Err(TakeoverError.ReconciliationRequired); return; }
      if CountClean(events, op, workerId) != 1 { r := Err(TakeoverError.HandoffConflict); return; }
      if op !in session.workers || session.workers[op].workerId != workerId || session.workers[op].status != B.Terminal
         || session.workers[op].graph != last.body.graph { r := Err(TakeoverError.ProtocolMismatch); return; }
      r := Ok((last, session.workers[op]));
    }

    /** Finds the event of an earlier attempt, and closes the handoff if that attempt did not. */
    method Resume(a: Attempt, revision: nat, hash: string, probe: Probe, session: B.Projection, ghost s: Scene,
                  ghost phase: Phase)
      returns (r: Outcome, ghost phase': Phase)
      requires !IsRunning(At(world, a.pid))
      modifies this
      ensures !IsRunning(At(world, a.pid)) && log == old(log)
      ensures probe != Missing && probe != Different ==> world == old(world)
      ensures (forall i :: 0 <= i < |log| ==> !OfGraph(log[i], revision, hash)) ==>
        r == Refused(TakeoverError.ControlStale) && world == old(world)
      ensures forall i, e :: ResumeRefused(log, session.workers, old(world.published), revision, hash, probe, i, e) ==>
        r == Refused(e) && world == old(world)
      ensures r.Done? ==>
        exists i :: LogAllows(log, session.workers, revision, hash, i) && IsResultOf(log, i, r.takeover)
      // Only the single clean reconciliation at the end of the graph's events is resumed.
      ensures r.Done? || world != old(world) ==> IsResumable(log, revision, hash)
      ensures r.Done? ==>
        var last := Lifecycle(log, revision, hash)[|Lifecycle(log, revision, hash)| - 1];
        r.takeover == Takeover(last.body.observation, last.body.operationId, last.body.workerId, last.eventId)
      ensures (&& AtWork(s, revision, hash, phase, log, old(world)) && !phase.Untouched?
               && B.Project(log) == Ok(session)) ==>
        Progressed(s, phase, phase', a, probe, log, old(world), world, r)
    {
      hide Lifecycle, CanSwap, B.Project, InPhase, ReadAuthority, CountClean, LogAllows, LogRefuses, IsLastOf, OfGraph,
        ClearsAt, IsResumable, Progressed, ChainRefuses;
      phase' := phase;
      ResumeAgrees(s, revision, hash, phase, log, world, session);
      var found;
      ghost var at;
      found, at := FindReconciled(revision, hash, session);
      if found.Err? { r := Refused(found.error); return; }
      var (last, w) := found.value;
      r, phase' := CloseLeft(a, last, w, probe, s, phase);
      assert r.Done? ==> IsResultOf(log, at, r.takeover);
    }

    /** Closes the handoff of a reconciled worker, if nobody has closed it. */
    method CloseLeft(a: Attempt, last: B.Event, w: B.Worker, probe: Probe, ghost s: Scene, ghost phase: Phase)
      returns (r: Outcome, ghost phase': Phase)
      requires !IsRunning(At(world, a.pid)) && last.body.Reconciled?
      modifies this`world
      ensures !IsRunning(At(world, a.pid))
      ensures probe != Missing && probe != Different ==> world == old(world)
      ensures forall e :: ChainRefuses(old(world.published), w, probe, e) ==> r == Refused(e) && world == old(world)
      ensures r.Done? ==>
        r.takeover == Takeover(last.body.observation, last.body.operationId, last.body.workerId, last.eventId)
      ensures FindsScene(s, phase, last, w, log, old(world)) ==>
        Progressed(s, phase, phase', a, probe, log, old(world), world, r)
    {
      hide CanSwap, B.Project, InPhase, ReadAuthority;
      phase' := phase;
      var op, workerId := last.body.operationId, last.body.workerId;
      var authority := ReadAuthority(world.published);
      if authority.None? { r := Refused(TakeoverError.ReconciliationRequired); return; }
      var started := w.startedEventId.Some?;
      if authority.value.None? || !Agrees(authority.value.value.handoff, w, started) {
        r := Refused(TakeoverError.HandoffConflict);
        return;
      }
      var h := authority.value.value.handoff;
      var takeover := Takeover(last.body.observation, op, workerId, last.eventId);
      if h.state == ExpectedState(started) {
        if probe == Matching { r := Refused(TakeoverError.OwnerActive); return; }
        if probe != Missing && probe != Different { r := Refused(TakeoverError.OwnerUnknown); return; }
        r, phase' := CloseHandoff(a, h, started, a.steps, takeover, s, phase);
      } else if h.state != State.Terminal {
        r := Refused(TakeoverError.HandoffConflict);
      } else {
        r := Done(takeover);
      }
    }

    /**
     One attempt. `allowed` says that the graph is queued for the background with no attempt and no
     pending effect. The ghost parameters follow a scene through its phases.
     */
    method Reconcile(a: Attempt, revision: nat, hash: string, allowed: bool, probe: Probe, ghost s: Scene,
                     ghost phase: Phase)
      returns (r: Outcome, ghost phase': Phase)
      requires !IsRunning(At(world, a.pid))
      modifies this
      ensures !IsRunning(At(world, a.pid))
      // A live owner, an unknown one, or a graph that has started is left alone.
      ensures !allowed || (probe != Missing && probe != Different) ==> log == old(log) && world == old(world)
      ensures !allowed ==> r.Refused?
      ensures forall e :: IsRefused(old(log), old(world.published), revision, hash, allowed, probe, e) ==>
        r == Refused(e) && log == old(log) && world == old(world)
      ensures log != old(log) ==>
        && HasCurrent(old(log)) && B.IsLive(CurrentOf(old(log)))
        && CurrentOf(old(log)).graph.revision == revision && CurrentOf(old(log)).graph.hash == hash
        && log == old(log) + [ReconciledEvent(old(log), a.eventId, CurrentOf(old(log)),
                                              ObservationOf(CurrentOf(old(log)).status == B.Running))]
      // The event says whether the log has a start of the worker, and so does the result.
      ensures log != old(log) ==>
        && log[|log| - 1].sessionSeq == |log|
        && log[|log| - 1].body.observation
        == if B.HasStart(old(log), CurrentOf(old(log)).operationId) then B.OwnerDeadClean else B.NotStarted
      ensures r.Done? && AtWork(s, revision, hash, phase, old(log), old(world)) ==>
        r.takeover.observation == if B.HasStart(s.log, r.takeover.operationId) then B.OwnerDeadClean else B.NotStarted
      ensures log == old(log) && (r.Done? || world != old(world)) ==> IsResumable(log, revision, hash)
      ensures allowed && AtWork(s, revision, hash, phase, old(log), old(world)) ==>
        Progressed(s, phase, phase', a, probe, log, old(world), world, r)
    {
      hide CanSwap, B.Project, InPhase, Progressed, FreshRefused, ResumeRefused, OfGraph, IsResumable, B.HasStart,
        LogAllows;
      phase' := phase;
      var session := B.ProjectLog(log);
      CurrentInPhase(s, revision, hash, phase, log, world);
      if session.Err? || !allowed {
        r := Refused(TakeoverError.ReconciliationRequired);
        return;
      }
      B.NamesAreKeys(log);
      if HasCurrent(log) { ObservationOfStart(log); }
      if session.value.current == None {
        r, phase' := Resume(a, revision, hash, probe, session.value, s, phase);
      } else {
        r, phase' := CloseFresh(a, revision, hash, probe, session.value.workers[session.value.current.value], s, phase);
      }
      ResultObserves(s, revision, hash, phase, phase', a, probe, old(log), log, old(world), world, r);
    }

    /**
     Runs the reconciler again until an attempt returns. However the attempts crash: there is never more
     than one clean reconciliation of the worker; once an attempt returns there is exactly one, the
     handoff is terminal, and the result is that of the first append. The last attempt made began in the
     phase `met` and the world `before`; if it lives long enough, these decide whether it returns. It
     does when no earlier attempt had the same time.
     */
    method Recover(pid: Pid, attempts: seq<Attempt>, revision: nat, hash: string, probe: Probe, ghost s: Scene)
      returns (r: Outcome, ghost phase: Phase, made: nat, ghost met: Phase, ghost before: World)
      requires !IsRunning(At(world, pid)) && forall i :: 0 <= i < |attempts| ==> attempts[i].pid == pid
      modifies this
      ensures made <= |attempts| && (made < |attempts| ==> r.Done?)
      ensures AtWork(s, revision, hash, Untouched, old(log), old(world)) ==>
        && InPhase(s, phase, log, world.published)
        && CleanCount(s, log) == (if phase.Untouched? then 0 else 1)
        && (r.Done? ==>
           phase.Finished? && IsClosed(s, log, world.published) && r.takeover == ResultOf(s, phase.eventId))
        && (made > 0 ==> ReturnsExactly(s, met, attempts[made - 1], probe, before, r))
        && (CanReturn(s, attempts, old(world)) && IsDead(probe) ==> r.Done?)
    {
      hide CanSwap, B.Project, InPhase, Progressed, IsScene, LeftBy, CanReturn, ReturnsExactly, IsClosed, CleanCount,
        ResultOf, IsRefused, B.HasStart;
      phase, made, met, before := Untouched, 0, Untouched, world;
      r := Crashed;
      if AtWork(s, revision, hash, Untouched, log, world) { NothingLeft(s, attempts, world); }
      while made < |attempts| && !r.Done?
        invariant made <= |attempts| && !IsRunning(At(world, pid))
        invariant AtWork(s, revision, hash, Untouched, old(log), old(world)) ==>
          && AtWork(s, revision, hash, phase, log, world) && LeftBy(attempts[..made], old(world), world)
          && (r.Done? ==> phase.Finished? && r.takeover == ResultOf(s, phase.eventId))
          && (made > 0 ==> ReturnsExactly(s, met, attempts[made - 1], probe, before, r))
          && (made == |attempts| && CanReturn(s, attempts, old(world)) && IsDead(probe) ==> r.Done?)
        decreases |attempts| - made
      {
        met, before := phase, world;
        r, phase := Reconcile(attempts[made], revision, hash, true, probe, s, phase);
        if AtWork(s, revision, hash, Untouched, old(log), old(world)) {
          Attempted(s, met, phase, attempts, made, probe, log, old(world), before, world, r);
        }
        made := made + 1;
      }
      if AtWork(s, revision, hash, Untouched, old(log), old(world)) { PhaseCounts(s, phase, log, world.published); }
    }
  }

  /** A live worker is running exactly when the log has a start of it. */
  lemma ObservationOfStart(log: seq<B.Event>)
    requires HasCurrent(log)
    ensures B.IsLive(CurrentOf(log)) ==>
      && (CurrentOf(log).status == B.Running <==> B.HasStart(log, CurrentOf(log).operationId))
      && (CurrentOf(log).startedEventId.Some? <==> B.HasStart(log, CurrentOf(log).operationId))
      && ObservationOf(CurrentOf(log).status == B.Running)
         == if B.HasStart(log, CurrentOf(log).operationId) then B.OwnerDeadClean else B.NotStarted
  {
    B.NamesAreKeys(log);
    B.RunningHasStarted(log);
    B.RecordsAreOfEvents(log);
    hide B.Project, B.HasStart;
  }

  lemma ResultObserves(s: Scene, revision: nat, hash: string, phase: Phase, phase': Phase, a: Attempt, probe: Probe,
                       before: seq<B.Event>, log: seq<B.Event>, first: World, after: World, r: Outcome)
    ensures
      (&& AtWork(s, revision, hash, phase, before, first)
       && Progressed(s, phase, phase', a, probe, log, first, after, r) && r.Done?) ==>
        r.takeover.observation == if B.HasStart(s.log, r.takeover.operationId) then B.OwnerDeadClean else B.NotStarted
  {
    hide CanSwap, B.Project, B.HasStart, InPhase;
    if AtWork(s, revision, hash, phase, before, first) { ObservationOfStart(s.log); }
  }

  /** How often the log reconciles the worker of a scene cleanly. */
  ghost function CleanCount(s: Scene, log: seq<B.Event>): nat {
    if HasCurrent(s.log) then
      CountClean(Lifecycle(log, s.revision, s.hash), CurrentOf(s.log).operationId, CurrentOf(s.log).workerId)
    else 0
  }

  /** The chain has one revision more: the handoff that was left, now terminal. */
  ghost predicate IsClosed(s: Scene, log: seq<B.Event>, published: map<nat, Revision>) {
    && HasCurrent(s.log) && s.log < log && |log| == |s.log| + 1
    && ReadAuthority(published).Some? && ReadAuthority(published).value.Some?
    && var head := ReadAuthority(published).value.value;
       && |s.published| - 1 in s.published && BelongsTo(head.handoff, CurrentOf(s.log))
       && head.handoff == s.published[|s.published| - 1].handoff.(state := State.Terminal,
                                                                  updatedAt := head.handoff.updatedAt)
       && head.transitionId
          == TransitionId(CurrentOf(s.log).operationId, TakeoverTerminal, CurrentOf(s.log).workerId)
       && head.number == |s.published| && Extends(s.published, published) && |published| == |s.published| + 1
  }

  lemma PhaseCounts(s: Scene, phase: Phase, log: seq<B.Event>, published: map<nat, Revision>)
    requires IsScene(s) && InPhase(s, phase, log, published)
    ensures CleanCount(s, log) == if phase.Untouched? then 0 else 1
    ensures phase.Finished? ==> IsClosed(s, log, published)
  {
    hide CanSwap, B.Project, ReadAuthority, CountClean, Lifecycle, IsClosed;
    SceneFacts(s);
    if phase.Untouched? {
      NoneClean(s.log, s.revision, s.hash, CurrentOf(s.log).operationId, CurrentOf(s.log).workerId);
    } else {
      ExactlyOne(s, phase.eventId);
    }
    if phase.Finished? { FinishedIsClosed(s, phase, log, published); }
  }

  lemma FinishedIsClosed(s: Scene, phase: Phase, log: seq<B.Event>, published: map<nat, Revision>)
    requires IsScene(s) && phase.Finished? && InPhase(s, phase, log, published)
    ensures IsClosed(s, log, published)
  {
    hide CanSwap, B.Project, ReadAuthority, BelongsTo, IsChain;
    HandoffInPhase(s, phase, published, log);
    ExtendedIsReadable(s.published, HeadOf(s), CallAt(s, phase.now));
    SameBelongs(HeadOf(s).handoff, CallAt(s, phase.now).next, CurrentOf(s.log));
  }

  lemma SameBelongs(h: Handoff, h': Handoff, w: B.Worker)
    requires BelongsTo(h, w) && h'.identity == h.identity
    ensures BelongsTo(h', w)
  {
  }

  /** What attempts may leave behind: candidates, and unfinished ones of their own times. */
  ghost predicate LeftBy(attempts: seq<Attempt>, first: World, now: World) {
    && first.candidates <= now.candidates
    && forall t :: t in now.torn && t !in first.torn ==> IsTimeOf(attempts, t.handoff.updatedAt)
  }

  predicate IsTimeOf(attempts: seq<Attempt>, time: string) {
    exists j :: 0 <= j < |attempts| && attempts[j].now == time
  }

  /**
   The last attempt lives long enough, at a time that no earlier attempt has used and that nothing
   unfinished from before has.
   */
  ghost predicate CanReturn(s: Scene, attempts: seq<Attempt>, first: World)
    requires IsScene(s)
  {
    && attempts != []
    && var last := attempts[|attempts| - 1];
       && last.steps >= 7 && !Blocked(first, TerminalAt(s, last.now))
       && forall j :: 0 <= j < |attempts| - 1 ==> attempts[j].now != last.now
  }

  lemma NothingLeft(s: Scene, attempts: seq<Attempt>, first: World)
    requires IsScene(s)
    ensures LeftBy(attempts[..0], first, first) && (attempts == [] ==> !CanReturn(s, attempts, first))
  {
  }

  /** What one attempt of several adds. */
  lemma Attempted(s: Scene, phase: Phase, phase': Phase, attempts: seq<Attempt>, i: nat, probe: Probe,
                  log: seq<B.Event>,
                  first: World, before: World, after: World, r: Outcome)
    requires i < |attempts| && LeftBy(attempts[..i], first, before)
    requires Progressed(s, phase, phase', attempts[i], probe, log, before, after, r)
    ensures IsScene(s) && InPhase(s, phase', log, after.published)
    ensures r.Done? ==> phase'.Finished? && r.takeover == ResultOf(s, phase'.eventId)
    ensures LeftBy(attempts[..i + 1], first, after)
    ensures ReturnsExactly(s, phase, attempts[i], probe, before, r)
    ensures i == |attempts| - 1 && CanReturn(s, attempts, first) && IsDead(probe) ==> r.Done?
  {
    hide IsScene, InPhase, Reaches;
    forall t | t in after.torn && t !in first.torn ensures IsTimeOf(attempts[..i + 1], t.handoff.updatedAt) {
      if t in before.torn {
        EarlierTime(attempts, i, t.handoff.updatedAt);
      } else {
        assert attempts[..i + 1][i] == attempts[i];
      }
    }
    if i == |attempts| - 1 && CanReturn(s, attempts, first) {
      var t := TerminalAt(s, attempts[i].now);
      assert t.handoff.updatedAt == attempts[i].now;
      if t in before.torn && t !in first.torn { assert IsTimeOf(attempts[..i], t.handoff.updatedAt); }
    }
  }

  lemma EarlierTime(attempts: seq<Attempt>, i: nat, time: string)
    requires i < |attempts| && IsTimeOf(attempts[..i], time)
    ensures IsTimeOf(attempts[..i + 1], time)
  {
  }

  /** A scene is being worked on and has come to a phase. */
  ghost predicate AtWork(s: Scene, revision: nat, hash: string, phase: Phase, log: seq<B.Event>, world: World) {
    IsScene(s) && s.revision == revision && s.hash == hash && InPhase(s, phase, log, world.published)
  }

  predicate IsDead(probe: Probe) {
    probe == Missing || probe == Different
  }

  /**
   When an attempt that lives long enough and meets a dead owner returns: the scene is finished
   already, or the terminal revision of its time was not left unfinished by an earlier attempt.
   Otherwise it is refused.
   */
  ghost predicate ReturnsExactly(s: Scene, phase: Phase, a: Attempt, probe: Probe, before: World, r: Outcome)
    requires IsScene(s)
  {
    a.steps >= 7 && IsDead(probe) ==>
      && (r.Done? <==> phase.Finished? || !Blocked(before, TerminalAt(s, a.now)))
      && (!r.Done? ==> r.Refused? && r.error.ReconciliationRequired?)
  }

  /** What an attempt does: it moves on to a later phase or stays; when it returns, the scene is finished. */
  ghost predicate Progressed(s: Scene, phase: Phase, phase': Phase, a: Attempt, probe: Probe, log: seq<B.Event>,
                             before: World, after: World, r: Outcome)
  {
    && IsScene(s) && InPhase(s, phase', log, after.published) && Reaches(phase, phase')
    && (phase.Untouched? && !phase'.Untouched? ==> phase'.eventId == a.eventId)
    && (r.Done? ==> phase'.Finished? && r.takeover == ResultOf(s, phase'.eventId))
    && (forall t :: t in after.torn && t !in before.torn ==> t.handoff.updatedAt == a.now)
    && before.candidates <= after.candidates
    && ReturnsExactly(s, phase, a, probe, before, r)
  }

  lemma CurrentInPhase(s: Scene, revision: nat, hash: string, phase: Phase, log: seq<B.Event>, world: World)
    ensures AtWork(s, revision, hash, phase, log, world) ==>
      && B.Project(log).Ok?
      && (phase.Untouched? <==> B.Project(log).value.current.Some?)
      && (phase.Untouched? ==> HasCurrent(log) && CurrentOf(log) == CurrentOf(s.log))
  {
    hide CanSwap, B.Project;
    if AtWork(s, revision, hash, phase, log, world) && !phase.Untouched? { AfterAppend(s, phase.eventId); }
  }

  /** In a fresh scene the reconciler finds what it expects. */
  lemma FreshAgrees(s: Scene, revision: nat, hash: string, phase: Phase, log: seq<B.Event>, world: World, w: B.Worker)
    ensures AtWork(s, revision, hash, phase, log, world) && phase.Untouched? && w == CurrentOf(s.log) ==>
      && InPhase(s, phase, log, world.published)
      && log == s.log && world.published == s.published && B.IsLive(w) && w.graph.revision == revision
      && w.graph.hash == hash
      && (w.status == B.Running <==> WasStarted(s))
      && ReadAuthority(world.published) == Some(Some(HeadOf(s)))
      && Agrees(HeadOf(s).handoff, w, WasStarted(s)) && HeadOf(s).handoff.state == ExpectedState(WasStarted(s))
      && (forall id :: InPhase(s, Phase.Appended(id), log + [ReconciledEvent(log, id, w, ObservationOf(WasStarted(s)))],
         world.published))
  {
    hide CanSwap, B.Project, ReadAuthority;
    if AtWork(s, revision, hash, phase, log, world) && phase.Untouched? && w == CurrentOf(s.log) {
      SceneFacts(s);
      HandoffInPhase(s, phase, world.published, log);
    }
  }

  /** The event and the worker of a scene after its append, and the handoff that it left. */
  ghost predicate FindsScene(s: Scene, phase: Phase, last: B.Event, w: B.Worker, log: seq<B.Event>, world: World) {
    && IsScene(s) && !phase.Untouched? && InPhase(s, phase, log, world.published)
    && last == ReconciledEvent(s.log, phase.eventId, CurrentOf(s.log), ObservationOf(WasStarted(s)))
    && w == CurrentOf(s.log).(status := B.Terminal)
    && ReadAuthority(world.published).Some? && ReadAuthority(world.published).value.Some?
    && var h := ReadAuthority(world.published).value.value.handoff;
       && Agrees(h, w, WasStarted(s)) && (phase.Finished? ==> h.state == State.Terminal)
       && (!phase.Finished? ==> h == HeadOf(s).handoff && h.state == ExpectedState(WasStarted(s)))
  }

  /** After a crash the reconciler finds the event and the worker of the scene. */
  lemma ResumeAgrees(s: Scene, revision: nat, hash: string, phase: Phase, log: seq<B.Event>, world: World,
                     session: B.Projection)
    ensures AtWork(s, revision, hash, phase, log, world) && !phase.Untouched? && B.Project(log) == Ok(session) ==>
      var w, events := CurrentOf(s.log), Lifecycle(log, revision, hash);
      && events != [] && events[|events| - 1] == ReconciledEvent(s.log, phase.eventId, w, ObservationOf(WasStarted(s)))
      && CountClean(events, w.operationId, w.workerId) == 1
      && w.operationId in session.workers && session.workers[w.operationId] == w.(status := B.Terminal)
      && ReadAuthority(world.published).Some? && ReadAuthority(world.published).value.Some?
      && var h := ReadAuthority(world.published).value.value.handoff;
         && Agrees(h, w, WasStarted(s)) && InPhase(s, phase, log, world.published)
         && (phase.Finished? ==> h.state == State.Terminal)
         && (!phase.Finished? ==> h == HeadOf(s).handoff && h.state == ExpectedState(WasStarted(s)))
  {
    hide CanSwap, B.Project, ReadAuthority, CountClean, Lifecycle;
    if AtWork(s, revision, hash, phase, log, world) && !phase.Untouched? && B.Project(log) == Ok(session) {
      AfterAppend(s, phase.eventId);
      ExactlyOne(s, phase.eventId);
      HandoffInPhase(s, phase, world.published, log);
    }
  }

  /** The swap of an attempt finishes the scene, or leaves it after the append. */
  lemma SwapFinishes(s: Scene, phase: Phase, a: Attempt, log: seq<B.Event>, before: World, after: World, end: SwapEnd)
    ensures
      && IsScene(s) && phase.Appended? && InPhase(s, phase, log, before.published)
      && SwapEnds(before, CallAt(s, a.now), after, end) ==>
        && (after.published == before.published ==> InPhase(s, phase, log, after.published))
        && (after.published != before.published ==> InPhase(s, Finished(phase.eventId, a.now), log, after.published))
        && (end.Swapped? ==> after.published != before.published && !Blocked(before, TerminalAt(s, a.now)))
        && (end.SwapFailed? ==> end.error.Reconcile? && Blocked(before, TerminalAt(s, a.now)))
        && before.candidates <= after.candidates
        && (forall t :: t in after.torn && t !in before.torn ==> t.handoff.updatedAt == a.now)
  {
    hide CanSwap, B.Project, ReadAuthority;
    if IsScene(s) && phase.Appended? && InPhase(s, phase, log, before.published) {
      HandoffInPhase(s, phase, before.published, log);
      ExtendedIsReadable(s.published, HeadOf(s), CallAt(s, a.now));
      assert Swappable(before.published, CallAt(s, a.now));
      assert Target(before.published, CallAt(s, a.now)) == TerminalAt(s, a.now);
    }
  }

  /** The call of a scene, if it is one. */
  ghost function CallIn(s: Scene, now: string): Call {
    if IsScene(s) then CallAt(s, now) else Swap(Owner.Parent, State.Launching, GENESIS.handoff, OtherId(""))
  }

  /** What closing the handoff of a scene after the append does: exactly when it succeeds, and what it leaves. */
  ghost predicate Closes(s: Scene, phase: Phase, phase': Phase, a: Attempt, log: seq<B.Event>, before: World,
                         after: World, steps: nat, r: Outcome)
  {
    IsScene(s) && phase.Appended? && InPhase(s, phase, log, before.published) ==>
      && InPhase(s, phase', log, after.published) && (phase' == phase || phase' == Finished(phase.eventId, a.now))
      && (r.Done? ==> phase'.Finished?)
      && before.candidates <= after.candidates
      && (forall t :: t in after.torn && t !in before.torn ==> t.handoff.updatedAt == a.now)
      && (steps >= 6 ==>
           && (r.Done? <==> !Blocked(before, TerminalAt(s, a.now)))
           && (!r.Done? ==> r.Refused? && r.error.ReconciliationRequired?))
  }

  lemma BeginReads(w: World, pid: Pid, call: Call)
    requires !IsRunning(At(w, pid))
    ensures At(Apply(w, Begin(pid, call)), pid) == Reading(call) && IsRunning(Reading(call)) && Rank(Reading(call)) == 6
  {
  }

  lemma CrashIdles(w: World, pid: Pid)
    ensures !IsRunning(At(Apply(w, Crash(pid)), pid))
  {
  }

  lemma AdvanceSteps(w: World, pid: Pid)
    ensures Apply(w, Advance(pid)) == Step(w, pid)
  {
  }

  // ---------- what a crash may leave in the way ----------

  /**
   A process that crashes while it writes its candidate leaves it unfinished, in the way of every
   later attempt at the same revision.
   */
  lemma CrashWhileWriting(w: World, pid: Pid, call: Call)
    requires Swappable(w.published, call) && !IsRunning(At(w, pid))
    requires Target(w.published, call) !in w.torn && Target(w.published, call) !in w.candidates
    ensures
      var w' := Apply(Step(Step(Step(Apply(w, Begin(pid, call)), pid), pid), pid), Crash(pid));
      && w'.published == w.published && w'.torn == w.torn + {Target(w.published, call)} && w'.candidates == w.candidates
      && Blocked(w', Target(w.published, call)) && !IsRunning(At(w', pid))
  {
    hide CanSwap, IsReadable, SameLaunch, ReadAuthority, AfterReadingSwap, AfterGenesis;
    var head := w.published[|w.published| - 1];
    SoloReading(w, head, call);
    SoloChecked(w, head, call);
    var w1 := Apply(w, Begin(pid, call));
    assert At(w1, pid) == Reading(call);
    var w2 := Step(w1, pid);
    assert At(w2, pid) == Checked(call, head) && SameDirectory(w, w2);
    var w3 := Step(w2, pid);
    assert At(w3, pid) == Opening(call, Target(w.published, call)) && SameDirectory(w, w3);
  }

  // ---------- scenes ----------

  /** After every run of the callers with a live head, the takeover can swap. */
  lemma LiveHeadCanSwap(op: Operation, actions: seq<Action>, now: string)
    requires OnlyCallers(op, actions)
    ensures
      var p := Run(actions).published;
      p != map[] && |p| - 1 in p && !IsFinal(p[|p| - 1]) ==>
        var h := p[|p| - 1].handoff;
        && 0 in p && (h.state == State.Launching || h.state == WorkerOwned)
        && CanSwap(p, p[|p| - 1], TakeoverCall(h, h.state == WorkerOwned, now))
  {
    hide Run, OnlyCallers, IsPath, IsReadable, IsChain, SameLaunch, DistinctIds;
    RunsArePaths(op, actions);
    RunsAreSafe(actions);
    CallersAreSafe(op, actions);
    var p := Run(actions).published;
    ReadableIsChain(p);
    PathIsShort(op, p);
    if p != map[] && |p| - 1 in p && !IsFinal(p[|p| - 1]) {
      ChainLength(p);
      PathHead(op, p);
      forall k | k in p ensures p[k].transitionId != IdOf(op, TakeoverTerminal) { PathTakeover(op, p, k); }
    }
  }

  lemma ReadableIsChain(published: map<nat, Revision>)
    requires ReadAuthority(published).Some?
    ensures IsReadable(published)
  {
  }

  lemma PathHead(op: Operation, published: map<nat, Revision>)
    requires IsPath(op, published) && IsChain(published) && |published| - 1 in published
      && !IsFinal(published[|published| - 1])
    ensures
      var h := published[|published| - 1].handoff;
      && IsOf(op, h) && (h.state == State.Launching || h.state == WorkerOwned)
      && h.owner == ExpectedOwner(h.state == WorkerOwned)
  {
    hide IsChain;
    PathIsShort(op, published);
    if |published| >= 2 { assert Edge(op, published[|published| - 2].handoff, published[|published| - 1]); }
  }

  lemma PathTakeover(op: Operation, published: map<nat, Revision>, k: nat)
    requires IsPath(op, published) && k in published
    ensures published[k].transitionId == IdOf(op, TakeoverTerminal) ==> IsFinal(published[k])
  {
    if k > 0 { assert Edge(op, published[k - 1].handoff, published[k]); }
  }

  /**
   Where a takeover can begin is reached: any run of the callers that leaves a live head, together with
   any log whose current worker is live, belongs to that head, and has started exactly when the worker
   owns the operation.
   */
  lemma RunGivesScene(op: Operation, actions: seq<Action>, log: seq<B.Event>)
    requires OnlyCallers(op, actions) && HasCurrent(log) && B.IsLive(CurrentOf(log))
    requires
      var p := Run(actions).published;
      && p != map[] && |p| - 1 in p && !IsFinal(p[|p| - 1]) && BelongsTo(p[|p| - 1].handoff, CurrentOf(log))
      && (CurrentOf(log).startedEventId.Some? <==> p[|p| - 1].handoff.state == WorkerOwned)
    ensures IsScene(Scene(log, Run(actions).published, CurrentOf(log).graph.revision, CurrentOf(log).graph.hash))
  {
    hide OnlyCallers, CanSwap, B.Project, Run;
    LiveHeadCanSwap(op, actions, "");
    LiveHeadOwner(op, actions);
  }

  lemma LiveHeadOwner(op: Operation, actions: seq<Action>)
    requires OnlyCallers(op, actions)
    ensures
      var p := Run(actions).published;
      p != map[] && |p| - 1 in p && !IsFinal(p[|p| - 1]) ==>
        p[|p| - 1].handoff.owner == ExpectedOwner(p[|p| - 1].handoff.state == WorkerOwned)
  {
    hide Run, OnlyCallers, IsPath, IsFinal, IsChain;
    RunsArePaths(op, actions);
    RunsAreSafe(actions);
    var p := Run(actions).published;
    if p != map[] && |p| - 1 in p && !IsFinal(p[|p| - 1]) { PathHead(op, p); }
  }

  const LAUNCH := Launch("op", "w", "n", "h", "")
  const GENESIS :=
    Hashed(Handoff(Identity("op", "w", "n", "h", "p"), Owner.Parent, 1, "s", State.Launching, "t"), Some(LAUNCH),
           LAUNCH, None, 0, TransitionId("op", Genesis, "w"))
  const SPAWN := B.Event("e", 1, true, B.SpawnRequested("op", "w", "n", "d", B.Graph("g", 1, "h"), "r"))

  /** A worker that was requested and never started is a scene. */
  lemma LaunchingIsScene()
    ensures IsScene(Scene([SPAWN], map[0 := GENESIS], 1, "h"))
  {
    hide B.Project, IsReadable, SameLaunch;
    SpawnIsCurrent();
    GenesisIsChain();
    assert |map[0 := GENESIS]| == 1;
  }

  lemma SpawnIsCurrent()
    ensures HasCurrent([SPAWN]) && CurrentOf([SPAWN]) == B.Spawned("e", SPAWN.body)
  {
    assert [SPAWN][..0] == [];
    assert B.Project([]) == Ok(B.EMPTY);
  }

  lemma GenesisIsChain()
    ensures IsReadable(map[0 := GENESIS]) && SameLaunch(map[0 := GENESIS])
  {
    assert |map[0 := GENESIS]| == 1;
  }

  const STARTED := B.Event("f", 2, true, B.Started("op", "w", "n", "d", B.Graph("g", 1, "h")))
  const CLAIMED :=
    Hashed(Handoff(GENESIS.handoff.identity, Owner.Worker, 2, "s", WorkerOwned, "t"), None, LAUNCH, Some(GENESIS), 1,
           TransitionId("op", WorkerClaim, "w"))

  /** A worker that has started and claimed its operation is a scene, too. */
  lemma StartedIsScene()
    ensures IsScene(Scene([SPAWN, STARTED], map[0 := GENESIS, 1 := CLAIMED], 1, "h"))
    ensures WasStarted(Scene([SPAWN, STARTED], map[0 := GENESIS, 1 := CLAIMED], 1, "h"))
  {
    hide B.Project, IsReadable, SameLaunch;
    StartedIsCurrent();
    ClaimedIsChain();
  }

  lemma StartedIsCurrent()
    ensures HasCurrent([SPAWN, STARTED])
    ensures CurrentOf([SPAWN, STARTED]) == B.Spawned("e", SPAWN.body).(startedEventId := Some("f"), status := B.Running)
  {
    SpawnIsCurrent();
    assert [SPAWN, STARTED][..1] == [SPAWN];
    B.StepAfter([SPAWN, STARTED], 1);
    assert [SPAWN, STARTED][..2] == [SPAWN, STARTED];
    B.NamesAreKeys([SPAWN]);
    hide B.Project;
  }

  lemma ClaimedIsChain()
    ensures
      var p := map[0 := GENESIS, 1 := CLAIMED];
      IsReadable(p) && SameLaunch(p) && p != map[] && |p| == 2
  {
    hide LaunchBinds;
    GenesisIsChain();
    ClaimedFollows();
    var q := map[0 := GENESIS];
    assert q[1 := CLAIMED] == map[0 := GENESIS, 1 := CLAIMED];
    hide Follows, WellFormedRevision;
    LinkKeepsChain(q, CLAIMED);
    assert DistinctIds(q[1 := CLAIMED]);
    ChainLength(q[1 := CLAIMED]);
  }

  lemma ClaimedFollows()
    ensures Fits(map[0 := GENESIS], CLAIMED) && CLAIMED.transitionId != GENESIS.transitionId
  {
  }

  const LAUNCHING := Create(GENESIS.handoff, LAUNCH, GENESIS.transitionId)
  const REPEATED := TakeoverCall(GENESIS.handoff, false, "u")
  const LAUNCH_RUN := [Begin(0, LAUNCHING), Advance(0), Advance(0), Advance(0), Advance(0), Advance(0)]
  const CRASH_RUN := LAUNCH_RUN + [Begin(0, REPEATED), Advance(0), Advance(0), Advance(0), Crash(0)]

  /** The directory after the first revision was published. */
  const LAUNCHED := World(map[0 := GENESIS], {GENESIS}, {}, map[0 := Returned(LAUNCHING, GENESIS)])
  /** The directory after a takeover at the time "u" has then crashed while it wrote. */
  const CRASHED := Run(CRASH_RUN)

  /** The run of a launcher publishes the first revision. */
  lemma LaunchIsReached()
    ensures Run(LAUNCH_RUN) == LAUNCHED
  {
    hide Run, IsReadable, ReadAuthority, CreateRevision, AfterReadingCreate;
    var a := LAUNCH_RUN;
    RunOneMore(a, 0);
    RunOneMore(a, 1);
    RunOneMore(a, 2);
    RunOneMore(a, 3);
    RunOneMore(a, 4);
    RunOneMore(a, 5);
    LaunchReads();
    assert Run(a[..0]) == START by { RunNone(a); }
    assert START.procs[0 := Reading(LAUNCHING)] == map[0 := Reading(LAUNCHING)];
    assert Run(a[..1]) == World(map[], {}, {}, map[0 := Reading(LAUNCHING)]);
    assert Run(a[..2]) == World(map[], {}, {}, map[0 := Opening(LAUNCHING, GENESIS)]);
    assert Run(a[..3]) == World(map[], {}, {GENESIS}, map[0 := Writing(LAUNCHING, GENESIS)]);
    assert Run(a[..4]) == World(map[], {GENESIS}, {}, map[0 := Linking(LAUNCHING, GENESIS)]);
    assert Run(a[..5]) == World(map[0 := GENESIS], {GENESIS}, {}, map[0 := Verifying(LAUNCHING, GENESIS)]);
    assert Run(a[..6]) == LAUNCHED;
    assert a[..6] == a;
  }

  lemma RunOneMore(actions: seq<Action>, i: nat)
    requires i < |actions|
    ensures Run(actions[..i + 1]) == Apply(Run(actions[..i]), actions[i])
  {
    assert actions[..i + 1][..i] == actions[..i];
  }

  lemma RunNone(actions: seq<Action>)
    ensures Run(actions[..0]) == START
  {
  }

  /** What the launcher reads before and after it publishes. */
  lemma LaunchReads()
    ensures AfterReadingCreate(LAUNCHING, ReadAuthority(map[])) == Opening(LAUNCHING, GENESIS)
    ensures ReadAuthority(map[0 := GENESIS]) == Some(Some(GENESIS))
  {
    GenesisIsChain();
    assert |map[0 := GENESIS]| == 1;
  }

  lemma CrashIsReached()
    ensures CRASHED == Apply(Step(Step(Step(Apply(LAUNCHED, Begin(0, REPEATED)), 0), 0), 0), Crash(0))
    ensures OnlyCallers(Operation("op", "w"), CRASH_RUN)
  {
    hide Run, Step;
    LaunchIsReached();
    var a := CRASH_RUN;
    assert a[..6] == LAUNCH_RUN && a[..11] == a;
    RunOneMore(a, 6);
    RunOneMore(a, 7);
    RunOneMore(a, 8);
    RunOneMore(a, 9);
    RunOneMore(a, 10);
  }

  /** A run of the callers leads to a scene in which one time stamp, and no other, is blocked. */
  lemma CrashedScene()
    ensures OnlyCallers(Operation("op", "w"), CRASH_RUN) && CRASHED == Run(CRASH_RUN)
    ensures
      var s := Scene([SPAWN], map[0 := GENESIS], 1, "h");
      && IsScene(s) && AtWork(s, 1, "h", Untouched, [SPAWN], CRASHED) && !IsRunning(At(CRASHED, 0))
      && forall now :: Blocked(CRASHED, TerminalAt(s, now)) <==> now == "u"
  {
    hide B.Project, IsReadable, SameLaunch, IsScene, CanSwap, Run, OnlyCallers;
    CrashIsReached();
    LaunchingIsScene();
    var s := Scene([SPAWN], map[0 := GENESIS], 1, "h");
    LaunchingCall(s, "u");
    TerminalIsNotGenesis(s, "u");
    CrashWhileWriting(LAUNCHED, 0, REPEATED);
    forall now ensures Blocked(CRASHED, TerminalAt(s, now)) <==> now == "u" {
      LaunchingCall(s, now);
      TerminalIsNotGenesis(s, now);
    }
  }

  lemma TerminalIsNotGenesis(s: Scene, now: string)
    requires IsScene(s)
    ensures TerminalAt(s, now) != GENESIS
  {
  }

  lemma LaunchingCall(s: Scene, now: string)
    requires IsScene(s) && s == Scene([SPAWN], map[0 := GENESIS], 1, "h")
    ensures
      var call := TakeoverCall(GENESIS.handoff, false, now);
      && CallAt(s, now) == call && Swappable(s.published, call)
      && Target(s.published, call) == TerminalAt(s, now) && TerminalAt(s, now).handoff.updatedAt == now
  {
    hide B.Project, CanSwap;
    SpawnIsCurrent();
    StillCanSwap(s, now);
    assert |map[0 := GENESIS]| == 1;
  }

  /** There an attempt at the same time is refused; it has appended its event by then. */
  method RepeatedAtSameTime(reconciler: Reconciler) returns (r: Outcome)
    requires reconciler.log == [SPAWN] && reconciler.world == CRASHED
    modifies reconciler
    ensures r == Refused(TakeoverError.ReconciliationRequired)
  {
    hide B.Project, IsScene, TerminalAt, Blocked, InPhase, Run;
    CrashedScene();
    ghost var phase;
    r, phase := reconciler.Reconcile(Attempt(0, 7, "e2", "u"), 1, "h", true, Missing,
      Scene([SPAWN], map[0 := GENESIS], 1, "h"), Untouched);
  }
}
