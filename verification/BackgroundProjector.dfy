/**
 The projection of a session log onto its background workers. A worker record is one mutable object
 that the map and `current` share.
 */
module BackgroundProjector {
  import opened Wrappers

  datatype Status = Launching | Running | Terminal | ReconciliationRequired

  datatype Observation = NotStarted | OwnerDeadClean | TerminalExact | Unknown

  /** The graph that a worker was spawned for. */
  datatype Graph = Graph(id: string, revision: nat, hash: string)

  datatype TerminalFact = TerminalFact(eventId: string, graphStatus: string, cleanupComplete: bool, receipt: string)

  datatype Worker = Worker(
    acceptedControlIds: seq<string>,
    descriptorHash: string,
    graph: Graph,
    operationId: string,
    repositoryId: string,
    spawnEventId: string,
    startedEventId: Option<string>,
    status: Status,
    terminal: Option<TerminalFact>,
    workerId: string,
    workerNonce: string)

  datatype Body =
    | SpawnRequested(operationId: string, workerId: string, workerNonce: string, descriptorHash: string, graph: Graph,
                     repositoryId: string)
    | Started(operationId: string, workerId: string, workerNonce: string, descriptorHash: string, graph: Graph)
    | ControlAccepted(operationId: string, workerId: string, graph: Graph, requestId: string)
    | WorkerTerminal(operationId: string, workerId: string, graph: Graph, graphStatus: string, cleanupComplete: bool,
                     receipt: string)
    | Reconciled(operationId: string, workerId: string, graph: Graph, observation: Observation)
    | Other

  datatype Event = Event(eventId: string, sessionSeq: nat, sessionScoped: bool, body: Body)

  datatype ProjectError = HandoffConflict | ProtocolMismatch | ControlStale

  /** The workers by operation; `current` names the record that is current. */
  datatype Projection = Projection(workers: map<string, Worker>, current: Option<string>, lastSessionSeq: nat)

  const EMPTY := Projection(map[], None, 0)

  predicate IsLive(w: Worker) {
    w.status == Launching || w.status == Running
  }

  function Spawned(eventId: string, b: Body): Worker
    requires b.SpawnRequested?
  {
    Worker([], b.descriptorHash, b.graph, b.operationId, b.repositoryId, eventId, None, Launching, None, b.workerId,
      b.workerNonce)
  }

  predicate MatchesSpawn(w: Worker, b: Body)
    requires b.Started?
  {
    && w.status == Launching && w.workerId == b.workerId && w.workerNonce == b.workerNonce
    && w.descriptorHash == b.descriptorHash && w.graph == b.graph
  }

  function AfterTerminal(w: Worker, eventId: string, b: Body): Worker
    requires b.WorkerTerminal?
  {
    w.(status := if b.cleanupComplete then Terminal else ReconciliationRequired,
       terminal := Some(TerminalFact(eventId, b.graphStatus, b.cleanupComplete, b.receipt)))
  }

  /** The projection after one more session event. */
  function Fold(p: Projection, eventId: string, b: Body): Result<Projection, ProjectError> {
    match b
    case SpawnRequested(op, _, _, _, _, _) =>
      if op in p.workers || (p.current.Some? && p.current.value in p.workers && IsLive(p.workers[p.current.value]))
      then Err(HandoffConflict)
      else Ok(p.(workers := p.workers[op := Spawned(eventId, b)], current := Some(op)))
    case Started(op, _, _, _, _) =>
      if op !in p.workers || !MatchesSpawn(p.workers[op], b) then Err(ProtocolMismatch)
      else Ok(p.(workers := p.workers[op := p.workers[op].(startedEventId := Some(eventId), status := Running)],
        current := Some(op)))
    case ControlAccepted(op, worker, _, request) =>
      if op !in p.workers || p.workers[op].workerId != worker || p.workers[op].status != Running
         || request in p.workers[op].acceptedControlIds
      then Err(ControlStale)
      else
        Ok(p.(workers := p.workers[op := p.workers[op].(
               acceptedControlIds := p.workers[op].acceptedControlIds + [request])]))
    case WorkerTerminal(op, worker, graph, _, _, _) =>
      if op !in p.workers || p.workers[op].workerId != worker || p.workers[op].status != Running
        || p.workers[op].graph != graph
      then Err(ProtocolMismatch)
      else Ok(p.(workers := p.workers[op := AfterTerminal(p.workers[op], eventId, b)], current := None))
    case Reconciled(op, worker, _, observation) =>
      if op !in p.workers || p.workers[op].workerId != worker then Err(ProtocolMismatch)
      else if observation == Unknown then
        Ok(p.(workers := p.workers[op := p.workers[op].(status := ReconciliationRequired)], current := Some(op)))
      else Ok(p.(workers := p.workers[op := p.workers[op].(status := Terminal)], current := None))
    case Other => Ok(p)
  }

  function Step(p: Projection, e: Event): Result<Projection, ProjectError> {
    var p' := p.(lastSessionSeq := if e.sessionSeq > p.lastSessionSeq then e.sessionSeq else p.lastSessionSeq);
    if e.sessionScoped then Fold(p', e.eventId, e.body) else Ok(p')
  }

  function Project(events: seq<Event>): Result<Projection, ProjectError> {
    if events == [] then Ok(EMPTY)
    else
      var before := Project(events[..|events| - 1]);
      if before.Err? then before else Step(before.value, events[|events| - 1])
  }

  lemma {:induction false} PrefixProjects(events: seq<Event>, i: nat)
    requires i <= |events| && Project(events).Ok?
    ensures Project(events[..i]).Ok?
  {
    if i < |events| {
      PrefixProjects(events[..|events| - 1], i);
      assert events[..|events| - 1][..i] == events[..i];
    } else {
      assert events[..i] == events;
    }
  }

  lemma StepAfter(events: seq<Event>, i: nat)
    requires i < |events|
    ensures Project(events[..i + 1])
         == (if Project(events[..i]).Err? then Project(events[..i]) else Step(Project(events[..i]).value, events[i]))
  {
    assert events[..i + 1][..i] == events[..i];
  }

  lemma {:induction false} ErrorStays(events: seq<Event>, i: nat)
    requires i <= |events| && Project(events[..i]).Err?
    ensures Project(events) == Project(events[..i])
  {
    if i < |events| {
      assert events[..|events| - 1][..i] == events[..i];
      ErrorStays(events[..|events| - 1], i);
    } else {
      assert events[..i] == events;
    }
  }

  // ---------- the loop over shared records ----------

  class MutableWorker {
    var value: Worker

    constructor (value: Worker)
      ensures this.value == value
    {
      this.value := value;
    }
  }

  /** The records in the map, no two of them shared, hold the projection; `current` is one of them. */
  ghost predicate Represents(records: map<string, MutableWorker>, current: MutableWorker?, p: Projection)
    reads records.Values
  {
    && (forall op :: op in records <==> op in p.workers)
    && (forall op :: op in records ==> records[op].value == p.workers[op])
    && (forall a, b :: a in records && b in records && a != b ==> records[a] != records[b])
    && (current == null <==> p.current == None)
    && (p.current.Some? ==> p.current.value in records && current == records[p.current.value])
  }

  /** Folds the log event by event, changing the shared records in place. */
  method ProjectLog(events: seq<Event>) returns (r: Result<Projection, ProjectError>)
    ensures r == Project(events)
  {
    hide Project, Fold;
    var records: map<string, MutableWorker> := map[];
    var current: MutableWorker? := null;
    var lastSessionSeq := 0;
    ghost var p := EMPTY;
    assert events[..0] == [];
    assert Project([]) == Ok(EMPTY) by { ProjectEmpty(); }
    for i := 0 to |events|
      invariant Project(events[..i]) == Ok(p) && p.lastSessionSeq == lastSessionSeq
      invariant forall op :: op in records ==> fresh(records[op])
      invariant Represents(records, current, p)
    {
      var event := events[i];
      StepAfter(events, i);
      if event.sessionSeq > lastSessionSeq { lastSessionSeq := event.sessionSeq; }
      ghost var before := p.(lastSessionSeq := lastSessionSeq);
      if event.sessionScoped {
        var failed;
        records, current, failed := Change(records, current, event.eventId, event.body, before);
        if failed.Some? {
          ErrorStays(events, i + 1);
          return Err(failed.value);
        }
        p := Fold(before, event.eventId, event.body).value;
        FoldKeepsSeq(before, event.eventId, event.body);
      } else {
        p := before;
      }
    }
    assert events[..|events|] == events;
    var workers := map op | op in records :: records[op].value;
    assert workers == p.workers;
    var name := None;
    if current != null {
      name := Some(current.value.operationId);
      NamesAreKeys(events);
    }
    return Ok(Projection(workers, name, lastSessionSeq));
  }

  lemma ProjectEmpty()
    ensures Project([]) == Ok(EMPTY)
  {
  }

  lemma FoldKeepsSeq(p: Projection, eventId: string, b: Body)
    ensures Fold(p, eventId, b).Ok? ==> Fold(p, eventId, b).value.lastSessionSeq == p.lastSessionSeq
  {
  }

  ghost predicate WellNamed(p: Projection) {
    && (forall op :: op in p.workers ==> p.workers[op].operationId == op)
    && (p.current.Some? ==> p.current.value in p.workers)
  }

  lemma {:induction false} NamesAreKeys(events: seq<Event>)
    ensures Project(events).Ok? ==> WellNamed(Project(events).value)
  {
    if events != [] { NamesAreKeys(events[..|events| - 1]); }
  }

  /** One event changes the records as the fold changes the projection. */
  method Change(records: map<string, MutableWorker>, current: MutableWorker?, eventId: string, b: Body,
                ghost p: Projection)
    returns (records': map<string, MutableWorker>, current': MutableWorker?, failed: Option<ProjectError>)
    requires Represents(records, current, p)
    modifies records.Values
    ensures forall op :: op in records' ==> fresh(records'[op]) || (op in records && records'[op] == records[op])
    ensures failed.Some? ==> Fold(p, eventId, b) == Err(failed.value)
    ensures failed.None? ==> Fold(p, eventId, b).Ok? && Represents(records', current', Fold(p, eventId, b).value)
  {
    records', current', failed := records, current, None;
    match b
    case SpawnRequested(op, _, _, _, _, _) =>
      if op in records || (current != null && IsLive(current.value)) { failed := Some(HandoffConflict); return; }
      var worker := new MutableWorker(Spawned(eventId, b));
      records' := records[op := worker];
      current' := worker;
    case Started(op, _, _, _, _) =>
      if op !in records || !MatchesSpawn(records[op].value, b) { failed := Some(ProtocolMismatch); return; }
      var worker := records[op];
      worker.value := worker.value.(startedEventId := Some(eventId), status := Running);
      current' := worker;
    case ControlAccepted(op, workerId, _, request) =>
      if op !in records || records[op].value.workerId != workerId || records[op].value.status != Running
         || request in records[op].value.acceptedControlIds { failed := Some(ControlStale); return; }
      var worker := records[op];
      worker.value := worker.value.(acceptedControlIds := worker.value.acceptedControlIds + [request]);
    case WorkerTerminal(op, workerId, graph, _, _, _) =>
      if op !in records || records[op].value.workerId != workerId || records[op].value.status != Running
         || records[op].value.graph != graph { failed := Some(ProtocolMismatch); return; }
      var worker := records[op];
      worker.value := AfterTerminal(worker.value, eventId, b);
      current' := null;
    case Reconciled(op, workerId, _, observation) =>
      if op !in records || records[op].value.workerId != workerId { failed := Some(ProtocolMismatch); return; }
      var worker := records[op];
      if observation == Unknown {
        worker.value := worker.value.(status := ReconciliationRequired);
        current' := worker;
      } else {
        worker.value := worker.value.(status := Terminal);
        current' := null;
      }
    case Other =>
  }

  // ---------- single ownership ----------

  /** Every live worker is the current one; so there is at most one. */
  ghost predicate SingleOwner(p: Projection) {
    forall op :: op in p.workers && IsLive(p.workers[op]) ==> p.current == Some(op)
  }

  /** A reconciliation that pushes aside a live current worker other than its target. */
  ghost predicate Displaces(p: Projection, e: Event) {
    && e.sessionScoped && e.body.Reconciled? && p.current.Some? && p.current.value != e.body.operationId
    && p.current.value in p.workers && IsLive(p.workers[p.current.value])
  }

  lemma SingleOwnerStep(p: Projection, e: Event)
    requires WellNamed(p) && SingleOwner(p) && Step(p, e).Ok?
    ensures SingleOwner(Step(p, e).value) <==> !Displaces(p, e)
  {
    var p' := Step(p, e).value;
    if Displaces(p, e) {
      assert p.current.value in p'.workers && IsLive(p'.workers[p.current.value]);
    }
  }

  ghost predicate AlwaysSingle(events: seq<Event>) {
    forall i :: 0 <= i <= |events| ==> Project(events[..i]).Ok? ==> SingleOwner(Project(events[..i]).value)
  }

  ghost predicate NeverDisplaces(events: seq<Event>) {
    forall i :: 0 <= i < |events| ==> Project(events[..i]).Ok? ==> !Displaces(Project(events[..i]).value, events[i])
  }

  /**
   On an accepted log, every live worker is current at every time, so that at most one is live, exactly
   when no reconciliation pushes aside a live current worker other than its target.
   */
  lemma {:induction false} SingleOwnerIff(events: seq<Event>)
    requires Project(events).Ok?
    ensures AlwaysSingle(events) <==> NeverDisplaces(events)
  {
    hide Project, SingleOwner, Displaces;
    if AlwaysSingle(events) {
      forall i | 0 <= i < |events|
        ensures Project(events[..i]).Ok? ==> !Displaces(Project(events[..i]).value, events[i])
      {
        PrefixProjects(events, i);
        PrefixProjects(events, i + 1);
        NextIsSingle(events, i);
        assert SingleOwner(Project(events[..i]).value) && SingleOwner(Project(events[..i + 1]).value);
      }
    }
    if NeverDisplaces(events) {
      forall i | 0 <= i <= |events| ensures Project(events[..i]).Ok? ==> SingleOwner(Project(events[..i]).value) {
        SingleUpTo(events, i);
      }
    }
  }

  lemma NextIsSingle(events: seq<Event>, i: nat)
    requires i < |events| && Project(events[..i]).Ok? && Project(events[..i + 1]).Ok?
    ensures SingleOwner(Project(events[..i]).value) ==>
      (SingleOwner(Project(events[..i + 1]).value) <==> !Displaces(Project(events[..i]).value, events[i]))
  {
    hide Project, SingleOwner, Displaces;
    StepAfter(events, i);
    NamesAreKeys(events[..i]);
    if SingleOwner(Project(events[..i]).value) { SingleOwnerStep(Project(events[..i]).value, events[i]); }
  }

  lemma {:induction false} SingleUpTo(events: seq<Event>, i: nat)
    requires Project(events).Ok? && i <= |events| && NeverDisplaces(events)
    ensures Project(events[..i]).Ok? && SingleOwner(Project(events[..i]).value)
  {
    hide Fold, Displaces;
    PrefixProjects(events, i);
    if i > 0 {
      SingleUpTo(events, i - 1);
      NextIsSingle(events, i - 1);
    }
  }

  const GRAPH := Graph("g", 1, "h")
  const SPAWN_A := SpawnRequested("a", "w", "n", "d", GRAPH, "r")
  const SPAWN_B := SpawnRequested("b", "w", "n", "d", GRAPH, "r")
  const DISPLACING := [
    Event("1", 1, true, SPAWN_A), Event("2", 2, true, Reconciled("a", "w", GRAPH, NotStarted)),
    Event("3", 3, true, SPAWN_B), Event("4", 4, true, Reconciled("a", "w", GRAPH, Unknown))]

  /** The projector accepts a log that displaces: a late finding about `a` leaves `b` live and not current. */
  lemma OwnerDisplaced()
    ensures Project(DISPLACING).Ok? && !AlwaysSingle(DISPLACING)
    ensures
      var p := Project(DISPLACING).value;
      "b" in p.workers && IsLive(p.workers["b"]) && p.current == Some("a")
  {
    var a, b := Spawned("1", SPAWN_A), Spawned("3", SPAWN_B);
    ProjectEmpty();
    assert DISPLACING[..0] == [];
    StepAfter(DISPLACING, 0);
    StepAfter(DISPLACING, 1);
    StepAfter(DISPLACING, 2);
    StepAfter(DISPLACING, 3);
    hide Project;
    assert map["a" := a]["a" := a.(status := Terminal)] == map["a" := a.(status := Terminal)];
    assert Project(DISPLACING[..1]) == Ok(Projection(map["a" := a], Some("a"), 1));
    assert Project(DISPLACING[..2]) == Ok(Projection(map["a" := a.(status := Terminal)], None, 2));
    assert Project(DISPLACING[..3]) == Ok(Projection(map["a" := a.(status := Terminal), "b" := b], Some("b"), 3));
    assert DISPLACING[..4] == DISPLACING;
    assert !SingleOwner(Project(DISPLACING[..4]).value);
  }

  /** A reconciliation of the worker that is current, as the launcher, the worker and the takeover write it. */
  ghost predicate TargetsCurrent(p: Projection, e: Event) {
    e.sessionScoped && e.body.Reconciled? ==> p.current == Some(e.body.operationId)
  }

  /** Producers that reconcile only the current worker keep a single owner. */
  lemma ProducersKeepSingleOwner(events: seq<Event>)
    requires Project(events).Ok?
    requires forall i :: 0 <= i < |events| ==>
      Project(events[..i]).Ok? ==> TargetsCurrent(Project(events[..i]).value, events[i])
    ensures AlwaysSingle(events)
  {
    hide Project;
    SingleOwnerIff(events);
    assert NeverDisplaces(events) by {
      hide AlwaysSingle;
    }
  }

  // ---------- what a record keeps ----------

  /** A later state of a record: the same worker, no way back to launching, control identities only added. */
  ghost predicate Succeeds(before: Worker, after: Worker) {
    && after.operationId == before.operationId && after.workerId == before.workerId
    && after.workerNonce == before.workerNonce
    && after.graph == before.graph && after.descriptorHash == before.descriptorHash
    && after.repositoryId == before.repositoryId && after.spawnEventId == before.spawnEventId
    && before.acceptedControlIds <= after.acceptedControlIds
    && (before.status != Launching ==> after.status != Launching && after.startedEventId == before.startedEventId)
    && (!IsLive(before) ==> !IsLive(after))
  }

  ghost predicate DistinctControls(p: Projection) {
    forall op :: op in p.workers ==> NoRepeats(p.workers[op].acceptedControlIds)
  }

  lemma StepSucceeds(p: Projection, e: Event)
    requires Step(p, e).Ok?
    ensures forall op :: op in p.workers ==>
      op in Step(p, e).value.workers && Succeeds(p.workers[op], Step(p, e).value.workers[op])
  {
    forall op | op in p.workers
      ensures op in Step(p, e).value.workers && Succeeds(p.workers[op], Step(p, e).value.workers[op])
    {
      RecordSucceeds(p, e, op);
    }
  }

  lemma RecordSucceeds(p: Projection, e: Event, op: string)
    requires Step(p, e).Ok? && op in p.workers
    ensures op in Step(p, e).value.workers && Succeeds(p.workers[op], Step(p, e).value.workers[op])
  {
  }

  predicate NoRepeats(ids: seq<string>) {
    forall i, j :: 0 <= i < j < |ids| ==> ids[i] != ids[j]
  }

  lemma StepKeepsDistinct(p: Projection, e: Event)
    requires Step(p, e).Ok? && DistinctControls(p)
    ensures DistinctControls(Step(p, e).value)
  {
    hide NoRepeats;
    if e.sessionScoped && e.body.ControlAccepted? {
      OneMoreControl(p.workers[e.body.operationId].acceptedControlIds, e.body.requestId);
    }
    NoControls();
  }

  lemma NoControls()
    ensures NoRepeats([])
  {
  }

  lemma OneMoreControl(ids: seq<string>, id: string)
    ensures NoRepeats(ids) && id !in ids ==> NoRepeats(ids + [id])
  {
  }

  /** No record is lost or launched again, and accepted control identities never repeat. */
  lemma {:induction false} RecordsSucceed(events: seq<Event>, i: nat)
    requires Project(events).Ok? && i <= |events|
    ensures Project(events[..i]).Ok?
    ensures forall op :: op in Project(events[..i]).value.workers ==>
      op in Project(events).value.workers
        && Succeeds(Project(events[..i]).value.workers[op], Project(events).value.workers[op])
    ensures DistinctControls(Project(events).value)
  {
    hide Step;
    if events == [] {
      assert events[..i] == events;
    } else {
      var front := events[..|events| - 1];
      StepSucceeds(Project(front).value, events[|events| - 1]);
      RecordsSucceed(front, |front|);
      StepKeepsDistinct(Project(front).value, events[|events| - 1]);
      if i == |events| {
        assert events[..i] == events;
      } else {
        RecordsSucceed(front, i);
        assert front[..i] == events[..i];
      }
    }
  }

  /** A reconciled worker is never live again. */
  lemma ReconciledIsNotLive(events: seq<Event>, i: nat)
    requires Project(events).Ok? && i < |events| && events[i].sessionScoped && events[i].body.Reconciled?
    ensures
      var op := events[i].body.operationId;
      op in Project(events).value.workers && !IsLive(Project(events).value.workers[op])
  {
    RecordsSucceed(events, i + 1);
    StepAfter(events, i);
    hide Project;
  }

  /** A live worker has started exactly when it is running. */
  ghost predicate StartedWhenRunning(p: Projection) {
    forall op :: op in p.workers && IsLive(p.workers[op]) ==>
      (p.workers[op].status == Running <==> p.workers[op].startedEventId.Some?)
  }

  lemma StepKeepsStarted(p: Projection, e: Event)
    requires StartedWhenRunning(p) && Step(p, e).Ok?
    ensures StartedWhenRunning(Step(p, e).value)
  {
    var p' := Step(p, e).value;
    forall op | op in p'.workers && IsLive(p'.workers[op])
      ensures p'.workers[op].status == Running <==> p'.workers[op].startedEventId.Some?
    {
      StartedAfter(p, e, op);
    }
  }

  lemma StartedAfter(p: Projection, e: Event, op: string)
    requires StartedWhenRunning(p) && Step(p, e).Ok? && op in Step(p, e).value.workers
    ensures
      var w := Step(p, e).value.workers[op];
      IsLive(w) ==> (w.status == Running <==> w.startedEventId.Some?)
  {
  }

  lemma {:induction false} RunningHasStarted(events: seq<Event>)
    ensures Project(events).Ok? ==> StartedWhenRunning(Project(events).value)
  {
    hide Step, StartedWhenRunning;
    if events == [] {
      NoneStarted();
    } else {
      RunningHasStarted(events[..|events| - 1]);
      var before := Project(events[..|events| - 1]);
      if before.Ok? && Step(before.value, events[|events| - 1]).Ok? {
        StepKeepsStarted(before.value, events[|events| - 1]);
      }
    }
  }

  lemma NoneStarted()
    ensures StartedWhenRunning(EMPTY)
  {
  }

  // ---------- what the projection says about the log ----------

  /**
   Which events a log accepts next: one spawn of an operation while no current worker is live; a start
   that agrees with its spawn; controls and the end of a running worker, each control once; and
   reconciliations of a known worker.
   */
  predicate AllowedNext(p: Projection, e: Event) {
    !e.sessionScoped
    || match e.body
       case SpawnRequested(op, _, _, _, _, _) =>
         && op !in p.workers
         && (p.current.Some? && p.current.value in p.workers ==>
              p.workers[p.current.value].status in {Terminal, ReconciliationRequired})
       case Started(op, worker, nonce, descriptor, graph) =>
         && op in p.workers && p.workers[op].status == Launching && p.workers[op].workerId == worker
         && p.workers[op].workerNonce == nonce && p.workers[op].descriptorHash == descriptor
         && p.workers[op].graph == graph
       case ControlAccepted(op, worker, _, request) =>
         && op in p.workers && p.workers[op].status == Running && p.workers[op].workerId == worker
         && request !in p.workers[op].acceptedControlIds
       case WorkerTerminal(op, worker, graph, _, _, _) =>
         && op in p.workers && p.workers[op].status == Running && p.workers[op].workerId == worker
         && p.workers[op].graph == graph
       case Reconciled(op, worker, _, _) => op in p.workers && p.workers[op].workerId == worker
       case Other => true
  }

  /** A log can be continued by exactly these events, and any other is refused with the error of its kind. */
  lemma AcceptedNext(events: seq<Event>, e: Event)
    requires Project(events).Ok?
    ensures Project(events + [e]).Ok? <==> AllowedNext(Project(events).value, e)
    ensures Project(events + [e]).Err? ==>
      Project(events + [e]).error
      == match e.body
         case SpawnRequested(_, _, _, _, _, _) => HandoffConflict
         case ControlAccepted(_, _, _, _) => ControlStale
         case _ => ProtocolMismatch
  {
    assert (events + [e])[..|events|] == events;
    assert (events + [e])[|events|] == e;
  }

  /** An event that decides about the worker of an operation. */
  predicate Decides(e: Event, op: string) {
    && e.sessionScoped && !e.body.Other? && !e.body.ControlAccepted? && e.body.operationId == op
  }

  /** The status that an event gives to its worker. */
  predicate GivesStatus(b: Body, status: Status) {
    match b
    case SpawnRequested(_, _, _, _, _, _) => status == Launching
    case Started(_, _, _, _, _) => status == Running
    case WorkerTerminal(_, _, _, _, clean, _) => status == if clean then Terminal else ReconciliationRequired
    case Reconciled(_, _, _, observation) =>
      status == if observation == Unknown then ReconciliationRequired else Terminal
    case _ => false
  }

  /** The last event that decides about a worker gives its status. */
  lemma {:induction false} StatusIsOfLast(events: seq<Event>, op: string, i: nat)
    requires Project(events).Ok? && i < |events| && Decides(events[i], op)
    requires forall j :: i < j < |events| ==> !Decides(events[j], op)
    ensures
      var workers := Project(events).value.workers;
      op in workers && GivesStatus(events[i].body, workers[op].status)
  {
    var front, last := events[..|events| - 1], events[|events| - 1];
    if i < |front| {
      assert front[i] == events[i] && forall j :: i < j < |front| ==> front[j] == events[j];
      StatusIsOfLast(front, op, i);
      assert Step(Project(front).value, last) == Project(events);
      hide Project, Step;
      StatusStays(Project(front).value, last, op);
    }
  }

  lemma StatusStays(p: Projection, e: Event, op: string)
    requires Step(p, e).Ok? && !Decides(e, op) && op in p.workers
    ensures op in Step(p, e).value.workers && Step(p, e).value.workers[op].status == p.workers[op].status
  {
  }

  /** The last deciding event of any worker also says who is current. */
  lemma {:induction false} CurrentIsOfLast(events: seq<Event>, i: nat)
    requires Project(events).Ok? && i < |events| && events[i].sessionScoped
    requires !events[i].body.Other? && !events[i].body.ControlAccepted?
    requires forall j :: i < j < |events| ==>
      !events[j].sessionScoped || events[j].body.Other? || events[j].body.ControlAccepted?
    ensures
      Project(events).value.current
      == match events[i].body
         case SpawnRequested(op, _, _, _, _, _) => Some(op)
         case Started(op, _, _, _, _) => Some(op)
         case Reconciled(op, _, _, observation) => if observation == Unknown then Some(op) else None
         case _ => None
  {
    var front := events[..|events| - 1];
    if i < |front| {
      assert front[i] == events[i] && forall j :: i < j < |front| ==> front[j] == events[j];
      CurrentIsOfLast(front, i);
    }
  }

  predicate Spawns(e: Event, w: Worker) {
    && e.sessionScoped && e.eventId == w.spawnEventId
    && e.body == SpawnRequested(w.operationId, w.workerId, w.workerNonce, w.descriptorHash, w.graph, w.repositoryId)
  }

  predicate Starts(e: Event, op: string) {
    e.sessionScoped && e.body.Started? && e.body.operationId == op
  }

  predicate HasStart(events: seq<Event>, op: string) {
    exists i :: 0 <= i < |events| && Starts(events[i], op)
  }

  /** Every record stands for a spawn in the log, and has a start event exactly when the log has one for it. */
  lemma {:induction false} RecordsAreOfEvents(events: seq<Event>)
    requires Project(events).Ok?
    ensures forall op :: HasStart(events, op) ==> op in Project(events).value.workers
    ensures forall op :: op in Project(events).value.workers ==>
      && (exists i :: 0 <= i < |events| && Spawns(events[i], Project(events).value.workers[op]))
      && (Project(events).value.workers[op].startedEventId.Some? <==> HasStart(events, op))
  {
    if events != [] {
      var front, last := events[..|events| - 1], events[|events| - 1];
      var p, p' := Project(front).value, Project(events).value;
      RecordsAreOfEvents(front);
      forall op ensures HasStart(events, op) <==> HasStart(front, op) || Starts(last, op) { OneMoreStart(events, op); }
      assert Step(p, last) == Ok(p');
      hide Project, HasStart;
      forall op | op in p'.workers
        ensures exists i :: 0 <= i < |events| && Spawns(events[i], p'.workers[op])
        ensures p'.workers[op].startedEventId.Some? <==> HasStart(front, op) || Starts(last, op)
      {
        RecordAfter(p, last, op);
        if op in p.workers {
          var i :| 0 <= i < |front| && Spawns(front[i], p.workers[op]);
          assert events[i] == front[i];
        } else {
          assert events[|events| - 1] == last;
        }
      }
      StartIsKnown(p, last);
    }
  }

  lemma OneMoreStart(events: seq<Event>, op: string)
    requires events != []
    ensures HasStart(events, op) <==> HasStart(events[..|events| - 1], op) || Starts(events[|events| - 1], op)
  {
    var front := events[..|events| - 1];
    if HasStart(front, op) {
      var i :| 0 <= i < |front| && Starts(front[i], op);
      assert events[i] == front[i];
    }
    if HasStart(events, op) {
      var i :| 0 <= i < |events| && Starts(events[i], op);
      if i < |front| { assert front[i] == events[i]; }
    }
  }

  lemma StartIsKnown(p: Projection, e: Event)
    requires Step(p, e).Ok?
    ensures forall op :: op in p.workers || Starts(e, op) ==> op in Step(p, e).value.workers
  {
  }

  lemma RecordAfter(p: Projection, e: Event, op: string)
    requires Step(p, e).Ok? && op in Step(p, e).value.workers
    ensures
      var w := Step(p, e).value.workers[op];
      if op in p.workers then
        && w.startedEventId.Some? == (p.workers[op].startedEventId.Some? || Starts(e, op))
        && forall spawn :: Spawns(spawn, p.workers[op]) ==> Spawns(spawn, w)
      else Spawns(e, w) && w.startedEventId == None && !Starts(e, op)
  {
  }

  /** What the events about one operation leave in its record. */
  datatype Facts = Facts(startedEventId: Option<string>, terminal: Option<TerminalFact>, controls: seq<string>)

  function AfterEvent(f: Facts, e: Event, op: string): Facts {
    if !e.sessionScoped then f
    else
      match e.body
      case Started(o, _, _, _, _) => if o == op then f.(startedEventId := Some(e.eventId)) else f
      case WorkerTerminal(o, _, _, status, clean, receipt) =>
        if o == op then f.(terminal := Some(TerminalFact(e.eventId, status, clean, receipt))) else f
      case ControlAccepted(o, _, _, request) => if o == op then f.(controls := f.controls + [request]) else f
      case _ => f
  }

  function FactsOf(events: seq<Event>, op: string): Facts {
    if events == [] then Facts(None, None, [])
    else AfterEvent(FactsOf(events[..|events| - 1], op), events[|events| - 1], op)
  }

  /** The start, the end and the controls of a record are those that the log has for its operation. */
  lemma {:induction false} FactsAreOfEvents(events: seq<Event>, op: string)
    requires Project(events).Ok?
    ensures
      var workers := Project(events).value.workers;
      if op in workers then
        Facts(workers[op].startedEventId, workers[op].terminal, workers[op].acceptedControlIds) == FactsOf(events, op)
      else FactsOf(events, op) == Facts(None, None, [])
  {
    if events != [] {
      var front, last := events[..|events| - 1], events[|events| - 1];
      FactsAreOfEvents(front, op);
      assert Step(Project(front).value, last) == Project(events);
      hide Project;
      FactsAfter(Project(front).value, last, op);
    }
  }

  lemma FactsAfter(p: Projection, e: Event, op: string)
    requires Step(p, e).Ok?
    ensures
      var p' := Step(p, e).value;
      && (op in p.workers ==>
           && op in p'.workers
           && Facts(p'.workers[op].startedEventId, p'.workers[op].terminal, p'.workers[op].acceptedControlIds)
              == AfterEvent(Facts(p.workers[op].startedEventId, p.workers[op].terminal,
                                  p.workers[op].acceptedControlIds), e, op))
      && (op !in p.workers ==> AfterEvent(Facts(None, None, []), e, op) == Facts(None, None, []))
      && (op !in p.workers && op in p'.workers ==>
           && p'.workers[op].startedEventId == None && p'.workers[op].terminal == None
           && p'.workers[op].acceptedControlIds == [])
  {
  }
}
