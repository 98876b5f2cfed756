/**
 Replay of a session log: which artifacts it stored, what they cost, and which of them a later
 reader may see. A content hash is injective, so the content itself serves as the artifact's name.
 */
module SessionLedger {
  import opened Wrappers
  import opened Utf8
  import opened Sums
  import opened ArtifactStores

  type EventId = string
  type SessionId = string
  type ArtifactId = Bytes

  datatype MediaType = Plain | Markdown

  datatype Reason = ArtifactLimit | RunBudget | SessionBudget

  datatype StoredData = StoredData(
    artifactId: ArtifactId,
    bytes: nat,
    status: CaptureStatus,
    truncated: bool,
    media: MediaType,
    objectSession: SessionId,
    originEventId: EventId)

  datatype TruncatedData = TruncatedData(artifactId: Option<ArtifactId>, capturedBytes: nat, limitBytes: nat,
                                         reason: Reason)

  /** The binding that an origin event carries for the artifact it stands for. */
  datatype Binding = Binding(artifactId: ArtifactId, bytes: nat, objectSession: SessionId)

  /** The event types that matter to the ledger; several source types share a constructor. */
  datatype Body =
    | Stored(stored: StoredData)
    | CaptureTruncated(cut: TruncatedData)
    /** Tool, skill, hook and MCP requests, adopted calls, and created patch plans. */
    | EarlierOrigin
    /** Skill resources and MCP catalogs, which name the artifact afterwards. */
    | LaterBinding(boundArtifactId: Option<ArtifactId>)
    | RunStarted(capability: Option<Binding>)
    | RulesLoaded(loaded: bool, rules: Option<Binding>)
    | ManifestLoaded(manifest: Option<Binding>)
    | OtherBody

  /** `run` is present exactly for run-scoped events. */
  datatype Event = Event(eventId: EventId, sessionId: SessionId, seqNo: int, run: Option<RunId>, body: Body)

  datatype LedgerError =
    BudgetExceeded | EventInvalid | EventSequence | IdentityConflict | OriginInvalid | SessionMismatch
    | TruncationInvalid

  datatype StoredFact = StoredFact(
    authorized: bool,
    artifactId: ArtifactId,
    bytes: nat,
    status: CaptureStatus,
    truncated: bool,
    media: MediaType,
    eventId: EventId,
    run: RunId,
    seqNo: int)

  datatype ObjectFact = ObjectFact(
    bytes: nat,
    referenceCount: nat,
    authorizedCount: nat,
    firstSeq: int,
    lastSeq: int,
    runs: set<RunId>,
    mediaTypes: set<MediaType>,
    authorizedMedia: set<MediaType>,
    wasTruncated: bool)

  /** What a later reader may follow. */
  datatype Reference = Reference(artifactId: ArtifactId, bytes: nat, media: MediaType)

  /** `order` lists the objects as they were first stored. */
  datatype Ledger = Ledger(
    objects: map<ArtifactId, ObjectFact>,
    order: seq<ArtifactId>,
    runBytes: map<RunId, nat>,
    lastStored: map<RunId, StoredFact>,
    stored: seq<StoredFact>,
    authorizedCount: nat,
    orphanedCount: nat,
    sessionBytes: nat,
    truncatedCount: nat)

  const EMPTY := Ledger(map[], [], map[], map[], [], 0, 0, 0, 0)

  predicate StoredSchema(d: StoredData) {
    d.bytes <= MAX_ARTIFACT_CAPTURE_BYTES && d.status != BudgetExhausted && (d.status == Complete) != d.truncated
  }

  predicate TruncatedSchema(d: TruncatedData) {
    d.capturedBytes <= d.limitBytes <= MAX_ARTIFACT_CAPTURE_BYTES
  }

  function ReasonOf(status: CaptureStatus): Option<Reason> {
    match status
    case TruncatedArtifactLimit => Some(ArtifactLimit)
    case TruncatedRunBudget => Some(RunBudget)
    case TruncatedSessionBudget => Some(SessionBudget)
    case _ => None
  }

  function ById(events: seq<Event>): map<EventId, Event> {
    if events == [] then map[]
    else ById(events[..|events| - 1])[events[|events| - 1].eventId := events[|events| - 1]]
  }

  /** Whether the log grants read authority for a stored artifact, given all of its events. */
  function OriginAuthority(e: Event, run: RunId, d: StoredData, byId: map<EventId, Event>): Result<bool, LedgerError> {
    if d.originEventId !in byId then Ok(false)
    else
      var origin := byId[d.originEventId];
      var named := Some(Binding(d.artifactId, d.bytes, d.objectSession));
      if origin.run != Some(run) then Err(OriginInvalid)
      else match origin.body
        case EarlierOrigin => if origin.seqNo >= e.seqNo then Err(OriginInvalid) else Ok(true)
        case LaterBinding(bound) =>
          if origin.seqNo <= e.seqNo || bound != Some(d.artifactId) then Err(OriginInvalid) else Ok(true)
        case RunStarted(capability) =>
          if origin.seqNo >= e.seqNo || capability != named || d.media != Plain then Err(OriginInvalid) else Ok(true)
        case RulesLoaded(loaded, rules) =>
          if origin.seqNo <= e.seqNo || !loaded || rules != named then Err(OriginInvalid) else Ok(true)
        case ManifestLoaded(manifest) =>
          if || origin.seqNo <= e.seqNo
             || (d.media == Plain && (manifest.None? || manifest.value.artifactId != d.artifactId
                                      || manifest.value.objectSession != d.objectSession))
          then Err(OriginInvalid) else Ok(true)
        case _ => Err(OriginInvalid)
  }

  function FactOf(e: Event, run: RunId, d: StoredData, authorized: bool): StoredFact {
    StoredFact(authorized, d.artifactId, d.bytes, d.status, d.truncated, d.media, e.eventId, run, e.seqNo)
  }

  function One(b: bool): nat {
    if b then 1 else 0
  }

  function AddReference(objects: map<ArtifactId, ObjectFact>, e: Event, run: RunId, d: StoredData, authorized: bool)
    : map<ArtifactId, ObjectFact>
  {
    if d.artifactId in objects then
      var o := objects[d.artifactId];
      objects[d.artifactId := ObjectFact(o.bytes, o.referenceCount + 1, o.authorizedCount + One(authorized),
                                         o.firstSeq, e.seqNo, o.runs + {run}, o.mediaTypes + {d.media},
                                         o.authorizedMedia + Granted(d.media, authorized),
                                         o.wasTruncated || d.truncated)]
    else
      objects[d.artifactId := ObjectFact(d.bytes, 1, One(authorized), e.seqNo, e.seqNo, {run}, {d.media},
                                         Granted(d.media, authorized), d.truncated)]
  }

  function Granted(media: MediaType, authorized: bool): set<MediaType> {
    if authorized then {media} else {}
  }

  function CanonicalMedia(types: set<MediaType>): MediaType {
    if Plain in types then Plain else Markdown
  }

  /** The reference to an object, if some stored reference to it is authorized. */
  function ReferenceTo(objects: map<ArtifactId, ObjectFact>, id: ArtifactId): seq<Reference> {
    if id in objects && objects[id].authorizedCount > 0
    then [Reference(id, objects[id].bytes, CanonicalMedia(objects[id].authorizedMedia))] else []
  }

  function References(order: seq<ArtifactId>, objects: map<ArtifactId, ObjectFact>): seq<Reference> {
    if order == [] then [] else References(order[..|order| - 1], objects) + ReferenceTo(objects, order[|order| - 1])
  }

  /** The books after one more stored reference. */
  function AfterStored(l: Ledger, e: Event, run: RunId, d: StoredData, authorized: bool): Ledger {
    var fact := FactOf(e, run, d, authorized);
    Ledger(
      AddReference(l.objects, e, run, d, authorized),
      if d.artifactId in l.objects then l.order else l.order + [d.artifactId],
      l.runBytes[run := At(l.runBytes, run) + d.bytes],
      l.lastStored[run := fact],
      l.stored + [fact],
      l.authorizedCount + One(authorized),
      l.orphanedCount + One(!authorized),
      l.sessionBytes + d.bytes,
      l.truncatedCount)
  }

  function StepStored(l: Ledger, e: Event, run: RunId, d: StoredData, byId: map<EventId, Event>, session: SessionId)
    : Result<Ledger, LedgerError>
  {
    if !StoredSchema(d) then Err(EventInvalid)
    else if d.objectSession != session then Err(SessionMismatch)
    else
      var authority := OriginAuthority(e, run, d, byId);
      if authority.Err? then Err(authority.error)
      else if d.artifactId in l.objects && l.objects[d.artifactId].bytes != d.bytes then Err(IdentityConflict)
      else if l.sessionBytes + d.bytes > DEFAULT_SESSION_ARTIFACT_BYTES
              || At(l.runBytes, run) + d.bytes > DEFAULT_RUN_ARTIFACT_BYTES then Err(BudgetExceeded)
      else Ok(AfterStored(l, e, run, d, authority.value))
  }

  predicate PairsWith(fact: StoredFact, d: TruncatedData) {
    d.artifactId == Some(fact.artifactId) && fact.bytes == d.capturedBytes && ReasonOf(fact.status) == Some(d.reason)
  }

  function StepTruncated(l: Ledger, run: RunId, d: TruncatedData): Result<Ledger, LedgerError> {
    if !TruncatedSchema(d) then Err(EventInvalid)
    else if d.artifactId.None? && (d.capturedBytes != 0 || d.limitBytes != 0) then Err(TruncationInvalid)
    else if d.artifactId.Some? && (run !in l.lastStored || !PairsWith(l.lastStored[run], d)) then Err(TruncationInvalid)
    else Ok(l.(truncatedCount := l.truncatedCount + 1))
  }

  function Step(l: Ledger, e: Event, byId: map<EventId, Event>, session: SessionId): Result<Ledger, LedgerError> {
    match e.body
    case Stored(d) => if e.run.None? then Err(EventInvalid) else StepStored(l, e, e.run.value, d, byId, session)
    case CaptureTruncated(d) => if e.run.None? then Err(EventInvalid) else StepTruncated(l, e.run.value, d)
    case _ => Ok(l)
  }

  function Replay(events: seq<Event>, byId: map<EventId, Event>, session: SessionId): Result<Ledger, LedgerError> {
    if events == [] then Ok(EMPTY)
    else
      var before := Replay(events[..|events| - 1], byId, session);
      if before.Err? then before else Step(before.value, events[|events| - 1], byId, session)
  }

  /** The events belong to the session, with rising numbers and fresh identities. */
  predicate InOrder(events: seq<Event>, session: SessionId) {
    && (forall i :: 0 <= i < |events| ==> events[i].sessionId == session && events[i].seqNo > 0)
    && (forall i, j :: 0 <= i < j < |events| ==>
       events[i].seqNo < events[j].seqNo && events[i].eventId != events[j].eventId)
  }

  /** The result of replaying a log whose order is right. */
  function LedgerOf(events: seq<Event>, session: SessionId): Result<Ledger, LedgerError> {
    Replay(events, ById(events), session)
  }

  /** Checks the order of the log and indexes it by identity. */
  method IndexEvents(events: seq<Event>, session: SessionId) returns (r: Result<map<EventId, Event>, LedgerError>)
    ensures r.Ok? <==> InOrder(events, session)
    ensures r.Ok? ==> r.value == ById(events)
    ensures r.Err? ==> r.error in {SessionMismatch, EventSequence}
  {
    hide InOrder;
    InOrderPrefix(events, 0, session);
    var byId: map<EventId, Event> := map[];
    var seen: set<EventId> := {};
    var previous := 0;
    for i := 0 to |events|
      invariant InOrder(events[..i], session)
      invariant previous == if i == 0 then 0 else events[i - 1].seqNo
      invariant previous >= 0
      invariant forall j :: 0 <= j < i ==> events[j].seqNo <= previous
      invariant seen == set j | 0 <= j < i :: events[j].eventId
      invariant byId == ById(events[..i])
    {
      var event := events[i];
      InOrderPrefix(events, i + 1, session);
      if event.sessionId != session { return Err(SessionMismatch); }
      if event.seqNo <= previous || event.eventId in seen { return Err(EventSequence); }
      assert events[..i + 1][..i] == events[..i];
      previous, seen, byId := event.seqNo, seen + {event.eventId}, byId[event.eventId := event];
    }
    assert events[..|events|] == events;
    return Ok(byId);
  }

  /** A longer prefix is in order when its last event comes after all the others. */
  lemma InOrderPrefix(events: seq<Event>, i: nat, session: SessionId)
    requires i <= |events|
    ensures InOrder([], session)
    ensures InOrder(events, session) ==> InOrder(events[..i], session)
    ensures i > 0 ==>
      (InOrder(events[..i], session) <==>
         && InOrder(events[..i - 1], session)
         && events[i - 1].sessionId == session && events[i - 1].seqNo > 0
         && forall j :: 0 <= j < i - 1 ==>
            events[j].seqNo < events[i - 1].seqNo && events[j].eventId != events[i - 1].eventId)
  {
    if i > 0 {
      assert events[..i][..i - 1] == events[..i - 1];
      assert events[..i][i - 1] == events[i - 1];
      assert forall j :: 0 <= j < i ==> events[..i][j] == events[j];
      assert forall j :: 0 <= j < i - 1 ==> events[..i - 1][j] == events[j];
    }
  }

  /** The facts of one object, changed in place by every further reference to it. */
  class MutableObjectFact {
    const bytes: nat
    const firstSeq: int
    var referenceCount: nat
    var authorizedCount: nat
    var lastSeq: int
    var runs: set<RunId>
    var mediaTypes: set<MediaType>
    var authorizedMedia: set<MediaType>
    var wasTruncated: bool

    constructor (e: Event, run: RunId, d: StoredData, authorized: bool)
      ensures Frozen() == ObjectFact(d.bytes, 1, One(authorized), e.seqNo, e.seqNo, {run}, {d.media},
        Granted(d.media, authorized), d.truncated)
    {
      this.bytes, this.firstSeq, this.lastSeq, this.referenceCount := d.bytes, e.seqNo, e.seqNo, 1;
      this.authorizedCount := if authorized then 1 else 0;
      this.runs, this.mediaTypes := {run}, {d.media};
      this.authorizedMedia := if authorized then {d.media} else {};
      this.wasTruncated := d.truncated;
    }

    function Frozen(): ObjectFact
      reads this
    {
      ObjectFact(bytes, referenceCount, authorizedCount, firstSeq, lastSeq, runs, mediaTypes, authorizedMedia,
        wasTruncated)
    }

    method AddReference(e: Event, run: RunId, d: StoredData, authorized: bool)
      modifies this
      ensures Frozen() == old(Frozen()).(
        referenceCount := old(referenceCount) + 1, authorizedCount := old(authorizedCount) + One(authorized),
        lastSeq := e.seqNo,
        runs := old(runs) + {run}, mediaTypes := old(mediaTypes) + {d.media},
        authorizedMedia := old(authorizedMedia) + Granted(d.media, authorized),
        wasTruncated := old(wasTruncated) || d.truncated)
    {
      if authorized {
        authorizedMedia := authorizedMedia + {d.media};
        authorizedCount := authorizedCount + 1;
      }
      lastSeq := e.seqNo;
      mediaTypes := mediaTypes + {d.media};
      referenceCount := referenceCount + 1;
      runs := runs + {run};
      wasTruncated := wasTruncated || d.truncated;
    }
  }

  /** The mutable facts, no two of them shared, hold the facts of the ledger. */
  ghost predicate Represents(facts: map<ArtifactId, MutableObjectFact>, objects: map<ArtifactId, ObjectFact>)
    reads facts.Values
  {
    && (forall id :: id in facts <==> id in objects)
    && (forall id :: id in facts ==> facts[id].Frozen() == objects[id])
    && (forall a, b :: a in facts && b in facts && a != b ==> facts[a] != facts[b])
  }

  lemma SameObjects(facts: map<ArtifactId, MutableObjectFact>, objects: map<ArtifactId, ObjectFact>)
    requires Represents(facts, objects)
    ensures forall id :: id in facts <==> id in objects
    ensures forall id :: id in facts ==> facts[id].Frozen() == objects[id]
  {
  }

  lemma NoFacts()
    ensures Represents(map[], map[])
  {
  }

  /** One more reference: to an object that is known, or to a new one. */
  method AddToFacts(facts: map<ArtifactId, MutableObjectFact>, e: Event, run: RunId, d: StoredData, authorized: bool,
                    ghost objects: map<ArtifactId, ObjectFact>)
    returns (facts': map<ArtifactId, MutableObjectFact>)
    requires Represents(facts, objects)
    modifies facts.Values
    ensures forall id :: id in facts' ==> fresh(facts'[id]) || (id in facts && facts'[id] == facts[id])
    ensures Represents(facts', AddReference(objects, e, run, d, authorized))
  {
    facts' := facts;
    if d.artifactId in facts {
      facts[d.artifactId].AddReference(e, run, d, authorized);
    } else {
      var fact := new MutableObjectFact(e, run, d, authorized);
      facts' := facts[d.artifactId := fact];
    }
  }

  /** What refuses a stored event, or whether its origin grants authority. */
  method CheckStored(facts: map<ArtifactId, MutableObjectFact>, runBytes: map<RunId, nat>, sessionBytes: nat,
                     e: Event, run: RunId, d: StoredData, byId: map<EventId, Event>, session: SessionId,
                     ghost l: Ledger)
    returns (r: Result<bool, LedgerError>)
    requires Represents(facts, l.objects) && runBytes == l.runBytes && sessionBytes == l.sessionBytes
    ensures r.Err? ==> StepStored(l, e, run, d, byId, session) == Err(r.error)
    ensures r.Ok? ==> StepStored(l, e, run, d, byId, session) == Ok(AfterStored(l, e, run, d, r.value))
  {
    hide OriginAuthority, AfterStored;
    if !StoredSchema(d) { return Err(EventInvalid); }
    if d.objectSession != session { return Err(SessionMismatch); }
    var authority := OriginAuthority(e, run, d, byId);
    if authority.Err? { return authority; }
    assert d.artifactId in facts ==> facts[d.artifactId].bytes == facts[d.artifactId].Frozen().bytes;
    if d.artifactId in facts && facts[d.artifactId].bytes != d.bytes { return Err(IdentityConflict); }
    if sessionBytes + d.bytes > DEFAULT_SESSION_ARTIFACT_BYTES
       || At(runBytes, run) + d.bytes > DEFAULT_RUN_ARTIFACT_BYTES
    {
      return Err(BudgetExceeded);
    }
    return authority;
  }

  /** Replays the log event by event, and collects the references that a later reader may follow. */
  method ReconstructArtifactSessionLedger(events: seq<Event>, session: SessionId)
    returns (r: Result<Ledger, LedgerError>, references: seq<Reference>)
    ensures InOrder(events, session) ==> r == LedgerOf(events, session)
    ensures !InOrder(events, session) ==> r.Err? && r.error in {SessionMismatch, EventSequence}
    ensures r.Ok? ==> references == References(r.value.order, r.value.objects)
  {
    hide OriginAuthority, AddReference, InOrder, Replay, ById, References, ReferenceTo, CanonicalMedia, StepStored,
      Represents, PairsWith, TruncatedSchema, FactOf, At, MutableObjectFact.Frozen;
    r, references := Err(EventInvalid), [];
    var index := IndexEvents(events, session);
    if index.Err? { r := Err(index.error); return; }
    var byId := index.value;
    var facts: map<ArtifactId, MutableObjectFact> := map[];
    var order: seq<ArtifactId>, stored: seq<StoredFact> := [], [];
    var runBytes: map<RunId, nat>, lastStored: map<RunId, StoredFact> := map[], map[];
    var authorizedCount: nat, orphanedCount: nat, sessionBytes: nat, truncatedCount: nat := 0, 0, 0, 0;
    ghost var l := EMPTY;
    NothingReplayed(events, byId, session);
    NoFacts();
    for i := 0 to |events|
      invariant Replay(events[..i], byId, session) == Ok(l)
      invariant l == Ledger(l.objects, order, runBytes, lastStored, stored, authorizedCount, orphanedCount,
        sessionBytes, truncatedCount)
      invariant forall id :: id in facts ==> fresh(facts[id])
      invariant Represents(facts, l.objects)
    {
      var event := events[i];
      OneMoreEvent(events, i, byId, session, l);
      if event.body.Stored? {
        if event.run.None? { return; }
        var run, data := event.run.value, event.body.stored;
        var authority := CheckStored(facts, runBytes, sessionBytes, event, run, data, byId, session, l);
        if authority.Err? { r := Err(authority.error); return; }
        var fact := FactOf(event, run, data, authority.value);
        sessionBytes := sessionBytes + data.bytes;
        runBytes := runBytes[run := At(runBytes, run) + data.bytes];
        stored := stored + [fact];
        if authority.value { authorizedCount := authorizedCount + 1; } else { orphanedCount := orphanedCount + 1; }
        lastStored := lastStored[run := fact];
        SameObjects(facts, l.objects);
        if data.artifactId !in facts { order := order + [data.artifactId]; }
        facts := AddToFacts(facts, event, run, data, authority.value, l.objects);
        l := AfterStored(l, event, run, data, authority.value);
      } else if event.body.CaptureTruncated? {
        if event.run.None? { return; }
        var run, data := event.run.value, event.body.cut;
        if !TruncatedSchema(data) { return; }
        truncatedCount := truncatedCount + 1;
        if data.artifactId.None? {
          if data.capturedBytes != 0 || data.limitBytes != 0 { r := Err(TruncationInvalid); return; }
        } else if run !in lastStored || !PairsWith(lastStored[run], data) {
          r := Err(TruncationInvalid);
          return;
        }
        l := Step(l, event, byId, session).value;
      }
    }
    assert events[..|events|] == events;
    var objects := map id | id in facts :: facts[id].Frozen();
    SameObjects(facts, l.objects);
    assert objects == l.objects;
    references := ListReferences(order, objects);
    r := Ok(Ledger(objects, order, runBytes, lastStored, stored, authorizedCount, orphanedCount, sessionBytes,
      truncatedCount));
  }

  /** The authorized objects in the order in which they were first stored. */
  method ListReferences(order: seq<ArtifactId>, objects: map<ArtifactId, ObjectFact>)
    returns (references: seq<Reference>)
    ensures references == References(order, objects)
  {
    references := [];
    for i := 0 to |order|
      invariant references == References(order[..i], objects)
    {
      assert order[..i + 1][..i] == order[..i];
      references := references + ReferenceTo(objects, order[i]);
    }
    assert order[..|order|] == order;
  }

  lemma NothingReplayed(events: seq<Event>, byId: map<EventId, Event>, session: SessionId)
    ensures Replay(events[..0], byId, session) == Ok(EMPTY)
  {
  }

  /** What the next event does to the replay; a failure is the result of the whole log. */
  lemma OneMoreEvent(events: seq<Event>, i: nat, byId: map<EventId, Event>, session: SessionId, l: Ledger)
    requires i < |events| && Replay(events[..i], byId, session) == Ok(l)
    ensures Replay(events[..i + 1], byId, session) == Step(l, events[i], byId, session)
    ensures Step(l, events[i], byId, session).Err? ==>
      Replay(events, byId, session) == Step(l, events[i], byId, session)
  {
    hide Step;
    assert events[..i + 1][..i] == events[..i];
    if Step(l, events[i], byId, session).Err? { ErrorStays(events, i + 1, byId, session); }
  }

  lemma {:induction false} ErrorStays(events: seq<Event>, i: nat, byId: map<EventId, Event>, session: SessionId)
    requires i <= |events| && Replay(events[..i], byId, session).Err?
    ensures Replay(events, byId, session) == Replay(events[..i], byId, session)
  {
    if i < |events| {
      assert events[..|events| - 1][..i] == events[..i];
      ErrorStays(events[..|events| - 1], i, byId, session);
    } else {
      assert events[..i] == events;
    }
  }

  // ---------- conservation ----------

  ghost function BytesOf(facts: seq<StoredFact>): nat {
    if facts == [] then 0 else BytesOf(facts[..|facts| - 1]) + facts[|facts| - 1].bytes
  }

  ghost function BytesOfRun(facts: seq<StoredFact>, run: RunId): nat {
    if facts == [] then 0
    else BytesOfRun(facts[..|facts| - 1], run) + (if facts[|facts| - 1].run == run then facts[|facts| - 1].bytes else 0)
  }

  ghost function AuthorizedIn(facts: seq<StoredFact>): nat {
    if facts == [] then 0 else AuthorizedIn(facts[..|facts| - 1]) + One(facts[|facts| - 1].authorized)
  }

  /** The facts of one object. */
  ghost function FactsOf(facts: seq<StoredFact>, id: ArtifactId): seq<StoredFact> {
    if facts == [] then []
    else FactsOf(facts[..|facts| - 1], id) + (if facts[|facts| - 1].artifactId == id then [facts[|facts| - 1]] else [])
  }

  ghost function ReferenceCounts(objects: map<ArtifactId, ObjectFact>): map<ArtifactId, nat> {
    map id | id in objects :: objects[id].referenceCount
  }

  ghost function ObjectBytes(objects: map<ArtifactId, ObjectFact>): map<ArtifactId, nat> {
    map id | id in objects :: objects[id].bytes
  }

  /** Some reference is to a capture that was cut. */
  predicate WasCut(facts: seq<StoredFact>) {
    exists i :: 0 <= i < |facts| && facts[i].truncated
  }

  /** What is known about one object agrees with its stored references. */
  ghost predicate ObjectAgrees(o: ObjectFact, facts: seq<StoredFact>) {
    && facts != [] && o.referenceCount == |facts| && o.authorizedCount == AuthorizedIn(facts)
    && o.firstSeq == facts[0].seqNo && o.lastSeq == facts[|facts| - 1].seqNo
    && (forall i :: 0 <= i < |facts| ==> facts[i].bytes == o.bytes)
    && o.runs == (set i | 0 <= i < |facts| :: facts[i].run)
    && o.mediaTypes == (set i | 0 <= i < |facts| :: facts[i].media)
    && o.authorizedMedia == (set i | 0 <= i < |facts| && facts[i].authorized :: facts[i].media)
    && (o.wasTruncated <==> WasCut(facts))
  }

  ghost predicate BytesBalanced(l: Ledger) {
    && l.sessionBytes == BytesOf(l.stored) == Sum(l.runBytes)
    && l.sessionBytes <= DEFAULT_SESSION_ARTIFACT_BYTES
    && (forall run :: At(l.runBytes, run) == BytesOfRun(l.stored, run) <= DEFAULT_RUN_ARTIFACT_BYTES)
  }

  ghost predicate ReferencesBalanced(l: Ledger) {
    && l.authorizedCount == AuthorizedIn(l.stored)
    && l.authorizedCount + l.orphanedCount == |l.stored| == Sum(ReferenceCounts(l.objects))
    && Sum(ObjectBytes(l.objects)) <= l.sessionBytes
  }

  ghost predicate ObjectsBalanced(l: Ledger) {
    && (forall id :: id in l.objects <==> FactsOf(l.stored, id) != [])
    && (forall id :: id in l.objects ==> ObjectAgrees(l.objects[id], FactsOf(l.stored, id)))
  }

  /** Every byte and every reference is counted once, on each side of the books. */
  ghost predicate Balanced(l: Ledger) {
    BytesBalanced(l) && ReferencesBalanced(l) && ObjectsBalanced(l)
  }

  /** Every accepted log has balanced books. */
  lemma {:induction false} LedgerIsBalanced(events: seq<Event>, byId: map<EventId, Event>, session: SessionId)
    requires Replay(events, byId, session).Ok?
    ensures Balanced(Replay(events, byId, session).value)
  {
    if events != [] {
      var before := Replay(events[..|events| - 1], byId, session).value;
      LedgerIsBalanced(events[..|events| - 1], byId, session);
      StepKeepsBalance(before, events[|events| - 1], byId, session);
    } else {
      assert ReferenceCounts(EMPTY.objects) == map[] && ObjectBytes(EMPTY.objects) == map[];
    }
  }

  lemma StepKeepsBalance(l: Ledger, e: Event, byId: map<EventId, Event>, session: SessionId)
    requires Balanced(l) && Step(l, e, byId, session).Ok?
    ensures Balanced(Step(l, e, byId, session).value)
  {
    if e.body.Stored? {
      var run, d := e.run.value, e.body.stored;
      var authorized := OriginAuthority(e, run, d, byId).value;
      BytesAfter(l, e, run, d, byId, session);
      ReferencesAfter(l, e, run, d, byId, session);
      ObjectsAfter(l, e, run, d, byId, session);
    }
  }

  lemma Appended(l: Ledger, e: Event, run: RunId, d: StoredData, byId: map<EventId, Event>, session: SessionId)
    requires StepStored(l, e, run, d, byId, session).Ok?
    ensures
      var stored := StepStored(l, e, run, d, byId, session).value.stored;
      |stored| == |l.stored| + 1 && stored[..|stored| - 1] == l.stored
  {
  }

  lemma BytesAfter(l: Ledger, e: Event, run: RunId, d: StoredData, byId: map<EventId, Event>, session: SessionId)
    requires BytesBalanced(l) && StepStored(l, e, run, d, byId, session).Ok?
    ensures BytesBalanced(StepStored(l, e, run, d, byId, session).value)
  {
    hide OriginAuthority, AddReference, Sum;
    Appended(l, e, run, d, byId, session);
    SumUpdate(l.runBytes, run, At(l.runBytes, run) + d.bytes);
    var after := StepStored(l, e, run, d, byId, session).value;
    assert after.sessionBytes == BytesOf(after.stored) == Sum(after.runBytes);
    forall r ensures At(after.runBytes, r) == BytesOfRun(after.stored, r) <= DEFAULT_RUN_ARTIFACT_BYTES {
      assert At(l.runBytes, r) == BytesOfRun(l.stored, r);
    }
  }

  lemma ReferencesAfter(l: Ledger, e: Event, run: RunId, d: StoredData, byId: map<EventId, Event>, session: SessionId)
    requires ReferencesBalanced(l) && StepStored(l, e, run, d, byId, session).Ok?
    ensures ReferencesBalanced(StepStored(l, e, run, d, byId, session).value)
  {
    hide OriginAuthority, AddReference, Sum, ReferenceCounts, ObjectBytes;
    Appended(l, e, run, d, byId, session);
    CountsAfter(l, e, run, d, OriginAuthority(e, run, d, byId).value);
    var after := StepStored(l, e, run, d, byId, session).value;
    assert after.authorizedCount == AuthorizedIn(after.stored);
    assert after.authorizedCount + after.orphanedCount == |after.stored|;
    assert |after.stored| == Sum(ReferenceCounts(after.objects));
    assert Sum(ObjectBytes(after.objects)) <= after.sessionBytes;
  }

  lemma ObjectsAfter(l: Ledger, e: Event, run: RunId, d: StoredData, byId: map<EventId, Event>, session: SessionId)
    requires ObjectsBalanced(l) && StepStored(l, e, run, d, byId, session).Ok?
    ensures ObjectsBalanced(StepStored(l, e, run, d, byId, session).value)
  {
    hide OriginAuthority, ObjectAgrees, FactsOf;
    var authorized := OriginAuthority(e, run, d, byId).value;
    var after := StepStored(l, e, run, d, byId, session).value;
    ObjectAfter(l, e, run, d, authorized);
    forall id
      ensures id in after.objects <==> FactsOf(after.stored, id) != []
      ensures id in after.objects ==> ObjectAgrees(after.objects[id], FactsOf(after.stored, id))
    {
      FactsAfter(l.stored, FactOf(e, run, d, authorized), id);
    }
  }

  lemma FactsAfter(facts: seq<StoredFact>, fact: StoredFact, id: ArtifactId)
    ensures FactsOf(facts + [fact], id) == if id == fact.artifactId then FactsOf(facts, id) + [fact]
      else FactsOf(facts, id)
  {
  }

  lemma CountsAfter(l: Ledger, e: Event, run: RunId, d: StoredData, authorized: bool)
    requires d.artifactId in l.objects ==> l.objects[d.artifactId].bytes == d.bytes
    ensures
      var objects := AddReference(l.objects, e, run, d, authorized);
      && Sum(ReferenceCounts(objects)) == Sum(ReferenceCounts(l.objects)) + 1
      && Sum(ObjectBytes(objects)) <= Sum(ObjectBytes(l.objects)) + d.bytes
  {
    var objects := AddReference(l.objects, e, run, d, authorized);
    var id := d.artifactId;
    SumUpdate(ReferenceCounts(l.objects), id, objects[id].referenceCount);
    SumUpdate(ObjectBytes(l.objects), id, objects[id].bytes);
    assert ReferenceCounts(objects) == ReferenceCounts(l.objects)[id := objects[id].referenceCount];
    assert ObjectBytes(objects) == ObjectBytes(l.objects)[id := objects[id].bytes];
  }

  lemma ObjectAfter(l: Ledger, e: Event, run: RunId, d: StoredData, authorized: bool)
    requires d.artifactId in l.objects <==> FactsOf(l.stored, d.artifactId) != []
    requires d.artifactId in l.objects ==>
      l.objects[d.artifactId].bytes == d.bytes && ObjectAgrees(l.objects[d.artifactId], FactsOf(l.stored, d.artifactId))
    ensures
      var facts := FactsOf(l.stored, d.artifactId) + [FactOf(e, run, d, authorized)];
      ObjectAgrees(AddReference(l.objects, e, run, d, authorized)[d.artifactId], facts)
  {
    var earlier, fact := FactsOf(l.stored, d.artifactId), FactOf(e, run, d, authorized);
    var facts := earlier + [fact];
    assert facts[..|facts| - 1] == earlier;
    assert AuthorizedIn(facts) == AuthorizedIn(earlier) + One(authorized);
    SetsAfter(earlier, fact);
    CutAfter(earlier, fact);
  }

  lemma CutAfter(earlier: seq<StoredFact>, fact: StoredFact)
    ensures WasCut(earlier + [fact]) <==> WasCut(earlier) || fact.truncated
  {
    var facts := earlier + [fact];
    assert facts[|earlier|] == fact;
    assert forall i :: 0 <= i < |earlier| ==> facts[i] == earlier[i];
  }

  /** The runs and media types of one reference more. */
  lemma SetsAfter(earlier: seq<StoredFact>, fact: StoredFact)
    ensures
      var facts := earlier + [fact];
      && (set i | 0 <= i < |facts| :: facts[i].run) == (set i | 0 <= i < |earlier| :: earlier[i].run) + {fact.run}
      && (set i | 0 <= i < |facts| :: facts[i].media) == (set i | 0 <= i < |earlier| :: earlier[i].media) + {fact.media}
      && (set i | 0 <= i < |facts| && facts[i].authorized :: facts[i].media)
         == (set i | 0 <= i < |earlier| && earlier[i].authorized :: earlier[i].media)
            + Granted(fact.media, fact.authorized)
  {
    var facts := earlier + [fact];
    assert facts[|earlier|] == fact;
    assert forall i :: 0 <= i < |earlier| ==> facts[i] == earlier[i];
  }

  // ---------- what a later reader may follow ----------

  /** The order lists every object once. */
  ghost predicate IsOrder(order: seq<ArtifactId>, objects: map<ArtifactId, ObjectFact>) {
    && (forall i, j :: 0 <= i < j < |order| ==> order[i] != order[j])
    && forall id :: id in objects <==> id in order
  }

  lemma {:induction false} OrderIsComplete(events: seq<Event>, byId: map<EventId, Event>, session: SessionId)
    requires Replay(events, byId, session).Ok?
    ensures IsOrder(Replay(events, byId, session).value.order, Replay(events, byId, session).value.objects)
  {
    hide OriginAuthority;
    if events != [] { OrderIsComplete(events[..|events| - 1], byId, session); }
  }

  lemma {:induction false} ReferencesAt(order: seq<ArtifactId>, objects: map<ArtifactId, ObjectFact>)
    requires forall i, j :: 0 <= i < j < |order| ==> order[i] != order[j]
    ensures
      var refs := References(order, objects);
      && (forall r :: r in refs ==> r.artifactId in order && ReferenceTo(objects, r.artifactId) == [r])
      && (forall id :: id in order && ReferenceTo(objects, id) != [] ==> ReferenceTo(objects, id)[0] in refs)
      && (forall i, j :: 0 <= i < j < |refs| ==> refs[i].artifactId != refs[j].artifactId)
  {
    if order != [] {
      var front, last := order[..|order| - 1], order[|order| - 1];
      assert forall i :: 0 <= i < |front| ==> front[i] == order[i];
      assert last !in front && order == front + [last];
      ReferencesAt(front, objects);
      hide References, CanonicalMedia;
      var refs, more := References(front, objects), ReferenceTo(objects, last);
      assert References(order, objects) == refs + more by { ReferencesMore(order, objects); }
      assert more != [] ==> more[0].artifactId == last && ReferenceTo(objects, last) == [more[0]];
      assert forall r :: r in refs + more <==> r in refs || r in more;
      forall i, j | 0 <= i < j < |refs + more| ensures (refs + more)[i].artifactId != (refs + more)[j].artifactId {
        assert i < |refs| ==> refs[i] in refs;
      }
    }
  }

  lemma ReferencesMore(order: seq<ArtifactId>, objects: map<ArtifactId, ObjectFact>)
    requires order != []
    ensures References(order, objects) == References(order[..|order| - 1], objects)
      + ReferenceTo(objects, order[|order| - 1])
  {
  }

  /** An authorized stored reference to an object, of some media type. */
  predicate Grants(f: StoredFact, id: ArtifactId) {
    f.artifactId == id && f.authorized
  }

  lemma {:induction false} FactsMembers(facts: seq<StoredFact>, id: ArtifactId)
    ensures forall f :: f in FactsOf(facts, id) <==> f in facts && f.artifactId == id
  {
    if facts != [] {
      var front, last := facts[..|facts| - 1], facts[|facts| - 1];
      FactsMembers(front, id);
      assert facts == front + [last];
    }
  }

  lemma {:induction false} SomeAuthorized(facts: seq<StoredFact>)
    ensures AuthorizedIn(facts) > 0 <==> exists f :: f in facts && f.authorized
  {
    if facts != [] {
      var front, last := facts[..|facts| - 1], facts[|facts| - 1];
      SomeAuthorized(front);
      assert facts == front + [last];
      if last.authorized { assert last in facts; }
    }
  }

  /** What the facts of an object say about its reference. */
  lemma ReferenceOfObject(l: Ledger, id: ArtifactId)
    requires ObjectsBalanced(l) && id in l.objects
    ensures l.objects[id].authorizedCount > 0 <==> exists f :: f in l.stored && Grants(f, id)
    ensures forall f :: f in l.stored && f.artifactId == id ==> f.bytes == l.objects[id].bytes
    ensures Plain in l.objects[id].authorizedMedia <==> exists f :: f in l.stored && Grants(f, id) && f.media == Plain
  {
    hide ObjectsBalanced, AuthorizedIn, FactsOf;
    var facts, o := FactsOf(l.stored, id), l.objects[id];
    assert ObjectAgrees(o, facts) by { FactsAgree(l, id); }
    FactsMembers(l.stored, id);
    SomeAuthorized(facts);
    if o.authorizedCount > 0 {
      var f :| f in facts && f.authorized;
      assert f in l.stored && Grants(f, id);
    }
    if exists f :: f in l.stored && Grants(f, id) {
      var f :| f in l.stored && Grants(f, id);
      assert f in facts && f.authorized;
    }
    if Plain in o.authorizedMedia {
      var i :| 0 <= i < |facts| && facts[i].authorized && facts[i].media == Plain;
      assert facts[i] in l.stored && Grants(facts[i], id);
    }
    if exists f :: f in l.stored && Grants(f, id) && f.media == Plain {
      var f :| f in l.stored && Grants(f, id) && f.media == Plain;
      var i :| 0 <= i < |facts| && facts[i] == f;
    }
  }

  lemma FactsAgree(l: Ledger, id: ArtifactId)
    requires ObjectsBalanced(l) && id in l.objects
    ensures ObjectAgrees(l.objects[id], FactsOf(l.stored, id))
  {
  }

  /**
   On every accepted log a later reader gets exactly one reference to each object that some stored
   reference has been authorized for, with its size, and as plain text exactly when one of the
   authorized references was.
   */
  lemma ReferencesAreAuthorized(events: seq<Event>, byId: map<EventId, Event>, session: SessionId)
    requires Replay(events, byId, session).Ok?
    ensures
      var l := Replay(events, byId, session).value;
      var refs := References(l.order, l.objects);
      && (forall i, j :: 0 <= i < j < |refs| ==> refs[i].artifactId != refs[j].artifactId)
      && (forall f :: f in l.stored && f.authorized ==> exists r :: r in refs && r.artifactId == f.artifactId)
      && (forall r :: r in refs ==>
           && (exists f :: f in l.stored && Grants(f, r.artifactId) && f.bytes == r.bytes)
           && (r.media == Plain <==> exists f :: f in l.stored && Grants(f, r.artifactId) && f.media == Plain))
  {
    hide Replay, ObjectsBalanced, BytesBalanced, ReferencesBalanced, References, ReferenceTo, Grants, IsOrder;
    LedgerIsBalanced(events, byId, session);
    OrderIsComplete(events, byId, session);
    var l := Replay(events, byId, session).value;
    var refs := References(l.order, l.objects);
    ReferencesOf(l);
    forall f | f in l.stored && f.authorized ensures exists r :: r in refs && r.artifactId == f.artifactId {
      AuthorizedIsReferred(l, f);
    }
    forall r | r in refs
      ensures exists f :: f in l.stored && Grants(f, r.artifactId) && f.bytes == r.bytes
      ensures r.media == Plain <==> exists f :: f in l.stored && Grants(f, r.artifactId) && f.media == Plain
    {
      ReferenceIsGranted(l, r);
    }
  }

  lemma ReferencesOf(l: Ledger)
    requires IsOrder(l.order, l.objects)
    ensures
      var refs := References(l.order, l.objects);
      && (forall i, j :: 0 <= i < j < |refs| ==> refs[i].artifactId != refs[j].artifactId)
      && (forall r :: r in refs ==> r.artifactId in l.objects && ReferenceTo(l.objects, r.artifactId) == [r])
      && (forall id :: id in l.objects && ReferenceTo(l.objects, id) != [] ==> ReferenceTo(l.objects, id)[0] in refs)
  {
    hide References, ReferenceTo;
    ReferencesAt(l.order, l.objects);
  }

  lemma AuthorizedIsReferred(l: Ledger, f: StoredFact)
    requires IsOrder(l.order, l.objects) && ObjectsBalanced(l) && f in l.stored && f.authorized
    ensures exists r :: r in References(l.order, l.objects) && r.artifactId == f.artifactId
  {
    hide References, ObjectsBalanced, IsOrder;
    ReferencesOf(l);
    StoredIsObject(l, f);
    ReferenceOfObject(l, f.artifactId);
    assert Grants(f, f.artifactId);
    assert ReferenceTo(l.objects, f.artifactId)[0] in References(l.order, l.objects);
  }

  lemma ReferenceIsGranted(l: Ledger, r: Reference)
    requires IsOrder(l.order, l.objects) && ObjectsBalanced(l) && r in References(l.order, l.objects)
    ensures exists f :: f in l.stored && Grants(f, r.artifactId) && f.bytes == r.bytes
    ensures r.media == Plain <==> exists f :: f in l.stored && Grants(f, r.artifactId) && f.media == Plain
  {
    hide References, ObjectsBalanced, IsOrder;
    ReferencesOf(l);
    ReferenceOfObject(l, r.artifactId);
    assert ReferenceTo(l.objects, r.artifactId)[0] == r;
    var f :| f in l.stored && Grants(f, r.artifactId);
    assert f.bytes == r.bytes;
  }

  lemma StoredIsObject(l: Ledger, f: StoredFact)
    requires ObjectsBalanced(l) && f in l.stored
    ensures f.artifactId in l.objects
  {
    FactsMembers(l.stored, f.artifactId);
    assert f in FactsOf(l.stored, f.artifactId);
  }

  // ---------- authority only grows ----------

  /** The same reference, whose authority may since have been granted. */
  ghost predicate SameReference(f: StoredFact, f': StoredFact) {
    f' == f.(authorized := f'.authorized) && (f.authorized ==> f'.authorized)
  }

  /** The same books up to authority. */
  ghost predicate SameBooks(l: Ledger, l': Ledger) {
    && l.runBytes == l'.runBytes && l.sessionBytes == l'.sessionBytes && l.truncatedCount == l'.truncatedCount
    && |l.stored| == |l'.stored| && forall i :: 0 <= i < |l.stored| ==> SameReference(l.stored[i], l'.stored[i])
  }

  /**
   When a log and an extension of it are both accepted, the old references are still there, in the
   same order, and their authority can only have gone from pending to authorized.
   */
  lemma AuthorityOnlyGrows(events: seq<Event>, more: seq<Event>, session: SessionId)
    requires InOrder(events + more, session)
    requires LedgerOf(events, session).Ok? && LedgerOf(events + more, session).Ok?
    ensures
      var l, l' := LedgerOf(events, session).value, LedgerOf(events + more, session).value;
      && |l.stored| <= |l'.stored|
      && (forall i :: 0 <= i < |l.stored| ==> SameReference(l.stored[i], l'.stored[i]))
      && l.sessionBytes <= l'.sessionBytes
      && (forall run :: At(l.runBytes, run) <= At(l'.runBytes, run))
  {
    var all := events + more;
    assert all[..|events|] == events;
    PrefixOk(all, |events|, ById(all), session);
    ByIdGrows(events, more, session);
    SameBooksUnder(events, ById(events), ById(all), session);
    StoredGrows(all, |events|, ById(all), session);
  }

  lemma PrefixOk(events: seq<Event>, i: nat, byId: map<EventId, Event>, session: SessionId)
    requires i <= |events| && Replay(events, byId, session).Ok?
    ensures Replay(events[..i], byId, session).Ok?
  {
    if Replay(events[..i], byId, session).Err? { ErrorStays(events, i, byId, session); }
  }

  lemma {:induction false} ByIdGrows(events: seq<Event>, more: seq<Event>, session: SessionId)
    requires InOrder(events + more, session)
    ensures forall id :: id in ById(events) ==> id in ById(events + more) && ById(events + more)[id] == ById(events)[id]
  {
    if more == [] {
      assert events + more == events;
    } else {
      var all := events + more;
      var last := more[|more| - 1];
      hide InOrder;
      assert all[..|all| - 1] == events + more[..|more| - 1];
      InOrderPrefix(all, |all| - 1, session);
      ByIdGrows(events, more[..|more| - 1], session);
      LastIsNew(events, more, session);
    }
  }

  lemma LastIsNew(events: seq<Event>, more: seq<Event>, session: SessionId)
    requires InOrder(events + more, session) && more != []
    ensures more[|more| - 1].eventId !in ById(events)
  {
    var all, id := events + more, more[|more| - 1].eventId;
    ByIdMembers(events);
    forall j | 0 <= j < |events| ensures events[j].eventId != id {
      assert all[j] == events[j] && all[|all| - 1] == more[|more| - 1];
    }
  }

  lemma {:induction false} ByIdMembers(events: seq<Event>)
    ensures forall id :: id in ById(events) <==> exists j :: 0 <= j < |events| && events[j].eventId == id
  {
    if events != [] {
      ByIdMembers(events[..|events| - 1]);
      assert events[|events| - 1].eventId in ById(events);
      forall id | id in ById(events) ensures exists j :: 0 <= j < |events| && events[j].eventId == id {
        if id in ById(events[..|events| - 1]) {
          var j :| 0 <= j < |events| - 1 && events[..|events| - 1][j].eventId == id;
          assert events[j].eventId == id;
        }
      }
      forall j | 0 <= j < |events| ensures events[j].eventId in ById(events) {
        if j < |events| - 1 { assert events[..|events| - 1][j] == events[j]; }
      }
    }
  }

  /** Knowing more events changes nothing in the books but authority. */
  lemma {:induction false} SameBooksUnder(events: seq<Event>, byId: map<EventId, Event>, byId': map<EventId, Event>,
                                          session: SessionId)
    requires forall id :: id in byId ==> id in byId' && byId'[id] == byId[id]
    requires Replay(events, byId, session).Ok? && Replay(events, byId', session).Ok?
    ensures SameBooks(Replay(events, byId, session).value, Replay(events, byId', session).value)
  {
    if events != [] {
      SameBooksUnder(events[..|events| - 1], byId, byId', session);
      var e := events[|events| - 1];
      if e.body.Stored? {
        AuthorityMonotone(e, e.run.value, e.body.stored, byId, byId');
        SameBooksStep(Replay(events[..|events| - 1], byId, session).value,
          Replay(events[..|events| - 1], byId', session).value,
                      e, e.run.value, e.body.stored, byId, byId', session);
      }
    }
  }

  lemma AuthorityMonotone(e: Event, run: RunId, d: StoredData, byId: map<EventId, Event>, byId': map<EventId, Event>)
    requires forall id :: id in byId ==> id in byId' && byId'[id] == byId[id]
    ensures OriginAuthority(e, run, d, byId) == Ok(true) ==> OriginAuthority(e, run, d, byId') == Ok(true)
  {
  }

  lemma SameBooksStep(l: Ledger, l': Ledger, e: Event, run: RunId, d: StoredData,
                      byId: map<EventId, Event>, byId': map<EventId, Event>, session: SessionId)
    requires SameBooks(l, l')
    requires OriginAuthority(e, run, d, byId) == Ok(true) ==> OriginAuthority(e, run, d, byId') == Ok(true)
    requires StepStored(l, e, run, d, byId, session).Ok? && StepStored(l', e, run, d, byId', session).Ok?
    ensures SameBooks(StepStored(l, e, run, d, byId, session).value, StepStored(l', e, run, d, byId', session).value)
  {
    hide OriginAuthority, AddReference;
  }

  lemma {:induction false} StoredGrows(events: seq<Event>, i: nat, byId: map<EventId, Event>, session: SessionId)
    requires i <= |events| && Replay(events, byId, session).Ok? && Replay(events[..i], byId, session).Ok?
    ensures
      var l, l' := Replay(events[..i], byId, session).value, Replay(events, byId, session).value;
      && l.stored <= l'.stored && l.sessionBytes <= l'.sessionBytes
      && forall run :: At(l.runBytes, run) <= At(l'.runBytes, run)
  {
    if i < |events| {
      assert events[..|events| - 1][..i] == events[..i];
      StoredGrows(events[..|events| - 1], i, byId, session);
    } else {
      assert events[..i] == events;
    }
  }
}
