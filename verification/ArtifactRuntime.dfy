/**
 The runtime of one run: it stores an artifact, appends the event durably, and only then admits the
 artifact to the reader. Its live accounting is compared with what a replay of the log will count.
 */
module ArtifactRuntime {
  import opened Wrappers
  import opened Utf8
  import opened Sums
  import opened OutputCapture
  import opened ArtifactStores
  import opened SessionLedger

  datatype RuntimeError = LimitInvalid | SourceBinary | SourceInvalidUtf8 | PersistFailed | AppendFailed
    | ReferenceInvalid

  datatype Materialization = Materialization(artifact: Option<Bytes>, observation: Bytes, observationTruncated: bool)

  // ---------- what a written log costs ----------

  ghost function TotalBytes(log: seq<Event>): nat {
    if log == [] then 0
    else TotalBytes(log[..|log| - 1]) + (match log[|log| - 1].body case Stored(d) => d.bytes case _ => 0)
  }

  ghost function RunTotal(log: seq<Event>, run: RunId): nat {
    if log == [] then 0
    else
      RunTotal(log[..|log| - 1], run)
      + (match log[|log| - 1].body case Stored(d) => if log[|log| - 1].run == Some(run) then d.bytes else 0 case _ => 0)
  }

  ghost function LastStored(log: seq<Event>, run: RunId): Option<StoredData> {
    if log == [] then None
    else if log[|log| - 1].body.Stored? && log[|log| - 1].run == Some(run) then Some(log[|log| - 1].body.stored)
    else LastStored(log[..|log| - 1], run)
  }

  ghost predicate Follows(last: Option<StoredData>, d: TruncatedData) {
    && last.Some?
    && d.artifactId == Some(last.value.artifactId) && d.capturedBytes == last.value.bytes
    && ReasonOf(last.value.status) == Some(d.reason)
  }

  /** An event that the runtime may write after `log`. */
  ghost predicate MayFollow(log: seq<Event>, e: Event, session: SessionId) {
    match e.body
    case Stored(d) => e.run.Some? && StoredSchema(d) && d.objectSession == session && d.bytes == |d.artifactId|
    case CaptureTruncated(d) =>
      && e.run.Some? && TruncatedSchema(d)
      && (if d.artifactId.None? then d.capturedBytes == 0 && d.limitBytes == 0
          else Follows(LastStored(log, e.run.value), d))
    case _ => true
  }

  ghost predicate WellWritten(log: seq<Event>, session: SessionId) {
    log == [] || (WellWritten(log[..|log| - 1], session) && MayFollow(log[..|log| - 1], log[|log| - 1], session))
  }

  /** The artifacts that some stored event of the log names. */
  ghost function StoredIds(log: seq<Event>): set<ArtifactId> {
    set i | 0 <= i < |log| && log[i].body.Stored? :: log[i].body.stored.artifactId
  }

  ghost predicate BytesCounted(l: Ledger, log: seq<Event>) {
    l.sessionBytes == TotalBytes(log) && forall run :: At(l.runBytes, run) == RunTotal(log, run)
  }

  ghost predicate ObjectsCounted(l: Ledger, log: seq<Event>) {
    forall id :: id in l.objects ==> l.objects[id].bytes == |id| && id in StoredIds(log)
  }

  ghost predicate LastCounted(l: Ledger, log: seq<Event>) {
    && (forall run :: run in l.lastStored <==> LastStored(log, run).Some?)
    && forall run :: run in l.lastStored ==>
         var d, f := LastStored(log, run).value, l.lastStored[run];
         f.artifactId == d.artifactId && f.bytes == d.bytes && f.status == d.status
  }

  /** The replayed ledger counts exactly what the log says. */
  ghost predicate Counts(l: Ledger, log: seq<Event>) {
    BytesCounted(l, log) && ObjectsCounted(l, log) && LastCounted(l, log)
  }

  ghost predicate TotalsWithin(log: seq<Event>) {
    && TotalBytes(log) <= DEFAULT_SESSION_ARTIFACT_BYTES
    && forall run :: RunTotal(log, run) <= DEFAULT_RUN_ARTIFACT_BYTES
  }

  /**
   Replaying a well-written log counts exactly what the log says, and below the budgets it never
   raises a budget, identity or pairing error: it can only object to an origin event.
   */
  lemma {:induction false} ReplayAccepts(log: seq<Event>, byId: map<EventId, Event>, session: SessionId)
    requires WellWritten(log, session)
    ensures Replay(log, byId, session).Ok? ==> Counts(Replay(log, byId, session).value, log)
    ensures TotalsWithin(log) ==> Replay(log, byId, session).Ok? || Replay(log, byId, session) == Err(OriginInvalid)
  {
    if log != [] {
      var prefix, e := log[..|log| - 1], log[|log| - 1];
      assert log == prefix + [e];
      Totals(prefix, e);
      assert TotalsWithin(log) ==> TotalsWithin(prefix) by {
        forall run ensures RunTotal(prefix, run) <= RunTotal(log, run) { }
      }
      ReplayAccepts(prefix, byId, session);
      var before := Replay(prefix, byId, session);
      if before.Ok? {
        match e.body
        case Stored(d) => StoredAccepted(before.value, prefix, e, e.run.value, d, byId, session);
        case CaptureTruncated(d) => TruncatedAccepted(before.value, prefix, e, e.run.value, d);
        case _ => OtherAccepted(before.value, prefix, e);
      }
    }
  }

  lemma Totals(prefix: seq<Event>, e: Event)
    ensures TotalBytes(prefix + [e]) == TotalBytes(prefix) + (if e.body.Stored? then e.body.stored.bytes else 0)
    ensures forall run :: RunTotal(prefix + [e], run)
              == RunTotal(prefix, run) + (if e.body.Stored? && e.run == Some(run) then e.body.stored.bytes else 0)
    ensures forall run :: LastStored(prefix + [e], run)
              == if e.body.Stored? && e.run == Some(run) then Some(e.body.stored) else LastStored(prefix, run)
    ensures StoredIds(prefix + [e]) == StoredIds(prefix) + (if e.body.Stored? then {e.body.stored.artifactId} else {})
  {
  }

  lemma StoredAccepted(l: Ledger, prefix: seq<Event>, e: Event, run: RunId, d: StoredData,
                       byId: map<EventId, Event>, session: SessionId)
    requires Counts(l, prefix) && MayFollow(prefix, e, session) && e.body == Stored(d) && e.run == Some(run)
    ensures
      var r := StepStored(l, e, run, d, byId, session);
      && (TotalsWithin(prefix + [e]) ==> r.Ok? || r == Err(OriginInvalid))
      && (r.Ok? ==> Counts(r.value, prefix + [e]))
  {
    hide Counts, MayFollow, TotalsWithin;
    StoredWithin(l, prefix, e, run, d, byId, session);
    if StepStored(l, e, run, d, byId, session).Ok? { StoredCounted(l, prefix, e, run, d, byId, session); }
  }

  lemma StoredWithin(l: Ledger, prefix: seq<Event>, e: Event, run: RunId, d: StoredData,
                     byId: map<EventId, Event>, session: SessionId)
    requires Counts(l, prefix) && MayFollow(prefix, e, session) && e.body == Stored(d) && e.run == Some(run)
    ensures TotalsWithin(prefix + [e]) ==>
      var r := StepStored(l, e, run, d, byId, session);
      r.Ok? || r == Err(OriginInvalid)
  {
    OnlyOriginErrors(e, run, d, byId);
    hide OriginAuthority, TotalBytes, RunTotal, LastStored, StoredIds, AddReference;
    Totals(prefix, e);
    assert At(l.runBytes, run) == RunTotal(prefix, run);
    assert TotalsWithin(prefix + [e]) ==> RunTotal(prefix + [e], run) <= DEFAULT_RUN_ARTIFACT_BYTES;
  }

  lemma StoredCounted(l: Ledger, prefix: seq<Event>, e: Event, run: RunId, d: StoredData,
                      byId: map<EventId, Event>, session: SessionId)
    requires Counts(l, prefix) && MayFollow(prefix, e, session) && e.body == Stored(d) && e.run == Some(run)
    requires StepStored(l, e, run, d, byId, session).Ok?
    ensures Counts(StepStored(l, e, run, d, byId, session).value, prefix + [e])
  {
    hide OriginAuthority, TotalBytes, RunTotal, LastStored, StoredIds, StepStored, BytesCounted, ObjectsCounted,
      LastCounted;
    StoredBytesCounted(l, prefix, e, run, d, byId, session);
    StoredObjectsCounted(l, prefix, e, run, d, byId, session);
    StoredLastCounted(l, prefix, e, run, d, byId, session);
  }

  lemma StoredBytesCounted(l: Ledger, prefix: seq<Event>, e: Event, run: RunId, d: StoredData,
                      byId: map<EventId, Event>, session: SessionId)
    requires BytesCounted(l, prefix) && MayFollow(prefix, e, session) && e.body == Stored(d) && e.run == Some(run)
    requires StepStored(l, e, run, d, byId, session).Ok?
    ensures BytesCounted(StepStored(l, e, run, d, byId, session).value, prefix + [e])
  {
    hide OriginAuthority, TotalBytes, RunTotal, LastStored, StoredIds, AddReference;
    Totals(prefix, e);
    var after := StepStored(l, e, run, d, byId, session).value;
    forall other ensures At(after.runBytes, other) == RunTotal(prefix + [e], other) {
      assert At(l.runBytes, other) == RunTotal(prefix, other);
    }
  }

  lemma StoredObjectsCounted(l: Ledger, prefix: seq<Event>, e: Event, run: RunId, d: StoredData,
                      byId: map<EventId, Event>, session: SessionId)
    requires ObjectsCounted(l, prefix) && MayFollow(prefix, e, session) && e.body == Stored(d) && e.run == Some(run)
    requires StepStored(l, e, run, d, byId, session).Ok?
    ensures ObjectsCounted(StepStored(l, e, run, d, byId, session).value, prefix + [e])
  {
    hide OriginAuthority, TotalBytes, RunTotal, LastStored, StoredIds;
    Totals(prefix, e);
  }

  lemma StoredLastCounted(l: Ledger, prefix: seq<Event>, e: Event, run: RunId, d: StoredData,
                      byId: map<EventId, Event>, session: SessionId)
    requires LastCounted(l, prefix) && MayFollow(prefix, e, session) && e.body == Stored(d) && e.run == Some(run)
    requires StepStored(l, e, run, d, byId, session).Ok?
    ensures LastCounted(StepStored(l, e, run, d, byId, session).value, prefix + [e])
  {
    hide OriginAuthority, TotalBytes, RunTotal, LastStored, StoredIds, AddReference;
    Totals(prefix, e);
  }

  lemma OnlyOriginErrors(e: Event, run: RunId, d: StoredData, byId: map<EventId, Event>)
    ensures OriginAuthority(e, run, d, byId).Err? ==> OriginAuthority(e, run, d, byId).error == OriginInvalid
  {
  }

  lemma TruncatedAccepted(l: Ledger, prefix: seq<Event>, e: Event, run: RunId, d: TruncatedData)
    requires Counts(l, prefix) && e.body == CaptureTruncated(d) && e.run == Some(run)
    requires exists session :: MayFollow(prefix, e, session)
    ensures StepTruncated(l, run, d).Ok? && Counts(StepTruncated(l, run, d).value, prefix + [e])
  {
    hide TotalBytes, RunTotal, LastStored, StoredIds;
    Totals(prefix, e);
  }

  lemma OtherAccepted(l: Ledger, prefix: seq<Event>, e: Event)
    requires Counts(l, prefix) && !e.body.Stored? && !e.body.CaptureTruncated?
    ensures Counts(l, prefix + [e])
  {
    hide TotalBytes, RunTotal, LastStored, StoredIds;
    Totals(prefix, e);
  }

  // ---------- live usage and the log ----------

  /** Live usage is at least what the log will be charged for. */
  ghost predicate Covers(u: Usage, log: seq<Event>) {
    && TotalBytes(log) <= u.sessionBytes
    && forall run :: RunTotal(log, run) <= At(u.runBytes, run)
  }

  /** Live usage is exactly what the log will be charged for. */
  ghost predicate Matches(u: Usage, log: seq<Event>) {
    && TotalBytes(log) == u.sessionBytes
    && forall run :: RunTotal(log, run) == At(u.runBytes, run)
  }

  predicate IsNew(log: seq<Event>, id: EventId) {
    forall i :: 0 <= i < |log| ==> log[i].eventId != id
  }

  lemma AppendKeeps(log: seq<Event>, e: Event, session: SessionId)
    requires InOrder(log, session) && WellWritten(log, session) && MayFollow(log, e, session)
    requires e.sessionId == session && e.seqNo == (if log == [] then 1 else log[|log| - 1].seqNo + 1)
    requires IsNew(log, e.eventId)
    ensures InOrder(log + [e], session) && WellWritten(log + [e], session)
  {
    var log' := log + [e];
    assert log'[..|log|] == log && log'[|log|] == e;
    assert forall i :: 0 <= i < |log| ==> log'[i] == log[i];
  }

  lemma ChargeCovers(u: Usage, log: seq<Event>, e: Event, run: RunId, bytes: nat)
    requires e.run == Some(run) && (e.body.Stored? ==> e.body.stored.bytes == bytes)
    ensures Covers(u, log) ==> Covers(Charge(u, run, bytes), log)
    ensures Covers(u, log) && e.body.Stored? ==> Covers(Charge(u, run, bytes), log + [e])
    ensures Covers(u, log) && !e.body.Stored? ==> Covers(u, log + [e])
    ensures Matches(u, log) && e.body.Stored? ==> Matches(Charge(u, run, bytes), log + [e])
    ensures Matches(u, log) && !e.body.Stored? ==> Matches(u, log + [e])
  {
    hide TotalBytes, RunTotal;
    Totals(log, e);
    forall r ensures At(Charge(u, run, bytes).runBytes, r) == At(u.runBytes, r) + (if r == run then bytes else 0) { }
  }

  /** What the runtime keeps about its log and the usage of its store. */
  ghost predicate Accounted(log: seq<Event>, u: Usage, session: SessionId, appendFailed: bool) {
    && InOrder(log, session) && WellWritten(log, session)
    && Covers(u, log)
    && (!appendFailed ==> Matches(u, log))
  }

  function NextEvent(log: seq<Event>, session: SessionId, run: RunId, id: EventId, body: Body): Event {
    Event(id, session, if log == [] then 1 else log[|log| - 1].seqNo + 1, Some(run), body)
  }

  /** An event that stores nothing is appended without a charge. */
  lemma AppendedFree(log: seq<Event>, u: Usage, session: SessionId, failed: bool, run: RunId, id: EventId, body: Body)
    requires Accounted(log, u, session, failed) && IsNew(log, id) && !body.Stored?
    requires MayFollow(log, NextEvent(log, session, run, id, body), session)
    ensures
      var log' := log + [NextEvent(log, session, run, id, body)];
      Accounted(log', u, session, failed) && StoredIds(log') == StoredIds(log)
  {
    hide InOrder, WellWritten, Covers, Matches, MayFollow, IsNew, TotalBytes, RunTotal, LastStored, StoredIds;
    var e := NextEvent(log, session, run, id, body);
    AppendKeeps(log, e, session);
    Totals(log, e);
    ChargeCovers(u, log, e, run, 0);
  }

  /** A stored object is charged; its event is appended, or the append fails. */
  lemma AppendedStored(log: seq<Event>, u: Usage, session: SessionId, failed: bool, run: RunId, id: EventId,
                       d: StoredData)
    requires Accounted(log, u, session, failed) && IsNew(log, id)
    requires StoredSchema(d) && d.objectSession == session && d.bytes == |d.artifactId|
    ensures
      var u' := Charge(u, run, d.bytes);
      var log' := log + [NextEvent(log, session, run, id, Stored(d))];
      && Accounted(log', u', session, failed)
      && StoredIds(log') == StoredIds(log) + {d.artifactId}
      && LastStored(log', run) == Some(d)
      && Accounted(log, u', session, true)
  {
    hide InOrder, WellWritten, Covers, Matches, IsNew, TotalBytes, RunTotal, LastStored, StoredIds;
    var e := NextEvent(log, session, run, id, Stored(d));
    AppendKeeps(log, e, session);
    Totals(log, e);
    ChargeCovers(u, log, e, run, d.bytes);
  }

  lemma StillNew(log: seq<Event>, e: Event, id: EventId)
    requires IsNew(log, id) && e.eventId != id
    ensures IsNew(log + [e], id)
  {
  }

  ghost predicate IsSafe(safe: Bytes -> Bytes) {
    forall s :: WellFormed(s) ==> WellFormed(safe(s))
  }

  /** The books at the start of a runtime are those of the replayed log. */
  lemma StartsAccounted(events: seq<Event>, ledger: Ledger, session: SessionId)
    requires InOrder(events, session) && WellWritten(events, session) && LedgerOf(events, session) == Ok(ledger)
    ensures WithinBudgets(Usage(ledger.runBytes, ledger.sessionBytes), DEFAULT_BUDGETS)
    ensures Accounted(events, Usage(ledger.runBytes, ledger.sessionBytes), session, false)
    ensures (set id | id in ledger.objects && ledger.objects[id].authorizedCount > 0) <= StoredIds(events)
  {
    hide TotalBytes, RunTotal, StoredIds, InOrder, Replay;
    ReplayAccepts(events, ById(events), session);
    LedgerIsBalanced(events, ById(events), session);
    WithinDefaults(ledger);
  }

  /** A requested materialization; the last three say whether I/O fails and which appends succeed. */
  datatype Request = Request(
    source: seq<Bytes>,
    captureBytes: int,
    observationBytes: int,
    originEventId: EventId,
    storedEventId: EventId,
    truncatedEventId: EventId,
    ioFails: bool,
    storedDurable: bool,
    truncatedDurable: bool)

  /** The part of the source that is collected: as much as the capture and the observation may need. */
  function CollectBytes(q: Request, available: nat): nat {
    if available >= q.observationBytes then available else q.observationBytes
  }

  function Collected(q: Request, available: nat): Bytes {
    if IsCut(q, available) then Flatten(q.source)[..CollectBytes(q, available)] else Flatten(q.source)
  }

  predicate IsCut(q: Request, available: nat) {
    |Flatten(q.source)| > CollectBytes(q, available)
  }

  /** What is left of the collected text after decoding and making it safe. */
  function SafeText(q: Request, available: nat, safe: Bytes -> Bytes): Bytes {
    safe(Collected(q, available)[..Longest(Collected(q, available))])
  }

  ghost predicate IsText(q: Request, available: nat) {
    && 0 !in Collected(q, available)
    && if IsCut(q, available) then IsPrefixOfWellFormed(Collected(q, available))
       else WellFormed(Collected(q, available))
  }

  /** Why a capture that must be cut is cut. */
  function CutReason(u: Usage, run: RunId, captureBytes: nat, available: nat): Reason {
    ReasonOf(TruncationStatus(u, DEFAULT_BUDGETS, run, captureBytes, available)).value
  }

  function CapturedData(q: Request, session: SessionId, physical: Bytes, cut: bool, status: CaptureStatus): StoredData {
    StoredData(physical, |physical|, if cut then status else Complete, cut, Plain, session, q.originEventId)
  }

  /** The log after a capture: the stored event, and the truncation event when something was cut. */
  function LogAfterCapture(log: seq<Event>, session: SessionId, run: RunId, q: Request, physical: Bytes, cut: bool,
                           status: CaptureStatus, available: nat, reason: Reason): seq<Event> {
    var stored := log + [NextEvent(log, session, run, q.storedEventId,
      Stored(CapturedData(q, session, physical, cut, status)))];
    if cut then
      stored + [NextEvent(stored, session, run, q.truncatedEventId,
                          CaptureTruncated(TruncatedData(Some(physical), |physical|, available, reason)))]
    else stored
  }

  /** What a materialization does to the log and returns, from the usage before it. */
  ghost predicate Materializes(log: seq<Event>, log': seq<Event>, session: SessionId, run: RunId, q: Request, u: Usage,
                               safe: Bytes -> Bytes, m: Materialization)
    requires q.captureBytes >= 1 && q.observationBytes >= 1
  {
    var available := Available(u, DEFAULT_BUDGETS, run, q.captureBytes);
    var text, sourceCut := SafeText(q, available, safe), IsCut(q, available);
    var reason := CutReason(u, run, q.captureBytes, available);
    && m.observation == text[..Fit(text, q.observationBytes)]
    && (m.observationTruncated <==> |text| > q.observationBytes || sourceCut)
    && if available == 0 then
         && m.artifact == None
         && log' == log + [NextEvent(log, session, run, q.truncatedEventId,
            CaptureTruncated(TruncatedData(None, 0, 0, reason)))]
       else
         var physical := text[..Fit(text, available)];
         && m.artifact == Some(physical)
         && log' == LogAfterCapture(log, session, run, q, physical, sourceCut || |text| > available,
                                    TruncationStatus(u, DEFAULT_BUDGETS, run, q.captureBytes, available),
                                    available, reason)
  }

  /** Nothing fails on the way. */
  predicate NothingFails(q: Request, u: Usage, run: RunId, safe: Bytes -> Bytes)
    requires q.captureBytes >= 1 && q.observationBytes >= 1
  {
    var available := Available(u, DEFAULT_BUDGETS, run, q.captureBytes);
    if available == 0 then q.truncatedDurable
    else !q.ioFails && q.storedDurable
         && (IsCut(q, available) || |SafeText(q, available, safe)| > available ==> q.truncatedDurable)
  }

  /** The events for keeping `kept` of a text of `size` bytes in `room` bytes; the first number is `next`. */
  function CaptureEvents(next: int, session: SessionId, run: RunId, q: Request, kept: Bytes, size: nat, room: nat,
                         status: CaptureStatus, reason: Reason): seq<Event>
  {
    var stored := Event(q.storedEventId, session, next, Some(run),
      Stored(StoredData(kept, |kept|, if size > room then status else Complete, size > room, Plain, session,
                        q.originEventId)));
    if room == 0 then
      [Event(q.truncatedEventId, session, next, Some(run), CaptureTruncated(TruncatedData(None, 0, 0, reason)))]
    else if size <= room then [stored]
    else
      [stored, Event(q.truncatedEventId, session, next + 1, Some(run),
                     CaptureTruncated(TruncatedData(Some(kept), |kept|, room, reason)))]
  }

  /** A log gets the events of a capture, which name the limit that leaves so much room. */
  ghost predicate AddsCapture(log: seq<Event>, log': seq<Event>, session: SessionId, run: RunId, q: Request, u: Usage,
                              kept: Bytes, size: nat, room: nat)
  {
    var next := if log == [] then 1 else log[|log| - 1].seqNo + 1;
    exists status, reason :: NamesLimit(u, run, q.captureBytes, room, status) && NamesReason(status, reason)
      && log' == log + CaptureEvents(next, session, run, q, kept, size, room, status, reason)
  }

  /** A status names the session, before the run, when that is what leaves less room than requested. */
  ghost predicate NamesLimit(u: Usage, run: RunId, requested: int, room: nat, status: CaptureStatus) {
    var bySession := u.sessionBytes + room == DEFAULT_SESSION_ARTIFACT_BYTES && room < requested;
    var byRun := At(u.runBytes, run) + room == DEFAULT_RUN_ARTIFACT_BYTES && room < requested;
    match status
    case TruncatedSessionBudget => bySession
    case TruncatedRunBudget => byRun && !bySession
    case TruncatedArtifactLimit => !byRun && !bySession
    case _ => false
  }

  predicate NamesReason(status: CaptureStatus, reason: Reason) {
    match reason
    case SessionBudget => status == TruncatedSessionBudget
    case RunBudget => status == TruncatedRunBudget
    case ArtifactLimit => status == TruncatedArtifactLimit
  }

  /**
   A text that needs no redaction is accepted. The observation and the artifact are its longest prefixes
   within their own limits, either of which may be the larger one, and each is reported as cut exactly
   when the text is longer than its limit.
   */
  lemma PlainTextIsKept(log: seq<Event>, log': seq<Event>, session: SessionId, run: RunId, q: Request, u: Usage,
                        m: Materialization)
    requires q.captureBytes >= 1 && q.observationBytes >= 1 && WithinBudgets(u, DEFAULT_BUDGETS)
    requires WellFormed(Flatten(q.source)) && 0 !in Flatten(q.source)
    ensures
      var text, room := Flatten(q.source), Available(u, DEFAULT_BUDGETS, run, q.captureBytes);
      && IsText(q, room)
      && (Materializes(log, log', session, run, q, u, (s: Bytes) => s, m) <==>
           && m.observation == text[..Fit(text, q.observationBytes)]
           && (m.observationTruncated <==> |text| > q.observationBytes)
           && m.artifact == (if room == 0 then None else Some(text[..Fit(text, room)]))
           && AddsCapture(log, log', session, run, q, u, text[..Fit(text, room)], |text|, room))
  {
    hide WellFormed, IsPrefixOfWellFormed, Flatten, Fit, Longest, Available, WithinBudgets, LogAfterCapture,
      AddsCapture;
    var text, room := Flatten(q.source), Available(u, DEFAULT_BUDGETS, run, q.captureBytes);
    PlainCollected(q, room);
    var status := TruncationStatus(u, DEFAULT_BUDGETS, run, q.captureBytes, room);
    StatusNamesLimit(u, run, q.captureBytes, status);
    CaptureIsAdded(log, log', session, run, q, u, text[..Fit(text, room)], |text|, room, status);
  }

  /** What is kept of a plain text. */
  lemma PlainCollected(q: Request, room: nat)
    requires q.observationBytes >= 1 && WellFormed(Flatten(q.source)) && 0 !in Flatten(q.source)
    ensures
      var text, safeText := Flatten(q.source), SafeText(q, room, (s: Bytes) => s);
      && IsText(q, room)
      && safeText[..Fit(safeText, q.observationBytes)] == text[..Fit(text, q.observationBytes)]
      && safeText[..Fit(safeText, room)] == text[..Fit(text, room)]
      && (IsCut(q, room) || |safeText| > q.observationBytes <==> |text| > q.observationBytes)
      && (IsCut(q, room) || |safeText| > room <==> |text| > room)
  {
    hide WellFormed, Flatten, Longest;
    var text, n := Flatten(q.source), CollectBytes(q, room);
    WellFormedIsLongest(text);
    assert text[..|text|] == text;
    if IsCut(q, room) { assert text[..n] + text[n..] == text; }
    assert SafeText(q, room, (s: Bytes) => s) == text[..Fit(text, n)] by {
      if IsCut(q, room) { assert text[..n][..Longest(text[..n])] == text[..Longest(text[..n])]; }
    }
    FitOfFit(text, n, q.observationBytes);
    FitOfFit(text, n, room);
  }

  lemma FitOfFit(text: Bytes, n: nat, m: nat)
    requires m <= n
    ensures
      var part := text[..Fit(text, n)];
      part[..Fit(part, m)] == text[..Fit(text, m)]
  {
    hide WellFormed, Fit;
    var part := text[..Fit(text, n)];
    FitIsLongest(text, n);
    FitIsLongest(text, m);
    FitIsLongest(part, m);
    assert part[..Fit(part, m)] == text[..Fit(part, m)];
    assert text[..Fit(text, m)] == part[..Fit(text, m)];
  }

  lemma StatusNamesLimit(u: Usage, run: RunId, requested: nat, status: CaptureStatus)
    requires WithinBudgets(u, DEFAULT_BUDGETS) && requested >= 1
    requires
      status == TruncationStatus(u, DEFAULT_BUDGETS, run, requested, Available(u, DEFAULT_BUDGETS, run, requested))
    ensures forall s :: NamesLimit(u, run, requested, Available(u, DEFAULT_BUDGETS, run, requested), s) <==> s == status
    ensures ReasonOf(status).Some?
    ensures forall reason :: NamesReason(status, reason) <==> ReasonOf(status) == Some(reason)
  {
  }

  lemma CaptureIsAdded(log: seq<Event>, log': seq<Event>, session: SessionId, run: RunId, q: Request, u: Usage,
                       kept: Bytes, size: nat, room: nat, status: CaptureStatus)
    requires |kept| <= room
    requires forall s :: NamesLimit(u, run, q.captureBytes, room, s) <==> s == status
    requires ReasonOf(status).Some?
    requires forall reason :: NamesReason(status, reason) <==> ReasonOf(status) == Some(reason)
    ensures
      AddsCapture(log, log', session, run, q, u, kept, size, room) <==>
        log' == if room == 0 then
            log + [NextEvent(log, session, run, q.truncatedEventId,
                             CaptureTruncated(TruncatedData(None, 0, 0, ReasonOf(status).value)))]
          else LogAfterCapture(log, session, run, q, kept, size > room, status, room, ReasonOf(status).value)
  {
    hide NamesLimit, NamesReason;
    var next, reason := if log == [] then 1 else log[|log| - 1].seqNo + 1, ReasonOf(status).value;
    var added := CaptureEvents(next, session, run, q, kept, size, room, status, reason);
    assert AddsCapture(log, log', session, run, q, u, kept, size, room) <==> log' == log + added;
    if room > 0 && size > room { assert log + added == log + [added[0]] + [added[1]]; }
  }

  class ArtifactSessionRuntime {
    const session: SessionId
    const run: RunId
    const store: ArtifactStore
    /** Sanitizing and redacting, whatever they do to the text. */
    const safe: Bytes -> Bytes
    var log: seq<Event>
    /** The artifacts that the reader may show. */
    var admitted: set<ArtifactId>
    /** Whether some append of this runtime failed. */
    var appendFailed: bool

    ghost predicate Valid()
      reads this, store
    {
      && store.Valid() && store.budgets == DEFAULT_BUDGETS && IsSafe(safe)
      && Accounted(log, store.usage, session, appendFailed)
      && admitted <= StoredIds(log)
    }

    /** A runtime starts from the usage and the references that the replayed log gives. */
    constructor (session: SessionId, run: RunId, events: seq<Event>, ledger: Ledger, safe: Bytes -> Bytes)
      requires InOrder(events, session) && WellWritten(events, session) && IsSafe(safe)
      requires LedgerOf(events, session) == Ok(ledger)
      ensures Valid() && fresh(store) && !appendFailed && log == events
      ensures this.session == session && this.run == run && this.safe == safe
    {
      hide Accounted, StoredIds, WithinBudgets, InOrder, WellWritten, LedgerOf, IsSafe;
      StartsAccounted(events, ledger, session);
      this.session := session;
      this.run := run;
      this.safe := safe;
      this.store := new ArtifactStore(DEFAULT_BUDGETS, Usage(ledger.runBytes, ledger.sessionBytes));
      this.log := events;
      this.admitted := set id | id in ledger.objects && ledger.objects[id].authorizedCount > 0;
      this.appendFailed := false;
    }

    /** Any other event of the session. */
    method AppendOther(id: EventId, body: Body)
      requires Valid() && IsNew(log, id) && !body.Stored? && !body.CaptureTruncated?
      modifies this`log
      ensures Valid() && log == old(log) + [NextEvent(old(log), session, run, id, body)]
    {
      hide Accounted, StoredIds, WithinBudgets, IsSafe;
      AppendedFree(log, store.usage, session, appendFailed, run, id, body);
      log := log + [NextEvent(log, session, run, id, body)];
    }

    /** Collects, decodes and makes safe what a materialization may need of its source. */
    method Prepare(q: Request, available: nat) returns (r: Result<(Bytes, bool), RuntimeError>)
      requires IsSafe(safe)
      ensures r.Ok? <==> IsText(q, available)
      ensures r.Ok? ==> r.value == (SafeText(q, available, safe), IsCut(q, available)) && WellFormed(r.value.0)
      ensures r.Err? ==>
        r.error == if 0 in Collected(q, available) then SourceBinary else RuntimeError.SourceInvalidUtf8
    {
      hide WellFormed, IsPrefixOfWellFormed, Flatten, Longest;
      var collected, cut := CollectBounded(q.source,
        if available >= q.observationBytes then available else q.observationBytes);
      assert collected == Collected(q, available) && cut == IsCut(q, available);
      if 0 in collected { return Err(SourceBinary); }
      var decoded := DecodeCollectedUtf8(collected, cut);
      if decoded.Err? { return Err(RuntimeError.SourceInvalidUtf8); }
      SafeIsWellFormed(safe, collected);
      return Ok((safe(decoded.value), cut));
    }

    /**
     Captures a source, logs it, and returns what the model may see of it. It succeeds exactly for texts,
     with limits in range and when nothing fails; then the observation, the artifact and the new
     events are determined by the source and by the usage before.
     */
    method Materialize(q: Request) returns (r: Result<Materialization, RuntimeError>)
      requires Valid() && IsNew(log, q.storedEventId) && IsNew(log, q.truncatedEventId)
      requires q.storedEventId != q.truncatedEventId
      modifies this`log, this`admitted, this`appendFailed, store
      ensures Valid()
      ensures r.Ok? <==>
        && 1 <= q.observationBytes <= MAX_ARTIFACT_CAPTURE_BYTES && 1 <= q.captureBytes <= MAX_ARTIFACT_CAPTURE_BYTES
        && IsText(q, Available(old(store.usage), DEFAULT_BUDGETS, run, q.captureBytes))
        && NothingFails(q, old(store.usage), run, safe)
      ensures r.Ok? ==> Materializes(old(log), log, session, run, q, old(store.usage), safe, r.value)
      ensures r.Ok? && r.value.artifact.Some? ==>
        && WellFormed(r.value.artifact.value) && admitted == old(admitted) + {r.value.artifact.value}
        && store.usage == Charge(old(store.usage), run, |r.value.artifact.value|)
      ensures r.Ok? && r.value.artifact.None? ==> store.usage == old(store.usage) && admitted == old(admitted)
      // A failure before the first append leaves the log alone, and only a failed append makes live usage differ.
      ensures r.Err? && r.error != AppendFailed ==>
        log == old(log) && store.usage == old(store.usage) && admitted == old(admitted)
      ensures appendFailed == (old(appendFailed) || r == Err(AppendFailed))
    {
      hide Accounted, StoredIds, WithinBudgets, WellFormed, IsPrefixOfWellFormed, Fit, Flatten, IsNew, LastStored,
        LogAfterCapture, Available, TruncationStatus, Collected, IsCut, SafeText, IsText, IsSafe;
      if q.captureBytes < 1 || q.captureBytes > MAX_ARTIFACT_CAPTURE_BYTES { return Err(RuntimeError.LimitInvalid); }
      if q.observationBytes < 1 || q.observationBytes > MAX_ARTIFACT_CAPTURE_BYTES {
        return Err(RuntimeError.LimitInvalid);
      }
      var checked := store.AvailableCaptureBytes(run, q.captureBytes);
      var available := checked.value;
      var prepared := Prepare(q, available);
      if prepared.Err? { return Err(prepared.error); }
      var (safeText, cut) := prepared.value;
      var observation, observationCut := TruncateUtf8(safeText, q.observationBytes);
      var reason := CutReason(store.usage, run, q.captureBytes, available);
      if available == 0 {
        var ok := Append(q.truncatedEventId, CaptureTruncated(TruncatedData(None, 0, 0, reason)), q.truncatedDurable);
        if !ok { return Err(AppendFailed); }
        return Ok(Materialization(None, observation, observationCut || cut));
      }
      var physical, physicalCut := TruncateUtf8(safeText, available);
      FitIsLongest(safeText, available);
      r := StoreAndAppend(q, physical, cut || physicalCut, available, reason, observation, observationCut || cut);
    }

    /** Appends an event that costs nothing. */
    method Append(id: EventId, body: Body, durable: bool) returns (ok: bool)
      requires Valid() && IsNew(log, id) && MayFollow(log, NextEvent(log, session, run, id, body), session)
        && !body.Stored?
      modifies this`log, this`appendFailed
      ensures Valid() && ok == durable
      ensures log == if ok then old(log) + [NextEvent(old(log), session, run, id, body)] else old(log)
      ensures appendFailed == (old(appendFailed) || !ok)
    {
      hide WithinBudgets, IsSafe, StoredIds, InOrder, WellWritten, Covers, Matches, MayFollow, IsNew;
      if durable {
        AppendedFree(log, store.usage, session, appendFailed, run, id, body);
        log := log + [NextEvent(log, session, run, id, body)];
      } else {
        appendFailed := true;
      }
      return durable;
    }

    /** Stores the text, appends the stored event, admits the artifact, appends the truncation event. */
    method StoreAndAppend(q: Request, physical: Bytes, cut: bool, available: nat, reason: Reason,
                          observation: Bytes, observationCut: bool)
      returns (r: Result<Materialization, RuntimeError>)
      requires Valid() && IsNew(log, q.storedEventId) && IsNew(log, q.truncatedEventId)
      requires q.storedEventId != q.truncatedEventId
      requires WellFormed(physical) && |physical| <= available && 0 < available
      requires 1 <= q.captureBytes <= MAX_ARTIFACT_CAPTURE_BYTES
      requires available == Available(store.usage, store.budgets, run, q.captureBytes)
      requires reason == CutReason(store.usage, run, q.captureBytes, available)
      modifies this`log, this`admitted, this`appendFailed, store
      ensures Valid()
      ensures r.Ok? <==> !q.ioFails && q.storedDurable && (cut ==> q.truncatedDurable)
      ensures r.Ok? ==>
        && r.value == Materialization(Some(physical), observation, observationCut)
        && admitted == old(admitted) + {physical}
        && log == LogAfterCapture(old(log), session, run, q, physical, cut,
                                  TruncationStatus(old(store.usage), DEFAULT_BUDGETS, run, q.captureBytes, available),
                                  available, reason)
        && store.usage == Charge(old(store.usage), run, |physical|)
      ensures r.Err? && r.error != AppendFailed ==>
        log == old(log) && store.usage == old(store.usage) && admitted == old(admitted)
      ensures appendFailed == (old(appendFailed) || r == Err(AppendFailed))
    {
      hide Accounted, StoredIds, WithinBudgets, WellFormed, Fit, Flatten, IsNew, LastStored, IsSafe, Available,
        TruncationStatus;
      ghost var before := store.usage;
      var status := TruncationStatus(store.usage, store.budgets, run, q.captureBytes, available);
      OneChunk(physical, available);
      var stored := store.StoreExclusive([physical], q.captureBytes, run, q.ioFails);
      if stored.Err? {
        return Err(RuntimeError.PersistFailed);
      }
      var data := CapturedData(q, session, physical, cut, status);
      AppendedStored(log, before, session, appendFailed, run, q.storedEventId, data);
      if !q.storedDurable {
        appendFailed := true;
        return Err(AppendFailed);
      }
      var e := NextEvent(log, session, run, q.storedEventId, Stored(data));
      StillNew(log, e, q.truncatedEventId);
      log := log + [e];
      admitted := admitted + {physical};
      if cut {
        var ok := Append(q.truncatedEventId,
                         CaptureTruncated(TruncatedData(Some(physical), |physical|, available, reason)),
                         q.truncatedDurable);
        if !ok { return Err(AppendFailed); }
      }
      return Ok(Materialization(Some(physical), observation, observationCut));
    }

    /**
     Keeps a text exactly as it is. `expected` is the content whose hash the caller asked for; `ioFails`
     and `durable` say whether the store and the append work.
     */
    method MaterializeText(bytes: Bytes, expected: Option<Bytes>, media: MediaType, originEventId: EventId,
                           storedEventId: EventId, ioFails: bool, durable: bool)
      returns (r: Result<ArtifactId, RuntimeError>)
      requires Valid() && IsNew(log, storedEventId)
      modifies this`log, this`admitted, this`appendFailed, store
      ensures Valid()
      ensures
        var n := |bytes|;
        r.Ok? <==>
          && WellFormed(bytes) && 0 !in bytes && (expected.None? || expected.value == bytes)
          && n <= MAX_ARTIFACT_CAPTURE_BYTES
          && Available(old(store.usage), store.budgets, run, AtLeastOne(n)) >= AtLeastOne(n)
          && !ioFails && durable
      ensures r.Ok? ==>
        && r.value == bytes && admitted == old(admitted) + {bytes} && appendFailed == old(appendFailed)
        && log == old(log) + [NextEvent(old(log), session, run, storedEventId,
           Stored(ExactText(bytes, media, session, originEventId)))]
        && store.usage == Charge(old(store.usage), run, |bytes|)
      ensures r.Err? ==>
        && log == old(log) && admitted == old(admitted)
        && (r.error != AppendFailed ==> store.usage == old(store.usage) && appendFailed == old(appendFailed))
    {
      hide Accounted, StoredIds, WithinBudgets, WellFormed, Fit, Flatten, IsNew, LastStored, IsSafe, Available,
        TruncationStatus;
      if |bytes| > MAX_ARTIFACT_CAPTURE_BYTES { return Err(RuntimeError.LimitInvalid); }
      if !WellFormed(bytes) { return Err(RuntimeError.SourceInvalidUtf8); }
      if 0 in bytes { return Err(SourceBinary); }
      if expected.Some? && expected.value != bytes { return Err(ReferenceInvalid); }
      var requested := AtLeastOne(|bytes|);
      var available := store.AvailableCaptureBytes(run, requested);
      if available.value < |bytes| { return Err(RuntimeError.PersistFailed); }
      OneChunk(bytes, available.value);
      ghost var before := store.usage;
      var stored := store.StoreExclusive([bytes], requested, run, ioFails);
      if stored.Err? || stored.value.artifact.None? { return Err(RuntimeError.PersistFailed); }
      var data := ExactText(bytes, media, session, originEventId);
      AppendedStored(log, before, session, appendFailed, run, storedEventId, data);
      if !durable {
        appendFailed := true;
        return Err(AppendFailed);
      }
      log := log + [NextEvent(log, session, run, storedEventId, Stored(data))];
      admitted := admitted + {bytes};
      return Ok(bytes);
    }

    /**
     Whatever was materialized, and whichever appends failed: a replay of the log never objects to a
     budget, an identity or a pairing, and charges no more than live usage; it charges exactly live
     usage when no append failed.
     */
    lemma LogReplays()
      requires Valid()
      ensures
        var r := LedgerOf(log, session);
        && (r.Ok? || r == Err(OriginInvalid))
        && (r.Ok? ==> Charged(r.value, store.usage))
        && (r.Ok? && !appendFailed ==> ChargedAll(r.value, store.usage))
    {
      hide InOrder, WellWritten, Covers, Matches, Charged, ChargedAll, StoredIds, IsSafe, LedgerOf;
      WrittenLogReplays(store.usage, log, session);
    }
  }

  function AtLeastOne(n: nat): nat {
    if n == 0 then 1 else n
  }

  function ExactText(bytes: Bytes, media: MediaType, session: SessionId, origin: EventId): StoredData {
    StoredData(bytes, |bytes|, Complete, false, media, session, origin)
  }

  lemma SafeIsWellFormed(safe: Bytes -> Bytes, collected: Bytes)
    requires IsSafe(safe)
    ensures WellFormed(safe(collected[..Longest(collected)]))
  {
    LongestIsWellFormed(collected);
  }

  lemma OneChunk(text: Bytes, available: nat)
    requires WellFormed(text) && |text| <= available
    ensures Flatten([text]) == text && Fit(text, available) == |text| && text[..|text|] == text
  {
    assert [text][1..] == [];
    WellFormedIsLongest(text);
  }

  lemma WithinDefaults(l: Ledger)
    requires Balanced(l)
    ensures WithinBudgets(Usage(l.runBytes, l.sessionBytes), DEFAULT_BUDGETS)
  {
    forall run | run in l.runBytes ensures l.runBytes[run] <= DEFAULT_RUN_ARTIFACT_BYTES {
      assert At(l.runBytes, run) == BytesOfRun(l.stored, run);
    }
  }

  /** The ledger charges no more than the usage. */
  ghost predicate Charged(l: Ledger, u: Usage) {
    l.sessionBytes <= u.sessionBytes && forall run :: At(l.runBytes, run) <= At(u.runBytes, run)
  }

  /** The ledger charges no less than the usage. */
  ghost predicate ChargedAll(l: Ledger, u: Usage) {
    l.sessionBytes >= u.sessionBytes && forall run :: At(l.runBytes, run) >= At(u.runBytes, run)
  }

  /** Whatever a runtime wrote can be replayed, and the replay charges no more than live usage. */
  lemma WrittenLogReplays(u: Usage, log: seq<Event>, session: SessionId)
    requires WithinBudgets(u, DEFAULT_BUDGETS) && Covers(u, log) && WellWritten(log, session)
    ensures
      var r := LedgerOf(log, session);
      && (r.Ok? || r == Err(OriginInvalid))
      && (r.Ok? ==> Charged(r.value, u))
      && (r.Ok? && Matches(u, log) ==> Charged(r.value, u) && ChargedAll(r.value, u))
  {
    forall run ensures RunTotal(log, run) <= DEFAULT_RUN_ARTIFACT_BYTES {
      assert RunTotal(log, run) <= At(u.runBytes, run);
    }
    ReplayAccepts(log, ById(log), session);
    var r := LedgerOf(log, session);
    if r.Ok? {
      forall run ensures At(r.value.runBytes, run) == RunTotal(log, run) { }
    }
  }
}
