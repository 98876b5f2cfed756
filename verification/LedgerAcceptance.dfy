/** Which logs a replay accepts, and which stored references it authorizes, said of the events by their place. */
module LedgerAcceptance {
  import opened Wrappers
  import opened Sums
  import opened ArtifactStores
  import opened SessionLedger
  import opened ArtifactRuntime

  /** Event `k` stores an artifact for a run. */
  predicate StoresFor(log: seq<Event>, k: int, run: RunId) {
    0 <= k < |log| && log[k].body.Stored? && log[k].run == Some(run)
  }

  predicate StoresId(log: seq<Event>, k: int, id: ArtifactId) {
    0 <= k < |log| && log[k].body.Stored? && log[k].body.stored.artifactId == id
  }

  /** Event `j` is the one that stored event `k` names as its origin. */
  predicate IsOriginOf(log: seq<Event>, j: int, k: int) {
    0 <= j < |log| && 0 <= k < |log| && log[k].body.Stored? && log[j].eventId == log[k].body.stored.originEventId
  }

  /** Requests come before what they store, results after it; those that name an artifact name this one. */
  predicate OriginFits(log: seq<Event>, j: int, k: int)
    requires IsOriginOf(log, j, k)
  {
    var d := log[k].body.stored;
    && log[j].run == log[k].run
    && match log[j].body
       case EarlierOrigin => j < k
       case LaterBinding(bound) => k < j && bound == Some(d.artifactId)
       case RunStarted(capability) =>
         j < k && d.media == Plain && capability == Some(Binding(d.artifactId, d.bytes, d.objectSession))
       case RulesLoaded(loaded, rules) =>
         k < j && loaded && rules == Some(Binding(d.artifactId, d.bytes, d.objectSession))
       case ManifestLoaded(manifest) =>
         && k < j
         && (d.media == Plain ==>
              && manifest.Some? && manifest.value.artifactId == d.artifactId
              && manifest.value.objectSession == d.objectSession)
       case Stored(_) => false
       case CaptureTruncated(_) => false
       case OtherBody => false
  }

  /** A stored event that a replay accepts at its place. */
  ghost predicate StoredIsRight(log: seq<Event>, k: int, session: SessionId)
    requires 0 <= k < |log| && log[k].body.Stored?
  {
    var d := log[k].body.stored;
    && log[k].run.Some? && d.objectSession == session
    && d.bytes <= 16 * 1024 * 1024 && d.status != BudgetExhausted && (d.truncated <==> d.status != Complete)
    && (forall j :: IsOriginOf(log, j, k) ==> OriginFits(log, j, k))
    && (forall j :: j < k && StoresId(log, j, d.artifactId) ==> log[j].body.stored.bytes == d.bytes)
    && TotalBytes(log[..k + 1]) <= 256 * 1024 * 1024
    && RunTotal(log[..k + 1], log[k].run.value) <= 32 * 1024 * 1024
  }

  /** Event `j` is the last before `k` that stores something for a run. */
  ghost predicate IsLastBefore(log: seq<Event>, j: int, k: int, run: RunId) {
    j < k && StoresFor(log, j, run) && forall m :: j < m < k ==> !StoresFor(log, m, run)
  }

  /** A truncation names nothing, or what its run has stored last, and why that was cut. */
  ghost predicate TruncationIsRight(log: seq<Event>, k: int)
    requires 0 <= k < |log| && log[k].body.CaptureTruncated?
  {
    var d := log[k].body.cut;
    && log[k].run.Some? && d.capturedBytes <= d.limitBytes <= 16 * 1024 * 1024
    && match d.artifactId
       case None => d.capturedBytes == 0 && d.limitBytes == 0
       case Some(id) =>
         exists j :: IsLastBefore(log, j, k, log[k].run.value) && log[j].body.stored.artifactId == id
                     && log[j].body.stored.bytes == d.capturedBytes
                     && match log[j].body.stored.status
                        case TruncatedArtifactLimit => d.reason == ArtifactLimit
                        case TruncatedRunBudget => d.reason == RunBudget
                        case TruncatedSessionBudget => d.reason == SessionBudget
                        case _ => false
  }

  ghost predicate EventIsRight(log: seq<Event>, k: int, session: SessionId)
    requires 0 <= k < |log|
  {
    match log[k].body
    case Stored(_) => StoredIsRight(log, k, session)
    case CaptureTruncated(_) => TruncationIsRight(log, k)
    case _ => true
  }

  /** The fact of a stored event: its reference is authorized exactly when its origin is in the log. */
  ghost predicate IsFactOf(log: seq<Event>, k: int, f: StoredFact) {
    && 0 <= k < |log| && log[k].body.Stored? && log[k].run.Some?
    && var d := log[k].body.stored;
       && f.artifactId == d.artifactId && f.bytes == d.bytes && f.status == d.status && f.truncated == d.truncated
       && f.media == d.media && f.eventId == log[k].eventId && f.run == log[k].run.value && f.seqNo == log[k].seqNo
       && (f.authorized <==> exists j :: IsOriginOf(log, j, k))
  }

  // ---------- the index of the log ----------

  lemma {:induction false} ByIdOfPrefix(log: seq<Event>, n: nat)
    requires n <= |log| && forall i, j :: 0 <= i < j < |log| ==> log[i].eventId != log[j].eventId
    ensures forall j :: 0 <= j < n ==> log[j].eventId in ById(log[..n]) && ById(log[..n])[log[j].eventId] == log[j]
    ensures forall id :: id in ById(log[..n]) ==> exists j :: 0 <= j < n && log[j].eventId == id
  {
    if n > 0 {
      ByIdOfPrefix(log, n - 1);
      assert log[..n][..n - 1] == log[..n - 1];
    }
  }

  lemma ByIdFinds(log: seq<Event>, session: SessionId)
    requires InOrder(log, session)
    ensures forall j :: 0 <= j < |log| ==> log[j].eventId in ById(log) && ById(log)[log[j].eventId] == log[j]
    ensures forall id :: id in ById(log) ==> exists j :: 0 <= j < |log| && log[j].eventId == id
  {
    ByIdOfPrefix(log, |log|);
    assert log[..|log|] == log;
  }

  /** What the replay looks up and compares by number is the origin and its place. */
  lemma OriginIsPlace(log: seq<Event>, k: int, session: SessionId)
    requires InOrder(log, session) && 0 <= k < |log| && log[k].body.Stored? && log[k].run.Some?
    ensures
      var authority := OriginAuthority(log[k], log[k].run.value, log[k].body.stored, ById(log));
      && (authority.Ok? <==> forall j :: IsOriginOf(log, j, k) ==> OriginFits(log, j, k))
      && (authority.Ok? ==> (authority.value <==> exists j :: IsOriginOf(log, j, k)))
  {
    ByIdFinds(log, session);
    var d := log[k].body.stored;
    if d.originEventId in ById(log) {
      var j :| 0 <= j < |log| && log[j].eventId == d.originEventId;
      assert IsOriginOf(log, j, k);
      OnlyOrigin(log, j, k, session);
      Places(log, j, k, session);
      hide InOrder, ById, IsOriginOf;
      OriginAt(log, j, k);
    } else {
      assert forall j :: !IsOriginOf(log, j, k);
    }
  }

  lemma OnlyOrigin(log: seq<Event>, j: int, k: int, session: SessionId)
    requires InOrder(log, session) && IsOriginOf(log, j, k)
    ensures forall i :: IsOriginOf(log, i, k) ==> i == j
  {
    forall i | IsOriginOf(log, i, k) ensures i == j { assert !(i < j) && !(j < i); }
  }

  lemma Places(log: seq<Event>, j: int, k: int, session: SessionId)
    requires InOrder(log, session) && 0 <= j < |log| && 0 <= k < |log|
    ensures j < k <==> log[j].seqNo < log[k].seqNo
    ensures k < j <==> log[k].seqNo < log[j].seqNo
  {
  }

  lemma OriginAt(log: seq<Event>, j: int, k: int)
    requires IsOriginOf(log, j, k) && log[k].run.Some?
    requires j < k <==> log[j].seqNo < log[k].seqNo
    requires k < j <==> log[k].seqNo < log[j].seqNo
    ensures
      var d := log[k].body.stored;
      OriginFits(log, j, k) <==>
        OriginAuthority(log[k], log[k].run.value, d, map[d.originEventId := log[j]]) == Ok(true)
  {
  }

  // ---------- what the books hold after some events ----------

  ghost predicate BytesHold(l: Ledger, log: seq<Event>, i: nat)
    requires i <= |log|
  {
    l.sessionBytes == TotalBytes(log[..i]) && forall run :: At(l.runBytes, run) == RunTotal(log[..i], run)
  }

  ghost predicate ObjectsHold(l: Ledger, log: seq<Event>, i: nat) {
    && (forall id :: id in l.objects ==> exists j :: j < i && StoresId(log, j, id))
    && forall j, id :: j < i && StoresId(log, j, id) ==>
         id in l.objects && l.objects[id].bytes == log[j].body.stored.bytes
  }

  ghost predicate LastHolds(l: Ledger, log: seq<Event>, i: nat, run: RunId) {
    if run in l.lastStored then exists j :: IsLastBefore(log, j, i, run) && IsFactOf(log, j, l.lastStored[run])
    else forall j :: j < i ==> !StoresFor(log, j, run)
  }

  ghost predicate LastHold(l: Ledger, log: seq<Event>, i: nat) {
    forall run :: LastHolds(l, log, i, run)
  }

  ghost predicate FactsHold(l: Ledger, log: seq<Event>, i: nat) {
    && (forall f :: f in l.stored ==> exists k :: k < i && IsFactOf(log, k, f))
    && forall k :: 0 <= k < i && k < |log| && log[k].body.Stored? ==> exists f :: f in l.stored && IsFactOf(log, k, f)
  }

  ghost predicate Hold(l: Ledger, log: seq<Event>, i: nat)
    requires i <= |log|
  {
    BytesHold(l, log, i) && ObjectsHold(l, log, i) && LastHold(l, log, i) && FactsHold(l, log, i)
  }

  lemma TotalsAt(log: seq<Event>, i: nat)
    requires i < |log|
    ensures TotalBytes(log[..i + 1])
         == TotalBytes(log[..i]) + (if log[i].body.Stored? then log[i].body.stored.bytes else 0)
    ensures forall run ::
      RunTotal(log[..i + 1], run)
      == RunTotal(log[..i], run)
         + (if log[i].body.Stored? && log[i].run == Some(run) then log[i].body.stored.bytes else 0)
  {
    hide TotalBytes, RunTotal;
    assert log[..i + 1] == log[..i] + [log[i]];
    Totals(log[..i], log[i]);
  }

  /** A stored event is accepted exactly when it is right. */
  lemma StoredDecides(l: Ledger, log: seq<Event>, i: nat, session: SessionId)
    requires InOrder(log, session) && i < |log| && Hold(l, log, i) && log[i].body.Stored? && log[i].run.Some?
    ensures StepStored(l, log[i], log[i].run.value, log[i].body.stored, ById(log), session).Ok? <==>
      StoredIsRight(log, i, session)
  {
    hide InOrder, OriginAuthority, TotalBytes, RunTotal, OriginFits, IsOriginOf, LastHold, FactsHold, AfterStored;
    OriginIsPlace(log, i, session);
    TotalsAt(log, i);
    var d := log[i].body.stored;
    assert (d.artifactId in l.objects ==> l.objects[d.artifactId].bytes == d.bytes) <==>
        (forall j :: j < i && StoresId(log, j, d.artifactId) ==> log[j].body.stored.bytes == d.bytes);
  }

  lemma TruncationDecides(l: Ledger, log: seq<Event>, i: nat)
    requires i < |log| && LastHold(l, log, i) && log[i].body.CaptureTruncated? && log[i].run.Some?
    ensures StepTruncated(l, log[i].run.value, log[i].body.cut).Ok? <==> TruncationIsRight(log, i)
  {
    hide IsOriginOf;
    var d, run := log[i].body.cut, log[i].run.value;
    forall j, m | IsLastBefore(log, j, i, run) && IsLastBefore(log, m, i, run) ensures j == m {
      assert !(j < m) && !(m < j);
    }
    assert LastHolds(l, log, i, run);
    if run in l.lastStored {
      var j :| IsLastBefore(log, j, i, run) && IsFactOf(log, j, l.lastStored[run]);
    }
  }

  lemma StepDecides(l: Ledger, log: seq<Event>, i: nat, session: SessionId)
    requires InOrder(log, session) && i < |log| && Hold(l, log, i)
    ensures Step(l, log[i], ById(log), session).Ok? <==> EventIsRight(log, i, session)
    ensures Step(l, log[i], ById(log), session).Ok? ==> Hold(Step(l, log[i], ById(log), session).value, log, i + 1)
  {
    hide InOrder, Hold, StepStored, StepTruncated;
    match log[i].body
    case Stored(d) =>
      if log[i].run.Some? {
        StoredDecides(l, log, i, session);
        if StepStored(l, log[i], log[i].run.value, d, ById(log), session).Ok? { StoredHolds(l, log, i, session); }
      }
    case CaptureTruncated(d) =>
      if log[i].run.Some? {
        assert LastHold(l, log, i) by { HoldLast(l, log, i); }
        TruncationDecides(l, log, i);
        OthersHold(l, log, i, l.(truncatedCount := l.truncatedCount + 1));
        TruncatedBooks(l, log[i].run.value, d);
      }
    case _ =>
      OthersHold(l, log, i, l);
  }

  lemma HoldLast(l: Ledger, log: seq<Event>, i: nat)
    requires i <= |log| && Hold(l, log, i)
    ensures LastHold(l, log, i)
  {
  }

  lemma TruncatedBooks(l: Ledger, run: RunId, d: TruncatedData)
    ensures StepTruncated(l, run, d).Ok? ==>
      StepTruncated(l, run, d).value == l.(truncatedCount := l.truncatedCount + 1)
  {
  }

  /** An event that stores nothing leaves the books. */
  lemma OthersHold(l: Ledger, log: seq<Event>, i: nat, l': Ledger)
    requires i < |log| && Hold(l, log, i) && !log[i].body.Stored? && l' == l.(truncatedCount := l'.truncatedCount)
    ensures Hold(l', log, i + 1)
  {
    hide IsFactOf, TotalBytes, RunTotal;
    TotalsAt(log, i);
    var n := i + 1;
    forall run ensures LastHolds(l', log, n, run) {
      assert LastHolds(l, log, i, run);
      if run in l.lastStored {
        var j :| IsLastBefore(log, j, i, run) && IsFactOf(log, j, l.lastStored[run]);
        assert IsLastBefore(log, j, i + 1, run);
      }
    }
  }

  /** A stored event enters the books. */
  lemma StoredHolds(l: Ledger, log: seq<Event>, i: nat, session: SessionId)
    requires InOrder(log, session) && i < |log| && Hold(l, log, i) && log[i].body.Stored? && log[i].run.Some?
    requires StepStored(l, log[i], log[i].run.value, log[i].body.stored, ById(log), session).Ok?
    ensures
      Hold(StepStored(l, log[i], log[i].run.value, log[i].body.stored, ById(log), session).value, log, i + 1)
  {
    var d, run := log[i].body.stored, log[i].run.value;
    var authority := OriginAuthority(log[i], run, d, ById(log));
    var l' := AfterStored(l, log[i], run, d, authority.value);
    assert StepStored(l, log[i], run, d, ById(log), session) == Ok(l');
    OriginIsPlace(log, i, session);
    var fact := FactOf(log[i], run, d, authority.value);
    assert IsFactOf(log, i, fact);
    hide InOrder, OriginAuthority, StepStored, ById;
    StoredBytes(l, log, i, l', run, d, authority.value);
    StoredObjects(l, log, i, l', run, d, authority.value);
    StoredLast(l, log, i, l', run, d, authority.value);
    StoredFacts(l, log, i, l', run, d, authority.value);
  }

  lemma StoredBytes(l: Ledger, log: seq<Event>, i: nat, l': Ledger, run: RunId, d: StoredData, authorized: bool)
    requires i < |log| && BytesHold(l, log, i) && log[i].body == Stored(d) && log[i].run == Some(run)
    requires l' == AfterStored(l, log[i], run, d, authorized)
    ensures BytesHold(l', log, i + 1)
  {
    hide TotalBytes, RunTotal, AddReference;
    TotalsAt(log, i);
    var after := log[..i + 1];
    forall r ensures At(l'.runBytes, r) == RunTotal(after, r) {
      assert At(l.runBytes, r) == RunTotal(log[..i], r);
    }
  }

  lemma StoredObjects(l: Ledger, log: seq<Event>, i: nat, l': Ledger, run: RunId, d: StoredData, authorized: bool)
    requires i < |log| && ObjectsHold(l, log, i) && log[i].body == Stored(d) && log[i].run == Some(run)
    requires l' == AfterStored(l, log[i], run, d, authorized)
    requires d.artifactId in l.objects ==> l.objects[d.artifactId].bytes == d.bytes
    ensures ObjectsHold(l', log, i + 1)
  {
    assert StoresId(log, i, d.artifactId);
    forall id | id in l'.objects ensures exists j :: j < i + 1 && StoresId(log, j, id) {
      if id in l.objects {
        var j :| j < i && StoresId(log, j, id);
        assert j < i + 1;
      }
    }
  }

  lemma StoredLast(l: Ledger, log: seq<Event>, i: nat, l': Ledger, run: RunId, d: StoredData, authorized: bool)
    requires i < |log| && LastHold(l, log, i) && log[i].body == Stored(d) && log[i].run == Some(run)
    requires l' == AfterStored(l, log[i], run, d, authorized)
    requires IsFactOf(log, i, FactOf(log[i], run, d, authorized))
    ensures LastHold(l', log, i + 1)
  {
    hide IsFactOf, AddReference, FactOf;
    var n := i + 1;
    forall r ensures LastHolds(l', log, n, r) {
      assert LastHolds(l, log, i, r);
      if r == run {
        assert IsLastBefore(log, i, i + 1, r);
      } else if r in l.lastStored {
        var j :| IsLastBefore(log, j, i, r) && IsFactOf(log, j, l.lastStored[r]);
        assert IsLastBefore(log, j, i + 1, r);
      }
    }
  }

  lemma StoredFacts(l: Ledger, log: seq<Event>, i: nat, l': Ledger, run: RunId, d: StoredData, authorized: bool)
    requires i < |log| && FactsHold(l, log, i) && log[i].body == Stored(d) && log[i].run == Some(run)
    requires l' == AfterStored(l, log[i], run, d, authorized)
    requires IsFactOf(log, i, FactOf(log[i], run, d, authorized))
    ensures FactsHold(l', log, i + 1)
  {
    hide IsFactOf, AddReference, FactOf;
    var fact := FactOf(log[i], run, d, authorized);
    assert l'.stored == l.stored + [fact] && fact in l'.stored;
    forall f | f in l'.stored ensures exists k :: k < i + 1 && IsFactOf(log, k, f) {
      if f in l.stored {
        var k :| k < i && IsFactOf(log, k, f);
        assert k < i + 1;
      } else {
        assert f == fact && i < i + 1;
      }
    }
    forall k | 0 <= k < i + 1 && k < |log| && log[k].body.Stored?
      ensures exists f :: f in l'.stored && IsFactOf(log, k, f)
    {
      if k < i {
        var f :| f in l.stored && IsFactOf(log, k, f);
        assert f in l'.stored;
      }
    }
  }

  // ---------- the whole log ----------

  lemma {:induction false} PrefixAccepted(log: seq<Event>, i: nat, session: SessionId)
    requires InOrder(log, session) && i <= |log|
    ensures
      var r := Replay(log[..i], ById(log), session);
      && (r.Ok? <==> forall k :: 0 <= k < i ==> EventIsRight(log, k, session))
      && (r.Ok? ==> Hold(r.value, log, i))
  {
    hide InOrder, ById, EventIsRight, Hold, Step;
    if i == 0 {
      NothingHolds(log);
    } else {
      PrefixAccepted(log, i - 1, session);
      assert log[..i][..i - 1] == log[..i - 1];
      var before := Replay(log[..i - 1], ById(log), session);
      if before.Ok? { StepDecides(before.value, log, i - 1, session); }
    }
  }

  lemma NothingHolds(log: seq<Event>)
    ensures Hold(EMPTY, log, 0)
  {
    assert log[..0] == [];
    assert BytesHold(EMPTY, log, 0);
    assert ObjectsHold(EMPTY, log, 0);
    assert FactsHold(EMPTY, log, 0);
    assert LastHold(EMPTY, log, 0);
  }

  /**
   A log in order is accepted exactly when each of its events is right at its place; and then there is
   one fact for each stored event, authorized exactly when its origin is in the log.
   */
  lemma AcceptedIff(log: seq<Event>, session: SessionId)
    requires InOrder(log, session)
    ensures
      var r := LedgerOf(log, session);
      && (r.Ok? <==> forall k :: 0 <= k < |log| ==> EventIsRight(log, k, session))
      && (r.Ok? ==>
           && (forall f :: f in r.value.stored ==> exists k :: IsFactOf(log, k, f))
           && forall k :: 0 <= k < |log| && log[k].body.Stored? ==>
                exists f :: f in r.value.stored && IsFactOf(log, k, f))
  {
    hide InOrder, ById, EventIsRight, Replay, IsFactOf;
    assert log[..|log|] == log;
    PrefixAccepted(log, |log|, session);
  }
}
