/**
 The content-addressed store: it captures a bounded, character-aligned prefix of a text stream and
 counts the bytes against the budgets of the run and of the session.
 */
module ArtifactStores {
  import opened Wrappers
  import opened Utf8
  import opened OutputCapture
  import opened Sums

  const DEFAULT_ARTIFACT_CAPTURE_BYTES := 4 * 1024 * 1024
  const DEFAULT_RUN_ARTIFACT_BYTES := 32 * 1024 * 1024
  const DEFAULT_SESSION_ARTIFACT_BYTES := 256 * 1024 * 1024
  const MAX_ARTIFACT_CAPTURE_BYTES := 16 * 1024 * 1024

  type RunId = string

  datatype Budgets = Budgets(perArtifact: nat, perRun: nat, perSession: nat)

  const DEFAULT_BUDGETS :=
    Budgets(DEFAULT_ARTIFACT_CAPTURE_BYTES, DEFAULT_RUN_ARTIFACT_BYTES, DEFAULT_SESSION_ARTIFACT_BYTES)

  predicate ValidBudgets(b: Budgets) {
    1 <= b.perArtifact <= MAX_ARTIFACT_CAPTURE_BYTES && b.perArtifact <= b.perRun <= b.perSession
  }

  datatype CaptureStatus =
    Complete | TruncatedArtifactLimit | TruncatedRunBudget | TruncatedSessionBudget | BudgetExhausted

  datatype StoreError = LimitInvalid | SourceInvalidUtf8 | PersistFailed | BudgetInvalid

  /** The content stands for the stored object; its hash is its identity. */
  datatype Capture = Capture(artifact: Option<Bytes>, status: CaptureStatus, truncated: bool, capturedBytes: nat)

  datatype Usage = Usage(runBytes: map<RunId, nat>, sessionBytes: nat)

  ghost predicate WithinBudgets(u: Usage, b: Budgets) {
    && u.sessionBytes <= b.perSession
    && Sum(u.runBytes) <= u.sessionBytes
    && forall r :: r in u.runBytes ==> u.runBytes[r] <= b.perRun
  }

  /** A capture of so many bytes is allowed by the request and by every budget. */
  predicate MayCapture(u: Usage, b: Budgets, run: RunId, requested: nat, bytes: int) {
    && 0 <= bytes <= requested && bytes <= b.perArtifact
    && At(u.runBytes, run) + bytes <= b.perRun && u.sessionBytes + bytes <= b.perSession
  }

  /** How much a capture of `requested` bytes may still take: the largest amount that keeps every budget. */
  function Available(u: Usage, b: Budgets, run: RunId, requested: nat): (n: nat)
    ensures n > 0 ==> MayCapture(u, b, run, requested, n)
    ensures n <= requested && n <= b.perArtifact
    ensures forall k :: MayCapture(u, b, run, requested, k) ==> k <= n
  {
    var byRun := b.perRun - At(u.runBytes, run);
    var bySession := b.perSession - u.sessionBytes;
    var n := if requested <= b.perArtifact then requested else b.perArtifact;
    var n := if byRun <= n then byRun else n;
    var n := if bySession <= n then bySession else n;
    if n < 0 then 0 else n
  }

  function Charge(u: Usage, run: RunId, bytes: nat): Usage {
    Usage(u.runBytes[run := At(u.runBytes, run) + bytes], u.sessionBytes + bytes)
  }

  /** Charging what was available stays within the budgets. */
  lemma ChargeWithin(u: Usage, b: Budgets, run: RunId, requested: nat, bytes: nat)
    requires WithinBudgets(u, b) && bytes <= Available(u, b, run, requested)
    requires bytes == 0 ==> At(u.runBytes, run) <= b.perRun
    ensures WithinBudgets(Charge(u, run, bytes), b)
  {
    SumUpdate(u.runBytes, run, At(u.runBytes, run) + bytes);
  }

  /** Which limit a truncated capture hit; of several equal ones the session's comes first, then the run's. */
  function TruncationStatus(u: Usage, b: Budgets, run: RunId, requested: nat, available: nat): (s: CaptureStatus)
    ensures s != Complete && s != BudgetExhausted
    // When the budgets are kept, one byte more would pass exactly the limit that the status names, and those
    // before it are not reached.
    ensures (&& u.sessionBytes <= b.perSession && At(u.runBytes, run) <= b.perRun
             && available == Available(u, b, run, requested)) ==>
      && (s == TruncatedSessionBudget <==> u.sessionBytes + available == b.perSession && available < requested)
      && (s == TruncatedRunBudget ==>
           u.sessionBytes + available < b.perSession && At(u.runBytes, run) + available == b.perRun
             && available < requested)
      && (s == TruncatedArtifactLimit && available < requested ==>
           && available == b.perArtifact
           && u.sessionBytes + available < b.perSession && At(u.runBytes, run) + available < b.perRun)
  {
    var sessionRemaining := b.perSession - u.sessionBytes;
    var runRemaining := b.perRun - At(u.runBytes, run);
    if sessionRemaining == available && sessionRemaining < requested then TruncatedSessionBudget
    else if runRemaining == available && runRemaining < requested then TruncatedRunBudget
    else TruncatedArtifactLimit
  }

  /** The longest prefix within the limit, found by stepping back. */
  method Utf8Prefix(bytes: Bytes, maximumBytes: nat) returns (prefix: Bytes)
    requires WellFormed(bytes)
    ensures prefix == bytes[..Fit(bytes, maximumBytes)]
  {
    var truncated;
    prefix, truncated := TruncateUtf8(bytes, maximumBytes);
  }

  /**
   One step of a streaming decoder: decodes all complete characters and keeps a partial one. The
   decoded text is given as its UTF-8 bytes.
   */
  method DecodeStream(pending: Bytes, chunk: Bytes) returns (text: Result<Bytes, DecodeError>, pending': Bytes)
    ensures text.Ok? ==> WellFormed(text.value) && text.value + pending' == pending + chunk
    ensures text.Ok? ==> pending' == [] || IsPartial(pending')
    ensures text.Err? ==> !IsPrefixOfWellFormed(pending + chunk)
  {
    var buffer := pending + chunk;
    var n := Longest(buffer);
    LongestIsWellFormed(buffer);
    PrefixOfWellFormed(buffer);
    pending' := buffer[n..];
    if pending' == [] || IsPartial(pending') {
      return Ok(buffer[..n]), pending';
    }
    return Err(InvalidUtf8), pending';
  }

  /** Where the capture stands after some chunks: what was written, and the partial character held back. */
  ghost predicate CaptureSoFar(seen: Bytes, captured: Bytes, pending: Bytes, available: nat) {
    && seen == captured + pending
    && WellFormed(captured) && |captured| <= available
    && (pending == [] || IsPartial(pending))
  }

  lemma NotContinuable(captured: Bytes, buffer: Bytes, later: Bytes)
    requires WellFormed(captured) && !IsPrefixOfWellFormed(buffer)
    ensures !WellFormed(captured + buffer + later)
  {
    WellFormedConcat(captured, buffer + later);
    assert captured + buffer + later == captured + (buffer + later);
  }

  lemma CutHere(captured: Bytes, text: Bytes, pending: Bytes, later: Bytes, available: nat)
    requires WellFormed(captured) && |captured| <= available < |captured + text| && WellFormed(text)
    ensures
      var total := captured + text + pending + later;
      Fit(total, available) == |captured| + Fit(text, available - |captured|)
      && total[..Fit(total, available)] == captured + text[..Fit(text, available - |captured|)]
      && WellFormed(total[..Fit(total, available)]) && |total| > available
  {
    hide WellFormed, Longest;
    var total := captured + text + pending + later;
    assert total == (captured + text) + (pending + later);
    FitOfLonger(captured + text, pending + later, available);
    FitConcat(captured, text, available);
    FitIsLongest(total, available);
  }

  /**
   Writes the stream into a temporary file. However the text is cut into chunks, what is written is
   the longest character-aligned prefix that fits, and the flag says whether the text was longer.
   */
  method CaptureText(chunks: seq<Bytes>, available: nat) returns (r: Result<(Bytes, bool), StoreError>)
    ensures r.Ok? ==>
      && r.value.0 == Flatten(chunks)[..Fit(Flatten(chunks), available)]
      && WellFormed(r.value.0)
      && (r.value.1 <==> |Flatten(chunks)| > available)
    ensures WellFormed(Flatten(chunks)) ==> r.Ok?
    ensures r.Err? ==> r.error == SourceInvalidUtf8
  {
    hide WellFormed, IsPartial, Fit;
    NothingCaptured();
    var captured: Bytes, pending: Bytes := [], [];
    for i := 0 to |chunks|
      invariant CaptureSoFar(Flatten(chunks[..i]), captured, pending, available)
    {
      ghost var later := Flatten(chunks[i + 1..]);
      FlattenLast(chunks, i);
      FlattenSplit(chunks, i + 1);
      Regroup(captured, pending, chunks[i], later);
      var text, pending' := DecodeStream(pending, chunks[i]);
      if text.Err? {
        NotContinuable(captured, pending + chunks[i], later);
        return Err(SourceInvalidUtf8);
      }
      Regroup(captured, text.value, pending', later);
      var remaining := available - |captured|;
      if |text.value| > remaining {
        var accepted := Utf8Prefix(text.value, remaining);
        CutHere(captured, text.value, pending', later, available);
        return Ok((captured + accepted, true));
      }
      Extended(captured, text.value);
      captured := captured + text.value;
      pending := pending';
    }
    assert chunks[..|chunks|] == chunks;
    AllCaptured(captured, pending, available);
    if pending != [] { return Err(SourceInvalidUtf8); }
    assert captured + pending == captured;
    return Ok((captured, false));
  }

  lemma Regroup(captured: Bytes, pending: Bytes, chunk: Bytes, later: Bytes)
    ensures captured + pending + chunk == captured + (pending + chunk)
    ensures captured + pending + chunk + later == captured + (pending + chunk) + later
  {
  }

  lemma NothingCaptured()
    ensures WellFormed([])
  {
  }

  lemma Extended(captured: Bytes, text: Bytes)
    requires WellFormed(captured) && WellFormed(text)
    ensures WellFormed(captured + text)
  {
    WellFormedConcat(captured, text);
  }

  /** At the end of the stream, a partial character means that the text was not well-formed. */
  lemma AllCaptured(captured: Bytes, pending: Bytes, available: nat)
    requires WellFormed(captured) && |captured| <= available && (pending == [] || IsPartial(pending))
    ensures pending != [] ==> !WellFormed(captured + pending)
    ensures captured[..Fit(captured, available)] == captured
  {
    WellFormedConcat(captured, pending);
    WellFormedIsLongest(captured);
  }

  class ArtifactStore {
    const budgets: Budgets
    var usage: Usage

    ghost predicate Valid()
      reads this
    {
      ValidBudgets(budgets) && WithinBudgets(usage, budgets)
    }

    constructor (budgets: Budgets, initial: Usage)
      requires ValidBudgets(budgets) && WithinBudgets(initial, budgets)
      ensures Valid() && this.budgets == budgets && this.usage == initial
    {
      this.budgets := budgets;
      this.usage := initial;
    }

    method AvailableCaptureBytes(run: RunId, requested: int) returns (r: Result<nat, StoreError>)
      ensures r.Ok? <==> 1 <= requested <= MAX_ARTIFACT_CAPTURE_BYTES
      ensures r.Ok? ==> r.value == Available(usage, budgets, run, requested)
    {
      if requested < 1 || requested > MAX_ARTIFACT_CAPTURE_BYTES { return Err(LimitInvalid); }
      return Ok(Available(usage, budgets, run, requested));
    }

    /**
     Stores a sanitized text. `ioFails` stands for a failing write, rename or verification; a failed
     store charges nothing.
     */
    method StoreExclusive(chunks: seq<Bytes>, maximumBytes: int, run: RunId, ioFails: bool)
      returns (r: Result<Capture, StoreError>)
      requires Valid()
      modifies this
      ensures Valid()
      ensures r.Err? ==> usage == old(usage)
      ensures r.Ok? ==> 1 <= maximumBytes <= MAX_ARTIFACT_CAPTURE_BYTES
      ensures r.Ok? ==>
        var available := Available(old(usage), budgets, run, maximumBytes);
        var total := Flatten(chunks);
        if available == 0 then
          r.value == Capture(None, BudgetExhausted, true, 0) && usage == old(usage)
        else
          && r.value.artifact == Some(total[..Fit(total, available)])
          && WellFormed(r.value.artifact.value) && !ioFails
          && r.value.capturedBytes == Fit(total, available)
          && (r.value.truncated <==> |total| > available)
          && r.value.status == (if |total| > available
             then TruncationStatus(old(usage), budgets, run, maximumBytes, available)
                                else Complete)
          && usage == Charge(old(usage), run, Fit(total, available))
      ensures (&& 1 <= maximumBytes <= MAX_ARTIFACT_CAPTURE_BYTES
               && WellFormed(Flatten(chunks)) && !ioFails) ==> r.Ok?
    {
      var checked := AvailableCaptureBytes(run, maximumBytes);
      if checked.Err? { return Err(checked.error); }
      var available := checked.value;
      if available == 0 {
        return Ok(Capture(None, BudgetExhausted, true, 0));
      }
      var text := CaptureText(chunks, available);
      if text.Err? { return Err(text.error); }
      if ioFails { return Err(PersistFailed); }
      var (captured, truncated) := text.value;
      var status := if truncated then TruncationStatus(usage, budgets, run, maximumBytes, available) else Complete;
      ChargeWithin(usage, budgets, run, maximumBytes, |captured|);
      usage := Charge(usage, run, |captured|);
      return Ok(Capture(Some(captured), status, truncated, |captured|));
    }
  }

  /** Accepts listed usage as the starting point of a store, exactly when it is within the budgets. */
  method ValidateInitialUsage(runIds: seq<RunId>, bytes: map<RunId, nat>, sessionBytes: Option<nat>, budgets: Budgets)
    returns (r: Result<Usage, StoreError>)
    requires forall i, j :: 0 <= i < j < |runIds| ==> runIds[i] != runIds[j]
    requires forall run :: run in runIds <==> run in bytes
    ensures
      var expected := Usage(bytes, if sessionBytes.Some? then sessionBytes.value else Sum(bytes));
      r == if WithinBudgets(expected, budgets) then Ok(expected) else Err(BudgetInvalid)
  {
    hide Sum, WithinBudgets;
    var usage: map<RunId, nat> := map[];
    var listed: nat := 0;
    NothingListed();
    for i := 0 to |runIds|
      invariant forall run :: run in usage <==> run in runIds[..i]
      invariant forall run :: run in usage ==> run in bytes && usage[run] == bytes[run] && usage[run] <= budgets.perRun
      invariant Sum(usage) == listed && listed <= budgets.perSession
    {
      var run := runIds[i];
      assert run in runIds && run !in runIds[..i];
      TooMuch(bytes, run, usage, sessionBytes, budgets);
      if bytes[run] > budgets.perRun { return Err(BudgetInvalid); }
      SumUpdate(usage, run, bytes[run]);
      usage := usage[run := bytes[run]];
      listed := listed + bytes[run];
      TooMuch(bytes, run, usage, sessionBytes, budgets);
      if listed > budgets.perSession { return Err(BudgetInvalid); }
    }
    assert runIds[..|runIds|] == runIds;
    assert usage == bytes;
    EnoughListed(bytes, budgets);
    var total := if sessionBytes.Some? then sessionBytes.value else listed;
    if total < listed || total > budgets.perSession { return Err(BudgetInvalid); }
    return Ok(Usage(usage, total));
  }

  lemma NothingListed()
    ensures Sum<RunId>(map[]) == 0
  {
  }

  lemma TooMuch(bytes: map<RunId, nat>, run: RunId, listed: map<RunId, nat>, sessionBytes: Option<nat>,
                budgets: Budgets)
    requires run in bytes && forall r :: r in listed ==> r in bytes && listed[r] == bytes[r]
    ensures bytes[run] > budgets.perRun || Sum(listed) > budgets.perSession ==>
      !WithinBudgets(Usage(bytes, if sessionBytes.Some? then sessionBytes.value else Sum(bytes)), budgets)
  {
    SumMonotone(listed, bytes);
  }

  lemma EnoughListed(bytes: map<RunId, nat>, budgets: Budgets)
    ensures (forall r :: r in bytes ==> bytes[r] <= budgets.perRun) ==>
      forall total: nat :: WithinBudgets(Usage(bytes, total), budgets) <==> Sum(bytes) <= total <= budgets.perSession
    ensures forall total: nat :: WithinBudgets(Usage(bytes, total), budgets) ==>
      Sum(bytes) <= total <= budgets.perSession
  {
  }
}
