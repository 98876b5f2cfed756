/** The budgets of an agent run and the guard against repeated calls. */
module AgentBudget {
  import opened Wrappers

  datatype Limits = Limits(maxDurationMs: nat, maxSteps: nat, maxTokens: nat, maxToolOutputBytes: nat)

  datatype BudgetReason = MaxDuration | MaxSteps | MaxTokens | MaxToolOutput

  datatype BudgetExceeded = BudgetExceeded(limit: nat, observed: nat, reason: BudgetReason)

  function Total(amounts: seq<nat>): nat {
    if amounts == [] then 0 else Total(amounts[..|amounts| - 1]) + amounts[|amounts| - 1]
  }

  lemma TotalMore(amounts: seq<nat>, amount: nat)
    ensures Total(amounts + [amount]) == Total(amounts) + amount
  {
  }

  /** What was spent before the last amount was still below the limit. */
  ghost predicate LastMayOvershoot(amounts: seq<nat>, limit: nat) {
    amounts != [] ==> Total(amounts[..|amounts| - 1]) < limit
  }

  // ---------- which budget is spent first ----------

  datatype BudgetSnapshot = BudgetSnapshot(elapsedMs: nat, steps: nat, totalTokens: nat, toolOutputBytes: nat)

  function LimitOf(limits: Limits, reason: BudgetReason): nat {
    match reason
    case MaxDuration => limits.maxDurationMs
    case MaxSteps => limits.maxSteps
    case MaxTokens => limits.maxTokens
    case MaxToolOutput => limits.maxToolOutputBytes
  }

  function Spent(s: BudgetSnapshot, reason: BudgetReason): nat {
    match reason
    case MaxDuration => s.elapsedMs
    case MaxSteps => s.steps
    case MaxTokens => s.totalTokens
    case MaxToolOutput => s.toolOutputBytes
  }

  /** The orders in which the budgets are looked at. */
  const BEFORE_STEP := [MaxDuration, MaxSteps, MaxTokens, MaxToolOutput]
  const AFTER_MODEL := [MaxDuration, MaxTokens]
  const AFTER_TOOL := [MaxDuration, MaxTokens, MaxToolOutput]

  predicate IsSpent(limits: Limits, s: BudgetSnapshot, reason: BudgetReason) {
    Spent(s, reason) >= LimitOf(limits, reason)
  }

  ghost predicate IsFirstSpent(order: seq<BudgetReason>, limits: Limits, s: BudgetSnapshot, reason: BudgetReason) {
    exists i :: 0 <= i < |order| && order[i] == reason && IsSpent(limits, s, reason)
                && forall j :: 0 <= j < i ==> !IsSpent(limits, s, order[j])
  }

  ghost predicate NothingSpent(order: seq<BudgetReason>, limits: Limits, s: BudgetSnapshot) {
    forall i :: 0 <= i < |order| ==> !IsSpent(limits, s, order[i])
  }

  /** The first spent budget of an order with its limit and amount, or none when nothing is spent. */
  ghost predicate Reports(order: seq<BudgetReason>, limits: Limits, s: BudgetSnapshot, r: Option<BudgetExceeded>) {
    match r
    case None => NothingSpent(order, limits, s)
    case Some(e) =>
      && IsFirstSpent(order, limits, s, e.reason)
      && e.limit == LimitOf(limits, e.reason) && e.observed == Spent(s, e.reason)
  }

  lemma FirstSpentIsUnique(order: seq<BudgetReason>, limits: Limits, s: BudgetSnapshot, a: BudgetReason,
                            b: BudgetReason)
    requires IsFirstSpent(order, limits, s, a)
    ensures !NothingSpent(order, limits, s) && (IsFirstSpent(order, limits, s, b) ==> a == b)
  {
    hide IsSpent;
    if IsFirstSpent(order, limits, s, b) {
      var i :| 0 <= i < |order| && order[i] == a && IsSpent(limits, s, a)
               && forall j :: 0 <= j < i ==> !IsSpent(limits, s, order[j]);
      var k :| 0 <= k < |order| && order[k] == b && IsSpent(limits, s, b)
               && forall j :: 0 <= j < k ==> !IsSpent(limits, s, order[j]);
      assert !(i < k) && !(k < i);
    }
  }

  class BudgetTracker {
    const limits: Limits
    var steps: nat
    var toolOutputBytes: nat
    var totalTokens: nat
    /** The token counts and output sizes recorded so far. */
    ghost var usages: seq<nat>
    ghost var outputs: seq<nat>

    ghost predicate Valid()
      reads this
    {
      totalTokens == Total(usages) && toolOutputBytes == Total(outputs)
    }

    ghost function Snapshot(elapsedMs: nat): BudgetSnapshot
      reads this
    {
      BudgetSnapshot(elapsedMs, steps, Total(usages), Total(outputs))
    }

    constructor (limits: Limits)
      ensures Valid() && this.limits == limits && steps == 0 && usages == [] && outputs == []
    {
      this.limits := limits;
      this.steps, this.toolOutputBytes, this.totalTokens := 0, 0, 0;
      this.usages, this.outputs := [], [];
    }

    method BeginStep() returns (step: nat)
      requires Valid()
      modifies this`steps
      ensures Valid() && step == steps == old(steps) + 1
    {
      steps := steps + 1;
      return steps;
    }

    method RecordUsage(tokens: nat)
      requires Valid()
      modifies this`totalTokens, this`usages
      ensures Valid() && usages == old(usages) + [tokens]
    {
      TotalMore(usages, tokens);
      totalTokens := totalTokens + tokens;
      usages := usages + [tokens];
    }

    method RecordToolOutput(bytes: nat)
      requires Valid()
      modifies this`toolOutputBytes, this`outputs
      ensures Valid() && outputs == old(outputs) + [bytes]
    {
      TotalMore(outputs, bytes);
      toolOutputBytes := toolOutputBytes + bytes;
      outputs := outputs + [bytes];
    }

    /** The gate before a model turn: nothing exactly when every total is below its limit. */
    function CheckBeforeStep(elapsedMs: nat): (r: Option<BudgetExceeded>)
      requires Valid()
      reads this
      ensures Reports(BEFORE_STEP, limits, Snapshot(elapsedMs), r)
      ensures r.None? <==>
        && elapsedMs < limits.maxDurationMs && steps < limits.maxSteps
        && Total(usages) < limits.maxTokens && Total(outputs) < limits.maxToolOutputBytes
    {
      OrderBeforeStep(limits, Snapshot(elapsedMs));
      if elapsedMs >= limits.maxDurationMs then Some(BudgetExceeded(limits.maxDurationMs, elapsedMs, MaxDuration))
      else if steps >= limits.maxSteps then Some(BudgetExceeded(limits.maxSteps, steps, MaxSteps))
      else if totalTokens >= limits.maxTokens then Some(BudgetExceeded(limits.maxTokens, totalTokens, MaxTokens))
      else if toolOutputBytes >= limits.maxToolOutputBytes then
        Some(BudgetExceeded(limits.maxToolOutputBytes, toolOutputBytes, MaxToolOutput))
      else None
    }

    /** The gate between a model turn and the tool that it asks for. */
    function CheckAfterModelForMoreWork(elapsedMs: nat): (r: Option<BudgetExceeded>)
      requires Valid()
      reads this
      ensures Reports(AFTER_MODEL, limits, Snapshot(elapsedMs), r)
      ensures r.None? <==> elapsedMs < limits.maxDurationMs && Total(usages) < limits.maxTokens
    {
      OrderAfterModel(limits, Snapshot(elapsedMs));
      if elapsedMs >= limits.maxDurationMs then Some(BudgetExceeded(limits.maxDurationMs, elapsedMs, MaxDuration))
      else if totalTokens >= limits.maxTokens then Some(BudgetExceeded(limits.maxTokens, totalTokens, MaxTokens))
      else None
    }

    /** The gate between a tool result and the next model turn. */
    function CheckAfterToolOutput(elapsedMs: nat): (r: Option<BudgetExceeded>)
      requires Valid()
      reads this
      ensures Reports(AFTER_TOOL, limits, Snapshot(elapsedMs), r)
      ensures r.None? <==>
        && elapsedMs < limits.maxDurationMs && Total(usages) < limits.maxTokens
        && Total(outputs) < limits.maxToolOutputBytes
    {
      OrderAfterTool(limits, Snapshot(elapsedMs));
      if elapsedMs >= limits.maxDurationMs then Some(BudgetExceeded(limits.maxDurationMs, elapsedMs, MaxDuration))
      else if totalTokens >= limits.maxTokens then Some(BudgetExceeded(limits.maxTokens, totalTokens, MaxTokens))
      else if toolOutputBytes >= limits.maxToolOutputBytes then
        Some(BudgetExceeded(limits.maxToolOutputBytes, toolOutputBytes, MaxToolOutput))
      else None
    }
  }

  lemma IsFirstAt(order: seq<BudgetReason>, limits: Limits, s: BudgetSnapshot, i: nat)
    requires i < |order| && IsSpent(limits, s, order[i])
    requires forall j :: 0 <= j < i ==> !IsSpent(limits, s, order[j])
    ensures IsFirstSpent(order, limits, s, order[i])
  {
  }

  lemma OrderBeforeStep(limits: Limits, s: BudgetSnapshot)
    ensures
      if s.elapsedMs >= limits.maxDurationMs then IsFirstSpent(BEFORE_STEP, limits, s, MaxDuration)
      else if s.steps >= limits.maxSteps then IsFirstSpent(BEFORE_STEP, limits, s, MaxSteps)
      else if s.totalTokens >= limits.maxTokens then IsFirstSpent(BEFORE_STEP, limits, s, MaxTokens)
      else if s.toolOutputBytes >= limits.maxToolOutputBytes then IsFirstSpent(BEFORE_STEP, limits, s, MaxToolOutput)
      else NothingSpent(BEFORE_STEP, limits, s)
  {
    hide IsFirstSpent;
    if s.elapsedMs >= limits.maxDurationMs { IsFirstAt(BEFORE_STEP, limits, s, 0); }
    else if s.steps >= limits.maxSteps { IsFirstAt(BEFORE_STEP, limits, s, 1); }
    else if s.totalTokens >= limits.maxTokens { IsFirstAt(BEFORE_STEP, limits, s, 2); }
    else if s.toolOutputBytes >= limits.maxToolOutputBytes { IsFirstAt(BEFORE_STEP, limits, s, 3); }
  }

  lemma OrderAfterModel(limits: Limits, s: BudgetSnapshot)
    ensures
      if s.elapsedMs >= limits.maxDurationMs then IsFirstSpent(AFTER_MODEL, limits, s, MaxDuration)
      else if s.totalTokens >= limits.maxTokens then IsFirstSpent(AFTER_MODEL, limits, s, MaxTokens)
      else NothingSpent(AFTER_MODEL, limits, s)
  {
    hide IsFirstSpent;
    if s.elapsedMs >= limits.maxDurationMs { IsFirstAt(AFTER_MODEL, limits, s, 0); }
    else if s.totalTokens >= limits.maxTokens { IsFirstAt(AFTER_MODEL, limits, s, 1); }
  }

  lemma OrderAfterTool(limits: Limits, s: BudgetSnapshot)
    ensures
      if s.elapsedMs >= limits.maxDurationMs then IsFirstSpent(AFTER_TOOL, limits, s, MaxDuration)
      else if s.totalTokens >= limits.maxTokens then IsFirstSpent(AFTER_TOOL, limits, s, MaxTokens)
      else if s.toolOutputBytes >= limits.maxToolOutputBytes then IsFirstSpent(AFTER_TOOL, limits, s, MaxToolOutput)
      else NothingSpent(AFTER_TOOL, limits, s)
  {
    hide IsFirstSpent;
    if s.elapsedMs >= limits.maxDurationMs { IsFirstAt(AFTER_TOOL, limits, s, 0); }
    else if s.totalTokens >= limits.maxTokens { IsFirstAt(AFTER_TOOL, limits, s, 1); }
    else if s.toolOutputBytes >= limits.maxToolOutputBytes { IsFirstAt(AFTER_TOOL, limits, s, 2); }
  }

  // ---------- repetition ----------

  /** How many equal entries a history ends with. */
  function LastRun(history: seq<string>): (n: nat)
    ensures n <= |history| && (history != [] ==> n >= 1)
  {
    if |history| <= 1 then |history|
    else if history[|history| - 1] == history[|history| - 2] then LastRun(history[..|history| - 1]) + 1
    else 1
  }

  predicate NoThreeEqual(history: seq<string>) {
    forall i :: 0 <= i < |history| - 2 ==> !(history[i] == history[i + 1] == history[i + 2])
  }

  /** One more entry makes no triple exactly when it ends a run of at most two. */
  lemma OneMoreEntry(history: seq<string>, entry: string)
    ensures LastRun(history + [entry])
         == (if history != [] && history[|history| - 1] == entry then LastRun(history) + 1 else 1)
    ensures NoThreeEqual(history) ==> (NoThreeEqual(history + [entry]) <==> LastRun(history + [entry]) < 3)
  {
    var more := history + [entry];
    assert more[..|history|] == history;
    if |history| >= 2 {
      assert history[..|history| - 1][|history| - 2] == history[|history| - 2];
      assert LastRun(history) >= 2 <==> history[|history| - 1] == history[|history| - 2];
      if NoThreeEqual(history) && !NoThreeEqual(more) {
        var i :| 0 <= i < |more| - 2 && more[i] == more[i + 1] == more[i + 2];
        assert i == |history| - 2;
      }
      if history[|history| - 2] == history[|history| - 1] == entry {
        assert more[|history| - 2] == more[|history| - 1] == more[|history|];
      }
    }
  }

  lemma NoEntries()
    ensures LastRun([]) == 0
  {
  }

  class RepetitionDetector {
    const fingerprintOf: (string, string) -> string
    var consecutiveCount: nat
    var previousFingerprint: Option<string>
    ghost var observed: seq<string>

    ghost predicate Valid()
      reads this
    {
      && consecutiveCount == LastRun(observed)
      && previousFingerprint == if observed == [] then None else Some(observed[|observed| - 1])
    }

    constructor (fingerprintOf: (string, string) -> string)
      ensures Valid() && observed == [] && this.fingerprintOf == fingerprintOf
    {
      this.fingerprintOf := fingerprintOf;
      this.consecutiveCount, this.previousFingerprint := 0, None;
      this.observed := [];
    }

    /** A call is blocked when it is the third equal one in a row. */
    method Observe(toolName: string, argumentsJson: string) returns (blocked: bool, count: nat, fingerprint: string)
      requires Valid()
      modifies this
      ensures Valid() && fingerprint == fingerprintOf(toolName, argumentsJson)
      ensures observed == old(observed) + [fingerprint] && count == LastRun(observed)
      ensures blocked <==> count >= 3
      ensures NoThreeEqual(old(observed)) ==> (blocked <==> !NoThreeEqual(observed))
    {
      hide LastRun, NoThreeEqual;
      fingerprint := fingerprintOf(toolName, argumentsJson);
      OneMoreEntry(observed, fingerprint);
      NoEntries();
      if Some(fingerprint) == previousFingerprint {
        consecutiveCount := consecutiveCount + 1;
      } else {
        previousFingerprint := Some(fingerprint);
        consecutiveCount := 1;
      }
      observed := observed + [fingerprint];
      return consecutiveCount >= 3, consecutiveCount, fingerprint;
    }
  }
}
