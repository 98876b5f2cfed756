/**
 The agent loop: model turns and tool calls in alternation, until a final text, an accepted
 completion, a budget, a cancellation or a failure ends the run. What the world does at each step is a
 parameter; what the loop publishes is a trace.
 */
module AgentLoop {
  import opened Wrappers
  import opened AgentBudget
  import opened ModelTurn
  import opened AgentDecision

  datatype Aggregate = Aggregate(inputTokens: nat, outputTokens: nat, totalTokens: nat, cachedTokens: Option<nat>,
                                 modelTurns: nat)

  /** What is published, and the executions of tools. */
  datatype TraceEvent =
    | CallAdopted(callId: string)
    | CallRecovered(callId: string)
    | StepStarted(step: nat)
    | ModelUsage(usage: Usage)
    | StepCompleted(step: nat)
    | CallRequested(callId: string, fingerprint: string)
    | CallExecuted(callId: string, modelFingerprint: Option<string>)
    | CallCompleted(callId: string, toolName: string, accepted: bool, outputBytes: nat)
    | AggregateUsage(aggregate: Aggregate)

  // ---------- what a trace says ----------

  /** Whether a call is open, and whether requests and completions have matched so far. */
  datatype Bracket = Closed | Open(callId: string) | Broken

  datatype Summary = Summary(
    bracket: Bracket,
    started: nat,
    usages: seq<Usage>,
    executed: seq<string>,
    aggregates: seq<Aggregate>,
    completedCalls: nat,
    accepted: bool,
    outputs: seq<nat>)

  /** The size of the error text that stands for a blocked call. */
  const BLOCKED_OUTPUT_BYTES := 151

  const NOTHING := Summary(Closed, 0, [], [], [], 0, false, [])

  /** Calls and model turns come only while no call is open; results only for the open call. */
  function Read(s: Summary, e: TraceEvent): Summary {
    match e
    case CallAdopted(id) => s.(bracket := if s.bracket == Closed then Open(id) else Broken, accepted := false)
    case CallRequested(id, _) => s.(bracket := if s.bracket == Closed then Open(id) else Broken, accepted := false)
    case CallRecovered(id) => s.(bracket := if s.bracket == Open(id) then s.bracket else Broken)
    case CallExecuted(id, fingerprint) =>
      s.(bracket := if s.bracket == Open(id) then s.bracket else Broken,
         executed := s.executed + if fingerprint.Some? then [fingerprint.value] else [])
    case CallCompleted(id, name, accepted, bytes) =>
      s.(bracket := if s.bracket == Open(id) then Closed else Broken, completedCalls := s.completedCalls + 1,
         accepted := name == "finish_task" && accepted, outputs := s.outputs + [bytes])
    case StepStarted(_) =>
      s.(bracket := if s.bracket == Closed then Closed else Broken, started := s.started + 1, accepted := false)
    case ModelUsage(usage) =>
      s.(bracket := if s.bracket == Closed then Closed else Broken, usages := s.usages + [usage])
    case StepCompleted(_) => s.(bracket := if s.bracket == Closed then Closed else Broken)
    case AggregateUsage(aggregate) => s.(aggregates := s.aggregates + [aggregate])
  }

  function Summarize(trace: seq<TraceEvent>): Summary {
    if trace == [] then NOTHING else Read(Summarize(trace[..|trace| - 1]), trace[|trace| - 1])
  }

  lemma ReadsLast(trace: seq<TraceEvent>, e: TraceEvent)
    ensures Summarize(trace + [e]) == Read(Summarize(trace), e)
  {
  }

  predicate Opens(e: TraceEvent, id: string) {
    e == CallAdopted(id) || (e.CallRequested? && e.callId == id)
  }

  predicate Closes(e: TraceEvent, id: string) {
    e.CallCompleted? && e.callId == id
  }

  /** No call is opened or closed and no model turn starts between two places. */
  predicate Quiet(trace: seq<TraceEvent>, i: nat, j: nat)
    requires j <= |trace|
  {
    forall m :: i < m < j ==>
      !trace[m].CallAdopted? && !trace[m].CallRequested? && !trace[m].CallCompleted? && !trace[m].StepStarted?
  }

  lemma {:induction false} BrokenStays(trace: seq<TraceEvent>, k: nat)
    requires k <= |trace| && Summarize(trace[..k]).bracket == Broken
    ensures Summarize(trace).bracket == Broken
    decreases |trace|
  {
    if k == |trace| {
      assert trace[..k] == trace;
    } else {
      assert trace[..|trace| - 1][..k] == trace[..k];
      BrokenStays(trace[..|trace| - 1], k);
    }
  }

  /** Up to a place, an opened call is still open or has been closed by its own result. */
  lemma {:induction false} OpenUntilClosed(trace: seq<TraceEvent>, i: nat, id: string, k: nat)
    requires i < k <= |trace| && Opens(trace[i], id) && Summarize(trace).bracket != Broken
    ensures (Summarize(trace[..k]).bracket == Open(id) && Quiet(trace, i, k))
         || exists j :: i < j < k && Closes(trace[j], id) && Quiet(trace, i, j)
  {
    hide Summarize, Read;
    ReadsLast(trace[..k - 1], trace[k - 1]);
    assert trace[..k - 1] + [trace[k - 1]] == trace[..k];
    if Summarize(trace[..k]).bracket == Broken { BrokenStays(trace, k); }
    BracketStep(Summarize(trace[..k - 1]), trace[k - 1], id);
    if k - 1 > i {
      OpenUntilClosed(trace, i, id, k - 1);
      if Summarize(trace[..k - 1]).bracket == Open(id) && Quiet(trace, i, k - 1) && trace[k - 1].CallCompleted? {
        assert Closes(trace[k - 1], id) && Quiet(trace, i, k - 1);
      }
    }
  }

  /** One more event opens a call, keeps it open, or closes it by its result; anything else breaks the brackets. */
  lemma BracketStep(s: Summary, e: TraceEvent, id: string)
    ensures Opens(e, id) && Read(s, e).bracket != Broken ==> Read(s, e).bracket == Open(id)
    ensures s.bracket == Open(id) && Read(s, e).bracket != Broken ==>
      if e.CallCompleted? then Closes(e, id) else Read(s, e).bracket == Open(id) && !Opens(e, id) && !e.StepStarted?
    ensures s.bracket == Open(id) && (e.CallAdopted? || e.CallRequested? || e.StepStarted?) ==>
      Read(s, e).bracket == Broken
  {
  }

  /** In a closed trace every opened call is closed by its own result, with no other call or turn in between. */
  lemma EveryCallIsClosed(trace: seq<TraceEvent>, i: nat, id: string)
    requires Summarize(trace).bracket == Closed && i < |trace| && Opens(trace[i], id)
    ensures exists j :: i < j < |trace| && Closes(trace[j], id) && Quiet(trace, i, j)
  {
    assert trace[..|trace|] == trace;
    OpenUntilClosed(trace, i, id, |trace|);
  }

  function InputTokens(usages: seq<Usage>): nat {
    if usages == [] then 0 else InputTokens(usages[..|usages| - 1]) + usages[|usages| - 1].inputTokens
  }

  function OutputTokens(usages: seq<Usage>): nat {
    if usages == [] then 0 else OutputTokens(usages[..|usages| - 1]) + usages[|usages| - 1].outputTokens
  }

  function TotalTokens(usages: seq<Usage>): nat {
    if usages == [] then 0 else TotalTokens(usages[..|usages| - 1]) + usages[|usages| - 1].totalTokens
  }

  /** The cached tokens of all turns, known only when every turn reports them. */
  function CachedTokens(usages: seq<Usage>): Option<nat> {
    if usages == [] then Some(0)
    else
      var before, last := CachedTokens(usages[..|usages| - 1]), usages[|usages| - 1].cacheReadTokens;
      if before.None? || last.None? then None else Some(before.value + last.value)
  }

  function AggregateOf(usages: seq<Usage>): Aggregate {
    Aggregate(InputTokens(usages), OutputTokens(usages), TotalTokens(usages), CachedTokens(usages), |usages|)
  }

  function TokensOf(usages: seq<Usage>): seq<nat> {
    seq(|usages|, i requires 0 <= i < |usages| => usages[i].totalTokens)
  }

  // ---------- what holds between the steps ----------

  /** What holds whenever no call is open and the aggregate is not yet published. */
  ghost predicate IsSound(s: Summary, usages: seq<Usage>) {
    s.bracket == Closed && s.usages == usages && s.aggregates == [] && NoThreeEqual(s.executed) && |usages| <= s.started
  }

  /** What holds for every trace of a run that returns an outcome. */
  ghost predicate IsSettled(s: Summary) {
    && s.bracket == Closed && NoThreeEqual(s.executed)
    && |s.aggregates| <= 1
    && (s.aggregates != [] ==> s.usages != [] && |s.usages| == s.started && s.aggregates[0] == AggregateOf(s.usages))
  }

  /** Only the output of an inherited call comes without a check of its budget. */
  ghost predicate OutputsWithin(outputs: seq<nat>, limit: nat, adopts: bool) {
    LastMayOvershoot(outputs, limit) || (adopts && |outputs| == 1)
  }

  /** The calls that a trace tells of are the same. */
  ghost predicate SameCalls(before: Summary, after: Summary) {
    after.executed == before.executed && after.completedCalls == before.completedCalls
      && after.outputs == before.outputs
  }

  class AgentRun {
    const config: Config
    /** Whether the run takes over a call from an earlier one. */
    const adopts: bool
    const budget: BudgetTracker
    const repetition: RepetitionDetector
    var trace: seq<TraceEvent>
    var usages: seq<Usage>
    var abortReason: Option<AbortReason>
    var aggregatePublished: bool
    /** The budgets may be overshot only by their last amounts. */
    ghost predicate WithinBudgets()
      reads this, budget
    {
      && budget.steps <= config.limits.maxSteps
      && LastMayOvershoot(budget.usages, config.limits.maxTokens)
      && OutputsWithin(Summarize(trace).outputs, config.limits.maxToolOutputBytes, adopts)
    }

    /** Every total is below its limit. */
    ghost predicate BelowLimits(elapsed: nat)
      reads this, budget
    {
      && elapsed < config.limits.maxDurationMs && budget.steps < config.limits.maxSteps
      && Total(budget.usages) < config.limits.maxTokens && Total(budget.outputs) < config.limits.maxToolOutputBytes
    }

    ghost predicate Valid()
      reads this, budget, repetition
    {
      && budget.Valid() && repetition.Valid() && budget.limits == config.limits
      && Summarize(trace).started == budget.steps && TokensOf(Summarize(trace).usages) == budget.usages
      && WithinBudgets()
    }

    ghost function State(): RunState
      reads this, budget, repetition
    {
      RunState(abortReason, budget.steps, Total(budget.usages), Total(budget.outputs), repetition.observed,
        Summarize(trace).completedCalls)
    }

    /** Valid, no call open, nothing aggregated. */
    ghost predicate Sound()
      reads this, budget, repetition
    {
      && Valid() && !aggregatePublished
      && IsSound(Summarize(trace), usages)
    }

    ghost predicate Settled()
      reads this, budget, repetition
    {
      Valid() && IsSettled(Summarize(trace))
    }

    /** A run starts with a new tracker and a new detector. */
    constructor (config: Config, adopts: bool, fingerprintOf: (string, string) -> string)
      ensures Sound() && trace == [] && usages == [] && abortReason == None && this.config == config
        && this.adopts == adopts
      ensures budget.steps == 0 && budget.outputs == [] && repetition.observed == [] && fresh(budget)
        && fresh(repetition) && repetition.fingerprintOf == fingerprintOf && State() == StateAtStart(false)
    {
      this.config, this.adopts := config, adopts;
      this.budget := new BudgetTracker(config.limits);
      this.repetition := new RepetitionDetector(fingerprintOf);
      this.trace, this.usages, this.abortReason, this.aggregatePublished := [], [], None, false;
    }

    method Publish(e: TraceEvent)
      modifies this`trace
      ensures trace == old(trace) + [e] && Summarize(trace) == Read(Summarize(old(trace)), e)
    {
      ReadsLast(trace, e);
      trace := trace + [e];
    }

    /** The first reason to abort is kept. */
    method Abort(reason: Option<AbortReason>)
      modifies this`abortReason
      ensures abortReason == if old(abortReason).Some? then old(abortReason) else reason
      ensures State() == old(State()).(abort := First(old(State()).abort, reason))
    {
      if abortReason.None? { abortReason := reason; }
    }

    /** Publishes the sums of all steps, once, and only when no step lacks its usage. */
    method PublishAggregateUsage()
      requires Sound()
      modifies this`trace, this`aggregatePublished
      ensures Settled() && SameCalls(old(Summarize(trace)), Summarize(trace))
      ensures Summarize(trace).accepted == old(Summarize(trace).accepted) && State() == old(State())
      ensures (Summarize(trace).aggregates != []) == (usages != [] && |usages| == Summarize(trace).started)
    {
      hide Summarize;
      if aggregatePublished || |usages| == 0 || |usages| != budget.steps { return; }
      var input, output, total, cached := 0, 0, 0, Some(0);
      for i := 0 to |usages|
        invariant input == InputTokens(usages[..i]) && output == OutputTokens(usages[..i])
          && total == TotalTokens(usages[..i])
        invariant cached == CachedTokens(usages[..i])
        invariant trace == old(trace)
      {
        assert usages[..i + 1][..i] == usages[..i];
        input, output, total := input + usages[i].inputTokens, output + usages[i].outputTokens,
          total + usages[i].totalTokens;
        cached := if cached.None? || usages[i].cacheReadTokens.None? then None
          else Some(cached.value + usages[i].cacheReadTokens.value);
      }
      assert usages[..|usages|] == usages;
      Publish(AggregateUsage(Aggregate(input, output, total, cached, |usages|)));
      aggregatePublished := true;
    }

    method Cancelled() returns (o: Outcome)
      requires Sound()
      modifies this`trace, this`aggregatePublished
      ensures o == if config.hostFatal then RunFailed("internal", "tui_surface_fatal", old(State()).completed)
                   else RunCancelled(old(State()).completed)
      ensures State() == old(State())
      ensures Settled() && IsOutcome(o, Summarize(trace), config) && SameCalls(old(Summarize(trace)), Summarize(trace))
    {
      PublishAggregateUsage();
      var calls := Summarize(trace).completedCalls;
      return if config.hostFatal then RunFailed("internal", "tui_surface_fatal", calls) else RunCancelled(calls);
    }

    method OverBudget(reason: StopReason, limit: nat, observed: nat, elapsed: nat) returns (o: Outcome)
      requires Sound() && (reason.OnBudget? && reason.reason != MaxDuration ==> observed >= limit)
      modifies this`trace, this`aggregatePublished
      ensures Settled() && IsOutcome(o, Summarize(trace), config) && SameCalls(old(Summarize(trace)), Summarize(trace))
      ensures o.RunBudgetExceeded? && o.reason == reason && o.limit == limit && o.observed >= observed
      ensures o.observed == if reason == OnBudget(MaxDuration) then Max(limit, Max(observed, elapsed)) else observed
      ensures State() == old(State()) && o.toolCalls == old(State()).completed
    {
      PublishAggregateUsage();
      var shown := if reason == OnBudget(MaxDuration) then Max(limit, Max(observed, elapsed)) else observed;
      return RunBudgetExceeded(reason, limit, shown, Summarize(trace).completedCalls);
    }

    /** A failure of the provider publishes no aggregate. */
    method ProviderFailed(error: ProviderFailure) returns (o: Outcome)
      requires Sound()
      ensures Settled() && IsOutcome(o, Summarize(trace), config)
      ensures o == RunFailed(error.category, error.code, State().completed)
    {
      return RunFailed(error.category, error.code, Summarize(trace).completedCalls);
    }

    method InternalFailure(code: string) returns (o: Outcome)
      requires Sound()
      modifies this`trace, this`aggregatePublished
      ensures Settled() && IsOutcome(o, Summarize(trace), config) && SameCalls(old(Summarize(trace)), Summarize(trace))
      ensures o == RunFailed("internal", code, old(State()).completed) && State() == old(State())
    {
      PublishAggregateUsage();
      return RunFailed("internal", code, Summarize(trace).completedCalls);
    }

    method Incomplete(cause: string) returns (o: Outcome)
      requires Sound()
      modifies this`trace, this`aggregatePublished
      ensures Settled() && IsOutcome(o, Summarize(trace), config) && SameCalls(old(Summarize(trace)), Summarize(trace))
      ensures o == RunIncomplete(cause, old(State()).completed) && State() == old(State())
    {
      PublishAggregateUsage();
      return RunIncomplete(cause, Summarize(trace).completedCalls);
    }

    method Complete(mode: CompletionMode) returns (o: Outcome)
      requires Sound()
      requires mode == VerifiedFinishTask ==> Summarize(trace).accepted
      requires mode == PlanReady ==> config.planMode
      requires mode == ModelFinal ==> !config.planMode && !config.coding
      modifies this`trace, this`aggregatePublished
      ensures Settled() && IsOutcome(o, Summarize(trace), config) && State() == old(State())
      ensures o == RunCompleted(mode, old(State()).steps, old(State()).completed)
      ensures SameCalls(old(Summarize(trace)), Summarize(trace))
    {
      PublishAggregateUsage();
      return RunCompleted(mode, budget.steps, Summarize(trace).completedCalls);
    }

    /** The outcome that a pending abort demands. */
    method Aborted(elapsed: nat) returns (o: Outcome)
      requires Sound() && abortReason.Some?
      modifies this`trace, this`aggregatePublished
      ensures Settled() && IsOutcome(o, Summarize(trace), config) && SameCalls(old(Summarize(trace)), Summarize(trace))
      ensures IsAbort(config, old(State()), elapsed, o) && State() == old(State())
      ensures o.RunCancelled? || o.RunFailed? || o.RunBudgetExceeded?
    {
      if abortReason.value.UserAbort? {
        o := Cancelled();
      } else {
        o := OverBudget(OnBudget(MaxDuration), config.limits.maxDurationMs, elapsed, elapsed);
      }
    }

    /**
     What follows a tool result that has been published: which results go on, complete the run or leave
     it incomplete is decided by the abort, the control signal, the tool and the kind of error.
     */
    method AfterTool(toolName: string, execution: Execution, input: StepInput) returns (o: Option<Outcome>)
      requires Sound() && Summarize(trace).outputs == budget.outputs + [execution.outputBytes]
      requires execution.control == Some(Accept) && toolName == "finish_task" ==> Summarize(trace).accepted
      modifies this`trace, this`aggregatePublished, budget`toolOutputBytes, budget`outputs
      ensures o.Some? && o.value != NoOutcome ==> Settled() && IsOutcome(o.value, Summarize(trace), config)
      ensures o.None? ==> Sound() && trace == old(trace) && Summarize(trace).outputs == budget.outputs
      ensures budget.outputs
           == if abortReason.None? && IsForModel(toolName, execution) then old(budget.outputs) + [execution.outputBytes]
              else old(budget.outputs)
      ensures o.None? ==> GoesOnAfter(config, old(State()), toolName, execution, input, State())
      ensures o.Some? ==> StopsAfter(config, old(State()), toolName, execution, input, o.value)
      ensures o == Some(NoOutcome) ==> input.completionHookFails
      ensures SameCalls(old(Summarize(trace)), Summarize(trace))
    {
      hide Summarize, IsSound, Total, IsSettled, IsOutcome, LastMayOvershoot, OutputsWithin, IsAbort, NothingSpent,
        IsFirstSpent;
      var failure;
      if abortReason.Some? {
        failure := Aborted(input.elapsedAfterTool);
        return Some(failure);
      }
      var failed := execution.errorCategory;
      if execution.control == Some(PlanRevision) {
        if toolName != "update_plan" || failed.Some? {
          failure := InternalFailure("unexpected_tool_control");
          return Some(failure);
        }
        failure := Incomplete("plan_revision_proposed");
        return Some(failure);
      }
      if execution.control.Some? && toolName != "finish_task" {
        failure := InternalFailure("unexpected_tool_control");
        return Some(failure);
      }
      if failed == Some("system") {
        failure := InternalFailure(execution.errorCode);
        return Some(failure);
      }
      if toolName == "finish_task" && execution.control.None? {
        failure := InternalFailure("missing_completion_control");
        return Some(failure);
      }
      if execution.control == Some(Accept) {
        failure := Complete(VerifiedFinishTask);
        if input.completionHookFails { return Some(NoOutcome); }
        return Some(failure);
      }
      if execution.control == Some(IncompleteControl) {
        failure := Incomplete("completion");
        return Some(failure);
      }
      if failed == Some("cancelled") {
        failure := InternalFailure("unexpected_tool_cancellation");
        return Some(failure);
      }
      assert execution.control.Some? ==> execution.control.value.Continue?;
      o := RecordOutput(toolName, execution, input);
    }

    /** Counts a result for the model, and stops the run when a budget is spent. */
    method RecordOutput(toolName: string, execution: Execution, input: StepInput) returns (o: Option<Outcome>)
      requires Sound() && Summarize(trace).outputs == budget.outputs + [execution.outputBytes]
      requires abortReason.None? && IsForModel(toolName, execution)
      modifies this`trace, this`aggregatePublished, budget`toolOutputBytes, budget`outputs
      ensures o.Some? ==> o.value != NoOutcome && Settled() && IsOutcome(o.value, Summarize(trace), config)
      ensures o.None? ==> Sound() && trace == old(trace) && Summarize(trace).outputs == budget.outputs
      ensures budget.outputs == old(budget.outputs) + [execution.outputBytes]
      ensures o.None? ==> GoesOnAfter(config, old(State()), toolName, execution, input, State())
      ensures o.Some? ==> StopsAfter(config, old(State()), toolName, execution, input, o.value)
      ensures SameCalls(old(Summarize(trace)), Summarize(trace))
    {
      hide Summarize, IsSound, Total, IsSettled, IsOutcome, LastMayOvershoot, OutputsWithin, IsAbort, NothingSpent,
        IsFirstSpent, StopsByResult;
      TotalMore(budget.outputs, execution.outputBytes);
      budget.RecordToolOutput(execution.outputBytes);
      var exceeded := budget.CheckAfterToolOutput(input.elapsedAfterTool);
      if exceeded.None? { return None; }
      var failure := OverBudget(OnBudget(exceeded.value.reason), exceeded.value.limit, exceeded.value.observed,
        input.elapsedAfterTool);
      return Some(failure);
    }

    /** Takes over a call and its recovered result, or executes it. */
    method Adopt(call: Inherited) returns (returned: Option<Execution>)
      requires Sound() && adopts && trace == [] && usages == [] && repetition.observed == [] && budget.outputs == []
      modifies this`trace
      ensures if returned.None? then call.recovered.None? && call.input.tool.Threw? else Inherits(call, returned.value)
      ensures IsOpen(call.callId) && Summarize(trace).executed == [] && State() == old(State())
    {
      hide Summarize, IsSettled, Total, IsOutcome, LastMayOvershoot, NoThreeEqual, OutputsWithin;
      NothingRead();
      Publish(CallAdopted(call.callId));
      if call.recovered.None? {
        Publish(CallExecuted(call.callId, None));
        assert Summarize(trace).executed == [];
        return if call.input.tool.Threw? then None else Some(call.input.tool.execution);
      }
      Publish(CallRecovered(call.callId));
      return Some(call.recovered.value.(control := None));
    }

    /** Closes a call that an earlier run has left open: with its recovered result, or by executing it. */
    method RunInherited(call: Inherited) returns (o: Option<Outcome>)
      requires Sound() && adopts && trace == [] && usages == [] && repetition.observed == [] && budget.outputs == []
      modifies this`trace, this`aggregatePublished, this`abortReason, budget`toolOutputBytes, budget`outputs
      ensures o.Some? && o.value != NoOutcome ==> Settled() && IsOutcome(o.value, Summarize(trace), config)
      ensures o.None? ==> Sound() && Summarize(trace).executed == [] && Summarize(trace).outputs == budget.outputs
      ensures InheritedCannotThrow(call) ==> o != Some(NoOutcome)
      ensures o.None? ==> InheritedGoesOn(config, old(State()), call, State())
      ensures o.Some? ==> InheritedEnds(config, old(State()), call, o.value)
    {
      hide Summarize, IsSettled, Total, IsOutcome, LastMayOvershoot, NoThreeEqual, OutputsWithin, StopsAfter,
        GoesOnAfter, IsSound, State;
      var returned := Adopt(call);
      if returned.None? { return Some(NoOutcome); }
      var execution := returned.value;
      OnlyOutput(execution.outputBytes, config.limits.maxToolOutputBytes);
      CloseCall(call.callId, call.toolName, execution.control == Some(Accept), execution.outputBytes);
      Abort(call.input.abortInTool);
      o := AfterTool(call.toolName, execution, call.input);
    }

    /** What ends the run before a model turn: an abort, a budget, or a context that does not fit. */
    method Gate(input: StepInput) returns (o: Option<Outcome>)
      requires Sound()
      modifies this`trace, this`abortReason, this`aggregatePublished
      ensures o.Some? && o.value != NoOutcome ==> Settled() && IsOutcome(o.value, Summarize(trace), config)
      ensures o.None? ==> Sound() && trace == old(trace)
      ensures abortReason == if old(abortReason).Some? then old(abortReason) else input.abortAtTop
      ensures o.None? <==> abortReason.None? && BelowLimits(input.elapsedAtTop) && input.prepared.Ready?
      ensures o == Some(NoOutcome) <==>
        abortReason.None? && BelowLimits(input.elapsedAtTop) && input.prepared.PrepareThrew?
      ensures o.None? ==> MayStart(config, AtTop(old(State()), input), input) && State() == AtTop(old(State()), input)
      ensures o.Some? ==> StopsBeforeTurn(config, AtTop(old(State()), input), input, o.value)
    {
      hide Summarize, IsSettled, IsSound, Total, IsOutcome, LastMayOvershoot, OutputsWithin, IsAbort, SameCalls,
        NothingSpent, IsFirstSpent;
      var end;
      Abort(input.abortAtTop);
      if abortReason.Some? {
        end := Aborted(input.elapsedAtTop);
        return Some(end);
      }
      var exceeded := budget.CheckBeforeStep(input.elapsedAtTop);
      if exceeded.Some? {
        end := OverBudget(OnBudget(exceeded.value.reason), exceeded.value.limit, exceeded.value.observed,
          input.elapsedAtTop);
        return Some(end);
      }
      match input.prepared {
        case OverBudget(limit, observed) =>
          end := OverBudget(ContextOverflow, limit, observed, input.elapsedAtTop);
          return Some(end);
        case PrepareThrew => return Some(NoOutcome);
        case Ready => return None;
      }
    }

    /** Counts and announces a step. */
    method StartStep() returns (step: nat)
      requires Sound() && budget.steps < config.limits.maxSteps
      modifies this`trace, budget`steps
      ensures Sound() && step == budget.steps == old(budget.steps) + 1 && |usages| < budget.steps
      ensures Summarize(trace).executed == old(Summarize(trace).executed)
        && Summarize(trace).outputs == old(Summarize(trace).outputs)
      ensures State() == old(State()).(steps := old(State()).steps + 1)
    {
      hide Summarize, Total, LastMayOvershoot, NoThreeEqual;
      step := budget.BeginStep();
      Publish(StepStarted(step));
    }

    /** The outcome of a turn that did not complete. */
    method TurnFailed(turn: TurnResult, input: StepInput) returns (o: Outcome)
      requires Sound() && !turn.Completed?
      modifies this`trace, this`aggregatePublished
      ensures o != NoOutcome && Settled() && IsOutcome(o, Summarize(trace), config)
      // The first of these that applies: a failure of the provider, an abort, a timeout.
      ensures StopsInTurn(config, old(State()), input, turn, o)
    {
      hide Summarize, IsSettled, IsSound, IsOutcome, IsAbort;
      if turn.Failed? {
        o := ProviderFailed(turn.error);
      } else if abortReason.Some? {
        o := Aborted(input.elapsedAfterModel);
      } else if input.timedOut {
        o := ProviderFailed(ProviderFailure("timeout", "request_timeout", true));
      } else {
        o := InternalFailure("unexpected_abort");
      }
    }

    /** One model turn and the call that it asks for. */
    method Step(input: StepInput) returns (o: Option<Outcome>)
      requires Sound() && Summarize(trace).executed == repetition.observed && Summarize(trace).outputs == budget.outputs
      modifies this`trace, this`usages, this`abortReason, this`aggregatePublished, budget, repetition
      ensures o.Some? && o.value != NoOutcome ==> Settled() && IsOutcome(o.value, Summarize(trace), config)
      ensures o.None? ==>
        Sound() && Summarize(trace).executed == repetition.observed && Summarize(trace).outputs == budget.outputs
      ensures o.None? ==> budget.steps == old(budget.steps) + 1
      ensures CannotThrow(input) ==> o != Some(NoOutcome)
      // What the step decides is what the world demands.
      ensures o.None? ==> StepGoesOn(config, repetition.fingerprintOf, old(State()), input, State())
      ensures o.Some? ==> StepEnds(config, repetition.fingerprintOf, old(State()), input, o.value)
    {
      hide Summarize, IsSettled, IsSound, Total, IsOutcome, LastMayOvershoot, OutputsWithin, SameCalls,
        NoThreeEqual, LastRun, MayStart, StopsBeforeTurn, TurnGoesOn, TurnEnds, EndsAt, State;
      o := Gate(input);
      if o.Some? { return; }
      var step := StartStep();
      var turn := ConsumeModelTurn(input.signals, config.declaredUsage, input.abortedAt);
      Abort(input.abortInTurn);
      assert IsTurn(config, input, turn);
      o := TakeTurn(step, turn, input);
    }

    /** What a turn leads to. */
    method TakeTurn(step: nat, turn: TurnResult, input: StepInput) returns (o: Option<Outcome>)
      requires Sound() && Summarize(trace).executed == repetition.observed && Summarize(trace).outputs == budget.outputs
      requires |usages| < budget.steps && Total(budget.usages) < config.limits.maxTokens
        && Total(budget.outputs) < config.limits.maxToolOutputBytes
      modifies this`trace, this`usages, this`abortReason, this`aggregatePublished, budget`totalTokens, budget`usages,
        budget`toolOutputBytes, budget`outputs, repetition
      ensures o.Some? && o.value != NoOutcome ==> Settled() && IsOutcome(o.value, Summarize(trace), config)
      ensures o.None? ==>
        Sound() && Summarize(trace).executed == repetition.observed && Summarize(trace).outputs == budget.outputs
      ensures CannotThrow(input) ==> o != Some(NoOutcome)
      ensures forall st :: old(State()) == AfterTurn(st, input, 0) ==>
        if o.None? then TurnGoesOn(config, repetition.fingerprintOf, st, input, turn, State())
        else TurnEnds(config, repetition.fingerprintOf, st, input, turn, o.value)
    {
      hide Summarize, IsSettled, IsSound, Total, IsOutcome, LastMayOvershoot, OutputsWithin, SameCalls,
        NoThreeEqual, LastRun, IsAbort, EndsByText, MayCall, StopsBeforeCall, CallEnds, CallGoesOn, State;
      var end;
      if !turn.Completed? {
        end := TurnFailed(turn, input);
        return Some(end);
      }
      if turn.usage.None? || turn.usage.value.completeness != Completeness.Complete {
        end := ProviderFailed(Protocol("protocol_capability_mismatch"));
        return Some(end);
      }
      RecordTurn(turn.usage.value);
      if turn.call.Some? && !IsValidCall(turn.call.value) {
        end := ProviderFailed(Protocol("invalid_tool_call"));
        return Some(end);
      }
      CloseStep(step);
      if turn.call.None? {
        end := Finish(turn.sawText, input);
        return Some(end);
      }
      o := MoreWork(input);
      if o.Some? { return; }
      o := Call(turn.call.value, input);
    }

    method CloseStep(step: nat)
      requires Sound()
      modifies this`trace
      ensures Sound() && Summarize(trace).executed == old(Summarize(trace).executed)
        && Summarize(trace).outputs == old(Summarize(trace).outputs) && State() == old(State())
    {
      hide Summarize, Total, LastMayOvershoot, NoThreeEqual;
      Publish(StepCompleted(step));
    }

    /** What ends the run between a model turn and its call. */
    method MoreWork(input: StepInput) returns (o: Option<Outcome>)
      requires Sound()
      modifies this`trace, this`aggregatePublished
      ensures o.Some? ==> o.value != NoOutcome && Settled() && IsOutcome(o.value, Summarize(trace), config)
      ensures o.None? ==> Sound() && trace == old(trace)
      ensures o.None? <==>
        && abortReason.None? && input.elapsedAfterModel < config.limits.maxDurationMs
        && Total(budget.usages) < config.limits.maxTokens
      ensures o.None? ==> MayCall(config, old(State()), input) && State() == old(State())
      ensures o.Some? ==> StopsBeforeCall(config, old(State()), input, o.value)
    {
      hide Summarize, IsSettled, IsSound, Total, IsOutcome, LastMayOvershoot, OutputsWithin, IsAbort, SameCalls,
        NothingSpent, IsFirstSpent;
      var end;
      if abortReason.Some? {
        end := Aborted(input.elapsedAfterModel);
        return Some(end);
      }
      var exceeded := budget.CheckAfterModelForMoreWork(input.elapsedAfterModel);
      if exceeded.Some? {
        end := OverBudget(OnBudget(exceeded.value.reason), exceeded.value.limit, exceeded.value.observed,
          input.elapsedAfterModel);
        return Some(end);
      }
      return None;
    }

    /** Records the usage of a turn and publishes it. */
    method RecordTurn(usage: Usage)
      requires Sound() && |usages| < budget.steps && Total(budget.usages) < config.limits.maxTokens
      modifies this`trace, this`usages, budget`totalTokens, budget`usages
      ensures Sound() && usages == old(usages) + [usage] && budget.outputs == old(budget.outputs)
      ensures Summarize(trace).executed == old(Summarize(trace).executed)
        && Summarize(trace).outputs == old(Summarize(trace).outputs)
      ensures State() == old(State()).(tokens := old(State()).tokens + usage.totalTokens)
    {
      hide Summarize, Total, LastMayOvershoot, OutputsWithin, NoThreeEqual, TokensOf;
      TotalMore(budget.usages, usage.totalTokens);
      OneMoreUsage(usages, usage);
      OneMoreAmount(budget.usages, usage.totalTokens, config.limits.maxTokens);
      budget.RecordUsage(usage.totalTokens);
      usages := usages + [usage];
      Publish(ModelUsage(usage));
    }

    /** The outcome of a turn without a call. */
    method Finish(sawText: bool, input: StepInput) returns (o: Outcome)
      requires Sound()
      modifies this`trace, this`aggregatePublished
      ensures o != NoOutcome ==> Settled() && IsOutcome(o, Summarize(trace), config)
      ensures o.RunCompleted? <==>
        && !input.boundaryFails && sawText && abortReason.None?
        && if config.planMode then input.planState == Reviewable else !config.coding
      ensures o.RunIncomplete? <==>
        && !input.boundaryFails && sawText && abortReason.None?
        && if config.planMode then input.planState == NotReviewable else config.coding
      ensures o == NoOutcome <==> input.boundaryFails
      ensures EndsByText(config, old(State()), input, sawText, o)
    {
      hide Summarize, IsSound, IsSettled, IsAbort, IsOutcome;
      if input.boundaryFails { return NoOutcome; }
      if !sawText {
        o := ProviderFailed(Protocol("empty_model_output"));
      } else if abortReason.Some? {
        o := Aborted(input.elapsedAfterModel);
      } else if config.planMode {
        match input.planState {
          case Unavailable => o := InternalFailure("task_state_unavailable");
          case NotReviewable => o := Incomplete("clarification_required");
          case Reviewable => o := Complete(PlanReady);
        }
      } else if config.coding {
        o := Incomplete("completion_signal_required");
      } else {
        o := Complete(ModelFinal);
      }
    }

    /** Sound but for one open call. */
    ghost predicate IsOpen(callId: string)
      reads this, budget, repetition
    {
      && Valid() && !aggregatePublished && Summarize(trace).bracket == Open(callId)
      && IsSound(Summarize(trace).(bracket := Closed), usages) && Summarize(trace).outputs == budget.outputs
    }

    ghost predicate CallOpen(callId: string)
      reads this, budget, repetition
    {
      IsOpen(callId) && Total(budget.outputs) < config.limits.maxToolOutputBytes
    }

    /** Closes the open call by its result. */
    method CloseCall(callId: string, name: string, accepted: bool, bytes: nat)
      requires IsOpen(callId) && OutputsWithin(budget.outputs + [bytes], config.limits.maxToolOutputBytes, adopts)
      modifies this`trace
      ensures Sound() && Summarize(trace).executed == old(Summarize(trace).executed)
      ensures Summarize(trace).outputs == budget.outputs + [bytes]
      ensures Summarize(trace).accepted <==> name == "finish_task" && accepted
      ensures State() == old(State()).(completed := old(State()).completed + 1)
    {
      hide Summarize, Total, NoThreeEqual, LastMayOvershoot, OutputsWithin;
      Publish(CallCompleted(callId, name, accepted, bytes));
    }

    /** Requests a call, and executes it unless it is the third equal one in a row. */
    method Call(call: ModelToolCall, input: StepInput) returns (o: Option<Outcome>)
      requires Sound() && Summarize(trace).executed == repetition.observed && Summarize(trace).outputs == budget.outputs
      requires Total(budget.outputs) < config.limits.maxToolOutputBytes
      modifies this`trace, this`abortReason, this`aggregatePublished, budget`toolOutputBytes, budget`outputs, repetition
      ensures o.Some? && o.value != NoOutcome ==> Settled() && IsOutcome(o.value, Summarize(trace), config)
      ensures o.None? ==>
        Sound() && Summarize(trace).executed == repetition.observed && Summarize(trace).outputs == budget.outputs
      ensures CannotThrow(input) ==> o != Some(NoOutcome)
      // The third equal call in a row is not executed and stops the run; every other one is executed.
      ensures
        var fingerprint := repetition.fingerprintOf(call.name, call.argumentsJson);
        var more := old(Summarize(trace).executed) + [fingerprint];
        && repetition.observed == more
        && (!input.boundaryFails && NoThreeEqual(more) ==> Summarize(trace).executed == more)
        && (!input.boundaryFails && !NoThreeEqual(more) ==>
             && o.Some? && o.value.RunBudgetExceeded? && Summarize(trace).executed == old(Summarize(trace).executed)
             && o.value == RunBudgetExceeded(RepeatedToolCall, 3, 3, o.value.toolCalls))
      ensures
        var st := Requested(old(State()), repetition.fingerprintOf(call.name, call.argumentsJson));
        if o.None? then CallGoesOn(config, st, call.name, input, State())
        else CallEnds(config, st, call.name, input, o.value)
    {
      hide Summarize, IsSettled, Total, NoThreeEqual, LastRun, LastMayOvershoot, OutputsWithin, IsOutcome, SameCalls,
        StopsAfter, GoesOnAfter, EndsInTriple;
      TripleIsThird(repetition.observed, repetition.fingerprintOf(call.name, call.argumentsJson));
      var blocked, count, fingerprint := repetition.Observe(call.name, call.argumentsJson);
      Publish(CallRequested(call.callId, fingerprint));
      if input.boundaryFails { return Some(NoOutcome); }
      if blocked {
        var end := Block(call, count, input);
        return Some(end);
      }
      o := Execute(call, fingerprint, input);
    }

    /** Closes a blocked call without executing it, and ends the run. */
    method Block(call: ModelToolCall, count: nat, input: StepInput) returns (o: Outcome)
      requires CallOpen(call.callId)
      modifies this`trace, this`aggregatePublished
      ensures Settled() && IsOutcome(o, Summarize(trace), config)
      ensures Summarize(trace).executed == old(Summarize(trace).executed)
      ensures Summarize(trace).completedCalls == old(Summarize(trace).completedCalls) + 1
      ensures o == RunBudgetExceeded(RepeatedToolCall, 3, count, old(State()).completed + 1)
    {
      hide Summarize, IsSettled, Total, NoThreeEqual, LastRun, LastMayOvershoot, OutputsWithin, IsOutcome;
      OneMoreOutput(budget.outputs, BLOCKED_OUTPUT_BYTES, config.limits.maxToolOutputBytes, adopts);
      CloseCall(call.callId, call.name, false, BLOCKED_OUTPUT_BYTES);
      o := OverBudget(RepeatedToolCall, 3, count, input.elapsedAfterTool);
    }

    /** Executes a call. When it was cancelled before any effect, the run is aborted. */
    method RunTool(callId: string, fingerprint: string, input: StepInput) returns (returned: Option<Execution>)
      requires CallOpen(callId)
      requires Summarize(trace).executed + [fingerprint] == repetition.observed && NoThreeEqual(repetition.observed)
      modifies this`trace, this`abortReason
      ensures CallOpen(callId) && Summarize(trace).executed == old(Summarize(trace).executed) + [fingerprint]
      ensures if returned.None? then input.tool.Threw? && !input.tool.cancelledBeforeEffect
        else Returns(input.tool, returned.value)
      ensures returned.Some? ==>
        State()
        == old(State()).(abort := First(old(State()).abort, if input.tool.Threw? then Some(UserAbort) else None))
    {
      hide Summarize, IsSettled, Total, NoThreeEqual, LastRun, LastMayOvershoot, OutputsWithin, IsOutcome;
      Publish(CallExecuted(callId, Some(fingerprint)));
      match input.tool {
        case Executed(e) => return Some(e);
        case Threw(cancelledBeforeEffect, errorBytes) =>
          if !cancelledBeforeEffect { return None; }
          Abort(Some(UserAbort));
          return Some(Execution(Some("cancelled"), "tool_cancelled", None, errorBytes));
      }
    }

    /** Executes a call, closes it by its result, and decides what follows. */
    method Execute(call: ModelToolCall, fingerprint: string, input: StepInput) returns (o: Option<Outcome>)
      requires CallOpen(call.callId)
      requires Summarize(trace).executed + [fingerprint] == repetition.observed && NoThreeEqual(repetition.observed)
      modifies this`trace, this`abortReason, this`aggregatePublished, budget`toolOutputBytes, budget`outputs
      ensures o.Some? && o.value != NoOutcome ==> Settled() && IsOutcome(o.value, Summarize(trace), config)
      ensures o.None? ==>
        Sound() && Summarize(trace).executed == repetition.observed && Summarize(trace).outputs == budget.outputs
      ensures Summarize(trace).executed == old(Summarize(trace).executed) + [fingerprint]
      ensures CannotThrow(input) ==> o != Some(NoOutcome)
      ensures o.None? ==>
        exists execution :: Returns(input.tool, execution)
          && GoesOnAfter(config, AfterCall(old(State()), input), call.name, execution, input, State())
      ensures o.Some? ==>
        || (input.tool.Threw? && !input.tool.cancelledBeforeEffect && o.value == NoOutcome)
        || exists execution :: Returns(input.tool, execution)
             && StopsAfter(config, AfterCall(old(State()), input), call.name, execution, input, o.value)
    {
      hide Summarize, IsSettled, Total, NoThreeEqual, LastRun, LastMayOvershoot, OutputsWithin, IsOutcome, StopsAfter,
        GoesOnAfter, IsSound, State;
      var returned := RunTool(call.callId, fingerprint, input);
      if returned.None? { return Some(NoOutcome); }
      var execution := returned.value;
      OneMoreOutput(budget.outputs, execution.outputBytes, config.limits.maxToolOutputBytes, adopts);
      CloseCall(call.callId, call.name, execution.control == Some(Accept), execution.outputBytes);
      Abort(input.abortInTool);
      o := AfterTool(call.name, execution, input);
    }
  }

  lemma OneMoreAmount(amounts: seq<nat>, amount: nat, limit: nat)
    requires Total(amounts) < limit
    ensures LastMayOvershoot(amounts + [amount], limit)
  {
  }

  lemma OneMoreOutput(outputs: seq<nat>, output: nat, limit: nat, adopts: bool)
    requires Total(outputs) < limit
    ensures OutputsWithin(outputs + [output], limit, adopts)
  {
    OneMoreAmount(outputs, output, limit);
  }

  lemma OnlyOutput(output: nat, limit: nat)
    ensures OutputsWithin([] + [output], limit, true)
  {
  }

  lemma OneMoreUsage(usages: seq<Usage>, usage: Usage)
    ensures TokensOf(usages + [usage]) == TokensOf(usages) + [usage.totalTokens]
  {
  }

  /** What an outcome says about the trace of its run. */
  ghost predicate IsOutcome(o: Outcome, s: Summary, config: Config) {
    && o != NoOutcome && o.toolCalls == s.completedCalls
    && (o.RunCompleted? ==>
         && o.modelTurns == s.started
         && (o.mode == VerifiedFinishTask ==> s.accepted)
         && (config.coding && !config.planMode ==> o.mode == VerifiedFinishTask))
    && (o.RunBudgetExceeded? && o.reason.OnBudget? ==> o.observed >= o.limit)
    && (!o.RunFailed? ==> (s.aggregates != [] <==> s.usages != [] && |s.usages| == s.started))
  }

  /**
   Runs a task. It has an outcome unless the world throws. For every behaviour of the world and every
   outcome: each call has its result and at most one is open at a time; at most as many model turns as
   allowed; tokens and tool output pass their limits only with their last amount; no three equal calls
   of the model are executed in a row; the aggregate usage is published at most once and is the sum over
   the steps; and outside plan mode a coding run completes only by an accepted finish_task.
   */
  method RunAgentLoop(config: Config, fingerprintOf: (string, string) -> string, inherited: Option<Inherited>,
                      abortedBefore: bool, world: nat -> StepInput)
    returns (o: Outcome, trace: seq<TraceEvent>)
    ensures o != NoOutcome ==>
      var s := Summarize(trace);
      && IsSettled(s) && IsOutcome(o, s, config)
      && s.started <= config.limits.maxSteps
      && LastMayOvershoot(TokensOf(s.usages), config.limits.maxTokens)
      && OutputsWithin(s.outputs, config.limits.maxToolOutputBytes, inherited.Some?)
    ensures (forall n :: CannotThrow(world(n))) && (inherited.Some? ==> InheritedCannotThrow(inherited.value)) ==>
      o != NoOutcome
    // Every step before the last goes on, the last one ends the run with this outcome, and no other run is possible.
    ensures exists path :: IsRun(config, fingerprintOf, inherited, abortedBefore, world, path, o)
    ensures forall path, other ::
      IsRun(config, fingerprintOf, inherited, abortedBefore, world, path, other) ==> o == other
  {
    hide IsSettled, IsOutcome, IsSound, LastMayOvershoot, OutputsWithin, Summarize, StepGoesOn, StepEnds,
      InheritedGoesOn, InheritedEnds, IsRun, IsUnderway, AgentRun.State, TokensOf;
    NothingRead();
    var run := new AgentRun(config, inherited.Some?, fingerprintOf);
    if abortedBefore { run.Abort(Some(UserAbort)); }
    var end := None;
    if inherited.Some? {
      end := run.RunInherited(inherited.value);
    }
    ghost var path := if end.None? then [run.State()] else [];
    RunStarts(config, fingerprintOf, inherited, abortedBefore, world, run.State(), end);
    while end.None?
      invariant fresh(run) && fresh(run.budget) && fresh(run.repetition) && run.config == config
        && run.adopts == inherited.Some?
      invariant end.None? ==>
        && run.Sound() && Summarize(run.trace).executed == run.repetition.observed
        && Summarize(run.trace).outputs == run.budget.outputs
      invariant end.Some? && end.value != NoOutcome ==>
        run.Settled() && IsOutcome(end.value, Summarize(run.trace), config)
      invariant end == Some(NoOutcome) ==>
        || (inherited.Some? && !InheritedCannotThrow(inherited.value))
        || exists n :: !CannotThrow(world(n))
      invariant run.repetition.fingerprintOf == fingerprintOf
      invariant end.None? ==>
        && IsUnderway(config, fingerprintOf, inherited, abortedBefore, world, path)
        && |path| == run.budget.steps + 1 && path[|path| - 1] == run.State()
      invariant end.Some? ==> IsRun(config, fingerprintOf, inherited, abortedBefore, world, path, end.value)
      decreases if end.None? then config.limits.maxSteps - run.budget.steps + 1 else 0
    {
      ghost var before := path;
      end := run.Step(world(run.budget.steps));
      if end.None? { path := path + [run.State()]; }
      OneMoreStep(config, fingerprintOf, inherited, abortedBefore, world, before, path, end);
    }
    forall path', other | IsRun(config, fingerprintOf, inherited, abortedBefore, world, path', other)
      ensures end.value == other
    {
      RunIsOne(config, fingerprintOf, inherited, abortedBefore, world, path, end.value, path', other);
    }
    return end.value, run.trace;
  }

  lemma NothingRead()
    ensures Summarize([]) == NOTHING
  {
  }
}
