/**
 What one step of the agent loop decides, said from the world alone: from the signals of the model, what
 the tool returns, the clock and the aborts.
 */
module AgentDecision {
  import opened Wrappers
  import opened AgentBudget
  import opened ModelTurn

  datatype AbortReason = DurationAbort | UserAbort

  /** `hostFatal` says that the surface around the run has failed. */
  datatype Config = Config(limits: Limits, coding: bool, planMode: bool, declaredUsage: Option<Completeness>,
                           hostFatal: bool)

  datatype Control = PlanRevision | Accept | Continue | IncompleteControl

  /** What a tool returned; `errorCategory` is there exactly when it failed, and then `errorCode` tells more. */
  datatype Execution = Execution(errorCategory: Option<string>, errorCode: string, control: Option<Control>,
                                 outputBytes: nat)

  /** A tool that throws was cancelled before any effect, or leaves the run without an outcome. */
  datatype ToolResult = Executed(execution: Execution) | Threw(cancelledBeforeEffect: bool, errorBytes: nat)

  datatype Prepared = Ready | OverBudget(limit: nat, observed: nat) | PrepareThrew

  datatype PlanState = Unavailable | NotReviewable | Reviewable

  /**
   What the world does at one step: when an abort arrives, what the clock shows at each gate, what the
   model streams, what the tool returns, and which durable writes fail.
   */
  datatype StepInput = StepInput(
    abortAtTop: Option<AbortReason>,
    elapsedAtTop: nat,
    prepared: Prepared,
    signals: seq<Signal>,
    abortedAt: Option<nat>,
    abortInTurn: Option<AbortReason>,
    timedOut: bool,
    boundaryFails: bool,
    planState: PlanState,
    elapsedAfterModel: nat,
    tool: ToolResult,
    abortInTool: Option<AbortReason>,
    elapsedAfterTool: nat,
    completionHookFails: bool)

  /** A call inherited from an earlier run, with its recovered result if there is one. */
  datatype Inherited = Inherited(callId: string, toolName: string, recovered: Option<Execution>, input: StepInput)

  datatype CompletionMode = VerifiedFinishTask | PlanReady | ModelFinal

  datatype StopReason = OnBudget(reason: BudgetReason) | ContextOverflow | RepeatedToolCall

  datatype Outcome =
    | RunCompleted(mode: CompletionMode, modelTurns: nat, toolCalls: nat)
    | RunCancelled(toolCalls: nat)
    | RunBudgetExceeded(reason: StopReason, limit: nat, observed: nat, toolCalls: nat)
    | RunFailed(category: string, code: string, toolCalls: nat)
    | RunIncomplete(cause: string, toolCalls: nat)
    /** An exception leaves the loop without an outcome. */
    | NoOutcome

  /** Nothing that the world does at this step makes the loop throw. */
  predicate CannotThrow(input: StepInput) {
    && !input.prepared.PrepareThrew? && !input.boundaryFails && !input.completionHookFails
    && (input.tool.Threw? ==> input.tool.cancelledBeforeEffect)
  }

  predicate InheritedCannotThrow(call: Inherited) {
    (call.recovered.None? ==> call.input.tool.Executed?) && !call.input.completionHookFails
  }

  function Max(a: nat, b: nat): nat {
    if a >= b then a else b
  }

  /** What a run remembers between its steps: the fingerprints are those of the requested calls. */
  datatype RunState = RunState(abort: Option<AbortReason>, steps: nat, tokens: nat, outputBytes: nat,
                               requested: seq<string>, completed: nat)

  function SnapshotOf(st: RunState, elapsedMs: nat): BudgetSnapshot {
    BudgetSnapshot(elapsedMs, st.steps, st.tokens, st.outputBytes)
  }

  /** The reason that came first is kept. */
  function First(a: Option<AbortReason>, b: Option<AbortReason>): Option<AbortReason> {
    if a.Some? then a else b
  }

  /** A stop for a budget shows its limit and the amount; a time is never shown below its limit. */
  ghost predicate IsBudgetStop(config: Config, st: RunState, elapsedMs: nat, reason: BudgetReason, o: Outcome) {
    && o.RunBudgetExceeded? && o.reason == OnBudget(reason) && o.toolCalls == st.completed
    && match reason
       case MaxDuration =>
         && o.limit == config.limits.maxDurationMs && o.observed >= elapsedMs && o.observed >= o.limit
         && (o.observed == elapsedMs || o.observed == o.limit)
       case MaxSteps => o.limit == config.limits.maxSteps && o.observed == st.steps
       case MaxTokens => o.limit == config.limits.maxTokens && o.observed == st.tokens
       case MaxToolOutput => o.limit == config.limits.maxToolOutputBytes && o.observed == st.outputBytes
  }

  /** The user cancels a run; the clock ends it for its budget. */
  ghost predicate IsAbort(config: Config, st: RunState, elapsedMs: nat, o: Outcome) {
    match st.abort
    case None => false
    case Some(DurationAbort) => IsBudgetStop(config, st, elapsedMs, MaxDuration, o)
    case Some(UserAbort) =>
      if config.hostFatal then o == RunFailed("internal", "tui_surface_fatal", st.completed)
      else o == RunCancelled(st.completed)
  }

  ghost predicate IsInternal(st: RunState, code: string, o: Outcome) {
    o == RunFailed("internal", code, st.completed)
  }

  // ---------- before the turn ----------

  function AtTop(st: RunState, input: StepInput): RunState {
    st.(abort := First(st.abort, input.abortAtTop))
  }

  ghost predicate MayStart(config: Config, st: RunState, input: StepInput) {
    && st.abort.None? && NothingSpent(BEFORE_STEP, config.limits, SnapshotOf(st, input.elapsedAtTop))
    && input.prepared.Ready?
  }

  ghost predicate StopsBeforeTurn(config: Config, st: RunState, input: StepInput, o: Outcome) {
    var spent := SnapshotOf(st, input.elapsedAtTop);
    || IsAbort(config, st, input.elapsedAtTop, o)
    || (&& st.abort.None? && o.RunBudgetExceeded? && o.reason.OnBudget?
        && IsFirstSpent(BEFORE_STEP, config.limits, spent, o.reason.reason)
        && IsBudgetStop(config, st, input.elapsedAtTop, o.reason.reason, o))
    || (&& st.abort.None? && NothingSpent(BEFORE_STEP, config.limits, spent)
        && match input.prepared
           case Ready => false
           case OverBudget(limit, observed) => o == RunBudgetExceeded(ContextOverflow, limit, observed, st.completed)
           case PrepareThrew => o == NoOutcome)
  }

  // ---------- the turn ----------

  ghost predicate IsTurn(config: Config, input: StepInput, turn: TurnResult) {
    exists k :: EndsAt(input.signals, config.declaredUsage, input.abortedAt, k, turn)
  }

  predicate HasCompleteUsage(turn: TurnResult) {
    turn.Completed? && turn.usage.Some? && turn.usage.value.completeness == Completeness.Complete
  }

  /** The characters of a tool name after the first. */
  function AreNameChars(s: string): (r: bool)
    ensures r <==> forall i :: 0 <= i < |s| ==> 'a' <= s[i] <= 'z' || '0' <= s[i] <= '9' || s[i] == '_'
  {
    s == "" || (('a' <= s[0] <= 'z' || '0' <= s[0] <= '9' || s[0] == '_') && AreNameChars(s[1..]))
  }

  function IsValidCall(call: ModelToolCall): (r: bool)
    ensures r <==>
      && 1 <= |call.name| <= 64 && 'a' <= call.name[0] <= 'z'
      && (forall i :: 0 <= i < |call.name| ==>
         'a' <= call.name[i] <= 'z' || '0' <= call.name[i] <= '9' || call.name[i] == '_')
      && 1 <= |call.callId| <= 200
  {
    && call.name != "" && |call.name| <= 64 && 'a' <= call.name[0] <= 'z' && AreNameChars(call.name)
    && call.callId != "" && |call.callId| <= 200
  }

  /** After a turn: its step counts, its tokens are spent, and an abort may have come. */
  function AfterTurn(st: RunState, input: StepInput, tokens: nat): RunState {
    st.(abort := First(st.abort, input.abortInTurn), steps := st.steps + 1, tokens := st.tokens + tokens)
  }

  /** A turn that did not complete, without complete usage, or with a call that has no valid name. */
  ghost predicate StopsInTurn(config: Config, st: RunState, input: StepInput, turn: TurnResult, o: Outcome) {
    match turn
    case Failed(error) => o == RunFailed(error.category, error.code, st.completed)
    case Aborted =>
      || IsAbort(config, st, input.elapsedAfterModel, o)
      || (&& st.abort.None?
          && if input.timedOut then o == RunFailed("timeout", "request_timeout", st.completed)
             else IsInternal(st, "unexpected_abort", o))
    case Completed(call, _, _, _) =>
      || (!HasCompleteUsage(turn) && o == RunFailed("protocol", "protocol_capability_mismatch", st.completed))
      || (&& HasCompleteUsage(turn) && call.Some? && !IsValidCall(call.value)
          && o == RunFailed("protocol", "invalid_tool_call", st.completed))
  }

  /** A turn without a call ends the run, as a completion only with a text that is not blank. */
  ghost predicate EndsByText(config: Config, st: RunState, input: StepInput, sawText: bool, o: Outcome) {
    || (input.boundaryFails && o == NoOutcome)
    || (!input.boundaryFails && !sawText && o == RunFailed("protocol", "empty_model_output", st.completed))
    || (!input.boundaryFails && sawText && IsAbort(config, st, input.elapsedAfterModel, o))
    || (&& !input.boundaryFails && sawText && st.abort.None?
        && (if config.planMode then EndsPlan(st, input.planState, o)
            else if config.coding then o == RunIncomplete("completion_signal_required", st.completed)
            else o == RunCompleted(ModelFinal, st.steps, st.completed)))
  }

  /** In plan mode only a plan that can be reviewed completes the run. */
  ghost predicate EndsPlan(st: RunState, plan: PlanState, o: Outcome) {
    match plan
    case Reviewable => o == RunCompleted(PlanReady, st.steps, st.completed)
    case NotReviewable => o == RunIncomplete("clarification_required", st.completed)
    case Unavailable => IsInternal(st, "task_state_unavailable", o)
  }

  // ---------- the call ----------

  ghost predicate MayCall(config: Config, st: RunState, input: StepInput) {
    st.abort.None? && NothingSpent(AFTER_MODEL, config.limits, SnapshotOf(st, input.elapsedAfterModel))
  }

  ghost predicate StopsBeforeCall(config: Config, st: RunState, input: StepInput, o: Outcome) {
    || IsAbort(config, st, input.elapsedAfterModel, o)
    || (&& st.abort.None? && o.RunBudgetExceeded? && o.reason.OnBudget?
        && IsFirstSpent(AFTER_MODEL, config.limits, SnapshotOf(st, input.elapsedAfterModel), o.reason.reason)
        && IsBudgetStop(config, st, input.elapsedAfterModel, o.reason.reason, o))
  }

  predicate EndsInTriple(requested: seq<string>) {
    var n := |requested|;
    n >= 3 && requested[n - 1] == requested[n - 2] && requested[n - 2] == requested[n - 3]
  }

  /** After a history without three equal calls in a row, the detector counts to three exactly at a triple. */
  lemma TripleIsThird(history: seq<string>, entry: string)
    requires NoThreeEqual(history)
    ensures EndsInTriple(history + [entry]) <==> LastRun(history + [entry]) >= 3
    ensures EndsInTriple(history + [entry]) ==> LastRun(history + [entry]) == 3
    ensures EndsInTriple(history + [entry]) <==> !NoThreeEqual(history + [entry])
  {
    hide LastRun, NoThreeEqual;
    OneMoreEntry(history, entry);
    if |history| >= 2 {
      var front := history[..|history| - 1];
      assert front + [history[|history| - 1]] == history;
      FrontHasNone(history);
      OneMoreEntry(front, history[|history| - 1]);
    }
  }

  lemma FrontHasNone(history: seq<string>)
    requires NoThreeEqual(history) && history != []
    ensures NoThreeEqual(history[..|history| - 1])
  {
  }

  function Requested(st: RunState, fingerprint: string): RunState {
    st.(requested := st.requested + [fingerprint])
  }

  /** A call is not executed when its request cannot be stored, or when it is the third equal one in a row. */
  ghost predicate StopsAtRequest(st: RunState, input: StepInput, o: Outcome) {
    || (input.boundaryFails && o == NoOutcome)
    || (&& !input.boundaryFails && EndsInTriple(st.requested)
        && o == RunBudgetExceeded(RepeatedToolCall, 3, 3, st.completed + 1))
  }

  ghost predicate MayExecute(st: RunState, input: StepInput) {
    !input.boundaryFails && !EndsInTriple(st.requested)
  }

  /** What a tool leaves behind; a tool that was cancelled in time counts as a result and aborts the run. */
  ghost predicate Returns(tool: ToolResult, execution: Execution) {
    match tool
    case Executed(e) => execution == e
    case Threw(cancelledBeforeEffect, bytes) =>
      cancelledBeforeEffect && execution == Execution(Some("cancelled"), "tool_cancelled", None, bytes)
  }

  function AfterCall(st: RunState, input: StepInput): RunState {
    var abort := First(st.abort, if input.tool.Threw? then Some(UserAbort) else None);
    st.(abort := First(abort, input.abortInTool), completed := st.completed + 1)
  }

  // ---------- the result ----------

  /** A result that the model gets to see: no decision about the run, and no error that ends it. */
  ghost predicate IsForModel(name: string, execution: Execution) {
    && execution.errorCategory != Some("system") && execution.errorCategory != Some("cancelled")
    && (name == "finish_task" ==> execution.control == Some(Continue))
    && (name != "finish_task" ==> execution.control == None)
  }

  function WithOutput(st: RunState, execution: Execution): RunState {
    st.(outputBytes := st.outputBytes + execution.outputBytes)
  }

  /** The loop goes on after a result for the model, when nothing aborts the run and no budget is spent. */
  ghost predicate GoesOnAfter(config: Config, st: RunState, name: string, execution: Execution, input: StepInput,
                              next: RunState)
  {
    && st.abort.None? && IsForModel(name, execution) && next == WithOutput(st, execution)
    && NothingSpent(AFTER_TOOL, config.limits, SnapshotOf(next, input.elapsedAfterTool))
  }

  /** Only update_plan proposes a plan, without an error; only finish_task gives another control. */
  ghost predicate IsMisused(name: string, execution: Execution) {
    match execution.control
    case None => false
    case Some(PlanRevision) => name != "update_plan" || execution.errorCategory.Some?
    case Some(_) => name != "finish_task"
  }

  ghost predicate IsSystemError(name: string, execution: Execution) {
    && execution.errorCategory == Some("system")
    && (execution.control.None? || (execution.control.value != PlanRevision && name == "finish_task"))
  }

  ghost predicate IsDecision(name: string, execution: Execution, control: Control) {
    name == "finish_task" && execution.control == Some(control) && execution.errorCategory != Some("system")
  }

  /** A result that ends the run. */
  ghost predicate StopsAfter(config: Config, st: RunState, name: string, execution: Execution, input: StepInput,
                             o: Outcome)
  {
    || IsAbort(config, st, input.elapsedAfterTool, o)
    || (st.abort.None? && StopsByResult(st, name, execution, input, o))
    || (&& st.abort.None? && IsForModel(name, execution) && o.RunBudgetExceeded? && o.reason.OnBudget?
        && var spent := SnapshotOf(WithOutput(st, execution), input.elapsedAfterTool);
           && IsFirstSpent(AFTER_TOOL, config.limits, spent, o.reason.reason)
           && IsBudgetStop(config, WithOutput(st, execution), input.elapsedAfterTool, o.reason.reason, o))
  }

  ghost predicate StopsByResult(st: RunState, name: string, execution: Execution, input: StepInput, o: Outcome) {
    || (IsMisused(name, execution) && IsInternal(st, "unexpected_tool_control", o))
    || (&& execution.control == Some(PlanRevision) && !IsMisused(name, execution)
        && o == RunIncomplete("plan_revision_proposed", st.completed))
    || (IsSystemError(name, execution) && IsInternal(st, execution.errorCode, o))
    || (&& name == "finish_task" && execution.control.None? && execution.errorCategory != Some("system")
        && IsInternal(st, "missing_completion_control", o))
    || (&& IsDecision(name, execution, Accept)
        && o == if input.completionHookFails then NoOutcome
                else RunCompleted(VerifiedFinishTask, st.steps, st.completed))
    || (IsDecision(name, execution, IncompleteControl) && o == RunIncomplete("completion", st.completed))
    || (&& execution.errorCategory == Some("cancelled") && IsForModel(name, execution.(errorCategory := None))
        && IsInternal(st, "unexpected_tool_cancellation", o))
  }

  // ---------- one step ----------

  /** The call of a step goes on to its result and then to the next step. */
  ghost predicate CallGoesOn(config: Config, st: RunState, name: string, input: StepInput, next: RunState) {
    && MayExecute(st, input)
    && exists execution :: Returns(input.tool, execution)
                           && GoesOnAfter(config, AfterCall(st, input), name, execution, input, next)
  }

  ghost predicate CallEnds(config: Config, st: RunState, name: string, input: StepInput, o: Outcome) {
    || StopsAtRequest(st, input, o)
    || (MayExecute(st, input) && input.tool.Threw? && !input.tool.cancelledBeforeEffect && o == NoOutcome)
    || (&& MayExecute(st, input)
        && exists execution :: Returns(input.tool, execution)
                               && StopsAfter(config, AfterCall(st, input), name, execution, input, o))
  }

  /** What a turn leads to, in the state after it. */
  ghost predicate TurnGoesOn(config: Config, fingerprintOf: (string, string) -> string, st: RunState, input: StepInput,
                             turn: TurnResult, next: RunState)
  {
    && HasCompleteUsage(turn) && turn.call.Some? && IsValidCall(turn.call.value)
    && var after := AfterTurn(st, input, turn.usage.value.totalTokens);
       && MayCall(config, after, input)
       && CallGoesOn(config, Requested(after, fingerprintOf(turn.call.value.name, turn.call.value.argumentsJson)),
                     turn.call.value.name, input, next)
  }

  ghost predicate TurnEnds(config: Config, fingerprintOf: (string, string) -> string, st: RunState, input: StepInput,
                           turn: TurnResult, o: Outcome)
  {
    || StopsInTurn(config, AfterTurn(st, input, 0), input, turn, o)
    || (&& HasCompleteUsage(turn) && turn.call.None?
        && EndsByText(config, AfterTurn(st, input, turn.usage.value.totalTokens), input, turn.sawText, o))
    || (&& HasCompleteUsage(turn) && turn.call.Some? && IsValidCall(turn.call.value)
        && var after := AfterTurn(st, input, turn.usage.value.totalTokens);
           || StopsBeforeCall(config, after, input, o)
           || (&& MayCall(config, after, input)
               && CallEnds(config, Requested(after, fingerprintOf(turn.call.value.name, turn.call.value.argumentsJson)),
                           turn.call.value.name, input, o)))
  }

  /** A step leads to another one. */
  ghost predicate StepGoesOn(config: Config, fingerprintOf: (string, string) -> string, st: RunState, input: StepInput,
                             next: RunState)
  {
    && MayStart(config, AtTop(st, input), input)
    && exists turn :: IsTurn(config, input, turn)
                      && TurnGoesOn(config, fingerprintOf, AtTop(st, input), input, turn, next)
  }

  /** A step ends the run. */
  ghost predicate StepEnds(config: Config, fingerprintOf: (string, string) -> string, st: RunState, input: StepInput,
                           o: Outcome)
  {
    || StopsBeforeTurn(config, AtTop(st, input), input, o)
    || (&& MayStart(config, AtTop(st, input), input)
        && exists turn :: IsTurn(config, input, turn)
                          && TurnEnds(config, fingerprintOf, AtTop(st, input), input, turn, o))
  }

  // ---------- a run ----------

  /** What an inherited call returns; a recovered result has lost its control. */
  ghost predicate Inherits(call: Inherited, execution: Execution) {
    match call.recovered
    case Some(e) => execution == e.(control := None)
    case None => call.input.tool.Executed? && execution == call.input.tool.execution
  }

  function AfterInherited(st: RunState, call: Inherited): RunState {
    st.(abort := First(st.abort, call.input.abortInTool), completed := st.completed + 1)
  }

  ghost predicate InheritedGoesOn(config: Config, st: RunState, call: Inherited, next: RunState) {
    exists execution :: Inherits(call, execution)
                        && GoesOnAfter(config, AfterInherited(st, call), call.toolName, execution, call.input, next)
  }

  ghost predicate InheritedEnds(config: Config, st: RunState, call: Inherited, o: Outcome) {
    || (call.recovered.None? && call.input.tool.Threw? && o == NoOutcome)
    || exists execution :: Inherits(call, execution)
                           && StopsAfter(config, AfterInherited(st, call), call.toolName, execution, call.input, o)
  }

  function StateAtStart(abortedBefore: bool): RunState {
    RunState(if abortedBefore then Some(UserAbort) else None, 0, 0, 0, [], 0)
  }

  /** A run goes through these states, one before each step, and has this outcome. */
  ghost predicate IsRun(config: Config, fingerprintOf: (string, string) -> string, inherited: Option<Inherited>,
                        abortedBefore: bool, world: nat -> StepInput, path: seq<RunState>, o: Outcome)
  {
    if path == [] then inherited.Some? && InheritedEnds(config, StateAtStart(abortedBefore), inherited.value, o)
    else
      && (if inherited.None? then path[0] == StateAtStart(abortedBefore)
          else InheritedGoesOn(config, StateAtStart(abortedBefore), inherited.value, path[0]))
      && (forall i :: 0 <= i < |path| - 1 ==> StepGoesOn(config, fingerprintOf, path[i], world(i), path[i + 1]))
      && StepEnds(config, fingerprintOf, path[|path| - 1], world(|path| - 1), o)
  }

  /** The states of a run that has not ended yet. */
  ghost predicate IsUnderway(config: Config, fingerprintOf: (string, string) -> string, inherited: Option<Inherited>,
                             abortedBefore: bool, world: nat -> StepInput, path: seq<RunState>)
  {
    && path != []
    && (if inherited.None? then path[0] == StateAtStart(abortedBefore)
        else InheritedGoesOn(config, StateAtStart(abortedBefore), inherited.value, path[0]))
    && forall i :: 0 <= i < |path| - 1 ==> StepGoesOn(config, fingerprintOf, path[i], world(i), path[i + 1])
  }

  lemma OneMoreStep(config: Config, fingerprintOf: (string, string) -> string, inherited: Option<Inherited>,
                    abortedBefore: bool, world: nat -> StepInput, path: seq<RunState>, path': seq<RunState>,
                    end: Option<Outcome>)
    requires IsUnderway(config, fingerprintOf, inherited, abortedBefore, world, path)
    requires if end.None? then |path'| == |path| + 1 && path == path'[..|path|] else path' == path
    requires
      var st, input := path[|path| - 1], world(|path| - 1);
      if end.None? then StepGoesOn(config, fingerprintOf, st, input, path'[|path|])
      else StepEnds(config, fingerprintOf, st, input, end.value)
    ensures
      if end.None? then IsUnderway(config, fingerprintOf, inherited, abortedBefore, world, path')
      else IsRun(config, fingerprintOf, inherited, abortedBefore, world, path', end.value)
  {
    hide StepGoesOn, StepEnds, InheritedGoesOn, InheritedEnds;
  }

  lemma RunStarts(config: Config, fingerprintOf: (string, string) -> string, inherited: Option<Inherited>,
                  abortedBefore: bool, world: nat -> StepInput, first: RunState, end: Option<Outcome>)
    requires if inherited.None? then end.None? && first == StateAtStart(abortedBefore)
      else if end.None? then InheritedGoesOn(config, StateAtStart(abortedBefore), inherited.value, first)
      else InheritedEnds(config, StateAtStart(abortedBefore), inherited.value, end.value)
    ensures
      if end.None? then IsUnderway(config, fingerprintOf, inherited, abortedBefore, world, [first])
      else IsRun(config, fingerprintOf, inherited, abortedBefore, world, [], end.value)
  {
  }

  // ---------- there is one decision, and one run ----------

  lemma TurnIsOne(config: Config, input: StepInput, a: TurnResult, b: TurnResult)
    requires IsTurn(config, input, a) && IsTurn(config, input, b)
    ensures a == b
  {
    hide EndsAt;
    var i :| EndsAt(input.signals, config.declaredUsage, input.abortedAt, i, a);
    var j :| EndsAt(input.signals, config.declaredUsage, input.abortedAt, j, b);
    EndIsUnique(input.signals, config.declaredUsage, input.abortedAt, i, a, j, b);
  }

  lemma AbortIsOne(config: Config, st: RunState, elapsedMs: nat, o: Outcome, other: Outcome)
    ensures IsAbort(config, st, elapsedMs, o) ==> st.abort.Some?
    ensures IsAbort(config, st, elapsedMs, o) && IsAbort(config, st, elapsedMs, other) ==> o == other
    ensures forall reason ::
      (IsBudgetStop(config, st, elapsedMs, reason, o) && IsBudgetStop(config, st, elapsedMs, reason, other)) ==>
        o == other
  {
  }

  lemma BudgetIsOne(order: seq<BudgetReason>, config: Config, st: RunState, elapsedMs: nat, o: Outcome, other: Outcome)
    requires o.RunBudgetExceeded? && o.reason.OnBudget?
    requires IsFirstSpent(order, config.limits, SnapshotOf(st, elapsedMs), o.reason.reason)
      && IsBudgetStop(config, st, elapsedMs, o.reason.reason, o)
    ensures !NothingSpent(order, config.limits, SnapshotOf(st, elapsedMs))
    ensures
      (&& other.RunBudgetExceeded? && other.reason.OnBudget?
       && IsFirstSpent(order, config.limits, SnapshotOf(st, elapsedMs), other.reason.reason)
       && IsBudgetStop(config, st, elapsedMs, other.reason.reason, other)) ==> o == other
  {
    hide IsFirstSpent, NothingSpent;
    FirstSpentIsUnique(order, config.limits, SnapshotOf(st, elapsedMs), o.reason.reason,
      if other.RunBudgetExceeded? && other.reason.OnBudget? then other.reason.reason else MaxSteps);
    AbortIsOne(config, st, elapsedMs, o, other);
  }

  lemma BeforeTurnIsOne(config: Config, st: RunState, input: StepInput, o: Outcome, other: Outcome)
    requires StopsBeforeTurn(config, st, input, o)
    ensures !MayStart(config, st, input) && (StopsBeforeTurn(config, st, input, other) ==> o == other)
  {
    hide IsBudgetStop, IsFirstSpent, NothingSpent, IsAbort;
    AbortIsOne(config, st, input.elapsedAtTop, o, other);
    AbortIsOne(config, st, input.elapsedAtTop, other, o);
    if st.abort.None? && o.RunBudgetExceeded? && o.reason.OnBudget? {
      BudgetIsOne(BEFORE_STEP, config, st, input.elapsedAtTop, o, other);
    }
    if StopsBeforeTurn(config, st, input, other) && st.abort.None? && other.RunBudgetExceeded?
       && other.reason.OnBudget? {
      BudgetIsOne(BEFORE_STEP, config, st, input.elapsedAtTop, other, o);
    }
  }

  lemma BeforeCallIsOne(config: Config, st: RunState, input: StepInput, o: Outcome, other: Outcome)
    requires StopsBeforeCall(config, st, input, o)
    ensures !MayCall(config, st, input) && (StopsBeforeCall(config, st, input, other) ==> o == other)
  {
    hide IsBudgetStop, IsFirstSpent, NothingSpent, IsAbort;
    AbortIsOne(config, st, input.elapsedAfterModel, o, other);
    AbortIsOne(config, st, input.elapsedAfterModel, other, o);
    if st.abort.None? { BudgetIsOne(AFTER_MODEL, config, st, input.elapsedAfterModel, o, other); }
  }

  lemma ResultIsOne(st: RunState, name: string, execution: Execution, input: StepInput, o: Outcome, other: Outcome)
    requires StopsByResult(st, name, execution, input, o)
    ensures !IsForModel(name, execution) && !(o.RunBudgetExceeded?)
    ensures StopsByResult(st, name, execution, input, other) ==> o == other
  {
  }

  lemma AfterToolIsOne(config: Config, st: RunState, name: string, execution: Execution, input: StepInput, o: Outcome,
                       other: Outcome)
    requires StopsAfter(config, st, name, execution, input, o)
    ensures forall next :: !GoesOnAfter(config, st, name, execution, input, next)
    ensures StopsAfter(config, st, name, execution, input, other) ==> o == other
  {
    hide IsBudgetStop, IsFirstSpent, NothingSpent, IsAbort, StopsByResult, IsForModel;
    AbortIsOne(config, st, input.elapsedAfterTool, o, other);
    AbortIsOne(config, st, input.elapsedAfterTool, other, o);
    if st.abort.None? {
      if StopsByResult(st, name, execution, input, o) {
        ResultIsOne(st, name, execution, input, o, other);
      } else {
        BudgetIsOne(AFTER_TOOL, config, WithOutput(st, execution), input.elapsedAfterTool, o, other);
        if StopsByResult(st, name, execution, input, other) { ResultIsOne(st, name, execution, input, other, o); }
      }
    }
  }

  lemma CallIsOne(config: Config, st: RunState, name: string, input: StepInput, o: Outcome, other: Outcome)
    requires CallEnds(config, st, name, input, o)
    ensures forall next :: !CallGoesOn(config, st, name, input, next)
    ensures CallEnds(config, st, name, input, other) ==> o == other
  {
    hide StopsAfter, GoesOnAfter;
    forall execution | Returns(input.tool, execution)
                       && StopsAfter(config, AfterCall(st, input), name, execution, input, o)
      ensures forall next :: !GoesOnAfter(config, AfterCall(st, input), name, execution, input, next)
      ensures StopsAfter(config, AfterCall(st, input), name, execution, input, other) ==> o == other
    {
      AfterToolIsOne(config, AfterCall(st, input), name, execution, input, o, other);
    }
  }

  lemma InTurnIsOne(config: Config, st: RunState, input: StepInput, turn: TurnResult, o: Outcome, other: Outcome)
    requires StopsInTurn(config, st, input, turn, o)
    ensures !(HasCompleteUsage(turn) && (turn.call.Some? ==> IsValidCall(turn.call.value)))
    ensures StopsInTurn(config, st, input, turn, other) ==> o == other
  {
    hide IsAbort;
    AbortIsOne(config, st, input.elapsedAfterModel, o, other);
    AbortIsOne(config, st, input.elapsedAfterModel, other, o);
  }

  lemma PlanIsOne(st: RunState, plan: PlanState, o: Outcome, other: Outcome)
    ensures EndsPlan(st, plan, o) && EndsPlan(st, plan, other) ==> o == other
  {
  }

  lemma TextIsOne(config: Config, st: RunState, input: StepInput, sawText: bool, o: Outcome, other: Outcome)
    requires EndsByText(config, st, input, sawText, o)
    ensures EndsByText(config, st, input, sawText, other) ==> o == other
  {
    hide IsAbort, EndsPlan;
    AbortIsOne(config, st, input.elapsedAfterModel, o, other);
    AbortIsOne(config, st, input.elapsedAfterModel, other, o);
    PlanIsOne(st, input.planState, o, other);
  }

  lemma TurnEndIsOne(config: Config, fingerprintOf: (string, string) -> string, st: RunState, input: StepInput,
                     turn: TurnResult, o: Outcome, other: Outcome)
    requires TurnEnds(config, fingerprintOf, st, input, turn, o)
    ensures forall next :: !TurnGoesOn(config, fingerprintOf, st, input, turn, next)
    ensures TurnEnds(config, fingerprintOf, st, input, turn, other) ==> o == other
  {
    hide StopsInTurn, EndsByText, StopsBeforeCall, MayCall, CallEnds, CallGoesOn;
    if StopsInTurn(config, AfterTurn(st, input, 0), input, turn, o) {
      InTurnIsOne(config, AfterTurn(st, input, 0), input, turn, o, other);
    } else {
      if StopsInTurn(config, AfterTurn(st, input, 0), input, turn, other) {
        InTurnIsOne(config, AfterTurn(st, input, 0), input, turn, other, o);
      }
      var after := AfterTurn(st, input, turn.usage.value.totalTokens);
      if turn.call.None? {
        TextIsOne(config, after, input, turn.sawText, o, other);
      } else if StopsBeforeCall(config, after, input, o) {
        BeforeCallIsOne(config, after, input, o, other);
      } else {
        if StopsBeforeCall(config, after, input, other) { BeforeCallIsOne(config, after, input, other, o); }
        CallIsOne(config, Requested(after, fingerprintOf(turn.call.value.name, turn.call.value.argumentsJson)),
          turn.call.value.name, input, o, other);
      }
    }
  }

  /** A step that ends the run ends it with one outcome, and does not go on. */
  lemma StepEndIsOne(config: Config, fingerprintOf: (string, string) -> string, st: RunState, input: StepInput,
                     o: Outcome, other: Outcome)
    requires StepEnds(config, fingerprintOf, st, input, o)
    ensures forall next :: !StepGoesOn(config, fingerprintOf, st, input, next)
    ensures StepEnds(config, fingerprintOf, st, input, other) ==> o == other
  {
    hide StopsBeforeTurn, MayStart, IsTurn, TurnEnds, TurnGoesOn;
    var top := AtTop(st, input);
    if StopsBeforeTurn(config, top, input, o) {
      BeforeTurnIsOne(config, top, input, o, other);
    } else {
      if StopsBeforeTurn(config, top, input, other) { BeforeTurnIsOne(config, top, input, other, o); }
      var turn :| IsTurn(config, input, turn) && TurnEnds(config, fingerprintOf, top, input, turn, o);
      forall other | IsTurn(config, input, other) ensures other == turn { TurnIsOne(config, input, other, turn); }
      TurnEndIsOne(config, fingerprintOf, top, input, turn, o, other);
    }
  }

  lemma CallGoesOneWay(config: Config, st: RunState, name: string, input: StepInput, next: RunState, other: RunState)
    requires CallGoesOn(config, st, name, input, next) && CallGoesOn(config, st, name, input, other)
    ensures next == other
  {
    hide NothingSpent, IsForModel;
  }

  /** A step that goes on leads to one state. */
  lemma StepGoesOneWay(config: Config, fingerprintOf: (string, string) -> string, st: RunState, input: StepInput,
                       next: RunState, other: RunState)
    requires StepGoesOn(config, fingerprintOf, st, input, next) && StepGoesOn(config, fingerprintOf, st, input, other)
    ensures next == other
  {
    hide MayStart, IsTurn, MayCall, CallGoesOn;
    var top := AtTop(st, input);
    var turn :| IsTurn(config, input, turn) && TurnGoesOn(config, fingerprintOf, top, input, turn, next);
    var turn' :| IsTurn(config, input, turn') && TurnGoesOn(config, fingerprintOf, top, input, turn', other);
    TurnIsOne(config, input, turn, turn');
    var call, after := turn.call.value, AfterTurn(top, input, turn.usage.value.totalTokens);
    var requested := Requested(after, fingerprintOf(call.name, call.argumentsJson));
    CallGoesOneWay(config, requested, call.name, input, next, other);
  }

  lemma InheritedIsOne(config: Config, st: RunState, call: Inherited, o: Outcome, other: Outcome)
    ensures InheritedEnds(config, st, call, o) ==>
      && (forall next :: !InheritedGoesOn(config, st, call, next))
      && (InheritedEnds(config, st, call, other) ==> o == other)
    ensures forall next, next' ::
      (InheritedGoesOn(config, st, call, next) && InheritedGoesOn(config, st, call, next')) ==> next == next'
  {
    hide StopsAfter, NothingSpent, IsForModel;
    forall execution | Inherits(call, execution)
                       && StopsAfter(config, AfterInherited(st, call), call.toolName, execution, call.input, o)
      ensures forall next :: !GoesOnAfter(config, AfterInherited(st, call), call.toolName, execution, call.input, next)
      ensures StopsAfter(config, AfterInherited(st, call), call.toolName, execution, call.input, other) ==> o == other
    {
      AfterToolIsOne(config, AfterInherited(st, call), call.toolName, execution, call.input, o, other);
    }
  }

  /** A world allows one run. */
  lemma RunIsOne(config: Config, fingerprintOf: (string, string) -> string, inherited: Option<Inherited>,
                 abortedBefore: bool, world: nat -> StepInput, path: seq<RunState>, o: Outcome, path': seq<RunState>,
                 o': Outcome)
    requires IsRun(config, fingerprintOf, inherited, abortedBefore, world, path, o)
    requires IsRun(config, fingerprintOf, inherited, abortedBefore, world, path', o')
    ensures path == path' && o == o'
  {
    hide StepEnds, StepGoesOn, InheritedEnds, InheritedGoesOn;
    if inherited.Some? {
      InheritedIsOne(config, StateAtStart(abortedBefore), inherited.value, o, o');
      InheritedIsOne(config, StateAtStart(abortedBefore), inherited.value, o', o);
    }
    if path != [] && path' != [] {
      if inherited.Some? {
        assert InheritedGoesOn(config, StateAtStart(abortedBefore), inherited.value, path[0]);
        assert InheritedGoesOn(config, StateAtStart(abortedBefore), inherited.value, path'[0]);
      }
      if |path| <= |path'| {
        SameStart(config, fingerprintOf, inherited, abortedBefore, world, path, o, path', o');
        EndsThere(config, fingerprintOf, inherited, abortedBefore, world, path, o, path', o');
      } else {
        SameStart(config, fingerprintOf, inherited, abortedBefore, world, path', o', path, o);
        EndsThere(config, fingerprintOf, inherited, abortedBefore, world, path', o', path, o);
      }
    }
  }

  lemma SameStart(config: Config, fingerprintOf: (string, string) -> string, inherited: Option<Inherited>,
                  abortedBefore: bool, world: nat -> StepInput, path: seq<RunState>, o: Outcome, path': seq<RunState>,
                  o': Outcome)
    requires IsRun(config, fingerprintOf, inherited, abortedBefore, world, path, o)
    requires IsRun(config, fingerprintOf, inherited, abortedBefore, world, path', o')
    requires path != [] && |path| <= |path'| && path[0] == path'[0]
    ensures path == path'[..|path|]
  {
    hide StepEnds, StepGoesOn, InheritedEnds, InheritedGoesOn;
    for i := 1 to |path|
      invariant path[..i] == path'[..i]
    {
      assert path[i - 1] == path[..i][i - 1] == path'[..i][i - 1] == path'[i - 1];
      StepGoesOneWay(config, fingerprintOf, path[i - 1], world(i - 1), path[i - 1 + 1], path'[i - 1 + 1]);
    }
    assert path[..|path|] == path;
  }

  lemma EndsThere(config: Config, fingerprintOf: (string, string) -> string, inherited: Option<Inherited>,
                  abortedBefore: bool, world: nat -> StepInput, path: seq<RunState>, o: Outcome, path': seq<RunState>,
                  o': Outcome)
    requires IsRun(config, fingerprintOf, inherited, abortedBefore, world, path, o)
    requires IsRun(config, fingerprintOf, inherited, abortedBefore, world, path', o')
    requires path != [] && |path| <= |path'| && path == path'[..|path|]
    ensures path == path' && o == o'
  {
    hide StepEnds, StepGoesOn, InheritedEnds, InheritedGoesOn;
    var n := |path|;
    assert path[n - 1] == path'[n - 1];
    assert |path'| == n || StepGoesOn(config, fingerprintOf, path'[n - 1], world(n - 1), path'[n - 1 + 1]);
    assert |path'| == n ==> path' == path;
    StepEndIsOne(config, fingerprintOf, path[n - 1], world(n - 1), o, o');
  }

  // ---------- the shortest run ----------

  /** A run whose first turn streams a text that is not blank, its usage and no call is complete after it. */
  lemma TextCompletes(config: Config, fingerprintOf: (string, string) -> string, world: nat -> StepInput, text: string,
                      usage: Usage)
    requires !config.planMode && !config.coding && config.declaredUsage == Some(Completeness.Complete)
    requires text != "" && usage.completeness == Completeness.Complete
    requires
      var input := world(0);
      && input.signals == [TextDelta(text, false), UsageReport(usage), TurnCompleted(TextTurn)]
      && input.abortAtTop.None? && input.abortedAt.None? && input.abortInTurn.None? && input.prepared.Ready?
      && !input.boundaryFails && input.elapsedAtTop < config.limits.maxDurationMs
      && config.limits.maxSteps > 0 && config.limits.maxTokens > 0 && config.limits.maxToolOutputBytes > 0
    ensures IsRun(config, fingerprintOf, None, false, world, [StateAtStart(false)], RunCompleted(ModelFinal, 1, 0))
  {
    var input, st := world(0), StateAtStart(false);
    var turn := Completed(None, true, |text|, Some(usage));
    TextIsTurn(text, usage);
    hide EndsAt;
    assert IsTurn(config, input, turn);
    assert MayStart(config, AtTop(st, input), input);
    assert TurnEnds(config, fingerprintOf, AtTop(st, input), input, turn, RunCompleted(ModelFinal, 1, 0));
  }

  lemma TextIsTurn(text: string, usage: Usage)
    requires text != "" && usage.completeness == Completeness.Complete
    ensures EndsAt([TextDelta(text, false), UsageReport(usage), TurnCompleted(TextTurn)], Some(Completeness.Complete),
                   None, 2, Completed(None, true, |text|, Some(usage)))
  {
    var signals := [TextDelta(text, false), UsageReport(usage), TurnCompleted(TextTurn)];
    var before := [TextDelta(text, false), UsageReport(usage)];
    assert signals[..2] == before;
    assert before[..1] == [TextDelta(text, false)] && before[..1][..0] == [];
    assert TextChars(before[..1]) == |text|;
    assert before[0].TextDelta? && before[1] == UsageReport(usage) && before[1].UsageReport?;
    assert SawText(before) && ReportsUsage(before, Some(usage)) && NoCall(before);
    assert UsageAgrees(before, Some(Completeness.Complete));
    hide SawText, ReportsUsage, NoCall, UsageAgrees;
  }
}
