/** One model turn: a stream of signals folded into at most one tool call and one usage report. */
module ModelTurn {
  import opened Wrappers

  datatype Completeness = Complete | Partial

  datatype Usage = Usage(completeness: Completeness, inputTokens: nat, outputTokens: nat, totalTokens: nat,
                         cacheReadTokens: Option<nat>)

  datatype ProviderFailure = ProviderFailure(category: string, code: string, retryable: bool)

  datatype TurnKind = TextTurn | ToolTurn

  datatype Signal =
    | TextDelta(text: string, blank: bool)
    | ToolCallDelta(callId: string, name: string, argumentsDelta: string)
    | UsageReport(usage: Usage)
    | FailedSignal(error: ProviderFailure)
    | TurnCompleted(kind: TurnKind)

  datatype ModelToolCall = ModelToolCall(argumentsJson: string, callId: string, name: string)

  datatype TurnResult =
    | Completed(call: Option<ModelToolCall>, sawText: bool, textChars: nat, usage: Option<Usage>)
    | Failed(error: ProviderFailure)
    | Aborted

  function Protocol(code: string): ProviderFailure {
    ProviderFailure("protocol", code, false)
  }

  /** The argument pieces of all calls in order. */
  function Arguments(signals: seq<Signal>): string {
    if signals == [] then ""
    else
      var last := signals[|signals| - 1];
      Arguments(signals[..|signals| - 1]) + if last.ToolCallDelta? then last.argumentsDelta else ""
  }

  function TextChars(signals: seq<Signal>): nat {
    if signals == [] then 0
    else
      var last := signals[|signals| - 1];
      TextChars(signals[..|signals| - 1]) + if last.TextDelta? then |last.text| else 0
  }

  predicate SawText(signals: seq<Signal>) {
    exists i :: 0 <= i < |signals| && signals[i].TextDelta? && |signals[i].text| > 0 && !signals[i].blank
  }

  predicate Calls(signals: seq<Signal>, callId: string) {
    exists i :: 0 <= i < |signals| && signals[i].ToolCallDelta? && signals[i].callId == callId
  }

  /** Every call piece belongs to this call. */
  predicate OnlyCall(signals: seq<Signal>, call: ModelToolCall) {
    && Calls(signals, call.callId) && call.argumentsJson == Arguments(signals)
    && forall i :: 0 <= i < |signals| && signals[i].ToolCallDelta? ==>
       signals[i].callId == call.callId && signals[i].name == call.name
  }

  predicate NoCall(signals: seq<Signal>) {
    forall i :: 0 <= i < |signals| ==> !signals[i].ToolCallDelta?
  }

  /** The usage reports of a stream: none, or exactly one. */
  predicate ReportsUsage(signals: seq<Signal>, usage: Option<Usage>) {
    match usage
    case None => forall i :: 0 <= i < |signals| ==> !signals[i].UsageReport?
    case Some(u) =>
      exists i :: 0 <= i < |signals| && signals[i] == UsageReport(u)
                  && forall j :: 0 <= j < |signals| && j != i ==> !signals[j].UsageReport?
  }

  /** What a completed turn says about the signals before its completion. */
  predicate IsTurnOf(signals: seq<Signal>, kind: TurnKind, declared: Option<Completeness>, r: TurnResult) {
    && r.Completed?
    && (r.call.None? <==> kind == TextTurn) && (r.call.None? ==> NoCall(signals))
       && (r.call.Some? ==> OnlyCall(signals, r.call.value))
    && ReportsUsage(signals, r.usage)
    && (r.usage.Some? <==> declared.Some?) && (r.usage.Some? ==> r.usage.value.completeness == declared.value)
    && (r.sawText <==> SawText(signals)) && r.textChars == TextChars(signals)
    && forall i :: 0 <= i < |signals| ==> !signals[i].FailedSignal? && !signals[i].TurnCompleted?
  }

  /** The turn completes at this signal with this result. */
  predicate CompletesAt(signals: seq<Signal>, declared: Option<Completeness>, abortedAt: Option<nat>, k: int,
                        r: TurnResult)
  {
    && 0 <= k < |signals| && signals[k].TurnCompleted? && (abortedAt.None? || k < abortedAt.value)
    && IsTurnOf(signals[..k], signals[k].kind, declared, r)
  }

  predicate IsProtocolError(r: TurnResult, code: string) {
    r == Failed(ProviderFailure("protocol", code, false))
  }

  predicate SameCall(a: Signal, b: Signal) {
    a.ToolCallDelta? && b.ToolCallDelta? && a.callId == b.callId
  }

  /** Signals that a turn gets through: no end, one usage report at most, and one name for each call. */
  ghost predicate GoesWell(signals: seq<Signal>) {
    && (forall i :: 0 <= i < |signals| ==> !signals[i].FailedSignal? && !signals[i].TurnCompleted?)
    && (forall i, j :: 0 <= i < j < |signals| && signals[i].UsageReport? ==> !signals[j].UsageReport?)
    && (forall i, j :: 0 <= i < j < |signals| && SameCall(signals[i], signals[j]) ==>
          signals[i].name == signals[j].name)
  }

  /** The usage report is the one that the backend has declared, or neither is there. */
  ghost predicate UsageAgrees(signals: seq<Signal>, declared: Option<Completeness>) {
    match declared
    case None => forall i :: 0 <= i < |signals| ==> !signals[i].UsageReport?
    case Some(c) => exists i :: 0 <= i < |signals| && signals[i].UsageReport? && signals[i].usage.completeness == c
  }

  ghost predicate TwoCalls(signals: seq<Signal>) {
    exists i, j :: 0 <= i < j < |signals| && signals[i].ToolCallDelta? && signals[j].ToolCallDelta?
                   && signals[i].callId != signals[j].callId
  }

  /** How a turn ends that completes after these signals. */
  ghost predicate EndsWith(signals: seq<Signal>, kind: TurnKind, declared: Option<Completeness>, r: TurnResult) {
    if !UsageAgrees(signals, declared) || (kind == TextTurn <==> !NoCall(signals)) then
      IsProtocolError(r, "protocol_capability_mismatch")
    else if TwoCalls(signals) then IsProtocolError(r, "multiple_tool_calls")
    else IsTurnOf(signals, kind, declared, r)
  }

  /** The turn ends at this signal, or after the last one, with this result. */
  ghost predicate EndsAt(signals: seq<Signal>, declared: Option<Completeness>, abortedAt: Option<nat>, k: int,
                         r: TurnResult)
  {
    && 0 <= k <= |signals| && (abortedAt.Some? ==> k <= abortedAt.value) && GoesWell(signals[..k])
    && if abortedAt == Some(k) then r == Aborted
       else if k == |signals| then IsProtocolError(r, "stream_ended_without_terminal")
       else
         match signals[k]
         case TextDelta(_, _) => false
         case ToolCallDelta(id, name, _) =>
           && IsProtocolError(r, "tool_call_name_changed")
           && exists j :: 0 <= j < k && signals[j].ToolCallDelta? && signals[j].callId == id && signals[j].name != name
         case UsageReport(_) =>
           && IsProtocolError(r, "duplicate_turn_usage") && exists j :: 0 <= j < k && signals[j].UsageReport?
         case FailedSignal(error) => r == Failed(error)
         case TurnCompleted(kind) => EndsWith(signals[..k], kind, declared, r)
  }

  /** The calls collected so far: for each call its name and its own pieces. */
  ghost predicate Collected(signals: seq<Signal>, calls: map<string, ModelToolCall>) {
    && (forall id :: id in calls <==> Calls(signals, id))
    && (forall id :: id in calls ==> calls[id].callId == id)
    && (forall i :: 0 <= i < |signals| && signals[i].ToolCallDelta? ==>
          signals[i].callId in calls && signals[i].name == calls[signals[i].callId].name)
    && (|calls| == 1 ==> forall id :: id in calls ==> calls[id].argumentsJson == Arguments(signals))
    && (|calls| == 0 ==> Arguments(signals) == "")
  }

  /**
   Consumes a turn. An abort becomes visible at some signal, or never. The result is the only one that the
   signals allow; a turn completes exactly when the signals before its completion are those of a turn.
   */
  method ConsumeModelTurn(signals: seq<Signal>, declared: Option<Completeness>, abortedAt: Option<nat>)
    returns (r: TurnResult)
    ensures exists k :: EndsAt(signals, declared, abortedAt, k, r)
    ensures forall k, other :: EndsAt(signals, declared, abortedAt, k, other) ==> r == other
    ensures r.Completed? ==> exists k :: CompletesAt(signals, declared, abortedAt, k, r)
    ensures forall k, other :: CompletesAt(signals, declared, abortedAt, k, other) ==> r == other
  {
    hide EndsAt;
    ghost var k;
    r, k := ReadTurn(signals, declared, abortedAt);
    forall j, other | EndsAt(signals, declared, abortedAt, j, other) ensures r == other {
      EndIsUnique(signals, declared, abortedAt, k, r, j, other);
    }
    forall j, other: TurnResult | other.Completed?
      ensures EndsAt(signals, declared, abortedAt, j, other) <==> CompletesAt(signals, declared, abortedAt, j, other)
    {
      CompletionIsEnd(signals, declared, abortedAt, j, other);
    }
  }

  method ReadTurn(signals: seq<Signal>, declared: Option<Completeness>, abortedAt: Option<nat>)
    returns (r: TurnResult, ghost k: int)
    ensures EndsAt(signals, declared, abortedAt, k, r)
  {
    hide Collected, ReportsUsage, SawText, TextChars, NoCall, OnlyCall, IsTurnOf, GoesWell, EndsWith;
    var calls: map<string, ModelToolCall> := map[];
    var usage: Option<Usage> := None;
    var sawText, textChars := false, 0;
    NothingCollected();
    for i := 0 to |signals|
      invariant Collected(signals[..i], calls) && ReportsUsage(signals[..i], usage)
      invariant (sawText <==> SawText(signals[..i])) && textChars == TextChars(signals[..i])
      invariant GoesWell(signals[..i])
      invariant abortedAt.None? || i <= abortedAt.value
    {
      k := i;
      if abortedAt.Some? && abortedAt.value <= i { return Aborted, k; }
      OneSignal(signals, i, usage, calls);
      OneMoreGoesWell(signals, i, usage, calls);
      match signals[i]
      case TextDelta(text, blank) =>
        if |text| > 0 {
          sawText := sawText || !blank;
          textChars := textChars + |text|;
        }
      case ToolCallDelta(callId, name, _) =>
        if callId in calls && calls[callId].name != name { return Failed(Protocol("tool_call_name_changed")), k; }
        Collect(signals, i, calls);
        calls := WithPiece(calls, signals[i]);
      case UsageReport(u) =>
        if usage.Some? { return Failed(Protocol("duplicate_turn_usage")), k; }
        usage := Some(u);
      case FailedSignal(error) => return Failed(error), k;
      case TurnCompleted(kind) =>
        KeyIsName(signals[..i], calls);
        Terminal(signals[..i], kind, declared, calls, usage);
        if (declared.None? && usage.Some?)
           || (declared.Some? && (usage.None? || usage.value.completeness != declared.value)) {
          return Failed(Protocol("protocol_capability_mismatch")), k;
        }
        if (kind == TextTurn && |calls| != 0) || (kind == ToolTurn && |calls| == 0) {
          return Failed(Protocol("protocol_capability_mismatch")), k;
        }
        if |calls| > 1 { return Failed(Protocol("multiple_tool_calls")), k; }
        var call := None;
        if |calls| == 1 {
          var id :| id in calls;
          call := Some(calls[id]);
        }
        Conclude(signals[..i], calls, call);
        r := Completed(call, sawText, textChars, usage);
        IsItsTurn(signals[..i], kind, declared, r);
        return;
    }
    k := |signals|;
    assert signals[..k] == signals;
    return if abortedAt.Some? && abortedAt.value <= |signals| then Aborted
      else Failed(Protocol("stream_ended_without_terminal")), k;
  }

  lemma UsageIsUnique(signals: seq<Signal>, u: Option<Usage>, v: Option<Usage>)
    requires ReportsUsage(signals, u) && ReportsUsage(signals, v)
    ensures u == v
  {
  }

  lemma CallIsUnique(signals: seq<Signal>, a: ModelToolCall, b: ModelToolCall)
    requires OnlyCall(signals, a) && OnlyCall(signals, b)
    ensures a == b
  {
  }

  /** What the collected calls and the usage say about a turn that completes here. */
  lemma Terminal(signals: seq<Signal>, kind: TurnKind, declared: Option<Completeness>,
                 calls: map<string, ModelToolCall>, usage: Option<Usage>)
    requires GoesWell(signals) && Collected(signals, calls) && ReportsUsage(signals, usage)
    ensures UsageAgrees(signals, declared) <==>
      if declared.None? then usage.None? else usage.Some? && usage.value.completeness == declared.value
    ensures NoCall(signals) <==> |calls| == 0
    ensures TwoCalls(signals) <==> |calls| > 1
    ensures forall r :: IsProtocolError(r, "protocol_capability_mismatch") ==>
      (!UsageAgrees(signals, declared) || (kind == TextTurn <==> !NoCall(signals)) ==>
        EndsWith(signals, kind, declared, r))
    ensures forall r :: IsProtocolError(r, "multiple_tool_calls") ==>
      (&& UsageAgrees(signals, declared) && !(kind == TextTurn <==> !NoCall(signals)) && TwoCalls(signals) ==>
        EndsWith(signals, kind, declared, r))
    ensures forall r :: IsTurnOf(signals, kind, declared, r) ==>
      (&& UsageAgrees(signals, declared) && !(kind == TextTurn <==> !NoCall(signals)) && !TwoCalls(signals) ==>
        EndsWith(signals, kind, declared, r))
  {
    hide IsTurnOf;
    CallsCounted(signals, calls);
    hide Collected, NoCall, TwoCalls, GoesWell;
  }

  lemma CallsCounted(signals: seq<Signal>, calls: map<string, ModelToolCall>)
    requires Collected(signals, calls)
    ensures NoCall(signals) <==> |calls| == 0
    ensures TwoCalls(signals) <==> |calls| > 1
  {
    forall i | 0 <= i < |signals| && signals[i].ToolCallDelta? ensures Calls(signals, signals[i].callId) {
    }
    if |calls| > 0 {
      var a :| a in calls;
      assert Calls(signals, a);
      if |calls| == 1 {
        forall i | 0 <= i < |signals| && signals[i].ToolCallDelta? ensures signals[i].callId == a {
          OnlyKey(calls, a, signals[i].callId);
        }
      } else {
        AnotherKey(calls, a);
        var b :| b in calls && b != a;
        assert Calls(signals, b);
        var i :| 0 <= i < |signals| && signals[i].ToolCallDelta? && signals[i].callId == a;
        var j :| 0 <= j < |signals| && signals[j].ToolCallDelta? && signals[j].callId == b;
        assert i < j || j < i;
      }
    }
  }

  lemma AnotherKey(m: map<string, ModelToolCall>, a: string)
    requires |m| > 1 && a in m
    ensures exists b :: b in m && b != a
  {
    var rest := m.Keys - {a};
    assert |rest| == |m.Keys| - 1 == |m| - 1;
    assert rest != {};
    var b :| b in rest;
  }

  /** What was collected is the turn. */
  lemma IsItsTurn(signals: seq<Signal>, kind: TurnKind, declared: Option<Completeness>, r: TurnResult)
    requires GoesWell(signals)
    requires
      && r.Completed? && ReportsUsage(signals, r.usage)
      && (r.call.None? <==> kind == TextTurn)
         && (if r.call.None? then NoCall(signals) else OnlyCall(signals, r.call.value))
      && (r.usage.Some? <==> declared.Some?) && (r.usage.Some? ==> r.usage.value.completeness == declared.value)
      && (r.sawText <==> SawText(signals)) && r.textChars == TextChars(signals)
    ensures IsTurnOf(signals, kind, declared, r)
  {
    hide SawText, TextChars, ReportsUsage, OnlyCall, NoCall;
  }

  /** One more signal is fine exactly when it does not end the turn. */
  lemma OneMoreGoesWell(signals: seq<Signal>, i: nat, usage: Option<Usage>, calls: map<string, ModelToolCall>)
    requires i < |signals| && GoesWell(signals[..i])
    requires ReportsUsage(signals[..i], usage) && Collected(signals[..i], calls)
    ensures signals[i].TextDelta? ==> GoesWell(signals[..i + 1])
    ensures signals[i].UsageReport? ==>
      if usage.None? then GoesWell(signals[..i + 1]) else exists j :: 0 <= j < i && signals[j].UsageReport?
    ensures signals[i].ToolCallDelta? ==>
      var id, name := signals[i].callId, signals[i].name;
      if id in calls && calls[id].name != name then
        exists j :: 0 <= j < i && signals[j].ToolCallDelta? && signals[j].callId == id && signals[j].name != name
      else GoesWell(signals[..i + 1])
  {
    assert forall j :: 0 <= j < i ==> signals[..i][j] == signals[j];
    if signals[i].ToolCallDelta? {
      hide GoesWell, ReportsUsage;
      OneMoreCall(signals, i, calls);
    } else if signals[i].UsageReport? {
      hide Collected;
      OneMoreReport(signals, i, usage);
    } else if signals[i].TextDelta? {
      hide Collected, ReportsUsage;
      WellWith(signals, i);
    }
  }

  /** What a signal must not do to be fine after others that are. */
  lemma WellWith(signals: seq<Signal>, i: nat)
    requires i < |signals| && GoesWell(signals[..i]) && !signals[i].FailedSignal? && !signals[i].TurnCompleted?
    requires forall j :: 0 <= j < i ==> !(signals[j].UsageReport? && signals[i].UsageReport?)
    requires forall j :: 0 <= j < i && SameCall(signals[j], signals[i]) ==> signals[j].name == signals[i].name
    ensures GoesWell(signals[..i + 1])
  {
    var before, after := signals[..i], signals[..i + 1];
    assert after[i] == signals[i];
    assert forall j :: 0 <= j < i ==> after[j] == before[j] == signals[j];
  }

  lemma OneMoreReport(signals: seq<Signal>, i: nat, usage: Option<Usage>)
    requires i < |signals| && GoesWell(signals[..i]) && ReportsUsage(signals[..i], usage) && signals[i].UsageReport?
    ensures if usage.None? then GoesWell(signals[..i + 1]) else exists j :: 0 <= j < i && signals[j].UsageReport?
  {
    if usage.Some? {
      var j :| 0 <= j < i && signals[..i][j] == UsageReport(usage.value);
      assert signals[j].UsageReport?;
    } else {
      forall j | 0 <= j < i ensures !signals[j].UsageReport? { assert signals[..i][j] == signals[j]; }
      hide GoesWell;
      WellWith(signals, i);
    }
  }

  lemma OneMoreCall(signals: seq<Signal>, i: nat, calls: map<string, ModelToolCall>)
    requires i < |signals| && GoesWell(signals[..i]) && Collected(signals[..i], calls) && signals[i].ToolCallDelta?
    ensures
      var id, name := signals[i].callId, signals[i].name;
      if id in calls && calls[id].name != name then
        exists j :: 0 <= j < i && signals[j].ToolCallDelta? && signals[j].callId == id && signals[j].name != name
      else GoesWell(signals[..i + 1])
  {
    hide GoesWell;
    var id, name := signals[i].callId, signals[i].name;
    forall j | 0 <= j < i && signals[j].ToolCallDelta? && signals[j].callId == id
      ensures id in calls && signals[j].name == calls[id].name
    {
      assert signals[..i][j] == signals[j];
    }
    if id in calls && calls[id].name != name {
      assert Calls(signals[..i], id);
      var j :| 0 <= j < i && signals[..i][j].ToolCallDelta? && signals[..i][j].callId == id;
      assert signals[j].callId == id;
    } else {
      hide Collected;
      WellWith(signals, i);
    }
  }

  /** A turn has one end. */
  lemma EndIsUnique(signals: seq<Signal>, declared: Option<Completeness>, abortedAt: Option<nat>, i: int, r: TurnResult,
                    j: int, other: TurnResult)
    requires EndsAt(signals, declared, abortedAt, i, r) && EndsAt(signals, declared, abortedAt, j, other)
    ensures r == other
  {
    if i == j {
      if 0 <= i < |signals| && signals[i].TurnCompleted? && abortedAt != Some(i) {
        hide GoesWell;
        TurnIsUnique(signals[..i], signals[i].kind, declared, r, other);
      }
    } else {
      hide EndsWith;
      if i < j { EndsNoLater(signals, declared, abortedAt, i, r, j); }
      if j < i { EndsNoLater(signals, declared, abortedAt, j, other, i); }
    }
  }

  lemma EndsNoLater(signals: seq<Signal>, declared: Option<Completeness>, abortedAt: Option<nat>, i: int, r: TurnResult,
                    j: int)
    requires EndsAt(signals, declared, abortedAt, i, r) && i < j <= |signals|
    requires abortedAt.Some? ==> j <= abortedAt.value
    ensures !GoesWell(signals[..j])
  {
    hide EndsWith;
    assert forall m :: 0 <= m < j ==> signals[..j][m] == signals[m];
  }

  lemma TurnIsUnique(signals: seq<Signal>, kind: TurnKind, declared: Option<Completeness>, r: TurnResult,
                     other: TurnResult)
    requires EndsWith(signals, kind, declared, r) && EndsWith(signals, kind, declared, other)
    ensures r == other
  {
    hide SawText, TextChars, ReportsUsage, OnlyCall, NoCall, UsageAgrees, TwoCalls;
    if r.Completed? && other.Completed? {
      UsageIsUnique(signals, r.usage, other.usage);
      if r.call.Some? { CallIsUnique(signals, r.call.value, other.call.value); }
    }
  }

  /** To complete is one way to end. */
  lemma CompletionIsEnd(signals: seq<Signal>, declared: Option<Completeness>, abortedAt: Option<nat>, k: int,
                        r: TurnResult)
    requires r.Completed?
    ensures EndsAt(signals, declared, abortedAt, k, r) <==> CompletesAt(signals, declared, abortedAt, k, r)
  {
    hide SawText, TextChars;
    if 0 <= k < |signals| && signals[k].TurnCompleted? && IsTurnOf(signals[..k], signals[k].kind, declared, r) {
      TurnGoesWell(signals[..k], signals[k].kind, declared, r);
      hide GoesWell, IsTurnOf;
    }
  }

  lemma TurnGoesWell(signals: seq<Signal>, kind: TurnKind, declared: Option<Completeness>, r: TurnResult)
    requires IsTurnOf(signals, kind, declared, r)
    ensures GoesWell(signals) && EndsWith(signals, kind, declared, r)
  {
    hide SawText, TextChars;
  }

  lemma NothingCollected()
    ensures Collected([], map[]) && ReportsUsage([], None) && !SawText([]) && TextChars([]) == 0 && GoesWell([])
  {
  }

  lemma OneSignal(signals: seq<Signal>, i: nat, usage: Option<Usage>, calls: map<string, ModelToolCall>)
    requires i < |signals| && ReportsUsage(signals[..i], usage) && Collected(signals[..i], calls)
    ensures TextChars(signals[..i + 1])
         == TextChars(signals[..i]) + if signals[i].TextDelta? then |signals[i].text| else 0
    ensures SawText(signals[..i + 1])
       <==> SawText(signals[..i]) || (signals[i].TextDelta? && |signals[i].text| > 0 && !signals[i].blank)
    ensures !signals[i].UsageReport? ==> ReportsUsage(signals[..i + 1], usage)
    ensures signals[i].UsageReport? && usage.None? ==> ReportsUsage(signals[..i + 1], Some(signals[i].usage))
    ensures !signals[i].ToolCallDelta? ==> Collected(signals[..i + 1], calls)
  {
    TextSeen(signals, i);
    UsageSeen(signals, i, usage);
    if !signals[i].ToolCallDelta? { NothingMore(signals, i, calls); }
  }

  lemma TextSeen(signals: seq<Signal>, i: nat)
    requires i < |signals|
    ensures TextChars(signals[..i + 1])
         == TextChars(signals[..i]) + if signals[i].TextDelta? then |signals[i].text| else 0
    ensures SawText(signals[..i + 1])
       <==> SawText(signals[..i]) || (signals[i].TextDelta? && |signals[i].text| > 0 && !signals[i].blank)
  {
    var before, after := signals[..i], signals[..i + 1];
    assert after[..i] == before && after[i] == signals[i];
    if SawText(before) {
      var j :| 0 <= j < i && before[j].TextDelta? && |before[j].text| > 0 && !before[j].blank;
      assert after[j] == before[j];
    }
    if SawText(after) {
      var j :| 0 <= j < i + 1 && after[j].TextDelta? && |after[j].text| > 0 && !after[j].blank;
      if j < i { assert before[j] == after[j]; }
    }
  }

  lemma UsageSeen(signals: seq<Signal>, i: nat, usage: Option<Usage>)
    requires i < |signals| && ReportsUsage(signals[..i], usage)
    ensures !signals[i].UsageReport? ==> ReportsUsage(signals[..i + 1], usage)
    ensures signals[i].UsageReport? && usage.None? ==> ReportsUsage(signals[..i + 1], Some(signals[i].usage))
  {
    var before, after := signals[..i], signals[..i + 1];
    assert forall j :: 0 <= j < i ==> after[j] == before[j];
    assert after[i] == signals[i];
    if usage.Some? && !signals[i].UsageReport? {
      var j :| 0 <= j < i && before[j] == UsageReport(usage.value)
               && forall m :: 0 <= m < i && m != j ==> !before[m].UsageReport?;
      assert after[j] == UsageReport(usage.value);
    }
  }

  lemma NothingMore(signals: seq<Signal>, i: nat, calls: map<string, ModelToolCall>)
    requires i < |signals| && !signals[i].ToolCallDelta? && Collected(signals[..i], calls)
    ensures Collected(signals[..i + 1], calls)
  {
    CallsSeen(signals, i);
  }

  lemma CallsSeen(signals: seq<Signal>, i: nat)
    requires i < |signals|
    ensures Arguments(signals[..i + 1])
         == Arguments(signals[..i]) + if signals[i].ToolCallDelta? then signals[i].argumentsDelta else ""
    ensures forall id :: Calls(signals[..i + 1], id) <==>
      Calls(signals[..i], id) || (signals[i].ToolCallDelta? && signals[i].callId == id)
    ensures forall j :: 0 <= j < i ==> signals[..i + 1][j] == signals[..i][j]
  {
    var before, after := signals[..i], signals[..i + 1];
    assert after[..i] == before && after[i] == signals[i];
    forall id
      ensures Calls(after, id) <==> Calls(before, id) || (signals[i].ToolCallDelta? && signals[i].callId == id)
    {
      if Calls(before, id) {
        var j :| 0 <= j < i && before[j].ToolCallDelta? && before[j].callId == id;
        assert after[j] == before[j];
      }
      if Calls(after, id) {
        var j :| 0 <= j < i + 1 && after[j].ToolCallDelta? && after[j].callId == id;
        if j < i { assert before[j] == after[j]; }
      }
    }
  }

  /** The calls after one more piece. */
  function WithPiece(calls: map<string, ModelToolCall>, s: Signal): map<string, ModelToolCall>
    requires s.ToolCallDelta?
  {
    var earlier := if s.callId in calls then calls[s.callId].argumentsJson else "";
    calls[s.callId := ModelToolCall(earlier + s.argumentsDelta, s.callId, s.name)]
  }

  lemma Collect(signals: seq<Signal>, i: nat, calls: map<string, ModelToolCall>)
    requires i < |signals| && signals[i].ToolCallDelta? && Collected(signals[..i], calls)
    requires signals[i].callId in calls ==> calls[signals[i].callId].name == signals[i].name
    ensures Collected(signals[..i + 1], WithPiece(calls, signals[i]))
  {
    CallsSeen(signals, i);
    PieceArguments(signals, i, calls);
    hide Arguments, Calls;
    var more := WithPiece(calls, signals[i]);
    var after := signals[..i + 1];
    forall j | 0 <= j < |after| && after[j].ToolCallDelta?
      ensures after[j].callId in more && after[j].name == more[after[j].callId].name
    {
      if j < i { assert signals[..i][j] == after[j]; }
    }
    assert |more| > 0;
  }

  lemma PieceArguments(signals: seq<Signal>, i: nat, calls: map<string, ModelToolCall>)
    requires i < |signals| && signals[i].ToolCallDelta? && Collected(signals[..i], calls)
    ensures
      var more := WithPiece(calls, signals[i]);
      |more| == 1 ==> forall x :: x in more ==> more[x].argumentsJson == Arguments(signals[..i + 1])
  {
    CallsSeen(signals, i);
    var id, more := signals[i].callId, WithPiece(calls, signals[i]);
    if |more| == 1 {
      SizeWithPiece(calls, signals[i]);
      if id in calls { assert calls[id].argumentsJson == Arguments(signals[..i]); }
      forall x | x in more ensures more[x].argumentsJson == Arguments(signals[..i + 1]) {
        OnlyKey(more, id, x);
      }
    }
  }

  lemma SizeWithPiece(calls: map<string, ModelToolCall>, s: Signal)
    requires s.ToolCallDelta?
    ensures |WithPiece(calls, s)| == if s.callId in calls then |calls| else |calls| + 1
  {
  }

  lemma OnlyKey(m: map<string, ModelToolCall>, a: string, b: string)
    requires |m| == 1 && a in m && b in m
    ensures a == b
  {
    var rest := m.Keys - {a};
    assert |rest| == 0;
    assert b !in rest;
  }

  lemma KeyIsName(signals: seq<Signal>, calls: map<string, ModelToolCall>)
    requires Collected(signals, calls)
    ensures forall id :: id in calls ==> calls[id].callId == id
  {
  }

  lemma Conclude(signals: seq<Signal>, calls: map<string, ModelToolCall>, call: Option<ModelToolCall>)
    requires Collected(signals, calls) && |calls| <= 1
    requires call == None <==> |calls| == 0
    requires call.Some? ==> call.value.callId in calls && calls[call.value.callId] == call.value
    ensures call.None? ==> NoCall(signals)
    ensures call.Some? ==> OnlyCall(signals, call.value)
  {
    forall i | 0 <= i < |signals| && signals[i].ToolCallDelta?
      ensures call.Some? && signals[i].callId == call.value.callId && signals[i].name == call.value.name
    {
      assert signals[i].callId in calls;
      if call.Some? { OnlyKey(calls, signals[i].callId, call.value.callId); }
    }
  }
}
