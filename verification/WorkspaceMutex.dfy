/**
 The workspace lock: a chain of promises per workspace key. Each call waits for the tail that it
 found; its own tail settles when that one has settled and the call has released. Promise reactions
 happen as separate steps, in any order.
 */
module WorkspaceMutex {
  import opened Wrappers

  datatype Phase = Waiting | Running | Finished | GivenUp

  /** One call: the tail that it waits for is that of an earlier call, or was already settled. */
  datatype Ticket = Ticket(key: string, predecessor: Option<nat>, phase: Phase, settled: bool)

  /** All calls in order of arrival, the tail of each key, and the calls that ran in order of their start. */
  datatype Locks = Locks(tickets: seq<Ticket>, tails: map<string, nat>, started: seq<nat>)

  const NO_LOCKS := Locks([], map[], [])

  /** A call arrives, is aborted, starts, ends (or fails), its tail settles, its settled tail is cleaned up. */
  datatype Action = Arrive(key: string) | Abort(i: nat) | Start(i: nat) | End(i: nat) | Settle(i: nat) | CleanUp(i: nat)

  predicate HasReleased(t: Ticket) {
    t.phase == Finished || t.phase == GivenUp
  }

  /** The tail that a call waits for has settled. */
  predicate IsClear(tickets: seq<Ticket>, i: nat)
    requires i < |tickets|
  {
    tickets[i].predecessor.None?
    || (tickets[i].predecessor.value < |tickets| && tickets[tickets[i].predecessor.value].settled)
  }

  predicate CanStart(l: Locks, i: nat) {
    i < |l.tickets| && l.tickets[i].phase == Waiting && IsClear(l.tickets, i)
  }

  predicate CanSettle(l: Locks, i: nat) {
    i < |l.tickets| && !l.tickets[i].settled && HasReleased(l.tickets[i]) && IsClear(l.tickets, i)
  }

  predicate CanCleanUp(l: Locks, i: nat) {
    i < |l.tickets| && l.tickets[i].settled && l.tickets[i].key in l.tails && l.tails[l.tickets[i].key] == i
  }

  function SetPhase(l: Locks, i: nat, phase: Phase): Locks
    requires i < |l.tickets|
  {
    l.(tickets := l.tickets[i := l.tickets[i].(phase := phase)])
  }

  /** One step; a step that is not possible changes nothing. */
  function Apply(l: Locks, a: Action): Locks {
    match a
    case Arrive(key) =>
      var predecessor := if key in l.tails then Some(l.tails[key]) else None;
      l.(tickets := l.tickets + [Ticket(key, predecessor, Waiting, false)], tails := l.tails[key := |l.tickets|])
    case Abort(i) => if i < |l.tickets| && l.tickets[i].phase == Waiting then SetPhase(l, i, GivenUp) else l
    case Start(i) => if CanStart(l, i) then SetPhase(l, i, Running).(started := l.started + [i]) else l
    case End(i) => if i < |l.tickets| && l.tickets[i].phase == Running then SetPhase(l, i, Finished) else l
    case Settle(i) => if CanSettle(l, i) then l.(tickets := l.tickets[i := l.tickets[i].(settled := true)]) else l
    case CleanUp(i) => if CanCleanUp(l, i) then l.(tails := l.tails - {l.tickets[i].key}) else l
  }

  function Run(actions: seq<Action>): Locks {
    if actions == [] then NO_LOCKS else Apply(Run(actions[..|actions| - 1]), actions[|actions| - 1])
  }

  // ---------- what every run keeps ----------

  /**
   The tail that a call found was that of the last call before it; if there was none, all earlier ones
   had settled.
   */
  ghost predicate Linked(tickets: seq<Ticket>, j: nat)
    requires j < |tickets|
  {
    match tickets[j].predecessor
    case Some(p) =>
      && p < j && tickets[p].key == tickets[j].key
      && forall i :: p < i < j ==> tickets[i].key != tickets[j].key
    case None => AllSettledBefore(tickets, tickets[j].key, j)
  }

  ghost predicate AllSettledBefore(tickets: seq<Ticket>, key: string, n: nat)
    requires n <= |tickets|
  {
    forall i :: 0 <= i < n && tickets[i].key == key ==> tickets[i].settled
  }

  /** A settled tail means that the call released, and that all earlier tails of the key settled. */
  ghost predicate SettledRight(tickets: seq<Ticket>, i: nat)
    requires i < |tickets|
  {
    tickets[i].settled ==> HasReleased(tickets[i]) && AllSettledBefore(tickets, tickets[i].key, i)
  }

  /** A call that runs or has run found all earlier tails of its key settled. */
  ghost predicate RunsRight(l: Locks, i: nat)
    requires i < |l.tickets|
  {
    && (l.tickets[i].phase == Running || i in l.started ==> AllSettledBefore(l.tickets, l.tickets[i].key, i))
    && (l.tickets[i].phase == Running ==> i in l.started) && (i in l.started ==> l.tickets[i].phase != Waiting)
  }

  ghost predicate TailsRight(l: Locks) {
    && (forall key :: key in l.tails ==>
          && l.tails[key] < |l.tickets| && l.tickets[l.tails[key]].key == key
          && forall i :: l.tails[key] < i < |l.tickets| ==> l.tickets[i].key != key)
    && (forall i :: 0 <= i < |l.tickets| && l.tickets[i].key !in l.tails ==> l.tickets[i].settled)
  }

  ghost predicate StartsInOrder(l: Locks) {
    && (forall a :: 0 <= a < |l.started| ==> l.started[a] < |l.tickets|)
    && forall a, b :: 0 <= a < b < |l.started| && l.tickets[l.started[a]].key == l.tickets[l.started[b]].key ==>
         l.started[a] < l.started[b]
  }

  ghost predicate Inv(l: Locks) {
    && (forall i :: 0 <= i < |l.tickets| ==> Linked(l.tickets, i) && SettledRight(l.tickets, i) && RunsRight(l, i))
    && TailsRight(l) && StartsInOrder(l)
  }

  /** A clear call has only settled tails of its key before it. */
  lemma ClearMeansSettled(l: Locks, j: nat)
    requires Inv(l) && j < |l.tickets| && IsClear(l.tickets, j)
    ensures AllSettledBefore(l.tickets, l.tickets[j].key, j)
  {
    var t := l.tickets[j];
    assert Linked(l.tickets, j);
    if t.predecessor.Some? {
      assert SettledRight(l.tickets, t.predecessor.value);
    }
  }

  /** Changing one record without unsettling it keeps the links. */
  lemma KeepsLinks(l: Locks, l': Locks, i: nat)
    requires Inv(l) && i < |l.tickets| && |l'.tickets| == |l.tickets|
    requires forall j :: 0 <= j < |l.tickets| && j != i ==> l'.tickets[j] == l.tickets[j]
    requires l'.tickets[i].key == l.tickets[i].key && l'.tickets[i].predecessor == l.tickets[i].predecessor
    requires l.tickets[i].settled ==> l'.tickets[i].settled
    ensures forall j :: 0 <= j < |l.tickets| ==> Linked(l'.tickets, j)
    ensures forall key, n :: 0 <= n <= |l.tickets| && AllSettledBefore(l.tickets, key, n) ==>
      AllSettledBefore(l'.tickets, key, n)
  {
    forall key, n | 0 <= n <= |l.tickets| && AllSettledBefore(l.tickets, key, n)
      ensures AllSettledBefore(l'.tickets, key, n)
    {
    }
    forall j | 0 <= j < |l.tickets| ensures Linked(l'.tickets, j) {
      assert Linked(l.tickets, j);
    }
  }

  lemma ArriveKeeps(l: Locks, key: string)
    requires Inv(l)
    ensures Inv(Apply(l, Arrive(key)))
  {
    var l' := Apply(l, Arrive(key));
    var n := |l.tickets|;
    assert forall j :: 0 <= j < n ==> l'.tickets[j] == l.tickets[j];
    forall j | 0 <= j < |l'.tickets| ensures Linked(l'.tickets, j) && SettledRight(l'.tickets, j) && RunsRight(l', j) {
      if j < n {
        assert Linked(l.tickets, j) && SettledRight(l.tickets, j) && RunsRight(l, j);
      }
    }
  }

  lemma PhaseKeeps(l: Locks, i: nat, phase: Phase)
    requires Inv(l) && i < |l.tickets|
    requires (l.tickets[i].phase == Waiting && phase == GivenUp) || (l.tickets[i].phase == Running && phase == Finished)
    ensures Inv(SetPhase(l, i, phase))
  {
    var l' := SetPhase(l, i, phase);
    KeepsLinks(l, l', i);
    forall j | 0 <= j < |l'.tickets| ensures SettledRight(l'.tickets, j) && RunsRight(l', j) {
      assert SettledRight(l.tickets, j) && RunsRight(l, j);
    }
  }

  lemma StartKeeps(l: Locks, i: nat)
    requires Inv(l) && CanStart(l, i)
    ensures Inv(Apply(l, Start(i)))
  {
    var l' := Apply(l, Start(i));
    ClearMeansSettled(l, i);
    KeepsLinks(l, l', i);
    assert RunsRight(l, i) && SettledRight(l.tickets, i);
    forall j | 0 <= j < |l'.tickets| ensures SettledRight(l'.tickets, j) && RunsRight(l', j) {
      assert SettledRight(l.tickets, j) && RunsRight(l, j);
    }
    forall a | 0 <= a < |l.started| && l.tickets[l.started[a]].key == l.tickets[i].key ensures l.started[a] < i {
      var j := l.started[a];
      assert j in l.started && RunsRight(l, j);
    }
  }

  lemma SettleKeeps(l: Locks, i: nat)
    requires Inv(l) && CanSettle(l, i)
    ensures Inv(Apply(l, Settle(i)))
  {
    var l' := Apply(l, Settle(i));
    ClearMeansSettled(l, i);
    KeepsLinks(l, l', i);
    forall j | 0 <= j < |l'.tickets| ensures SettledRight(l'.tickets, j) && RunsRight(l', j) {
      assert SettledRight(l.tickets, j) && RunsRight(l, j);
    }
  }

  lemma CleanUpKeeps(l: Locks, i: nat)
    requires Inv(l) && CanCleanUp(l, i)
    ensures Inv(Apply(l, CleanUp(i)))
  {
    var l' := Apply(l, CleanUp(i));
    forall j | 0 <= j < |l'.tickets| ensures Linked(l'.tickets, j) && SettledRight(l'.tickets, j) && RunsRight(l', j) {
      assert Linked(l.tickets, j) && SettledRight(l.tickets, j) && RunsRight(l, j);
    }
    assert SettledRight(l.tickets, i);
    forall j | 0 <= j < |l'.tickets| && l'.tickets[j].key !in l'.tails ensures l'.tickets[j].settled {
      if l.tickets[j].key == l.tickets[i].key && j != i { assert j < i; }
    }
  }

  lemma {:induction false} RunsKeep(actions: seq<Action>)
    ensures Inv(Run(actions))
  {
    if actions != [] {
      var l, a := Run(actions[..|actions| - 1]), actions[|actions| - 1];
      RunsKeep(actions[..|actions| - 1]);
      hide Inv, Run;
      match a
      case Arrive(key) => ArriveKeeps(l, key);
      case Abort(i) => if i < |l.tickets| && l.tickets[i].phase == Waiting { PhaseKeeps(l, i, GivenUp); }
      case Start(i) => if CanStart(l, i) { StartKeeps(l, i); }
      case End(i) => if i < |l.tickets| && l.tickets[i].phase == Running { PhaseKeeps(l, i, Finished); }
      case Settle(i) => if CanSettle(l, i) { SettleKeeps(l, i); }
      case CleanUp(i) => if CanCleanUp(l, i) { CleanUpKeeps(l, i); }
    }
  }

  /**
   Mutual exclusion, for any arrivals, aborts, failures and reactions: two calls of one key never run at
   the same time, and while one runs no other call of the key can start, whether the calls between
   them gave up or the tail of the key was cleaned up.
   */
  lemma MutualExclusion(actions: seq<Action>, i: nat, j: nat)
    requires i < |Run(actions).tickets| && j < |Run(actions).tickets| && i != j
    requires Run(actions).tickets[i].key == Run(actions).tickets[j].key && Run(actions).tickets[i].phase == Running
    ensures Run(actions).tickets[j].phase != Running && !CanStart(Run(actions), j)
  {
    hide Run;
    var l := Run(actions);
    RunsKeep(actions);
    assert RunsRight(l, i) && RunsRight(l, j) && SettledRight(l.tickets, i) && SettledRight(l.tickets, j);
    if CanStart(l, j) { ClearMeansSettled(l, j); }
  }

  /** Calls of one key start in the order in which they were made. */
  lemma FirstComeFirstServed(actions: seq<Action>, a: nat, b: nat)
    requires a < b < |Run(actions).started|
    ensures Run(actions).started[a] < |Run(actions).tickets| && Run(actions).started[b] < |Run(actions).tickets|
    ensures Run(actions).tickets[Run(actions).started[a]].key == Run(actions).tickets[Run(actions).started[b]].key ==>
      Run(actions).started[a] < Run(actions).started[b]
  {
    hide Run;
    RunsKeep(actions);
  }

  /** The first call of a key whose tail has not settled. */
  lemma {:induction false} FirstUnsettled(tickets: seq<Ticket>, key: string, j: nat) returns (i: nat)
    requires j < |tickets| && tickets[j].key == key && !tickets[j].settled
    ensures i <= j && tickets[i].key == key && !tickets[i].settled && AllSettledBefore(tickets, key, i)
  {
    if AllSettledBefore(tickets, key, j) {
      i := j;
    } else {
      var k :| 0 <= k < j && tickets[k].key == key && !tickets[k].settled;
      i := FirstUnsettled(tickets, key, k);
    }
  }

  /** No deadlock: a waiting call whose key nobody holds is preceded by a step that is possible. */
  lemma NoDeadlock(actions: seq<Action>, j: nat) returns (i: nat)
    requires j < |Run(actions).tickets| && Run(actions).tickets[j].phase == Waiting
    requires forall k ::
      0 <= k < |Run(actions).tickets| && Run(actions).tickets[k].key == Run(actions).tickets[j].key ==>
        Run(actions).tickets[k].phase != Running
    ensures i <= j && i < |Run(actions).tickets| && Run(actions).tickets[i].key == Run(actions).tickets[j].key
    ensures CanStart(Run(actions), i) || CanSettle(Run(actions), i)
  {
    hide Run;
    var l := Run(actions);
    RunsKeep(actions);
    assert SettledRight(l.tickets, j);
    i := FirstUnsettled(l.tickets, l.tickets[j].key, j);
    assert Linked(l.tickets, i);
  }

  // ---------- what the steps do ----------

  /**
   A call goes from waiting to running to finished, or from waiting to given up, by its own steps and by
   no others; an abort of a waiting call and the end of a running one always take effect.
   */
  lemma PhasesMove(l: Locks, a: Action, i: nat)
    requires i < |l.tickets|
    ensures |Apply(l, a).tickets| >= |l.tickets|
    ensures
      var before, after := l.tickets[i].phase, Apply(l, a).tickets[i].phase;
      || before == after
      || (before == Waiting && after == Running && a == Start(i))
      || (before == Waiting && after == GivenUp && a == Abort(i))
      || (before == Running && after == Finished && a == End(i))
    ensures a == Abort(i) ==> Apply(l, a).tickets[i].phase != Waiting
    ensures a == End(i) ==> Apply(l, a).tickets[i].phase != Running
  {
  }

  /** The calls that have started are those that run or have finished; a call that gave up never ran. */
  lemma {:induction false} StartedIff(actions: seq<Action>, i: nat)
    requires i < |Run(actions).tickets|
    ensures i in Run(actions).started <==>
      Run(actions).tickets[i].phase == Running || Run(actions).tickets[i].phase == Finished
  {
    if actions != [] {
      var l, a := Run(actions[..|actions| - 1]), actions[|actions| - 1];
      RunsKeep(actions[..|actions| - 1]);
      if i < |l.tickets| { StartedIff(actions[..|actions| - 1], i); }
      assert StartsInOrder(l);
      hide Inv, Run;
      StartedStep(l, a, i);
    }
  }

  predicate HasRun(l: Locks, i: nat)
    requires i < |l.tickets|
  {
    l.tickets[i].phase == Running || l.tickets[i].phase == Finished
  }

  lemma StartedStep(l: Locks, a: Action, i: nat)
    requires i < |Apply(l, a).tickets| && StartsInOrder(l)
    requires i < |l.tickets| ==> (i in l.started <==> HasRun(l, i))
    ensures i in Apply(l, a).started <==> HasRun(Apply(l, a), i)
  {
    hide IsClear;
    if a.Arrive? && i == |l.tickets| {
      assert forall k :: k in l.started ==> k < i;
    }
  }

  /** A step of the calls of a key up to a place. */
  predicate Serves(l: Locks, a: Action, key: string, j: nat) {
    match a
    case Start(i) => i <= j && i < |l.tickets| && l.tickets[i].key == key
    case End(i) => i < j && i < |l.tickets| && l.tickets[i].key == key
    case Settle(i) => i < j && i < |l.tickets| && l.tickets[i].key == key
    case _ => false
  }

  function RunFrom(l: Locks, actions: seq<Action>): Locks {
    if actions == [] then l else Apply(RunFrom(l, actions[..|actions| - 1]), actions[|actions| - 1])
  }

  lemma RunsOn(l: Locks, actions: seq<Action>, a: Action)
    ensures RunFrom(l, actions + [a]) == Apply(RunFrom(l, actions), a)
  {
    assert (actions + [a])[..|actions|] == actions;
  }

  lemma {:induction false} RunsAfter(actions: seq<Action>, more: seq<Action>)
    ensures Run(actions + more) == RunFrom(Run(actions), more)
  {
    if more == [] {
      assert actions + more == actions;
    } else {
      assert (actions + more)[..|actions + more| - 1] == actions + more[..|more| - 1];
      RunsAfter(actions, more[..|more| - 1]);
    }
  }

  /** Steps of earlier calls only: the calls after `i` stay as they are, and nobody arrives. */
  ghost predicate Served(l: Locks, l': Locks, i: nat) {
    && |l'.tickets| == |l.tickets|
    && (forall k :: 0 <= k < |l.tickets| ==>
          && l'.tickets[k].key == l.tickets[k].key && l'.tickets[k].predecessor == l.tickets[k].predecessor
          && (l.tickets[k].settled ==> l'.tickets[k].settled))
    && forall k :: i < k < |l.tickets| ==> l'.tickets[k] == l.tickets[k]
  }

  /** The tail of a call can be brought to settle by steps of its key up to this call. */
  lemma {:induction false} CanBeSettled(l: Locks, i: nat, j: nat) returns (steps: seq<Action>)
    requires i < j && i < |l.tickets| && forall k :: 0 <= k < |l.tickets| ==> Linked(l.tickets, k)
    ensures Served(l, RunFrom(l, steps), i) && RunFrom(l, steps).tickets[i].settled
    ensures forall a :: a in steps ==> Serves(l, a, l.tickets[i].key, j)
  {
    hide RunFrom, Serves;
    steps := [];
    RunNothing(l);
    if !l.tickets[i].settled {
      assert Linked(l.tickets, i);
      if l.tickets[i].predecessor.Some? { steps := CanBeSettled(l, l.tickets[i].predecessor.value, j); }
      var before := RunFrom(l, steps);
      if before.tickets[i].phase == Waiting {
        OwnStep(l, before, Start(i), i, j);
        RunsOn(l, steps, Start(i));
        steps := steps + [Start(i)];
      }
      var started := RunFrom(l, steps);
      if started.tickets[i].phase == Running {
        OwnStep(l, started, End(i), i, j);
        RunsOn(l, steps, End(i));
        steps := steps + [End(i)];
      }
      OwnStep(l, RunFrom(l, steps), Settle(i), i, j);
      RunsOn(l, steps, Settle(i));
      steps := steps + [Settle(i)];
    }
  }

  /** A step of call `i`, whose predecessor has settled. */
  lemma OwnStep(l: Locks, now: Locks, a: Action, i: nat, j: nat)
    requires i < j && i < |l.tickets| && Linked(l.tickets, i) && Served(l, now, i) && IsClear(now.tickets, i)
    requires a == Start(i) || a == End(i) || a == Settle(i)
    ensures Served(l, Apply(now, a), i) && Serves(l, a, l.tickets[i].key, j) && IsClear(Apply(now, a).tickets, i)
    ensures a == Start(i) && now.tickets[i].phase == Waiting ==> Apply(now, a).tickets[i].phase == Running
    ensures a == End(i) && now.tickets[i].phase == Running ==> Apply(now, a).tickets[i].phase == Finished
    ensures a == Settle(i) && HasReleased(now.tickets[i]) ==> Apply(now, a).tickets[i].settled
  {
  }

  /**
   Every waiting call can be served, after every run: when the calls before it end, it starts. Nobody
   needs to arrive, to give up or to clean up for it.
   */
  lemma CanBeServed(actions: seq<Action>, j: nat) returns (more: seq<Action>)
    requires j < |Run(actions).tickets| && Run(actions).tickets[j].phase == Waiting
    ensures j < |Run(actions + more).tickets| && Run(actions + more).tickets[j].phase == Running
    ensures forall a :: a in more ==> Serves(Run(actions), a, Run(actions).tickets[j].key, j)
  {
    hide Run, RunFrom;
    var l := Run(actions);
    RunsKeep(actions);
    assert Linked(l.tickets, j);
    more := [];
    RunNothing(l);
    if l.tickets[j].predecessor.Some? {
      more := CanBeSettled(l, l.tickets[j].predecessor.value, j);
    }
    RunsOn(l, more, Start(j));
    more := more + [Start(j)];
    RunsAfter(actions, more);
  }

  lemma RunNothing(l: Locks)
    ensures RunFrom(l, []) == l
  {
  }
}
