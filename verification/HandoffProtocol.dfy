/**
 The ownership protocol: processes read the chain, write a candidate, link it to the next revision
 number, and read the chain again. Every interleaving of their steps and crashes is a run.
 */
module HandoffProtocol {
  import opened Wrappers
  import opened HandoffRecords

  type Pid = nat

  /** A call of the store: creating the first revision, or swapping in the next one. */
  datatype Call =
    | Create(handoff: Handoff, launch: Launch, id: TransitionId)
    | Swap(expectedOwner: Owner, expectedState: State, next: Handoff, id: TransitionId)

  datatype Error = Conflict | Reconcile | Invalid | IoError

  /** Where a process stands in its call. */
  datatype Local =
    | Idle
    | Reading(call: Call)
    | Checked(call: Call, authority: Revision)
    | Opening(call: Call, revision: Revision)
    | Writing(call: Call, revision: Revision)
    | Linking(call: Call, revision: Revision)
    | Verifying(call: Call, revision: Revision)
    | Returned(call: Call, revision: Revision)
    | Failed(call: Call, error: Error)

  /**
   The operation directory: published revisions, complete candidates, and candidates that a process
   has opened but not finished, or never will.
   */
  datatype World = World(
    published: map<nat, Revision>,
    candidates: set<Revision>,
    torn: set<Revision>,
    procs: map<Pid, Local>)

  const START := World(map[], {}, {}, map[])

  /** A process begins a call, makes its next step, fails an I/O call, or crashes. */
  datatype Action = Begin(pid: Pid, call: Call) | Advance(pid: Pid) | FailIo(pid: Pid) | Crash(pid: Pid)

  function At(w: World, pid: Pid): Local {
    if pid in w.procs then w.procs[pid] else Idle
  }

  function Put(w: World, pid: Pid, l: Local): World {
    w.(procs := w.procs[pid := l])
  }

  // ---------- the steps of a process ----------

  function NextOf(call: Call): Handoff {
    match call case Create(h, _, _) => h case Swap(_, _, h, _) => h
  }

  /** What creating the first revision finds out from reading the chain. */
  function AfterReadingCreate(call: Call, read: Option<Option<Revision>>): Local
    requires call.Create?
  {
    if read.None? then Failed(call, Reconcile)
    else
      var revision := CreateRevision(call.handoff, Some(call.launch), call.launch, None, 0, call.id);
      if revision.None? then Failed(call, Invalid)
      else if read.value == None then Opening(call, revision.value)
      else if read.value == revision then Returned(call, revision.value)
      else Failed(call, Conflict)
  }

  /** What a swap finds out from reading the chain. */
  function AfterReadingSwap(call: Call, read: Option<Option<Revision>>): Local
    requires call.Swap?
  {
    if read.None? then Failed(call, Reconcile)
    else if read.value == None then Failed(call, Conflict)
    else
      var authority := read.value.value;
      if authority.transitionId == call.id && authority.handoff == call.next then Returned(call, authority)
      else if || authority.handoff.owner != call.expectedOwner || authority.handoff.state != call.expectedState
              || authority.handoff.identity != call.next.identity
      then Failed(call, Conflict)
      else Checked(call, authority)
  }

  /** Builds the next revision from the authority and the launch hash of the first revision. */
  function AfterGenesis(call: Call, authority: Revision, published: map<nat, Revision>): Local
    requires call.Swap?
  {
    if 0 !in published || published[0].number != 0 || published[0].launch == None then Failed(call, Reconcile)
    else
      var revision := CreateRevision(call.next, None, published[0].launchHash, Some(authority), authority.number + 1,
        call.id);
      if revision.None? then Failed(call, Invalid) else Opening(call, revision.value)
  }

  function Step(w: World, pid: Pid): World {
    match At(w, pid)
    case Reading(call) =>
      var read := ReadAuthority(w.published);
      Put(w, pid, if call.Create? then AfterReadingCreate(call, read) else AfterReadingSwap(call, read))
    case Checked(call, authority) => if call.Swap? then Put(w, pid, AfterGenesis(call, authority, w.published)) else w
    case Opening(call, revision) =>
      if revision in w.candidates then Put(w, pid, Linking(call, revision))
      else if revision in w.torn then Put(w, pid, Failed(call, Reconcile))
      else Put(w.(torn := w.torn + {revision}), pid, Writing(call, revision))
    case Writing(call, revision) =>
      Put(w.(torn := w.torn - {revision}, candidates := w.candidates + {revision}), pid, Linking(call, revision))
    case Linking(call, revision) =>
      if revision.number !in w.published then
        Put(w.(published := w.published[revision.number := revision]), pid, Verifying(call, revision))
      else if w.published[revision.number] == revision then Put(w, pid, Verifying(call, revision))
      else Put(w, pid, Failed(call, Conflict))
    case Verifying(call, revision) =>
      Put(w, pid, if ReadAuthority(w.published) == Some(Some(revision)) then Returned(call, revision)
        else Failed(call, Reconcile))
    case _ => w
  }

  predicate IsRunning(l: Local) {
    !l.Idle? && !l.Returned? && !l.Failed?
  }

  function Apply(w: World, a: Action): World {
    match a
    case Begin(pid, call) => if IsRunning(At(w, pid)) then w else Put(w, pid, Reading(call))
    case Advance(pid) => Step(w, pid)
    case FailIo(pid) => if IsRunning(At(w, pid)) then Put(w, pid, Failed(At(w, pid).call, IoError)) else w
    case Crash(pid) => Put(w, pid, Idle)
  }

  /** The directory and the processes after a run. */
  function Run(actions: seq<Action>): World {
    if actions == [] then START else Apply(Run(actions[..|actions| - 1]), actions[|actions| - 1])
  }

  // ---------- what every run keeps ----------

  /** A revision fits on top of a chain, right now or at some earlier time. */
  ghost predicate Fits(published: map<nat, Revision>, r: Revision) {
    && WellFormedRevision(r)
    && (r.number > 0 ==> r.number - 1 in published && Follows(published[r.number - 1], r))
  }

  /** A revision is what a call wants: for a swap, its predecessor has the expected owner and state. */
  predicate Wants(call: Call, r: Revision) {
    && r.transitionId == call.id && r.handoff == NextOf(call)
    && match call
       case Create(_, launch, _) => r.number == 0 && r.launch == Some(launch)
       case Swap(owner, state, next, _) =>
         && r.number > 0 && r.previous.Some?
         && r.previous.value.handoff.owner == owner && r.previous.value.handoff.state == state
         && r.previous.value.handoff.identity == next.identity
  }

  ghost predicate LocalFits(w: World, l: Local) {
    match l
    case Checked(call, authority) =>
      && call.Swap? && authority.number in w.published && w.published[authority.number] == authority
      && authority.handoff.owner == call.expectedOwner && authority.handoff.state == call.expectedState
      && authority.handoff.identity == call.next.identity
    case Opening(call, revision) => Wants(call, revision) && Fits(w.published, revision)
    case Writing(call, revision) => Wants(call, revision) && Fits(w.published, revision)
    case Linking(call, revision) => Wants(call, revision) && Fits(w.published, revision)
    case Verifying(call, revision) =>
      Wants(call, revision) && revision.number in w.published && w.published[revision.number] == revision
    case _ => true
  }

  ghost predicate SameLaunch(published: map<nat, Revision>) {
    forall k :: k in published ==> 0 in published && published[k].launchHash == published[0].launchHash
  }

  ghost predicate Safe(w: World) {
    && IsChain(w.published) && SameLaunch(w.published)
    && (forall pid :: pid in w.procs ==> LocalFits(w, w.procs[pid]))
  }

  /** Published revisions never change or disappear. */
  ghost predicate Extends(older: map<nat, Revision>, newer: map<nat, Revision>) {
    forall k :: k in older ==> k in newer && newer[k] == older[k]
  }

  /** What a process does to the others: nothing but extending the chain. */
  lemma OthersFit(w: World, w': World, pid: Pid)
    requires Safe(w) && Extends(w.published, w'.published)
    requires exists l :: w'.procs == w.procs[pid := l] && LocalFits(w', l)
    ensures forall other :: other in w'.procs ==> LocalFits(w', w'.procs[other])
  {
    forall other | other in w'.procs ensures LocalFits(w', w'.procs[other]) {
      if other != pid { LocalFitsLater(w, w', w.procs[other]); }
    }
  }

  lemma LocalFitsLater(w: World, w': World, l: Local)
    requires LocalFits(w, l) && Extends(w.published, w'.published)
    ensures LocalFits(w', l)
  {
  }

  lemma LinkKeepsChain(published: map<nat, Revision>, r: Revision)
    requires IsChain(published) && SameLaunch(published) && Fits(published, r) && r.number !in published
    ensures IsChain(published[r.number := r]) && SameLaunch(published[r.number := r])
    ensures r.number == |published|
  {
    hide Follows, WellFormedRevision;
    ChainLength(published);
    var after := published[r.number := r];
    if r.number > 0 { FollowsKeepsLaunch(published[r.number - 1], r); }
    forall k | k in after
      ensures after[k].number == k && WellFormedRevision(after[k])
      ensures k > 0 ==> k - 1 in after && Follows(after[k - 1], after[k])
    {
      if k in published {
        assert published[k].number == k;
      }
    }
  }

  lemma FollowsKeepsLaunch(prev: Revision, next: Revision)
    requires Follows(prev, next)
    ensures next.launchHash == prev.launchHash && next.handoff.identity == prev.handoff.identity
      && next.number == prev.number + 1
  {
  }

  lemma ReadGivesHead(published: map<nat, Revision>)
    requires IsChain(published)
    ensures
      var read := ReadAuthority(published);
      read.Some? && read.value.Some? ==>
        var r := read.value.value;
        r.number == |published| - 1 && r.number in published && published[r.number] == r
  {
    ChainLength(published);
  }

  /** The state that a step leaves the process in fits. */
  lemma StepFits(w: World, pid: Pid)
    requires Safe(w)
    ensures
      var w' := Step(w, pid);
      Extends(w.published, w'.published) && LocalFits(w', At(w', pid))
  {
    hide IsChain, SameLaunch, ReadAuthority, AfterReadingCreate, AfterReadingSwap, AfterGenesis, Wants, Fits;
    var l := At(w, pid);
    match l
    case Reading(call) => if call.Create? { CreateFits(w, call); } else { SwapFits(w, call); }
    case Checked(call, authority) => AfterGenesisFits(w, call, authority);
    case _ =>
  }

  lemma CreateFits(w: World, call: Call)
    requires call.Create?
    ensures
      var l := AfterReadingCreate(call, ReadAuthority(w.published));
      LocalFits(w, l)
  {
  }

  lemma SwapFits(w: World, call: Call)
    requires IsChain(w.published) && call.Swap?
    ensures
      var l := AfterReadingSwap(call, ReadAuthority(w.published));
      LocalFits(w, l)
  {
    hide IsChain, ReadAuthority;
    ReadGivesHead(w.published);
  }

  lemma AfterGenesisFits(w: World, call: Call, authority: Revision)
    requires IsChain(w.published) && SameLaunch(w.published) && LocalFits(w, Checked(call, authority))
    ensures call.Swap? && LocalFits(w, AfterGenesis(call, authority, w.published))
  {
  }

  lemma StepSafe(w: World, pid: Pid)
    requires Safe(w)
    ensures Safe(Step(w, pid)) && Extends(w.published, Step(w, pid).published)
  {
    hide IsChain, ReadAuthority, AfterReadingCreate, AfterReadingSwap, AfterGenesis, Wants;
    StepFits(w, pid);
    var w', l := Step(w, pid), At(w, pid);
    if l.Linking? && l.revision.number !in w.published {
      LinkKeepsChain(w.published, l.revision);
    }
    if w' != w {
      assert w'.procs == w.procs[pid := At(w', pid)];
      OthersFit(w, w', pid);
    }
  }

  lemma ApplySafe(w: World, a: Action)
    requires Safe(w)
    ensures Safe(Apply(w, a)) && Extends(w.published, Apply(w, a).published)
  {
    hide IsChain, Wants, Step;
    var w' := Apply(w, a);
    match a
    case Advance(pid) => StepSafe(w, pid);
    case Begin(pid, call) => if w' != w { OtherKeeps(w, pid, Reading(call)); }
    case FailIo(pid) => if w' != w { OtherKeeps(w, pid, At(w', pid)); }
    case Crash(pid) => OtherKeeps(w, pid, Idle);
  }

  lemma OtherKeeps(w: World, pid: Pid, l: Local)
    requires Safe(w) && LocalFits(w, l)
    ensures Safe(Put(w, pid, l))
  {
    hide IsChain;
    LocalFitsLater(w, Put(w, pid, l), l);
    assert Put(w, pid, l).procs == w.procs[pid := l];
    OthersFit(w, Put(w, pid, l), pid);
  }

  /**
   Chain safety: after every run, however the steps interleave and wherever processes crash, the
   published revisions are numbered from zero without a gap, linked by hash, and agree on identity and
   launch.
   */
  lemma {:induction false} RunsAreSafe(actions: seq<Action>)
    ensures Safe(Run(actions))
  {
    if actions != [] {
      RunsAreSafe(actions[..|actions| - 1]);
      ApplySafe(Run(actions[..|actions| - 1]), actions[|actions| - 1]);
    }
  }

  /** Immutability: whatever happens later only extends the published revisions. */
  lemma {:induction false} RunsExtend(earlier: seq<Action>, later: seq<Action>)
    ensures Extends(Run(earlier).published, Run(earlier + later).published)
  {
    hide Apply, Safe;
    if later == [] {
      assert earlier + later == earlier;
    } else {
      var all := earlier + later;
      assert all[..|all| - 1] == earlier + later[..|later| - 1];
      RunsExtend(earlier, later[..|later| - 1]);
      RunsAreSafe(all[..|all| - 1]);
      ApplySafe(Run(all[..|all| - 1]), all[|all| - 1]);
    }
  }

  /** The reader finds a chain in every run; only a repeated transition identity can make it refuse. */
  lemma ReaderRefusesOnlyRepeats(actions: seq<Action>)
    ensures
      var p := Run(actions).published;
      var read := ReadAuthority(p);
      && (read == None <==> !DistinctIds(p))
      && (read.Some? && read.value == None ==> p == map[])
      && (read.Some? && read.value.Some? ==> |p| - 1 in p && read.value.value == p[|p| - 1])
  {
    hide IsChain, DistinctIds, Run;
    RunsAreSafe(actions);
    ChainLength(Run(actions).published);
  }

  /** A later reading extends an earlier one: the earlier head is still at its place. */
  lemma LaterReadExtends(earlier: seq<Action>, later: seq<Action>)
    ensures
      var first, second := ReadAuthority(Run(earlier).published), ReadAuthority(Run(earlier + later).published);
      first.Some? && first.value.Some? && second.Some? ==>
        && second.value.Some? && first.value.value.number <= second.value.value.number
        && first.value.value.number in Run(earlier + later).published
        && Run(earlier + later).published[first.value.value.number] == first.value.value
  {
    hide IsChain, DistinctIds, Run;
    RunsExtend(earlier, later);
    RunsAreSafe(earlier);
    RunsAreSafe(earlier + later);
    ReadGivesHead(Run(earlier).published);
    ReadGivesHead(Run(earlier + later).published);
    ChainLength(Run(earlier + later).published);
  }

  /**
   The link is the compare-and-swap: the only step that changes the chain adds one revision on top of
   the head that the call had checked, with the expected owner and state, and it carries what the call
   asked for.
   */
  lemma LinkIsCompareAndSwap(actions: seq<Action>, a: Action)
    ensures
      var w, w' := Run(actions), Apply(Run(actions), a);
      w'.published != w.published ==>
        && a.Advance? && At(w, a.pid).Linking? && At(w', a.pid) == Verifying(At(w, a.pid).call, At(w, a.pid).revision)
        && var call, r := At(w, a.pid).call, At(w, a.pid).revision;
           && w'.published == w.published[|w.published| := r] && r.number == |w.published|
           && r.handoff == NextOf(call) && r.transitionId == call.id
           && (call.Create? <==> w.published == map[])
           && (call.Swap? ==>
                && |w.published| - 1 in w.published
                && var head := w.published[|w.published| - 1];
                   && r.previous == Some(head) && head.handoff.identity == call.next.identity
                   && head.handoff.owner == call.expectedOwner && head.handoff.state == call.expectedState)
  {
    hide IsChain, DistinctIds, Run, ReadAuthority;
    RunsAreSafe(actions);
    var w := Run(actions);
    if Apply(w, a).published != w.published {
      LinkKeepsChain(w.published, At(w, a.pid).revision);
      ChainLength(w.published);
    }
  }

  /** A call that returns normally had exactly its revision at the head of the chain. */
  lemma ReturnedWasHead(actions: seq<Action>, a: Action)
    ensures
      var w, w' := Run(actions), Apply(Run(actions), a);
      forall pid :: At(w', pid).Returned? && At(w, pid) != At(w', pid) ==>
        var r, call := At(w', pid).revision, At(w', pid).call;
        && a == Advance(pid) && ReadAuthority(w.published) == Some(Some(r))
        && |w.published| - 1 in w.published && w.published[|w.published| - 1] == r
        && r.handoff == NextOf(call) && r.transitionId == call.id
  {
    hide IsChain, DistinctIds, Run;
    RunsAreSafe(actions);
    ReadGivesHead(Run(actions).published);
  }

  // ---------- candidates ----------

  /** Every published revision has its finished candidate, and so has every one about to be linked. */
  ghost predicate HaveCandidates(w: World) {
    && (forall k :: k in w.published ==> w.published[k] in w.candidates)
    && forall pid :: pid in w.procs && w.procs[pid].Linking? ==> w.procs[pid].revision in w.candidates
  }

  lemma ApplyKeepsCandidates(w: World, a: Action)
    requires HaveCandidates(w)
    ensures HaveCandidates(Apply(w, a)) && w.candidates <= Apply(w, a).candidates
  {
    hide ReadAuthority, CreateRevision;
  }

  /** In every run the reader finds the candidate of each published revision, as it demands. */
  lemma {:induction false} PublishedHaveCandidates(actions: seq<Action>)
    ensures HaveCandidates(Run(actions))
  {
    hide Apply, HaveCandidates;
    if actions == [] {
      NoCandidates();
    } else {
      PublishedHaveCandidates(actions[..|actions| - 1]);
      ApplyKeepsCandidates(Run(actions[..|actions| - 1]), actions[|actions| - 1]);
    }
  }

  lemma NoCandidates()
    ensures HaveCandidates(START)
  {
  }

  // ---------- what a call finds out ----------

  /** The head is what the call asked for: its own earlier attempt has landed. */
  predicate Landed(call: Call, head: Revision) {
    && head.transitionId == call.id
    && match call
       case Create(h, launch, _) => head.number == 0 && head.handoff == h && head.launch == Some(launch)
       case Swap(_, _, h, _) => head.handoff == h
  }

  /** The head has the owner, the state and the identity that a swap expects. */
  predicate IsExpected(call: Call, head: Revision) {
    match call
    case Create(_, _, _) => false
    case Swap(owner, state, h, _) =>
      head.handoff.owner == owner && head.handoff.state == state && head.handoff.identity == h.identity
  }

  /** Beginning a call and reading the chain. */
  function Tried(w: World, pid: Pid, call: Call): World {
    Apply(Apply(w, Begin(pid, call)), Advance(pid))
  }

  lemma TriedReads(w: World, pid: Pid, call: Call)
    requires !IsRunning(At(w, pid))
    ensures
      var w', read := Tried(w, pid, call), ReadAuthority(w.published);
      && w'.published == w.published && w'.candidates == w.candidates && w'.torn == w.torn
      && At(w', pid) == if call.Create? then AfterReadingCreate(call, read) else AfterReadingSwap(call, read)
  {
    hide ReadAuthority, AfterReadingCreate, AfterReadingSwap;
    assert At(Apply(w, Begin(pid, call)), pid) == Reading(call);
  }

  /**
   What a swap finds out by reading: it returns exactly when it has landed before, goes on exactly when
   the head is as expected, conflicts exactly when there is no head or neither holds, and asks for
   reconciliation exactly when the chain cannot be read.
   */
  lemma SwapReadingDecides(w: World, pid: Pid, call: Call)
    requires !IsRunning(At(w, pid)) && call.Swap?
    ensures
      var l, read := At(Tried(w, pid, call), pid), ReadAuthority(w.published);
      && Tried(w, pid, call).published == w.published
      && (l == Failed(call, Reconcile) <==> read == None)
      && (l.Returned? <==> read.Some? && read.value.Some? && Landed(call, read.value.value))
      && (l.Returned? ==> l == Returned(call, read.value.value))
      && (l.Checked? <==>
           && read.Some? && read.value.Some? && !Landed(call, read.value.value) && IsExpected(call, read.value.value))
      && (l.Checked? ==> l == Checked(call, read.value.value))
      && (l == Failed(call, Conflict) <==>
           && read.Some?
           && (read.value == None || (!Landed(call, read.value.value) && !IsExpected(call, read.value.value))))
  {
    hide ReadAuthority;
    TriedReads(w, pid, call);
  }

  /**
   What creating the first revision finds out by reading: it returns exactly when it has landed before,
   goes on exactly when nothing is published, and otherwise conflicts; a launch record that does not
   bind the handoff is refused.
   */
  lemma CreateReadingDecides(w: World, pid: Pid, call: Call)
    requires !IsRunning(At(w, pid)) && call.Create? && IsChain(w.published)
    ensures
      var l, read := At(Tried(w, pid, call), pid), ReadAuthority(w.published);
      var bound := call.launch == LaunchFor(call.handoff.identity, call.launch.rest);
      && Tried(w, pid, call).published == w.published
      && (l == Failed(call, Reconcile) <==> read == None)
      && (read.Some? ==>
           && (l == Failed(call, Invalid) <==> !bound)
           && (l.Opening? <==> bound && read.value == None)
           && (l.Returned? <==> read.value.Some? && Landed(call, read.value.value))
           && (l.Returned? ==> l == Returned(call, read.value.value))
           && (l == Failed(call, Conflict) <==> bound && read.value.Some? && !Landed(call, read.value.value)))
  {
    hide ReadAuthority, IsChain;
    TriedReads(w, pid, call);
    var read := ReadAuthority(w.published);
    if read.Some? && read.value.Some? {
      HeadIsWellFormed(w.published);
    }
  }

  lemma HeadIsWellFormed(published: map<nat, Revision>)
    requires IsChain(published) && ReadAuthority(published).Some? && ReadAuthority(published).value.Some?
    ensures WellFormedRevision(ReadAuthority(published).value.value)
  {
  }

  /**
   Repeating a call that has landed returns: in every run, when the head is what a call asked for, to
   begin the call and read once gives that head back and changes nothing.
   */
  lemma RepeatReturns(actions: seq<Action>, pid: Pid, call: Call)
    requires !IsRunning(At(Run(actions), pid)) && DistinctIds(Run(actions).published)
    requires
      var p := Run(actions).published;
      |p| - 1 in p && Landed(call, p[|p| - 1])
    ensures
      var p, w := Run(actions).published, Run(actions + [Begin(pid, call), Advance(pid)]);
      w.published == p && At(w, pid) == Returned(call, p[|p| - 1])
  {
    hide IsChain, DistinctIds, Run, Landed, IsExpected;
    RunTwoMore(actions, Begin(pid, call), Advance(pid));
    RunsAreSafe(actions);
    ReaderRefusesOnlyRepeats(actions);
    if call.Swap? {
      SwapReadingDecides(Run(actions), pid, call);
    } else {
      CreateReadingDecides(Run(actions), pid, call);
    }
  }

  lemma RunTwoMore(actions: seq<Action>, a: Action, b: Action)
    ensures Run(actions + [a, b]) == Apply(Apply(Run(actions), a), b)
  {
    hide Apply;
    var all := actions + [a, b];
    assert all[..|all| - 1] == actions + [a];
    assert (actions + [a])[..|actions|] == actions;
  }

  /** A process that crashes after its link and repeats its call returns its revision while that is the head. */
  lemma CrashAfterLink(actions: seq<Action>, pid: Pid)
    requires DistinctIds(Run(actions).published) && At(Run(actions), pid).Verifying?
    requires
      var p := Run(actions).published;
      |p| - 1 in p && p[|p| - 1] == At(Run(actions), pid).revision
    ensures
      var p, call, r := Run(actions).published, At(Run(actions), pid).call, At(Run(actions), pid).revision;
      var w := Run(actions + [Crash(pid)] + [Begin(pid, call), Advance(pid)]);
      w.published == p && At(w, pid) == Returned(call, r)
  {
    hide IsChain, DistinctIds;
    RunsAreSafe(actions);
    assert (actions + [Crash(pid)])[..|actions|] == actions;
    RepeatReturns(actions + [Crash(pid)], pid, At(Run(actions), pid).call);
  }

  /** When two processes link the same revision, the later one returns it as well while it is the head. */
  lemma TwinReturns(actions: seq<Action>, pid: Pid)
    requires DistinctIds(Run(actions).published) && At(Run(actions), pid).Linking?
    requires
      var p := Run(actions).published;
      |p| - 1 in p && p[|p| - 1] == At(Run(actions), pid).revision
    ensures
      var p, call, r := Run(actions).published, At(Run(actions), pid).call, At(Run(actions), pid).revision;
      var w := Run(actions + [Advance(pid), Advance(pid)]);
      w.published == p && At(w, pid) == Returned(call, r)
  {
    hide IsChain, DistinctIds, Run, ReadAuthority;
    RunTwoMore(actions, Advance(pid), Advance(pid));
    RunsAreSafe(actions);
    ReaderRefusesOnlyRepeats(actions);
    ChainLength(Run(actions).published);
    HeadNumber(Run(actions).published);
  }

  lemma HeadNumber(published: map<nat, Revision>)
    requires IsChain(published) && |published| - 1 in published
    ensures published[|published| - 1].number == |published| - 1
  {
  }

  /** A process whose place has been taken by another revision conflicts, and nothing changes. */
  lemma LoserConflicts(actions: seq<Action>, pid: Pid)
    requires At(Run(actions), pid).Linking?
    requires
      var p, r := Run(actions).published, At(Run(actions), pid).revision;
      r.number in p && p[r.number] != r
    ensures
      var w, w' := Run(actions), Apply(Run(actions), Advance(pid));
      w'.published == w.published && At(w', pid) == Failed(At(w, pid).call, Conflict)
  {
  }

  /** What five steps do to the first call in an empty directory. */
  lemma CreatePublishes(w: World, pid: Pid, call: Call)
    requires !IsRunning(At(w, pid)) && call.Create? && w.published == map[]
      && call.launch == LaunchFor(call.handoff.identity, call.launch.rest)
    requires
      var r := Hashed(call.handoff, Some(call.launch), call.launch, None, 0, call.id);
      r !in w.torn && r !in w.candidates
    ensures
      var r := Hashed(call.handoff, Some(call.launch), call.launch, None, 0, call.id);
      var w' := Step(Step(Step(Step(Tried(w, pid, call), pid), pid), pid), pid);
      w'.published == map[0 := r] && At(w', pid) == Returned(call, r)
  {
    var r := Hashed(call.handoff, Some(call.launch), call.launch, None, 0, call.id);
    CreateReadingDecides(w, pid, call);
    TriedReads(w, pid, call);
    FirstIsHead(r);
    hide ReadAuthority, IsReadable;
    var w1 := Tried(w, pid, call);
    assert At(w1, pid) == Opening(call, r);
    var w2 := Step(w1, pid);
    assert At(w2, pid) == Writing(call, r) && w2.published == map[];
    var w3 := Step(w2, pid);
    assert At(w3, pid) == Linking(call, r) && w3.published == map[];
    var w4 := Step(w3, pid);
    assert At(w4, pid) == Verifying(call, r) && w4.published == map[0 := r];
  }

  lemma FirstIsHead(r: Revision)
    requires WellFormedRevision(r) && r.number == 0
    ensures ReadAuthority(map[0 := r]) == Some(Some(r)) && ReadAuthority(map[]) == Some(None)
  {
    hide WellFormedRevision, Follows;
    assert |map[0 := r]| == 1;
  }
}
