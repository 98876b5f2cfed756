/**
 The transactional multi-file apply: stage temporary files, move originals to backups, link the
 postimages in place, verify, delete the backups; roll back on any failure before verification.
 */
module PatchApplier {
  import opened Wrappers
  import opened FileSystems
  import opened PatchStages

  /** How a phase ends: normally, with a patch error, or with a raw filesystem error. */
  datatype Outcome = Fine | Threw(error: PatchError) | ThrewSystem

  datatype ApplyResult = Applied | Failed(error: PatchError)

  const CANCELLED := PatchError("patch_cancelled", Unchanged)
  const STALE := PatchError("patch_stale", Unchanged)
  const AMBIGUOUS := PatchError("ambiguous_patch_state", Unknown)

  /** What the plan says about the tree, when `made` are the planned directories that exist by now. */
  ghost predicate Current(t: Tree, plan: Plan, made: set<Path>) {
    && OriginalTargets(t, plan) && AncestorsExist(t, plan)
    && (forall d :: d in MissingDirectories(plan) ==> if d in made then d in t && t[d] == Directory else d !in t)
  }

  /** A tree in which nothing but a failing call or an abort can stop the apply. */
  ghost predicate Ready(t: Tree, plan: Plan, stages: seq<ApplyStage>) {
    && Current(t, plan, {})
    && (forall i :: 0 <= i < |stages| ==> stages[i].tempPath !in t && stages[i].backupPath !in t)
    && (forall i :: 0 <= i < |stages| ==>
          stages[i].tempPath != [] && stages[i].backupPath != []
          && Parent(stages[i].tempPath) == Parent(stages[i].backupPath) == Parent(stages[i].change.target))
    && (forall i :: 0 <= i < |plan| ==>
          plan[i].target !in MissingDirectories(plan) && ParentPlanned(t, plan, plan[i].target))
    && (forall d :: d in MissingDirectories(plan) ==> ParentPlanned(t, plan, d))
  }

  ghost predicate AncestorsExist(t: Tree, plan: Plan) {
    forall i :: 0 <= i < |plan| ==> plan[i].ancestor in t && t[plan[i].ancestor] == Directory
  }

  ghost predicate ParentPlanned(t: Tree, plan: Plan, p: Path) {
    p != [] && (Parent(p) in MissingDirectories(plan) || ParentIsDirectory(t, p))
  }

  /** One change of the plan, checked against the tree. */
  ghost predicate CurrentChange(t: Tree, change: PlannedFile, allowed: set<Path>) {
    && change.ancestor in t && t[change.ancestor] == Directory
    && (if change.kind.Modify? then Holds(t, change.target, change.preimage) else change.target !in t)
    && (forall d :: d in change.missing ==> if d in allowed then d in t && t[d] == Directory else d !in t)
  }

  /** Before verification no phase reports an unknown state. */
  predicate StaysKnown(outcome: Outcome) {
    outcome.Threw? ==> outcome.error.state.Unchanged?
  }

  /** Nothing but the abort stops it. */
  predicate StoppedByAbort(outcome: Outcome) {
    outcome.Fine? || outcome == Threw(CANCELLED)
  }

  /** A temporary file that this apply left behind, in a directory that was not there before. */
  ghost predicate StrayInNewDirectory(tree: Tree, t0: Tree, stages: seq<ApplyStage>) {
    exists i :: 0 <= i < |stages| && IsStray(tree, t0, stages[i].tempPath)
  }

  ghost predicate IsStray(tree: Tree, t0: Tree, p: Path) {
    p in tree && p !in t0 && !ParentIsDirectory(t0, p)
  }

  class AtomicPatchApplier {
    const fs: FileSystem
    const plan: Plan
    /** Whether the abort signal is set when the given number of calls has been made. */
    const aborted: nat -> bool
    var stages: seq<ApplyStage>
    var createdDirectories: seq<Path>
    var targetsVerified: bool
    /** The call number at which the abort was last looked at, before anything is moved. */
    ghost var commit: nat
    /** How many calls of these kinds came before this apply. */
    ghost var createdBefore: nat
    ghost var movesBefore: nat

    constructor (fs: FileSystem, plan: Plan, aborted: nat -> bool)
      ensures this.fs == fs && this.plan == plan && this.aborted == aborted
    {
      this.fs := fs;
      this.plan := plan;
      this.aborted := aborted;
      this.stages := [];
      this.createdDirectories := [];
      this.targetsVerified := false;
      this.commit, this.createdBefore, this.movesBefore := 0, 0, 0;
    }

    /** No filesystem call failed and no abort was seen between two call numbers. */
    ghost predicate Undisturbed(start: nat, end: nat) {
      fs.Quiet(start, end) && forall k: nat :: start <= k <= end ==> !aborted(k)
    }

    /** What holds of a stretch of calls holds of its parts. */
    lemma Within(a: nat, b: nat, c: nat)
      requires a <= b <= c
      ensures Undisturbed(a, c) ==> Undisturbed(a, b) && Undisturbed(b, c)
      ensures fs.Quiet(a, c) ==> fs.Quiet(a, b) && fs.Quiet(b, c)
      ensures Undisturbed(a, b) ==> fs.Quiet(a, b) && !aborted(a)
      ensures fs.Quiet(a, b) && fs.Quiet(b, c) ==> fs.Quiet(a, c)
    {
    }

    /** Nothing was made or opened once the abort was set. */
    ghost predicate Heeded()
      reads this`createdBefore, fs`created
    {
      createdBefore <= |fs.created| && forall i :: createdBefore <= i < |fs.created| ==> !aborted(fs.created[i])
    }

    /** Nothing was moved or linked before the commit. */
    ghost predicate Committed()
      reads this`commit, this`movesBefore, fs`moved
    {
      movesBefore <= |fs.moved| && forall i :: movesBefore <= i < |fs.moved| ==> commit <= fs.moved[i]
    }

    /** What has a backup has been moved. */
    ghost predicate MovesAreKnown()
      reads this`stages, this`movesBefore, fs`moved
    {
      forall i :: 0 <= i < |stages| && stages[i].backupMoved ==> movesBefore < |fs.moved|
    }

    /** The commit came after everything was staged, and before the abort. */
    ghost predicate IsCommit()
      reads this`commit, this`createdBefore, fs`created
    {
      !aborted(commit) && forall i :: createdBefore <= i < |fs.created| ==> fs.created[i] < commit
    }

    /** Before an apply nothing of it has been made, moved or linked. */
    ghost method Begin()
      modifies this`commit, this`createdBefore, this`movesBefore
      ensures Heeded() && Committed()
      ensures commit == fs.calls && createdBefore == |fs.created| && movesBefore == |fs.moved|
    {
      commit, createdBefore, movesBefore := fs.calls, |fs.created|, |fs.moved|;
    }

    /** The stage flags describe the tree, and what is installed can be undone. */
    ghost predicate Valid(base: Tree, dirs: set<Path>)
      reads this, fs
    {
      && fs.Valid() && commit <= fs.calls && Committed() && Heeded() && MovesAreKnown()
      && StagesOf(stages, plan) && NamesDistinct(stages) && StagingOutside(dirs, stages)
      && Consistent(fs.tree, base, dirs, stages)
      && AllUndoable(base, stages)
    }

    lemma NoCalls(n: nat)
      ensures fs.Quiet(n, n)
    {
    }

    lemma OneMoreCall(a: nat, b: nat)
      requires a <= b
      ensures fs.Quiet(a, b + 1) <==> fs.Quiet(a, b) && !fs.faulty(b)
      ensures Undisturbed(a, b + 1) <==> Undisturbed(a, b) && !fs.faulty(b) && !aborted(b + 1)
    {
    }

    // ---------- checks ----------

    method Matches(p: Path, expected: Bytes) returns (r: bool)
      modifies fs`calls
      ensures old(fs.calls) < fs.calls
      ensures r ==> Holds(fs.tree, p, expected)
      ensures Holds(fs.tree, p, expected) && fs.Quiet(old(fs.calls), fs.calls) ==> r
      ensures r ==> fs.Quiet(old(fs.calls), fs.calls)
    {
      var metadata := fs.Lstat(p);
      if metadata.Err? || !metadata.value.File? { return false; }
      var data := fs.ReadFile(p);
      return data == Ok(expected);
    }

    method IsAbsent(p: Path) returns (r: bool)
      modifies fs`calls
      ensures fs.calls == old(fs.calls) + 1
      ensures r <==> p !in fs.tree && !fs.faulty(old(fs.calls))
    {
      var metadata := fs.Lstat(p);
      return metadata == Err(ENOENT);
    }

    method AssertTargetAbsent(p: Path) returns (outcome: Outcome)
      modifies fs`calls
      ensures fs.calls == old(fs.calls) + 1
      ensures
        outcome == if fs.faulty(old(fs.calls)) then ThrewSystem
                   else if p in fs.tree then Threw(PatchError("patch_internal_path_collision", Unchanged)) else Fine
    {
      var metadata := fs.Lstat(p);
      if metadata == Err(ENOENT) { return Fine; }
      if metadata.Err? { return ThrewSystem; }
      return Threw(PatchError("patch_internal_path_collision", Unchanged));
    }

    method RevalidateChange(change: PlannedFile, allowed: set<Path>) returns (ok: bool)
      modifies fs`calls
      ensures old(fs.calls) <= fs.calls
      ensures ok ==> CurrentChange(fs.tree, change, allowed)
      ensures fs.Quiet(old(fs.calls), fs.calls) && CurrentChange(fs.tree, change, allowed) ==> ok
      ensures ok ==> fs.Quiet(old(fs.calls), fs.calls)
    {
      var ancestor := fs.Lstat(change.ancestor);
      if ancestor != Ok(Directory) { return false; }
      for i := 0 to |change.missing|
        invariant fs.Quiet(old(fs.calls), fs.calls)
        invariant old(fs.calls) < fs.calls
        invariant forall j :: 0 <= j < i ==>
          var d := change.missing[j];
          if d in allowed then d in fs.tree && fs.tree[d] == Directory else d !in fs.tree
      {
        var d := change.missing[i];
        var metadata := fs.Lstat(d);
        if metadata.Ok? {
          if d !in allowed || metadata.value != Directory { return false; }
        } else if metadata.error != ENOENT || d in allowed {
          return false;
        }
      }
      var target := fs.Lstat(change.target);
      if target.Ok? {
        if change.kind.Create? || !target.value.File? { return false; }
      } else if change.kind.Modify? || target.error != ENOENT {
        return false;
      }
      if change.kind.Modify? {
        var current := fs.ReadFile(change.target);
        return current == Ok(change.preimage);
      }
      return true;
    }

    /** The planner checks again that the plan still fits the workspace. */
    method Revalidate(allowed: set<Path>) returns (outcome: Outcome)
      modifies fs`calls
      ensures old(fs.calls) <= fs.calls
      ensures outcome.Fine? || outcome == Threw(CANCELLED) || outcome == Threw(STALE)
      ensures outcome == Threw(CANCELLED) <==> aborted(old(fs.calls))
      ensures outcome.Fine? ==> Current(fs.tree, plan, allowed)
      ensures fs.Quiet(old(fs.calls), fs.calls) && Current(fs.tree, plan, allowed) ==> StoppedByAbort(outcome)
      ensures outcome.Fine? ==> fs.Quiet(old(fs.calls), fs.calls)
    {
      if aborted(fs.calls) { return Threw(CANCELLED); }
      for i := 0 to |plan|
        invariant fs.Quiet(old(fs.calls), fs.calls)
        invariant old(fs.calls) <= fs.calls
        invariant forall j :: 0 <= j < i ==> CurrentChange(fs.tree, plan[j], allowed)
      {
        var ok := RevalidateChange(plan[i], allowed);
        if !ok {
          return Threw(STALE);
        }
      }
      return Fine;
    }

    // ---------- forward phases ----------

    method MakeDirectories(ghost t0: Tree) returns (outcome: Outcome)
      requires fs.Valid() && Heeded() && fs.tree == t0 && createdDirectories == []
      modifies this`createdDirectories, fs`tree, fs`calls, fs`built, fs`created
      ensures fs.Valid() && Heeded() && old(fs.calls) <= fs.calls
      ensures createdDirectories <= UniqueMissingDirectories(plan)
      ensures forall d :: d in createdDirectories ==> d !in t0
      ensures fs.tree == WithDirectories(t0, Elements(createdDirectories))
      ensures outcome.Fine? ==> createdDirectories == UniqueMissingDirectories(plan)
      ensures StaysKnown(outcome)
      ensures fs.Quiet(old(fs.calls), fs.calls) && Ready(t0, plan, stages) ==> StoppedByAbort(outcome)
      ensures Undisturbed(old(fs.calls), fs.calls) && Ready(t0, plan, stages) ==> outcome.Fine?
      ensures outcome.Fine? ==> fs.Quiet(old(fs.calls), fs.calls)
    {
      hide Ready, WithDirectories, UniqueMissingDirectories, FileSystem.Quiet;
      var directories := UniqueMissingDirectories(plan);
      NoDirectories(t0);
      NoCalls(fs.calls);
      for k := 0 to |directories|
        invariant fs.Quiet(old(fs.calls), fs.calls)
        invariant fs.Valid() && Heeded() && old(fs.calls) <= fs.calls
        invariant createdDirectories == directories[..k]
        invariant forall d :: d in createdDirectories ==> d !in t0
        invariant fs.tree == WithDirectories(t0, Elements(createdDirectories))
      {
        if aborted(fs.calls) { return Threw(CANCELLED); }
        CanMakeDirectory(t0, plan, stages, k);
        OneMoreCall(old(fs.calls), fs.calls);
        var ok := fs.Mkdir(directories[k]);
        if !ok { return Threw(STALE); }
        OneMoreDirectory(t0, directories, k);
        createdDirectories := createdDirectories + [directories[k]];
      }
      return Fine;
    }

    /** Sets the mode of a written file, syncs and closes it; after a failure it is closed as well. */
    method FinishFile(written: bool) returns (ok: bool)
      requires fs.Valid()
      modifies fs`calls, fs`built
      ensures fs.Valid() && old(fs.calls) <= fs.calls
      ensures ok ==> written
      ensures written && fs.Quiet(old(fs.calls), fs.calls) ==> ok
      ensures ok ==> fs.Quiet(old(fs.calls), fs.calls)
    {
      ok := written;
      if ok { ok := fs.HandleCall(); }
      if ok { ok := fs.HandleCall(); }
      if ok { ok := fs.HandleCall(); }
      if !ok { var _ := fs.HandleCall(); }
    }

    /** Creates a file with the given content; a failed call can leave another content. */
    method WriteNewFile(p: Path, data: Bytes) returns (ok: bool, ghost left: Option<Bytes>)
      requires fs.Valid() && Heeded() && !aborted(fs.calls)
      modifies fs`tree, fs`calls, fs`built, fs`created
      ensures fs.Valid() && Heeded() && old(fs.calls) <= fs.calls
      ensures ok ==> p !in old(fs.tree) && left == Some(data)
      ensures left.None? ==> fs.tree == old(fs.tree)
      ensures left.Some? ==> p !in old(fs.tree) && fs.tree == old(fs.tree)[p := File(left.value)]
      ensures fs.Quiet(old(fs.calls), fs.calls) && p !in old(fs.tree) && ParentIsDirectory(old(fs.tree), p) ==> ok
      ensures ok ==> fs.Quiet(old(fs.calls), fs.calls)
    {
      left := None;
      ok := fs.OpenNew(p);
      if !ok { return; }
      ok := fs.WriteFile(p, data);
      left := Some(fs.tree[p].data);
      ok := FinishFile(ok);
    }

    method WriteTemp(i: nat, ghost base: Tree, ghost dirs: set<Path>) returns (ok: bool, ghost base': Tree)
      requires i < |stages| && Valid(base, dirs) && !stages[i].tempWritten && !aborted(fs.calls)
      modifies this`stages, fs`tree, fs`calls, fs`built, fs`created
      ensures old(fs.calls) <= fs.calls && Valid(base', dirs)
      ensures ok ==> base' == base && stages == old(stages)[i := old(stages[i]).(tempWritten := true)]
      ensures !ok ==> stages == old(stages)
      ensures OneTempMore(base, base', stages, i)
      ensures (&& fs.Quiet(old(fs.calls), fs.calls) && stages[i].tempPath !in old(fs.tree)
               && ParentIsDirectory(old(fs.tree), stages[i].tempPath)) ==> ok
      ensures ok ==> fs.Quiet(old(fs.calls), fs.calls)
    {
      hide Consistent, NamesDistinct, AllUndoable;
      var stage := stages[i];
      ghost var before := fs.tree;
      ghost var left;
      ok, left := WriteNewFile(stage.tempPath, stage.change.postimage);
      base' := base;
      if ok {
        TempWritten(before, base, dirs, stages, i);
        stages := stages[i := stage.(tempWritten := true)];
      } else if left.Some? {
        StrayTemp(before, base, dirs, stages, i, left.value);
        base' := base[stage.tempPath := File(left.value)];
      }
    }

    method WriteTemps(ghost base: Tree, ghost dirs: set<Path>) returns (outcome: Outcome, ghost base': Tree)
      requires Valid(base, dirs) && AllUntouched(stages)
      modifies this`stages, fs`tree, fs`calls, fs`built, fs`created
      ensures old(fs.calls) <= fs.calls && Valid(base', dirs)
      ensures (outcome.Fine? ==> base' == base) && StaysKnown(outcome)
      ensures base' == base || exists i :: 0 <= i < |stages| && OneTempMore(base, base', stages, i)
      ensures forall i :: 0 <= i < |stages| ==> !stages[i].installed && !stages[i].backupMoved
      ensures outcome.Fine? ==> forall i :: 0 <= i < |stages| ==> stages[i].tempWritten
      ensures SameStages(old(stages), stages)
      ensures fs.Quiet(old(fs.calls), fs.calls) && StagingReady(base, dirs, stages) ==>
        StoppedByAbort(outcome) && base' == base
      ensures Undisturbed(old(fs.calls), fs.calls) && StagingReady(base, dirs, stages) ==> outcome.Fine?
      ensures outcome.Fine? ==> fs.Quiet(old(fs.calls), fs.calls)
    {
      hide Consistent, NamesDistinct, AllUndoable, StagingReady;
      base' := base;
      for i := 0 to |stages|
        invariant fs.Quiet(old(fs.calls), fs.calls)
        invariant old(fs.calls) <= fs.calls
        invariant |stages| == |old(stages)| && Valid(base, dirs)
        invariant SameStages(old(stages), stages)
        invariant forall j :: 0 <= j < i ==> stages[j] == old(stages)[j].(tempWritten := true)
        invariant forall j :: i <= j < |stages| ==> stages[j] == old(stages)[j]
      {
        if aborted(fs.calls) { return Threw(CANCELLED), base; }
        assert Untouched(old(stages)[i]);
        CanStage(fs.tree, base, dirs, stages, i);
        var ok;
        ghost var start := fs.calls;
        ok, base' := WriteTemp(i, base, dirs);
        if !ok {
          return Threw(PatchError("patch_temp_write_failed", Unchanged)), base';
        }
      }
      return Fine, base;
    }

    method BackupStage(i: nat, ghost base: Tree, ghost dirs: set<Path>) returns (outcome: Outcome)
      requires i < |stages| && Valid(base, dirs) && OriginalTargets(base, plan) && Prepared(stages[i])
      requires stages[i].change.kind.Modify?
      modifies this`stages, fs`tree, fs`calls, fs`moved
      ensures old(fs.calls) <= fs.calls && Valid(base, dirs)
      ensures outcome.Fine? ==> stages == old(stages)[i := old(stages)[i].(backupMoved := true)]
      ensures (!outcome.Fine? ==> stages == old(stages)) && StaysKnown(outcome)
      ensures fs.Quiet(old(fs.calls), fs.calls) && StagingReady(base, dirs, stages) ==> outcome.Fine?
      ensures outcome.Fine? ==> fs.Quiet(old(fs.calls), fs.calls)
    {
      hide Consistent, NamesDistinct, AllUndoable, StagingReady;
      var stage := stages[i];
      ghost var before := fs.tree;
      BackupSlots(before, base, dirs, plan, stages, i);
      outcome := AssertTargetAbsent(stage.backupPath);
      if outcome.Fine? {
        var ok := fs.Rename(stage.change.target, stage.backupPath);
        if ok {
          BackupMoved(before, base, dirs, plan, stages, i);
          stages := stages[i := stage.(backupMoved := true)];
        } else {
          outcome := ThrewSystem;
        }
      }
      StagingReadyForAll(base, dirs, stages, old(stages));
    }

    method MoveBackups(ghost base: Tree, ghost dirs: set<Path>) returns (outcome: Outcome)
      requires Valid(base, dirs) && OriginalTargets(base, plan)
      requires forall i :: 0 <= i < |stages| ==> Prepared(stages[i])
      modifies this`stages, fs`tree, fs`calls, fs`moved
      ensures old(fs.calls) <= fs.calls && Valid(base, dirs) && SameStages(old(stages), stages)
      ensures (outcome.Fine? ==> forall i :: 0 <= i < |stages| ==> BackedUp(stages[i])) && StaysKnown(outcome)
      ensures fs.Quiet(old(fs.calls), fs.calls) && StagingReady(base, dirs, old(stages)) ==> outcome.Fine?
      ensures outcome.Fine? ==> fs.Quiet(old(fs.calls), fs.calls)
    {
      hide Consistent, NamesDistinct, AllUndoable, StagingReady, OriginalTargets;
      for i := 0 to |stages|
        invariant fs.Quiet(old(fs.calls), fs.calls)
        invariant old(fs.calls) <= fs.calls
        invariant Valid(base, dirs) && SameStages(old(stages), stages)
        invariant forall j :: 0 <= j < i ==> BackedUp(stages[j])
        invariant forall j :: i <= j < |stages| ==> Prepared(stages[j])
      {
        if stages[i].change.kind.Modify? {
          outcome := BackupStage(i, base, dirs);
          StagingReadyForAll(base, dirs, old(stages), stages);
          if !outcome.Fine? { return outcome; }
        }
      }
      return Fine;
    }

    /** Hard-links the postimage in place, which never replaces a file, and drops the temporary name. */
    method InstallStage(i: nat, ghost base: Tree, ghost dirs: set<Path>) returns (ok: bool)
      requires i < |stages| && Valid(base, dirs) && OriginalTargets(base, plan) && BackedUp(stages[i])
      modifies this`stages, fs`tree, fs`calls, fs`built, fs`moved
      ensures old(fs.calls) <= fs.calls && Valid(base, dirs)
      ensures |stages| == |old(stages)| && SameNames(stages[i], old(stages)[i])
      ensures forall j :: 0 <= j < |stages| && j != i ==> stages[j] == old(stages)[j]
      ensures ok ==> stages[i].installed && !stages[i].tempWritten
      ensures (&& fs.Quiet(old(fs.calls), fs.calls) && stages[i].change.target !in old(fs.tree)
               && ParentIsDirectory(old(fs.tree), stages[i].change.target)) ==> ok
      ensures ok ==> fs.Quiet(old(fs.calls), fs.calls)
    {
      hide Consistent, NamesDistinct, AllUndoable, OriginalTargets;
      var stage := stages[i];
      ghost var before := fs.tree;
      LinkSlots(before, base, dirs, plan, stages, i);
      ok := fs.Link(stage.tempPath, stage.change.target);
      if !ok { return; }
      Linked(before, base, dirs, plan, stages, i);
      stages := stages[i := stage.(installed := true)];
      ok := DropTemp(i, base, dirs);
    }

    method DropTemp(i: nat, ghost base: Tree, ghost dirs: set<Path>) returns (ok: bool)
      requires i < |stages| && Valid(base, dirs) && stages[i].tempWritten
      modifies this`stages, fs`tree, fs`calls
      ensures fs.calls == old(fs.calls) + 1 && Valid(base, dirs)
      ensures stages == if ok then old(stages)[i := old(stages)[i].(tempWritten := false)] else old(stages)
      ensures ok <==> !fs.faulty(old(fs.calls))
      ensures ok ==> fs.Quiet(old(fs.calls), fs.calls)
    {
      hide Consistent, NamesDistinct, AllUndoable;
      ghost var before := fs.tree;
      Slots(before, base, dirs, stages, i);
      ok := fs.Unlink(stages[i].tempPath);
      if ok {
        TempRemoved(before, base, dirs, stages, i);
        stages := stages[i := stages[i].(tempWritten := false)];
      }
    }

    method Install(ghost base: Tree, ghost dirs: set<Path>) returns (outcome: Outcome)
      requires Valid(base, dirs) && OriginalTargets(base, plan)
      requires forall i :: 0 <= i < |stages| ==> BackedUp(stages[i])
      modifies this`stages, fs`tree, fs`calls, fs`built, fs`moved
      ensures old(fs.calls) <= fs.calls && Valid(base, dirs) && SameStages(old(stages), stages)
      ensures (outcome.Fine? ==> AllInstalled(stages)) && StaysKnown(outcome)
      ensures fs.Quiet(old(fs.calls), fs.calls) && StagingReady(base, dirs, old(stages)) ==> outcome.Fine?
      ensures outcome.Fine? ==> fs.Quiet(old(fs.calls), fs.calls)
    {
      hide Consistent, NamesDistinct, AllUndoable, StagingReady, OriginalTargets;
      for i := 0 to |stages|
        invariant fs.Quiet(old(fs.calls), fs.calls)
        invariant old(fs.calls) <= fs.calls
        invariant Valid(base, dirs) && SameStages(old(stages), stages)
        invariant forall j :: 0 <= j < i ==> stages[j].installed && !stages[j].tempWritten
        invariant forall j :: i <= j < |stages| ==> BackedUp(stages[j])
      {
        StagingReadyForAll(base, dirs, old(stages), stages);
        LinkSlots(fs.tree, base, dirs, plan, stages, i);
        var ok := InstallStage(i, base, dirs);
        if !ok { return ThrewSystem; }
      }
      return Fine;
    }

    method VerifyTargets(ghost base: Tree, ghost dirs: set<Path>) returns (outcome: Outcome)
      requires Valid(base, dirs) && AllInstalled(stages)
      modifies fs`calls
      ensures old(fs.calls) <= fs.calls
      // It passes only when every target holds its postimage, and then, unless a call fails.
      ensures outcome.Fine? ==>
        forall i :: 0 <= i < |stages| ==> Holds(fs.tree, stages[i].change.target, stages[i].change.postimage)
      ensures fs.Quiet(old(fs.calls), fs.calls) ==> outcome.Fine?
      ensures outcome.Fine? || outcome == Threw(PatchError("patch_postcondition_failed", Unchanged))
      ensures outcome.Fine? ==> fs.Quiet(old(fs.calls), fs.calls)
    {
      for i := 0 to |stages|
        invariant fs.Quiet(old(fs.calls), fs.calls)
        invariant old(fs.calls) <= fs.calls
        invariant forall j :: 0 <= j < i ==> Holds(fs.tree, stages[j].change.target, stages[j].change.postimage)
      {
        Slots(fs.tree, base, dirs, stages, i);
        var ok := Matches(stages[i].change.target, stages[i].change.postimage);
        if !ok { return Threw(PatchError("patch_postcondition_failed", Unchanged)); }
      }
      return Fine;
    }

    method DeleteBackups(ghost base: Tree, ghost dirs: set<Path>) returns (outcome: Outcome)
      requires StagesOf(stages, plan) && NamesDistinct(stages) && StagingOutside(dirs, stages)
      requires Consistent(fs.tree, base, dirs, stages) && AllInstalled(stages)
      modifies this`stages, fs`tree, fs`calls
      ensures old(fs.calls) <= fs.calls
      ensures StagesOf(stages, plan) && NamesDistinct(stages) && SameStages(old(stages), stages)
      ensures Consistent(fs.tree, base, dirs, stages) && AllInstalled(stages)
      ensures outcome.Fine? ==> NoBackups(stages)
      ensures fs.Quiet(old(fs.calls), fs.calls) ==> outcome.Fine?
      ensures outcome.Fine? ==> fs.Quiet(old(fs.calls), fs.calls)
    {
      hide Consistent, NamesDistinct;
      for i := 0 to |stages|
        invariant fs.Quiet(old(fs.calls), fs.calls)
        invariant old(fs.calls) <= fs.calls
        invariant StagesOf(stages, plan) && NamesDistinct(stages) && StagingOutside(dirs, stages)
        invariant SameStages(old(stages), stages)
        invariant Consistent(fs.tree, base, dirs, stages) && AllInstalled(stages)
        invariant forall j :: 0 <= j < i ==> !stages[j].backupMoved
      {
        var stage := stages[i];
        if stage.backupMoved {
          Slots(fs.tree, base, dirs, stages, i);
          var ok := Matches(stage.backupPath, stage.change.preimage);
          if !ok { return Threw(AMBIGUOUS); }
          ghost var before := fs.tree;
          ok := fs.Unlink(stage.backupPath);
          if !ok { return ThrewSystem; }
          BackupDeleted(before, base, dirs, stages, i);
          stages := stages[i := stage.(backupMoved := false)];
        }
      }
      return Fine;
    }

    // ---------- rollback ----------

    method RemoveTarget(i: nat, ghost base: Tree, ghost dirs: set<Path>) returns (ok: bool)
      requires i < |stages| && Valid(base, dirs) && stages[i].installed
      modifies this`stages, fs`tree, fs`calls
      ensures old(fs.calls) <= fs.calls && Valid(base, dirs)
      ensures stages == if ok then old(stages)[i := old(stages)[i].(installed := false)] else old(stages)
      ensures fs.Quiet(old(fs.calls), fs.calls) ==> ok
      ensures ok ==> fs.Quiet(old(fs.calls), fs.calls)
    {
      hide Consistent, NamesDistinct, AllUndoable;
      var stage := stages[i];
      ghost var before := fs.tree;
      Slots(before, base, dirs, stages, i);
      ok := Matches(stage.change.target, stage.change.postimage);
      if !ok { return; }
      ok := fs.Unlink(stage.change.target);
      if ok {
        TargetRemoved(before, base, dirs, stages, i);
        stages := stages[i := stage.(installed := false)];
      }
    }

    method RestoreBackup(i: nat, ghost base: Tree, ghost dirs: set<Path>) returns (ok: bool)
      requires i < |stages| && Valid(base, dirs) && stages[i].backupMoved && !stages[i].installed
      modifies this`stages, fs`tree, fs`calls, fs`moved
      ensures fs.moved == old(fs.moved) || movesBefore < old(|fs.moved|)
      ensures old(fs.calls) <= fs.calls && Valid(base, dirs)
      ensures stages == if ok then old(stages)[i := old(stages)[i].(backupMoved := false)] else old(stages)
      ensures fs.Quiet(old(fs.calls), fs.calls) && Closed(base) ==> ok
      ensures ok ==> fs.Quiet(old(fs.calls), fs.calls)
    {
      hide Consistent, NamesDistinct, AllUndoable;
      var stage := stages[i];
      ghost var before := fs.tree;
      RestoreSlots(before, base, dirs, plan, stages, i);
      ok := IsAbsent(stage.change.target);
      if !ok { return; }
      ok := Matches(stage.backupPath, stage.change.preimage);
      if !ok { return; }
      ok := fs.Rename(stage.backupPath, stage.change.target);
      if ok {
        BackupRestored(before, base, dirs, stages, i);
        stages := stages[i := stage.(backupMoved := false)];
      }
    }

    method RemoveTemp(i: nat, ghost base: Tree, ghost dirs: set<Path>) returns (ok: bool)
      requires i < |stages| && Valid(base, dirs) && stages[i].tempWritten
      modifies this`stages, fs`tree, fs`calls
      ensures old(fs.calls) <= fs.calls && Valid(base, dirs)
      ensures stages == if ok then old(stages)[i := old(stages)[i].(tempWritten := false)] else old(stages)
      ensures fs.Quiet(old(fs.calls), fs.calls) ==> ok
      ensures ok ==> fs.Quiet(old(fs.calls), fs.calls)
    {
      hide Consistent, NamesDistinct, AllUndoable;
      Slots(fs.tree, base, dirs, stages, i);
      ok := Matches(stages[i].tempPath, stages[i].change.postimage);
      if ok { ok := DropTemp(i, base, dirs); }
    }

    method RollbackStage(i: nat, ghost base: Tree, ghost dirs: set<Path>) returns (safe: bool)
      requires i < |stages| && Valid(base, dirs)
      modifies this`stages, fs`tree, fs`calls, fs`moved
      ensures fs.moved == old(fs.moved) || movesBefore < old(|fs.moved|)
      ensures old(fs.calls) <= fs.calls && Valid(base, dirs)
      ensures |stages| == |old(stages)| && SameNames(stages[i], old(stages)[i])
      ensures forall j :: 0 <= j < |stages| && j != i ==> stages[j] == old(stages)[j]
      ensures safe ==> Untouched(stages[i])
      ensures fs.Quiet(old(fs.calls), fs.calls) && Closed(base) ==> safe
      ensures safe ==> fs.Quiet(old(fs.calls), fs.calls)
    {
      hide Consistent, NamesDistinct, AllUndoable, StagingOutside, Closed;
      safe := true;
      if stages[i].installed {
        var ok := RemoveTarget(i, base, dirs);
        safe := safe && ok;
      }
      if stages[i].backupMoved && !stages[i].installed {
        var ok := RestoreBackup(i, base, dirs);
        safe := safe && ok;
      }
      if stages[i].tempWritten {
        var ok := RemoveTemp(i, base, dirs);
        safe := safe && ok;
      }
    }

    method RollbackStages(ghost base: Tree, ghost dirs: set<Path>) returns (safe: bool)
      requires Valid(base, dirs)
      modifies this`stages, fs`tree, fs`calls, fs`moved
      ensures fs.moved == old(fs.moved) || movesBefore < old(|fs.moved|)
      ensures old(fs.calls) <= fs.calls && Valid(base, dirs) && SameStages(old(stages), stages)
      ensures safe ==> AllUntouched(stages)
      ensures fs.Quiet(old(fs.calls), fs.calls) && Closed(base) ==> safe
      ensures safe ==> fs.Quiet(old(fs.calls), fs.calls)
    {
      hide Consistent, NamesDistinct, AllUndoable, StagingOutside, Closed;
      safe := true;
      for i := |stages| downto 0
        invariant safe ==> fs.Quiet(old(fs.calls), fs.calls)
        invariant fs.moved == old(fs.moved) || movesBefore < old(|fs.moved|)
        invariant old(fs.calls) <= fs.calls
        invariant Valid(base, dirs) && SameStages(old(stages), stages)
        invariant safe ==> forall j :: i <= j < |stages| ==> Untouched(stages[j])
        invariant fs.Quiet(old(fs.calls), fs.calls) && Closed(base) ==> safe
      {
        var ok := RollbackStage(i, base, dirs);
        safe := safe && ok;
      }
    }

    method RemoveDirectories(ghost base: Tree) returns (safe: bool, ghost left: set<Path>)
      requires Valid(base, Elements(createdDirectories))
      requires ShorterFirst(createdDirectories) && Distinct(createdDirectories)
      modifies fs`tree, fs`calls
      ensures old(fs.calls) <= fs.calls && Valid(base, left)
      ensures safe ==> left == {}
      ensures fs.Quiet(old(fs.calls), fs.calls) && Closed(base) && AllUntouched(stages) ==> safe
    {
      safe := true;
      left := Elements(createdDirectories);
      assert createdDirectories[..|createdDirectories|] == createdDirectories;
      for k := |createdDirectories| downto 0
        invariant old(fs.calls) <= fs.calls
        invariant Valid(base, left)
        invariant Elements(createdDirectories[..k]) <= left
        invariant safe ==> left == Elements(createdDirectories[..k])
        invariant fs.Quiet(old(fs.calls), fs.calls) && Closed(base) && AllUntouched(stages) ==> safe
      {
        var d := createdDirectories[k];
        assert d in createdDirectories[..k + 1];
        WithoutLast(createdDirectories, k);
        RemovableLast(fs.tree, base, createdDirectories, k, left, stages);
        ghost var before := fs.tree;
        var error := fs.Rmdir(d);
        if error.None? {
          DropDirectory(before, base, left, stages, d);
          left := left - {d};
        } else if error != Some(ENOENT) {
          safe := false;
        }
      }
    }

    method CheckRestored() returns (safe: bool)
      requires StagesOf(stages, plan)
      modifies fs`calls
      ensures old(fs.calls) <= fs.calls
      ensures safe ==> OriginalTargets(fs.tree, plan)
      ensures fs.Quiet(old(fs.calls), fs.calls) && OriginalTargets(fs.tree, plan) ==> safe
      ensures safe ==> fs.Quiet(old(fs.calls), fs.calls)
    {
      safe := true;
      for i := 0 to |stages|
        invariant safe ==> fs.Quiet(old(fs.calls), fs.calls)
        invariant old(fs.calls) <= fs.calls
        invariant safe ==> forall j :: 0 <= j < i ==>
          if plan[j].kind.Modify? then Holds(fs.tree, plan[j].target, plan[j].preimage) else plan[j].target !in fs.tree
        invariant fs.Quiet(old(fs.calls), fs.calls) && OriginalTargets(fs.tree, plan) ==> safe
      {
        var change := stages[i].change;
        var ok;
        if change.kind.Modify? {
          ok := Matches(change.target, change.preimage);
        } else {
          ok := IsAbsent(change.target);
        }
        safe := safe && ok;
      }
    }

    /** Undoes what the flags say was done. `base` is the tree without this apply. */
    method Rollback(ghost base: Tree) returns (safe: bool, ghost left: set<Path>)
      requires Valid(base, Elements(createdDirectories))
      requires ShorterFirst(createdDirectories) && Distinct(createdDirectories)
      modifies this`stages, fs`tree, fs`calls, fs`moved
      ensures fs.moved == old(fs.moved) || movesBefore < old(|fs.moved|)
      ensures old(fs.calls) <= fs.calls && Valid(base, left) && SameStages(old(stages), stages)
      ensures safe ==> fs.tree == base && OriginalTargets(base, plan)
      // Rollback is complete: it can only give up when one of its own calls failed.
      ensures fs.Quiet(old(fs.calls), fs.calls) && Closed(base) && OriginalTargets(base, plan) ==> safe
    {
      hide Consistent, NamesDistinct, AllUndoable, StagingOutside, ShorterFirst, Distinct, Closed, OriginalTargets;
      safe := RollbackStages(base, Elements(createdDirectories));
      var ok;
      ok, left := RemoveDirectories(base);
      safe := safe && ok;
      if safe {
        AllUndone(fs.tree, base, left, stages);
        assert WithDirectories(base, {}) == base;
      }
      ok := CheckRestored();
      safe := safe && ok;
    }

    // ---------- the whole apply ----------

    /** The guarded part of the apply, up to the deletion of the last backup. */
    method TryApply(ghost t0: Tree) returns (outcome: Outcome, ghost base: Tree)
      requires fs.Valid() && Heeded() && Committed() && |fs.moved| == movesBefore && commit <= fs.calls
      requires fs.tree == t0 && createdDirectories == [] && !targetsVerified
      requires StagesOf(stages, plan) && NamesDistinct(stages) && AllUntouched(stages)
      requires StagingOutside(MissingDirectories(plan), stages)
      requires OriginalTargets(t0, plan)
      modifies this`stages, this`createdDirectories, this`targetsVerified, this`commit, fs`tree, fs`calls, fs`built,
        fs`created, fs`moved
      ensures fs.Valid() && Committed() && Heeded() && old(commit) <= commit <= fs.calls && old(fs.calls) <= fs.calls
      ensures SameStages(old(stages), stages)
      ensures createdDirectories <= UniqueMissingDirectories(plan)
      ensures !targetsVerified ==> Valid(base, Elements(createdDirectories)) && !outcome.Fine? && StaysKnown(outcome)
      ensures !targetsVerified ==> base == t0 || exists i :: 0 <= i < |stages| && OneTempMore(t0, base, stages, i)
      ensures targetsVerified ==>
        StagesOf(stages, plan) && NamesDistinct(stages) && Consistent(fs.tree, t0, MissingDirectories(plan), stages)
          && AllInstalled(stages)
      ensures outcome.Fine? ==> targetsVerified && NoBackups(stages)
      ensures targetsVerified || fs.moved != old(fs.moved) ==> IsCommit()
      ensures fs.Quiet(old(fs.calls), fs.calls) && Ready(t0, plan, old(stages)) ==>
        if targetsVerified then outcome.Fine? else outcome == Threw(CANCELLED) && base == t0
      ensures Undisturbed(old(fs.calls), fs.calls) && Ready(t0, plan, old(stages)) ==> outcome.Fine?
      ensures outcome.Fine? ==> fs.Quiet(old(fs.calls), fs.calls)
    {
      hide Consistent, NamesDistinct, AllUndoable, StagingOutside, OriginalTargets, Ready, MissingDirectories,
        WithDirectories;
      base := t0;
      outcome := MakeDirectories(t0);
      ghost var dirs := Elements(createdDirectories);
      AfterDirectories(t0, plan, stages, createdDirectories);
      if outcome.Fine? {
        outcome, base := StageAndInstall(t0, dirs);
      }
    }

    /** Everything after the directories are made: stage, move, link, verify, delete the backups. */
    method StageAndInstall(ghost t0: Tree, ghost dirs: set<Path>) returns (outcome: Outcome, ghost base: Tree)
      requires Valid(t0, dirs) && AllUntouched(stages) && !targetsVerified
      requires |fs.moved| == movesBefore
      requires dirs == MissingDirectories(plan) == Elements(createdDirectories)
      requires OriginalTargets(t0, plan)
      modifies this`stages, this`targetsVerified, this`commit, fs`tree, fs`calls, fs`built, fs`created, fs`moved
      ensures fs.Valid() && Committed() && Heeded() && old(commit) <= commit <= fs.calls && old(fs.calls) <= fs.calls
      ensures SameStages(old(stages), stages)
      ensures !targetsVerified ==> Valid(base, dirs) && !outcome.Fine? && StaysKnown(outcome)
      ensures !targetsVerified ==> base == t0 || exists i :: 0 <= i < |stages| && OneTempMore(t0, base, stages, i)
      ensures targetsVerified ==>
        StagesOf(stages, plan) && NamesDistinct(stages) && Consistent(fs.tree, t0, dirs, stages) && AllInstalled(stages)
      ensures outcome.Fine? ==> targetsVerified && NoBackups(stages)
      ensures targetsVerified || fs.moved != old(fs.moved) ==> IsCommit()
      ensures fs.Quiet(old(fs.calls), fs.calls) && Ready(t0, plan, old(stages)) ==>
        if targetsVerified then outcome.Fine? else outcome == Threw(CANCELLED) && base == t0
      ensures Undisturbed(old(fs.calls), fs.calls) && Ready(t0, plan, old(stages)) ==> outcome.Fine?
      ensures outcome.Fine? ==> fs.Quiet(old(fs.calls), fs.calls)
    {
      hide Consistent, NamesDistinct, AllUndoable, StagingOutside, Ready, StagingReady, OriginalTargets, Current,
        AncestorsExist, OneTempMore;
      ghost var start := stages;
      var allowed := set d | d in createdDirectories;
      base := t0;
      ReadyToStage(fs.tree, t0, plan, stages, start);
      outcome := Revalidate(allowed);
      if !outcome.Fine? { return; }
      outcome, base := WriteTemps(t0, dirs);
      StagingReadyForAll(t0, dirs, start, stages);
      if !outcome.Fine? { return; }
      ReadyToStage(fs.tree, t0, plan, stages, start);
      commit := fs.calls;
      outcome := Revalidate(allowed);
      if !outcome.Fine? { return; }
      outcome := MoveAndInstall(t0, dirs);
      StagingReadyForAll(t0, dirs, start, stages);
    }

    method MoveAndInstall(ghost base: Tree, ghost dirs: set<Path>) returns (outcome: Outcome)
      requires Valid(base, dirs) && OriginalTargets(base, plan) && !targetsVerified
      requires forall i :: 0 <= i < |stages| ==> Prepared(stages[i])
      modifies this`stages, this`targetsVerified, fs`tree, fs`calls, fs`built, fs`moved
      ensures fs.Valid() && commit <= fs.calls && Committed() && old(fs.calls) <= fs.calls
      ensures SameStages(old(stages), stages)
      ensures !targetsVerified ==> Valid(base, dirs) && !outcome.Fine? && StaysKnown(outcome)
      ensures targetsVerified ==>
        StagesOf(stages, plan) && NamesDistinct(stages) && Consistent(fs.tree, base, dirs, stages)
          && AllInstalled(stages)
      ensures outcome.Fine? ==> targetsVerified && NoBackups(stages)
      ensures fs.Quiet(old(fs.calls), fs.calls) && StagingReady(base, dirs, old(stages)) ==> outcome.Fine?
      ensures outcome.Fine? ==> fs.Quiet(old(fs.calls), fs.calls)
    {
      hide Consistent, NamesDistinct, AllUndoable, StagingOutside;
      outcome := MoveBackups(base, dirs);
      StagingReadyForAll(base, dirs, old(stages), stages);
      if !outcome.Fine? { return; }
      outcome := Install(base, dirs);
      if !outcome.Fine? { return; }
      outcome := VerifyTargets(base, dirs);
      if !outcome.Fine? { return; }
      targetsVerified := true;
      outcome := DeleteBackups(base, dirs);
    }

    /**
     Applies the plan. Whatever calls fail and whenever the abort comes, it ends in one of three ways:
     applied, with nothing else changed; failed and unchanged, up to one half-written temporary file;
     or failed with an unknown state, and then no preimage is lost. The calls up to `undoFrom` apply
     the plan, those from there on undo it.
     */
    method ApplyLocked(tokens: seq<string>) returns (r: ApplyResult, ghost undoFrom: nat)
      requires fs.Valid() && FreshTokens(plan, tokens)
      requires createdDirectories == [] && !targetsVerified
      modifies this, fs
      ensures r.Applied? ==> fs.tree == Patched(old(fs.tree), plan)
      ensures r.Failed? && r.error.state.Unchanged? ==> UpToOneTemp(fs.tree, old(fs.tree), CreateStages(plan, tokens))
      ensures r.Failed? && r.error.state.Unchanged? && OriginalTargets(old(fs.tree), plan) ==>
        OriginalTargets(fs.tree, plan)
      ensures r.Failed? && r.error.state.Unknown? && !targetsVerified ==> PreimagesKept(fs.tree, stages)
      ensures r.Failed? && r.error.state.Unknown? && targetsVerified ==>
        AllVerified(fs.tree, old(fs.tree), plan, stages)
      // An abort that is set at the start stops everything, and so does a plan that does not fit.
      ensures aborted(old(fs.calls)) ==> r == Failed(CANCELLED) && fs.tree == old(fs.tree)
      ensures !aborted(old(fs.calls)) && !Current(old(fs.tree), plan, {}) ==>
        r == Failed(STALE) && fs.tree == old(fs.tree)
      // Without failing calls, an abort is all that stops a plan that fits, and then nothing has changed.
      ensures (&& fs.Quiet(old(fs.calls), fs.calls) && Closed(old(fs.tree))
               && Ready(old(fs.tree), plan, CreateStages(plan, tokens))) ==>
        r.Applied? || (r == Failed(CANCELLED) && fs.tree == old(fs.tree))
      // Once the abort is set, no directory is made and no file is opened. Nothing is moved or linked before the
      // commit, which comes after all of these and at which the abort is not set.
      ensures createdBefore == old(|fs.created|) && movesBefore == old(|fs.moved|)
      ensures old(fs.calls) <= commit <= fs.calls
      ensures Heeded() && Committed()
      ensures r.Applied? || fs.moved != old(fs.moved) ==> IsCommit()
      // From `undoFrom` on nothing is made, written or linked, and what stopped the apply had happened by then.
      ensures old(fs.calls) <= undoFrom <= fs.calls && fs.built <= undoFrom
      ensures r.Failed? ==>
        !(Undisturbed(old(fs.calls), undoFrom) && Ready(old(fs.tree), plan, CreateStages(plan, tokens)))
      // Before verification the state is unknown only when a call of the rollback failed, too, or the rollback
      // cannot remove a new directory because of a half-written file in it.
      ensures r.Failed? && r.error.state.Unknown? && !targetsVerified && Closed(old(fs.tree)) ==>
        || !fs.Quiet(undoFrom, fs.calls) || StrayInNewDirectory(fs.tree, old(fs.tree), stages)
      // Without a fault or an abort, a plan that fits the workspace is applied.
      ensures (&& Undisturbed(old(fs.calls), fs.calls)
               && Ready(old(fs.tree), plan, CreateStages(plan, tokens))) ==> r.Applied?
      // It is applied only when no call has failed.
      ensures r.Applied? ==> fs.Quiet(old(fs.calls), fs.calls)
    {
      hide Consistent, NamesDistinct, AllUndoable, StagingOutside, Ready, OriginalTargets, MissingDirectories, Patched,
        AllVerified, StrayInNewDirectory, Closed, Heeded, Committed, IsCommit, PreimagesKept, UpToOneTemp, Current,
        Undisturbed, FileSystem.Quiet, AllUntouched, StagesOf, CreateStages;
      ghost var t0, start := fs.tree, fs.calls;
      ReadyIsCurrent(t0, plan, CreateStages(plan, tokens));
      Begin();
      var outcome := Revalidate({});
      undoFrom := fs.calls;
      ghost var checked := fs.calls;
      Within(start, checked, checked);
      OneTempIsUpTo(t0, t0, CreateStages(plan, tokens));
      if outcome.Threw? { r := Failed(outcome.error); return; }
      stages := CreateStages(plan, tokens);
      FreshStages(plan, tokens);
      NewStages(plan, tokens);
      r, undoFrom := ApplyStages(t0);
      Within(start, checked, undoFrom);
      Within(start, checked, fs.calls);
      Within(start, undoFrom, fs.calls);
    }

    /** The part of the apply whose failures are undone. */
    method ApplyStages(ghost t0: Tree) returns (r: ApplyResult, ghost undoFrom: nat)
      requires fs.Valid() && Heeded() && Committed() && |fs.moved| == movesBefore && commit <= fs.calls
      requires fs.tree == t0 && createdDirectories == [] && !targetsVerified
      requires StagesOf(stages, plan) && NamesDistinct(stages) && AllUntouched(stages)
      requires StagingOutside(MissingDirectories(plan), stages) && OriginalTargets(t0, plan)
      modifies this`stages, this`createdDirectories, this`targetsVerified, this`commit, fs
      ensures r.Applied? ==> fs.tree == Patched(t0, plan)
      ensures r.Failed? && r.error.state.Unchanged? ==>
        UpToOneTemp(fs.tree, t0, old(stages)) && OriginalTargets(fs.tree, plan)
      ensures r.Failed? && r.error.state.Unknown? && !targetsVerified ==> PreimagesKept(fs.tree, stages)
      ensures r.Failed? && r.error.state.Unknown? && targetsVerified ==> AllVerified(fs.tree, t0, plan, stages)
      ensures fs.Quiet(old(fs.calls), fs.calls) && Closed(t0) && Ready(t0, plan, old(stages)) ==>
        r.Applied? || (r == Failed(CANCELLED) && fs.tree == t0)
      ensures Heeded() && Committed() && old(commit) <= commit <= fs.calls
      ensures r.Applied? || fs.moved != old(fs.moved) ==> IsCommit()
      ensures old(fs.calls) <= undoFrom <= fs.calls && fs.built <= undoFrom
      ensures r.Failed? ==> !(Undisturbed(old(fs.calls), undoFrom) && Ready(t0, plan, old(stages)))
      ensures r.Failed? && r.error.state.Unknown? && !targetsVerified && Closed(t0) ==>
        !fs.Quiet(undoFrom, fs.calls) || StrayInNewDirectory(fs.tree, t0, stages)
      ensures r.Applied? ==> fs.Quiet(old(fs.calls), fs.calls)
    {
      hide Consistent, NamesDistinct, AllUndoable, StagingOutside, Ready, OriginalTargets, MissingDirectories, Patched,
        AllVerified, ShorterFirst, Distinct, StrayInNewDirectory, Closed, Heeded, Committed, IsCommit, PreimagesKept,
        UpToOneTemp, Undisturbed, FileSystem.Quiet;
      ghost var start, before := fs.calls, stages;
      var outcome;
      ghost var base;
      outcome, base := TryApply(t0);
      undoFrom := fs.calls;
      Within(start, undoFrom, undoFrom);
      if outcome.Fine? {
        AllApplied(fs.tree, t0, plan, stages);
        r := Applied;
        return;
      }
      if targetsVerified {
        VerifiedTargets(fs.tree, t0, plan, stages);
        r := Failed(AMBIGUOUS);
        return;
      }
      PrefixSorted(createdDirectories, UniqueMissingDirectories(plan));
      r := Recover(t0, base, outcome);
      if r.error.state.Unchanged? { UpToOneTempSame(fs.tree, t0, before, stages); }
      Within(start, undoFrom, fs.calls);
    }

    /** The handler of a failure before verification. */
    method Recover(ghost t0: Tree, ghost base: Tree, outcome: Outcome) returns (r: ApplyResult)
      requires Valid(base, Elements(createdDirectories)) && !outcome.Fine?
      requires ShorterFirst(createdDirectories) && Distinct(createdDirectories)
      requires OriginalTargets(t0, plan)
      requires base == t0 || exists i :: 0 <= i < |stages| && OneTempMore(t0, base, stages, i)
      modifies this`stages, fs`tree, fs`calls, fs`moved
      ensures fs.moved == old(fs.moved) || movesBefore < old(|fs.moved|)
      ensures old(fs.calls) <= fs.calls && SameStages(old(stages), stages)
      ensures r.Failed? && fs.Valid() && Committed() && Heeded() && commit <= fs.calls
      ensures r.error.state.Unchanged? ==> UpToOneTemp(fs.tree, t0, stages) && OriginalTargets(fs.tree, plan)
      ensures r.error.state.Unknown? ==> PreimagesKept(fs.tree, stages)
      ensures fs.Quiet(old(fs.calls), fs.calls) && Closed(t0) && base == t0 && StaysKnown(outcome) ==>
        && fs.tree == t0
        && r.error == if outcome.Threw? then outcome.error else PatchError("patch_apply_failed", Unchanged)
      ensures fs.Quiet(old(fs.calls), fs.calls) && Closed(t0) && StaysKnown(outcome) ==>
        r.error.state.Unchanged? || StrayInNewDirectory(fs.tree, t0, stages)
    {
      hide StrayInNewDirectory, Closed;
      var restored;
      ghost var left;
      OneTempKeepsTargets(t0, base, plan, stages);
      OneTempIsUpTo(t0, base, stages);
      ghost var before := stages;
      restored, left := Rollback(base);
      Conserved(fs.tree, base, left, plan, stages);
      if !restored {
        NotClosed(fs.tree, t0, base, left, before, stages);
        return Failed(AMBIGUOUS);
      }
      UpToOneTempSame(base, t0, stages, before);
      if outcome.Threw? {
        return Failed(if outcome.error.state.Unknown? then AMBIGUOUS else outcome.error);
      }
      return Failed(PatchError("patch_apply_failed", Unchanged));
    }
  }

  // ---------- one stage at a time ----------

  ghost predicate Prepared(s: ApplyStage) {
    s.tempWritten && !s.backupMoved && !s.installed
  }

  ghost predicate BackedUp(s: ApplyStage) {
    s.tempWritten && !s.installed && s.backupMoved == s.change.kind.Modify?
  }

  /** Every staging name is free, and every target has its parent directory. */
  ghost predicate StagingReady(base: Tree, dirs: set<Path>, stages: seq<ApplyStage>) {
    forall i :: 0 <= i < |stages| ==>
      && stages[i].tempPath !in base && stages[i].backupPath !in base
      && stages[i].change.target != [] && stages[i].change.target !in dirs
      && Parent(stages[i].tempPath) == Parent(stages[i].backupPath) == Parent(stages[i].change.target)
      && stages[i].tempPath != [] && stages[i].backupPath != []
      && (Parent(stages[i].change.target) in dirs || (ParentIsDirectory(base, stages[i].change.target)
                                                      && Parent(stages[i].change.target) !in AllNames(stages)))
  }

  lemma Slots(tree: Tree, base: Tree, dirs: set<Path>, stages: seq<ApplyStage>, i: nat)
    requires Consistent(tree, base, dirs, stages) && i < |stages|
    ensures SlotsAgree(tree, base, dirs, stages[i])
  {
  }

  lemma ParentExists(tree: Tree, base: Tree, dirs: set<Path>, stages: seq<ApplyStage>, i: nat)
    requires i < |stages| && Consistent(tree, base, dirs, stages) && StagingReady(base, dirs, stages)
    ensures ParentIsDirectory(tree, stages[i].tempPath)
    ensures ParentIsDirectory(tree, stages[i].backupPath)
    ensures ParentIsDirectory(tree, stages[i].change.target)
  {
  }

  lemma StagingReadyForAll(base: Tree, dirs: set<Path>, stages: seq<ApplyStage>, stages': seq<ApplyStage>)
    requires SameStages(stages, stages')
    ensures StagingReady(base, dirs, stages) ==> StagingReady(base, dirs, stages')
  {
    assert AllNames(stages) == AllNames(stages') by {
      assert forall i :: 0 <= i < |stages| ==> Names(stages'[i]) == Names(stages[i]);
    }
    assert forall i :: 0 <= i < |stages| ==> SameNames(stages[i], stages'[i]);
  }

  lemma CanStage(tree: Tree, base: Tree, dirs: set<Path>, stages: seq<ApplyStage>, i: nat)
    requires i < |stages| && Consistent(tree, base, dirs, stages) && !stages[i].tempWritten
    ensures StagingReady(base, dirs, stages) ==>
      stages[i].tempPath !in tree && ParentIsDirectory(tree, stages[i].tempPath)
  {
    assert SlotsAgree(tree, base, dirs, stages[i]);
    if StagingReady(base, dirs, stages) { ParentExists(tree, base, dirs, stages, i); }
  }

  lemma BackupSlots(tree: Tree, base: Tree, dirs: set<Path>, plan: Plan, stages: seq<ApplyStage>, i: nat)
    requires i < |stages| && Consistent(tree, base, dirs, stages) && StagesOf(stages, plan)
    requires OriginalTargets(base, plan) && Prepared(stages[i]) && stages[i].change.kind.Modify?
    ensures Holds(tree, stages[i].change.target, stages[i].change.preimage)
    ensures StagingReady(base, dirs, stages) ==>
      stages[i].backupPath !in tree && ParentIsDirectory(tree, stages[i].backupPath)
  {
    assert SlotsAgree(tree, base, dirs, stages[i]);
    assert Holds(base, plan[i].target, plan[i].preimage);
    if StagingReady(base, dirs, stages) { ParentExists(tree, base, dirs, stages, i); }
  }

  lemma BackupMoved(tree: Tree, base: Tree, dirs: set<Path>, plan: Plan, stages: seq<ApplyStage>, i: nat)
    requires i < |stages| && NamesDistinct(stages) && StagingOutside(dirs, stages)
    requires Consistent(tree, base, dirs, stages) && AllUndoable(base, stages) && StagesOf(stages, plan)
    requires OriginalTargets(base, plan) && Prepared(stages[i]) && stages[i].change.kind.Modify?
    requires stages[i].backupPath !in tree
    ensures Holds(tree, stages[i].change.target, stages[i].change.preimage)
    ensures
      var s := stages[i].(backupMoved := true);
      var tree' := (tree - {s.change.target})[s.backupPath := tree[s.change.target]];
      Consistent(tree', base, dirs, stages[i := s]) && NamesDistinct(stages[i := s])
        && AllUndoable(base, stages[i := s])
  {
    BackupSlots(tree, base, dirs, plan, stages, i);
    var s := stages[i].(backupMoved := true);
    assert SlotsAgree(tree, base, dirs, stages[i]);
    assert s.change.target in Names(stages[i]) && s.backupPath in Names(stages[i]);
    assert Holds(base, plan[i].target, plan[i].preimage);
    UpdateStage(tree, (tree - {s.change.target})[s.backupPath := tree[s.change.target]], base, dirs, stages, i, s);
  }

  lemma LinkSlots(tree: Tree, base: Tree, dirs: set<Path>, plan: Plan, stages: seq<ApplyStage>, i: nat)
    requires i < |stages| && Consistent(tree, base, dirs, stages) && StagesOf(stages, plan)
    requires OriginalTargets(base, plan) && BackedUp(stages[i])
    ensures Holds(tree, stages[i].tempPath, stages[i].change.postimage)
    ensures StagingReady(base, dirs, stages) ==>
      stages[i].change.target !in tree && ParentIsDirectory(tree, stages[i].change.target)
  {
    assert SlotsAgree(tree, base, dirs, stages[i]);
    if StagingReady(base, dirs, stages) { ParentExists(tree, base, dirs, stages, i); }
    if stages[i].change.kind.Create? { assert plan[i].target !in base; }
  }

  lemma Linked(tree: Tree, base: Tree, dirs: set<Path>, plan: Plan, stages: seq<ApplyStage>, i: nat)
    requires i < |stages| && NamesDistinct(stages) && StagingOutside(dirs, stages)
    requires Consistent(tree, base, dirs, stages) && AllUndoable(base, stages) && StagesOf(stages, plan)
    requires OriginalTargets(base, plan) && BackedUp(stages[i]) && stages[i].change.target !in tree
    requires stages[i].tempPath in tree
    ensures
      var s := stages[i].(installed := true);
      var tree' := tree[s.change.target := tree[s.tempPath]];
      Consistent(tree', base, dirs, stages[i := s]) && NamesDistinct(stages[i := s])
        && AllUndoable(base, stages[i := s])
  {
    var s := stages[i].(installed := true);
    assert SlotsAgree(tree, base, dirs, stages[i]);
    assert s.change.target in Names(stages[i]);
    if s.change.kind.Create? { assert plan[i].target !in base; }
    UpdateStage(tree, tree[s.change.target := tree[s.tempPath]], base, dirs, stages, i, s);
  }

  lemma TempRemoved(tree: Tree, base: Tree, dirs: set<Path>, stages: seq<ApplyStage>, i: nat)
    requires i < |stages| && NamesDistinct(stages) && StagingOutside(dirs, stages)
    requires Consistent(tree, base, dirs, stages) && AllUndoable(base, stages) && stages[i].tempWritten
    ensures
      var s := stages[i].(tempWritten := false);
      var tree' := tree - {s.tempPath};
      Consistent(tree', base, dirs, stages[i := s]) && NamesDistinct(stages[i := s])
        && AllUndoable(base, stages[i := s])
  {
    var s := stages[i].(tempWritten := false);
    assert SlotsAgree(tree, base, dirs, stages[i]) && Undoable(base, stages[i]);
    assert s.tempPath in Names(stages[i]);
    UpdateStage(tree, tree - {s.tempPath}, base, dirs, stages, i, s);
  }

  lemma BackupDeleted(tree: Tree, base: Tree, dirs: set<Path>, stages: seq<ApplyStage>, i: nat)
    requires i < |stages| && NamesDistinct(stages) && StagingOutside(dirs, stages)
    requires Consistent(tree, base, dirs, stages) && stages[i].backupMoved && stages[i].installed
    ensures
      var s := stages[i].(backupMoved := false);
      Consistent(tree - {s.backupPath}, base, dirs, stages[i := s]) && NamesDistinct(stages[i := s])
  {
    var s := stages[i].(backupMoved := false);
    assert SlotsAgree(tree, base, dirs, stages[i]);
    assert s.backupPath in Names(stages[i]);
    UpdateStage(tree, tree - {s.backupPath}, base, dirs, stages, i, s);
  }

  /** The trees agree, or the second has one temporary file more. */
  ghost predicate OneTempMore(base: Tree, base': Tree, stages: seq<ApplyStage>, i: nat)
    requires i < |stages|
  {
    base' == base || (stages[i].tempPath !in base && exists data :: base' == base[stages[i].tempPath := File(data)])
  }

  lemma TempWritten(tree: Tree, base: Tree, dirs: set<Path>, stages: seq<ApplyStage>, i: nat)
    requires i < |stages| && NamesDistinct(stages) && StagingOutside(dirs, stages)
    requires Consistent(tree, base, dirs, stages) && AllUndoable(base, stages)
    requires !stages[i].tempWritten && stages[i].tempPath !in tree
    ensures
      var s := stages[i].(tempWritten := true);
      var tree' := tree[s.tempPath := File(s.change.postimage)];
      Consistent(tree', base, dirs, stages[i := s]) && NamesDistinct(stages[i := s])
        && AllUndoable(base, stages[i := s])
  {
    var s := stages[i].(tempWritten := true);
    assert SlotsAgree(tree, base, dirs, stages[i]) && Undoable(base, stages[i]);
    assert s.tempPath in Names(stages[i]);
    UpdateStage(tree, tree[s.tempPath := File(s.change.postimage)], base, dirs, stages, i, s);
  }

  lemma NoDirectories(t0: Tree)
    ensures t0 == WithDirectories(t0, Elements([]))
  {
  }

  lemma OneMoreDirectory(t0: Tree, ds: seq<Path>, k: nat)
    requires k < |ds|
    ensures ds[..k] + [ds[k]] == ds[..k + 1]
    ensures WithDirectories(t0, Elements(ds[..k]))[ds[k] := Directory] == WithDirectories(t0, Elements(ds[..k + 1]))
    ensures ds[k] !in t0 || ds[k] in WithDirectories(t0, Elements(ds[..k]))
  {
  }

  /** The parent of a planned directory exists when its turn comes. */
  lemma CanMakeDirectory(t0: Tree, plan: Plan, stages: seq<ApplyStage>, k: nat)
    requires k < |UniqueMissingDirectories(plan)|
    ensures
      var ds := UniqueMissingDirectories(plan);
      var t := WithDirectories(t0, Elements(ds[..k]));
      Ready(t0, plan, stages) ==> ds[k] !in t && ParentIsDirectory(t, ds[k])
  {
    var ds := UniqueMissingDirectories(plan);
    if Ready(t0, plan, stages) {
      assert ds[k] in MissingDirectories(plan) by { assert ds[k] in ds; }
      assert ParentPlanned(t0, plan, ds[k]) && ds[k] !in t0;
      if Parent(ds[k]) in MissingDirectories(plan) {
        assert Parent(ds[k]) in ds;
        ParentComesBefore(ds, k);
      }
      assert ds[k] !in Elements(ds[..k]);
    }
  }

  lemma ParentComesBefore(ds: seq<Path>, k: nat)
    requires k < |ds| && ShorterFirst(ds) && ds[k] != [] && Parent(ds[k]) in ds
    ensures Parent(ds[k]) in Elements(ds[..k])
  {
  }

  // ---------- undoing one stage ----------

  lemma TargetRemoved(tree: Tree, base: Tree, dirs: set<Path>, stages: seq<ApplyStage>, i: nat)
    requires i < |stages| && NamesDistinct(stages) && StagingOutside(dirs, stages)
    requires Consistent(tree, base, dirs, stages) && AllUndoable(base, stages) && stages[i].installed
    ensures
      var s := stages[i].(installed := false);
      var tree' := tree - {s.change.target};
      Consistent(tree', base, dirs, stages[i := s]) && NamesDistinct(stages[i := s])
        && AllUndoable(base, stages[i := s])
  {
    var s := stages[i].(installed := false);
    assert SlotsAgree(tree, base, dirs, stages[i]) && Undoable(base, stages[i]);
    assert s.change.target in Names(stages[i]);
    UpdateStage(tree, tree - {s.change.target}, base, dirs, stages, i, s);
  }

  lemma BackupRestored(tree: Tree, base: Tree, dirs: set<Path>, stages: seq<ApplyStage>, i: nat)
    requires i < |stages| && NamesDistinct(stages) && StagingOutside(dirs, stages)
    requires Consistent(tree, base, dirs, stages) && AllUndoable(base, stages)
    requires stages[i].backupMoved && !stages[i].installed
    ensures stages[i].backupPath in tree
    ensures
      var s := stages[i].(backupMoved := false);
      var tree' := (tree - {s.backupPath})[s.change.target := tree[s.backupPath]];
      Consistent(tree', base, dirs, stages[i := s]) && NamesDistinct(stages[i := s])
        && AllUndoable(base, stages[i := s])
  {
    var s := stages[i].(backupMoved := false);
    assert SlotsAgree(tree, base, dirs, stages[i]);
    assert s.change.target in Names(stages[i]) && s.backupPath in Names(stages[i]);
    UpdateStage(tree, (tree - {s.backupPath})[s.change.target := tree[s.backupPath]], base, dirs, stages, i, s);
  }

  /** A directory of the original tree is never one of the changed names. */
  lemma DirectoryStays(tree: Tree, base: Tree, dirs: set<Path>, stages: seq<ApplyStage>, p: Path)
    requires Consistent(tree, base, dirs, stages) && AllUndoable(base, stages)
    requires p in base && base[p] == Directory
    ensures p in tree && tree[p] == Directory
  {
    if p in AllNames(stages) {
      var i :| 0 <= i < |stages| && p in Names(stages[i]);
      assert SlotsAgree(tree, base, dirs, stages[i]) && Undoable(base, stages[i]);
    } else {
      assert Same(tree, base, p);
    }
  }

  lemma RestoreSlots(tree: Tree, base: Tree, dirs: set<Path>, plan: Plan, stages: seq<ApplyStage>, i: nat)
    requires i < |stages| && Consistent(tree, base, dirs, stages) && AllUndoable(base, stages)
    requires stages[i].backupMoved && !stages[i].installed
    ensures Holds(tree, stages[i].backupPath, stages[i].change.preimage) && stages[i].change.target !in tree
    ensures Closed(base) ==> ParentIsDirectory(tree, stages[i].change.target)
  {
    assert SlotsAgree(tree, base, dirs, stages[i]);
    if Closed(base) {
      assert ParentIsDirectory(base, stages[i].change.target);
      DirectoryStays(tree, base, dirs, stages, Parent(stages[i].change.target));
    }
  }

  lemma WithoutLast(ds: seq<Path>, k: nat)
    requires k < |ds| && Distinct(ds)
    ensures Elements(ds[..k]) == Elements(ds[..k + 1]) - {ds[k]}
  {
  }

  lemma RemovableLast(tree: Tree, base: Tree, ds: seq<Path>, k: nat, left: set<Path>, stages: seq<ApplyStage>)
    requires k < |ds| && ShorterFirst(ds) && Distinct(ds)
    requires Consistent(tree, base, left, stages) && Elements(ds[..k + 1]) <= left
    ensures ds[k] in left
    ensures Closed(base) && AllUntouched(stages) && left == Elements(ds[..k + 1]) ==> IsEmptyDirectory(tree, ds[k])
  {
    assert ds[k] in ds[..k + 1];
    if Closed(base) && AllUntouched(stages) && left == Elements(ds[..k + 1]) {
      AllUndone(tree, base, left, stages);
      forall d | d in ds[..k + 1] ensures d !in base { assert d in left; }
      LastIsEmpty(base, ds[..k + 1], k);
      assert ds[..k + 1][..k + 1] == ds[..k + 1];
    }
  }

  // ---------- the whole apply ----------

  lemma AfterDirectories(t0: Tree, plan: Plan, stages: seq<ApplyStage>, created: seq<Path>)
    requires created <= UniqueMissingDirectories(plan) && forall d :: d in created ==> d !in t0
    requires AllUntouched(stages) && StagingOutside(MissingDirectories(plan), stages)
    ensures StagingOutside(Elements(created), stages)
    ensures Consistent(WithDirectories(t0, Elements(created)), t0, Elements(created), stages) && AllUndoable(t0, stages)
    ensures created == UniqueMissingDirectories(plan) ==> Elements(created) == MissingDirectories(plan)
  {
    assert forall d :: d in created ==> d in UniqueMissingDirectories(plan);
    DirectoriesOnly(t0, Elements(created), stages);
  }

  lemma PrefixSorted(ds: seq<Path>, es: seq<Path>)
    requires ds <= es && ShorterFirst(es) && Distinct(es)
    ensures ShorterFirst(ds) && Distinct(ds)
  {
  }

  lemma NewStages(plan: Plan, tokens: seq<string>)
    requires |tokens| == |plan|
    ensures StagesOf(CreateStages(plan, tokens), plan) && AllUntouched(CreateStages(plan, tokens))
  {
  }

  /** Before anything is moved, a tree that was ready still fits the plan. */
  lemma ReadyToStage(tree: Tree, t0: Tree, plan: Plan, stages: seq<ApplyStage>, start: seq<ApplyStage>)
    requires SameStages(start, stages) && StagesOf(stages, plan)
    requires Consistent(tree, t0, MissingDirectories(plan), stages) && AllUndoable(t0, stages)
    requires forall i :: 0 <= i < |stages| ==> !stages[i].installed && !stages[i].backupMoved
    ensures Ready(t0, plan, start) ==>
      Current(tree, plan, MissingDirectories(plan)) && StagingReady(t0, MissingDirectories(plan), stages)
  {
    if Ready(t0, plan, start) {
      var dirs := MissingDirectories(plan);
      forall i | 0 <= i < |plan|
        ensures plan[i].ancestor in tree && tree[plan[i].ancestor] == Directory
        ensures if plan[i].kind.Modify? then Holds(tree, plan[i].target, plan[i].preimage) else plan[i].target !in tree
      {
        DirectoryStays(tree, t0, dirs, stages, plan[i].ancestor);
        assert SlotsAgree(tree, t0, dirs, stages[i]);
      }
      StagingReadyFrom(t0, plan, start);
      StagingReadyForAll(t0, dirs, start, stages);
    }
  }

  lemma ReadyIsCurrent(t: Tree, plan: Plan, stages: seq<ApplyStage>)
    ensures Ready(t, plan, stages) ==> Current(t, plan, {})
    ensures Current(t, plan, {}) ==> OriginalTargets(t, plan)
  {
  }

  lemma StagingReadyFrom(t0: Tree, plan: Plan, stages: seq<ApplyStage>)
    requires Ready(t0, plan, stages) && StagesOf(stages, plan)
    ensures StagingReady(t0, MissingDirectories(plan), stages)
  {
    forall i | 0 <= i < |stages| && Parent(plan[i].target) !in MissingDirectories(plan)
      ensures Parent(plan[i].target) !in AllNames(stages)
    {
      assert ParentPlanned(t0, plan, plan[i].target);
      forall j | 0 <= j < |stages| ensures Parent(plan[i].target) !in Names(stages[j]) {
        assert stages[j].change == plan[j];
      }
    }
    forall i | 0 <= i < |stages| ensures ParentPlanned(t0, plan, plan[i].target) && stages[i].change == plan[i] { }
  }

  lemma OneTempKeepsTargets(t0: Tree, base: Tree, plan: Plan, stages: seq<ApplyStage>)
    requires StagesOf(stages, plan) && NamesDistinct(stages) && OriginalTargets(t0, plan)
    requires base == t0 || exists i :: 0 <= i < |stages| && OneTempMore(t0, base, stages, i)
    ensures OriginalTargets(base, plan)
  {
  }

  /** A half-written file spoils a closed tree only when its directory is new. */
  lemma NotClosed(tree: Tree, t0: Tree, base: Tree, left: set<Path>, before: seq<ApplyStage>, stages: seq<ApplyStage>)
    requires base == t0 || exists i :: 0 <= i < |before| && OneTempMore(t0, base, before, i)
    requires Consistent(tree, base, left, stages) && SameStages(before, stages)
    ensures Closed(t0) ==> Closed(base) || StrayInNewDirectory(tree, t0, stages)
  {
    if Closed(t0) && base != t0 {
      var i :| 0 <= i < |before| && OneTempMore(t0, base, before, i);
      var p := stages[i].tempPath;
      assert SameNames(before[i], stages[i]) && SlotsAgree(tree, base, left, stages[i]);
      if ParentIsDirectory(t0, p) {
        forall q | q in base ensures if q == [] then base[q] == Directory else ParentIsDirectory(base, q) {
          if q != p { assert q in t0; }
        }
      } else {
        assert IsStray(tree, t0, p);
      }
    }
  }

  lemma OneTempIsUpTo(t0: Tree, base: Tree, stages: seq<ApplyStage>)
    requires base == t0 || exists i :: 0 <= i < |stages| && OneTempMore(t0, base, stages, i)
    ensures UpToOneTemp(base, t0, stages)
  {
  }

  lemma UpToOneTempSame(tree: Tree, t0: Tree, stages: seq<ApplyStage>, stages': seq<ApplyStage>)
    requires SameStages(stages, stages') && UpToOneTemp(tree, t0, stages')
    ensures UpToOneTemp(tree, t0, stages)
  {
  }

  /** All targets hold their postimages; each backup is gone or still holds the preimage. */
  ghost predicate AllVerified(tree: Tree, t0: Tree, plan: Plan, stages: seq<ApplyStage>) {
    && |stages| == |plan|
    && forall i :: 0 <= i < |plan| ==>
         && Holds(tree, plan[i].target, plan[i].postimage)
         && (if stages[i].backupMoved then Holds(tree, stages[i].backupPath, plan[i].preimage)
             else Same(tree, t0, stages[i].backupPath))
  }

  lemma VerifiedTargets(tree: Tree, t0: Tree, plan: Plan, stages: seq<ApplyStage>)
    requires StagesOf(stages, plan) && Consistent(tree, t0, MissingDirectories(plan), stages) && AllInstalled(stages)
    ensures AllVerified(tree, t0, plan, stages)
  {
    forall i | 0 <= i < |plan|
      ensures Holds(tree, plan[i].target, plan[i].postimage)
      ensures if stages[i].backupMoved then Holds(tree, stages[i].backupPath, plan[i].preimage)
              else Same(tree, t0, stages[i].backupPath)
    {
      assert SlotsAgree(tree, t0, MissingDirectories(plan), stages[i]);
    }
  }
}
