/**
 Plans, stages and the invariant that ties the stage flags to the file tree.
 */
module PatchStages {
  import opened FileSystems

  datatype Kind = Create | Modify

  datatype PlannedFile = PlannedFile(
    target: Path,
    kind: Kind,
    preimage: Bytes,
    postimage: Bytes,
    ancestor: Path,
    missing: seq<Path>)

  datatype ApplyStage = ApplyStage(
    change: PlannedFile,
    tempPath: Path,
    backupPath: Path,
    tempWritten: bool,
    backupMoved: bool,
    installed: bool)

  /** The state that the error reports for the workspace. */
  datatype MutationState = Unchanged | Unknown

  datatype PatchError = PatchError(code: string, state: MutationState)

  type Plan = seq<PlannedFile>

  // ---------- directories to create ----------

  function RenderedLength(p: Path): nat {
    if p == [] then 0 else RenderedLength(Parent(p)) + |p[|p| - 1]| + 1
  }

  predicate ShorterFirst(ds: seq<Path>) {
    forall i, j :: 0 <= i < j < |ds| ==> RenderedLength(ds[i]) <= RenderedLength(ds[j])
  }

  predicate Distinct<T(==)>(xs: seq<T>) {
    forall i, j :: 0 <= i < j < |xs| ==> xs[i] != xs[j]
  }

  ghost function Elements<T>(xs: seq<T>): set<T> {
    set x | x in xs
  }

  function Insert(p: Path, ds: seq<Path>): (r: seq<Path>)
    requires ShorterFirst(ds) && Distinct(ds) && p !in ds
    ensures ShorterFirst(r) && Distinct(r)
    ensures forall d :: d in r <==> d == p || d in ds
  {
    if ds == [] || RenderedLength(p) < RenderedLength(ds[0]) then
      [p] + ds
    else
      var rest := Insert(p, ds[1..]);
      Prepend(ds[0], rest);
      [ds[0]] + rest
  }

  lemma Prepend(d: Path, rest: seq<Path>)
    requires ShorterFirst(rest) && Distinct(rest)
    requires forall e :: e in rest ==> e != d && RenderedLength(d) <= RenderedLength(e)
    ensures ShorterFirst([d] + rest) && Distinct([d] + rest)
  {
    assert forall j :: 0 <= j < |rest| ==> rest[j] in rest;
  }

  function InsertAll(ps: seq<Path>, ds: seq<Path>): (r: seq<Path>)
    requires ShorterFirst(ds) && Distinct(ds)
    ensures ShorterFirst(r) && Distinct(r)
    ensures forall d :: d in r <==> d in ps || d in ds
  {
    if ps == [] then ds
    else InsertAll(ps[1..], if ps[0] in ds then ds else Insert(ps[0], ds))
  }

  ghost function MissingDirectories(plan: Plan): set<Path> {
    set i, d | 0 <= i < |plan| && d in plan[i].missing :: d
  }

  /** The directories of a plan without repetition, shorter paths (hence parents) first. */
  function UniqueMissingDirectories(plan: Plan): (r: seq<Path>)
    ensures ShorterFirst(r) && Distinct(r)
    ensures forall d :: d in r <==> exists i :: 0 <= i < |plan| && d in plan[i].missing
  {
    if plan == [] then []
    else
      assert forall d, i :: 0 < i < |plan| && d in plan[i].missing ==> d in plan[1..][i - 1].missing;
      InsertAll(plan[0].missing, UniqueMissingDirectories(plan[1..]))
  }

  // ---------- stages ----------

  const BACKUP_PREFIX := ".bornagent-backup-"
  const TEMP_PREFIX := ".bornagent-apply-"

  function NewStage(change: PlannedFile, token: string): ApplyStage {
    var parent := Parent(change.target);
    ApplyStage(change, parent + [TEMP_PREFIX + token], parent + [BACKUP_PREFIX + token], false, false, false)
  }

  function CreateStages(plan: Plan, tokens: seq<string>): seq<ApplyStage>
    requires |tokens| == |plan|
  {
    seq(|plan|, i requires 0 <= i < |plan| => NewStage(plan[i], tokens[i]))
  }

  ghost predicate IsStagingName(p: Path, token: string) {
    p != [] && (p[|p| - 1] == BACKUP_PREFIX + token || p[|p| - 1] == TEMP_PREFIX + token)
  }

  /**
   What the random tokens and the planner promise: tokens are fresh, so that no planned path is a
   staging name, and targets are distinct files below the root.
   */
  ghost predicate FreshTokens(plan: Plan, tokens: seq<string>) {
    && |tokens| == |plan|
    && Distinct(tokens)
    && (forall i :: 0 <= i < |plan| ==> plan[i].target != [])
    && (forall i, j :: 0 <= i < j < |plan| ==> plan[i].target != plan[j].target)
    && (forall i, k :: 0 <= i < |plan| && 0 <= k < |tokens| ==> !IsStagingName(plan[i].target, tokens[k]))
    && (forall d, k :: d in MissingDirectories(plan) && 0 <= k < |tokens| ==> !IsStagingName(d, tokens[k]))
  }

  ghost function Names(s: ApplyStage): set<Path> {
    {s.change.target, s.tempPath, s.backupPath}
  }

  ghost function AllNames(stages: seq<ApplyStage>): set<Path> {
    set i, p | 0 <= i < |stages| && p in Names(stages[i]) :: p
  }

  ghost predicate NamesDistinct(stages: seq<ApplyStage>) {
    && (forall i :: 0 <= i < |stages| ==>
          stages[i].change.target != stages[i].tempPath && stages[i].change.target != stages[i].backupPath
          && stages[i].tempPath != stages[i].backupPath)
    && (forall i, j :: 0 <= i < |stages| && 0 <= j < |stages| && i != j ==> Names(stages[i]) !! Names(stages[j]))
  }

  ghost predicate StagingOutside(dirs: set<Path>, stages: seq<ApplyStage>) {
    forall i :: 0 <= i < |stages| ==> stages[i].tempPath !in dirs && stages[i].backupPath !in dirs
  }

  lemma FreshStages(plan: Plan, tokens: seq<string>)
    requires FreshTokens(plan, tokens)
    ensures NamesDistinct(CreateStages(plan, tokens))
    ensures StagingOutside(MissingDirectories(plan), CreateStages(plan, tokens))
  {
    var stages := CreateStages(plan, tokens);
    forall i | 0 <= i < |stages|
      ensures IsStagingName(stages[i].tempPath, tokens[i]) && IsStagingName(stages[i].backupPath, tokens[i])
      ensures stages[i].tempPath != stages[i].backupPath
    {
      LastDiffers(tokens[i], tokens[i]);
    }
    forall i, j | 0 <= i < |stages| && 0 <= j < |stages| && i != j
      ensures Names(stages[i]) !! Names(stages[j])
    {
      LastDiffers(tokens[i], tokens[j]);
      LastDiffers(tokens[j], tokens[i]);
      assert stages[i].tempPath[|stages[i].tempPath| - 1] == TEMP_PREFIX + tokens[i];
      assert stages[j].tempPath[|stages[j].tempPath| - 1] == TEMP_PREFIX + tokens[j];
      assert stages[i].backupPath[|stages[i].backupPath| - 1] == BACKUP_PREFIX + tokens[i];
      assert stages[j].backupPath[|stages[j].backupPath| - 1] == BACKUP_PREFIX + tokens[j];
      assert !IsStagingName(stages[i].change.target, tokens[j]);
      assert !IsStagingName(stages[j].change.target, tokens[i]);
    }
  }

  lemma LastDiffers(s: string, t: string)
    ensures TEMP_PREFIX + s != BACKUP_PREFIX + t
    ensures s != t ==> TEMP_PREFIX + s != TEMP_PREFIX + t && BACKUP_PREFIX + s != BACKUP_PREFIX + t
  {
    assert (TEMP_PREFIX + s)[11] == 'a';
    assert (BACKUP_PREFIX + t)[11] == 'b';
    assert (TEMP_PREFIX + s)[|TEMP_PREFIX|..] == s;
    assert (TEMP_PREFIX + t)[|TEMP_PREFIX|..] == t;
    assert (BACKUP_PREFIX + s)[|BACKUP_PREFIX|..] == s;
    assert (BACKUP_PREFIX + t)[|BACKUP_PREFIX|..] == t;
  }

  // ---------- the flags describe the tree ----------

  /** What the flags of one stage say about its three names; `base` is the tree without this apply. */
  ghost predicate SlotsAgree(tree: Tree, base: Tree, dirs: set<Path>, s: ApplyStage) {
    && (if s.installed then Holds(tree, s.change.target, s.change.postimage)
        else if s.backupMoved then s.change.target !in tree
        else s.change.target in dirs || Same(tree, base, s.change.target))
    && (if s.tempWritten then Holds(tree, s.tempPath, s.change.postimage) && s.tempPath !in base
        else Same(tree, base, s.tempPath))
    && (if s.backupMoved then Holds(tree, s.backupPath, s.change.preimage) && s.backupPath !in base
        else Same(tree, base, s.backupPath))
    && (s.backupMoved ==> s.change.kind.Modify? && Holds(base, s.change.target, s.change.preimage))
  }

  /**
   The tree is `base` plus the directories `dirs`, changed at the names of the stages exactly as
   their flags say.
   */
  ghost predicate Consistent(tree: Tree, base: Tree, dirs: set<Path>, stages: seq<ApplyStage>) {
    && (forall i :: 0 <= i < |stages| ==> SlotsAgree(tree, base, dirs, stages[i]))
    && (forall d :: d in dirs ==> d !in base && d in tree && tree[d] == Directory)
    && (forall p :: p !in dirs && p !in AllNames(stages) ==> Same(tree, base, p))
  }

  /** An installed target can be taken away again: a created file had no predecessor, a modified one has its backup. */
  ghost predicate Undoable(base: Tree, s: ApplyStage) {
    s.installed ==> if s.change.kind.Modify? then s.backupMoved else s.change.target !in base
  }

  ghost predicate AllUndoable(base: Tree, stages: seq<ApplyStage>) {
    forall i :: 0 <= i < |stages| ==> Undoable(base, stages[i])
  }

  ghost predicate Untouched(s: ApplyStage) {
    !s.installed && !s.backupMoved && !s.tempWritten
  }

  ghost predicate AllUntouched(stages: seq<ApplyStage>) {
    forall i :: 0 <= i < |stages| ==> Untouched(stages[i])
  }

  ghost predicate SameNames(s: ApplyStage, t: ApplyStage) {
    s.change == t.change && s.tempPath == t.tempPath && s.backupPath == t.backupPath
  }

  ghost predicate SameStages(ss: seq<ApplyStage>, ts: seq<ApplyStage>) {
    |ss| == |ts| && forall i :: 0 <= i < |ss| ==> SameNames(ss[i], ts[i])
  }

  ghost function WithDirectories(base: Tree, dirs: set<Path>): Tree {
    map p | p in base.Keys + dirs :: if p in dirs then Directory else base[p]
  }

  lemma FrameSlots(tree: Tree, tree': Tree, base: Tree, dirs: set<Path>, s: ApplyStage)
    requires SlotsAgree(tree, base, dirs, s)
    requires forall p :: p in Names(s) ==> Same(tree', tree, p)
    ensures SlotsAgree(tree', base, dirs, s)
  {
    assert s.change.target in Names(s) && s.tempPath in Names(s) && s.backupPath in Names(s);
  }

  /** Changing one stage and only its own names keeps the invariant. */
  lemma UpdateStage(tree: Tree, tree': Tree, base: Tree, dirs: set<Path>, stages: seq<ApplyStage>, k: nat,
                    s: ApplyStage)
    requires k < |stages| && SameNames(s, stages[k])
    requires NamesDistinct(stages) && Consistent(tree, base, dirs, stages)
    requires forall p :: p !in Names(stages[k]) || p in dirs ==> Same(tree', tree, p)
    requires SlotsAgree(tree', base, dirs, s)
    ensures Consistent(tree', base, dirs, stages[k := s])
    ensures NamesDistinct(stages[k := s])
  {
    var stages' := stages[k := s];
    RenamedDistinct(stages, stages');
    forall i | 0 <= i < |stages'| ensures SlotsAgree(tree', base, dirs, stages'[i]) {
      if i != k { OtherStage(tree, tree', base, dirs, stages, k, i); }
    }
    forall p | p !in dirs && p !in AllNames(stages) ensures Same(tree', base, p) {
      assert p !in Names(stages[k]);
      assert Same(tree', tree, p) && Same(tree, base, p);
    }
    forall d | d in dirs ensures d in tree' && tree'[d] == Directory {
      assert Same(tree', tree, d);
    }
  }

  lemma OtherStage(tree: Tree, tree': Tree, base: Tree, dirs: set<Path>, stages: seq<ApplyStage>, k: nat, i: nat)
    requires k < |stages| && i < |stages| && i != k
    requires NamesDistinct(stages) && Consistent(tree, base, dirs, stages)
    requires forall p :: p !in Names(stages[k]) || p in dirs ==> Same(tree', tree, p)
    ensures SlotsAgree(tree', base, dirs, stages[i])
  {
    hide Same;
    assert Names(stages[i]) !! Names(stages[k]);
    assert SlotsAgree(tree, base, dirs, stages[i]);
    FrameSlots(tree, tree', base, dirs, stages[i]);
  }

  lemma RenamedDistinct(stages: seq<ApplyStage>, stages': seq<ApplyStage>)
    requires NamesDistinct(stages) && SameStages(stages, stages')
    ensures NamesDistinct(stages') && AllNames(stages') == AllNames(stages)
  {
    assert forall i :: 0 <= i < |stages| ==> Names(stages'[i]) == Names(stages[i]);
  }

  lemma Extensional(t: Tree, u: Tree)
    requires forall p :: Same(t, u, p)
    ensures t == u
  {
    forall p ensures p in t.Keys <==> p in u.Keys { assert Same(t, u, p); }
    assert t.Keys == u.Keys;
    forall p | p in t ensures t[p] == u[p] { assert Same(t, u, p); }
  }

  /** When no flag is set, nothing is left of this apply but its directories. */
  lemma AllUndone(tree: Tree, base: Tree, dirs: set<Path>, stages: seq<ApplyStage>)
    requires Consistent(tree, base, dirs, stages) && AllUntouched(stages)
    ensures tree == WithDirectories(base, dirs)
  {
    forall p
      ensures Same(tree, WithDirectories(base, dirs), p)
    {
      if p !in dirs && p in AllNames(stages) {
        var i :| 0 <= i < |stages| && p in Names(stages[i]);
        assert SlotsAgree(tree, base, dirs, stages[i]) && Untouched(stages[i]);
      }
    }
    Extensional(tree, WithDirectories(base, dirs));
  }

  // ---------- what success means ----------

  ghost function PostimageOf(plan: Plan, p: Path): Bytes
    requires exists i :: 0 <= i < |plan| && plan[i].target == p
  {
    var i :| 0 <= i < |plan| && plan[i].target == p;
    plan[i].postimage
  }

  ghost function Targets(plan: Plan): set<Path> {
    set i | 0 <= i < |plan| :: plan[i].target
  }

  /** The tree with every target set to its postimage, plus the planned directories. */
  ghost function Patched(base: Tree, plan: Plan): Tree {
    map p | p in base.Keys + Targets(plan) + MissingDirectories(plan) ::
      if p in Targets(plan) then File(PostimageOf(plan, p))
      else if p in MissingDirectories(plan) then Directory
      else base[p]
  }

  ghost predicate AllInstalled(stages: seq<ApplyStage>) {
    forall i :: 0 <= i < |stages| ==> stages[i].installed && !stages[i].tempWritten
  }

  ghost predicate NoBackups(stages: seq<ApplyStage>) {
    forall i :: 0 <= i < |stages| ==> !stages[i].backupMoved
  }

  ghost predicate StagesOf(stages: seq<ApplyStage>, plan: Plan) {
    |stages| == |plan| && forall i :: 0 <= i < |plan| ==> stages[i].change == plan[i]
  }

  lemma AllApplied(tree: Tree, base: Tree, plan: Plan, stages: seq<ApplyStage>)
    requires StagesOf(stages, plan) && NamesDistinct(stages)
    requires Consistent(tree, base, MissingDirectories(plan), stages)
    requires AllInstalled(stages) && NoBackups(stages)
    ensures tree == Patched(base, plan)
  {
    hide MissingDirectories, Consistent, NamesDistinct;
    forall p
      ensures Same(tree, Patched(base, plan), p)
    {
      if p in Targets(plan) {
        TargetApplied(tree, base, plan, stages, p);
      } else {
        OtherApplied(tree, base, plan, stages, p);
      }
    }
    Extensional(tree, Patched(base, plan));
  }

  lemma OtherApplied(tree: Tree, base: Tree, plan: Plan, stages: seq<ApplyStage>, p: Path)
    requires StagesOf(stages, plan) && p !in Targets(plan)
    requires Consistent(tree, base, MissingDirectories(plan), stages)
    requires AllInstalled(stages) && NoBackups(stages)
    ensures Same(tree, WithDirectories(base, MissingDirectories(plan)), p)
  {
    hide MissingDirectories;
    if p !in MissingDirectories(plan) && p in AllNames(stages) {
      var i :| 0 <= i < |stages| && p in Names(stages[i]);
      assert SlotsAgree(tree, base, MissingDirectories(plan), stages[i]);
      assert p != plan[i].target;
    }
  }

  lemma TargetApplied(tree: Tree, base: Tree, plan: Plan, stages: seq<ApplyStage>, p: Path)
    requires StagesOf(stages, plan) && p in Targets(plan)
    requires Consistent(tree, base, MissingDirectories(plan), stages)
    requires AllInstalled(stages)
    ensures Holds(tree, p, PostimageOf(plan, p))
  {
  }

  // ---------- what failure leaves ----------

  /** The original tree, or the original tree plus one half-written temporary file. */
  ghost predicate UpToOneTemp(tree: Tree, t0: Tree, stages: seq<ApplyStage>) {
    || tree == t0
    || exists i, data {:trigger t0[stages[i].tempPath := File(data)]} ::
         0 <= i < |stages| && stages[i].tempPath !in t0 && tree == t0[stages[i].tempPath := File(data)]
  }

  /** Every file to modify still has its preimage, at its own name or at its backup. */
  ghost predicate PreimagesKept(tree: Tree, stages: seq<ApplyStage>) {
    forall i :: 0 <= i < |stages| && stages[i].change.kind.Modify? ==>
      Holds(tree, if stages[i].backupMoved then stages[i].backupPath else stages[i].change.target,
        stages[i].change.preimage)
  }

  ghost predicate OriginalTargets(t: Tree, plan: Plan) {
    forall i :: 0 <= i < |plan| ==>
      if plan[i].kind.Modify? then Holds(t, plan[i].target, plan[i].preimage) else plan[i].target !in t
  }

  lemma Conserved(tree: Tree, base: Tree, dirs: set<Path>, plan: Plan, stages: seq<ApplyStage>)
    requires StagesOf(stages, plan) && Consistent(tree, base, dirs, stages)
    requires AllUndoable(base, stages) && OriginalTargets(base, plan)
    ensures PreimagesKept(tree, stages)
  {
    forall i | 0 <= i < |stages| && stages[i].change.kind.Modify?
      ensures Holds(tree, if stages[i].backupMoved then stages[i].backupPath else stages[i].change.target,
        stages[i].change.preimage)
    {
      assert SlotsAgree(tree, base, dirs, stages[i]) && Undoable(base, stages[i]);
      assert Holds(base, plan[i].target, plan[i].preimage);
    }
  }

  /** A parent has a shorter rendered path than its child. */
  lemma ParentIsShorter(p: Path)
    requires p != []
    ensures RenderedLength(Parent(p)) < RenderedLength(p)
  {
  }

  /** Once the stages are undone, the last directory of the list is empty and can be removed. */
  lemma LastIsEmpty(base: Tree, ds: seq<Path>, k: nat)
    requires k < |ds| && ShorterFirst(ds) && Distinct(ds)
    requires Closed(base) && forall d :: d in ds ==> d !in base
    ensures IsEmptyDirectory(WithDirectories(base, Elements(ds[..k + 1])), ds[k])
  {
    var t := WithDirectories(base, Elements(ds[..k + 1]));
    assert ds[k] in ds[..k + 1];
    forall q | q in t && q != []
      ensures Parent(q) != ds[k]
    {
      if q in Elements(ds[..k + 1]) {
        var j :| 0 <= j <= k && ds[j] == q;
        ParentIsShorter(q);
        assert RenderedLength(ds[j]) <= RenderedLength(ds[k]);
      } else {
        assert ParentIsDirectory(base, q);
      }
    }
  }

  // ---------- steps outside the stages ----------

  lemma DirectoriesOnly(base: Tree, dirs: set<Path>, stages: seq<ApplyStage>)
    requires AllUntouched(stages) && StagingOutside(dirs, stages)
    requires forall d :: d in dirs ==> d !in base
    ensures Consistent(WithDirectories(base, dirs), base, dirs, stages)
    ensures AllUndoable(base, stages)
  {
    var t := WithDirectories(base, dirs);
    assert forall p :: p !in dirs ==> Same(t, base, p);
    forall i | 0 <= i < |stages| ensures SlotsAgree(t, base, dirs, stages[i]) {
      assert Untouched(stages[i]);
    }
  }

  /** A temporary file that was opened but never finished belongs to the tree from now on. */
  lemma StrayTemp(tree: Tree, base: Tree, dirs: set<Path>, stages: seq<ApplyStage>, k: nat, data: Bytes)
    requires k < |stages| && NamesDistinct(stages) && StagingOutside(dirs, stages)
    requires Consistent(tree, base, dirs, stages) && AllUndoable(base, stages)
    requires !stages[k].tempWritten && stages[k].tempPath !in tree
    ensures stages[k].tempPath !in base
    ensures Consistent(tree[stages[k].tempPath := File(data)], base[stages[k].tempPath := File(data)], dirs, stages)
    ensures AllUndoable(base[stages[k].tempPath := File(data)], stages)
  {
    var q := stages[k].tempPath;
    var tree', base' := tree[q := File(data)], base[q := File(data)];
    assert SlotsAgree(tree, base, dirs, stages[k]);
    forall i | 0 <= i < |stages|
      ensures SlotsAgree(tree', base', dirs, stages[i]) && Undoable(base', stages[i])
    {
      assert SlotsAgree(tree, base, dirs, stages[i]) && Undoable(base, stages[i]);
      assert q in Names(stages[k]);
      if i != k {
        assert Names(stages[i]) !! Names(stages[k]);
        assert q !in Names(stages[i]);
      }
      assert q != stages[i].change.target && q != stages[i].backupPath;
    }
    forall p | p !in dirs && p !in AllNames(stages) ensures Same(tree', base', p) {
      assert p !in Names(stages[k]);
      assert Same(tree, base, p);
    }
  }

  /** Removing one of the created directories. */
  lemma DropDirectory(tree: Tree, base: Tree, dirs: set<Path>, stages: seq<ApplyStage>, d: Path)
    requires Consistent(tree, base, dirs, stages) && StagingOutside(dirs, stages) && d in dirs
    ensures Consistent(tree - {d}, base, dirs - {d}, stages) && StagingOutside(dirs - {d}, stages)
  {
    forall i | 0 <= i < |stages| ensures SlotsAgree(tree - {d}, base, dirs - {d}, stages[i]) {
      assert SlotsAgree(tree, base, dirs, stages[i]);
    }
    forall p | p !in dirs - {d} && p !in AllNames(stages) ensures Same(tree - {d}, base, p) {
      if p != d { assert Same(tree, base, p); }
    }
  }
}
