# Verification of the durable core of BornAgent

A Dafny model of the parts of the repository that must not go wrong: applying a multi-file patch,
handing a background operation from one process to another, parsing and planning unified diffs,
capturing and accounting text artifacts, the agent loop with its budgets, and the workspace lock.
`dafny verify dfyconfig.toml` checks everything.

How the model is laid out, in the order of the modules:

- **Patch apply.** `FileSystem` is a class over a tree of files and directories; every call may fail, as
  an arbitrary oracle says, and a failing call changes nothing, except that writing to a file just
  opened may leave any content behind. `PatchStages` holds the per-file flags and the invariant that
  ties them to the tree; `PatchApplier` is the applier itself, with its loops and its rollback. There
  are no other writers.
- **Handoff.** `HandoffRecords` has the records, the hash-linked chain and its reader. A content hash is
  injective, so the hash of a record is the record itself under a constructor. `HandoffProtocol` is the
  state machine of the store: each process reads, opens and writes a candidate, links it, and reads
  again; a run is any sequence of such steps, I/O failures and crashes. `HandoffAutomaton` adds the six
  transitions of the callers, `BackgroundProjector` folds the session log (worker records are mutable
  objects shared by the map and `current`), and `WorkerTakeover` is the reconciler with its crash
  points, driven again and again.
- **Diffs.** `Lines` cuts and joins texts, `PatchFormat` has the parsed form, `DiffText` the single lines,
  `UnifiedDiffParser` hunks and files together with the grammar they decide, `UnifiedDiff` the whole
  patch, `PatchRoundTrip` a printer in every layout that the parser reads, `PatchPlanner` the simulation, and `PatchInversion`
  joins parser and planner. Characters are Unicode scalar values, so no text has unpaired surrogates.
- **Artifacts.** `Utf8` is section 4 of RFC 3629 as a grammar over bytes; a decoded text is given by its
  bytes. `OutputCapture`, `ArtifactReader` and `ArtifactStores` are the loops over bytes and chunks,
  `SessionLedger` the replay, `ArtifactRuntime` compares live accounting with the replay, and
  `LedgerAcceptance` says which logs a replay accepts. A content hash is injective, so an artifact is
  named by its content.
- **Agent loop.** `AgentBudget` has the budget tracker and the repetition guard, `ModelTurn` the fold over
  one model stream, `AgentDecision` says what each step must decide, and `AgentLoop` is the loop. What the
  model streams, what tools return, when aborts arrive, what the clock shows and which durable writes
  fail is an arbitrary function of the step.
- **Workspace lock.** `WorkspaceMutex` is the promise chain as a state machine in which every promise
  reaction is a step of its own.

Four properties turned out to hold only under a condition; each condition is proved exact, and each has
an input for which the property fails.

- *Undoing a patch on texts* works if and only if every new line without a newline ends the result and is
  not empty, and nothing is added after a kept last line without one; this can be checked before the
  patch is applied (`PatchInversion.ParsedPatchInverts`, `PatchPlanner.LeavesLines`). The parser accepts a
  no-newline marker on any line, so it accepts a patch that cannot be undone
  (`PatchInversion.AcceptedAndNotUndone`).
- *Every live background worker is the current one* if and only if no reconciliation pushes aside a live
  current worker other than its target (`BackgroundProjector.SingleOwnerIff`), because the projector does
  not compare the target of a reconciliation with the current worker. It accepts a log in which that
  happens (`BackgroundProjector.OwnerDisplaced`).
- *Paging reaches the end* of a text if and only if every character of it has at most as many bytes as a
  page (`ArtifactReader.ReachesEndIff`), and of every text if and only if pages have at least four bytes
  (`ArtifactReader.AdvancesIffFour`).
- *A takeover can be repeated after a crash*: an attempt that lives long enough and meets a dead owner
  returns if and only if the handoff is terminal already, or no candidate of exactly the revision of its
  time stamp was left unfinished (`WorkerTakeover.Reconciler.Reconcile`). A crash in the middle of
  writing leaves such a candidate (`WorkerTakeover.CrashWhileWriting`), and then attempts with the same
  time stamp are refused, as `WorkerTakeover.RepeatedAtSameTime` shows after a concrete run; with a
  different one the takeover returns (`WorkerTakeover.Reconciler.Recover`).

## Model

| member | source | states |
|---|---|---|
| PatchApplier.AtomicPatchApplier.ApplyLocked | src/changes/patch-applier.ts:113-241 | for every pattern of failing calls and every abort, exactly one of three ends: the initial tree with the targets replaced and the planned directories added; an unchanged error with the initial tree, up to one half-written temporary file; an unknown error with every preimage still at its target or backup, or with all targets verified; without faults a plan that fits is applied; what stops a fitting plan is a fault or abort before the undoing starts, from which on nothing is made, written or linked; and before verification the state is unknown only when a call of the undoing failed as well or a half-written file lies in a new directory; an abort that is set from the start leaves the initial tree with `patch_cancelled`, and a plan that no longer fits leaves it as stale; no target is renamed or linked before a commit point at which no abort was set, and an applied plan has passed it; and it is applied only when no call has failed |
| PatchApplier.AtomicPatchApplier.Recover | src/changes/patch-applier.ts:214-239 | after a failure before verification it reports the workspace as unchanged only when it is, up to one half-written file, and as unknown only with every preimage kept; without a failing call of its own, and on a tree whose nodes hang below directories, it always restores, unless a half-written file lies in a new directory |
| PatchApplier.AtomicPatchApplier.Rollback | src/changes/patch-applier.ts:320-392 | when it reports success the tree is the one before the apply, and it can report failure only if one of its own calls failed |
| PatchApplier.AtomicPatchApplier.RollbackStages | src/changes/patch-applier.ts:324-370 | undoes the stages in reverse order, keeping flags and tree in step |
| PatchApplier.AtomicPatchApplier.RemoveDirectories | src/changes/patch-applier.ts:372-380 | removes the created directories from the last to the first and reports exactly what is left |
| PatchApplier.AtomicPatchApplier.WriteTemp | src/changes/patch-applier.ts:258-283 | writes the postimage beside the target, or fails and leaves at most that one half-written file |
| PatchApplier.AtomicPatchApplier.MoveBackups | src/changes/patch-applier.ts:150-156 | moves originals to backups one by one, each with its flag |
| PatchApplier.AtomicPatchApplier.Install | src/changes/patch-applier.ts:157-164 | links postimages without replacing anything and drops the temporary files |
| PatchApplier.AtomicPatchApplier.VerifyTargets | src/changes/patch-applier.ts:166-175 | passes exactly when no call fails, and then every target holds its postimage |
| PatchApplier.AtomicPatchApplier.DeleteBackups | src/changes/patch-applier.ts:176-189 | deletes backups that still hold their preimages, and no others |
| PatchApplier.AtomicPatchApplier.Matches | src/changes/patch-applier.ts:299-309 | true only for a file with exactly the expected content, and true for it unless a call failed |
| PatchApplier.AtomicPatchApplier.IsAbsent | src/changes/patch-applier.ts:311-318 | true only for a path that does not exist, and true for it unless a call failed |
| PatchApplier.AtomicPatchApplier.Revalidate | src/changes/patch-planner.ts:278-318 | answers cancelled exactly when the abort is set when it begins, and otherwise passes only when no call fails, every target still has its planned preimage or is still absent, and the directories are as planned |
| PatchApplier.AtomicPatchApplier.MakeDirectories | src/changes/patch-applier.ts:125-139 | makes the missing directories from the shortest on and remembers exactly those it made |
| PatchApplier.AtomicPatchApplier.CheckRestored | src/changes/patch-applier.ts:382-391 | confirms success only when every target is as it was planned from |
| FileSystems.FileSystem.OpenNew | src/changes/patch-applier.ts:34-47 | an exclusive open creates an empty file only where nothing is |
| FileSystems.FileSystem.WriteFile | src/changes/patch-applier.ts:27-32 | a write that fails may leave any content, and touches no other file |
| FileSystems.FileSystem.Link | src/changes/patch-applier.ts:34-47 | a link never replaces anything |
| FileSystems.FileSystem.Rename | src/changes/patch-applier.ts:34-47 | a rename moves one file, and a failing one changes nothing |
| FileSystems.FileSystem.Rmdir | src/changes/patch-applier.ts:34-47 | removes only an empty directory, and says when there is none |
| PatchStages.UniqueMissingDirectories | src/changes/patch-applier.ts:86-90 | the missing directories of the plan, each once, shorter paths before longer ones |
| PatchStages.FreshStages | src/changes/patch-applier.ts:243-256 | staging names made from fresh tokens collide with no target, no directory and not with each other |
| PatchStages.UpdateStage | src/changes/patch-applier.ts:150-164 | changing one stage and its own files keeps the invariant between flags and tree |
| PatchStages.Conserved | src/changes/patch-applier.ts:150-175 | whenever flags and tree agree, every preimage is at its target, or at its backup once that was moved |
| PatchStages.AllUndone | src/changes/patch-applier.ts:320-392 | when no flag is left the tree is the original with the created directories |
| PatchStages.AllApplied | src/changes/patch-applier.ts:113-205 | when everything is installed and no backup is left the tree is the patched one, and nothing else changed |
| PatchStages.LastIsEmpty | src/changes/patch-applier.ts:372-380 | once stages are undone, the last created directory is empty, so that it can be removed |
| PatchStages.StrayTemp | src/changes/patch-applier.ts:258-283 | a half-written temporary file counts as part of the original tree for the rest of the run |
| PatchApplier.RemovableLast | src/changes/patch-applier.ts:372-380 | the directory that was created last is empty, and can be removed, when the stages are undone and exactly the directories up to it are left |
| PatchApplier.VerifiedTargets | src/changes/patch-applier.ts:166-189 | after verification every target holds its postimage and every moved backup its preimage or was deleted |
| HandoffRecords.ReadHandoffAuthority | src/background/background-operation-store.ts:462-525 | the loop returns the head exactly when the directory is a gapless, hash-linked chain of well-formed records with one identity and launch and distinct transition identities, and refuses every other directory |
| HandoffRecords.ChainLength | src/background/background-operation-store.ts:481-497 | a linked chain has exactly the revision numbers below its length |
| HandoffRecords.CreateRevision | src/background/background-schema.ts:220-254 | creates the revision with exactly the given fields, and nothing exactly when a first revision lacks a launch record that binds the handoff or another one lacks a predecessor or has a launch record |
| HandoffProtocol.RunsAreSafe | src/background/background-operation-store.ts:363-449 | for every interleaving, I/O failure and crash the published revisions are gapless from zero, hash-linked, and agree on identity and launch |
| HandoffProtocol.RunsExtend | src/background/background-operation-store.ts:416-449 | published revisions never change or disappear |
| HandoffProtocol.ReaderRefusesOnlyRepeats | src/background/background-operation-store.ts:462-525 | in every run the reader refuses the directory exactly when a transition identity is repeated |
| HandoffProtocol.LaterReadExtends | src/background/background-operation-store.ts:462-525 | every later reading extends every earlier one |
| HandoffProtocol.PublishedHaveCandidates | src/background/background-operation-store.ts:95-120 | in every run each published revision has its finished candidate, as the reader demands |
| HandoffProtocol.LinkIsCompareAndSwap | src/background/background-operation-store.ts:363-449 | the only step that changes the chain puts one revision on the head that the call had checked, with the expected owner and state |
| HandoffProtocol.ReturnedWasHead | src/background/background-operation-store.ts:363-449 | a call that returns normally had exactly its revision at the head of the chain |
| HandoffProtocol.RepeatReturns | src/background/background-operation-store.ts:370-379 | after every run that leaves a chain without a repeated transition identity, a call whose identity and handoff the head already carries returns at its first reading and changes nothing, for swaps and for the creation of the first revision |
| HandoffProtocol.SwapReadingDecides | src/background/background-operation-store.ts:370-388 | at its reading a swap returns exactly when the head is its own, goes on exactly when the head is another with the expected owner, state and identity, is in conflict exactly when there is no head or neither holds, and asks for reconciliation exactly when the chain cannot be read |
| HandoffProtocol.CreateReadingDecides | src/background/background-operation-store.ts:303-331 | at its reading a creation whose launch record binds its handoff goes on exactly on an empty chain, returns exactly when the head is its own, and is in conflict otherwise; another launch record is refused |
| HandoffProtocol.CrashAfterLink | src/background/background-operation-store.ts:416-449 | when a process crashes between its link and its second reading and makes the same call again, the call returns its revision while that is the head of a chain without repeated identities |
| HandoffProtocol.TwinReturns | src/background/background-operation-store.ts:429-448 | when two processes link the same revision the later one returns it as well, while it is the head of a chain without repeated identities |
| HandoffProtocol.LoserConflicts | src/background/background-operation-store.ts:435-438 | a process that finds another revision under its number is refused with a conflict and changes nothing |
| HandoffProtocol.CreatePublishes | src/background/background-operation-store.ts:303-331 | on an empty chain five steps of a creation that nothing unfinished blocks publish the first revision and return it |
| HandoffAutomaton.RunsArePaths | src/background/background-worker-runtime.ts:464-482 | with the callers' transitions every run walks along the automaton |
| HandoffAutomaton.CallersAreSafe | src/background/background-schema.ts:256-264 | every reachable chain has at most three revisions, is never refused, and has at most one of claim, launch failure and takeover after launching |
| HandoffAutomaton.PathIsShort | src/background/background-worker-launcher.ts:334-350 | transition identities on a path are distinct, and a final state is always the head |
| HandoffAutomaton.FinalIsFinal | src/background/background-worker-runtime.ts:902-916 | once the head is terminal or needs reconciliation nothing changes the chain any more |
| BackgroundProjector.ProjectLog | src/background/background-projector.ts:46-143 | the loop over shared mutable records computes the fold of the log |
| BackgroundProjector.SingleOwnerIff | src/background/background-projector.ts:46-143 | on an accepted log every live worker is current at all times exactly when no reconciliation displaces a live current worker other than its target |
| BackgroundProjector.OwnerDisplaced | src/background/background-projector.ts:119-132 | a log of four events that the projector accepts and after which a live worker is not current |
| BackgroundProjector.ProducersKeepSingleOwner | src/background/background-worker-runtime.ts:883-898 | producers that reconcile only the current worker keep a single owner |
| BackgroundProjector.RecordsSucceed | src/background/background-projector.ts:53-134 | no record is lost, changes its identity or is launched again, and accepted control identities never repeat |
| BackgroundProjector.ReconciledIsNotLive | src/background/background-projector.ts:119-132 | a reconciled worker is never live again |
| BackgroundProjector.AcceptedNext | src/background/background-projector.ts:46-143 | after an accepted log the next event is accepted exactly when the records allow it, by what each kind of event demands of its worker |
| BackgroundProjector.StatusIsOfLast | src/background/background-projector.ts:46-143 | the status of a worker is the one that the last event about it gives: launching, running, terminal, or in need of reconciliation |
| BackgroundProjector.CurrentIsOfLast | src/background/background-projector.ts:46-143 | the current worker is the one of the last request or start, unless something has ended it since |
| BackgroundProjector.RecordsAreOfEvents | src/background/background-projector.ts:46-143 | every record has the identity of a request in the log, and has a start exactly when the log has a start of its worker |
| BackgroundProjector.FactsAreOfEvents | src/background/background-projector.ts:46-143 | the start, the terminal fact and the accepted controls of a record are those of the events about it, in their order |
| WorkerTakeover.Reconciler.RunSwap | src/background/background-operation-store.ts:363-449 | without rivals a swap ends with its revision at the head, or leaves the chain alone; one that can succeed and lives long enough succeeds exactly when no unfinished candidate of its revision is in the way |
| WorkerTakeover.Reconciler.CloseFresh | src/background/background-worker-takeover.ts:161-236 | refuses with exactly one error by graph, handoff and probe, and otherwise appends one event for the dead worker and closes its handoff |
| WorkerTakeover.Reconciler.Resume | src/background/background-worker-takeover.ts:70-159 | refuses with exactly one error by what the log, the handoff and the probe say; otherwise it closes the handoff, if the earlier attempt did not, and reports the single clean reconciliation that the log ends with |
| WorkerTakeover.Reconciler.FindReconciled | src/background/background-worker-takeover.ts:71-104 | finds the last event of the graph and allows it exactly when it is the only clean reconciliation of its worker and that worker is terminal; the error names what fails first |
| WorkerTakeover.CountIsRight | src/background/background-worker-takeover.ts:84-92 | the count of clean reconciliations is at least one, or two, exactly when the log has one, or two, at different places |
| WorkerTakeover.LifecycleEnds | src/background/background-worker-takeover.ts:71-79 | the last matching event is the last place of the log that speaks of the graph |
| WorkerTakeover.Reconciler.Reconcile | src/background/background-worker-takeover.ts:46-240 | leaves a live or unknown owner alone; otherwise each attempt only moves on through untouched, appended and finished; with a dead owner and enough steps it returns exactly when the scene is finished or no unfinished candidate of its time stamp is in the way, and is refused otherwise; the event and the result say `owner_dead_clean` exactly when the log has an accepted start of the worker, and `not_started` exactly when it has none; every refusal before the append has the error that the log, the handoff and the probe demand and changes nothing |
| WorkerTakeover.Reconciler.Recover | src/background/background-worker-takeover.ts:46-240 | however attempts crash there is at most one clean reconciliation; when an attempt returns there is exactly one, the handoff is terminal, and the result is that of the first append; the last attempt made, if it lives long enough, returns exactly when what it meets is finished or not blocked; and a last attempt at a time stamp of its own returns; the terminal revision is the handoff that was left, with nothing changed but its state and time |
| WorkerTakeover.CrashWhileWriting | src/background/background-operation-store.ts:363-449 | a process that crashes while it writes its candidate leaves the chain alone and its candidate in the way |
| WorkerTakeover.CrashedScene | src/background/background-worker-takeover.ts:215-229 | a run of a launcher and a takeover that crashes while it writes leads to a scene in which the time stamp of that takeover is blocked, and no other |
| WorkerTakeover.RepeatedAtSameTime | src/background/background-worker-takeover.ts:215-229 | after that run an attempt with the same time stamp is refused although its owner is dead and it has all the steps it needs |
| WorkerTakeover.LiveHeadCanSwap | src/background/background-worker-takeover.ts:161-229 | after every run of the callers that leaves a live head, the takeover of that head can succeed |
| WorkerTakeover.RunGivesScene | src/background/background-worker-takeover.ts:161-190 | every run of the callers with a live head, and every log whose current worker belongs to it and has started exactly when the worker owns the operation, is where a takeover can begin |
| WorkerTakeover.ExactlyOne | src/background/background-worker-takeover.ts:71-92 | after the append the log has exactly one clean reconciliation of the worker, and it is the last event of its graph |
| WorkerTakeover.AfterAppend | src/background/background-worker-takeover.ts:93-105 | after the append the worker is terminal and no longer current |
| WorkerTakeover.LaunchingIsScene | src/background/background-worker-takeover.ts:161-190 | a worker that was requested and never started is where a takeover can begin |
| WorkerTakeover.StartedIsScene | src/background/background-worker-takeover.ts:161-190 | so is a worker that has started and claimed its operation |
| WorkerTakeover.SwapFinishes | src/background/background-worker-takeover.ts:215-229 | the swap of an attempt closes the handoff or leaves it as it was; it closes it only when the terminal revision of its time stamp is not blocked, and fails only when it is |
| Lines.JoinSplit | src/changes/unified-diff-parser.ts:236-238 | splitting at newlines and joining gives the text back |
| Lines.SplitJoin | src/changes/unified-diff-parser.ts:236-238 | joining one-line pieces and splitting gives the pieces back |
| Lines.Utf8SizeIsEncoded | src/changes/unified-diff-parser.ts:24-27 | the size of a text is the number of bytes that encode its characters |
| DiffText.ParseDiffHeader | src/changes/unified-diff-parser.ts:47-80 | the candidate loop returns what looking at the middle of the line returns |
| DiffText.DiffPathIsHeader | src/changes/unified-diff-parser.ts:47-80 | a header is accepted exactly when it names one non-empty path twice, also when the path contains the marker |
| DiffText.HeaderIsItsText | src/changes/unified-diff-parser.ts:12-13 | a line matches the hunk header pattern exactly when it is the text of that header with some section text |
| DiffText.IndexLineIsText | src/changes/unified-diff-parser.ts:249-259 | an index line is accepted exactly when it is "index ", a text, "..", and a text, neither empty nor with blanks or dots |
| DiffText.ParseDecimal | src/changes/unified-diff-parser.ts:93-110 | parsing the decimal form of a number gives the number |
| UnifiedDiffParser.ReadHunk | src/changes/unified-diff-parser.ts:112-211 | the cursor loop computes the hunk parse |
| UnifiedDiffParser.BodySound | src/changes/unified-diff-parser.ts:147-199 | whatever is read as hunk lines has exactly the text that was read, with the declared counts |
| UnifiedDiffParser.BodyComplete | src/changes/unified-diff-parser.ts:147-199 | the text of hunk lines that complete the counts is read as those lines |
| UnifiedDiffParser.HunkIffAt | src/changes/unified-diff-parser.ts:112-211 | a hunk is read at a line exactly when it stands there by the grammar, which gives the header by its text; a count that is left out stands for one |
| UnifiedDiffParser.HeaderStandsFor | src/changes/unified-diff-parser.ts:93-120 | the numbers of a header line are those of its text: a start, and a count after a comma or else one |
| UnifiedDiffParser.DeniedIsRefused | src/changes/unified-diff-parser.ts:213-234 | a file patch with a mode, rename, copy, binary or submodule line after its header is refused for that |
| UnifiedDiffParser.OtherPathIsRefused | src/changes/unified-diff-parser.ts:261-280 | path headers that name another path than the first line are refused as a rename, a deletion or a bad creation |
| UnifiedDiffParser.HunksIffAt | src/changes/unified-diff-parser.ts:285-297 | the hunks of a file are read exactly where they stand |
| UnifiedDiffParser.FileHeaderIff | src/changes/unified-diff-parser.ts:246-280 | the lines before the hunks are read exactly as the grammar has them: one path, index lines only, create or modify |
| UnifiedDiffParser.FileIffAt | src/changes/unified-diff-parser.ts:245-310 | a file patch is read at a line exactly when it stands there |
| UnifiedDiff.ParseUnifiedDiff | src/changes/unified-diff-parser.ts:236-328 | the nested loops compute the parse of the patch |
| UnifiedDiff.FilesIffAt | src/changes/unified-diff-parser.ts:244-322 | the file loop reads exactly the files that stand there within the limits |
| UnifiedDiff.AcceptedIff | src/changes/unified-diff-parser.ts:236-328 | a patch is accepted exactly when its normalized lines are those of files within the limits, and the result is those files |
| UnifiedDiff.AcceptedPatch | src/changes/unified-diff-parser.ts:244-328 | the files' diffs concatenate to the normalized patch, every hunk has the declared counts, totals and limits hold |
| UnifiedDiff.NormalizedForm | src/changes/unified-diff-parser.ts:24-45 | a normalized patch has no carriage return or NUL and ends with exactly one newline |
| UnifiedDiff.CrLfParsesAlike | src/changes/unified-diff-parser.ts:37-44 | a patch with carriage returns before its newlines is parsed like the patch without them, when both are within the size limit |
| UnifiedDiff.LoneReturnIsRefused | src/changes/unified-diff-parser.ts:37-40 | a carriage return that no newline follows is refused |
| UnifiedDiff.BlankIff | src/changes/unified-diff-parser.ts:41-43 | a patch without carriage returns is refused as empty exactly when it has nothing but the white space of the language |
| UnifiedDiff.ReadHunks | src/changes/unified-diff-parser.ts:285-297 | the loop over hunks reads them in order and counts additions and deletions |
| UnifiedDiff.ReadFile | src/changes/unified-diff-parser.ts:245-310 | one turn of the file loop reads the headers, the hunks and the counts of one file |
| UnifiedDiff.ReadMetadata | src/changes/unified-diff-parser.ts:249-259 | skips well-formed index lines and stops at the first other line |
| UnifiedDiff.CountChanges | src/changes/unified-diff-parser.ts:290-296 | counts the additions and deletions of a hunk |
| UnifiedDiff.DiffsAreLines | src/changes/unified-diff-parser.ts:302-310 | the diffs of consecutive files are the lines they were read from |
| PatchRoundTrip.RoundTrip | src/changes/unified-diff-parser.ts:236-328 | parsing the printed text of any printable file patches within the limits gives them back, whichever counts of one are left out, whatever text follows the hunk headers, and whatever index lines are there |
| PatchRoundTrip.OrdinaryPatch | src/changes/unified-diff-parser.ts:93-110 | the six literal lines of an ordinary patch of a one-line file, with an index line and "@@ -1 +1 @@ main", are accepted as one hunk with one line on each side |
| PatchRoundTrip.MarkedPathParses | src/changes/unified-diff-parser.ts:47-80 | a patch for a path that contains the marker is parsed, and names that path |
| PatchPlanner.JoinSplitText | src/changes/patch-planner.ts:60-77 | joining the lines of a text gives the text, and its lines are well-formed |
| PatchPlanner.SplitJoinText | src/changes/patch-planner.ts:60-77 | lines survive joining and splitting exactly when only a non-empty last line lacks its newline; otherwise there are fewer |
| PatchPlanner.PlayHunk | src/changes/patch-planner.ts:117-134 | succeeds exactly when the old side stands in the source, and plays the new side |
| PatchPlanner.SimulateLines | src/changes/patch-planner.ts:91-136 | returns the only lines that the hunks lead to, or fails when there are none |
| PatchPlanner.OneEdit | src/changes/patch-planner.ts:87-136 | a hunk replaces its old lines by its new ones behind the line that both numbers name: the line before its first, or, for an empty side, the line with the number itself |
| PatchPlanner.SimulatePatch | src/changes/patch-planner.ts:91-147 | succeeds exactly when the hunks are ordered, apart, match the source and carry the cumulative new positions, and the result is within the limit; the result is the splice from the last hunk to the first |
| PatchPlanner.FitsIffResult | src/changes/patch-planner.ts:96-133 | the declarative condition on the hunks holds exactly when a result exists |
| PatchPlanner.TransformsIsSplice | src/changes/patch-planner.ts:91-136 | the result equals replacing old sides by new sides from the last hunk to the first |
| PatchPlanner.LineCountLaw | src/changes/patch-planner.ts:91-136 | the growth of the text is additions minus deletions |
| PatchPlanner.TransformsBack | src/changes/patch-planner.ts:91-136 | exchanging old and new sides exchanges source and result |
| PatchPlanner.LinesInvert | src/changes/patch-planner.ts:91-136 | on lines the swapped patch always leads back |
| PatchPlanner.TextInversion | src/changes/patch-planner.ts:60-147 | on texts the swapped patch leads back exactly when the new lines are the lines of a text, and exactly when the condition on hunks and preimage holds |
| PatchPlanner.LeavesLinesIff | src/changes/patch-planner.ts:60-136 | the result has the lines of a text exactly when every new line without a newline is its last line and not empty, and nothing is added after a kept last line without a newline |
| PatchPlanner.UndoFails | src/changes/patch-planner.ts:75-85 | a patch that applies and whose swapped patch does not lead back |
| PatchInversion.ParsedPatchInverts | src/changes/patch-planner.ts:215-236 | for every file of every accepted patch the swapped hunks lead back exactly when the condition on hunks and preimage holds |
| PatchInversion.AcceptedAndNotUndone | src/changes/unified-diff-parser.ts:147-199 | the parser accepts a patch that turns "x" into "ab" and whose swapped hunks do not lead back |
| Utf8.WellFormedConcat | src/artifacts/output-materializer.ts:123-174 | well-formedness and the longest decodable prefix go through concatenation |
| Utf8.WellFormedIff | src/artifacts/output-materializer.ts:158-174 | a byte string is well-formed exactly when it is a concatenation of encoded characters: scalar values, each in the fewest bytes that hold its bits |
| Utf8.PrefixOfWellFormed | src/artifacts/output-materializer.ts:123-174 | a byte string can be continued to a well-formed one exactly when what follows its longest decodable prefix is empty or a partial character |
| Utf8.FitIsLongest | src/artifacts/artifact-store.ts:198-211 | the fitting prefix is the longest well-formed one within the limit |
| Utf8.FitOfLonger | src/artifacts/artifact-store.ts:198-211 | what fits depends only on the bytes within the limit |
| OutputCapture.CollectBounded | src/artifacts/output-materializer.ts:98-121 | the collected bytes and the flag depend only on the concatenation of the chunks |
| OutputCapture.TrailingIncompleteUtf8Bytes | src/artifacts/output-materializer.ts:123-156 | returns the length of the partial character at the end, or zero when there is none |
| OutputCapture.DecodeCollectedUtf8 | src/artifacts/output-materializer.ts:158-174 | of a cut source it accepts exactly the prefixes of well-formed strings and decodes the longest well-formed prefix |
| OutputCapture.TruncateUtf8 | src/artifacts/output-materializer.ts:36-56 | keeps the longest well-formed prefix within the limit and says whether something is missing |
| ArtifactReader.DecodeBoundarySlice | src/artifacts/artifact-reader.ts:40-70 | fails exactly on offsets that are no character boundary, and otherwise ends at the longest decodable slice |
| ArtifactReader.Read | src/artifacts/artifact-reader.ts:215-236 | one page with its next offset; end of file exactly when nothing is left |
| ArtifactReader.PagingCovers | src/artifacts/artifact-reader.ts:215-236 | following the next offset partitions the view into well-formed pages within the bound on the number of reads |
| ArtifactReader.AdvancesIffFour | src/artifacts/artifact-reader.ts:40-70 | the first page of every non-empty text is non-empty exactly for limits of at least four bytes |
| ArtifactReader.AdvancesIff | src/artifacts/artifact-reader.ts:40-70 | at one boundary of one text a page moves forward exactly when it has room for the character there |
| ArtifactReader.ReachesEndIff | src/artifacts/artifact-reader.ts:40-70 | for one text, following the next offset reaches the end exactly when every character from there on has at most that many bytes |
| ArtifactStores.Available | src/artifacts/artifact-store.ts:276-297 | the largest amount that the request and every budget allow |
| ArtifactStores.ChargeWithin | src/artifacts/artifact-store.ts:516-523 | charging what was available keeps usage within the budgets |
| ArtifactStores.TruncationStatus | src/artifacts/artifact-store.ts:548-563 | the status of a cut capture names the limit that it reached: the session first, then the run, then the artifact; one byte more would have passed exactly that limit |
| ArtifactStores.ArtifactStore.AvailableCaptureBytes | src/artifacts/artifact-store.ts:276-297 | rejects exactly limits out of range |
| ArtifactStores.Utf8Prefix | src/artifacts/artifact-store.ts:198-211 | keeps the longest character-aligned prefix within the limit |
| ArtifactStores.DecodeStream | src/artifacts/artifact-store.ts:441-453 | a streaming decoder passes on all complete characters and holds back a partial one; it fails only on bytes that no text continues |
| ArtifactStores.CaptureText | src/artifacts/artifact-store.ts:441-491 | for every chunking, what is written is the longest character-aligned prefix that fits, and the flag says whether the text is longer |
| ArtifactStores.ArtifactStore.StoreExclusive | src/artifacts/artifact-store.ts:415-546 | the captured prefix, status and charge of a store; a failed store charges nothing |
| ArtifactStores.ValidateInitialUsage | src/artifacts/artifact-store.ts:106-148 | accepts listed usage exactly when it is within the budgets |
| SessionLedger.IndexEvents | src/artifacts/artifact-session-ledger.ts:309-347 | accepts a log exactly when it is one session in order with distinct identities |
| SessionLedger.ReconstructArtifactSessionLedger | src/artifacts/artifact-session-ledger.ts:309-534 | the loops over the log, which change the facts of each object in place, compute the fold of its events and the list of references for later readers |
| SessionLedger.LedgerIsBalanced | src/artifacts/artifact-session-ledger.ts:349-492 | on every accepted log session bytes equal run bytes and reference bytes, authorized plus orphaned equals stored equals the counts per object, unique bytes do not exceed session bytes, and the facts of each object (counts, first and last event, runs, media types, whether it was ever cut) are those of its stored references |
| SessionLedger.ReferencesAreAuthorized | src/artifacts/artifact-session-ledger.ts:494-527 | a later reader gets exactly one reference to each object that some stored reference is authorized for, with its size, and as plain text exactly when one of the authorized references was |
| SessionLedger.AuthorityOnlyGrows | src/artifacts/artifact-session-ledger.ts:145-299 | when an extended log is accepted too, old references stay in place and their authority only goes from pending to authorized |
| LedgerAcceptance.AcceptedIff | src/artifacts/artifact-session-ledger.ts:145-492 | a log in order is accepted exactly when every stored event has the right session, size, status, origin and identity and keeps the budgets, and every truncation names what its run stored last; a reference is authorized exactly when its origin is in the log |
| LedgerAcceptance.OriginIsPlace | src/artifacts/artifact-session-ledger.ts:145-299 | an origin is accepted exactly when it belongs to the same run and stands before a request and after a result, and names the artifact where it names one |
| ArtifactRuntime.ReplayAccepts | src/artifacts/artifact-session-ledger.ts:349-492 | replaying a log that the runtime wrote counts exactly what the log says and raises no budget, identity or pairing error |
| ArtifactRuntime.ArtifactSessionRuntime.constructor | src/artifacts/artifact-session-runtime.ts:113-127 | a runtime starts with the books of the replayed log |
| ArtifactRuntime.ArtifactSessionRuntime.Prepare | src/artifacts/output-materializer.ts:278-293 | succeeds exactly for sources whose collected bytes are text, and gives that text made safe |
| ArtifactRuntime.ArtifactSessionRuntime.StoreAndAppend | src/artifacts/artifact-session-runtime.ts:157-183 | stores, appends, admits and appends again in this order; the new events are exactly those of the capture |
| ArtifactRuntime.ArtifactSessionRuntime.Append | src/artifacts/artifact-session-runtime.ts:147-153 | an append is all or nothing, and a failed one is remembered |
| ArtifactRuntime.ArtifactSessionRuntime.Materialize | src/artifacts/artifact-session-runtime.ts:129-184 | succeeds exactly for texts when limits are in range and nothing fails; then observation, artifact, charge and new events are determined by the source and the usage before; live usage stays at least the replayed usage whatever append fails |
| ArtifactRuntime.PlainTextIsKept | src/artifacts/output-materializer.ts:266-383 | for a text that needs no redaction the observation and the artifact are the longest prefixes within their own limits, also when the observation is the longer one; each is reported as cut exactly when the text is longer, and the events name the limit that was reached |
| ArtifactRuntime.ArtifactSessionRuntime.MaterializeText | src/artifacts/artifact-session-runtime.ts:186-292 | succeeds exactly for texts that can be kept whole, and then keeps, charges, logs and admits exactly that text |
| ArtifactRuntime.ArtifactSessionRuntime.LogReplays | src/artifacts/artifact-session-ledger.ts:349-492 | after any materializations the replay charges no more than live usage, and exactly live usage when no append failed |
| ArtifactRuntime.WrittenLogReplays | src/artifacts/artifact-session-ledger.ts:349-492 | a covered log within the budgets can be replayed except for origin objections |
| AgentBudget.BudgetTracker.CheckBeforeStep | src/agent/budget-tracker.ts:89-121 | reports the first spent budget of time, steps, tokens and output with its limit and amount, and nothing exactly when none is spent |
| AgentBudget.BudgetTracker.CheckAfterModelForMoreWork | src/agent/budget-tracker.ts:123-141 | reports the first spent budget of time and tokens, and nothing exactly when none is spent |
| AgentBudget.BudgetTracker.CheckAfterToolOutput | src/agent/budget-tracker.ts:143-168 | reports the first spent budget of time, tokens and output, and nothing exactly when none is spent |
| AgentBudget.BudgetTracker.BeginStep | src/agent/budget-tracker.ts:51-55 | steps are numbered consecutively |
| AgentBudget.BudgetTracker.RecordUsage | src/agent/budget-tracker.ts:57-61 | the token total is the sum of everything recorded |
| AgentBudget.BudgetTracker.RecordToolOutput | src/agent/budget-tracker.ts:63-66 | the output total is the sum of everything recorded |
| AgentBudget.OneMoreEntry | src/agent/repetition-detector.ts:46-60 | one more entry completes a triple exactly when it ends a run of three |
| AgentBudget.RepetitionDetector.Observe | src/agent/repetition-detector.ts:46-60 | blocks exactly the third equal call in a row |
| ModelTurn.ConsumeModelTurn | src/agent/agent-loop.ts:200-322 | every stream has exactly one end, and that is what is returned: an abort, a failure named by the first signal that is wrong, or a completion, exactly when the signals before it are those of a turn with one call or none and the declared usage |
| ModelTurn.EndIsUnique | src/agent/agent-loop.ts:200-322 | a stream of signals ends in one place with one result |
| AgentDecision.RunIsOne | src/agent/agent-loop.ts:324-1226 | a world allows one run: one sequence of states before the steps, and one outcome |
| AgentDecision.StepEndIsOne | src/agent/agent-loop.ts:749-1219 | a step that ends the run does so with one outcome, and then does not go on |
| AgentDecision.TextCompletes | src/agent/agent-loop.ts:927-1015 | a run outside plan mode and coding whose first turn streams a text that is not blank, its usage and no call is complete as `model_final` after one turn |
| AgentDecision.TripleIsThird | src/agent/repetition-detector.ts:46-60 | a call is the third equal one exactly when the requested calls end in three equal fingerprints |
| AgentLoop.AgentRun.PublishAggregateUsage | src/agent/agent-loop.ts:367-395 | publishes the sums of all steps, once, and only when no step lacks its usage |
| AgentLoop.AgentRun.Gate | src/agent/agent-loop.ts:750-789 | lets a turn begin exactly without abort, with no budget spent, and with a context that fits; otherwise the outcome is that of the abort, of the first spent budget, or of the context |
| AgentLoop.AgentRun.TurnFailed | src/agent/agent-loop.ts:822-854 | the outcome of a turn that did not complete: the failure of the provider, else what the abort demands, else a timeout, else an internal failure |
| AgentLoop.AgentRun.RecordTurn | src/agent/agent-loop.ts:869-886 | records and publishes the usage of a turn once |
| AgentLoop.AgentRun.Finish | src/agent/agent-loop.ts:927-1015 | a turn without a call completes the run exactly with text, without abort, with a reviewable plan in plan mode, and outside it only when the run is not coding |
| AgentLoop.AgentRun.MoreWork | src/agent/agent-loop.ts:1019-1028 | a call is let through exactly without abort and with neither time nor tokens spent; otherwise the outcome is that of the abort or of the first spent budget |
| AgentLoop.AgentRun.Call | src/agent/agent-loop.ts:1030-1086 | requests a call and executes it, unless it is the third equal one in a row: that one is not executed and stops the run |
| AgentLoop.AgentRun.Execute | src/agent/agent-loop.ts:1088-1131 | an executed call is recorded once and closed by its result before anything else is decided |
| AgentLoop.AgentRun.Block | src/agent/agent-loop.ts:1064-1086 | a blocked call is closed without being executed, and the run stops for a repeated call |
| AgentLoop.AgentRun.Aborted | src/agent/agent-loop.ts:750-757 | the first abort decides between cancellation and the time budget |
| AgentLoop.AgentRun.OverBudget | src/agent/agent-loop.ts:432-471 | a budget outcome shows at least what was observed and at least its limit |
| AgentLoop.AgentRun.AfterTool | src/agent/agent-loop.ts:1132-1219 | exactly which tool results go on, complete the run, leave it incomplete or fail it, and with which outcome, by abort, control signal, tool and kind of error; only results that go on are charged |
| AgentLoop.AgentRun.RecordOutput | src/agent/agent-loop.ts:1206-1210 | counts a result for the model and stops the run exactly when a budget is spent |
| AgentLoop.AgentRun.TakeTurn | src/agent/agent-loop.ts:822-1219 | what a turn leads to is what its signals, the clock, the aborts and the tool demand |
| AgentLoop.AgentRun.RunInherited | src/agent/agent-loop.ts:581-746 | closes an inherited call before any model turn, and goes on or ends the run as its result demands |
| AgentLoop.AgentRun.Step | src/agent/agent-loop.ts:749-1219 | the step goes on, to exactly the next state, or ends the run, with exactly the outcome, that the world demands: completed, incomplete, cancelled, over budget, failed or thrown; and it keeps every promise of the loop |
| AgentLoop.RunAgentLoop | src/agent/agent-loop.ts:324-1226 | the run goes through steps that go on and ends at the first that does not, with the only outcome that the world allows; it has one whenever nothing in the world throws; and then: calls closed, turns within the limit, tokens and output past their limits only by the last amount, no three equal executed calls in a row, aggregate usage once and exact, coding runs completed only by an accepted finish_task |
| AgentLoop.EveryCallIsClosed | src/agent/agent-loop.ts:1036-1131 | in a closed trace every call is closed by its own result with no other call or turn in between |
| WorkspaceMutex.RunsKeep | src/changes/workspace-mutation-mutex.ts:32-59 | for any arrivals, aborts, failures and reactions the chain of tails keeps its invariant |
| WorkspaceMutex.MutualExclusion | src/changes/workspace-mutation-mutex.ts:32-59 | while a call of a key runs no other call of it runs or can start, also after aborts and cleanups |
| WorkspaceMutex.FirstComeFirstServed | src/changes/workspace-mutation-mutex.ts:32-59 | the calls of a key that run start in the order of their arrival |
| WorkspaceMutex.NoDeadlock | src/changes/workspace-mutation-mutex.ts:5-59 | if a call waits and nobody holds its key, a step of that key is possible |
| WorkspaceMutex.CanBeServed | src/changes/workspace-mutation-mutex.ts:32-59 | after every run a waiting call starts when the calls of its key before it start and end; nobody has to arrive, give up or clean up for it |
| WorkspaceMutex.PhasesMove | src/changes/workspace-mutation-mutex.ts:5-59 | a call goes from waiting to running to finished, or from waiting to given up, by its own steps only, and its abort while it waits and its end while it runs always take effect |
| WorkspaceMutex.StartedIff | src/changes/workspace-mutation-mutex.ts:52-58 | a call has started exactly when it runs or has finished; one that gave up never ran |

## Left out

- Other writers to the workspace during an apply: between a check and the next call they could interfere, since moving a file back is not no-replace.
- Inodes, modes, links, symbolic links and resolved paths of real files: a path stands for the file that was planned or published.
- The change journal.
- PatchStages.UniqueMissingDirectories: the alphabetical order of directories whose paths are equally long is not modelled; neither can be the parent of the other.
- PatchStages.FreshStages: random tokens are taken as distinct from each other and from existing names, as the random identities of the source are.
- The legacy V1 handoff lock, heartbeats, receipts, cancel controls, the launch handshake and process probing; the probe result is an input.
- Agreement of session log and handoff when a worker claims during a takeover: the event is appended before the swap, so it does not hold.
- HandoffProtocol.RunsAreSafe: a directory listing and the records it names are read in one step, and a file that is neither a revision nor a candidate does not appear.
- WorkerTakeover.Reconciler.Reconcile: whether the graph is queued with no attempt and no pending effect is an input, as the task graph and the effect ledger are not part of this model.
- WorkerTakeover.Reconciler.RunSwap: an attempt may stop at any step; an I/O call that fails without ending the process is part of `HandoffProtocol` only.
- DiffText.HeaderIsItsText: stands for the regular expression of the source; patterns of UUIDs and hashes elsewhere are not checked.
- The resolution of patch paths, case folding of targets, plan identities and the preview.
- Stripping of a leading byte order mark by text decoders, secret redaction and terminal sanitizing; the last two are any function that keeps texts well-formed.
- OutputCapture.TrailingIncompleteUtf8Bytes: the source tests once more for a tail byte that its own search has already excluded; that dead test is not repeated.
- Object files, metadata and their verification on disk; a flag says whether they fail.
- ArtifactRuntime.ArtifactSessionRuntime.Materialize: which error a failing store raises is not told apart from other I/O failures.
- Canonical JSON and SHA-256: fingerprints are any function of tool name and arguments, and content hashes are injective.
- AgentLoop.RunAgentLoop: failing publications of events, text deltas and the continuations handed to the provider are not modelled; a run that an exception leaves has no outcome.
- SessionLedger.ReconstructArtifactSessionLedger: sizes are unbounded integers, so the checks for safe integers are not repeated; the objects and references are listed in the order of their first storing, as the insertion order of the source's map.
- The command line, terminal interface, configuration, capability registry and run terminator.
