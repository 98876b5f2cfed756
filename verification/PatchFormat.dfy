/** What a parsed patch consists of. */
module PatchFormat {

  datatype LineKind = Context | Addition | Deletion

  datatype HunkLine = HunkLine(kind: LineKind, noNewline: bool, text: string)

  datatype Hunk = Hunk(lines: seq<HunkLine>, newCount: nat, newStart: nat, oldCount: nat, oldStart: nat)

  datatype ChangeKind = Create | Modify

  datatype FilePatch = FilePatch(
    addedLines: nat,
    diff: string,
    hunks: seq<Hunk>,
    kind: ChangeKind,
    path: string,
    removedLines: nat)

  datatype ParsedPatch = ParsedPatch(
    addedLines: nat,
    files: seq<FilePatch>,
    normalizedPatch: string,
    removedLines: nat)

  /** How many lines of a kind a hunk has. */
  function Count(kind: LineKind, lines: seq<HunkLine>): nat {
    if lines == [] then 0
    else Count(kind, lines[..|lines| - 1]) + if lines[|lines| - 1].kind == kind then 1 else 0
  }

  function TotalCount(kind: LineKind, hunks: seq<Hunk>): nat {
    if hunks == [] then 0
    else TotalCount(kind, hunks[..|hunks| - 1]) + Count(kind, hunks[|hunks| - 1].lines)
  }
}
