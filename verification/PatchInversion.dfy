/** Undoing a parsed patch: what the parser guarantees is all that the inverse of planning needs. */
module PatchInversion {
  import opened Wrappers
  import opened Lines
  import opened PatchFormat
  import opened DiffText
  import opened UnifiedDiffParser
  import opened UnifiedDiff
  import opened PatchPlanner
  import opened PatchRoundTrip

  predicate AllOneLine(lines: seq<string>) {
    forall i :: 0 <= i < |lines| ==> OneLine(lines[i])
  }

  lemma {:induction false} TextsAreOneLine(lines: seq<HunkLine>)
    requires AllOneLine(HunkText(lines))
    ensures forall i :: 0 <= i < |lines| ==> OneLine(lines[i].text)
  {
    if lines != [] {
      var l, front := lines[|lines| - 1], HunkText(lines[..|lines| - 1]);
      assert forall i :: 0 <= i < |front| ==> HunkText(lines)[i] == front[i];
      assert HunkText(lines)[|front|] == LineOf(l);
      TextOfLine(l);
      TextsAreOneLine(lines[..|lines| - 1]);
    }
  }

  lemma TextOfLine(l: HunkLine)
    ensures OneLine(LineOf(l)) ==> OneLine(l.text)
  {
  }

  ghost predicate HunkIsOneLine(h: Hunk) {
    forall i :: 0 <= i < |h.lines| ==> OneLine(h.lines[i].text)
  }

  lemma HunkHasOneLines(lines: seq<string>, start: nat, h: Hunk)
    requires AllOneLine(lines) && HunkAt(lines, start, h)
    ensures HunkIsOneLine(h)
  {
    hide HunkText, IsHeaderOf, WellFormedHunk, OneLine;
    var part := lines[start + 1..HunkEnd(start, h)];
    assert forall i :: 0 <= i < |part| ==> part[i] == lines[start + 1 + i];
    TextsAreOneLine(h.lines);
  }

  lemma {:induction false} HunksHaveOneLines(lines: seq<string>, start: nat, hunks: seq<Hunk>)
    requires AllOneLine(lines) && HunksAt(lines, start, hunks)
    ensures forall k :: 0 <= k < |hunks| ==> HunkIsOneLine(hunks[k])
    decreases |hunks|
  {
    hide HunkAt, AllOneLine, HunkIsOneLine, AtFile;
    if hunks != [] {
      HunkHasOneLines(lines, start, hunks[0]);
      HunksHaveOneLines(lines, HunkEnd(start, hunks[0]), hunks[1..]);
      forall k | 0 <= k < |hunks| ensures HunkIsOneLine(hunks[k]) {
        if k > 0 { assert hunks[k] == hunks[1..][k - 1]; }
      }
    }
  }

  lemma FileHasOneLines(lines: seq<string>, start: nat, f: FilePatch, next: nat)
    requires AllOneLine(lines) && FileAt(lines, start, f, next)
    ensures HunksNewlineFree(f.hunks)
  {
    hide AllOneLine, HeaderAt, HunksAt, HunksEnd, TotalCount, Join;
    var m: nat :| m < |lines| && FileWith(lines, start, m, f) && next == HunksEnd(m + 2, f.hunks);
    HunksHaveOneLines(lines, m + 2, f.hunks);
    forall k, i | 0 <= k < |f.hunks| && 0 <= i < |f.hunks[k].lines| ensures OneLine(f.hunks[k].lines[i].text) {
      assert HunkIsOneLine(f.hunks[k]);
    }
  }

  lemma {:induction false} FilesHaveOneLines(lines: seq<string>, start: nat, files: seq<FilePatch>)
    requires AllOneLine(lines) && FilesAt(lines, start, files)
    ensures forall k :: 0 <= k < |files| ==> HunksNewlineFree(files[k].hunks)
    decreases |files|
  {
    hide AllOneLine, FileAt, HunksNewlineFree;
    if files != [] {
      var next: nat :| next <= |lines| && FileAt(lines, start, files[0], next) && FilesAt(lines, next, files[1..]);
      FileHasOneLines(lines, start, files[0], next);
      FilesHaveOneLines(lines, next, files[1..]);
      forall k | 0 <= k < |files| ensures HunksNewlineFree(files[k].hunks) {
        if k > 0 { assert files[k] == files[1..][k - 1]; }
      }
    }
  }

  /**
   A file of an accepted patch turns a text into another; the swapped hunks turn it back exactly when
   each new line without a newline ends the result and is not empty, and nothing is added after a kept
   last line without one.
   */
  lemma ParsedPatchInverts(patch: string, k: nat, preimage: string)
    requires ParsePatch(patch).Ok? && k < |ParsePatch(patch).value.files|
    requires Utf8Size(preimage) <= MAX_PATCH_TARGET_BYTES
    requires Simulation(ParsePatch(patch).value.files[k].hunks, preimage).Some?
    ensures
      var hunks := ParsePatch(patch).value.files[k].hunks;
      Simulation(Swap(hunks), Simulation(hunks, preimage).value) == Some(preimage)
      <==> LeavesLines(SplitText(preimage), hunks)
  {
    hide *;
    AcceptedIsOneLine(patch);
    TextInversion(ParsePatch(patch).value.files[k].hunks, preimage);
  }

  lemma LinesAreOneLine(n: string)
    requires n != ""
    ensures AllOneLine(LinesOf(n))
  {
    JoinSplit(n[..|n| - 1]);
  }

  lemma AcceptedIsOneLine(patch: string)
    requires ParsePatch(patch).Ok?
    ensures forall k :: 0 <= k < |ParsePatch(patch).value.files| ==>
      HunksNewlineFree(ParsePatch(patch).value.files[k].hunks)
  {
    hide ParsePatch, FilesAt, NormalizePatchText, HunksNewlineFree, LinesOf, AllOneLine, WithinLimits;
    var files := ParsePatch(patch).value.files;
    AcceptedIff(patch, files);
    NormalizedForm(patch);
    var n := NormalizePatchText(patch).value;
    LinesAreOneLine(n);
    FilesHaveOneLines(LinesOf(n), 0, files);
  }

  // ---------- a patch that is accepted and cannot be undone ----------

  /** Changes a file by the hunk whose new side has two lines without newlines. */
  function UnclosedFile(): FilePatch {
    FilePatch(2, Terminated(PrintFile("f", Modify, [UNCLOSED], PLAIN)), [UNCLOSED], Modify, "f", 1)
  }

  lemma TextOfThree(a: HunkLine, b: HunkLine, c: HunkLine)
    ensures HunkText([a, b, c]) == TextOfOne(a) + TextOfOne(b) + TextOfOne(c)
  {
    assert [a, b, c][..2] == [a, b] && [a, b][..1] == [a] && [a][..0] == [];
    assert HunkText([a]) == TextOfOne(a);
    assert HunkText([a, b]) == TextOfOne(a) + TextOfOne(b);
  }

  function TextOfOne(l: HunkLine): seq<string> {
    [LineOf(l)] + if l.noNewline then [NO_NEWLINE_MARKER] else []
  }

  lemma CountOfThree(kind: LineKind, a: HunkLine, b: HunkLine, c: HunkLine)
    ensures Count(kind, [a, b, c])
         == (if a.kind == kind then 1 else 0) + (if b.kind == kind then 1 else 0) + (if c.kind == kind then 1 else 0)
  {
    assert [a, b, c][..2] == [a, b] && [a, b][..1] == [a] && [a][..0] == [];
    assert Count(kind, [a]) == if a.kind == kind then 1 else 0;
    assert Count(kind, [a, b]) == Count(kind, [a]) + if b.kind == kind then 1 else 0;
  }

  lemma UnclosedCounts()
    ensures Count(Addition, UNCLOSED.lines) == 2 && Count(Deletion, UNCLOSED.lines) == 1
      && Count(Context, UNCLOSED.lines) == 0
    ensures WellFormedHunk(UNCLOSED) && HunkIsClean(UNCLOSED)
  {
    var l := UNCLOSED.lines;
    assert l == [l[0], l[1], l[2]];
    CountOfThree(Addition, l[0], l[1], l[2]);
    CountOfThree(Deletion, l[0], l[1], l[2]);
    CountOfThree(Context, l[0], l[1], l[2]);
    hide Count;
  }

  lemma UnclosedIsPrintable()
    ensures IsPrintable(UnclosedFile(), PLAIN) && Added([UnclosedFile()]) == 2 && Removed([UnclosedFile()]) == 1
  {
    UnclosedCounts();
    hide WellFormedHunk, HunkIsClean, Terminated, PrintFile;
    assert [UNCLOSED][..0] == [] && [UnclosedFile()][..0] == [];
    assert IsClean("f") && ValidPath("f");
  }

  lemma UnclosedIsShort()
    ensures |PrintFiles([UnclosedFile()], PLAIN)| == 10
    ensures forall i :: 0 <= i < 10 ==> |PrintFiles([UnclosedFile()], PLAIN)[i]| <= 60
  {
    var l := UNCLOSED.lines;
    assert l == [l[0], l[1], l[2]];
    TextOfThree(l[0], l[1], l[2]);
    hide HunkText;
    assert [UNCLOSED][1..] == [] && [UnclosedFile()][1..] == [];
    assert |Decimal(1)| == 1 && |Decimal(2)| == 1;
    assert PrintHunks([UNCLOSED], PLAIN) == PrintHunk(UNCLOSED, PLAIN);
    assert PrintFiles([UnclosedFile()], PLAIN) == PrintFile("f", Modify, [UNCLOSED], PLAIN);
  }

  /**
   The parser accepts a patch that turns "x" into "ab" and whose swapped hunks do not turn "ab" back
   into "x", because it takes a no-newline marker on any line.
   */
  lemma AcceptedAndNotUndone()
    ensures
      var p := ParsePatch(PrintPatch([UnclosedFile()], PLAIN));
      && p.Ok? && |p.value.files| == 1
      && var hunks := p.value.files[0].hunks;
         Simulation(hunks, "x") == Some("ab") && Simulation(Swap(hunks), "ab") != Some("x")
  {
    UnclosedIsPrintable();
    UnclosedIsShort();
    hide IsPrintable, PrintFiles, ParsePatch, Utf8Size, Terminated, Simulation, Swap;
    TerminatedIsShort(PrintFiles([UnclosedFile()], PLAIN), 60);
    assert Utf8Size(PrintPatch([UnclosedFile()], PLAIN)) <= 4 * |PrintPatch([UnclosedFile()], PLAIN)|;
    PlainIsLayout();
    RoundTrip([UnclosedFile()], PLAIN);
    UndoFails();
  }
}
