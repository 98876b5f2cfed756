/**
 Parsing a whole patch text: normalization, the file loop, and the printer that it undoes.
 */
module UnifiedDiff {
  import opened Wrappers
  import opened Lines
  import opened PatchFormat
  import opened DiffText
  import opened UnifiedDiffParser

  // ---------- normalization ----------

  function ReplaceCrLf(s: string): string {
    if |s| < 2 then s
    else if s[0] == '\r' && s[1] == '\n' then "\n" + ReplaceCrLf(s[2..])
    else [s[0]] + ReplaceCrLf(s[1..])
  }

  function DropNewlines(s: string): (r: string)
    ensures r <= s && (r == "" || r[|r| - 1] != '\n') && forall i :: |r| <= i < |s| ==> s[i] == '\n'
  {
    if s != "" && s[|s| - 1] == '\n' then DropNewlines(s[..|s| - 1]) else s
  }

  predicate IsBlank(s: string) {
    forall i :: 0 <= i < |s| ==> IsWhitespace(s[i])
  }

  function NormalizePatchText(patch: string): Result<string, ParseError> {
    if Utf8Size(patch) > MAX_PATCH_BYTES then Err(PatchTooLarge)
    else if '\0' in patch then Err(ContainsNul)
    else
      var normalized := ReplaceCrLf(patch);
      if '\r' in normalized then Err(InvalidLineEndings)
      else if IsBlank(normalized) then Err(PatchEmpty)
      else Ok(DropNewlines(normalized) + "\n")
  }

  lemma {:induction false} NoCrLf(s: string)
    requires '\r' !in s
    ensures ReplaceCrLf(s) == s
  {
    if |s| >= 2 {
      NoCrLf(s[1..]);
      assert s == [s[0]] + s[1..];
    }
  }

  lemma {:induction false} ReplaceKeeps(s: string, c: char)
    requires c !in s && c != '\n'
    ensures c !in ReplaceCrLf(s) && Utf8Size(ReplaceCrLf(s)) <= Utf8Size(s)
    decreases |s|
  {
    if |s| < 2 {
    } else if s[0] == '\r' && s[1] == '\n' {
      ReplaceKeeps(s[2..], c);
      assert s[1..][1..] == s[2..];
      SizeOfFirst('\n', ReplaceCrLf(s[2..]));
    } else {
      ReplaceKeeps(s[1..], c);
      SizeOfFirst(s[0], ReplaceCrLf(s[1..]));
    }
  }

  lemma SizeOfFirst(c: char, s: string)
    ensures Utf8Size([c] + s) == CharSize(c) + Utf8Size(s)
  {
  }

  /** A text with every line break written as carriage return and newline. */
  function WithCrLf(s: string): string {
    if s == "" then "" else (if s[0] == '\n' then "\r\n" else [s[0]]) + WithCrLf(s[1..])
  }

  lemma {:induction false} ReplaceWithCrLf(s: string)
    requires '\r' !in s
    ensures ReplaceCrLf(WithCrLf(s)) == s && Utf8Size(s) <= Utf8Size(WithCrLf(s))
    ensures '\0' in WithCrLf(s) <==> '\0' in s
  {
    if s != "" {
      var rest := WithCrLf(s[1..]);
      ReplaceWithCrLf(s[1..]);
      assert s == [s[0]] + s[1..];
      SizeOfFirst(s[0], s[1..]);
      if s[0] == '\n' {
        var t := "\r\n" + rest;
        assert t[2..] == rest;
        SizeOfFirst('\n', rest);
        SizeOfFirst('\r', "\n" + rest);
        assert t == ['\r'] + ("\n" + rest);
      } else {
        var t := [s[0]] + rest;
        assert t[1..] == rest;
        SizeOfFirst(s[0], rest);
      }
    }
  }

  /** A patch with carriage returns in its line breaks is parsed like the patch without them. */
  lemma CrLfParsesAlike(patch: string)
    requires '\r' !in patch && Utf8Size(WithCrLf(patch)) <= MAX_PATCH_BYTES
    ensures ParsePatch(WithCrLf(patch)) == ParsePatch(patch)
  {
    hide ParseFiles, LinesOf, DropNewlines, IsBlank, ReplaceCrLf, WithCrLf, Utf8Size;
    ReplaceWithCrLf(patch);
    NoCrLf(patch);
  }

  lemma {:induction false} LoneReturnStays(s: string, i: nat)
    requires i < |s| && s[i] == '\r' && (i == |s| - 1 || s[i + 1] != '\n')
    ensures '\r' in ReplaceCrLf(s)
    decreases |s|
  {
    if |s| >= 2 {
      if s[0] == '\r' && s[1] == '\n' {
        LoneReturnStays(s[2..], i - 2);
      } else if i > 0 {
        LoneReturnStays(s[1..], i - 1);
      }
    }
  }

  /** A carriage return that no newline follows is refused. */
  lemma LoneReturnIsRefused(patch: string, i: nat)
    requires Utf8Size(patch) <= MAX_PATCH_BYTES && '\0' !in patch
    requires i < |patch| && patch[i] == '\r' && (i == |patch| - 1 || patch[i + 1] != '\n')
    ensures ParsePatch(patch) == Err(InvalidLineEndings)
  {
    hide ReplaceCrLf, ParseFiles, Utf8Size;
    LoneReturnStays(patch, i);
  }

  /** A normalized text has no carriage return and ends with exactly one newline. */
  lemma NormalizedForm(patch: string)
    ensures NormalizePatchText(patch).Ok? ==>
      var n := NormalizePatchText(patch).value;
      && '\r' !in n && '\0' !in n && |n| >= 2 && n[|n| - 1] == '\n' && n[|n| - 2] != '\n'
  {
    if NormalizePatchText(patch).Ok? {
      var s := ReplaceCrLf(patch);
      ReplaceKeeps(patch, '\0');
      var d := DropNewlines(s);
      assert forall i :: 0 <= i < |d| ==> d[i] == s[i];
    }
  }

  /** Tab, line feed, vertical tab, form feed, carriage return, the spaces of Unicode, and the byte order mark. */
  const BLANKS: set<int> := {
    9, 10, 11, 12, 13, 32, 160, 5760, 8192, 8193, 8194, 8195, 8196, 8197, 8198, 8199, 8200, 8201, 8202, 8232, 8233,
    8239, 8287, 12288, 65279}

  /** A patch without carriage returns is refused as empty exactly when it has nothing but blanks. */
  lemma BlankIff(patch: string)
    requires Utf8Size(patch) <= MAX_PATCH_BYTES && '\0' !in patch && '\r' !in patch
    ensures NormalizePatchText(patch) == Err(PatchEmpty) <==> forall i :: 0 <= i < |patch| ==> patch[i] as int in BLANKS
  {
    hide Utf8Size, ReplaceCrLf, DropNewlines;
    NoCrLf(patch);
    forall i | 0 <= i < |patch| ensures IsWhitespace(patch[i]) <==> patch[i] as int in BLANKS { }
    hide IsWhitespace;
  }

  // ---------- the file loop ----------

  function Added(files: seq<FilePatch>): nat {
    if files == [] then 0 else Added(files[..|files| - 1]) + files[|files| - 1].addedLines
  }

  function Removed(files: seq<FilePatch>): nat {
    if files == [] then 0 else Removed(files[..|files| - 1]) + files[|files| - 1].removedLines
  }

  predicate WithinLimits(files: seq<FilePatch>) {
    |files| <= MAX_PATCH_FILES && Added(files) + Removed(files) <= MAX_PATCH_CHANGED_LINES
  }

  function ParseFiles(lines: seq<string>, cursor: nat, files: seq<FilePatch>): Result<seq<FilePatch>, ParseError>
    requires cursor <= |lines|
    decreases |lines| - cursor
  {
    if cursor == |lines| then
      if files == [] || Added(files) + Removed(files) == 0 then Err(PatchEmpty) else Ok(files)
    else
      var parsed := ParseFile(lines, cursor);
      if parsed.Err? then Err(parsed.error)
      else
        var files' := files + [parsed.value.0];
        if |files'| > MAX_PATCH_FILES then Err(TooManyFiles)
        else if Added(files') + Removed(files') > MAX_PATCH_CHANGED_LINES then Err(TooManyChangedLines)
        else ParseFiles(lines, parsed.value.1, files')
  }

  function LinesOf(normalized: string): (lines: seq<string>)
    requires normalized != ""
    ensures lines != []
  {
    Split(normalized[..|normalized| - 1])
  }

  /** The whole parse. */
  function ParsePatch(patch: string): Result<ParsedPatch, ParseError> {
    var normalized := NormalizePatchText(patch);
    if normalized.Err? then Err(normalized.error)
    else
      var files := ParseFiles(LinesOf(normalized.value), 0, []);
      if files.Err? then Err(files.error)
      else Ok(ParsedPatch(Added(files.value), files.value, normalized.value, Removed(files.value)))
  }

  /** Skips index metadata line by line. */
  method ReadMetadata(lines: seq<string>, start: nat) returns (r: Result<nat, ParseError>)
    ensures r == SkipMetadata(lines, start)
  {
    hide IsDenied, IsMetadata, IsIndexLine;
    var cursor := start;
    while cursor < |lines|
      invariant SkipMetadata(lines, start) == SkipMetadata(lines, cursor)
    {
      if IsDenied(lines[cursor]) { return Err(UnsupportedMetadata); }
      if !IsMetadata(lines[cursor]) { break; }
      if !IsIndexLine(lines[cursor]) { return Err(BadIndex); }
      cursor := cursor + 1;
    }
    return Ok(cursor);
  }

  /** Counts what a hunk changes. */
  method CountChanges(lines: seq<HunkLine>) returns (added: nat, removed: nat)
    ensures added == Count(Addition, lines) && removed == Count(Deletion, lines)
  {
    added, removed := 0, 0;
    for i := 0 to |lines|
      invariant added == Count(Addition, lines[..i]) && removed == Count(Deletion, lines[..i])
    {
      assert lines[..i + 1][..i] == lines[..i];
      if lines[i].kind == Addition { added := added + 1; } else if lines[i].kind == Deletion { removed := removed + 1; }
    }
    assert lines[..|lines|] == lines;
  }

  /** Reads the hunks of a file up to the next file. */
  method ReadHunks(lines: seq<string>, start: nat)
    returns (r: Result<(seq<Hunk>, nat), ParseError>, added: nat, removed: nat)
    requires start <= |lines|
    ensures r == ParseHunks(lines, start, [])
    ensures r.Ok? ==> added == TotalCount(Addition, r.value.0) && removed == TotalCount(Deletion, r.value.0)
  {
    hide IsDenied, ParseHunk, Count, HunkAt;
    var hunks: seq<Hunk>, cursor := [], start;
    added, removed := 0, 0;
    while cursor < |lines| && !(DIFF_START <= lines[cursor])
      invariant cursor <= |lines|
      invariant ParseHunks(lines, start, []) == ParseHunks(lines, cursor, hunks)
      invariant added == TotalCount(Addition, hunks) && removed == TotalCount(Deletion, hunks)
      decreases |lines| - cursor
    {
      if IsDenied(lines[cursor]) { r := Err(UnsupportedMetadata); return; }
      var parsed := ReadHunk(lines, cursor);
      if parsed.Err? { r := Err(parsed.error); return; }
      var (hunk, next) := parsed.value;
      HunkIffAt(lines, cursor, hunk, next);
      HunkInside(lines, cursor, hunk);
      var more, fewer := CountChanges(hunk.lines);
      assert (hunks + [hunk])[..|hunks|] == hunks;
      hunks, cursor, added, removed := hunks + [hunk], next, added + more, removed + fewer;
    }
    r := Ok((hunks, cursor));
  }

  /** Reads one file patch. */
  method ReadFile(lines: seq<string>, fileStart: nat) returns (r: Result<(FilePatch, nat), ParseError>)
    requires fileStart < |lines|
    ensures r == ParseFile(lines, fileStart)
  {
    hide SkipMetadata, DiffPath, PrefixedPath, FileKind, ParseHunks, TotalCount, Join;
    var path := ParseDiffHeader(lines[fileStart]);
    if path.Err? { return Err(path.error); }
    var m := ReadMetadata(lines, fileStart + 1);
    if m.Err? { return Err(m.error); }
    var cursor := m.value;
    var oldHeader := PrefixedPath(LineAt(lines, cursor), "--- ");
    if oldHeader.Err? { return Err(oldHeader.error); }
    cursor := cursor + 1;
    var newHeader := PrefixedPath(LineAt(lines, cursor), "+++ ");
    if newHeader.Err? { return Err(newHeader.error); }
    cursor := cursor + 1;
    var kind := FileKind(oldHeader.value, newHeader.value, path.value);
    if kind.Err? { return Err(kind.error); }
    assert ParseFileHeader(lines, fileStart) == Ok((path.value, kind.value, cursor));
    var hunks, added, removed := ReadHunks(lines, cursor);
    if hunks.Err? { return Err(hunks.error); }
    if hunks.value.0 == [] { return Err(EmptyFile); }
    HunksAdvance(lines, cursor, []);
    var next := hunks.value.1;
    return Ok((FilePatch(added, Join(lines[fileStart..next]) + "\n", hunks.value.0, kind.value, path.value, removed),
      next));
  }

  /** Parses a patch file by file. */
  method ParseUnifiedDiff(patch: string) returns (r: Result<ParsedPatch, ParseError>)
    ensures r == ParsePatch(patch)
  {
    hide NormalizePatchText, ParseFile, Split;
    var normalizedPatch := NormalizePatchText(patch);
    if normalizedPatch.Err? { return Err(normalizedPatch.error); }
    NormalizedForm(patch);
    var lines := LinesOf(normalizedPatch.value);
    var files: seq<FilePatch>, cursor: nat, addedLines: nat, removedLines: nat := [], 0, 0, 0;
    while cursor < |lines|
      invariant cursor <= |lines|
      invariant ParseFiles(lines, 0, []) == ParseFiles(lines, cursor, files)
      invariant addedLines == Added(files) && removedLines == Removed(files)
      decreases |lines| - cursor
    {
      var parsed := ReadFile(lines, cursor);
      if parsed.Err? { return Err(parsed.error); }
      var (file, next) := parsed.value;
      assert (files + [file])[..|files|] == files;
      files, cursor := files + [file], next;
      addedLines, removedLines := addedLines + file.addedLines, removedLines + file.removedLines;
      if |files| > MAX_PATCH_FILES { return Err(TooManyFiles); }
      if addedLines + removedLines > MAX_PATCH_CHANGED_LINES { return Err(TooManyChangedLines); }
    }
    if files == [] || addedLines + removedLines == 0 { return Err(PatchEmpty); }
    return Ok(ParsedPatch(addedLines, files, normalizedPatch.value, removedLines));
  }

  // ---------- the grammar of a patch ----------

  /** Files stand one after the other up to the end. */
  ghost predicate FilesAt(lines: seq<string>, start: nat, files: seq<FilePatch>)
    decreases |files|
  {
    if files == [] then start == |lines|
    else exists next: nat :: next <= |lines| && FileAt(lines, start, files[0], next) && FilesAt(lines, next, files[1..])
  }

  lemma {:induction false} LimitsOfPrefix(files: seq<FilePatch>, more: seq<FilePatch>)
    ensures Added(files) <= Added(files + more) && Removed(files) <= Removed(files + more)
  {
    if more == [] {
      assert files + more == files;
    } else {
      assert (files + more)[..|files + more| - 1] == files + more[..|more| - 1];
      LimitsOfPrefix(files, more[..|more| - 1]);
    }
  }

  lemma FileAtInside(lines: seq<string>, start: nat, f: FilePatch, next: nat)
    requires FileAt(lines, start, f, next)
    ensures start < next <= |lines|
    ensures f.addedLines + f.removedLines > 0
  {
    hide HeaderAt, HunksEnd;
    var m: nat :| m < |lines| && FileWith(lines, start, m, f) && next == HunksEnd(m + 2, f.hunks);
    SomeChange(lines, m + 2, f.hunks);
  }

  lemma {:induction false} SomeChange(lines: seq<string>, start: nat, hunks: seq<Hunk>)
    requires HunksAt(lines, start, hunks) && hunks != []
    ensures TotalCount(Addition, hunks) + TotalCount(Deletion, hunks) > 0
  {
    var h := hunks[0];
    CountsChange(h.lines);
    FirstCounts(Addition, hunks);
    FirstCounts(Deletion, hunks);
  }

  lemma {:induction false} CountsChange(lines: seq<HunkLine>)
    requires HasChange(lines)
    ensures Count(Addition, lines) + Count(Deletion, lines) > 0
  {
    if lines[|lines| - 1].kind == Context {
      var i :| 0 <= i < |lines| && lines[i].kind != Context;
      assert lines[..|lines| - 1][i].kind != Context;
      CountsChange(lines[..|lines| - 1]);
    }
  }

  lemma {:induction false} FirstCounts(kind: LineKind, hunks: seq<Hunk>)
    requires hunks != []
    ensures Count(kind, hunks[0].lines) <= TotalCount(kind, hunks)
  {
    if |hunks| > 1 { FirstCounts(kind, hunks[..|hunks| - 1]); }
  }

  /** The file loop reads exactly the files that stand there, within the limits. */
  lemma {:induction false} FilesIffAt(lines: seq<string>, start: nat, before: seq<FilePatch>, files: seq<FilePatch>)
    requires start <= |lines| && WithinLimits(before) && (before == [] || Added(before) + Removed(before) > 0)
    ensures ParseFiles(lines, start, before) == Ok(before + files)
       <==> FilesAt(lines, start, files) && WithinLimits(before + files) && before + files != []
    decreases |lines| - start
  {
    hide ParseFile, FileAt, Added, Removed;
    if start == |lines| {
      if files == [] { assert before + files == before; NoFile(); } else { NoFileAtEnd(lines, files); }
    } else {
      if ParseFile(lines, start).Ok? {
        var (f, next) := ParseFile(lines, start).value;
        FileIffAt(lines, start, f, next);
        FileAtInside(lines, start, f, next);
        OneFileMore(before, f);
        FilesFirst(lines, start, before, files);
      }
      if files != [] && FilesAt(lines, start, files) {
        var next: nat :| next <= |lines| && FileAt(lines, start, files[0], next) && FilesAt(lines, next, files[1..]);
        FileIffAt(lines, start, files[0], next);
      }
    }
  }

  lemma NoFile()
    ensures Added([]) == 0 && Removed([]) == 0
  {
  }

  lemma NoFileAtEnd(lines: seq<string>, files: seq<FilePatch>)
    requires files != []
    ensures !FilesAt(lines, |lines|, files)
  {
    forall next: nat ensures !FileAt(lines, |lines|, files[0], next) {
      if FileAt(lines, |lines|, files[0], next) { FileAtInside(lines, |lines|, files[0], next); }
    }
  }

  lemma OneFileMore(before: seq<FilePatch>, f: FilePatch)
    ensures Added(before + [f]) == Added(before) + f.addedLines
      && Removed(before + [f]) == Removed(before) + f.removedLines
  {
  }

  lemma {:induction false} FilesFirst(lines: seq<string>, start: nat, before: seq<FilePatch>, files: seq<FilePatch>)
    requires start < |lines| && WithinLimits(before) && ParseFile(lines, start).Ok?
    ensures ParseFiles(lines, start, before) == Ok(before + files)
       <==> FilesAt(lines, start, files) && WithinLimits(before + files) && before + files != []
    decreases |lines| - start, 0
  {
    hide ParseFile, FileAt, Added, Removed;
    var (f, next) := ParseFile(lines, start).value;
    FileIffAt(lines, start, f, next);
    FileAtInside(lines, start, f, next);
    OneFileMore(before, f);
    if ParseFiles(lines, start, before) == Ok(before + files) {
      FilesKept(lines, next, before + [f]);
      assert (before + files)[..|before| + 1] == before + [f];
      assert files[0] == (before + files)[|before|] == f;
      assert before + files == before + [f] + files[1..];
      FilesIffAt(lines, next, before + [f], files[1..]);
    }
    if FilesAt(lines, start, files) && WithinLimits(before + files) {
      var mid: nat :| mid <= |lines| && FileAt(lines, start, files[0], mid) && FilesAt(lines, mid, files[1..]);
      FileIffAt(lines, start, files[0], mid);
      assert before + files == before + [f] + files[1..];
      LimitsOfPrefix(before + [f], files[1..]);
      FilesIffAt(lines, next, before + [f], files[1..]);
    }
  }

  lemma {:induction false} FilesKept(lines: seq<string>, cursor: nat, files: seq<FilePatch>)
    requires cursor <= |lines|
    ensures ParseFiles(lines, cursor, files).Ok? ==> files <= ParseFiles(lines, cursor, files).value
    decreases |lines| - cursor
  {
    hide ParseFile, Added, Removed;
    if cursor < |lines| && ParseFile(lines, cursor).Ok? {
      FilesKept(lines, ParseFile(lines, cursor).value.1, files + [ParseFile(lines, cursor).value.0]);
    }
  }

  /**
   A patch is accepted exactly when its normalized lines are those of some files within the limits,
   and the result is those files.
   */
  lemma AcceptedIff(patch: string, files: seq<FilePatch>)
    ensures
      (ParsePatch(patch).Ok? && ParsePatch(patch).value.files == files)
      <==>
      var n := NormalizePatchText(patch);
      n.Ok? && files != [] && WithinLimits(files) && FilesAt(LinesOf(n.value), 0, files)
  {
    hide ParseFiles, FilesAt, NormalizePatchText, Split;
    var n := NormalizePatchText(patch);
    if n.Ok? {
      NormalizedForm(patch);
      NoFile();
      FilesIffAt(LinesOf(n.value), 0, [], files);
      assert [] + files == files;
    }
  }

  // ---------- what an accepted patch says ----------

  /** The lines with a newline after each. */
  function Terminated(lines: seq<string>): string {
    if lines == [] then "" else Join(lines) + "\n"
  }

  function Diffs(files: seq<FilePatch>): string {
    if files == [] then "" else files[0].diff + Diffs(files[1..])
  }

  lemma {:induction false} TerminatedConcat(a: seq<string>, b: seq<string>)
    ensures Terminated(a + b) == Terminated(a) + Terminated(b)
  {
    hide Join;
    if a == [] {
      assert a + b == b;
    } else {
      hide Terminated;
      TerminatedConcat(a[1..], b);
      assert (a + b)[1..] == a[1..] + b;
      TerminatedFirst(a);
      TerminatedFirst(a + b);
    }
  }

  lemma TerminatedFirst(a: seq<string>)
    requires a != []
    ensures Terminated(a) == a[0] + "\n" + Terminated(a[1..])
  {
  }

  lemma {:induction false} DiffsAreLines(lines: seq<string>, start: nat, files: seq<FilePatch>)
    requires start <= |lines| && FilesAt(lines, start, files)
    ensures Diffs(files) == Terminated(lines[start..])
    decreases |files|
  {
    hide FileAt, Terminated, WellFormedHunk, TotalCount, ValidPath;
    if files == [] {
      TerminatedParts(lines, start, start);
    } else {
      var next: nat :| next <= |lines| && FileAt(lines, start, files[0], next) && FilesAt(lines, next, files[1..]);
      DiffOfFile(lines, start, files[0], next);
      DiffsAreLines(lines, next, files[1..]);
      TerminatedParts(lines, start, next);
    }
  }

  lemma TerminatedParts(lines: seq<string>, start: nat, next: nat)
    requires start <= next <= |lines|
    ensures Terminated(lines[start..]) == Terminated(lines[start..next]) + Terminated(lines[next..])
    ensures start == |lines| ==> Terminated(lines[start..]) == ""
  {
    hide Join;
    TerminatedConcat(lines[start..next], lines[next..]);
    assert lines[start..] == lines[start..next] + lines[next..];
  }

  lemma DiffOfFile(lines: seq<string>, start: nat, f: FilePatch, next: nat)
    requires FileAt(lines, start, f, next)
    ensures start < next <= |lines| && f.diff == Terminated(lines[start..next])
    ensures f.hunks != [] && forall k :: 0 <= k < |f.hunks| ==> WellFormedHunk(f.hunks[k])
    ensures f.addedLines == TotalCount(Addition, f.hunks) && f.removedLines == TotalCount(Deletion, f.hunks)
    ensures ValidPath(f.path)
  {
    hide HunksEnd, Join, WellFormedHunk, HeaderAt, HunksAt, TotalCount, ValidPath;
    var m: nat :| m < |lines| && FileWith(lines, start, m, f) && next == HunksEnd(m + 2, f.hunks);
    HunksAreWellFormed(lines, m + 2, f.hunks);
    HeaderHasValidPath(lines, start, f.path, f.kind, m);
  }

  lemma HeaderHasValidPath(lines: seq<string>, start: nat, path: string, kind: ChangeKind, m: nat)
    requires HeaderAt(lines, start, path, kind, m)
    ensures ValidPath(path)
  {
  }

  lemma {:induction false} HunksAreWellFormed(lines: seq<string>, start: nat, hunks: seq<Hunk>)
    requires HunksAt(lines, start, hunks)
    ensures forall k :: 0 <= k < |hunks| ==> WellFormedHunk(hunks[k])
    decreases |hunks|
  {
    hide WellFormedHunk, HunkEnd, HunkAt, AtFile;
    if hunks != [] {
      WellFormedAt(lines, start, hunks[0]);
      HunksAreWellFormed(lines, HunkEnd(start, hunks[0]), hunks[1..]);
      forall k | 0 <= k < |hunks| ensures WellFormedHunk(hunks[k]) {
        if k > 0 { assert hunks[k] == hunks[1..][k - 1]; }
      }
    }
  }

  lemma WellFormedAt(lines: seq<string>, start: nat, h: Hunk)
    requires HunkAt(lines, start, h)
    ensures WellFormedHunk(h)
  {
  }

  ghost predicate WellFormedFile(f: FilePatch) {
    && ValidPath(f.path) && f.hunks != [] && (forall k :: 0 <= k < |f.hunks| ==> WellFormedHunk(f.hunks[k]))
    && f.addedLines == TotalCount(Addition, f.hunks) && f.removedLines == TotalCount(Deletion, f.hunks)
  }

  lemma {:induction false} FilesAreWellFormed(lines: seq<string>, start: nat, files: seq<FilePatch>)
    requires FilesAt(lines, start, files)
    ensures forall k :: 0 <= k < |files| ==> WellFormedFile(files[k])
    decreases |files|
  {
    hide FileAt, WellFormedHunk;
    if files != [] {
      var next: nat :| next <= |lines| && FileAt(lines, start, files[0], next) && FilesAt(lines, next, files[1..]);
      DiffOfFile(lines, start, files[0], next);
      FilesAreWellFormed(lines, next, files[1..]);
      forall k | 0 <= k < |files| ensures WellFormedFile(files[k]) {
        if k > 0 { assert files[k] == files[1..][k - 1]; }
      }
    }
  }

  /**
   For every accepted patch: nothing of it is lost in the files' diffs, every hunk has as many lines of
   each side as its header says, the counts add up, and the limits are kept.
   */
  lemma AcceptedPatch(patch: string)
    requires ParsePatch(patch).Ok?
    ensures
      var p := ParsePatch(patch).value;
      && NormalizePatchText(patch) == Ok(p.normalizedPatch) && Diffs(p.files) == p.normalizedPatch
      && (forall k :: 0 <= k < |p.files| ==> WellFormedFile(p.files[k]))
      && p.addedLines == Added(p.files) && p.removedLines == Removed(p.files)
      && p.files != [] && WithinLimits(p.files)
  {
    hide FilesAt, NormalizePatchText, Split, WellFormedFile, WithinLimits, ParseFiles, Join;
    var p := ParsePatch(patch).value;
    AcceptedIff(patch, p.files);
    NormalizedForm(patch);
    var n := p.normalizedPatch;
    var lines := LinesOf(n);
    FilesAreWellFormed(lines, 0, p.files);
    DiffsAreLines(lines, 0, p.files);
    JoinSplit(n[..|n| - 1]);
    assert lines[0..] == lines;
    assert n == n[..|n| - 1] + "\n";
  }
}
