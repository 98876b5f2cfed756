/** The canonical text of a list of file patches, and its parse. */
module PatchRoundTrip {
  import opened Wrappers
  import opened Lines
  import opened PatchFormat
  import opened DiffText
  import opened UnifiedDiffParser
  import opened UnifiedDiff

  /**
   What a printer is free to choose: whether it leaves out a count of one, the text after each hunk
   header, and the index lines after each diff header.
   */
  datatype Layout = Layout(short: bool, section: string, index: seq<(string, string)>)

  const PLAIN := Layout(false, "", [])

  ghost predicate IsLayout(layout: Layout) {
    && IsSection(layout.section) && IsClean(layout.section)
    && forall i :: 0 <= i < |layout.index| ==> IsObjectName(layout.index[i].0) && IsObjectName(layout.index[i].1)
  }

  predicate IsObjectName(s: string) {
    IsHashText(s) && IsClean(s)
  }

  function IndexTexts(index: seq<(string, string)>): seq<string> {
    seq(|index|, i requires 0 <= i < |index| => IndexText(index[i].0, index[i].1))
  }

  function Position(start: nat, count: nat, short: bool): string {
    if short && count == 1 then Decimal(start) else Decimal(start) + "," + Decimal(count)
  }

  function HeaderLine(h: Hunk, layout: Layout): string {
    "@@ -" + Position(h.oldStart, h.oldCount, layout.short) + " +" + Position(h.newStart, h.newCount, layout.short)
    + " @@" + layout.section
  }

  function PrintHunk(h: Hunk, layout: Layout): seq<string> {
    [HeaderLine(h, layout)] + HunkText(h.lines)
  }

  function PrintHunks(hunks: seq<Hunk>, layout: Layout): seq<string> {
    if hunks == [] then [] else PrintHunk(hunks[0], layout) + PrintHunks(hunks[1..], layout)
  }

  function PrintFile(path: string, kind: ChangeKind, hunks: seq<Hunk>, layout: Layout): seq<string> {
    [DiffHeader(path)] + IndexTexts(layout.index) + [OldHeader(path, kind), NewHeader(path)] + PrintHunks(hunks, layout)
  }

  function PrintFiles(files: seq<FilePatch>, layout: Layout): seq<string> {
    if files == [] then []
    else PrintFile(files[0].path, files[0].kind, files[0].hunks, layout) + PrintFiles(files[1..], layout)
  }

  function PrintPatch(files: seq<FilePatch>, layout: Layout): string {
    Terminated(PrintFiles(files, layout))
  }

  /** The derived fields of a file patch are those of its canonical text. */
  ghost predicate IsCanonical(f: FilePatch, layout: Layout) {
    && f.diff == Terminated(PrintFile(f.path, f.kind, f.hunks, layout))
    && f.addedLines == TotalCount(Addition, f.hunks) && f.removedLines == TotalCount(Deletion, f.hunks)
  }

  predicate IsClean(s: string) {
    forall i :: 0 <= i < |s| ==> s[i] != '\0' && s[i] != '\r' && s[i] != '\n'
  }

  ghost predicate HunkIsClean(h: Hunk) {
    forall i :: 0 <= i < |h.lines| ==> IsClean(h.lines[i].text)
  }

  /** A file patch that a diff can show: no control characters in its path and texts. */
  ghost predicate IsPrintable(f: FilePatch, layout: Layout) {
    && WellFormedFile(f) && IsCanonical(f, layout) && IsClean(f.path)
    && forall k :: 0 <= k < |f.hunks| ==> HunkIsClean(f.hunks[k])
  }

  ghost predicate ArePrintable(files: seq<FilePatch>, layout: Layout) {
    IsLayout(layout) && forall k :: 0 <= k < |files| ==> IsPrintable(files[k], layout)
  }

  // ---------- the printed lines follow the grammar ----------

  lemma PrintedPosition(start: nat, count: nat, short: bool)
    ensures StandsFor(Position(start, count, short), start, count)
  {
    hide ParseInt;
    ParseDecimal(start);
    ParseDecimal(count);
    if !(short && count == 1) {
      var a, b := Decimal(start), Decimal(count);
      var s := a + "," + b;
      assert s[|a|] == ',' && s[..|a|] == a && s[|a| + 1..] == b;
    }
  }

  lemma PrintedHeader(h: Hunk, layout: Layout)
    requires IsLayout(layout)
    ensures IsHeaderOf(HeaderLine(h, layout), h) && HUNK_START <= HeaderLine(h, layout)
  {
    hide StandsFor, Position, IsSection;
    PrintedPosition(h.oldStart, h.oldCount, layout.short);
    PrintedPosition(h.newStart, h.newCount, layout.short);
    assert IsHeaderText(HeaderLine(h, layout), Position(h.oldStart, h.oldCount, layout.short),
                        Position(h.newStart, h.newCount, layout.short), layout.section);
  }

  predicate MayFollowHunk(post: seq<string>) {
    post == [] || HUNK_START <= post[0] || DIFF_START <= post[0]
  }

  lemma PrintedHunk(pre: seq<string>, h: Hunk, post: seq<string>, layout: Layout)
    requires WellFormedHunk(h) && MayFollowHunk(post) && IsLayout(layout)
    ensures HunkAt(pre + PrintHunk(h, layout) + post, |pre|, h)
    ensures HunkEnd(|pre|, h) == |pre + PrintHunk(h, layout)|
  {
    hide HunkText, WellFormedHunk, IsHeaderOf, HeaderLine, IsLayout;
    var lines := pre + PrintHunk(h, layout) + post;
    PrintedHeader(h, layout);
    var end := |pre + PrintHunk(h, layout)|;
    assert lines[|pre|] == PrintHunk(h, layout)[0];
    assert lines[|pre| + 1..end] == PrintHunk(h, layout)[1..] == HunkText(h.lines);
    assert post != [] ==> lines[end] == post[0];
  }

  lemma HunksMayFollow(hunks: seq<Hunk>, post: seq<string>, layout: Layout)
    requires post == [] || DIFF_START <= post[0]
    ensures MayFollowHunk(PrintHunks(hunks, layout) + post)
  {
    if hunks != [] { HeaderStarts(hunks[0], layout); }
  }

  lemma HeaderStarts(h: Hunk, layout: Layout)
    ensures HUNK_START <= HeaderLine(h, layout)
  {
  }

  lemma {:induction false} PrintedHunks(pre: seq<string>, hunks: seq<Hunk>, post: seq<string>, layout: Layout)
    requires (forall k :: 0 <= k < |hunks| ==> WellFormedHunk(hunks[k])) && (post == [] || DIFF_START <= post[0])
    requires IsLayout(layout)
    ensures HunksAt(pre + PrintHunks(hunks, layout) + post, |pre|, hunks)
    ensures HunksEnd(|pre|, hunks) == |pre + PrintHunks(hunks, layout)|
    decreases |hunks|
  {
    hide PrintHunk, WellFormedHunk, HunkAt, HunkEnd, MayFollowHunk, IsLayout;
    if hunks == [] {
      assert post != [] ==> (pre + PrintHunks(hunks, layout) + post)[|pre|] == post[0];
    } else {
      var h, rest := hunks[0], hunks[1..];
      var later := PrintHunks(rest, layout) + post;
      var first, others := PrintHunk(h, layout), PrintHunks(rest, layout);
      HunksMayFollow(rest, post, layout);
      PrintedHunk(pre, h, later, layout);
      PrintedHunks(pre + first, rest, post, layout);
      assert pre + PrintHunks(hunks, layout) + post == pre + first + later == pre + first + others + post;
      assert pre + PrintHunks(hunks, layout) == pre + first + others;
    }
  }

  lemma PrintedFile(pre: seq<string>, f: FilePatch, post: seq<string>, layout: Layout)
    requires IsPrintable(f, layout) && (post == [] || DIFF_START <= post[0]) && IsLayout(layout)
    ensures
      var printed := PrintFile(f.path, f.kind, f.hunks, layout);
      FileAt(pre + printed + post, |pre|, f, |pre + printed|)
  {
    hide DiffHeader, OldHeader, NewHeader, PrintHunks, HunksAt, HunksEnd, WellFormedHunk, HunkIsClean, IsClean, Join,
      TotalCount, ValidPath, IndexTexts, IsLayout, IndexLines;
    var printed := PrintFile(f.path, f.kind, f.hunks, layout);
    var lines, index := pre + printed + post, IndexTexts(layout.index);
    var headers := [DiffHeader(f.path)] + index + [OldHeader(f.path, f.kind), NewHeader(f.path)];
    var m, end := |pre| + 1 + |index|, |pre + printed|;
    PrintedHunks(pre + headers, f.hunks, post, layout);
    assert lines == pre + headers + PrintHunks(f.hunks, layout) + post;
    assert lines[|pre|] == headers[0] && lines[m] == headers[1 + |index|] && lines[m + 1] == headers[2 + |index|];
    assert lines[|pre| + 1..m] == index;
    PrintedIndex(lines, |pre| + 1, m, layout);
    assert lines[|pre|..end] == printed;
    assert HunksEnd(m + 2, f.hunks) == end;
    assert FileWith(lines, |pre|, m, f);
  }

  lemma PrintedIndex(lines: seq<string>, start: nat, next: nat, layout: Layout)
    requires IsLayout(layout) && start <= next <= |lines| && lines[start..next] == IndexTexts(layout.index)
    ensures IndexLines(lines, start, next)
  {
    hide IsObjectName, IsIndexLine, IndexText;
    forall i | start <= i < next ensures IsIndexLine(lines[i]) {
      assert lines[i] == lines[start..next][i - start];
      NameIsHash(layout.index[i - start].0);
      NameIsHash(layout.index[i - start].1);
      IndexTextIsIndex(layout.index[i - start].0, layout.index[i - start].1);
    }
  }

  lemma NameIsHash(s: string)
    requires IsObjectName(s)
    ensures IsHashText(s)
  {
  }

  lemma FileStartsDiff(path: string)
    ensures DIFF_START <= DiffHeader(path)
  {
  }

  lemma {:induction false} PrintedFiles(pre: seq<string>, files: seq<FilePatch>, layout: Layout)
    requires ArePrintable(files, layout)
    ensures FilesAt(pre + PrintFiles(files, layout), |pre|, files)
    decreases |files|
  {
    hide IsPrintable, FileAt, PrintFile, IsLayout;
    if files != [] {
      var f, rest := files[0], files[1..];
      var printed := PrintFile(f.path, f.kind, f.hunks, layout);
      assert forall k :: 0 <= k < |rest| ==> rest[k] == files[k + 1];
      PrintedFiles(pre + printed, rest, layout);
      StartsWithFile(rest, layout);
      PrintedFile(pre, f, PrintFiles(rest, layout), layout);
      assert pre + PrintFiles(files, layout) == pre + printed + PrintFiles(rest, layout);
      assert FilesAt(pre + PrintFiles(files, layout), |pre + printed|, rest);
    } else {
      assert pre + PrintFiles(files, layout) == pre;
    }
  }

  lemma StartsWithFile(files: seq<FilePatch>, layout: Layout)
    ensures PrintFiles(files, layout) == [] || DIFF_START <= PrintFiles(files, layout)[0]
  {
    hide DiffHeader, PrintHunks;
    if files != [] { FileStartsDiff(files[0].path); }
  }

  // ---------- the printed text is normal ----------

  ghost predicate AreClean(lines: seq<string>) {
    forall i :: 0 <= i < |lines| ==> IsClean(lines[i]) && lines[i] != ""
  }

  lemma CleanConcat(a: string, b: string)
    requires IsClean(a) && IsClean(b)
    ensures IsClean(a + b)
  {
  }

  lemma HeaderIsClean(h: Hunk, layout: Layout)
    requires IsLayout(layout)
    ensures IsClean(HeaderLine(h, layout)) && HeaderLine(h, layout) != ""
  {
    hide Position, IsClean, IsSection;
    PositionIsClean(h.oldStart, h.oldCount, layout.short);
    PositionIsClean(h.newStart, h.newCount, layout.short);
    var was, now := Position(h.oldStart, h.oldCount, layout.short), Position(h.newStart, h.newCount, layout.short);
    LiteralsAreClean();
    CleanConcat("@@ -", was);
    CleanConcat("@@ -" + was, " +");
    CleanConcat("@@ -" + was + " +", now);
    CleanConcat("@@ -" + was + " +" + now, " @@");
    CleanConcat("@@ -" + was + " +" + now + " @@", layout.section);
    assert HeaderLine(h, layout)[0] == '@';
  }

  lemma PositionIsClean(start: nat, count: nat, short: bool)
    ensures IsClean(Position(start, count, short))
  {
    hide Decimal;
  }

  lemma IndexIsClean(layout: Layout)
    requires IsLayout(layout)
    ensures AreClean(IndexTexts(layout.index))
  {
    hide IsClean, IsHashText, IsSection;
    forall i | 0 <= i < |layout.index|
      ensures IsClean(IndexTexts(layout.index)[i]) && IndexTexts(layout.index)[i] != ""
    {
      var a, b := layout.index[i].0, layout.index[i].1;
      assert IsObjectName(a) && IsObjectName(b);
      LiteralsAreClean();
      CleanConcat("index ", a);
      CleanConcat("index " + a, "..");
      CleanConcat("index " + a + "..", b);
      assert IndexText(a, b)[0] == 'i';
    }
  }

  lemma LiteralsAreClean()
    ensures IsClean("@@ -") && IsClean(" +") && IsClean(" @@") && IsClean("") && IsClean(",") && IsClean("index ")
      && IsClean("..")
    ensures IsClean("a/") && IsClean("b/") && IsClean(" b/") && IsClean("--- ") && IsClean("+++ ")
      && IsClean("/dev/null")
    ensures IsClean(DIFF_PREFIX) && IsClean(NO_NEWLINE_MARKER)
  {
  }

  lemma {:induction false} HunkTextIsClean(lines: seq<HunkLine>)
    requires forall i :: 0 <= i < |lines| ==> IsClean(lines[i].text)
    ensures AreClean(HunkText(lines))
  {
    if lines != [] {
      var l := lines[|lines| - 1];
      LineIsClean(l);
      LiteralsAreClean();
      hide LineOf, IsClean;
      assert NO_NEWLINE_MARKER != "";
      HunkTextIsClean(lines[..|lines| - 1]);
    }
  }

  lemma LineIsClean(l: HunkLine)
    requires IsClean(l.text)
    ensures IsClean(LineOf(l)) && LineOf(l) != ""
  {
  }

  lemma {:induction false} HunksAreClean(hunks: seq<Hunk>, layout: Layout)
    requires IsLayout(layout) && forall k :: 0 <= k < |hunks| ==> HunkIsClean(hunks[k])
    ensures AreClean(PrintHunks(hunks, layout))
  {
    hide HeaderLine, IsClean, HunkText, IsLayout;
    if hunks != [] {
      HeaderIsClean(hunks[0], layout);
      HunkTextIsClean(hunks[0].lines);
      HunksAreClean(hunks[1..], layout);
    }
  }

  lemma FileIsClean(f: FilePatch, layout: Layout)
    requires IsLayout(layout) && IsClean(f.path) && forall k :: 0 <= k < |f.hunks| ==> HunkIsClean(f.hunks[k])
    ensures AreClean(PrintFile(f.path, f.kind, f.hunks, layout))
  {
    hide IsClean, PrintHunks, HunkIsClean, IndexTexts, IsLayout;
    HunksAreClean(f.hunks, layout);
    IndexIsClean(layout);
    LiteralsAreClean();
    CleanConcat("a/", f.path);
    CleanConcat("b/", f.path);
    CleanConcat(" b/", f.path);
    CleanConcat(f.path, " b/" + f.path);
    CleanConcat(DIFF_PREFIX, f.path + (" b/" + f.path));
    CleanConcat("--- ", OldName(f.path, f.kind));
    CleanConcat("+++ ", "b/" + f.path);
    NoneEmpty(f);
  }

  lemma NoneEmpty(f: FilePatch)
    ensures DiffHeader(f.path) != "" && OldHeader(f.path, f.kind) != "" && NewHeader(f.path) != ""
  {
  }

  lemma {:induction false} FilesAreClean(files: seq<FilePatch>, layout: Layout)
    requires ArePrintable(files, layout)
    ensures AreClean(PrintFiles(files, layout))
  {
    hide PrintFile, IsClean, WellFormedFile, IsCanonical, HunkIsClean, IsLayout;
    if files != [] {
      FileIsClean(files[0], layout);
      assert forall k :: 0 <= k < |files| - 1 ==> files[1..][k] == files[k + 1];
      FilesAreClean(files[1..], layout);
    }
  }

  /** Clean lines make a text whose only breaks are between the lines. */
  lemma {:induction false} CleanJoin(lines: seq<string>)
    requires AreClean(lines) && lines != []
    ensures
      var s := Join(lines);
      s != "" && s[0] == lines[0][0] && s[|s| - 1] != '\n' && '\0' !in s && '\r' !in s
  {
    if |lines| > 1 {
      assert forall i :: 0 <= i < |lines| - 1 ==> lines[1..][i] == lines[i + 1];
      CleanJoin(lines[1..]);
      assert Join(lines) == lines[0] + "\n" + Join(lines[1..]);
    }
  }

  lemma NormalText(body: string)
    requires body != "" && body[|body| - 1] != '\n' && '\0' !in body && '\r' !in body && !IsWhitespace(body[0])
    requires Utf8Size(body + "\n") <= MAX_PATCH_BYTES
    ensures NormalizePatchText(body + "\n") == Ok(body + "\n")
  {
    hide Utf8Size, ReplaceCrLf, DropNewlines, IsWhitespace;
    var s := body + "\n";
    NoCrLf(s);
    assert s[0] == body[0];
    DropsOne(body);
  }

  lemma DropsOne(body: string)
    requires body != "" && body[|body| - 1] != '\n'
    ensures DropNewlines(body + "\n") == body
  {
  }

  lemma {:induction false} SplitPrinted(lines: seq<string>)
    requires AreClean(lines) && lines != []
    ensures LinesOf(Join(lines) + "\n") == lines
  {
    hide Join, Split;
    forall i | 0 <= i < |lines| ensures OneLine(lines[i]) { assert IsClean(lines[i]); }
    SplitJoin(lines);
    var s := Join(lines) + "\n";
    assert s[..|s| - 1] == Join(lines);
  }

  /**
   Printing in any layout and parsing give back the same file patches, also when a path contains the
   marker between the two names of a diff header, when counts of one are left out, and when index lines
   and section texts are added.
   */
  lemma RoundTrip(files: seq<FilePatch>, layout: Layout)
    requires files != [] && ArePrintable(files, layout) && WithinLimits(files)
    requires Utf8Size(PrintPatch(files, layout)) <= MAX_PATCH_BYTES
    ensures
      var patch := PrintPatch(files, layout);
      ParsePatch(patch) == Ok(ParsedPatch(Added(files), files, patch, Removed(files)))
  {
    hide IsPrintable, PrintFile, FilesAt, Utf8Size, NormalizePatchText, Join, Split, WithinLimits, AreClean, ParseFiles,
      IsWhitespace;
    var lines := PrintFiles(files, layout);
    FilesAreClean(files, layout);
    SomeLines(files, layout);
    CleanJoin(lines);
    NormalText(Join(lines));
    SplitPrinted(lines);
    PrintedFiles([], files, layout);
    assert [] + lines == lines;
    AcceptedIff(PrintPatch(files, layout), files);
  }

  lemma SomeLines(files: seq<FilePatch>, layout: Layout)
    requires files != []
    ensures
      var lines := PrintFiles(files, layout);
      lines != [] && lines[0] != "" && !IsWhitespace(lines[0][0])
  {
  }

  // ---------- a patch whose path contains the marker ----------

  const ONE_LINE := Hunk([HunkLine(Addition, false, "x")], 1, 1, 0, 0)

  /** Creates a file of one line under a path that contains the marker of diff headers. */
  function MarkedFile(): FilePatch {
    FilePatch(1, Terminated(PrintFile("a b/c", Create, [ONE_LINE], PLAIN)), [ONE_LINE], Create, "a b/c", 0)
  }

  lemma SizeIsSmall(s: string)
    ensures Utf8Size(s) <= 4 * |s|
  {
  }

  lemma {:induction false} TerminatedIsShort(lines: seq<string>, n: nat)
    requires forall i :: 0 <= i < |lines| ==> |lines[i]| <= n
    ensures |Terminated(lines)| <= |lines| * (n + 1)
  {
    if lines != [] {
      TerminatedFirst(lines);
      assert forall i :: 0 <= i < |lines| - 1 ==> lines[1..][i] == lines[i + 1];
      TerminatedIsShort(lines[1..], n);
    }
  }

  lemma OneLineHunk()
    ensures WellFormedHunk(ONE_LINE) && HunkIsClean(ONE_LINE) && Count(Addition, ONE_LINE.lines) == 1
      && Count(Deletion, ONE_LINE.lines) == 0
    ensures HunkText(ONE_LINE.lines) == [LineOf(ONE_LINE.lines[0])] && |LineOf(ONE_LINE.lines[0])| == 2
  {
    assert ONE_LINE.lines[0].kind == Addition;
    assert ONE_LINE.lines[..0] == [];
    assert forall kind :: Count(kind, []) == 0;
  }

  lemma MarkedFileIsPrintable()
    ensures IsPrintable(MarkedFile(), PLAIN) && Added([MarkedFile()]) == 1 && Removed([MarkedFile()]) == 0
  {
    OneLineHunk();
    hide WellFormedHunk, HunkIsClean, Terminated, PrintFile;
    assert [ONE_LINE][..0] == [] && [MarkedFile()][..0] == [];
    assert IsClean("a b/c") && ValidPath("a b/c");
  }

  lemma MarkedFileIsShort()
    ensures |PrintFiles([MarkedFile()], PLAIN)| == 5
    ensures forall i :: 0 <= i < 5 ==> |PrintFiles([MarkedFile()], PLAIN)[i]| <= 60
  {
    OneLineHunk();
    hide HunkText, LineOf, WellFormedHunk, HunkIsClean;
    assert [ONE_LINE][1..] == [] && [MarkedFile()][1..] == [];
    assert |Decimal(0)| == 1 && |Decimal(1)| == 1;
    var f := PrintFile("a b/c", Create, [ONE_LINE], PLAIN);
    assert PrintHunks([ONE_LINE], PLAIN) == PrintHunk(ONE_LINE, PLAIN);
    assert f == [DiffHeader("a b/c"), OldHeader("a b/c", Create), NewHeader("a b/c"),
                 HeaderLine(ONE_LINE, PLAIN), LineOf(ONE_LINE.lines[0])];
    assert PrintFiles([MarkedFile()], PLAIN) == f;
  }

  /** The header of such a file names its path although the marker occurs three times in it. */
  lemma MarkedPathParses()
    ensures
      var p := ParsePatch(PrintPatch([MarkedFile()], PLAIN));
      p.Ok? && p.value.files == [MarkedFile()] && p.value.files[0].path == "a b/c"
  {
    MarkedFileIsPrintable();
    MarkedFileIsShort();
    hide IsPrintable, PrintFiles, ParsePatch, Utf8Size, Terminated;
    TerminatedIsShort(PrintFiles([MarkedFile()], PLAIN), 60);
    assert Utf8Size(PrintPatch([MarkedFile()], PLAIN)) <= 4 * |PrintPatch([MarkedFile()], PLAIN)|;
    PlainIsLayout();
    RoundTrip([MarkedFile()], PLAIN);
  }

  lemma PlainIsLayout()
    ensures IsLayout(PLAIN)
  {
  }

  // ---------- a patch as it is usually written ----------

  const ORDINARY_HUNK := Hunk([HunkLine(Deletion, false, "a"), HunkLine(Addition, false, "b")], 1, 1, 1, 1)
  const ORDINARY_LAYOUT := Layout(true, " main", [("1a2b", "3c4d")])
  const ORDINARY_LINES :=
    ["diff --git a/f b/f", "index 1a2b..3c4d", "--- a/f", "+++ b/f", "@@ -1 +1 @@ main", "-a", "+b"]

  lemma OrdinaryIsLayout()
    ensures IsLayout(ORDINARY_LAYOUT)
  {
    assert IsClean(" main") && IsSection(" main") && IsObjectName("1a2b") && IsObjectName("3c4d");
  }

  lemma CountOfTwo(kind: LineKind, a: HunkLine, b: HunkLine)
    ensures Count(kind, [a, b]) == (if a.kind == kind then 1 else 0) + (if b.kind == kind then 1 else 0)
  {
    assert [a, b][..1] == [a] && [a][..0] == [];
    assert Count(kind, [a]) == if a.kind == kind then 1 else 0;
  }

  lemma TextOfTwo(a: HunkLine, b: HunkLine)
    requires !a.noNewline && !b.noNewline
    ensures HunkText([a, b]) == [LineOf(a), LineOf(b)]
  {
    assert [a, b][..1] == [a] && [a][..0] == [];
    assert HunkText([a]) == [LineOf(a)];
  }

  lemma OrdinaryHunk()
    ensures WellFormedHunk(ORDINARY_HUNK) && HunkIsClean(ORDINARY_HUNK) && HunkText(ORDINARY_HUNK.lines) == ["-a", "+b"]
    ensures Count(Addition, ORDINARY_HUNK.lines) == 1 && Count(Deletion, ORDINARY_HUNK.lines) == 1
  {
    var a, b := HunkLine(Deletion, false, "a"), HunkLine(Addition, false, "b");
    CountOfTwo(Addition, a, b);
    CountOfTwo(Deletion, a, b);
    CountOfTwo(Context, a, b);
    TextOfTwo(a, b);
    hide Count, HunkText;
    assert LineOf(a) == "-a" && LineOf(b) == "+b";
    assert ORDINARY_HUNK.lines[0] == a;
  }

  lemma OrdinaryLines()
    ensures PrintFile("f", Modify, [ORDINARY_HUNK], ORDINARY_LAYOUT) == ORDINARY_LINES
  {
    OrdinaryHunk();
    assert Decimal(1) == "1";
    hide HunkText, Decimal;
    assert Position(1, 1, true) == "1";
    hide Position;
    assert HeaderLine(ORDINARY_HUNK, ORDINARY_LAYOUT) == "@@ -1 +1 @@ main";
    hide HeaderLine;
    assert [ORDINARY_HUNK][1..] == [];
    assert PrintHunks([ORDINARY_HUNK], ORDINARY_LAYOUT) == ["@@ -1 +1 @@ main", "-a", "+b"];
    hide PrintHunks;
    assert IndexText("1a2b", "3c4d") == "index 1a2b..3c4d";
    assert IndexTexts(ORDINARY_LAYOUT.index) == ["index 1a2b..3c4d"];
    hide IndexTexts;
    assert DiffHeader("f") == "diff --git a/f b/f";
    assert OldHeader("f", Modify) == "--- a/f" && NewHeader("f") == "+++ b/f";
  }

  /** A one-line change of a file, with counts left out, an index line and a section text, is parsed as such. */
  lemma OrdinaryPatch()
    ensures
      var text := Terminated(ORDINARY_LINES);
      ParsePatch(text) == Ok(ParsedPatch(1, [FilePatch(1, text, [ORDINARY_HUNK], Modify, "f", 1)], text, 1))
  {
    OrdinaryIsPrintable();
    OrdinaryLines();
    OrdinaryIsLayout();
    var f := FilePatch(1, Terminated(ORDINARY_LINES), [ORDINARY_HUNK], Modify, "f", 1);
    hide *;
    OrdinaryIsShort();
    ShortFileParses(f, ORDINARY_LINES, ORDINARY_LAYOUT);
  }

  lemma OneFile(f: FilePatch)
    ensures Added([f]) == f.addedLines && Removed([f]) == f.removedLines
  {
    assert [f][..|[f]| - 1] == [];
    assert Added([]) == 0 && Removed([]) == 0;
  }

  lemma OrdinaryIsShort()
    ensures |ORDINARY_LINES| == 7 && forall i :: 0 <= i < 7 ==> |ORDINARY_LINES[i]| <= 60
  {
  }

  /** A printable file with short lines and few changes is parsed. */
  lemma ShortFileParses(f: FilePatch, lines: seq<string>, layout: Layout)
    requires IsPrintable(f, layout) && IsLayout(layout) && PrintFile(f.path, f.kind, f.hunks, layout) == lines
    requires |lines| <= 10 && f.addedLines + f.removedLines <= 10 && forall i :: 0 <= i < |lines| ==> |lines[i]| <= 60
    ensures
      var text := Terminated(lines);
      ParsePatch(text) == Ok(ParsedPatch(f.addedLines, [f], text, f.removedLines))
  {
    hide PrintFile, IsLayout, ParsePatch, Utf8Size, IsPrintable, Terminated;
    OneFile(f);
    hide Added, Removed;
    assert [f][1..] == [];
    assert PrintFiles([f], layout) == lines + [] == lines;
    hide PrintFiles;
    TerminatedIsShort(lines, 60);
    var text := Terminated(lines);
    assert |text| <= 610;
    SizeIsSmall(text);
    RoundTrip([f], layout);
  }

  lemma OrdinaryIsPrintable()
    ensures IsPrintable(FilePatch(1, Terminated(ORDINARY_LINES), [ORDINARY_HUNK], Modify, "f", 1), ORDINARY_LAYOUT)
  {
    OrdinaryHunk();
    OrdinaryLines();
    hide WellFormedHunk, HunkIsClean, Terminated, PrintFile, Count;
    assert [ORDINARY_HUNK][..0] == [];
    assert TotalCount(Addition, [ORDINARY_HUNK]) == 1 && TotalCount(Deletion, [ORDINARY_HUNK]) == 1;
    assert IsClean("f") && ValidPath("f");
  }
}
