/**
 The parser of unified diffs, and the grammar that it decides: a patch is accepted exactly when its
 lines are those of a list of file patches within the limits, and then it is read as that list.
 */
module UnifiedDiffParser {
  import opened Wrappers
  import opened Lines
  import opened PatchFormat
  import opened DiffText

  const MAX_PATCH_BYTES := 16 * 1024
  const MAX_PATCH_FILES := 8
  const MAX_PATCH_CHANGED_LINES := 2000

  const NO_NEWLINE_MARKER := "\\ No newline at end of file"
  const DIFF_START := "diff --git "
  const HUNK_START := "@@ "

  // ---------- the lines of a hunk ----------

  function MarkOf(kind: LineKind): char {
    match kind case Context => ' ' case Addition => '+' case Deletion => '-'
  }

  function KindOf(line: string): Option<LineKind> {
    if line == "" then None
    else if line[0] == ' ' then Some(Context)
    else if line[0] == '-' then Some(Deletion)
    else if line[0] == '+' then Some(Addition)
    else None
  }

  function LineOf(l: HunkLine): string {
    [MarkOf(l.kind)] + l.text
  }

  /** The text lines of hunk lines: a marker follows each line that lacks its newline. */
  function HunkText(lines: seq<HunkLine>): seq<string> {
    if lines == [] then []
    else
      var l := lines[|lines| - 1];
      HunkText(lines[..|lines| - 1]) + [LineOf(l)] + if l.noNewline then [NO_NEWLINE_MARKER] else []
  }

  function OldLines(lines: seq<HunkLine>): nat {
    Count(Context, lines) + Count(Deletion, lines)
  }

  function NewLines(lines: seq<HunkLine>): nat {
    Count(Context, lines) + Count(Addition, lines)
  }

  function FlagLast(lines: seq<HunkLine>): seq<HunkLine>
    requires lines != []
  {
    lines[..|lines| - 1] + [lines[|lines| - 1].(noNewline := true)]
  }

  predicate HasChange(lines: seq<HunkLine>) {
    exists i :: 0 <= i < |lines| && lines[i].kind != Context
  }

  predicate ValidStart(start: nat, count: nat) {
    start <= MAX_SAFE_INTEGER && count <= MAX_SAFE_INTEGER && (count > 0 ==> start > 0)
  }

  /** Safe integers; lines that are there have numbers from one on. */
  predicate AreNumbered(start: nat, count: nat) {
    start < 0x20_0000_0000_0000 && count < 0x20_0000_0000_0000 && (start == 0 ==> count == 0)
  }

  /** The line counts of the header are those of the body, and something changes. */
  predicate WellFormedHunk(h: Hunk) {
    && AreNumbered(h.oldStart, h.oldCount) && AreNumbered(h.newStart, h.newCount)
    && OldLines(h.lines) == h.oldCount && NewLines(h.lines) == h.newCount && HasChange(h.lines)
  }

  /** Nothing, another hunk, or another file follows. */
  predicate EndsHunk(lines: seq<string>, next: nat) {
    next >= |lines| || HUNK_START <= lines[next] || DIFF_START <= lines[next]
  }

  function EndHunk(lines: seq<string>, next: nat, oldCount: nat, newCount: nat, parsed: seq<HunkLine>)
    : Result<(seq<HunkLine>, nat), ParseError>
  {
    if OldLines(parsed) != oldCount || NewLines(parsed) != newCount then Err(BadHunkCount)
    else if !HasChange(parsed) then Err(EmptyHunk)
    else if !EndsHunk(lines, next) then Err(BadHunkCount)
    else Ok((parsed, next))
  }

  /** Reading on from a cursor with some lines parsed. */
  function ParseBody(lines: seq<string>, cursor: nat, oldCount: nat, newCount: nat, parsed: seq<HunkLine>)
    : Result<(seq<HunkLine>, nat), ParseError>
    requires cursor <= |lines|
    decreases |lines| - cursor
  {
    if cursor == |lines| then EndHunk(lines, cursor, oldCount, newCount, parsed)
    else
      var line := lines[cursor];
      if line == NO_NEWLINE_MARKER then
        if parsed == [] || parsed[|parsed| - 1].noNewline then Err(BadNoNewline)
        else ParseBody(lines, cursor + 1, oldCount, newCount, FlagLast(parsed))
      else if OldLines(parsed) == oldCount && NewLines(parsed) == newCount then
        EndHunk(lines, cursor, oldCount, newCount, parsed)
      else if KindOf(line).None? then Err(BadHunkLine)
      else
        var parsed' := parsed + [HunkLine(KindOf(line).value, false, line[1..])];
        if OldLines(parsed') > oldCount || NewLines(parsed') > newCount then Err(BadHunkCount)
        else ParseBody(lines, cursor + 1, oldCount, newCount, parsed')
  }

  function CountOf(r: Range): nat
    requires ValidRange(r)
  {
    if r.count.None? then 1 else ParseInt(r.count.value)
  }

  function ParseHunk(lines: seq<string>, start: nat): Result<(Hunk, nat), ParseError>
    requires start < |lines|
  {
    var header := ScanHeader(lines[start]);
    if header.None? then Err(BadHunk)
    else
      var oldStart, oldCount := ParseInt(header.value.was.start), CountOf(header.value.was);
      var newStart, newCount := ParseInt(header.value.now.start), CountOf(header.value.now);
      if !ValidStart(oldStart, oldCount) || !ValidStart(newStart, newCount) then Err(BadHunk)
      else
        var body := ParseBody(lines, start + 1, oldCount, newCount, []);
        if body.Err? then Err(body.error)
        else Ok((Hunk(body.value.0, newCount, newStart, oldCount, oldStart), body.value.1))
  }

  // ---------- the grammar of a hunk ----------

  /** A decimal numeral, which may have leading zeros. */
  predicate IsNumeral(s: string, n: nat) {
    s != "" && AllDigits(s) && ParseInt(s) == n
  }

  /** The text of a position: the first line and the number of lines, which is left out for one line. */
  predicate StandsFor(s: string, start: nat, count: nat) {
    || (count == 1 && IsNumeral(s, start))
    || exists i :: 0 <= i < |s| && s[i] == ',' && IsNumeral(s[..i], start) && IsNumeral(s[i + 1..], count)
  }

  predicate IsHeaderText(line: string, was: string, now: string, section: string) {
    line == "@@ -" + was + " +" + now + " @@" + section && IsSection(section)
  }

  ghost predicate IsHeaderOf(line: string, h: Hunk) {
    exists was, now, section ::
      && IsHeaderText(line, was, now, section) && StandsFor(was, h.oldStart, h.oldCount)
      && StandsFor(now, h.newStart, h.newCount)
  }

  lemma RangeStandsFor(r: Range, start: nat, count: nat)
    requires ValidRange(r)
    ensures StandsFor(RangeText(r), start, count) <==> ParseInt(r.start) == start && CountOf(r) == count
  {
    hide ParseInt;
    var s := RangeText(r);
    if r.count.None? {
      assert s == r.start;
      NoComma(s);
    } else {
      assert s == r.start + "," + r.count.value;
      CommaAt(r.start, r.count.value);
      NotAllDigits(s, |r.start|);
    }
  }

  lemma NoComma(s: string)
    requires AllDigits(s)
    ensures forall i :: 0 <= i < |s| ==> s[i] != ','
  {
  }

  lemma NotAllDigits(s: string, i: nat)
    requires i < |s| && s[i] == ','
    ensures !AllDigits(s)
  {
  }

  lemma CommaAt(a: string, b: string)
    requires AllDigits(a) && AllDigits(b)
    ensures
      var s := a + "," + b;
      && s[|a|] == ',' && s[..|a|] == a && s[|a| + 1..] == b
      && forall i :: 0 <= i < |s| && s[i] == ',' ==> i == |a|
  {
  }

  lemma TextOfRange(s: string, start: nat, count: nat) returns (r: Range)
    requires StandsFor(s, start, count)
    ensures ValidRange(r) && RangeText(r) == s && ParseInt(r.start) == start && CountOf(r) == count
  {
    hide ParseInt, AllDigits;
    if count == 1 && IsNumeral(s, start) {
      r := Range(s, None);
    } else {
      var i :| 0 <= i < |s| && s[i] == ',' && IsNumeral(s[..i], start) && IsNumeral(s[i + 1..], count);
      r := Range(s[..i], Some(s[i + 1..]));
      assert s[..i] + ("," + s[i + 1..]) == s;
    }
  }

  /** The scanner finds the numbers that the text of a header stands for. */
  lemma HeaderStandsFor(line: string, h: Hunk)
    ensures
      var header := ScanHeader(line);
      IsHeaderOf(line, h) <==>
        && header.Some?
        && ParseInt(header.value.was.start) == h.oldStart && CountOf(header.value.was) == h.oldCount
        && ParseInt(header.value.now.start) == h.newStart && CountOf(header.value.now) == h.newCount
  {
    hide ScanHeader, ParseInt, CountOf, StandsFor, IsSection;
    var header := ScanHeader(line);
    if header.Some? {
      HeaderIsItsText(line, header.value);
      var section :| IsSection(section) && line == HeaderText(header.value, section);
      RangeStandsFor(header.value.was, h.oldStart, h.oldCount);
      RangeStandsFor(header.value.now, h.newStart, h.newCount);
      assert IsHeaderText(line, RangeText(header.value.was), RangeText(header.value.now), section);
    }
    if IsHeaderOf(line, h) {
      var was, now, section :|
        && IsHeaderText(line, was, now, section) && StandsFor(was, h.oldStart, h.oldCount)
        && StandsFor(now, h.newStart, h.newCount);
      var x := TextOfRange(was, h.oldStart, h.oldCount);
      var y := TextOfRange(now, h.newStart, h.newCount);
      assert line == HeaderText(Header(x, y), section);
      HeaderIsItsText(line, Header(x, y));
    }
  }

  function HunkEnd(start: nat, h: Hunk): nat {
    start + 1 + |HunkText(h.lines)|
  }

  predicate Slice(lines: seq<string>, start: nat, next: nat, part: seq<string>) {
    start <= next <= |lines| && lines[start..next] == part
  }

  /** A hunk stands at a line: its header, and then the text of its lines. */
  ghost predicate HunkAt(lines: seq<string>, start: nat, h: Hunk) {
    && start < |lines| && WellFormedHunk(h) && IsHeaderOf(lines[start], h)
    && Slice(lines, start + 1, HunkEnd(start, h), HunkText(h.lines))
    && EndsHunk(lines, HunkEnd(start, h))
  }

  lemma {:induction false} HunkTextConcat(a: seq<HunkLine>, b: seq<HunkLine>)
    ensures HunkText(a + b) == HunkText(a) + HunkText(b)
    ensures forall kind :: Count(kind, a + b) == Count(kind, a) + Count(kind, b)
  {
    if b == [] {
      assert a + b == a;
    } else {
      assert (a + b)[..|a + b| - 1] == a + b[..|b| - 1];
      HunkTextConcat(a, b[..|b| - 1]);
    }
  }

  lemma FlagLastText(lines: seq<HunkLine>)
    requires lines != [] && !lines[|lines| - 1].noNewline
    ensures HunkText(FlagLast(lines)) == HunkText(lines) + [NO_NEWLINE_MARKER]
    ensures OldLines(FlagLast(lines)) == OldLines(lines) && NewLines(FlagLast(lines)) == NewLines(lines)
  {
    hide HunkText, OldLines, NewLines, LineOf;
    var front, l := lines[..|lines| - 1], lines[|lines| - 1];
    assert lines == front + [l];
    OneMore(front, l);
    OneMore(front, l.(noNewline := true));
    LineOfUnflagged(l);
    assert HunkText(lines) == HunkText(front) + [LineOf(l)];
  }

  lemma OneMore(lines: seq<HunkLine>, l: HunkLine)
    ensures HunkText(lines + [l]) == HunkText(lines) + [LineOf(l)] + (if l.noNewline then [NO_NEWLINE_MARKER] else [])
    ensures OldLines(lines + [l]) == OldLines(lines) + (if l.kind == Addition then 0 else 1)
    ensures NewLines(lines + [l]) == NewLines(lines) + (if l.kind == Deletion then 0 else 1)
  {
  }

  lemma LineOfUnflagged(l: HunkLine)
    ensures LineOf(l.(noNewline := true)) == LineOf(l)
  {
  }

  lemma KindOfLine(l: HunkLine)
    ensures KindOf(LineOf(l)) == Some(l.kind) && LineOf(l)[1..] == l.text && LineOf(l) != NO_NEWLINE_MARKER
  {
  }

  lemma LineOfKind(line: string)
    requires KindOf(line).Some?
    ensures LineOf(HunkLine(KindOf(line).value, false, line[1..])) == line
  {
  }

  /** Whatever is read has exactly the text that was read. */
  lemma {:induction false} BodySound(lines: seq<string>, cursor: nat, oldCount: nat, newCount: nat,
                                     parsed: seq<HunkLine>)
    requires cursor <= |lines| && ParseBody(lines, cursor, oldCount, newCount, parsed).Ok?
    ensures
      var (all, next) := ParseBody(lines, cursor, oldCount, newCount, parsed).value;
      && cursor <= next <= |lines| && HunkText(all) == HunkText(parsed) + lines[cursor..next]
      && OldLines(all) == oldCount && NewLines(all) == newCount && HasChange(all) && EndsHunk(lines, next)
    decreases |lines| - cursor
  {
    hide HunkText, Count, HasChange, EndsHunk, OldLines, NewLines, FlagLast, LineOf;
    if cursor < |lines| {
      var line := lines[cursor];
      if line == NO_NEWLINE_MARKER {
        FlagLastText(parsed);
        BodySound(lines, cursor + 1, oldCount, newCount, FlagLast(parsed));
        ReadOne(lines, cursor, HunkText(parsed), HunkText(FlagLast(parsed)));
      } else if !(OldLines(parsed) == oldCount && NewLines(parsed) == newCount) {
        var l := HunkLine(KindOf(line).value, false, line[1..]);
        LineOfKind(line);
        OneMore(parsed, l);
        BodySound(lines, cursor + 1, oldCount, newCount, parsed + [l]);
        ReadOne(lines, cursor, HunkText(parsed), HunkText(parsed + [l]));
      }
    }
  }

  lemma ReadOne(lines: seq<string>, cursor: nat, before: seq<string>, after: seq<string>)
    requires cursor < |lines| && after == before + [lines[cursor]]
    ensures forall next :: cursor + 1 <= next <= |lines| ==>
      after + lines[cursor + 1..next] == before + lines[cursor..next]
  {
  }

  /** The text of hunk lines that complete the counts is read as those lines. */
  lemma {:induction false} BodyComplete(lines: seq<string>, cursor: nat, next: nat, oldCount: nat, newCount: nat,
                                        parsed: seq<HunkLine>, rest: seq<HunkLine>)
    requires Slice(lines, cursor, next, HunkText(rest)) && EndsHunk(lines, next)
    requires OldLines(parsed + rest) == oldCount && NewLines(parsed + rest) == newCount && HasChange(parsed + rest)
    ensures ParseBody(lines, cursor, oldCount, newCount, parsed) == Ok((parsed + rest, next))
    decreases |rest|
  {
    hide HunkText, Count, HasChange, OldLines, NewLines;
    if rest == [] {
      HunkTextEmpty();
      assert parsed + rest == parsed;
      NotMarker(lines, next);
    } else {
      var l := rest[0];
      var more := parsed + [l];
      assert [l] + rest[1..] == rest && parsed + rest == more + rest[1..];
      FirstText(l, rest[1..], lines, cursor, next);
      CountsGrow(parsed, l, rest[1..]);
      BodyComplete(lines, cursor + Width(l), next, oldCount, newCount, more, rest[1..]);
      BodyStep(lines, cursor, oldCount, newCount, parsed, l);
    }
  }

  function Width(l: HunkLine): nat {
    if l.noNewline then 2 else 1
  }

  lemma NotMarker(lines: seq<string>, next: nat)
    requires EndsHunk(lines, next)
    ensures next < |lines| ==> lines[next] != NO_NEWLINE_MARKER
  {
    assert NO_NEWLINE_MARKER[0] == '\\' && HUNK_START[0] == '@' && DIFF_START[0] == 'd';
  }

  lemma FirstText(l: HunkLine, rest: seq<HunkLine>, lines: seq<string>, cursor: nat, next: nat)
    requires Slice(lines, cursor, next, HunkText([l] + rest))
    ensures cursor + Width(l) <= next && lines[cursor] == LineOf(l)
    ensures l.noNewline ==> lines[cursor + 1] == NO_NEWLINE_MARKER
    ensures Slice(lines, cursor + Width(l), next, HunkText(rest))
  {
    HunkTextConcat([l], rest);
    OneMore([], l);
    assert [] + [l] == [l];
    HunkTextEmpty();
    hide HunkText;
    var part := lines[cursor..next];
    assert part[0] == lines[cursor];
    assert l.noNewline ==> part[1] == lines[cursor + 1];
    assert part[Width(l)..] == lines[cursor + Width(l)..next];
  }

  lemma CountsGrow(parsed: seq<HunkLine>, l: HunkLine, rest: seq<HunkLine>)
    ensures OldLines(parsed + [l]) <= OldLines(parsed + [l] + rest)
      && NewLines(parsed + [l]) <= NewLines(parsed + [l] + rest)
    ensures OldLines(parsed) < OldLines(parsed + [l] + rest) || NewLines(parsed) < NewLines(parsed + [l] + rest)
  {
    HunkTextConcat(parsed + [l], rest);
    OneMore(parsed, l);
  }

  lemma BodyStep(lines: seq<string>, cursor: nat, oldCount: nat, newCount: nat, parsed: seq<HunkLine>, l: HunkLine)
    requires cursor + Width(l) <= |lines| && lines[cursor] == LineOf(l)
    requires l.noNewline ==> lines[cursor + 1] == NO_NEWLINE_MARKER
    requires OldLines(parsed + [l]) <= oldCount && NewLines(parsed + [l]) <= newCount
    requires OldLines(parsed) < oldCount || NewLines(parsed) < newCount
    ensures ParseBody(lines, cursor, oldCount, newCount, parsed)
         == ParseBody(lines, cursor + Width(l), oldCount, newCount, parsed + [l])
  {
    hide HunkText, Count, OldLines, NewLines;
    KindOfLine(l);
    var open := l.(noNewline := false);
    OneMore(parsed, l);
    OneMore(parsed, open);
    if l.noNewline {
      assert FlagLast(parsed + [open]) == parsed + [l];
    }
  }

  /** A hunk is read at a line exactly when it stands there. */
  lemma HunkIffAt(lines: seq<string>, start: nat, h: Hunk, next: nat)
    requires start < |lines|
    ensures ParseHunk(lines, start) == Ok((h, next)) <==> HunkAt(lines, start, h) && next == HunkEnd(start, h)
  {
    hide HunkText, Count, HasChange, EndsHunk, OldLines, NewLines, ScanHeader, ParseInt, ParseBody, IsHeaderOf, CountOf;
    HunkTextEmpty();
    HeaderStandsFor(lines[start], h);
    if ParseHunk(lines, start) == Ok((h, next)) {
      BodySound(lines, start + 1, h.oldCount, h.newCount, []);
      assert [] + lines[start + 1..next] == lines[start + 1..next];
    }
    if HunkAt(lines, start, h) && next == HunkEnd(start, h) {
      assert [] + h.lines == h.lines;
      BodyComplete(lines, start + 1, next, h.oldCount, h.newCount, [], h.lines);
    }
  }

  lemma HunkTextEmpty()
    ensures HunkText([]) == []
  {
  }

  /** Reads a hunk line by line. */
  method ReadHunk(lines: seq<string>, start: nat) returns (r: Result<(Hunk, nat), ParseError>)
    requires start < |lines|
    ensures r == ParseHunk(lines, start)
  {
    hide Count, HunkText, ScanHeader, ParseInt, EndsHunk;
    var header := ScanHeader(lines[start]);
    if header.None? { return Err(BadHunk); }
    var oldStart, oldCount := ParseInt(header.value.was.start), CountOf(header.value.was);
    var newStart, newCount := ParseInt(header.value.now.start), CountOf(header.value.now);
    if !ValidStart(oldStart, oldCount) || !ValidStart(newStart, newCount) { return Err(BadHunk); }
    var parsed: seq<HunkLine>, oldSeen: nat, newSeen: nat, cursor: nat := [], 0, 0, start + 1;
    NothingSeen();
    hide OldLines, NewLines, HasChange, KindOf;
    while cursor < |lines|
      invariant cursor <= |lines|
      invariant oldSeen == OldLines(parsed) && newSeen == NewLines(parsed)
      invariant ParseBody(lines, start + 1, oldCount, newCount, [])
        == ParseBody(lines, cursor, oldCount, newCount, parsed)
      invariant cursor < |lines|
        || ParseBody(lines, cursor, oldCount, newCount, parsed) == EndHunk(lines, cursor, oldCount, newCount, parsed)
    {
      var line := lines[cursor];
      if line == NO_NEWLINE_MARKER {
        if parsed == [] || parsed[|parsed| - 1].noNewline { return Err(BadNoNewline); }
        FlagLastText(parsed);
        parsed := FlagLast(parsed);
        cursor := cursor + 1;
        continue;
      }
      if oldSeen == oldCount && newSeen == newCount { break; }
      var kind := KindOf(line);
      if kind.None? { return Err(BadHunkLine); }
      OneMore(parsed, HunkLine(kind.value, false, line[1..]));
      parsed := parsed + [HunkLine(kind.value, false, line[1..])];
      if kind.value != Addition { oldSeen := oldSeen + 1; }
      if kind.value != Deletion { newSeen := newSeen + 1; }
      if oldSeen > oldCount || newSeen > newCount { return Err(BadHunkCount); }
      cursor := cursor + 1;
    }
    assert ParseBody(lines, cursor, oldCount, newCount, parsed) == EndHunk(lines, cursor, oldCount, newCount, parsed);
    if oldSeen != oldCount || newSeen != newCount { return Err(BadHunkCount); }
    if !HasChange(parsed) { return Err(EmptyHunk); }
    if !EndsHunk(lines, cursor) { return Err(BadHunkCount); }
    return Ok((Hunk(parsed, newCount, newStart, oldCount, oldStart), cursor));
  }

  lemma NothingSeen()
    ensures OldLines([]) == 0 && NewLines([]) == 0
  {
  }

  // ---------- files ----------

  predicate IsMetadata(line: string) {
    "index " <= line
  }

  /** Where the index lines after a diff header end. */
  function SkipMetadata(lines: seq<string>, cursor: nat): (r: Result<nat, ParseError>)
    ensures r.Ok? ==> cursor <= r.value
    decreases |lines| - cursor
  {
    if cursor >= |lines| then Ok(cursor)
    else if IsDenied(lines[cursor]) then Err(UnsupportedMetadata)
    else if !IsMetadata(lines[cursor]) then Ok(cursor)
    else if !IsIndexLine(lines[cursor]) then Err(BadIndex)
    else SkipMetadata(lines, cursor + 1)
  }

  function LineAt(lines: seq<string>, i: nat): (line: string)
    ensures line != "" ==> i < |lines|
  {
    if i < |lines| then lines[i] else ""
  }

  function FileKind(oldHeader: string, newHeader: string, path: string): Result<ChangeKind, ParseError> {
    if oldHeader == "/dev/null" then
      if newHeader != "b/" + path then Err(BadCreateHeader) else Ok(Create)
    else if newHeader == "/dev/null" then Err(DeleteDenied)
    else if oldHeader != "a/" + path || newHeader != "b/" + path then Err(RenameDenied)
    else Ok(Modify)
  }

  predicate AtFile(lines: seq<string>, cursor: nat) {
    cursor >= |lines| || DIFF_START <= lines[cursor]
  }

  function ParseHunks(lines: seq<string>, cursor: nat, hunks: seq<Hunk>): Result<(seq<Hunk>, nat), ParseError>
    requires cursor <= |lines|
    decreases |lines| - cursor
  {
    if AtFile(lines, cursor) then Ok((hunks, cursor))
    else if IsDenied(lines[cursor]) then Err(UnsupportedMetadata)
    else
      var parsed := ParseHunk(lines, cursor);
      if parsed.Err? then Err(parsed.error)
      else
        HunkIffAt(lines, cursor, parsed.value.0, parsed.value.1);
        ParseHunks(lines, parsed.value.1, hunks + [parsed.value.0])
  }

  /** A file patch with the lines that it was read from. */
  function FileOf(lines: seq<string>, start: nat, next: nat, path: string, kind: ChangeKind,
                  hunks: seq<Hunk>): FilePatch
    requires start <= next <= |lines|
  {
    FilePatch(TotalCount(Addition, hunks), Join(lines[start..next]) + "\n", hunks, kind, path,
      TotalCount(Deletion, hunks))
  }

  /** The path and the kind of a file, and where its hunks start. */
  function ParseFileHeader(lines: seq<string>, start: nat): (r: Result<(string, ChangeKind, nat), ParseError>)
    requires start < |lines|
    ensures r.Ok? ==> start < r.value.2 <= |lines|
  {
    var path := DiffPath(lines[start]);
    if path.Err? then Err(path.error)
    else
      var m := SkipMetadata(lines, start + 1);
      if m.Err? then Err(m.error)
      else
        var oldHeader := PrefixedPath(LineAt(lines, m.value), "--- ");
        if oldHeader.Err? then Err(oldHeader.error)
        else
          var newHeader := PrefixedPath(LineAt(lines, m.value + 1), "+++ ");
          if newHeader.Err? then Err(newHeader.error)
          else
            var kind := FileKind(oldHeader.value, newHeader.value, path.value);
            if kind.Err? then Err(kind.error) else Ok((path.value, kind.value, m.value + 2))
  }

  function ParseFile(lines: seq<string>, start: nat): (r: Result<(FilePatch, nat), ParseError>)
    requires start < |lines|
    ensures r.Ok? ==> start < r.value.1 <= |lines|
  {
    var header := ParseFileHeader(lines, start);
    if header.Err? then Err(header.error)
    else
      var (path, kind, first) := header.value;
      var parsed := ParseHunks(lines, first, []);
      if parsed.Err? then Err(parsed.error)
      else if parsed.value.0 == [] then Err(EmptyFile)
      else
        HunksAdvance(lines, first, []);
        Ok((FileOf(lines, start, parsed.value.1, path, kind, parsed.value.0), parsed.value.1))
  }

  /** A file whose second line announces anything but an edit or a new file is refused. */
  lemma DeniedIsRefused(lines: seq<string>, start: nat, path: string, rest: string)
    requires start + 1 < |lines| && ValidPath(path) && lines[start] == DiffHeader(path)
    requires
      lines[start + 1] == "GIT binary patch"
      || lines[start + 1] in {
           "old mode " + rest, "new mode " + rest, "deleted file mode " + rest, "new file mode " + rest,
           "similarity index " + rest, "dissimilarity index " + rest, "rename from " + rest, "rename to " + rest,
           "copy from " + rest, "copy to " + rest, "Binary files " + rest, "Submodule " + rest}
    ensures ParseFile(lines, start) == Err(UnsupportedMetadata)
  {
    DiffPathIsHeader(lines[start], path);
    Denied(lines[start + 1], rest);
    hide IsDenied, DiffPath, DiffHeader;
  }

  lemma Denied(line: string, rest: string)
    requires
      line == "GIT binary patch"
      || line in {
           "old mode " + rest, "new mode " + rest, "deleted file mode " + rest, "new file mode " + rest,
           "similarity index " + rest, "dissimilarity index " + rest, "rename from " + rest, "rename to " + rest,
           "copy from " + rest, "copy to " + rest, "Binary files " + rest, "Submodule " + rest}
    ensures IsDenied(line)
  {
  }

  /** Deleting a file, and naming another path in one of the file headers, is refused with its own error. */
  lemma OtherPathIsRefused(lines: seq<string>, start: nat, path: string, was: string, now: string)
    requires start + 2 < |lines| && ValidPath(path) && lines[start] == DiffHeader(path)
    requires lines[start + 1] == "--- " + was && lines[start + 2] == "+++ " + now
    requires was != "" && now != "" && '\t' !in was && '\t' !in now
    ensures was == "/dev/null" && now != "b/" + path ==> ParseFile(lines, start) == Err(BadCreateHeader)
    ensures was != "/dev/null" && now == "/dev/null" ==> ParseFile(lines, start) == Err(DeleteDenied)
    ensures was != "/dev/null" && now != "/dev/null" && (was != "a/" + path || now != "b/" + path) ==>
      ParseFile(lines, start) == Err(RenameDenied)
  {
    DiffPathIsHeader(lines[start], path);
    hide DiffPath, DiffHeader, IsIndexLine;
    assert lines[start + 1][0] == '-' && lines[start + 1][..4] == "--- ";
    NotMetadata(lines[start + 1]);
    hide IsDenied;
    assert lines[start + 1][4..] == was && lines[start + 2][4..] == now;
    assert "--- " <= lines[start + 1] && "+++ " <= lines[start + 2];
  }

  predicate IndexLines(lines: seq<string>, start: nat, next: nat) {
    next <= |lines| && forall i :: start <= i < next ==> IsIndexLine(lines[i])
  }

  lemma {:induction false} SkipAdvances(lines: seq<string>, cursor: nat)
    requires cursor <= |lines|
    ensures SkipMetadata(lines, cursor).Ok? ==>
      var m := SkipMetadata(lines, cursor).value;
      IndexLines(lines, cursor, m) && (m < |lines| ==> !IsDenied(lines[m]) && !IsMetadata(lines[m]))
    decreases |lines| - cursor
  {
    hide IsDenied, IsIndexLine, IsMetadata;
    if cursor < |lines| { SkipAdvances(lines, cursor + 1); }
  }

  lemma {:induction false} HunksAdvance(lines: seq<string>, cursor: nat, hunks: seq<Hunk>)
    requires cursor <= |lines|
    ensures ParseHunks(lines, cursor, hunks).Ok? ==> cursor <= ParseHunks(lines, cursor, hunks).value.1 <= |lines|
    decreases |lines| - cursor
  {
    hide IsDenied, ParseHunk, HunkAt;
    if !AtFile(lines, cursor) && ParseHunk(lines, cursor).Ok? {
      var parsed := ParseHunk(lines, cursor).value;
      HunkIffAt(lines, cursor, parsed.0, parsed.1);
      HunkInside(lines, cursor, parsed.0);
      HunksAdvance(lines, parsed.1, hunks + [parsed.0]);
    }
  }

  lemma HunkInside(lines: seq<string>, start: nat, h: Hunk)
    ensures HunkAt(lines, start, h) ==> start < HunkEnd(start, h) <= |lines|
  {
  }

  // ---------- the grammar of a file ----------

  /** Hunks stand one after the other, up to the end or the next file. */
  ghost predicate HunksAt(lines: seq<string>, start: nat, hunks: seq<Hunk>)
    decreases |hunks|
  {
    && start <= |lines|
    && if hunks == [] then AtFile(lines, start)
       else HunkAt(lines, start, hunks[0]) && HunksAt(lines, HunkEnd(start, hunks[0]), hunks[1..])
  }

  function HunksEnd(start: nat, hunks: seq<Hunk>): nat
    decreases |hunks|
  {
    if hunks == [] then start else HunksEnd(HunkEnd(start, hunks[0]), hunks[1..])
  }

  lemma HunkIsNoFile(lines: seq<string>, start: nat, h: Hunk)
    requires HunkAt(lines, start, h)
    ensures !AtFile(lines, start) && !IsDenied(lines[start])
  {
    hide HunkText, Slice, EndsHunk, WellFormedHunk, ParseInt, CountOf, ScanHeader, IsHeaderOf;
    HeaderStandsFor(lines[start], h);
    HeaderStartsAt(lines[start]);
    NotMetadata(lines[start]);
    assert DIFF_START[0] == 'd';
  }

  lemma HeaderStartsAt(line: string)
    requires ScanHeader(line).Some?
    ensures line != "" && line[0] == '@'
  {
  }

  /** Hunks are read exactly where they stand. */
  lemma {:induction false} HunksIffAt(lines: seq<string>, start: nat, before: seq<Hunk>, hunks: seq<Hunk>, next: nat)
    requires start <= |lines|
    ensures ParseHunks(lines, start, before) == Ok((before + hunks, next))
       <==> HunksAt(lines, start, hunks) && next == HunksEnd(start, hunks)
    decreases |lines| - start
  {
    hide IsDenied, ParseHunk, HunkAt;
    if AtFile(lines, start) {
      if hunks == [] {
        assert before + hunks == before;
      } else {
        assert |before + hunks| != |before|;
        if HunkAt(lines, start, hunks[0]) { HunkIsNoFile(lines, start, hunks[0]); }
      }
    } else {
      if ParseHunk(lines, start).Ok? && !IsDenied(lines[start]) {
        var (h, mid) := ParseHunk(lines, start).value;
        HunkIffAt(lines, start, h, mid);
        HunkInside(lines, start, h);
        ReadFirst(lines, start, before, hunks, next);
      }
      if hunks != [] {
        HunkIffAt(lines, start, hunks[0], HunkEnd(start, hunks[0]));
        if HunkAt(lines, start, hunks[0]) { HunkIsNoFile(lines, start, hunks[0]); }
      }
    }
  }

  lemma {:induction false} ReadFirst(lines: seq<string>, start: nat, before: seq<Hunk>, hunks: seq<Hunk>, next: nat)
    requires start < |lines| && !AtFile(lines, start) && !IsDenied(lines[start]) && ParseHunk(lines, start).Ok?
    ensures ParseHunks(lines, start, before) == Ok((before + hunks, next))
       <==> && hunks != [] && hunks[0] == ParseHunk(lines, start).value.0
            && HunksAt(lines, ParseHunk(lines, start).value.1, hunks[1..])
            && next == HunksEnd(ParseHunk(lines, start).value.1, hunks[1..])
    decreases |lines| - start, 0
  {
    hide IsDenied, ParseHunk, HunkAt;
    var (h, mid) := ParseHunk(lines, start).value;
    HunkIffAt(lines, start, h, mid);
    HunkInside(lines, start, h);
    if ParseHunks(lines, start, before) == Ok((before + hunks, next)) {
      HunksKept(lines, mid, before + [h]);
      assert (before + hunks)[..|before| + 1] == before + [h];
      assert hunks[0] == (before + hunks)[|before|] == h;
    }
    if hunks != [] && hunks[0] == h {
      assert before + hunks == before + [h] + hunks[1..];
      HunksIffAt(lines, mid, before + [h], hunks[1..], next);
    }
  }

  lemma {:induction false} HunksKept(lines: seq<string>, cursor: nat, hunks: seq<Hunk>)
    requires cursor <= |lines|
    ensures ParseHunks(lines, cursor, hunks).Ok? ==> hunks <= ParseHunks(lines, cursor, hunks).value.0
    decreases |lines| - cursor
  {
    hide IsDenied, ParseHunk, HunkAt;
    if !AtFile(lines, cursor) && ParseHunk(lines, cursor).Ok? {
      var parsed := ParseHunk(lines, cursor).value;
      HunkIffAt(lines, cursor, parsed.0, parsed.1);
      HunkInside(lines, cursor, parsed.0);
      HunksKept(lines, parsed.1, hunks + [parsed.0]);
    }
  }

  function OldName(path: string, kind: ChangeKind): string {
    if kind == Create then "/dev/null" else "a/" + path
  }

  function OldHeader(path: string, kind: ChangeKind): string {
    "--- " + OldName(path, kind)
  }

  function NewHeader(path: string): string {
    "+++ " + ("b/" + path)
  }

  predicate ValidPath(path: string) {
    path != "" && '\t' !in path
  }

  /** A file stands at a line: its diff header, index lines up to `m`, its two file headers, its hunks. */
  ghost predicate FileWith(lines: seq<string>, start: nat, m: nat, f: FilePatch) {
    && HeaderAt(lines, start, f.path, f.kind, m)
    && f.hunks != [] && HunksAt(lines, m + 2, f.hunks)
    && start < m + 2 <= HunksEnd(m + 2, f.hunks) <= |lines|
    && f == FileOf(lines, start, HunksEnd(m + 2, f.hunks), f.path, f.kind, f.hunks)
  }

  ghost predicate FileAt(lines: seq<string>, start: nat, f: FilePatch, next: nat) {
    exists m: nat :: m < |lines| && FileWith(lines, start, m, f) && next == HunksEnd(m + 2, f.hunks)
  }

  /** The lines before the hunks of a file. */
  predicate HeaderAt(lines: seq<string>, start: nat, path: string, kind: ChangeKind, m: nat) {
    && start < m < |lines| - 1 && ValidPath(path)
    && lines[start] == DiffHeader(path) && IndexLines(lines, start + 1, m)
    && lines[m] == OldHeader(path, kind) && lines[m + 1] == NewHeader(path)
  }

  /** The header of a file is read exactly as it stands. */
  lemma FileHeaderIff(lines: seq<string>, start: nat, path: string, kind: ChangeKind, m: nat)
    requires start < |lines|
    ensures ParseFileHeader(lines, start) == Ok((path, kind, m + 2)) <==> HeaderAt(lines, start, path, kind, m)
  {
    hide ParseFileHeader, HeaderAt;
    if ParseFileHeader(lines, start) == Ok((path, kind, m + 2)) { FileHeaderSound(lines, start, path, kind, m); }
    if HeaderAt(lines, start, path, kind, m) { FileHeaderComplete(lines, start, path, kind, m); }
  }

  lemma FileHeaderSound(lines: seq<string>, start: nat, path: string, kind: ChangeKind, m: nat)
    requires start < |lines| && ParseFileHeader(lines, start) == Ok((path, kind, m + 2))
    ensures HeaderAt(lines, start, path, kind, m)
  {
    hide DiffPath, IndexLines, SkipMetadata, PrefixedPath, DiffHeader, IsDenied, IsMetadata, FileKind, OldHeader,
      NewHeader;
    DiffPathIsHeader(lines[start], path);
    SkipAdvances(lines, start + 1);
    HeadersSay(LineAt(lines, m), LineAt(lines, m + 1), path, kind);
  }

  lemma FileHeaderComplete(lines: seq<string>, start: nat, path: string, kind: ChangeKind, m: nat)
    requires HeaderAt(lines, start, path, kind, m)
    ensures ParseFileHeader(lines, start) == Ok((path, kind, m + 2))
  {
    hide DiffPath, IndexLines, SkipMetadata, PrefixedPath, DiffHeader, IsDenied, IsMetadata, FileKind, OldHeader,
      NewHeader;
    DiffPathIsHeader(lines[start], path);
    HeadersRead(path, kind);
    hide OldName, ValidPath;
    SkipsTo(lines, start + 1, m);
    KindIs(path, kind);
  }

  lemma HeadersRead(path: string, kind: ChangeKind)
    requires ValidPath(path)
    ensures PrefixedPath(OldHeader(path, kind), "--- ") == Ok(OldName(path, kind))
    ensures PrefixedPath(NewHeader(path), "+++ ") == Ok("b/" + path)
    ensures !IsDenied(OldHeader(path, kind)) && !IsMetadata(OldHeader(path, kind))
  {
    NamesAreClean(path, kind);
    hide OldName, ValidPath, PrefixedPath, IsDenied, IsMetadata;
    HeaderOf("--- ", OldName(path, kind));
    HeaderOf("+++ ", "b/" + path);
    StartsWithDash(OldHeader(path, kind));
  }

  lemma HeadersSay(oldLine: string, newLine: string, path: string, kind: ChangeKind)
    requires PrefixedPath(oldLine, "--- ").Ok? && PrefixedPath(newLine, "+++ ").Ok?
    requires FileKind(PrefixedPath(oldLine, "--- ").value, PrefixedPath(newLine, "+++ ").value, path) == Ok(kind)
    ensures oldLine == OldHeader(path, kind) && newLine == NewHeader(path) && '\t' !in path
  {
  }

  lemma NamesAreClean(path: string, kind: ChangeKind)
    requires ValidPath(path)
    ensures OldName(path, kind) != "" && '\t' !in OldName(path, kind) && "b/" + path != "" && '\t' !in "b/" + path
  {
  }

  lemma StartsWithDash(line: string)
    requires "--- " <= line
    ensures !IsDenied(line) && !IsMetadata(line)
  {
    assert "--- "[0] == '-';
    NotMetadata(line);
  }

  lemma HeaderOf(prefix: string, value: string)
    requires value != "" && '\t' !in value
    ensures PrefixedPath(prefix + value, prefix) == Ok(value)
  {
  }

  lemma TabInPath(prefix: string, path: string)
    requires prefix == "a/" || prefix == "b/"
    ensures '\t' in prefix + path <==> '\t' in path
    ensures prefix + path != "" && prefix + path != "/dev/null"
    ensures '\t' !in "/dev/null"
  {
    assert (prefix + path)[0] == prefix[0];
    assert '\t' !in prefix;
  }

  lemma KindIs(path: string, kind: ChangeKind)
    ensures FileKind(OldName(path, kind), "b/" + path, path) == Ok(kind)
  {
    TabInPath("a/", path);
    TabInPath("b/", path);
  }

  lemma {:induction false} SkipsTo(lines: seq<string>, cursor: nat, m: nat)
    requires cursor <= m < |lines| && IndexLines(lines, cursor, m) && !IsDenied(lines[m]) && !IsMetadata(lines[m])
    ensures SkipMetadata(lines, cursor) == Ok(m)
    decreases m - cursor
  {
    hide IsIndexLine, IsDenied, IsMetadata;
    if cursor < m {
      IndexIsAllowed(lines[cursor]);
      SkipsTo(lines, cursor + 1, m);
    }
  }

  lemma IndexIsAllowed(line: string)
    requires IsIndexLine(line)
    ensures IsMetadata(line) && !IsDenied(line)
  {
    assert line[0] == "index "[0] == 'i';
  }

  /** A file is read at a line exactly when it stands there. */
  lemma FileIffAt(lines: seq<string>, start: nat, f: FilePatch, next: nat)
    requires start < |lines|
    ensures ParseFile(lines, start) == Ok((f, next)) <==> FileAt(lines, start, f, next)
  {
    hide ParseFile, FileAt;
    if ParseFile(lines, start) == Ok((f, next)) { FileSound(lines, start, f, next); }
    if FileAt(lines, start, f, next) { FileComplete(lines, start, f, next); }
  }

  lemma FileSound(lines: seq<string>, start: nat, f: FilePatch, next: nat)
    requires start < |lines| && ParseFile(lines, start) == Ok((f, next))
    ensures FileAt(lines, start, f, next)
  {
    hide ParseFileHeader, ParseHunks, HunksAt, HeaderAt, HunksEnd, TotalCount, Join;
    var (path, kind, first) := ParseFileHeader(lines, start).value;
    var parsed := ParseHunks(lines, first, []).value;
    HeaderLength(lines, start);
    FileHeaderIff(lines, start, path, kind, first - 2);
    assert [] + parsed.0 == parsed.0;
    HunksIffAt(lines, first, [], parsed.0, parsed.1);
    HunksAdvance(lines, first, []);
    assert FileWith(lines, start, first - 2, f);
  }

  lemma FileComplete(lines: seq<string>, start: nat, f: FilePatch, next: nat)
    requires start < |lines| && FileAt(lines, start, f, next)
    ensures ParseFile(lines, start) == Ok((f, next))
  {
    hide ParseFileHeader, ParseHunks, HunksAt, HeaderAt, HunksEnd, TotalCount, Join;
    var m: nat :| m < |lines| && FileWith(lines, start, m, f) && next == HunksEnd(m + 2, f.hunks);
    FileHeaderIff(lines, start, f.path, f.kind, m);
    assert [] + f.hunks == f.hunks;
    HunksIffAt(lines, m + 2, [], f.hunks, next);
  }

  lemma HeaderLength(lines: seq<string>, start: nat)
    requires start < |lines|
    ensures ParseFileHeader(lines, start).Ok? ==> ParseFileHeader(lines, start).value.2 >= 2
  {
  }
}
