/**
 Planning a patch: the hunks of a file patch are played against the lines of the preimage. The
 simulation is a symmetric relation between old and new lines, so a patch can be undone.
 */
module PatchPlanner {
  import opened Wrappers
  import opened Lines
  import opened PatchFormat

  const MAX_PATCH_TARGET_BYTES := 1024 * 1024

  datatype TextLine = TextLine(text: string, hasNewline: bool)

  datatype PlanError = HunkOverlap | BadHunkPosition | ContextMismatch | TargetTooLarge

  // ---------- texts and lines ----------

  function SplitText(text: string): (r: seq<TextLine>) {
    if text == "" then [] else MarkAll(Split(text))
  }

  /** An empty last piece says that the text ends with a newline, and is no line. */
  function MarkAll(values: seq<string>): seq<TextLine>
    requires values != []
  {
    if values[|values| - 1] == "" then Mark(values[..|values| - 1], true) else Mark(values, false)
  }

  /** Every line has a newline, except that the last one has it only when the text ends with one. */
  function Mark(values: seq<string>, endsWithNewline: bool): seq<TextLine> {
    seq(|values|, i requires 0 <= i < |values| => TextLine(values[i], endsWithNewline || i < |values| - 1))
  }

  function LineText(line: TextLine): string {
    line.text + if line.hasNewline then "\n" else ""
  }

  function JoinText(lines: seq<TextLine>): string {
    if lines == [] then "" else LineText(lines[0]) + JoinText(lines[1..])
  }

  predicate NewlineFree(lines: seq<TextLine>) {
    forall i :: 0 <= i < |lines| ==> OneLine(lines[i].text)
  }

  /** Lines that some text has: only a last, non-empty line may lack its newline. */
  predicate WellFormedLines(lines: seq<TextLine>) {
    NewlineFree(lines) && forall i :: 0 <= i < |lines| && !lines[i].hasNewline ==>
      i == |lines| - 1 && lines[i].text != ""
  }

  lemma MarkFirst(value: string, values: seq<string>, endsWithNewline: bool)
    requires values != [] || endsWithNewline
    ensures Mark([value] + values, endsWithNewline) == [TextLine(value, true)] + Mark(values, endsWithNewline)
  {
  }

  lemma MarkAllFirst(value: string, rest: seq<string>)
    requires rest != []
    ensures MarkAll([value] + rest) == [TextLine(value, true)] + MarkAll(rest)
  {
    var values := [value] + rest;
    hide Mark;
    if rest[|rest| - 1] == "" {
      assert values[..|values| - 1] == [value] + rest[..|rest| - 1];
      MarkFirst(value, rest[..|rest| - 1], true);
    } else {
      MarkFirst(value, rest, false);
    }
  }

  lemma SplitTextStep(text: string)
    ensures
      var n := FirstNewline(text);
      SplitText(text) ==
      if n < |text| then [TextLine(text[..n], true)] + SplitText(text[n + 1..])
      else if text == "" then []
      else [TextLine(text, false)]
  {
    hide MarkAll, SplitText, FirstNewline;
    var n := FirstNewline(text);
    MarkSingle(text);
    SplitTextIsMarked(text);
    assert Split(text) == if n == |text| then [text] else [text[..n]] + Split(text[n + 1..]);
    if n < |text| {
      MarkAllFirst(text[..n], Split(text[n + 1..]));
      SplitTextIsMarked(text[n + 1..]);
    }
  }

  lemma SplitTextIsMarked(text: string)
    ensures SplitText(text) == MarkAll(Split(text))
  {
  }

  lemma MarkSingle(text: string)
    ensures MarkAll([text]) == if text == "" then [] else [TextLine(text, false)]
  {
  }

  /** Every text is the concatenation of its lines, and its lines are well-formed. */
  lemma {:induction false} JoinSplitText(text: string)
    ensures JoinText(SplitText(text)) == text && WellFormedLines(SplitText(text))
    decreases |text|
  {
    hide SplitText, FirstNewline, WellFormedLines, NewlineFree, JoinText;
    SplitTextStep(text);
    var n := FirstNewline(text);
    if n < |text| {
      JoinSplitText(text[n + 1..]);
      JoinFirst(TextLine(text[..n], true), SplitText(text[n + 1..]));
      assert text == text[..n] + "\n" + text[n + 1..];
    } else if text == "" {
      JoinNone();
    } else {
      JoinNone();
      JoinFirst(TextLine(text, false), []);
      assert [TextLine(text, false)] + [] == [TextLine(text, false)];
    }
  }

  lemma JoinNone()
    ensures JoinText([]) == "" && WellFormedLines([])
  {
  }

  lemma JoinFirst(l: TextLine, rest: seq<TextLine>)
    requires OneLine(l.text) && WellFormedLines(rest) && (l.hasNewline || (rest == [] && l.text != ""))
    ensures JoinText([l] + rest) == LineText(l) + JoinText(rest) && WellFormedLines([l] + rest)
  {
  }

  /**
   Cutting the concatenation of one-line texts never gives more lines, and it gives the same lines
   exactly when they are well-formed; otherwise it gives fewer.
   */
  lemma {:induction false} SplitJoinText(lines: seq<TextLine>)
    requires NewlineFree(lines)
    ensures WellFormedLines(lines) ==> SplitText(JoinText(lines)) == lines
    ensures !WellFormedLines(lines) ==> |SplitText(JoinText(lines))| < |lines|
  {
    if lines == [] {
      JoinNone();
    } else {
      hide SplitText, WellFormedLines, NewlineFree, FirstNewline, OneLine;
      WellFormedFirst(lines);
      SplitJoinText(lines[1..]);
      if lines[0].hasNewline { SplitClosed(lines); } else { SplitOpen(lines); }
    }
  }

  lemma SplitClosed(lines: seq<TextLine>)
    requires lines != [] && lines[0].hasNewline && OneLine(lines[0].text)
    ensures SplitText(JoinText(lines)) == [lines[0]] + SplitText(JoinText(lines[1..]))
  {
    hide SplitText, FirstNewline, OneLine;
    var l, later := lines[0], JoinText(lines[1..]);
    assert JoinText(lines) == l.text + "\n" + later;
    NewlineThenText(l.text, later);
    assert l == TextLine(l.text, true);
  }

  lemma SplitOpen(lines: seq<TextLine>)
    requires lines != [] && !lines[0].hasNewline && OneLine(lines[0].text)
    ensures |SplitText(JoinText(lines))| <= |SplitText(JoinText(lines[1..]))| || |SplitText(JoinText(lines))| == 1
    ensures lines[1..] == [] ==> SplitText(JoinText(lines)) == if lines[0].text == "" then [] else lines
  {
    hide SplitText, FirstNewline, OneLine;
    var l, later := lines[0], JoinText(lines[1..]);
    assert JoinText(lines) == l.text + later;
    GlueLines(l.text, later);
    if lines[1..] == [] {
      assert l.text + "" == l.text;
      FirstNewlineAt(l.text, "");
      SplitTextStep(l.text);
      assert lines == [l] == [TextLine(l.text, false)];
    }
  }

  lemma NewlineThenText(line: string, rest: string)
    requires OneLine(line)
    ensures SplitText(line + "\n" + rest) == [TextLine(line, true)] + SplitText(rest)
  {
    hide SplitText, FirstNewline;
    FirstNewlineAt(line, rest);
    SplitTextStep(line + "\n" + rest);
  }

  lemma WellFormedFirst(lines: seq<TextLine>)
    requires lines != [] && NewlineFree(lines)
    ensures NewlineFree(lines[1..]) && OneLine(lines[0].text)
    ensures WellFormedLines(lines) <==>
      WellFormedLines(lines[1..]) && (lines[0].hasNewline || (lines[1..] == [] && lines[0].text != ""))
  {
  }

  /** Text in front of a text joins its first line. */
  lemma GlueLines(front: string, text: string)
    requires OneLine(front)
    ensures |SplitText(front + text)| <= |SplitText(text)| || |SplitText(front + text)| == 1
  {
    hide SplitText, FirstNewline;
    var n := FirstNewline(text);
    SplitTextStep(text);
    SplitTextStep(front + text);
    if n < |text| {
      FirstNewlineAt(front + text[..n], text[n + 1..]);
      assert front + text == (front + text[..n]) + "\n" + text[n + 1..];
    } else {
      FirstNewlineAt(front + text, "");
    }
  }

  // ---------- hunks and their two sides ----------

  function ExpectedLine(line: HunkLine): TextLine {
    TextLine(line.text, !line.noNewline)
  }

  function HunkStart(start: int, count: int): int {
    if count == 0 then start else start - 1
  }

  function OldIndex(h: Hunk): int {
    HunkStart(h.oldStart, h.oldCount)
  }

  function NewIndex(h: Hunk): int {
    HunkStart(h.newStart, h.newCount)
  }

  /** The lines of a hunk other than those of one kind: what the old or the new text holds there. */
  function Without(kind: LineKind, lines: seq<HunkLine>): seq<TextLine> {
    if lines == [] then []
    else
      Without(kind, lines[..|lines| - 1])
      + if lines[|lines| - 1].kind == kind then [] else [ExpectedLine(lines[|lines| - 1])]
  }

  function OldSide(h: Hunk): seq<TextLine> {
    Without(Addition, h.lines)
  }

  function NewSide(h: Hunk): seq<TextLine> {
    Without(Deletion, h.lines)
  }

  function OldEnd(h: Hunk): int {
    OldIndex(h) + |OldSide(h)|
  }

  function NewEnd(h: Hunk): int {
    NewIndex(h) + |NewSide(h)|
  }

  predicate HasAt(lines: seq<TextLine>, start: int, part: seq<TextLine>) {
    0 <= start && start + |part| <= |lines| && lines[start..start + |part|] == part
  }

  /**
   From line `c` of `old` and line `d` of `now`, the hunks turn one into the other: equal lines up to
   each hunk, its old side on the one hand, its new side on the other, and equal lines at the end.
   */
  ghost predicate Transforms(was: seq<TextLine>, c: int, now: seq<TextLine>, d: int, hunks: seq<Hunk>)
    decreases |hunks|
  {
    && 0 <= c <= |was| && 0 <= d <= |now|
    && if hunks == [] then was[c..] == now[d..]
       else
         var h := hunks[0];
         && c <= OldIndex(h) && HasAt(was, OldIndex(h), OldSide(h))
         && d <= NewIndex(h) && HasAt(now, NewIndex(h), NewSide(h))
         && was[c..OldIndex(h)] == now[d..NewIndex(h)]
         && Transforms(was, OldEnd(h), now, NewEnd(h), hunks[1..])
  }

  /** A patch determines the new lines. */
  lemma {:induction false} TransformsIsFunction(was: seq<TextLine>, c: int, x: seq<TextLine>, y: seq<TextLine>, d: int,
                                                hunks: seq<Hunk>)
    requires Transforms(was, c, x, d, hunks) && Transforms(was, c, y, d, hunks) && x[..d] == y[..d]
    ensures x == y
    decreases |hunks|
  {
    if hunks == [] {
      assert x == x[..d] + x[d..] && y == y[..d] + y[d..];
    } else {
      var h := hunks[0];
      var j, e := NewIndex(h), NewEnd(h);
      assert x[..e] == x[..d] + x[d..j] + x[j..e];
      assert y[..e] == y[..d] + y[d..j] + y[j..e];
      TransformsIsFunction(was, OldEnd(h), x, y, e, hunks[1..]);
    }
  }

  // ---------- what one hunk says ----------

  /** Lines of one kind; a line without a newline carries the mark. */
  function AllAs(kind: LineKind, lines: seq<TextLine>): seq<HunkLine> {
    seq(|lines|, i requires 0 <= i < |lines| => HunkLine(kind, !lines[i].hasNewline, lines[i].text))
  }

  /** A hunk that keeps `pre` and `post` and puts `added` in the place of `removed`. */
  function Edit(pre: seq<TextLine>, removed: seq<TextLine>, added: seq<TextLine>, post: seq<TextLine>, oldStart: nat,
                newStart: nat): Hunk
  {
    Hunk(AllAs(Context, pre) + AllAs(Deletion, removed) + AllAs(Addition, added) + AllAs(Context, post),
         |pre| + |added| + |post|, newStart, |pre| + |removed| + |post|, oldStart)
  }

  /** A number that a hunk gives: of its first line, or of the line after which nothing stands. */
  predicate Numbers(start: nat, count: nat, before: nat) {
    if count == 0 then start == before else start == before + 1
  }

  /** After `before` the text has `was` on the one hand and `now` on the other. */
  predicate Replaces(source: seq<TextLine>, result: seq<TextLine>, was: seq<TextLine>, now: seq<TextLine>,
                     before: nat)
  {
    && before + |was| <= |source| && source[before..before + |was|] == was
    && result == source[..before] + now + source[before + |was|..]
  }

  /** One hunk replaces its old lines by its new ones at the place that both of its numbers name. */
  lemma OneEdit(source: seq<TextLine>, result: seq<TextLine>, pre: seq<TextLine>, removed: seq<TextLine>,
                added: seq<TextLine>, post: seq<TextLine>, oldStart: nat, newStart: nat)
    ensures
      var was, now := pre + removed + post, pre + added + post;
      Transforms(source, 0, result, 0, [Edit(pre, removed, added, post, oldStart, newStart)]) <==>
        exists before :: Numbers(oldStart, |was|, before) && Numbers(newStart, |now|, before)
                         && Replaces(source, result, was, now, before)
  {
    var h := Edit(pre, removed, added, post, oldStart, newStart);
    var was, now := pre + removed + post, pre + added + post;
    EditSides(pre, removed, added, post, oldStart, newStart);
    assert [h][1..] == [];
    var before := OldIndex(h);
    assert Transforms(source, 0, result, 0, [h]) <==>
        && 0 <= before && 0 <= NewIndex(h) && HasAt(source, before, was) && HasAt(result, NewIndex(h), now)
        && source[0..before] == result[0..NewIndex(h)] && source[before + |was|..] == result[NewIndex(h) + |now|..];
    if Transforms(source, 0, result, 0, [h]) {
      assert |source[..before]| == |result[..NewIndex(h)]|;
      assert result == result[..before] + result[before..before + |now|] + result[before + |now|..];
      assert Replaces(source, result, was, now, before);
    }
    forall b | Numbers(oldStart, |was|, b) && Numbers(newStart, |now|, b) && Replaces(source, result, was, now, b)
      ensures Transforms(source, 0, result, 0, [h])
    {
      assert b == before == NewIndex(h);
      assert result[before..before + |now|] == now;
    }
  }

  lemma EditSides(pre: seq<TextLine>, removed: seq<TextLine>, added: seq<TextLine>, post: seq<TextLine>, oldStart: nat,
                  newStart: nat)
    ensures
      var h := Edit(pre, removed, added, post, oldStart, newStart);
      OldSide(h) == pre + removed + post && NewSide(h) == pre + added + post
  {
    hide Without, AllAs;
    var a, b, c, d := AllAs(Context, pre), AllAs(Deletion, removed), AllAs(Addition, added), AllAs(Context, post);
    forall kind ensures Without(kind, a + b + c + d)
                     == Without(kind, a) + Without(kind, b) + Without(kind, c) + Without(kind, d)
    {
      WithoutJoined(kind, a, b);
      WithoutJoined(kind, a + b, c);
      WithoutJoined(kind, a + b + c, d);
    }
    forall kind, k, lines ensures Without(kind, AllAs(k, lines)) == if kind == k then [] else lines {
      WithoutLines(kind, k, lines);
    }
  }

  lemma {:induction false} WithoutJoined(kind: LineKind, a: seq<HunkLine>, b: seq<HunkLine>)
    ensures Without(kind, a + b) == Without(kind, a) + Without(kind, b)
  {
    if b == [] {
      assert a + b == a;
    } else {
      assert (a + b)[..|a + b| - 1] == a + b[..|b| - 1];
      WithoutJoined(kind, a, b[..|b| - 1]);
    }
  }

  lemma {:induction false} WithoutLines(kind: LineKind, k: LineKind, lines: seq<TextLine>)
    ensures Without(kind, AllAs(k, lines)) == if kind == k then [] else lines
  {
    if lines != [] {
      var front := lines[..|lines| - 1];
      assert AllAs(k, lines)[..|lines| - 1] == AllAs(k, front);
      WithoutLines(kind, k, front);
    }
  }

  // ---------- the simulation ----------

  /** After the first `k` hunks, `output` is what every result starts with. */
  ghost predicate Simulated(source: seq<TextLine>, hunks: seq<Hunk>, k: nat, cursor: nat, output: seq<TextLine>)
    requires k <= |hunks|
  {
    && cursor <= |source|
    && forall now :: Transforms(source, 0, now, 0, hunks) <==>
         output <= now && Transforms(source, cursor, now, |output|, hunks[k..])
  }

  /** No result at all is possible. */
  ghost predicate Impossible(source: seq<TextLine>, hunks: seq<Hunk>) {
    forall now :: !Transforms(source, 0, now, 0, hunks)
  }

  /**
   Inside a hunk: its first lines have been matched against the source and played into the output.
   */
  ghost predicate Matched(source: seq<TextLine>, start: int, seen: seq<HunkLine>, cursor: int) {
    cursor == start + |Without(Addition, seen)| && HasAt(source, start, Without(Addition, seen))
  }

  lemma {:induction false} WithoutPrefix(kind: LineKind, lines: seq<HunkLine>, m: nat)
    requires m <= |lines|
    ensures Without(kind, lines[..m]) <= Without(kind, lines)
    decreases |lines| - m
  {
    if m < |lines| {
      assert lines[..m + 1][..m] == lines[..m];
      WithoutPrefix(kind, lines, m + 1);
    } else {
      assert lines[..m] == lines;
    }
  }

  lemma PartMatches(source: seq<TextLine>, start: int, part: seq<TextLine>, whole: seq<TextLine>)
    requires HasAt(source, start, whole) && part <= whole
    ensures HasAt(source, start, part)
  {
  }

  lemma MatchedNothing(source: seq<TextLine>, start: nat)
    requires start <= |source|
    ensures Matched(source, start, [], start)
  {
  }

  lemma MatchedOne(source: seq<TextLine>, h: Hunk, start: nat, m: nat, cursor: nat)
    requires m < |h.lines| && h.lines[m].kind != Addition && Matched(source, start, h.lines[..m], cursor)
    requires cursor < |source| && source[cursor] == ExpectedLine(h.lines[m])
    ensures Matched(source, start, h.lines[..m + 1], cursor + 1)
  {
    assert h.lines[..m + 1][..m] == h.lines[..m];
    assert source[start..cursor + 1] == source[start..cursor] + [source[cursor]];
  }

  lemma Mismatched(source: seq<TextLine>, h: Hunk, start: nat, m: nat, cursor: nat)
    requires m < |h.lines| && h.lines[m].kind != Addition && Matched(source, start, h.lines[..m], cursor)
    requires cursor >= |source| || source[cursor] != ExpectedLine(h.lines[m])
    ensures !HasAt(source, start, OldSide(h))
  {
    if HasAt(source, start, OldSide(h)) {
      var part := Without(Addition, h.lines[..m + 1]);
      assert h.lines[..m + 1][..m] == h.lines[..m];
      WithoutPrefix(Addition, h.lines, m + 1);
      PartMatches(source, start, part, OldSide(h));
    }
  }

  /** Plays the lines of one hunk; it fails exactly when the old side is not in the source. */
  method PlayHunk(source: seq<TextLine>, h: Hunk, start: nat, before: seq<TextLine>)
    returns (r: Result<(nat, seq<TextLine>), PlanError>)
    requires start <= |source|
    ensures r.Ok? <==> HasAt(source, start, OldSide(h))
    ensures r.Ok? ==> r.value == (start + |OldSide(h)|, before + NewSide(h))
    ensures r.Err? ==> r.error == ContextMismatch
  {
    hide HasAt;
    MatchedNothing(source, start);
    var cursor, output := start, before;
    for m := 0 to |h.lines|
      invariant Matched(source, start, h.lines[..m], cursor)
      invariant output == before + Without(Deletion, h.lines[..m])
    {
      var line := h.lines[m];
      assert h.lines[..m + 1][..m] == h.lines[..m];
      if line.kind == Addition {
        assert Without(Addition, h.lines[..m + 1]) == Without(Addition, h.lines[..m]);
        output := output + [ExpectedLine(line)];
        continue;
      }
      if cursor >= |source| || source[cursor] != ExpectedLine(line) {
        Mismatched(source, h, start, m, cursor);
        return Err(ContextMismatch);
      }
      MatchedOne(source, h, start, m, cursor);
      if line.kind == Context {
        output := output + [source[cursor]];
      }
      cursor := cursor + 1;
    }
    assert h.lines[..|h.lines|] == h.lines;
    return Ok((cursor, output));
  }

  /** Simulates the hunks against the lines of the preimage. */
  method SimulateLines(source: seq<TextLine>, hunks: seq<Hunk>) returns (r: Result<seq<TextLine>, PlanError>)
    ensures r.Ok? ==> forall now :: Transforms(source, 0, now, 0, hunks) <==> now == r.value
    ensures r.Err? ==> Impossible(source, hunks) && r.error != TargetTooLarge
  {
    hide Transforms, HasAt;
    var cursor: nat, output: seq<TextLine> := 0, [];
    assert hunks[0..] == hunks;
    for k := 0 to |hunks|
      invariant Simulated(source, hunks, k, cursor, output)
    {
      var h := hunks[k];
      assert hunks[k..][0] == h && hunks[k..][1..] == hunks[k + 1..];
      var oldIndex := OldIndex(h);
      Stuck(source, hunks, k, cursor, output);
      if oldIndex < cursor || oldIndex > |source| { return Err(HunkOverlap); }
      var upTo := output + source[cursor..oldIndex];
      if |upTo| != NewIndex(h) { return Err(BadHunkPosition); }
      var played := PlayHunk(source, h, oldIndex, upTo);
      if played.Err? { return Err(played.error); }
      Played(source, hunks, k, cursor, output);
      cursor, output := played.value.0, played.value.1;
    }
    Finished(source, hunks, cursor, output);
    return Ok(output + source[cursor..]);
  }

  /** When the next hunk cannot be played, no result is possible. */
  lemma Stuck(source: seq<TextLine>, hunks: seq<Hunk>, k: nat, cursor: nat, output: seq<TextLine>)
    requires k < |hunks| && Simulated(source, hunks, k, cursor, output)
    ensures
      var h := hunks[k];
      (|| OldIndex(h) < cursor || OldIndex(h) > |source|
       || |output| + OldIndex(h) - cursor != NewIndex(h) || !HasAt(source, OldIndex(h), OldSide(h)))
      ==> Impossible(source, hunks)
  {
  }

  /** Playing a hunk that fits leads to the next stage. */
  lemma Played(source: seq<TextLine>, hunks: seq<Hunk>, k: nat, cursor: nat, output: seq<TextLine>)
    requires k < |hunks| && Simulated(source, hunks, k, cursor, output)
    requires cursor <= OldIndex(hunks[k]) && HasAt(source, OldIndex(hunks[k]), OldSide(hunks[k]))
    requires |output| + OldIndex(hunks[k]) - cursor == NewIndex(hunks[k])
    ensures
      var h := hunks[k];
      Simulated(source, hunks, k + 1, OldEnd(h), output + source[cursor..OldIndex(h)] + NewSide(h))
  {
    var h := hunks[k];
    var output' := output + source[cursor..OldIndex(h)] + NewSide(h);
    forall now
      ensures (output <= now && Transforms(source, cursor, now, |output|, hunks[k..])) <==>
              (output' <= now && Transforms(source, OldEnd(h), now, |output'|, hunks[k + 1..]))
    {
      PlayedOne(source, hunks[k..], cursor, output, now);
      assert hunks[k..][0] == h && hunks[k..][1..] == hunks[k + 1..];
    }
  }

  lemma PlayedOne(source: seq<TextLine>, hunks: seq<Hunk>, cursor: nat, output: seq<TextLine>, now: seq<TextLine>)
    requires hunks != [] && cursor <= |source|
    requires cursor <= OldIndex(hunks[0]) && HasAt(source, OldIndex(hunks[0]), OldSide(hunks[0]))
    requires |output| + OldIndex(hunks[0]) - cursor == NewIndex(hunks[0])
    ensures
      var h := hunks[0];
      var output' := output + source[cursor..OldIndex(h)] + NewSide(h);
      (output <= now && Transforms(source, cursor, now, |output|, hunks)) <==>
      (output' <= now && Transforms(source, OldEnd(h), now, |output'|, hunks[1..]))
  {
    var h := hunks[0];
    var output' := output + source[cursor..OldIndex(h)] + NewSide(h);
    var d, j, e := |output|, NewIndex(h), |output'|;
    if output <= now && Transforms(source, cursor, now, d, hunks) {
      assert now[..e] == now[..d] + now[d..j] + now[j..e];
      assert output' == now[..e];
    }
    if output' <= now && Transforms(source, OldEnd(h), now, e, hunks[1..]) {
      assert now[..e] == output';
      assert now[..d] == output'[..d] == output;
      assert now[d..j] == output'[d..j] == source[cursor..OldIndex(h)];
      assert now[j..e] == output'[j..e] == NewSide(h);
    }
  }

  /** After the last hunk, the only result is the output and the rest of the source. */
  lemma Finished(source: seq<TextLine>, hunks: seq<Hunk>, cursor: nat, output: seq<TextLine>)
    requires Simulated(source, hunks, |hunks|, cursor, output)
    ensures forall now :: Transforms(source, 0, now, 0, hunks) <==> now == output + source[cursor..]
  {
  }

  // ---------- what the simulation computes ----------

  /** The change in length that a hunk makes. */
  function Growth(h: Hunk): int {
    |NewSide(h)| - |OldSide(h)|
  }

  function TotalGrowth(hunks: seq<Hunk>): int {
    if hunks == [] then 0 else Growth(hunks[0]) + TotalGrowth(hunks[1..])
  }

  /**
   The hunks fit the source: each old side stands at its old position, they are ordered and do not
   overlap, and each new position is the old one shifted by what the earlier hunks added.
   */
  ghost predicate Fits(source: seq<TextLine>, hunks: seq<Hunk>) {
    && (forall k :: 0 <= k < |hunks| ==> HasAt(source, OldIndex(hunks[k]), OldSide(hunks[k])))
    && (forall k, l :: 0 <= k < l < |hunks| ==> OldEnd(hunks[k]) <= OldIndex(hunks[l]))
    && forall k :: 0 <= k < |hunks| ==> NewIndex(hunks[k]) == OldIndex(hunks[k]) + TotalGrowth(hunks[..k])
  }

  function Splice(lines: seq<TextLine>, h: Hunk): seq<TextLine> {
    if 0 <= OldIndex(h) && OldEnd(h) <= |lines| then lines[..OldIndex(h)] + NewSide(h) + lines[OldEnd(h)..] else lines
  }

  /** Replaces each old side by its new side, from the last hunk to the first. */
  function SpliceAll(source: seq<TextLine>, hunks: seq<Hunk>): seq<TextLine> {
    if hunks == [] then source else Splice(SpliceAll(source, hunks[1..]), hunks[0])
  }

  /** The result is the splice from the last hunk to the first. */
  lemma {:induction false} TransformsIsSplice(was: seq<TextLine>, c: int, now: seq<TextLine>, d: int, hunks: seq<Hunk>)
    requires Transforms(was, c, now, d, hunks)
    ensures SpliceAll(was, hunks) == was[..c] + now[d..]
    ensures |now| - d == |was| - c + TotalGrowth(hunks)
    decreases |hunks|
  {
    if hunks == [] {
      assert was == was[..c] + was[c..];
    } else {
      var h := hunks[0];
      TransformsIsSplice(was, OldEnd(h), now, NewEnd(h), hunks[1..]);
      SpliceOne(was, c, now, d, h);
    }
  }

  lemma SpliceOne(was: seq<TextLine>, c: nat, now: seq<TextLine>, d: nat, h: Hunk)
    requires c <= OldIndex(h) && HasAt(was, OldIndex(h), OldSide(h))
    requires d <= NewIndex(h) && HasAt(now, NewIndex(h), NewSide(h))
    requires was[c..OldIndex(h)] == now[d..NewIndex(h)]
    ensures Splice(was[..OldEnd(h)] + now[NewEnd(h)..], h) == was[..c] + now[d..]
    ensures NewEnd(h) - d == OldEnd(h) - c + Growth(h)
  {
    hide OldSide, NewSide, OldIndex, NewIndex;
    assert |was[c..OldIndex(h)]| == |now[d..NewIndex(h)]|;
    assert OldIndex(h) <= OldEnd(h) <= |was| && NewIndex(h) <= NewEnd(h) <= |now|;
    ReplacePart(was, c, OldIndex(h), OldEnd(h), now, d, NewIndex(h), NewEnd(h));
  }

  /** Putting `now[j..f]` for what lies between `i` and the rest of `now`. */
  lemma ReplacePart(was: seq<TextLine>, c: nat, i: nat, e: nat, now: seq<TextLine>, d: nat, j: nat, f: nat)
    requires c <= i <= e <= |was| && d <= j <= f <= |now| && was[c..i] == now[d..j]
    ensures
      var lines := was[..e] + now[f..];
      lines[..i] + now[j..f] + lines[e..] == was[..c] + now[d..]
  {
    var lines := was[..e] + now[f..];
    assert lines[..i] == was[..c] + was[c..i];
    assert lines[e..] == now[f..];
    assert now[d..] == now[d..j] + now[j..f] + now[f..];
  }

  /** The lines of a hunk without the additions, or without the deletions, are the rest. */
  lemma {:induction false} GrowthIsAdditionsMinusDeletions(lines: seq<HunkLine>)
    ensures |Without(Deletion, lines)| - |Without(Addition, lines)| == Count(Addition, lines) - Count(Deletion, lines)
    ensures |Without(Addition, lines)| == Count(Context, lines) + Count(Deletion, lines)
  {
    if lines != [] { GrowthIsAdditionsMinusDeletions(lines[..|lines| - 1]); }
  }

  /** The condition for the hunks from line `c` on, whose result starts at line `d`. */
  ghost predicate FitsFrom(source: seq<TextLine>, c: int, d: int, hunks: seq<Hunk>)
    decreases |hunks|
  {
    hunks == []
    || (var h := hunks[0];
        && c <= OldIndex(h) && HasAt(source, OldIndex(h), OldSide(h)) && NewIndex(h) == d + OldIndex(h) - c
        && FitsFrom(source, OldEnd(h), NewEnd(h), hunks[1..]))
  }

  lemma {:induction false} FitsFromAll(source: seq<TextLine>, c: int, d: int, hunks: seq<Hunk>)
    ensures FitsFrom(source, c, d, hunks) <==>
      && (forall k :: 0 <= k < |hunks| ==> HasAt(source, OldIndex(hunks[k]), OldSide(hunks[k])))
      && (forall k, l :: 0 <= k < l < |hunks| ==> OldEnd(hunks[k]) <= OldIndex(hunks[l]))
      && (forall k :: 0 <= k < |hunks| ==> c <= OldIndex(hunks[k]))
      && (forall k :: 0 <= k < |hunks| ==> NewIndex(hunks[k]) == d - c + OldIndex(hunks[k]) + TotalGrowth(hunks[..k]))
    decreases |hunks|
  {
    hide HasAt, Without, HunkStart, OldSide, NewSide;
    if hunks != [] {
      var h, rest := hunks[0], hunks[1..];
      FitsFromAll(source, OldEnd(h), NewEnd(h), rest);
      forall k | 1 <= k < |hunks|
        ensures hunks[k] == rest[k - 1] && TotalGrowth(hunks[..k]) == Growth(h) + TotalGrowth(rest[..k - 1])
      {
        assert hunks[..k][1..] == rest[..k - 1];
      }
      assert TotalGrowth(hunks[..0]) == 0;
      assert forall k :: 0 <= k < |rest| ==> rest[k] == hunks[k + 1];
    }
  }

  /** Hunks that fit have a result. */
  lemma {:induction false} FitsHasResult(source: seq<TextLine>, c: nat, d: nat, hunks: seq<Hunk>, front: seq<TextLine>)
    returns (now: seq<TextLine>)
    requires c <= |source| && FitsFrom(source, c, d, hunks) && |front| == d
    ensures front <= now && Transforms(source, c, now, d, hunks)
    decreases |hunks|
  {
    if hunks == [] {
      now := front + source[c..];
    } else {
      var h := hunks[0];
      var front' := front + source[c..OldIndex(h)] + NewSide(h);
      now := FitsHasResult(source, OldEnd(h), NewEnd(h), hunks[1..], front');
      PlayedOne(source, hunks, c, front, now);
    }
  }

  lemma {:induction false} ResultFits(source: seq<TextLine>, c: nat, now: seq<TextLine>, d: nat, hunks: seq<Hunk>)
    requires Transforms(source, c, now, d, hunks)
    ensures FitsFrom(source, c, d, hunks)
    decreases |hunks|
  {
    if hunks != [] {
      var h := hunks[0];
      assert |source[c..OldIndex(h)]| == |now[d..NewIndex(h)]|;
      ResultFits(source, OldEnd(h), now, NewEnd(h), hunks[1..]);
    }
  }

  /** A result exists exactly for the hunks that fit. */
  lemma FitsIffResult(source: seq<TextLine>, hunks: seq<Hunk>)
    ensures Fits(source, hunks) <==> !Impossible(source, hunks)
  {
    hide Transforms;
    FitsFromAll(source, 0, 0, hunks);
    if FitsFrom(source, 0, 0, hunks) {
      var now := FitsHasResult(source, 0, 0, hunks, []);
    }
    if !Impossible(source, hunks) {
      var now :| Transforms(source, 0, now, 0, hunks);
      ResultFits(source, 0, now, 0, hunks);
    }
  }

  /**
   What playing the hunks against a text gives: nothing unless the hunks fit and the result is within
   the limit, and otherwise the splice from the last hunk to the first.
   */
  ghost function Simulation(hunks: seq<Hunk>, preimage: string): Option<string> {
    var source := SplitText(preimage);
    var target := JoinText(SpliceAll(source, hunks));
    if Fits(source, hunks) && Utf8Size(target) <= MAX_PATCH_TARGET_BYTES then Some(target) else None
  }

  /** Simulates one file patch on a text. */
  method SimulatePatch(hunks: seq<Hunk>, preimage: string) returns (r: Result<string, PlanError>)
    ensures r.Ok? ==> Simulation(hunks, preimage) == Some(r.value)
    ensures r.Err? ==> Simulation(hunks, preimage) == None
    ensures r.Err? ==> (r.error == TargetTooLarge <==> Fits(SplitText(preimage), hunks))
  {
    hide Fits, SpliceAll, Transforms, SplitText, JoinText, Utf8Size;
    var source := SplitText(preimage);
    var output := SimulateLines(source, hunks);
    FitsIffResult(source, hunks);
    if output.Err? { return Err(output.error); }
    assert Transforms(source, 0, output.value, 0, hunks);
    TransformsIsSplice(source, 0, output.value, 0, hunks);
    assert source[..0] + output.value[0..] == output.value;
    var postimage := JoinText(output.value);
    if Utf8Size(postimage) > MAX_PATCH_TARGET_BYTES { return Err(TargetTooLarge); }
    return Ok(postimage);
  }

  // ---------- undoing a patch ----------

  function SwapLine(l: HunkLine): HunkLine {
    l.(kind := match l.kind case Addition => Deletion case Deletion => Addition case Context => Context)
  }

  function SwapHunk(h: Hunk): Hunk {
    Hunk(seq(|h.lines|, i requires 0 <= i < |h.lines| => SwapLine(h.lines[i])), h.oldCount, h.oldStart, h.newCount,
      h.newStart)
  }

  /** The patch in the other direction: old and new sides, additions and deletions are exchanged. */
  function Swap(hunks: seq<Hunk>): seq<Hunk> {
    if hunks == [] then [] else [SwapHunk(hunks[0])] + Swap(hunks[1..])
  }

  lemma {:induction false} SwapSides(lines: seq<HunkLine>, swapped: seq<HunkLine>)
    requires |swapped| == |lines| && forall i :: 0 <= i < |lines| ==> swapped[i] == SwapLine(lines[i])
    ensures Without(Addition, swapped) == Without(Deletion, lines)
    ensures Without(Deletion, swapped) == Without(Addition, lines)
  {
    if lines != [] { SwapSides(lines[..|lines| - 1], swapped[..|lines| - 1]); }
  }

  /** The relation is symmetric: the swapped patch leads back. */
  lemma {:induction false} TransformsBack(was: seq<TextLine>, c: int, now: seq<TextLine>, d: int, hunks: seq<Hunk>)
    ensures Transforms(was, c, now, d, hunks) <==> Transforms(now, d, was, c, Swap(hunks))
    decreases |hunks|
  {
    if hunks != [] {
      var h, s := hunks[0], SwapHunk(hunks[0]);
      SwapSides(h.lines, s.lines);
      assert Swap(hunks)[0] == s && Swap(hunks)[1..] == Swap(hunks[1..]);
      assert OldIndex(s) == NewIndex(h) && NewIndex(s) == OldIndex(h);
      assert OldEnd(s) == NewEnd(h) && NewEnd(s) == OldEnd(h);
      TransformsBack(was, OldEnd(h), now, NewEnd(h), hunks[1..]);
    }
  }

  ghost predicate HunksNewlineFree(hunks: seq<Hunk>) {
    forall k, i :: 0 <= k < |hunks| && 0 <= i < |hunks[k].lines| ==> OneLine(hunks[k].lines[i].text)
  }

  lemma {:induction false} SwapNewlineFree(hunks: seq<Hunk>)
    requires HunksNewlineFree(hunks)
    ensures HunksNewlineFree(Swap(hunks))
  {
    if hunks != [] {
      assert forall k :: 0 <= k < |hunks| - 1 ==> hunks[1..][k] == hunks[k + 1];
      SwapNewlineFree(hunks[1..]);
      var swapped := Swap(hunks);
      forall k, i | 0 <= k < |swapped| && 0 <= i < |swapped[k].lines| ensures OneLine(swapped[k].lines[i].text) {
        if k == 0 { assert OneLine(hunks[0].lines[i].text); } else { assert swapped[k] == Swap(hunks[1..])[k - 1]; }
      }
    }
  }

  lemma {:induction false} SideNewlineFree(kind: LineKind, lines: seq<HunkLine>)
    requires forall i :: 0 <= i < |lines| ==> OneLine(lines[i].text)
    ensures NewlineFree(Without(kind, lines))
  {
    if lines != [] { SideNewlineFree(kind, lines[..|lines| - 1]); }
  }

  lemma {:induction false} ResultNewlineFree(source: seq<TextLine>, hunks: seq<Hunk>)
    requires NewlineFree(source) && HunksNewlineFree(hunks)
    ensures NewlineFree(SpliceAll(source, hunks))
  {
    if hunks != [] {
      assert forall k :: 0 <= k < |hunks| - 1 ==> hunks[1..][k] == hunks[k + 1];
      ResultNewlineFree(source, hunks[1..]);
      SideNewlineFree(Deletion, hunks[0].lines);
    }
  }

  /** Undoing on lines always works. */
  lemma LinesInvert(source: seq<TextLine>, hunks: seq<Hunk>)
    requires Fits(source, hunks)
    ensures
      var target := SpliceAll(source, hunks);
      && Fits(target, Swap(hunks)) && SpliceAll(target, Swap(hunks)) == source
      && |target| == |source| + TotalGrowth(hunks)
  {
    hide Fits, Swap, TotalGrowth;
    FitsIffResult(source, hunks);
    var now :| Transforms(source, 0, now, 0, hunks);
    TransformsBack(source, 0, now, 0, hunks);
    assert Transforms(now, 0, source, 0, Swap(hunks));
    FitsIffResult(now, Swap(hunks));
    TransformsIsSplice(source, 0, now, 0, hunks);
    TransformsIsSplice(now, 0, source, 0, Swap(hunks));
    assert source[..0] + now[0..] == now && now[..0] + source[0..] == source;
  }

  /** The result has as many lines more as the hunks add, less those that they remove. */
  lemma {:induction false} LineCountLaw(hunks: seq<Hunk>)
    ensures TotalGrowth(hunks) == TotalCount(Addition, hunks) - TotalCount(Deletion, hunks)
  {
    if hunks != [] {
      LineCountLaw(hunks[..|hunks| - 1]);
      GrowthOfLast(hunks);
      GrowthIsAdditionsMinusDeletions(hunks[|hunks| - 1].lines);
    }
  }

  lemma {:induction false} GrowthOfLast(hunks: seq<Hunk>)
    requires hunks != []
    ensures TotalGrowth(hunks) == TotalGrowth(hunks[..|hunks| - 1]) + Growth(hunks[|hunks| - 1])
  {
    if |hunks| > 1 {
      GrowthOfLast(hunks[1..]);
      assert hunks[..|hunks| - 1][1..] == hunks[1..][..|hunks| - 2];
    }
  }

  lemma {:induction false} SwapGrowth(hunks: seq<Hunk>)
    ensures TotalGrowth(Swap(hunks)) == -TotalGrowth(hunks)
  {
    if hunks != [] {
      SwapSides(hunks[0].lines, SwapHunk(hunks[0]).lines);
      SwapGrowth(hunks[1..]);
      assert Swap(hunks)[1..] == Swap(hunks[1..]);
    }
  }

  // ---------- which patches leave the lines of a text ----------

  /** Every new line without a newline is not empty and has the number `last` in the result. */
  predicate OpenOnlyLast(hunks: seq<Hunk>, last: int) {
    forall k, m :: 0 <= k < |hunks| && 0 <= m < |NewSide(hunks[k])| && !NewSide(hunks[k])[m].hasNewline ==>
      NewIndex(hunks[k]) + m == last && NewSide(hunks[k])[m].text != ""
  }

  /** No hunk reaches the last of `n` lines. */
  predicate KeepsLast(n: int, hunks: seq<Hunk>) {
    forall k :: 0 <= k < |hunks| ==> !(OldIndex(hunks[k]) < n <= OldEnd(hunks[k]))
  }

  /** No hunk that stands after `n` lines has new lines. */
  predicate AddsNothingAfter(n: int, hunks: seq<Hunk>) {
    forall k :: 0 <= k < |hunks| && OldIndex(hunks[k]) >= n ==> NewSide(hunks[k]) == []
  }

  /** A last line without a newline, if it lies after `c` and is kept, gets no line after it. */
  predicate KeptStaysLast(source: seq<TextLine>, c: int, hunks: seq<Hunk>) {
    0 <= c < |source| && !source[|source| - 1].hasNewline && KeepsLast(|source|, hunks) ==>
      AddsNothingAfter(|source|, hunks)
  }

  /**
   What can be checked on the hunks and the preimage: a new line without a newline is the last line of
   the result and not empty, and nothing is added after a kept last line that has none.
   */
  predicate LeavesLines(source: seq<TextLine>, hunks: seq<Hunk>) {
    OpenOnlyLast(hunks, |source| + TotalGrowth(hunks) - 1) && KeptStaysLast(source, 0, hunks)
  }

  /** From line `d` on, only a non-empty last line lacks its newline. */
  predicate EndsWell(now: seq<TextLine>, d: int)
    requires 0 <= d
  {
    forall i :: d <= i < |now| && !now[i].hasNewline ==> i == |now| - 1 && now[i].text != ""
  }

  lemma OpenOnlyLastFirst(hunks: seq<Hunk>, last: int)
    requires hunks != []
    ensures OpenOnlyLast(hunks, last) <==> OpenOnlyLast(hunks[..1], last) && OpenOnlyLast(hunks[1..], last)
  {
    hide NewSide, NewIndex;
    assert hunks[..1][0] == hunks[0];
    assert forall k :: 1 <= k < |hunks| ==> hunks[k] == hunks[1..][k - 1];
    if OpenOnlyLast(hunks[..1], last) && OpenOnlyLast(hunks[1..], last) {
      forall k, m | 0 <= k < |hunks| && 0 <= m < |NewSide(hunks[k])| && !NewSide(hunks[k])[m].hasNewline
        ensures NewIndex(hunks[k]) + m == last && NewSide(hunks[k])[m].text != ""
      {
        if k == 0 { assert hunks[k] == hunks[..1][0]; } else { assert hunks[k] == hunks[1..][k - 1]; }
      }
    }
    if OpenOnlyLast(hunks, last) {
      forall k, m | 0 <= k < |hunks[1..]| && 0 <= m < |NewSide(hunks[1..][k])| && !NewSide(hunks[1..][k])[m].hasNewline
        ensures NewIndex(hunks[1..][k]) + m == last && NewSide(hunks[1..][k])[m].text != ""
      {
        assert hunks[1..][k] == hunks[k + 1];
      }
    }
  }

  /** The last line is kept, and nothing is added after it, by the first hunk and by the others. */
  lemma LastFirst(n: int, hunks: seq<Hunk>)
    requires hunks != []
    ensures KeepsLast(n, hunks) <==> !(OldIndex(hunks[0]) < n <= OldEnd(hunks[0])) && KeepsLast(n, hunks[1..])
    ensures AddsNothingAfter(n, hunks) <==>
      (OldIndex(hunks[0]) >= n ==> NewSide(hunks[0]) == []) && AddsNothingAfter(n, hunks[1..])
  {
    hide NewSide, OldIndex, OldEnd;
    assert forall k :: 1 <= k < |hunks| ==> hunks[k] == hunks[1..][k - 1];
    assert forall k :: 0 <= k < |hunks| - 1 ==> hunks[1..][k] == hunks[k + 1];
  }

  /** After the last line of the source, the result goes on exactly with what the hunks add there. */
  lemma {:induction false} AfterLast(was: seq<TextLine>, now: seq<TextLine>, d: int, hunks: seq<Hunk>)
    requires Transforms(was, |was|, now, d, hunks)
    ensures |now| == d <==> AddsNothingAfter(|was|, hunks)
    ensures KeepsLast(|was|, hunks)
    decreases |hunks|
  {
    if hunks != [] {
      LastFirst(|was|, hunks);
      AfterLast(was, now, NewEnd(hunks[0]), hunks[1..]);
    }
  }

  /** The lines that a hunk puts into the result. */
  lemma NewSideEndsWell(now: seq<TextLine>, h: Hunk)
    requires HasAt(now, NewIndex(h), NewSide(h))
    ensures OpenOnlyLast([h], |now| - 1) <==>
      forall i :: NewIndex(h) <= i < NewEnd(h) && !now[i].hasNewline ==> i == |now| - 1 && now[i].text != ""
  {
    hide NewSide, NewIndex;
    var j, side := NewIndex(h), NewSide(h);
    assert forall m :: 0 <= m < |side| ==> side[m] == now[j + m];
    if OpenOnlyLast([h], |now| - 1) {
      forall i | j <= i < NewEnd(h) && !now[i].hasNewline ensures i == |now| - 1 && now[i].text != "" {
        assert side[i - j] == now[i];
        assert [h][0] == h;
      }
    }
  }

  /** The condition is exact, from any line on. */
  lemma {:induction false} EndsWellIff(was: seq<TextLine>, c: int, now: seq<TextLine>, d: int, hunks: seq<Hunk>)
    requires Transforms(was, c, now, d, hunks) && EndsWell(was, 0)
    ensures EndsWell(now, d) <==> OpenOnlyLast(hunks, |now| - 1) && KeptStaysLast(was, c, hunks)
    decreases |hunks|
  {
    if hunks == [] {
      assert forall i :: d <= i < |now| ==> now[i] == now[d..][i - d] == was[c..][i - d] == was[c + (i - d)];
    } else {
      EndsWellIff(was, OldEnd(hunks[0]), now, NewEnd(hunks[0]), hunks[1..]);
      EndsWellStep(was, c, now, d, hunks);
    }
  }

  lemma EndsWellStep(was: seq<TextLine>, c: int, now: seq<TextLine>, d: int, hunks: seq<Hunk>)
    requires hunks != [] && Transforms(was, c, now, d, hunks) && EndsWell(was, 0)
    requires
      EndsWell(now, NewEnd(hunks[0])) <==>
        OpenOnlyLast(hunks[1..], |now| - 1) && KeptStaysLast(was, OldEnd(hunks[0]), hunks[1..])
    ensures EndsWell(now, d) <==> OpenOnlyLast(hunks, |now| - 1) && KeptStaysLast(was, c, hunks)
  {
    var h := hunks[0];
    assert hunks[..1] == [h];
    BetweenEndsWell(was, c, now, d, h);
    KeptStaysLastFirst(was, c, now, d, hunks);
    NewSideEndsWell(now, h);
    OpenOnlyLastFirst(hunks, |now| - 1);
    hide Transforms, OpenOnlyLast, HasAt, KeptStaysLast, NewSide, OldSide, OldIndex, NewIndex, EndsWell;
    EndsWellSplit(now, d, NewIndex(h), NewEnd(h));
  }

  /** A hunk after a kept last line must add nothing, and then nothing follows. */
  lemma KeptStaysLastFirst(was: seq<TextLine>, c: int, now: seq<TextLine>, d: int, hunks: seq<Hunk>)
    requires hunks != [] && Transforms(was, c, now, d, hunks)
    ensures KeptStaysLast(was, c, hunks) <==>
      && (c < |was| && OldIndex(hunks[0]) == |was| && !was[|was| - 1].hasNewline ==> NewIndex(hunks[0]) == |now|)
      && KeptStaysLast(was, OldEnd(hunks[0]), hunks[1..])
  {
    hide KeepsLast, AddsNothingAfter, OldSide, NewSide, OldIndex, NewIndex;
    var h := hunks[0];
    LastFirst(|was|, hunks);
    assert 0 <= c <= OldIndex(h) <= OldEnd(h) <= |was| && NewIndex(h) <= NewEnd(h) <= |now|;
    assert NewSide(h) == [] <==> NewEnd(h) == NewIndex(h);
    if OldIndex(h) == |was| { AfterLast(was, now, NewEnd(h), hunks[1..]); }
    hide Transforms, HasAt;
  }

  lemma EndsWellSplit(now: seq<TextLine>, d: nat, j: nat, f: nat)
    requires d <= j <= f <= |now|
    ensures EndsWell(now, d) <==>
      && (forall i :: d <= i < j && !now[i].hasNewline ==> i == |now| - 1 && now[i].text != "")
      && (forall i :: j <= i < f && !now[i].hasNewline ==> i == |now| - 1 && now[i].text != "")
      && EndsWell(now, f)
  {
  }

  /** The lines before a hunk: only the last line of the source may lack its newline, and then nothing may follow. */
  lemma BetweenEndsWell(was: seq<TextLine>, c: nat, now: seq<TextLine>, d: nat, h: Hunk)
    requires EndsWell(was, 0) && c <= OldIndex(h) <= |was| && d <= NewIndex(h) <= |now|
    requires was[c..OldIndex(h)] == now[d..NewIndex(h)]
    ensures (forall i :: d <= i < NewIndex(h) && !now[i].hasNewline ==> i == |now| - 1 && now[i].text != "") <==>
      (c < |was| && OldIndex(h) == |was| && !was[|was| - 1].hasNewline ==> NewIndex(h) == |now|)
  {
    var o, j := OldIndex(h), NewIndex(h);
    hide OldIndex, NewIndex;
    assert |was[c..o]| == |now[d..j]|;
    assert forall i :: d <= i < j ==> now[i] == now[d..j][i - d] == was[c..o][i - d] == was[c + (i - d)];
    if c < |was| && o == |was| { assert now[j - 1] == was[|was| - 1]; }
  }

  /** The result has the lines of a text exactly when the condition on hunks and preimage holds. */
  lemma LeavesLinesIff(source: seq<TextLine>, hunks: seq<Hunk>)
    requires Fits(source, hunks) && WellFormedLines(source) && HunksNewlineFree(hunks)
    ensures WellFormedLines(SpliceAll(source, hunks)) <==> LeavesLines(source, hunks)
  {
    hide Fits, OpenOnlyLast, KeptStaysLast, HunksNewlineFree, Transforms, SpliceAll, WellFormedLines, EndsWell,
      NewlineFree, TotalGrowth;
    FitsIffResult(source, hunks);
    var now :| Transforms(source, 0, now, 0, hunks);
    TransformsIsSplice(source, 0, now, 0, hunks);
    assert source[..0] + now[0..] == now;
    WellFormedEndsWell(source);
    WellFormedEndsWell(now);
    ResultNewlineFree(source, hunks);
    EndsWellIff(source, 0, now, 0, hunks);
  }

  lemma WellFormedEndsWell(lines: seq<TextLine>)
    ensures WellFormedLines(lines) <==> NewlineFree(lines) && EndsWell(lines, 0)
  {
  }

  /**
   Undoing on texts works exactly when the new lines are the lines of a text, that is, when only a
   non-empty last line lacks its newline; and this can be checked on the hunks and the preimage before
   the patch is applied. The code does not check it.
   */
  lemma TextInversion(hunks: seq<Hunk>, preimage: string)
    requires Utf8Size(preimage) <= MAX_PATCH_TARGET_BYTES && HunksNewlineFree(hunks)
    requires Simulation(hunks, preimage).Some?
    ensures
      Simulation(Swap(hunks), Simulation(hunks, preimage).value) == Some(preimage)
      <==> WellFormedLines(SpliceAll(SplitText(preimage), hunks))
    ensures
      Simulation(Swap(hunks), Simulation(hunks, preimage).value) == Some(preimage)
      <==> LeavesLines(SplitText(preimage), hunks)
  {
    hide Fits, Swap, SpliceAll, LeavesLines, SplitText, JoinText, Utf8Size, WellFormedLines, HunksNewlineFree,
      NewlineFree;
    var source := SplitText(preimage);
    var target := SpliceAll(source, hunks);
    var postimage := JoinText(target);
    JoinSplitText(preimage);
    FreeOfWellFormed(source);
    LinesInvert(source, hunks);
    LeavesLinesIff(source, hunks);
    ResultNewlineFree(source, hunks);
    SplitJoinText(target);
    if !WellFormedLines(target) && Simulation(Swap(hunks), postimage).Some? {
      var other := SplitText(postimage);
      var back := SpliceAll(other, Swap(hunks));
      JoinSplitText(postimage);
      FreeOfWellFormed(other);
      SwapNewlineFree(hunks);
      ResultNewlineFree(other, Swap(hunks));
      LinesInvert(other, Swap(hunks));
      SwapGrowth(hunks);
      SplitJoinText(back);
    }
  }

  lemma FreeOfWellFormed(lines: seq<TextLine>)
    requires WellFormedLines(lines)
    ensures NewlineFree(lines)
  {
  }

  /** Replaces the line x, which has no newline, by two lines without newlines. */
  const UNCLOSED :=
    Hunk([HunkLine(Deletion, true, "x"), HunkLine(Addition, true, "a"), HunkLine(Addition, true, "b")], 2, 1, 1, 1)

  /** A patch that cannot be undone: two lines of its new side lack their newlines. */
  lemma UndoFails()
    ensures Simulation([UNCLOSED], "x") == Some("ab") && Simulation(Swap([UNCLOSED]), "ab") != Some("x")
  {
    UnclosedApplies();
    var target := SpliceAll([TextLine("x", false)], [UNCLOSED]);
    hide Simulation, Swap, SpliceAll, SplitText;
    OneLineText("x");
    assert !target[0].hasNewline && |target| == 2;
    TextInversion([UNCLOSED], "x");
  }

  lemma UnclosedApplies()
    ensures Simulation([UNCLOSED], "x") == Some("ab")
    ensures SpliceAll([TextLine("x", false)], [UNCLOSED]) == [TextLine("a", false), TextLine("b", false)]
  {
    hide Without, SplitText, OldSide, NewSide, JoinText;
    UnclosedSides();
    OneLineText("x");
    var x, a, b := TextLine("x", false), TextLine("a", false), TextLine("b", false);
    assert HasAt([x], 0, [x]);
    assert TotalGrowth([UNCLOSED][..0]) == 0;
    assert Fits([x], [UNCLOSED]);
    assert [UNCLOSED][1..] == [];
    assert Splice([x], UNCLOSED) == [a, b];
    assert SpliceAll([x], []) == [x];
    assert SpliceAll([x], [UNCLOSED]) == [a, b];
    hide Fits, SpliceAll;
    UnclosedJoined();
  }

  lemma UnclosedSides()
    ensures OldSide(UNCLOSED) == [TextLine("x", false)]
      && NewSide(UNCLOSED) == [TextLine("a", false), TextLine("b", false)]
  {
    var l := UNCLOSED.lines;
    SidesOfThree(Addition, l[0], l[1], l[2]);
    SidesOfThree(Deletion, l[0], l[1], l[2]);
    hide Without;
    assert l == [l[0], l[1], l[2]];
  }

  lemma UnclosedJoined()
    ensures JoinText([TextLine("a", false), TextLine("b", false)]) == "ab" && Utf8Size("ab") <= 8
  {
  }

  lemma SidesOfThree(kind: LineKind, a: HunkLine, b: HunkLine, c: HunkLine)
    ensures Without(kind, [a, b, c])
         == ((if a.kind == kind then [] else [ExpectedLine(a)])
             + (if b.kind == kind then [] else [ExpectedLine(b)])
             + (if c.kind == kind then [] else [ExpectedLine(c)]))
  {
    assert [a, b, c][..2] == [a, b] && [a, b][..1] == [a] && [a][..0] == [];
    assert Without(kind, [a]) == if a.kind == kind then [] else [ExpectedLine(a)];
    assert Without(kind, [a, b]) == Without(kind, [a]) + if b.kind == kind then [] else [ExpectedLine(b)];
  }

  lemma OneLineText(text: string)
    requires OneLine(text) && text != ""
    ensures SplitText(text) == [TextLine(text, false)]
  {
  }
}
