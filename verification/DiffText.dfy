/** The single lines of a unified diff: hunk headers, file headers and metadata. */
module DiffText {
  import opened Wrappers
  import opened Lines

  datatype ParseError =
    | PatchTooLarge | ContainsNul | InvalidLineEndings | PatchEmpty | TooManyFiles | TooManyChangedLines
    | BadHeader | RenameDenied | BadFileHeader | UnsupportedMetadata | BadIndex | BadCreateHeader | DeleteDenied
    | EmptyFile
    | BadHunk | BadNoNewline | BadHunkLine | BadHunkCount | EmptyHunk

  const MAX_SAFE_INTEGER := 0x1F_FFFF_FFFF_FFFF

  // ---------- characters and numbers ----------

  predicate IsDigit(c: char) {
    '0' <= c <= '9'
  }

  /** What JavaScript counts as white space or a line terminator. */
  predicate IsWhitespace(c: char) {
    || c in "\t\n\r " || c as int in {0x0B, 0x0C, 0xA0, 0x1680, 0x2028, 0x2029, 0x202F, 0x205F, 0x3000, 0xFEFF}
    || 0x2000 <= c as int <= 0x200A
  }

  predicate IsLineTerminator(c: char) {
    c == '\n' || c == '\r' || c as int in {0x2028, 0x2029}
  }

  predicate AllDigits(s: string) {
    forall i :: 0 <= i < |s| ==> IsDigit(s[i])
  }

  /** How many digits a text starts with. */
  function DigitRun(s: string): (n: nat)
    ensures n <= |s| && AllDigits(s[..n]) && (n < |s| ==> !IsDigit(s[n]))
  {
    if s == "" || !IsDigit(s[0]) then 0 else 1 + DigitRun(s[1..])
  }

  function ParseInt(digits: string): nat
    requires AllDigits(digits)
  {
    if digits == "" then 0
    else 10 * ParseInt(digits[..|digits| - 1]) + (digits[|digits| - 1] as int - '0' as int)
  }

  function Decimal(n: nat): (s: string)
    ensures s != "" && AllDigits(s)
  {
    var last := [('0' as int + n % 10) as char];
    if n < 10 then last else Decimal(n / 10) + last
  }

  lemma {:induction false} ParseDecimal(n: nat)
    ensures ParseInt(Decimal(n)) == n
  {
    var s := Decimal(n);
    if n < 10 {
      assert s[..0] == "";
    } else {
      ParseDecimal(n / 10);
      assert s[..|s| - 1] == Decimal(n / 10);
    }
  }

  lemma {:induction false} DigitRunOf(digits: string, rest: string)
    requires AllDigits(digits) && (rest == "" || !IsDigit(rest[0]))
    ensures DigitRun(digits + rest) == |digits|
    ensures (digits + rest)[..|digits|] == digits && (digits + rest)[|digits|..] == rest
  {
  }

  // ---------- hunk headers ----------

  /** The position part of a hunk header; a missing count means one line. */
  datatype Range = Range(start: string, count: Option<string>)

  datatype Header = Header(was: Range, now: Range)

  predicate ValidRange(r: Range) {
    r.start != "" && AllDigits(r.start) && (r.count.Some? ==> r.count.value != "" && AllDigits(r.count.value))
  }

  function RangeText(r: Range): string {
    r.start + if r.count.Some? then "," + r.count.value else ""
  }

  /** A range at the start of a text, and what follows it. */
  function ScanRange(s: string): (r: Option<(Range, string)>)
    ensures r.Some? ==> ValidRange(r.value.0) && s == RangeText(r.value.0) + r.value.1
  {
    var n := DigitRun(s);
    if n == 0 then None
    else
      var rest := s[n..];
      if rest == "" || rest[0] != ',' then Some((Range(s[..n], None), rest))
      else
        var m := DigitRun(rest[1..]);
        if m == 0 then Some((Range(s[..n], None), rest))
        else
          assert rest == "," + rest[1..][..m] + rest[1..][m..];
          Some((Range(s[..n], Some(rest[1..][..m])), rest[1..][m..]))
  }

  lemma ScanRangeOf(r: Range, rest: string)
    requires ValidRange(r) && (rest == "" || (!IsDigit(rest[0]) && rest[0] != ','))
    ensures ScanRange(RangeText(r) + rest) == Some((r, rest))
  {
    hide DigitRun;
    var s := RangeText(r) + rest;
    if r.count.None? {
      assert s == r.start + rest;
      DigitRunOf(r.start, rest);
    } else {
      var later := "," + r.count.value + rest;
      assert s == r.start + later;
      DigitRunOf(r.start, later);
      assert later[1..] == r.count.value + rest;
      DigitRunOf(r.count.value, rest);
    }
  }

  /** The text after the second pair of at signs: nothing, or a blank and anything on one line. */
  predicate IsSection(s: string) {
    s == "" || (s[0] == ' ' && forall i :: 1 <= i < |s| ==> !IsLineTerminator(s[i]))
  }

  function StripPrefix(prefix: string, s: string): (r: Option<string>)
    ensures r.Some? <==> prefix <= s
    ensures r.Some? ==> s == prefix + r.value
  {
    if prefix <= s then Some(s[|prefix|..]) else None
  }

  lemma StripOf(prefix: string, rest: string)
    ensures StripPrefix(prefix, prefix + rest) == Some(rest)
  {
  }

  function HeaderText(h: Header, section: string): string {
    "@@ -" + RangeText(h.was) + " +" + RangeText(h.now) + " @@" + section
  }

  /** Matches a hunk header. */
  function ScanHeader(line: string): (r: Option<Header>)
    ensures r.Some? ==> ValidRange(r.value.was) && ValidRange(r.value.now)
  {
    var s := StripPrefix("@@ -", line);
    if s.None? then None
    else
      var was := ScanRange(s.value);
      if was.None? then None
      else
        var t := StripPrefix(" +", was.value.1);
        if t.None? then None
        else
          var now := ScanRange(t.value);
          if now.None? then None
          else
            var u := StripPrefix(" @@", now.value.1);
            if u.None? || !IsSection(u.value) then None else Some(Header(was.value.0, now.value.0))
  }

  /** A line is a hunk header exactly when it is the text of one, and then of only that one. */
  lemma HeaderIsItsText(line: string, h: Header)
    ensures ScanHeader(line) == Some(h) <==>
      ValidRange(h.was) && ValidRange(h.now) && exists section :: IsSection(section) && line == HeaderText(h, section)
  {
    hide ScanRange, StripPrefix, RangeText, IsSection, ValidRange;
    if ScanHeader(line) == Some(h) {
      var s := StripPrefix("@@ -", line).value;
      var was := ScanRange(s).value;
      var t := StripPrefix(" +", was.1).value;
      var now := ScanRange(t).value;
      var section := StripPrefix(" @@", now.1).value;
      HeaderParts("@@ -", RangeText(was.0), " +", RangeText(now.0), " @@", section);
      assert line == HeaderText(h, section);
    }
    forall section | IsSection(section) && line == HeaderText(h, section) && ValidRange(h.was) && ValidRange(h.now)
      ensures ScanHeader(line) == Some(h)
    {
      HeaderScans(h, section);
    }
  }

  lemma HeaderParts(a: string, b: string, c: string, d: string, e: string, f: string)
    ensures a + (b + (c + (d + (e + f)))) == a + b + c + d + e + f
  {
  }

  lemma HeaderScans(h: Header, section: string)
    requires ValidRange(h.was) && ValidRange(h.now) && IsSection(section)
    ensures ScanHeader(HeaderText(h, section)) == Some(h)
  {
    hide ScanRange, StripPrefix, RangeText, ValidRange, IsSection;
    var z := " @@" + section;
    var y := " +" + (RangeText(h.now) + z);
    HeaderParts("@@ -", RangeText(h.was), " +", RangeText(h.now), " @@", section);
    assert HeaderText(h, section) == "@@ -" + (RangeText(h.was) + y);
    StripOf("@@ -", RangeText(h.was) + y);
    ScanRangeOf(h.was, y);
    StripOf(" +", RangeText(h.now) + z);
    ScanRangeOf(h.now, z);
    StripOf(" @@", section);
  }

  // ---------- metadata ----------

  /** Lines that announce a deletion, a rename, a copy, a mode, a binary or a submodule change. */
  predicate IsDenied(line: string) {
    || line == "GIT binary patch"
    || "old mode " <= line || "new mode " <= line || "deleted file mode " <= line || "new file mode " <= line
    || "similarity index " <= line || "dissimilarity index " <= line
    || "rename from " <= line || "rename to " <= line || "copy from " <= line || "copy to " <= line
    || "Binary files " <= line || "Submodule " <= line
  }

  predicate IsHashText(s: string) {
    s != "" && forall i :: 0 <= i < |s| ==> !IsWhitespace(s[i]) && s[i] != '.'
  }

  /** Two object names with two dots between them, and no mode. */
  predicate IsIndexLine(line: string) {
    exists n :: 6 <= n <= |line| - 2 && line[..6] == "index " && IsHashText(line[6..n])
                && line[n..n + 2] == ".." && IsHashText(line[n + 2..])
  }

  /** A line is an index line exactly when it is the text of two object names. */
  lemma IndexLineIsText(line: string)
    ensures IsIndexLine(line) <==> exists a, b :: IsHashText(a) && IsHashText(b) && line == IndexText(a, b)
  {
    if IsIndexLine(line) {
      var n :| 6 <= n <= |line| - 2 && line[..6] == "index " && IsHashText(line[6..n])
               && line[n..n + 2] == ".." && IsHashText(line[n + 2..]);
      assert line == line[..6] + line[6..n] + line[n..n + 2] + line[n + 2..];
      assert line == IndexText(line[6..n], line[n + 2..]);
    }
    forall a, b | IsHashText(a) && IsHashText(b) && line == IndexText(a, b) ensures IsIndexLine(line) {
      IndexTextIsIndex(a, b);
    }
  }

  function IndexText(a: string, b: string): string {
    "index " + a + ".." + b
  }

  lemma IndexTextIsIndex(a: string, b: string)
    requires IsHashText(a) && IsHashText(b)
    ensures IsIndexLine(IndexText(a, b)) && "index " <= IndexText(a, b) && !IsDenied(IndexText(a, b))
  {
    var line, n := IndexText(a, b), 6 + |a|;
    assert line[..6] == "index " && line[6..n] == a && line[n..n + 2] == ".." && line[n + 2..] == b;
    assert line[0] == 'i' && line[1] == 'n';
  }

  lemma NotMetadata(line: string)
    requires line != "" && line[0] in "-+@"
    ensures !IsDenied(line) && !("index " <= line)
  {
  }

  // ---------- file headers ----------

  const DIFF_PREFIX := "diff --git a/"

  function DiffHeader(path: string): string {
    DIFF_PREFIX + (path + (" b/" + path))
  }

  predicate MarkerAt(body: string, i: int) {
    0 <= i <= |body| - 3 && body[i..i + 3] == " b/"
  }

  /** The position of the first " b/" at or after an offset, or -1. */
  method IndexOfMarker(body: string, offset: nat) returns (marker: int)
    requires offset <= |body|
    ensures marker >= 0 ==> offset <= marker && MarkerAt(body, marker)
    ensures forall i :: offset <= i && (marker < 0 || i < marker) ==> !MarkerAt(body, i)
    ensures marker >= -1
  {
    marker := offset;
    while marker + 3 <= |body|
      invariant offset <= marker
      invariant forall i :: offset <= i < marker ==> !MarkerAt(body, i)
    {
      if body[marker..marker + 3] == " b/" { return; }
      marker := marker + 1;
    }
    marker := -1;
  }

  /** A marker with the same path on both sides. */
  predicate Divides(body: string, marker: int) {
    MarkerAt(body, marker) && body[..marker] == body[marker + 3..]
  }

  /** Only the middle of the text can divide it into equal paths. */
  lemma DividesInTheMiddle(body: string, marker: int)
    requires Divides(body, marker)
    ensures |body| == 2 * marker + 3
  {
  }

  /**
   The one path of a diff header. It is found even when the path itself contains the marker: exactly
   the lines that name the same non-empty path twice are accepted.
   */
  method ParseDiffHeader(line: string) returns (r: Result<string, ParseError>)
    ensures r == DiffPath(line)
  {
    if !(DIFF_PREFIX <= line) { return Err(BadHeader); }
    var body := line[|DIFF_PREFIX|..];
    var candidates: seq<string> := [];
    var offset := 0;
    while true
      invariant offset <= |body|
      invariant candidates == if offset > Middle(body) && Divides(body, Middle(body)) then [body[..Middle(body)]]
        else []
      decreases |body| - offset
    {
      var marker := IndexOfMarker(body, offset);
      if marker < 0 { break; }
      var oldPath, newPath := body[..marker], body[marker + 3..];
      if oldPath == newPath {
        DividesInTheMiddle(body, marker);
        candidates := candidates + [oldPath];
      }
      offset := marker + 1;
    }
    if |candidates| != 1 { return Err(RenameDenied); }
    var path := candidates[0];
    if path == "" { return Err(BadHeader); }
    return Ok(path);
  }

  function Middle(body: string): int {
    (|body| - 3) / 2
  }

  /** The only candidate is looked up at once. */
  function DiffPath(line: string): Result<string, ParseError> {
    if !(DIFF_PREFIX <= line) then Err(BadHeader)
    else
      var body := line[|DIFF_PREFIX|..];
      if !Divides(body, Middle(body)) then Err(RenameDenied)
      else if body[..Middle(body)] == "" then Err(BadHeader)
      else Ok(body[..Middle(body)])
  }

  /** A header is accepted exactly when it names one non-empty path twice. */
  lemma DiffPathIsHeader(line: string, path: string)
    ensures DiffPath(line) == Ok(path) <==> path != "" && line == DiffHeader(path)
  {
    if DiffPath(line) == Ok(path) {
      var body := line[|DIFF_PREFIX|..];
      var m := Middle(body);
      assert body == body[..m] + (body[m..m + 3] + body[m + 3..]);
      assert line == DIFF_PREFIX + body;
    }
    if path != "" && line == DiffHeader(path) { HeaderHasPath(path); }
  }

  lemma HeaderHasPath(path: string)
    requires path != ""
    ensures DiffPath(DiffHeader(path)) == Ok(path)
  {
  }

  /** The path after the prefix of a file header. */
  function PrefixedPath(line: string, prefix: string): Result<string, ParseError> {
    if !(prefix <= line) then Err(BadFileHeader)
    else if line[|prefix|..] == "" || '\t' in line[|prefix|..] then Err(BadFileHeader)
    else Ok(line[|prefix|..])
  }
}
