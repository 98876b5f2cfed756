/** Texts cut at newlines, their reassembly, and their size in UTF-8 bytes. */
module Lines {
  import Utf8

  /** The position of the first newline, or the length of the text. */
  function FirstNewline(s: string): (n: nat)
    ensures n <= |s| && (forall i :: 0 <= i < n ==> s[i] != '\n') && (n < |s| ==> s[n] == '\n')
  {
    if s == "" || s[0] == '\n' then 0 else 1 + FirstNewline(s[1..])
  }

  predicate OneLine(s: string) {
    '\n' !in s
  }

  /** The pieces between newlines; there is always at least one. */
  function Split(s: string): (r: seq<string>)
    ensures |r| > 0
    decreases |s|
  {
    var n := FirstNewline(s);
    if n == |s| then [s] else [s[..n]] + Split(s[n + 1..])
  }

  function Join(lines: seq<string>): string {
    if lines == [] then ""
    else if |lines| == 1 then lines[0]
    else lines[0] + "\n" + Join(lines[1..])
  }

  lemma FirstNewlineAt(line: string, rest: string)
    requires OneLine(line)
    ensures FirstNewline(line + "\n" + rest) == |line|
    ensures (line + "\n" + rest)[..|line|] == line && (line + "\n" + rest)[|line| + 1..] == rest
    ensures FirstNewline(line) == |line|
  {
    var s := line + "\n" + rest;
    assert s[|line|] == '\n';
    assert forall i :: 0 <= i < |line| ==> s[i] == line[i];
  }

  /** Cutting and reassembling a text gives it back. */
  lemma {:induction false} JoinSplit(s: string)
    ensures Join(Split(s)) == s
    ensures forall i :: 0 <= i < |Split(s)| ==> OneLine(Split(s)[i])
    decreases |s|
  {
    hide FirstNewline;
    var n := FirstNewline(s);
    if n < |s| {
      JoinSplit(s[n + 1..]);
      var r := Split(s);
      assert r[1..] == Split(s[n + 1..]);
      assert s == s[..n] + "\n" + s[n + 1..];
    }
  }

  /** Reassembling one-line pieces and cutting gives the pieces back. */
  lemma {:induction false} SplitJoin(lines: seq<string>)
    requires lines != [] && forall i :: 0 <= i < |lines| ==> OneLine(lines[i])
    ensures Split(Join(lines)) == lines
  {
    hide FirstNewline, OneLine;
    if |lines| == 1 {
      FirstNewlineAt(lines[0], "");
    } else {
      SplitJoin(lines[1..]);
      FirstNewlineAt(lines[0], Join(lines[1..]));
      assert lines == [lines[0]] + lines[1..];
    }
  }

  /** How many bytes a character takes in UTF-8. */
  function CharSize(c: char): (n: nat)
    ensures 1 <= n <= 4
  {
    if c as int < 0x80 then 1 else if c as int < 0x800 then 2 else if c as int < 0x1_0000 then 3 else 4
  }

  lemma CharSizeIsEncoded(c: char, bytes: Utf8.Bytes)
    requires Utf8.Encodes(bytes, c as int)
    ensures CharSize(c) == |bytes|
  {
  }

  /** The bytes of a text are counted as they are encoded. */
  lemma {:induction false} Utf8SizeIsEncoded(s: string, bytes: Utf8.Bytes)
    requires Utf8.EncodesAll(bytes, CodePoints(s))
    ensures Utf8Size(s) == |bytes|
  {
    if s != "" {
      assert CodePoints(s)[1..] == CodePoints(s[1..]);
      var n :| 1 <= n <= |bytes| && Utf8.Encodes(bytes[..n], CodePoints(s)[0])
               && Utf8.EncodesAll(bytes[n..], CodePoints(s)[1..]);
      CharSizeIsEncoded(s[0], bytes[..n]);
      Utf8SizeIsEncoded(s[1..], bytes[n..]);
    }
  }

  function CodePoints(s: string): seq<nat> {
    seq(|s|, i requires 0 <= i < |s| => s[i] as int)
  }

  function Utf8Size(s: string): (n: nat)
    ensures |s| <= n <= 4 * |s|
  {
    if s == "" then 0 else CharSize(s[0]) + Utf8Size(s[1..])
  }
}
