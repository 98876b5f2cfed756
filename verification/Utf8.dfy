/**
 Well-formed UTF-8 as section 4 of RFC 3629 defines it, and the longest well-formed prefix of a
 byte string. A leading byte order mark is treated like any other character.
 */
module Utf8 {
  import opened Wrappers

  type Byte = b: int | 0 <= b < 0x100

  type Bytes = seq<Byte>

  predicate IsTail(b: Byte) {
    0x80 <= b <= 0xBF
  }

  /** The second byte of a character, which for some lead bytes has a narrower range. */
  predicate IsSecond(lead: Byte, b: Byte) {
    && IsTail(b)
    && (lead == 0xE0 ==> 0xA0 <= b)
    && (lead == 0xED ==> b <= 0x9F)
    && (lead == 0xF0 ==> 0x90 <= b)
    && (lead == 0xF4 ==> b <= 0x8F)
  }

  /** How many bytes a character with this first byte has; 0 for a byte that starts none. */
  function Expected(lead: Byte): nat {
    if lead <= 0x7F then 1
    else if 0xC2 <= lead <= 0xDF then 2
    else if 0xE0 <= lead <= 0xEF then 3
    else if 0xF0 <= lead <= 0xF4 then 4
    else 0
  }

  /** The bytes after the lead byte, as far as they are there, continue the character. */
  predicate Continues(s: Bytes)
    requires s != []
  {
    && (|s| >= 2 ==> IsSecond(s[0], s[1]))
    && (|s| >= 3 ==> IsTail(s[2]))
    && (|s| >= 4 ==> IsTail(s[3]))
  }

  /** The length of the well-formed character at the start of `s`, or 0 if there is none. */
  function CharLength(s: Bytes): (n: nat)
    ensures n <= |s| && n <= 4
  {
    if s == [] then 0
    else
      var n := Expected(s[0]);
      if 0 < n <= |s| && Continues(s[..n]) then n else 0
  }

  predicate WellFormed(s: Bytes) {
    s == [] || (CharLength(s) > 0 && WellFormed(s[CharLength(s)..]))
  }

  /** A proper, non-empty prefix of a well-formed character. */
  predicate IsPartial(s: Bytes) {
    s != [] && |s| < Expected(s[0]) && Continues(s)
  }

  /** The length of the longest well-formed prefix. */
  function Longest(s: Bytes): (n: nat)
    ensures n <= |s|
  {
    if CharLength(s) == 0 then 0 else CharLength(s) + Longest(s[CharLength(s)..])
  }

  /** The length of the longest well-formed prefix of at most `m` bytes. */
  function Fit(s: Bytes, m: nat): (n: nat)
    ensures n <= |s| && n <= m
  {
    if |s| <= m then Longest(s) else Longest(s[..m])
  }

  /** Some well-formed string starts with `s`. */
  ghost predicate IsPrefixOfWellFormed(s: Bytes) {
    exists rest: Bytes :: WellFormed(s + rest)
  }

  // ---------- characters ----------

  lemma CharLengthOfPrefix(s: Bytes, n: nat)
    requires n <= |s|
    ensures CharLength(s) > 0 && CharLength(s) <= n ==> CharLength(s[..n]) == CharLength(s)
    ensures CharLength(s[..n]) > 0 ==> CharLength(s) == CharLength(s[..n])
  {
  }

  lemma {:induction false} WellFormedConcat(s: Bytes, t: Bytes)
    requires WellFormed(s)
    ensures WellFormed(s + t) <==> WellFormed(t)
    ensures Longest(s + t) == |s| + Longest(t)
  {
    if s == [] {
      assert s + t == t;
    } else {
      var n := CharLength(s);
      assert (s + t)[..|s|] == s;
      CharLengthOfPrefix(s + t, |s|);
      assert (s + t)[n..] == s[n..] + t;
      WellFormedConcat(s[n..], t);
    }
  }

  /** `Longest` is well-formed, and no longer prefix is. */
  lemma {:induction false} LongestIsLongest(s: Bytes)
    ensures WellFormed(s[..Longest(s)])
    ensures forall n :: 0 <= n <= |s| && WellFormed(s[..n]) ==> n <= Longest(s)
  {
    hide WellFormed, Longest, CharLength;
    LongestIsWellFormed(s);
    forall n | 0 <= n <= |s| && WellFormed(s[..n]) ensures n <= Longest(s) {
      WellFormedConcat(s[..n], s[n..]);
      assert s[..n] + s[n..] == s;
    }
  }

  lemma {:induction false} LongestIsWellFormed(s: Bytes)
    ensures WellFormed(s[..Longest(s)])
  {
    var n := CharLength(s);
    if n > 0 {
      LongestIsWellFormed(s[n..]);
      var p := s[..Longest(s)];
      CharLengthOfPrefix(s, Longest(s));
      assert p[n..] == s[n..][..Longest(s[n..])];
    }
  }

  lemma {:induction false} WellFormedIsLongest(s: Bytes)
    ensures WellFormed(s) <==> Longest(s) == |s|
  {
    LongestIsLongest(s);
    assert s[..|s|] == s;
  }

  /** The longest prefix within `m` bytes, said without the function. */
  lemma FitIsLongest(s: Bytes, m: nat)
    ensures WellFormed(s[..Fit(s, m)])
    ensures forall n :: 0 <= n <= |s| && n <= m && WellFormed(s[..n]) ==> n <= Fit(s, m)
  {
    if |s| <= m {
      LongestIsLongest(s);
    } else {
      LongestIsLongest(s[..m]);
      assert s[..m][..Fit(s, m)] == s[..Fit(s, m)];
      forall n | 0 <= n <= m && WellFormed(s[..n]) ensures n <= Fit(s, m) {
        assert s[..m][..n] == s[..n];
      }
    }
  }

  /** A well-formed start can be split off before fitting. */
  lemma FitConcat(s: Bytes, t: Bytes, m: nat)
    requires WellFormed(s) && |s| <= m
    ensures Fit(s + t, m) == |s| + Fit(t, m - |s|)
  {
    if |s + t| > m {
      assert (s + t)[..m] == s + t[..m - |s|];
      WellFormedConcat(s, t[..m - |s|]);
    } else {
      WellFormedConcat(s, t);
    }
  }

  /** Bytes beyond the limit do not matter. */
  lemma FitOfLonger(s: Bytes, t: Bytes, m: nat)
    requires m <= |s|
    ensures Fit(s + t, m) == Fit(s, m)
  {
    assert (s + t)[..m] == s[..m];
    if t == [] {
      assert s + t == s;
    } else if |s| == m {
      assert (s + t)[..m] == s;
    }
  }

  // ---------- incomplete tails ----------

  /** A partial character at the end of a byte string has one possible length. */
  lemma PartialIsUnique(s: Bytes, j: nat, k: nat)
    requires j <= |s| && k <= |s|
    requires IsPartial(s[|s| - j..]) && IsPartial(s[|s| - k..])
    ensures j == k
  {
  }

  /** A well-formed string does not end with a partial character. */
  lemma {:induction false} WellFormedHasNoPartial(s: Bytes, k: nat)
    requires WellFormed(s) && k <= |s|
    ensures !IsPartial(s[|s| - k..])
  {
    if s != [] {
      var n := CharLength(s);
      if |s| - k >= n {
        WellFormedHasNoPartial(s[n..], k);
        assert s[n..][|s[n..]| - k..] == s[|s| - k..];
      } else if k < |s| {
        assert s[|s| - k] == s[..n][|s| - k];
        assert IsTail(s[|s| - k]);
      }
    }
  }

  function SecondByte(lead: Byte): (b: Byte)
    ensures IsSecond(lead, b)
  {
    if lead == 0xE0 then 0xA0 else if lead == 0xF0 then 0x90 else 0x80
  }

  /** Bytes that complete a partial character. */
  function Completion(s: Bytes): (t: Bytes)
    requires IsPartial(s)
    ensures t != [] && |s + t| == Expected(s[0]) && Continues(s + t)
  {
    if |s| == 1 then
      if Expected(s[0]) == 2 then [SecondByte(s[0])]
      else if Expected(s[0]) == 3 then [SecondByte(s[0]), 0x80]
      else [SecondByte(s[0]), 0x80, 0x80]
    else if |s| == 2 && Expected(s[0]) == 4 then [0x80, 0x80]
    else [0x80]
  }

  lemma CompletionIsCharacter(s: Bytes)
    requires IsPartial(s)
    ensures WellFormed(s + Completion(s))
  {
  }

  lemma CanBeContinued(p: Bytes, q: Bytes)
    requires WellFormed(p) && (q == [] || IsPartial(q))
    ensures IsPrefixOfWellFormed(p + q)
  {
    if q == [] {
      assert p + q + [] == p;
    } else {
      hide WellFormed, IsPartial, Completion;
      CompletionIsCharacter(q);
      WellFormedConcat(p, q + Completion(q));
      assert p + q + Completion(q) == p + (q + Completion(q));
    }
  }

  /** What is left after the longest well-formed prefix decides whether the string can be continued. */
  lemma PrefixOfWellFormed(s: Bytes)
    ensures IsPrefixOfWellFormed(s) <==> s[Longest(s)..] == [] || IsPartial(s[Longest(s)..])
  {
    hide WellFormed, IsPartial;
    var p, q := s[..Longest(s)], s[Longest(s)..];
    LongestIsWellFormed(s);
    assert s == p + q;
    if q == [] || IsPartial(q) {
      CanBeContinued(p, q);
    }
    if IsPrefixOfWellFormed(s) {
      var rest: Bytes :| WellFormed(s + rest);
      assert s + rest == p + (q + rest);
      WellFormedConcat(p, q + rest);
      NothingOrPartial(p, q, rest);
    }
  }

  lemma NothingOrPartial(p: Bytes, q: Bytes, rest: Bytes)
    requires WellFormed(p) && Longest(p + q) == |p| && WellFormed(q + rest)
    ensures q == [] || IsPartial(q)
  {
    if q != [] {
      WellFormedConcat(p, q);
      CutCharacter(q, rest);
    }
  }

  /** A character that does not fit in `q` leaves a partial character there. */
  lemma CutCharacter(q: Bytes, rest: Bytes)
    requires q != [] && CharLength(q) == 0 && CharLength(q + rest) > 0
    ensures IsPartial(q)
  {
  }

  // ---------- what the grammar stands for ----------

  /** The code points of characters: all but the surrogates. */
  predicate IsScalar(c: nat) {
    c <= 0x10FFFF && !(0xD800 <= c <= 0xDFFF)
  }

  /** The bits of a character are spread over as few bytes as they fit in, six to each byte after the first. */
  predicate Encodes(s: Bytes, c: nat) {
    && IsScalar(c) && (forall i :: 1 <= i < |s| ==> 0x80 <= s[i] < 0xC0)
    && match |s|
       case 1 => c < 0x80 && s[0] == c
       case 2 => 0x80 <= c < 0x800 && c == (s[0] as int - 0xC0) * 64 + (s[1] as int - 0x80)
       case 3 =>
         0x800 <= c < 0x10000 && c == (s[0] as int - 0xE0) * 4096 + (s[1] as int - 0x80) * 64 + (s[2] as int - 0x80)
       case 4 =>
         && 0x10000 <= c
         && c == (s[0] as int - 0xF0) * 262144 + (s[1] as int - 0x80) * 4096 + (s[2] as int - 0x80) * 64
                 + (s[3] as int - 0x80)
       case _ => false
  }

  /** The character that some bytes stand for, if they do. */
  function Decode(s: Bytes): (c: int)
    requires 1 <= |s| <= 4
  {
    if |s| == 1 then s[0] as int
    else if |s| == 2 then (s[0] as int - 0xC0) * 64 + (s[1] as int - 0x80)
    else if |s| == 3 then (s[0] as int - 0xE0) * 4096 + (s[1] as int - 0x80) * 64 + (s[2] as int - 0x80)
    else
      (s[0] as int - 0xF0) * 262144 + (s[1] as int - 0x80) * 4096 + (s[2] as int - 0x80) * 64 + (s[3] as int - 0x80)
  }

  lemma EncodedIsCharacter(s: Bytes, c: nat, rest: Bytes)
    requires Encodes(s, c)
    ensures CharLength(s + rest) == |s| > 0
  {
    assert (s + rest)[0] == s[0];
    assert (s + rest)[..|s|] == s;
  }

  lemma CharacterIsEncoded(s: Bytes)
    requires CharLength(s) > 0
    ensures Decode(s[..CharLength(s)]) >= 0 && Encodes(s[..CharLength(s)], Decode(s[..CharLength(s)]))
  {
  }

  /** The string is the concatenation of the encodings of these characters. */
  ghost predicate EncodesAll(s: Bytes, cs: seq<nat>)
    decreases |cs|
  {
    if cs == [] then s == []
    else exists n :: 1 <= n <= |s| && Encodes(s[..n], cs[0]) && EncodesAll(s[n..], cs[1..])
  }

  /** A byte string is well-formed exactly when it encodes some sequence of characters. */
  lemma {:induction false} WellFormedIff(s: Bytes)
    ensures WellFormed(s) <==> exists cs :: EncodesAll(s, cs)
    decreases |s|
  {
    hide CharLength, Encodes, Decode;
    var n := CharLength(s);
    if s == [] {
      assert EncodesAll(s, []);
    } else if WellFormed(s) {
      WellFormedIff(s[n..]);
      CharacterIsEncoded(s);
      var cs :| EncodesAll(s[n..], cs);
      var all := [Decode(s[..n]) as nat] + cs;
      assert all[1..] == cs;
      assert EncodesAll(s, all);
    }
    forall cs | EncodesAll(s, cs) ensures WellFormed(s) { EncodingIsWellFormed(s, cs); }
  }

  lemma {:induction false} EncodingIsWellFormed(s: Bytes, cs: seq<nat>)
    requires EncodesAll(s, cs)
    ensures WellFormed(s)
    decreases |cs|
  {
    hide CharLength, Encodes;
    if cs != [] {
      var n :| 1 <= n <= |s| && Encodes(s[..n], cs[0]) && EncodesAll(s[n..], cs[1..]);
      EncodedIsCharacter(s[..n], cs[0], s[n..]);
      assert s[..n] + s[n..] == s;
      EncodingIsWellFormed(s[n..], cs[1..]);
    }
  }
}
