/**
 Paged reading of a stored text: every page starts and ends on a character boundary.
 */
module ArtifactReader {
  import opened Wrappers
  import opened Utf8

  const MAX_ARTIFACT_READ_BYTES := 64 * 1024

  datatype ReadError = OffsetNotBoundary | OffsetInvalid

  datatype Page = Page(content: Bytes, offset: nat, next: nat, eof: bool)

  /** Where the page ends that starts at `offset`. */
  function NextOffset(view: Bytes, offset: nat, m: nat): (next: nat)
    requires offset <= |view|
    ensures offset <= next <= |view| && next <= offset + m
  {
    offset + Fit(view[offset..], m)
  }

  predicate IsBoundary(view: Bytes, offset: nat) {
    offset <= |view| && WellFormed(view[..offset])
  }

  /** Steps back from the limit until the slice decodes. */
  method DecodeBoundarySlice(bytes: Bytes, offset: nat, maximumBytes: nat) returns (r: Result<nat, ReadError>)
    requires offset <= |bytes|
    ensures r.Ok? <==> IsBoundary(bytes, offset)
    ensures r.Ok? ==> r.value == NextOffset(bytes, offset, maximumBytes)
    ensures r.Err? ==> r.error == OffsetNotBoundary
  {
    if !WellFormed(bytes[..offset]) { return Err(OffsetNotBoundary); }
    var rest := bytes[offset..];
    FitIsLongest(rest, maximumBytes);
    var end := if |bytes| <= offset + maximumBytes then |bytes| else offset + maximumBytes;
    while end > offset
      invariant offset + Fit(rest, maximumBytes) <= end <= |bytes| && end <= offset + maximumBytes
    {
      assert bytes[offset..end] == rest[..end - offset];
      if WellFormed(bytes[offset..end]) { return Ok(end); }
      end := end - 1;
    }
    return Ok(end);
  }

  /** One read of the verified safe view. */
  method Read(view: Bytes, offset: int, maxBytes: int) returns (r: Result<Page, ReadError>)
    ensures r.Ok? <==>
      0 <= offset <= |view| && 1 <= maxBytes <= MAX_ARTIFACT_READ_BYTES && IsBoundary(view, offset)
    ensures r.Ok? ==>
      && r.value.offset == offset && r.value.next == NextOffset(view, offset, maxBytes)
      && r.value.content == view[offset..r.value.next]
      && (r.value.eof <==> r.value.next == |view|)
  {
    if offset < 0 || maxBytes < 1 || maxBytes > MAX_ARTIFACT_READ_BYTES { return Err(OffsetInvalid); }
    if offset > |view| { return Err(OffsetInvalid); }
    var slice := DecodeBoundarySlice(view, offset, maxBytes);
    if slice.Err? { return Err(slice.error); }
    r := Ok(Page(view[offset..slice.value], offset, slice.value, slice.value == |view|));
  }

  // ---------- reading a whole view ----------

  /** A character has at most four bytes, so a full page wastes at most three. */
  lemma {:induction false} FitWastesThree(s: Bytes, m: nat)
    requires WellFormed(s)
    ensures |s| <= m ==> Fit(s, m) == |s|
    ensures |s| > m ==> Fit(s, m) + 3 >= m
  {
    if |s| <= m {
      WellFormedIsLongest(s);
    } else {
      var n := CharLength(s);
      if n <= m {
        assert WellFormed(s[..n]) by { CharLengthOfPrefix(s, n); assert s[..n][n..] == []; }
        FitConcat(s[..n], s[n..], m);
        assert s == s[..n] + s[n..];
        FitWastesThree(s[n..], m - n);
      }
    }
  }

  lemma NextIsBoundary(view: Bytes, offset: nat, m: nat)
    requires WellFormed(view) && IsBoundary(view, offset)
    ensures IsBoundary(view, NextOffset(view, offset, m))
    ensures WellFormed(view[offset..NextOffset(view, offset, m)])
    ensures WellFormed(view[offset..])
  {
    hide WellFormed, Longest;
    var next := NextOffset(view, offset, m);
    FitIsLongest(view[offset..], m);
    assert view[offset..next] == view[offset..][..next - offset];
    assert view == view[..offset] + view[offset..];
    WellFormedConcat(view[..offset], view[offset..]);
    assert view[..next] == view[..offset] + view[offset..next];
    WellFormedConcat(view[..offset], view[offset..next]);
  }

  /** With pages of at least four bytes, a read before the end always moves forward. */
  lemma PageAdvances(view: Bytes, offset: nat, m: nat)
    requires WellFormed(view) && IsBoundary(view, offset) && offset < |view| && m >= 4
    ensures NextOffset(view, offset, m) == |view| || NextOffset(view, offset, m) >= offset + (m - 3)
    ensures NextOffset(view, offset, m) > offset
  {
    NextIsBoundary(view, offset, m);
    FitWastesThree(view[offset..], m);
  }

  /** The offsets that a caller visits who follows the next offset up to the end. */
  ghost function Offsets(view: Bytes, offset: nat, m: nat): (offsets: seq<nat>)
    requires WellFormed(view) && IsBoundary(view, offset) && m >= 4
    decreases |view| - offset
  {
    if offset == |view| then [offset]
    else
      PageAdvances(view, offset, m);
      NextIsBoundary(view, offset, m);
      [offset] + Offsets(view, NextOffset(view, offset, m), m)
  }

  /** One page of a whole reading: non-empty, at most m bytes, from boundary to boundary. */
  ghost predicate IsStep(view: Bytes, offset: nat, next: nat, m: nat) {
    && offset < next <= offset + m && next <= |view|
    && next == NextOffset(view, offset, m)
    && IsBoundary(view, offset) && IsBoundary(view, next)
    && WellFormed(view[offset..next])
  }

  ghost predicate IsPaging(view: Bytes, offsets: seq<nat>, m: nat) {
    && offsets != [] && offsets[|offsets| - 1] == |view|
    && forall i :: 0 < i < |offsets| ==> IsStep(view, offsets[i - 1], offsets[i], m)
  }

  /**
   Following the next offset never meets a boundary error, cuts the view into well-formed pages, and
   ends after at most ceil((n - offset) / (m - 3)) reads.
   */
  lemma {:induction false} PagingCovers(view: Bytes, offset: nat, m: nat)
    requires WellFormed(view) && IsBoundary(view, offset) && m >= 4
    ensures IsPaging(view, Offsets(view, offset, m), m) && Offsets(view, offset, m)[0] == offset
    ensures (|Offsets(view, offset, m)| - 1) * (m - 3) < |view| - offset + (m - 3)
    decreases |view| - offset
  {
    hide WellFormed, IsBoundary, IsStep;
    if offset < |view| {
      var next := NextOffset(view, offset, m);
      PageAdvances(view, offset, m);
      NextIsBoundary(view, offset, m);
      PagingCovers(view, next, m);
      var rest := Offsets(view, next, m);
      PrependPage(view, offset, rest, m);
      OneMorePage(|rest| - 1, m - 3, |view| - next, |view| - offset);
    }
  }

  lemma OneMorePage(pages: nat, w: nat, left: nat, total: nat)
    requires w > 0 && pages * w < left + w && (left == 0 || left + w <= total) && total > 0
    ensures (pages + 1) * w < total + w
  {
  }

  lemma PrependPage(view: Bytes, offset: nat, rest: seq<nat>, m: nat)
    requires WellFormed(view) && IsBoundary(view, offset) && offset < |view| && m >= 4
    requires IsPaging(view, rest, m) && rest[0] == NextOffset(view, offset, m)
    ensures IsPaging(view, [offset] + rest, m)
  {
    hide WellFormed;
    PageAdvances(view, offset, m);
    NextIsBoundary(view, offset, m);
    var offsets := [offset] + rest;
    forall i | 0 < i < |offsets| ensures IsStep(view, offsets[i - 1], offsets[i], m) {
      if i > 1 { assert IsStep(view, rest[i - 2], rest[i - 1], m); }
    }
  }

  /** Pages of m bytes move forward on every well-formed text exactly when m is at least four. */
  lemma AdvancesIffFour(m: nat)
    ensures (forall view: Bytes :: WellFormed(view) && view != [] ==> NextOffset(view, 0, m) > 0) <==> m >= 4
  {
    if m >= 4 {
      forall view: Bytes | WellFormed(view) && view != [] ensures NextOffset(view, 0, m) > 0 {
        assert view[..0] == [];
        PageAdvances(view, 0, m);
      }
    } else {
      var clef: Bytes := [0xF0, 0x9D, 0x84, 0x9E];
      assert clef[4..] == [] && clef[..4] == clef && clef[0..] == clef;
      assert WellFormed(clef);
      assert CharLength(clef[..m]) == 0;
      assert NextOffset(clef, 0, m) == 0;
    }
  }

  // ---------- which limits suffice for a text ----------

  /** At one offset of a text, a page moves forward exactly when it has room for the character there. */
  lemma AdvancesIff(view: Bytes, offset: nat, m: nat)
    requires WellFormed(view) && IsBoundary(view, offset) && offset < |view|
    ensures NextOffset(view, offset, m) > offset <==> CharLength(view[offset..]) <= m
  {
    NextIsBoundary(view, offset, m);
    var rest := view[offset..];
    if |rest| <= m {
      WellFormedIsLongest(rest);
    } else {
      CharLengthOfPrefix(rest, m);
    }
  }

  /** Every character of a text has at most m bytes. */
  predicate CharsFit(s: Bytes, m: nat) {
    CharLength(s) <= m && (CharLength(s) > 0 ==> CharsFit(s[CharLength(s)..], m))
  }

  lemma {:induction false} CharsFitConcat(s: Bytes, t: Bytes, m: nat)
    requires WellFormed(s)
    ensures CharsFit(s + t, m) <==> CharsFit(s, m) && CharsFit(t, m)
  {
    if s == [] {
      assert s + t == t;
    } else {
      var n := CharLength(s);
      assert (s + t)[..|s|] == s;
      CharLengthOfPrefix(s + t, |s|);
      assert (s + t)[n..] == s[n..] + t;
      CharsFitConcat(s[n..], t, m);
    }
  }

  lemma {:induction false} ShortTextFits(s: Bytes, m: nat)
    requires |s| <= m
    ensures CharsFit(s, m)
  {
    if CharLength(s) > 0 { ShortTextFits(s[CharLength(s)..], m); }
  }

  /** Following the next offset from here comes to the end of the view. */
  ghost predicate ReachesEnd(view: Bytes, offset: nat, m: nat)
    requires offset <= |view|
    decreases |view| - offset
  {
    offset == |view| || (NextOffset(view, offset, m) > offset && ReachesEnd(view, NextOffset(view, offset, m), m))
  }

  /** For one text: paging reaches the end exactly when every character has at most m bytes. */
  lemma {:induction false} ReachesEndIff(view: Bytes, offset: nat, m: nat)
    requires WellFormed(view) && IsBoundary(view, offset)
    ensures ReachesEnd(view, offset, m) <==> CharsFit(view[offset..], m)
    decreases |view| - offset
  {
    hide WellFormed, IsBoundary, NextOffset;
    if offset < |view| {
      var next := NextOffset(view, offset, m);
      NextIsBoundary(view, offset, m);
      AdvancesIff(view, offset, m);
      if next > offset {
        ReachesEndIff(view, next, m);
        ShortTextFits(view[offset..next], m);
        CharsFitConcat(view[offset..next], view[next..], m);
        assert view[offset..next] + view[next..] == view[offset..];
      }
    }
  }
}
