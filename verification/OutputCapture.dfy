/**
 Bounded collection of raw output, decoding of a collected prefix whose last character may be cut,
 and truncation to a byte limit.
 */
module OutputCapture {
  import opened Wrappers
  import opened Utf8

  datatype DecodeError = InvalidUtf8

  function Flatten(chunks: seq<Bytes>): Bytes {
    if chunks == [] then [] else chunks[0] + Flatten(chunks[1..])
  }

  lemma {:induction false} FlattenLast(chunks: seq<Bytes>, i: nat)
    requires i < |chunks|
    ensures Flatten(chunks[..i + 1]) == Flatten(chunks[..i]) + chunks[i]
  {
    if i == 0 {
      assert chunks[..1][1..] == [];
    } else {
      FlattenLast(chunks[1..], i - 1);
      assert chunks[..i + 1][1..] == chunks[1..][..i];
      assert chunks[..i][1..] == chunks[1..][..i - 1];
    }
  }

  lemma {:induction false} FlattenSplit(chunks: seq<Bytes>, i: nat)
    requires i <= |chunks|
    ensures Flatten(chunks) == Flatten(chunks[..i]) + Flatten(chunks[i..])
  {
    if i == 0 {
      assert chunks[..0] == [] && chunks[0..] == chunks;
    } else {
      FlattenSplit(chunks[1..], i - 1);
      assert chunks[..i][1..] == chunks[1..][..i - 1];
      assert chunks[1..][i - 1..] == chunks[i..];
    }
  }

  /**
   Collects at most `maximumBytes` of a stream. The result depends on the bytes of the stream, not on
   how they come in chunks; the flag says whether anything was left behind.
   */
  method CollectBounded(source: seq<Bytes>, maximumBytes: nat) returns (bytes: Bytes, truncated: bool)
    ensures bytes == if |Flatten(source)| <= maximumBytes then Flatten(source) else Flatten(source)[..maximumBytes]
    ensures truncated <==> |Flatten(source)| > maximumBytes
  {
    bytes, truncated := [], false;
    for i := 0 to |source|
      invariant bytes == Flatten(source[..i]) && |bytes| <= maximumBytes
      invariant !truncated
    {
      FlattenLast(source, i);
      FlattenSplit(source, i + 1);
      var chunk := source[i];
      if |chunk| > 0 {
        var remaining := maximumBytes - |bytes|;
        if remaining <= 0 {
          truncated := true;
          break;
        }
        var selectedLength := if remaining <= |chunk| then remaining else |chunk|;
        bytes := bytes + chunk[..selectedLength];
        if selectedLength < |chunk| {
          truncated := true;
          break;
        }
        assert chunk[..selectedLength] == chunk;
      }
    }
    assert source[..|source|] == source;
  }

  /** The last `k` bytes are a partial character. */
  predicate EndsPartial(s: Bytes, k: nat) {
    0 < k <= |s| && IsPartial(s[|s| - k..])
  }

  /** The length of an incomplete character at the end of `bytes`, or 0 if there is none. */
  method TrailingIncompleteUtf8Bytes(bytes: Bytes) returns (trailing: nat)
    ensures trailing > 0 ==> EndsPartial(bytes, trailing)
    ensures forall k :: EndsPartial(bytes, k) ==> trailing == k
  {
    if |bytes| == 0 { return 0; }
    var leadIndex := |bytes| - 1;
    while leadIndex >= 0 && IsTail(bytes[leadIndex]) && |bytes| - leadIndex <= 3
      invariant -1 <= leadIndex < |bytes| && |bytes| - leadIndex <= 4
      invariant forall j :: leadIndex < j < |bytes| ==> IsTail(bytes[j])
    {
      leadIndex := leadIndex - 1;
    }
    forall k | EndsPartial(bytes, k) ensures k == |bytes| - leadIndex {
      PartialStartsAtLead(bytes, leadIndex, k);
    }
    if leadIndex < 0 { return 0; }
    var lead := bytes[leadIndex];
    var present := |bytes| - leadIndex;
    var expected :=
      if 0xC2 <= lead <= 0xDF then 2
      else if 0xE0 <= lead <= 0xEF then 3
      else if 0xF0 <= lead <= 0xF4 then 4
      else 0;
    if expected == 0 || present >= expected { return 0; }
    var rest := bytes[leadIndex..];
    for index := leadIndex + 1 to |bytes|
      invariant forall j :: leadIndex < j < index ==> IsTail(bytes[j])
      invariant index > leadIndex + 1 ==> IsSecond(lead, bytes[leadIndex + 1])
    {
      var value := bytes[index];
      assert value == rest[index - leadIndex];
      // The source tests for a tail byte again here; the search above has seen only tail bytes.
      if index == leadIndex + 1 {
        if lead == 0xE0 && value < 0xA0 { return 0; }
        if lead == 0xED && value > 0x9F { return 0; }
        if lead == 0xF0 && value < 0x90 { return 0; }
        if lead == 0xF4 && value > 0x8F { return 0; }
      }
    }
    return present;
  }

  /** A partial character at the end starts at the last byte that is no tail byte. */
  lemma PartialStartsAtLead(bytes: Bytes, leadIndex: int, k: nat)
    requires -1 <= leadIndex < |bytes| && 0 < k <= |bytes| && |bytes| - leadIndex <= 4
    requires forall j :: leadIndex < j < |bytes| ==> IsTail(bytes[j])
    requires leadIndex >= 0 ==> !IsTail(bytes[leadIndex]) || |bytes| - leadIndex > 3
    requires IsPartial(bytes[|bytes| - k..])
    ensures k == |bytes| - leadIndex
  {
  }

  /**
   Decodes what was collected. When the source was cut, an incomplete last character is dropped:
   exactly the prefixes of well-formed strings are accepted, and all that is decodable is decoded.
   The text is given as its UTF-8 bytes.
   */
  method DecodeCollectedUtf8(bytes: Bytes, sourceTruncated: bool) returns (r: Result<Bytes, DecodeError>)
    ensures sourceTruncated ==> (r.Ok? <==> IsPrefixOfWellFormed(bytes))
    ensures !sourceTruncated ==> (r.Ok? <==> WellFormed(bytes))
    ensures r.Ok? ==> r.value == bytes[..Longest(bytes)]
    ensures r.Ok? && !sourceTruncated ==> r.value == bytes
  {
    var trailing := 0;
    if sourceTruncated {
      trailing := TrailingIncompleteUtf8Bytes(bytes);
    }
    var candidate := if trailing == 0 then bytes else bytes[..|bytes| - trailing];
    if trailing > 0 {
      TrailingIsTheRest(bytes, trailing);
    } else if sourceTruncated {
      WellFormedOrPartial(bytes);
    }
    WellFormedIsLongest(bytes);
    assert bytes[..|bytes|] == bytes;
    r := if WellFormed(candidate) then Ok(candidate) else Err(InvalidUtf8);
  }

  /** Cutting off the trailing partial character is right exactly when the string can be continued. */
  lemma TrailingIsTheRest(bytes: Bytes, trailing: nat)
    requires EndsPartial(bytes, trailing)
    ensures WellFormed(bytes[..|bytes| - trailing]) <==> IsPrefixOfWellFormed(bytes)
    ensures WellFormed(bytes[..|bytes| - trailing]) ==> |bytes| - trailing == Longest(bytes)
    ensures !WellFormed(bytes)
  {
    hide WellFormed, IsPartial;
    var p, q := bytes[..|bytes| - trailing], bytes[|bytes| - trailing..];
    assert bytes == p + q;
    if WellFormed(bytes) { WellFormedHasNoPartial(bytes, trailing); }
    if WellFormed(p) { CanBeContinued(p, q); PartialHasNoPrefix(p, q); }
    if IsPrefixOfWellFormed(bytes) { RestIsTrailing(bytes, trailing); }
  }

  /** A string that can be continued is well-formed or ends with a partial character. */
  lemma WellFormedOrPartial(bytes: Bytes)
    ensures IsPrefixOfWellFormed(bytes) ==> WellFormed(bytes) || EndsPartial(bytes, |bytes| - Longest(bytes))
    ensures WellFormed(bytes) ==> IsPrefixOfWellFormed(bytes)
  {
    hide WellFormed, IsPartial, Longest, IsPrefixOfWellFormed;
    PrefixOfWellFormed(bytes);
    WellFormedIsLongest(bytes);
    assert bytes[|bytes| - (|bytes| - Longest(bytes))..] == bytes[Longest(bytes)..];
  }

  lemma PartialHasNoPrefix(p: Bytes, q: Bytes)
    requires WellFormed(p) && IsPartial(q)
    ensures Longest(p + q) == |p|
  {
    WellFormedConcat(p, q);
  }

  lemma RestIsTrailing(bytes: Bytes, trailing: nat)
    requires EndsPartial(bytes, trailing) && IsPrefixOfWellFormed(bytes)
    ensures Longest(bytes) == |bytes| - trailing && WellFormed(bytes[..|bytes| - trailing])
  {
    hide WellFormed, IsPartial;
    var n := Longest(bytes);
    PrefixOfWellFormed(bytes);
    LongestIsWellFormed(bytes);
    if n == |bytes| {
      assert bytes[..n] == bytes;
      WellFormedHasNoPartial(bytes, trailing);
      assert false;
    }
    assert bytes[|bytes| - (|bytes| - n)..] == bytes[n..];
    PartialIsUnique(bytes, |bytes| - n, trailing);
  }

  /** The longest decodable prefix within the limit, found by stepping back from the limit. */
  method TruncateUtf8(encoded: Bytes, maximumBytes: nat) returns (text: Bytes, truncated: bool)
    requires WellFormed(encoded)
    ensures text == encoded[..Fit(encoded, maximumBytes)]
    ensures truncated <==> |encoded| > maximumBytes
  {
    FitIsLongest(encoded, maximumBytes);
    assert encoded[..|encoded|] == encoded;
    if |encoded| <= maximumBytes { return encoded, false; }
    var end := maximumBytes;
    while end > 0
      invariant Fit(encoded, maximumBytes) <= end <= maximumBytes
    {
      if WellFormed(encoded[..end]) { return encoded[..end], true; }
      end := end - 1;
    }
    return [], true;
  }
}
