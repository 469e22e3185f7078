/** `format_frame`: the raw beacon bytes become an array of two-digit hex
    strings, split into header, size and payload. Opening and reading the file
    happen before this model starts. */
module Ingest {
  import opened Hex

  /** The only failure of the parser: Python's IndexError, raised by the first
      subscript that runs past the end of a too-short frame. */
  datatype DecodeError = IndexError

  datatype Result<T> = Ok(value: T) | Err(error: DecodeError)

  /** The bytes `bytes.strip()` removes: space, tab, LF, VT, FF and CR. */
  predicate IsAsciiSpace(b: byte) {
    b == 32 || 9 <= b <= 13
  }

  /** The first position at or after i that does not hold whitespace, or |s|. */
  function SkipLeading(s: seq<byte>, i: nat): (j: nat)
    requires i <= |s|
    ensures i <= j <= |s|
    ensures forall k :: i <= k < j ==> IsAsciiSpace(s[k])
    ensures j < |s| ==> !IsAsciiSpace(s[j])
    decreases |s| - i
  {
    if i < |s| && IsAsciiSpace(s[i]) then SkipLeading(s, i + 1) else i
  }

  /** The end of s[lo..j] once the whitespace at its end is dropped. */
  function SkipTrailing(s: seq<byte>, lo: nat, j: nat): (e: nat)
    requires lo <= j <= |s|
    ensures lo <= e <= j
    ensures forall k :: e <= k < j ==> IsAsciiSpace(s[k])
    ensures lo < e ==> !IsAsciiSpace(s[e - 1])
  {
    if lo < j && IsAsciiSpace(s[j - 1]) then SkipTrailing(s, lo, j - 1) else j
  }

  /** `bytes.strip()`: the contiguous part of s left after removing every
      whitespace byte at either end; all-whitespace input gives nothing. */
  function Strip(s: seq<byte>): (r: seq<byte>)
    ensures var i := SkipLeading(s, 0);
      && i + |r| <= |s| && r == s[i..i + |r|]
      && (forall k :: 0 <= k < i ==> IsAsciiSpace(s[k]))
      && (forall k :: i + |r| <= k < |s| ==> IsAsciiSpace(s[k]))
    ensures r != [] ==> !IsAsciiSpace(r[0]) && !IsAsciiSpace(r[|r| - 1])
  {
    var i := SkipLeading(s, 0);
    s[i..SkipTrailing(s, i, |s|)]
  }

  /** Stripping twice removes nothing more. */
  lemma StripIdempotent(s: seq<byte>)
    ensures Strip(Strip(s)) == Strip(s)
  {
    var r := Strip(s);
    if r != [] {
      assert SkipLeading(r, 0) == 0;
      assert SkipTrailing(r, 0, |r|) == |r|;
    }
  }

  /** The three parts `format_frame` returns: the first pair, the second pair
      and every pair but the first. */
  datatype FrameParts = FrameParts(header: string, size: string, payload: seq<string>)

  /** The frame array `format_frame` builds: one two-digit pair per byte. */
  function PairsOf(s: seq<byte>): (pairs: seq<string>)
    ensures |pairs| == |s|
    ensures forall k :: 0 <= k < |s| ==>
      IsHexPair(pairs[k]) && IsLowerHexString(pairs[k]) && ParseHex(pairs[k]) == s[k] as int
  {
    seq(|s|, k requires 0 <= k < |s| => HexPair(s[k]))
  }

  /** What `format_frame` returns for the raw file contents: one pair per
      stripped byte, then the slices; a frame of fewer than two bytes fails at
      the size subscript. */
  function FrameView(frame: seq<byte>): (r: Result<FrameParts>)
    ensures r.Ok? <==> |Strip(frame)| >= 2
    ensures r.Ok? ==>
      var s := Strip(frame);
      && IsHexPair(r.value.header) && IsLowerHexString(r.value.header)
      && ParseHex(r.value.header) == s[0] as int
      && |r.value.payload| == |s| - 1
      && r.value.size == r.value.payload[0]
      && forall k :: 0 <= k < |r.value.payload| ==>
           IsHexPair(r.value.payload[k]) && IsLowerHexString(r.value.payload[k])
           && ParseHex(r.value.payload[k]) == s[k + 1] as int
  {
    var s := Strip(frame);
    var pairs := PairsOf(s);
    if |pairs| < 2 then Err(IndexError)
    else Ok(FrameParts(pairs[0], pairs[1], pairs[1..]))
  }

  /** The loop of `format_frame`: walk the hex string two characters at a
      time, appending each pair to the frame array (an odd last character is
      never reached). */
  method SplitPairs(frameString: string) returns (frameArray: seq<string>)
    ensures |frameArray| == |frameString| / 2
    ensures forall k :: 0 <= k < |frameArray| ==> frameArray[k] == frameString[2 * k..2 * k + 2]
  {
    frameArray := [];
    var i := 0;
    while i < |frameString| / 2
      invariant 0 <= i <= |frameString| / 2
      invariant |frameArray| == i
      invariant forall k :: 0 <= k < i ==> frameArray[k] == frameString[2 * k..2 * k + 2]
    {
      frameArray := frameArray + [[frameString[2 * i], frameString[2 * i + 1]]];
      i := i + 1;
    }
  }

  /** `format_frame` as written: strip, hexlify, split into pairs, then take
      the header, the size and the payload slice. */
  method FormatFrame(frame: seq<byte>) returns (r: Result<FrameParts>)
    ensures r == FrameView(frame)
  {
    var frameStripped := Strip(frame);
    var frameString := Hexlify(frameStripped);
    var frameArray := SplitPairs(frameString);
    assert frameArray == PairsOf(frameStripped);
    if |frameArray| < 1 {
      r := Err(IndexError);
    } else {
      var headerBytes := frameArray[0];
      if |frameArray| < 2 {
        r := Err(IndexError);
      } else {
        var sizeBytes := frameArray[1];
        var payloadBytes := frameArray[1..];
        r := Ok(FrameParts(headerBytes, sizeBytes, payloadBytes));
      }
    }
  }
}
