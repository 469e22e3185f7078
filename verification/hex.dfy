/** Bytes and their base-16 text forms, as the beacon parser uses them:
    `binascii.hexlify` (two lower-case digits per byte), `int(s, 16)` and
    Python's `hex()`. */
module Hex {

  newtype byte = x: int | 0 <= x < 256

  predicate IsHexDigit(c: char) {
    '0' <= c <= '9' || 'a' <= c <= 'f' || 'A' <= c <= 'F'
  }

  predicate IsLowerHexDigit(c: char) {
    '0' <= c <= '9' || 'a' <= c <= 'f'
  }

  predicate IsHexString(s: string) {
    forall i :: 0 <= i < |s| ==> IsHexDigit(s[i])
  }

  predicate IsLowerHexString(s: string) {
    forall i :: 0 <= i < |s| ==> IsLowerHexDigit(s[i])
  }

  /** A two-character hex string, the shape of one entry of the frame array. */
  predicate IsHexPair(s: string) {
    |s| == 2 && IsHexString(s)
  }

  /** The value of one hex digit; both letter cases are accepted, as by `int(_, 16)`. */
  function DigitValue(c: char): (d: nat)
    requires IsHexDigit(c)
    ensures d < 16
  {
    if '0' <= c <= '9' then c as int - '0' as int
    else if 'a' <= c <= 'f' then c as int - 'a' as int + 10
    else c as int - 'A' as int + 10
  }

  /** The lower-case digit for d, the alphabet of `hexlify` and `hex()`. */
  function HexDigit(d: nat): (c: char)
    requires d < 16
    ensures IsLowerHexDigit(c) && IsHexDigit(c) && DigitValue(c) == d
  {
    if d < 10 then ('0' as int + d) as char else ('a' as int + d - 10) as char
  }

  function Pow16(k: nat): (p: nat)
    ensures p > 0
  {
    if k == 0 then 1 else 16 * Pow16(k - 1)
  }

  /** `int(s, 16)` on a non-empty string of hex digits: the most significant
      digit comes first. */
  function ParseHex(s: string): (n: nat)
    requires |s| > 0 && IsHexString(s)
    ensures n < Pow16(|s|)
  {
    if |s| == 1 then DigitValue(s[0])
    else
      var init := ParseHex(s[..|s| - 1]);
      assert init * 16 <= (Pow16(|s| - 1) - 1) * 16;
      init * 16 + DigitValue(s[|s| - 1])
  }

  /** Reading the concatenation a + b in base 16 shifts a's value by |b| digits. */
  lemma {:induction false} ParseHexConcat(a: string, b: string)
    requires |a| > 0 && IsHexString(a)
    requires |b| > 0 && IsHexString(b)
    ensures IsHexString(a + b)
    ensures ParseHex(a + b) == ParseHex(a) * Pow16(|b|) + ParseHex(b)
  {
    var ab := a + b;
    if |b| == 1 {
      assert ab[..|ab| - 1] == a;
    } else {
      var b' := b[..|b| - 1];
      assert ab[..|ab| - 1] == a + b';
      ParseHexConcat(a, b');
      var d := DigitValue(b[|b| - 1]);
      var x, p, y := ParseHex(a), Pow16(|b'|), ParseHex(b');
      assert ab[|ab| - 1] == b[|b| - 1];
      assert ParseHex(ab) == ParseHex(a + b') * 16 + d;
      assert ParseHex(b) == y * 16 + d;
      assert Pow16(|b|) == p * 16;
      ShiftByDigit(x, p);
    }
  }

  lemma ShiftByDigit(x: int, p: int)
    ensures (x * p) * 16 == x * (p * 16)
  {
  }

  /** The value of a two-digit hex string, high digit first. */
  function PairValue(s: string): (n: nat)
    requires IsHexPair(s)
    ensures n < 256
  {
    DigitValue(s[0]) * 16 + DigitValue(s[1])
  }

  /** Reading a pair digit by digit agrees with `int(s, 16)`. */
  lemma PairValueIsParseHex(s: string)
    requires IsHexPair(s)
    ensures PairValue(s) == ParseHex(s)
  {
    assert s[..1] == [s[0]];
  }

  /** The two-digit form `hexlify` gives one byte. Reading it back gives the byte. */
  function HexPair(b: byte): (s: string)
    ensures IsHexPair(s) && IsLowerHexString(s)
    ensures ParseHex(s) == b as int && PairValue(s) == b as int
  {
    [HexDigit(b as int / 16), HexDigit(b as int % 16)]
  }

  lemma HexPairInjective(b: byte, c: byte)
    ensures HexPair(b) == HexPair(c) <==> b == c
  {
    if HexPair(b) == HexPair(c) {
      assert b as int == ParseHex(HexPair(b)) == ParseHex(HexPair(c)) == c as int;
    }
  }

  /** A lower-case digit is the one `HexDigit` writes for its value. */
  lemma LowerDigitCanonical(c: char)
    requires IsLowerHexDigit(c)
    ensures HexDigit(DigitValue(c)) == c
  {
  }

  /** A lower-case pair is the `hexlify` form of the byte it reads as. */
  lemma LowerPairCanonical(s: string)
    requires IsHexPair(s) && IsLowerHexString(s)
    ensures ParseHex(s) < 256 && s == HexPair(ParseHex(s) as byte)
  {
    var hi, lo := DigitValue(s[0]), DigitValue(s[1]);
    PairValueIsParseHex(s);
    LowerDigitCanonical(s[0]);
    LowerDigitCanonical(s[1]);
    var b := hi * 16 + lo;
    assert b / 16 == hi && b % 16 == lo;
    assert HexPair(b as byte) == [HexDigit(hi), HexDigit(lo)];
  }

  /** Four hex digits written high byte first read as the little-endian word
      hi * 256 + lo, which always fits in 16 bits. */
  lemma WordFromPairs(hi: string, lo: string)
    requires IsHexPair(hi) && IsHexPair(lo)
    ensures IsHexString(hi + lo)
    ensures ParseHex(hi + lo) == ParseHex(hi) * 256 + ParseHex(lo)
    ensures ParseHex(hi + lo) < 65536
  {
    ParseHexConcat(hi, lo);
    assert Pow16(2) == 256;
  }

  /** `binascii.hexlify`: lower-case base 16, two digits per byte, in order. */
  function Hexlify(s: seq<byte>): (h: string)
    ensures |h| == 2 * |s|
    ensures forall k :: 0 <= k < |s| ==> h[2 * k..2 * k + 2] == HexPair(s[k])
  {
    if s == [] then []
    else
      var init := Hexlify(s[..|s| - 1]);
      var h := init + HexPair(s[|s| - 1]);
      assert forall k :: 0 <= k < |s| - 1 ==> h[2 * k..2 * k + 2] == init[2 * k..2 * k + 2];
      h
  }

  /** The digits of Python's `hex(n)` after its "0x". */
  function HexDigits(n: nat): (s: string)
    ensures |s| > 0 && IsHexString(s) && IsLowerHexString(s)
  {
    if n < 16 then [HexDigit(n)] else HexDigits(n / 16) + [HexDigit(n % 16)]
  }

  /** The digits are lower case, read back as n and carry no leading zero. */
  lemma {:induction false} HexDigitsSpec(n: nat)
    ensures var s := HexDigits(n);
      && |s| > 0 && IsHexString(s) && IsLowerHexString(s)
      && ParseHex(s) == n
      && (s[0] == '0' ==> n == 0)
  {
    if n >= 16 {
      HexDigitsSpec(n / 16);
      var init := HexDigits(n / 16);
      assert HexDigits(n)[..|HexDigits(n)| - 1] == init;
    }
  }

  /** Python's `hex(n)` for a non-negative n. */
  function PyHex(n: nat): (s: string)
    ensures |s| > 2 && s[..2] == "0x"
  {
    "0x" + HexDigits(n)
  }

  /** `hex(n)` is "0x" followed by lower-case digits that read back as n,
      with no leading zero unless n is zero. */
  lemma PyHexSpec(n: nat)
    ensures |PyHex(n)| > 2 && PyHex(n)[..2] == "0x"
    ensures IsHexString(PyHex(n)[2..]) && IsLowerHexString(PyHex(n)[2..])
    ensures ParseHex(PyHex(n)[2..]) == n
    ensures PyHex(n)[2] == '0' ==> n == 0
  {
    HexDigitsSpec(n);
    assert PyHex(n)[2..] == HexDigits(n);
  }

  /** n written with exactly `width` lower-case digits, zero-padded. */
  function HexFixed(n: nat, width: nat): (s: string)
    ensures |s| == width && IsHexString(s) && IsLowerHexString(s)
  {
    if width == 0 then [] else HexFixed(n / 16, width - 1) + [HexDigit(n % 16)]
  }

  /** Appending one byte's two digits to a zero-padded form is the same as
      writing the number with that byte as its new low byte. */
  lemma HexFixedAppendByte(x: nat, b: byte, width: nat)
    ensures HexFixed(x * 256 + b as int, width + 2) == HexFixed(x, width) + HexPair(b)
  {
    var n := x * 256 + b as int;
    assert n % 16 == b as int % 16 && n / 16 == x * 16 + b as int / 16;
    var m := x * 16 + b as int / 16;
    assert m % 16 == b as int / 16 && m / 16 == x;
  }

  /** Two numbers below 16^width have different zero-padded forms. */
  lemma HexFixedInjective(a: nat, b: nat, width: nat)
    requires 0 < width && a < Pow16(width) && b < Pow16(width)
    ensures HexFixed(a, width) == HexFixed(b, width) <==> a == b
  {
    HexFixedRoundTrip(a, width);
    HexFixedRoundTrip(b, width);
  }

  /** A zero-padded form reads back as the number it was made from. */
  lemma {:induction false} HexFixedRoundTrip(n: nat, width: nat)
    requires 0 < width && n < Pow16(width)
    ensures ParseHex(HexFixed(n, width)) == n
  {
    var s := HexFixed(n, width);
    assert s[..|s| - 1] == HexFixed(n / 16, width - 1);
    if width > 1 {
      HexFixedRoundTrip(n / 16, width - 1);
    }
  }

  function UpperChar(c: char): char {
    if 'a' <= c <= 'z' then (c as int - 32) as char else c
  }

  /** `str.upper()` restricted to ASCII, the only characters a hex string holds. */
  function Upper(s: string): (r: string)
    ensures |r| == |s|
    ensures forall i :: 0 <= i < |r| ==> !('a' <= r[i] <= 'z')
    ensures IsHexString(s) ==>
      IsHexString(r) && forall i :: 0 <= i < |r| ==> DigitValue(r[i]) == DigitValue(s[i])
  {
    seq(|s|, i requires 0 <= i < |s| => UpperChar(s[i]))
  }
}
