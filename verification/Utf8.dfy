/** UTF-8 (RFC 3629): decoding is the inverse of encoding, and of nothing else. */
module Utf8 {
  import opened Wire
  import opened Text

  predicate IsScalar(c: nat) { c < 0xD800 || 0xE000 <= c < 0x110000 }

  predicate AllScalar(codes: seq<nat>) { forall i | 0 <= i < |codes| :: IsScalar(codes[i]) }

  /** Six bits of a code point, as a continuation byte. */
  function Tail(bits: nat): (b: byte)
    requires bits < 0x40
  {
    (0x80 + bits) as byte
  }

  /** The bytes of one code point. */
  function EncodeChar(c: nat): (s: Bytes)
    requires IsScalar(c)
    ensures s != []
  {
    if c < 0x80 then [c as byte]
    else if c < 0x800 then [(0xC0 + c / 0x40) as byte, Tail(c % 0x40)]
    else if c < 0x10000 then [(0xE0 + c / 0x1000) as byte, Tail(c / 0x40 % 0x40), Tail(c % 0x40)]
    else [(0xF0 + c / 0x40000) as byte, Tail(c / 0x1000 % 0x40), Tail(c / 0x40 % 0x40), Tail(c % 0x40)]
  }

  function EncodeChars(codes: seq<nat>): (s: Bytes)
    requires AllScalar(codes)
  {
    if codes == [] then [] else EncodeChar(codes[0]) + EncodeChars(codes[1..])
  }

  /** A number by its digits to the base 64, the highest one unbounded. */
  lemma Base64Digits(c: nat, hi: nat, mid: nat, low: nat)
    requires mid < 0x40 && low < 0x40
    ensures c == hi * 0x1000 + mid * 0x40 + low <==> hi == c / 0x1000 && mid == c / 0x40 % 0x40 && low == c % 0x40
  {
    assert c / 0x40 / 0x40 == c / 0x1000;
  }

  lemma TwoBytes(s: Bytes, c: nat)
    requires |s| >= 2 && IsContinuation(s[1])
    ensures 0xC2 <= s[0] < 0xE0 && c == (s[0] as nat - 0xC0) * 0x40 + (s[1] as nat - 0x80) <==>
            0x80 <= c < 0x800 && s[0] as nat == 0xC0 + c / 0x40 && s[1] == Tail(c % 0x40)
  {
  }

  lemma ThreeBytes(s: Bytes, c: nat)
    requires |s| >= 3 && IsContinuation(s[1]) && IsContinuation(s[2])
    ensures 0xE0 <= s[0] < 0xF0 && c == (s[0] as nat - 0xE0) * 0x1000 + (s[1] as nat - 0x80) * 0x40 + (s[2] as nat - 0x80) <==>
            c < 0x10000 && s[0] as nat == 0xE0 + c / 0x1000 && s[1] == Tail(c / 0x40 % 0x40) && s[2] == Tail(c % 0x40)
  {
    if s[0] >= 0xE0 { Base64Digits(c, s[0] as nat - 0xE0, s[1] as nat - 0x80, s[2] as nat - 0x80); }
  }

  lemma FourBytes(s: Bytes, c: nat)
    requires |s| >= 4 && IsContinuation(s[1]) && IsContinuation(s[2]) && IsContinuation(s[3])
    ensures 0xF0 <= s[0] < 0xF5
            && c == (s[0] as nat - 0xF0) * 0x40000 + (s[1] as nat - 0x80) * 0x1000 + (s[2] as nat - 0x80) * 0x40 + (s[3] as nat - 0x80)
            <==> c < 0x140000 && s[0] as nat == 0xF0 + c / 0x40000 && s[1] == Tail(c / 0x1000 % 0x40)
                 && s[2] == Tail(c / 0x40 % 0x40) && s[3] == Tail(c % 0x40)
  {
    var hi, mid := s[0] as int - 0xF0, s[1] as nat - 0x80;
    assert c / 0x1000 / 0x40 == c / 0x40000;
    if hi >= 0 { Base64Digits(c, hi * 0x40 + mid, s[2] as nat - 0x80, s[3] as nat - 0x80); }
  }

  lemma ShortReadsBack(c: nat, rest: Bytes)
    requires c < 0x800
    ensures FirstChar(EncodeChar(c) + rest) == Some((c, |EncodeChar(c)|))
  {
    var s := EncodeChar(c) + rest;
    if 0x80 <= c { TwoBytes(s, c); }
  }

  lemma ThreeReadBack(c: nat, rest: Bytes)
    requires IsScalar(c) && 0x800 <= c < 0x10000
    ensures FirstChar(EncodeChar(c) + rest) == Some((c, 3)) && |EncodeChar(c)| == 3
  {
    var s := EncodeChar(c) + rest;
    assert s[0] as nat == 0xE0 + c / 0x1000 && s[1] == Tail(c / 0x40 % 0x40) && s[2] == Tail(c % 0x40);
    ThreeBytes(s, c);
  }

  lemma FourReadBack(c: nat, rest: Bytes)
    requires IsScalar(c) && 0x10000 <= c
    ensures FirstChar(EncodeChar(c) + rest) == Some((c, 4)) && |EncodeChar(c)| == 4
  {
    var s := EncodeChar(c) + rest;
    assert s[0] as nat == 0xF0 + c / 0x40000 && s[1] == Tail(c / 0x1000 % 0x40) && s[2] == Tail(c / 0x40 % 0x40) && s[3] == Tail(c % 0x40);
    FourBytes(s, c);
  }

  /** The first character is read as its code point and length ... */
  lemma CharReadsBack(c: nat, rest: Bytes)
    requires IsScalar(c)
    ensures FirstChar(EncodeChar(c) + rest) == Some((c, |EncodeChar(c)|))
  {
    hide FirstChar, EncodeChar;
    if c < 0x800 { ShortReadsBack(c, rest); }
    else if c < 0x10000 { ThreeReadBack(c, rest); }
    else { FourReadBack(c, rest); }
  }

  /** ... and whatever is read was encoded so. */
  lemma CharMeans(s: Bytes, c: nat, n: nat)
    requires FirstChar(s) == Some((c, n))
    ensures IsScalar(c) && s[..n] == EncodeChar(c)
  {
    if 0x80 <= s[0] < 0xE0 {
      TwoBytes(s, c);
    } else if 0xE0 <= s[0] < 0xF0 {
      ThreeBytes(s, c);
    } else if 0xF0 <= s[0] {
      FourBytes(s, c);
    }
  }

  lemma {:induction false} CharsReadBack(codes: seq<nat>)
    requires AllScalar(codes)
    ensures Chars(EncodeChars(codes)) == Some(codes)
  {
    hide FirstChar, EncodeChar;
    if codes != [] {
      var rest := EncodeChars(codes[1..]);
      CharsReadBack(codes[1..]);
      CharReadsBack(codes[0], rest);
      assert (EncodeChar(codes[0]) + rest)[|EncodeChar(codes[0])|..] == rest;
      assert [codes[0]] + codes[1..] == codes;
    }
  }

  lemma {:induction false} CharsMean(s: Bytes)
    requires IsUtf8(s)
    ensures AllScalar(Chars(s).value) && s == EncodeChars(Chars(s).value)
    decreases |s|
  {
    hide FirstChar, EncodeChar;
    if s != [] {
      var (c, n) := FirstChar(s).value;
      CharMeans(s, c, n);
      CharsMean(s[n..]);
      assert s == s[..n] + s[n..];
      assert Chars(s).value[1..] == Chars(s[n..]).value;
    }
  }

  /** Bytes decode to code points if and only if they are the encoding of these. */
  lemma CharsExactly(s: Bytes, codes: seq<nat>)
    ensures Chars(s) == Some(codes) <==> AllScalar(codes) && s == EncodeChars(codes)
  {
    hide Chars, EncodeChars;
    if Chars(s) == Some(codes) { CharsMean(s); }
    if AllScalar(codes) && s == EncodeChars(codes) { CharsReadBack(codes); }
  }

  lemma CharIsAscii(c: nat)
    requires IsScalar(c)
    ensures if c < 0x80 then EncodeChar(c) == [c as byte] else forall b <- EncodeChar(c) :: b >= 0x80
  {
  }

  /** Which ASCII characters a text has can be told from its bytes. */
  lemma {:induction false} AsciiChars(s: Bytes, b: byte)
    requires IsUtf8(s) && b < 0x80
    ensures b as nat in Chars(s).value <==> b in s
    decreases |s|
  {
    hide FirstChar, EncodeChar;
    if s != [] {
      var (c, n) := FirstChar(s).value;
      CharMeans(s, c, n);
      CharIsAscii(c);
      AsciiChars(s[n..], b);
      assert s == EncodeChar(c) + s[n..];
    }
  }
}
