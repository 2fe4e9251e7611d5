/** What the argument checks accept, told without the checks' own scanning. */
module Arguments {
  import opened Wire
  import opened Text
  import opened Requests
  import P = Protocol
  import Utf8

  // ----- numbers and ranges -----

  const DASH: byte := 45

  predicate IsNumber(s: Bytes) { ArticleNumberToken(s).Some? }

  lemma NumberThenDash(low: Bytes, high: Bytes)
    requires AllDigits(low)
    ensures IndexOf(low + [DASH] + high, DASH) == |low|
  {
    hide IndexOf;
    var s := low + [DASH] + high;
    assert s[|low|] == DASH;
    assert forall i | 0 <= i < |low| :: s[i] == low[i];
  }

  lemma NumberHasNoDash(s: Bytes)
    requires AllDigits(s)
    ensures IndexOf(s, DASH) == |s|
  {
    hide IndexOf;
  }

  /** A number, and behind a dash another number or nothing. */
  predicate IsOpenRange(s: Bytes, low: Bytes, high: Bytes) {
    s == low + [DASH] + high && IsNumber(low) && (high == [] || IsNumber(high))
  }

  /** A range is one number, or a number and a dash with or without another number. */
  lemma RangeExactly(s: Bytes)
    ensures ValidRange(s) <==> IsNumber(s) || exists low, high :: IsOpenRange(s, low, high)
  {
    hide IndexOf, DecimalValue;
    var dash := IndexOf(s, DASH);
    if dash < |s| && ValidRange(s) {
      assert s == s[..dash] + [DASH] + s[dash + 1..];
      assert IsOpenRange(s, s[..dash], s[dash + 1..]);
    }
    if IsNumber(s) { NumberHasNoDash(s); }
    if low, high :| IsOpenRange(s, low, high) {
      NumberThenDash(low, high);
      assert s[..|low|] == low && s[|low| + 1..] == high;
    }
  }

  // ----- dates -----

  lemma TwoDigitsMeans(s: Bytes, i: nat)
    requires i + 2 <= |s| && AllDigits(s)
    ensures P.TwoDigits(s, i) == DecimalValue(s[i..i + 2])
  {
    var d := s[i..i + 2];
    assert d[..1] == [s[i]] && d[..1][..0] == [];
    assert DecimalValue(d[..1]) == s[i] as nat - 48;
  }

  /** The timestamp that DATE answers with is a date of eight digits and a time, as NEWGROUPS
      and NEWNEWS take them. */
  lemma TimestampIsDateAndTime(s: Bytes)
    ensures P.ValidTimestamp(s) <==> |s| == 14 && ValidDate(s[..8]) && ValidTime(s[8..])
  {
    hide DecimalValue;
    if |s| == 14 {
      assert s[..8][..4] == s[..4];
      assert forall i | 0 <= i < 8 :: s[..8][i] == s[i];
      assert forall i | 8 <= i < 14 :: s[8..][i - 8] == s[i];
    }
  }

  // ----- patterns -----

  const COMMA: byte := 44

  predicate CommaFree(parts: seq<Bytes>) { forall i | 0 <= i < |parts| :: COMMA !in parts[i] }

  function JoinCommas(parts: seq<Bytes>): (s: Bytes)
    requires parts != []
  {
    if |parts| == 1 then parts[0] else parts[0] + [COMMA] + JoinCommas(parts[1..])
  }

  lemma CommaAt(part: Bytes, rest: Bytes)
    requires COMMA !in part
    ensures IndexOf(part, COMMA) == |part| && IndexOf(part + [COMMA] + rest, COMMA) == |part|
  {
    hide IndexOf;
    var s := part + [COMMA] + rest;
    assert s[|part|] == COMMA;
    assert forall i | 0 <= i < |part| :: s[i] == part[i];
  }

  lemma {:induction false} PartsReadBack(parts: seq<Bytes>)
    requires parts != [] && CommaFree(parts)
    ensures SplitCommas(JoinCommas(parts)) == parts
  {
    hide IndexOf;
    var part := parts[0];
    if |parts| == 1 {
      CommaAt(part, []);
    } else {
      var rest := JoinCommas(parts[1..]);
      CommaAt(part, rest);
      PartsReadBack(parts[1..]);
      assert (part + [COMMA] + rest)[..|part|] == part && (part + [COMMA] + rest)[|part| + 1..] == rest;
    }
  }

  lemma {:induction false} PartsMean(s: Bytes)
    ensures SplitCommas(s) != [] && CommaFree(SplitCommas(s)) && JoinCommas(SplitCommas(s)) == s
    decreases |s|
  {
    hide IndexOf;
    var comma := IndexOf(s, COMMA);
    if comma < |s| {
      PartsMean(s[comma + 1..]);
      assert SplitCommas(s)[1..] == SplitCommas(s[comma + 1..]);
      assert s == s[..comma] + [COMMA] + s[comma + 1..];
    }
  }

  /** The parts of a pattern list are the comma-free texts that, joined by commas, make it up. */
  lemma PartsExactly(s: Bytes, parts: seq<Bytes>)
    ensures SplitCommas(s) == parts <==> parts != [] && CommaFree(parts) && JoinCommas(parts) == s
  {
    hide SplitCommas, JoinCommas;
    PartsMean(s);
    if parts != [] && CommaFree(parts) && JoinCommas(parts) == s { PartsReadBack(parts); }
  }

  predicate IsPlain(s: Bytes) { forall i | 0 <= i < |s| :: s[i] != 42 && s[i] != COMMA && s[i] != 63 }

  predicate Printable(s: Bytes) { forall i | 0 <= i < |s| && s[i] < 0x80 :: 0x21 <= s[i] <= 0x7E }

  lemma AsciiRange(s: Bytes)
    requires IsUtf8(s)
    ensures (forall c | c in Chars(s).value && c < 0x80 :: 0x21 <= c <= 0x7E) <==> Printable(s)
  {
    hide Chars;
    if Printable(s) {
      forall c | c in Chars(s).value && c < 0x80 ensures 0x21 <= c <= 0x7E { Utf8.AsciiChars(s, c as byte); }
    } else {
      var i :| 0 <= i < |s| && s[i] < 0x80 && !(0x21 <= s[i] <= 0x7E);
      Utf8.AsciiChars(s, s[i]);
    }
  }

  lemma JoinOne(s: Bytes)
    ensures JoinCommas([s]) == s
  {
  }

  lemma OnePattern(s: Bytes)
    requires COMMA !in s
    ensures ValidWildmat(s) <==> IsUtf8(s) && s != [] && !HasBom(s) && Printable(s) && ValidPattern(s)
  {
    hide Chars, SplitCommas, HasBom, ValidPattern, JoinCommas;
    if IsUtf8(s) {
      AsciiRange(s);
      JoinOne(s);
      PartsExactly(s, [s]);
      assert SplitCommas(s)[0] == s;
    }
  }

  predicate GroupByteByCases(b: byte) {
    (b < 0x80 ==> 0x21 <= b <= 0x7E) && b != 33 && b != 44 && b != 91 && b != 92 && b != 93 && b != 42 && b != COMMA && b != 63
  }

  lemma GroupBytes(s: Bytes)
    requires s != []
    ensures (forall i | 0 <= i < |s| :: ValidGroupByte(s[i])) <==> Printable(s) && ValidPattern(s) && IsPlain(s)
  {
    forall i | 0 <= i < |s| ensures ValidGroupByte(s[i]) <==> GroupByteByCases(s[i]) {}
  }

  lemma WildmatIsSomething(s: Bytes)
    ensures ValidWildmat(s) ==> s != []
  {
    hide Chars, HasBom;
  }

  /** A group name is a pattern list of one pattern without wildcards. */
  lemma GroupNameIsPlainWildmat(s: Bytes)
    ensures ValidGroupName(s) <==> ValidWildmat(s) && IsPlain(s)
  {
    hide Chars, HasBom, ValidWildmat, ValidPattern, Printable;
    if s != [] {
      GroupBytes(s);
      if IsPlain(s) { OnePattern(s); }
    }
    assert ValidWildmat(s) ==> s != [] by { WildmatIsSomething(s); }
  }
}
