/** Character classes and tokens of the protocol grammar (section 9 of RFC 3977). */
module Text {
  import opened Wire

  function ByteOf(c: char): (r: byte) {
    if c as int < 256 then c as int as byte else 63
  }

  /** A string literal as bytes. */
  function Ascii(s: string): (r: Bytes)
    ensures |r| == |s| && forall i | 0 <= i < |s| :: r[i] == ByteOf(s[i])
  {
    seq(|s|, i requires 0 <= i < |s| => ByteOf(s[i]))
  }

  predicate IsDigit(b: byte) { 48 <= b <= 57 }

  predicate IsAlpha(b: byte) { 65 <= b <= 90 || 97 <= b <= 122 }

  predicate AllDigits(s: Bytes) { forall i | 0 <= i < |s| :: IsDigit(s[i]) }

  function Upper(b: byte): (r: byte) { if 97 <= b <= 122 then b - 32 else b }

  predicate EqIgnoreCase(a: Bytes, b: Bytes) {
    |a| == |b| && forall i | 0 <= i < |a| :: Upper(a[i]) == Upper(b[i])
  }

  predicate IsContinuation(b: byte) { 0x80 <= b < 0xC0 }

  /** Code point and length of the first UTF-8 character; surrogates, overlong forms and
      code points above U+10FFFF are refused. */
  function FirstChar(s: Bytes): (r: Option<(nat, nat)>)
    ensures r.Some? ==> 1 <= r.value.1 <= |s|
  {
    if s == [] then None
    else if s[0] < 0x80 then Some((s[0] as nat, 1))
    else if 0xC2 <= s[0] < 0xE0 && |s| >= 2 && IsContinuation(s[1]) then
      Some(((s[0] as nat - 0xC0) * 0x40 + (s[1] as nat - 0x80), 2))
    else if 0xE0 <= s[0] < 0xF0 && |s| >= 3 && IsContinuation(s[1]) && IsContinuation(s[2]) then
      var code := (s[0] as nat - 0xE0) * 0x1000 + (s[1] as nat - 0x80) * 0x40 + (s[2] as nat - 0x80);
      if code < 0x800 || 0xD800 <= code < 0xE000 then None else Some((code, 3))
    else if 0xF0 <= s[0] < 0xF5 && |s| >= 4 && IsContinuation(s[1]) && IsContinuation(s[2]) && IsContinuation(s[3]) then
      var code := (s[0] as nat - 0xF0) * 0x40000 + (s[1] as nat - 0x80) * 0x1000
                  + (s[2] as nat - 0x80) * 0x40 + (s[3] as nat - 0x80);
      if code < 0x10000 || 0x10FFFF < code then None else Some((code, 4))
    else None
  }

  /** The code points of valid UTF-8. */
  function Chars(s: Bytes): (r: Option<seq<nat>>)
    decreases |s|
  {
    if s == [] then Some([])
    else
      match FirstChar(s)
      case None => None
      case Some((code, n)) =>
        match Chars(s[n..])
        case None => None
        case Some(rest) => Some([code] + rest)
  }

  predicate IsUtf8(s: Bytes) { Chars(s).Some? }

  predicate IsPChar(code: nat) { code != 0xFEFF && (code >= 0x80 || 0x21 <= code <= 0x7E) }

  predicate IsUChar(code: nat) {
    && code != 0xFEFF
    && (0x01 <= code <= 0x09 || 0x0B <= code <= 0x0C || 0x0E <= code <= 0x7E || code >= 0x80)
  }

  predicate ValidUChars(s: Bytes) {
    Chars(s).Some? && forall c | c in Chars(s).value :: IsUChar(c)
  }

  predicate ValidPCharToken(s: Bytes) {
    Chars(s).Some? && s != [] && forall c | c in Chars(s).value :: IsPChar(c)
  }

  predicate HasBom(s: Bytes) { Chars(s).Some? && 0xFEFF in Chars(s).value }

  predicate ValidMessageIdByte(b: byte) { 0x21 <= b <= 0x3D || 0x3F <= b <= 0x7E }

  /** Angle brackets around printable ASCII other than ">"; hence always UTF-8. */
  predicate ValidMessageId(s: Bytes) {
    && 3 <= |s| <= 250 && s[0] == 60 && s[|s| - 1] == 62
    && forall i | 1 <= i < |s| - 1 :: ValidMessageIdByte(s[i])
  }

  predicate ValidGroupByte(b: byte) {
    0x22 <= b <= 0x29 || b == 0x2B || 0x2D <= b <= 0x3E || 0x40 <= b <= 0x5A || 0x5E <= b <= 0x7E || 0x80 <= b
  }

  predicate ValidGroupName(s: Bytes) {
    IsUtf8(s) && s != [] && !HasBom(s) && forall i | 0 <= i < |s| :: ValidGroupByte(s[i])
  }

  predicate ValidKeyword(s: Bytes) {
    && 3 <= |s| && IsAlpha(s[0])
    && forall i | 1 <= i < |s| :: IsAlpha(s[i]) || IsDigit(s[i]) || s[i] == DOT || s[i] == 45
  }

  function DecimalValue(s: Bytes): (r: nat)
    requires AllDigits(s)
  {
    if s == [] then 0 else DecimalValue(s[..|s| - 1]) * 10 + (s[|s| - 1] as nat - 48)
  }

  const MAX_ARTICLE_NUMBER: nat := 2147483647

  /** At most sixteen digits (so the 64-bit accumulation cannot overflow), at most the
      largest article number; zero is allowed here. */
  function ResponseArticleNumber(s: Bytes): (r: Option<nat>) {
    if s == [] || |s| > 16 || !AllDigits(s) then None
    else if DecimalValue(s) <= MAX_ARTICLE_NUMBER then Some(DecimalValue(s)) else None
  }

  /** Offset of the first occurrence of `b`, or the length. */
  function IndexOf(s: Bytes, b: byte): (r: nat)
    ensures r <= |s| && (forall i | 0 <= i < r :: s[i] != b) && (r < |s| ==> s[r] == b)
  {
    if s == [] || s[0] == b then 0 else 1 + IndexOf(s[1..], b)
  }

  predicate IsWs(b: byte) { b == SPACE || b == TAB }

  function SkipWs(s: Bytes): (r: Bytes)
    ensures |r| <= |s| && (r != [] ==> !IsWs(r[0]))
  {
    if s != [] && IsWs(s[0]) then SkipWs(s[1..]) else s
  }

  function WsIndex(s: Bytes): (r: nat)
    ensures r <= |s| && (forall i | 0 <= i < r :: !IsWs(s[i])) && (r < |s| ==> IsWs(s[r]))
  {
    if s == [] || IsWs(s[0]) then 0 else 1 + WsIndex(s[1..])
  }

  /** First blank-separated token and what follows its separator; trailing blanks and a
      leading blank are refused. */
  function SplitWsToken(line: Bytes): (r: Option<(Bytes, Bytes)>)
    ensures r.Some? ==> r.value.0 != [] && |r.value.0| + |r.value.1| <= |line|
  {
    if line == [] || IsWs(line[0]) then None
    else
      var end := WsIndex(line);
      if end == |line| then Some((line, []))
      else
        var rest := SkipWs(line[end..]);
        if rest == [] then None else Some((line[..end], rest))
  }

  /** Exactly `n` tokens separated by single spaces, and the text after the last one
      (empty, or starting with a space). */
  function SplitTokens(value: Bytes, n: nat): (r: Option<(seq<Bytes>, Bytes)>)
    ensures r.Some? ==> |r.value.0| == n
    decreases n
  {
    if n == 0 then Some(([], value))
    else if value == [] || value[0] == SPACE then None
    else
      var end := IndexOf(value, SPACE);
      var rest := value[end..];
      if n == 1 then Some(([value[..end]], rest))
      else if rest == [] || (|rest| > 1 && rest[1] == SPACE) then None
      else
        match SplitTokens(rest[1..], n - 1)
        case None => None
        case Some((tokens, tail)) => Some(([value[..end]] + tokens, tail))
  }

  predicate ValidTrailingComment(s: Bytes) {
    s == [] || (s[0] == SPACE && ValidUChars(s[1..]))
  }

  // ----- printed numbers -----

  /** A number in decimal, without leading zeros. */
  function Digits(n: nat): (r: Bytes) {
    if n < 10 then [(48 + n) as byte] else Digits(n / 10) + [(48 + n % 10) as byte]
  }

  lemma {:induction false} DigitsReadBack(n: nat)
    ensures Digits(n) != [] && AllDigits(Digits(n)) && DecimalValue(Digits(n)) == n
  {
    var s := Digits(n);
    if n < 10 {
      assert s[..0] == [];
    } else {
      DigitsReadBack(n / 10);
      assert s[..|s| - 1] == Digits(n / 10);
    }
  }

  function Power10(k: nat): (n: nat) { if k == 0 then 1 else 10 * Power10(k - 1) }

  lemma {:induction false} DigitsAreFew(n: nat, k: nat, bound: nat)
    requires 0 < k && n < bound && bound <= Power10(k)
    ensures |Digits(n)| <= k
    decreases k
  {
    if n >= 10 { DigitsAreFew(n / 10, k - 1, n / 10 + 1); }
  }

  /** A printed article number of a response reads back as itself. */
  lemma ResponseNumberReadsBack(n: nat)
    requires n <= MAX_ARTICLE_NUMBER
    ensures ResponseArticleNumber(Digits(n)) == Some(n) && |Digits(n)| <= 10
  {
    hide Digits, DecimalValue;
    DigitsReadBack(n);
    assert Power10(10) == 10000000000;
    DigitsAreFew(n, 10, n + 1);
  }

  // ----- printed words -----

  /** A word with no space in it. */
  predicate Unspaced(w: Bytes) { w != [] && forall i | 0 <= i < |w| :: w[i] != SPACE }

  predicate AllUnspaced(words: seq<Bytes>) { forall i | 0 <= i < |words| :: Unspaced(words[i]) }

  /** Words with single spaces between them. */
  function Phrase(words: seq<Bytes>): (r: Bytes) {
    if words == [] then [] else if |words| == 1 then words[0] else words[0] + [SPACE] + Phrase(words[1..])
  }

  predicate IsTail(s: Bytes) { s == [] || s[0] == SPACE }

  lemma IndexOfSpace(word: Bytes, rest: Bytes)
    requires Unspaced(word) && IsTail(rest)
    ensures IndexOf(word + rest, SPACE) == |word| && (word + rest)[..|word|] == word && (word + rest)[|word|..] == rest
  {
    hide IndexOf;
    var s := word + rest;
    assert forall i | 0 <= i < |word| :: s[i] == word[i];
    if rest != [] { assert s[|word|] == SPACE; }
  }

  lemma SplitOne(w: Bytes, tail: Bytes)
    requires Unspaced(w) && IsTail(tail)
    ensures SplitTokens(w + tail, 1) == Some(([w], tail))
  {
    hide IndexOf;
    IndexOfSpace(w, tail);
    assert (w + tail)[0] == w[0];
  }

  lemma SplitMore(w: Bytes, next: Bytes, n: nat)
    requires n > 1 && Unspaced(w) && next != [] && next[0] != SPACE
    ensures SplitTokens(w + ([SPACE] + next), n)
         == match SplitTokens(next, n - 1) { case None => None case Some((words, tail)) => Some(([w] + words, tail)) }
  {
    hide IndexOf;
    var rest := [SPACE] + next;
    IndexOfSpace(w, rest);
    assert (w + rest)[0] == w[0];
    assert rest[1..] == next;
  }

  lemma PhraseStarts(words: seq<Bytes>, tail: Bytes)
    requires words != [] && AllUnspaced(words)
    ensures Phrase(words) != [] && (Phrase(words) + tail)[0] == words[0][0] != SPACE
  {
    assert Unspaced(words[0]);
  }

  /** Splitting off words undoes printing them ... */
  lemma {:induction false} SplitPrinted(words: seq<Bytes>, tail: Bytes)
    requires words != [] && AllUnspaced(words) && IsTail(tail)
    ensures SplitTokens(Phrase(words) + tail, |words|) == Some((words, tail))
  {
    hide SplitTokens, Unspaced;
    var w := words[0];
    if |words| == 1 {
      SplitOne(w, tail);
      assert [w] == words;
    } else {
      var more := words[1..];
      var next := Phrase(more) + tail;
      SplitPrinted(more, tail);
      PhraseStarts(more, tail);
      SplitMore(w, next, |words|);
      assert Phrase(words) + tail == w + ([SPACE] + next);
      assert [w] + more == words;
    }
  }

  /** The first word split off, and what is left. */
  lemma SplitParts(value: Bytes, n: nat)
    requires n > 0 && SplitTokens(value, n).Some?
    ensures var end := IndexOf(value, SPACE);
            && Unspaced(value[..end]) && value == value[..end] + value[end..] && IsTail(value[end..])
            && (n == 1 ==> SplitTokens(value, n) == Some(([value[..end]], value[end..])))
            && (n > 1 ==>
                  && end < |value| && value[end..] == [SPACE] + value[end + 1..] && SplitTokens(value[end + 1..], n - 1).Some?
                  && var (words, tail) := SplitTokens(value[end + 1..], n - 1).value;
                     SplitTokens(value, n) == Some(([value[..end]] + words, tail)))
  {
    hide IndexOf;
    var end := IndexOf(value, SPACE);
    if end < |value| { assert value[end..][1..] == value[end + 1..]; }
  }

  lemma PhraseCons(w: Bytes, words: seq<Bytes>, tail: Bytes)
    requires words != []
    ensures Phrase([w] + words) + tail == w + ([SPACE] + (Phrase(words) + tail))
  {
    assert ([w] + words)[1..] == words;
  }

  /** ... and nothing else is ever split off. */
  lemma {:induction false} SplitMeans(value: Bytes, n: nat)
    requires n > 0 && SplitTokens(value, n).Some?
    ensures var (words, tail) := SplitTokens(value, n).value;
            |words| == n && AllUnspaced(words) && IsTail(tail) && value == Phrase(words) + tail
    decreases n
  {
    hide SplitTokens, Unspaced, IndexOf;
    SplitParts(value, n);
    if n > 1 {
      var end := IndexOf(value, SPACE);
      SplitMeans(value[end + 1..], n - 1);
      var (words, tail) := SplitTokens(value[end + 1..], n - 1).value;
      PhraseCons(value[..end], words, tail);
    }
  }
}
