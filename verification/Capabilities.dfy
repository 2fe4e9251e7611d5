/** The CAPABILITIES payload: validation and the list of advertised labels. */
module Capabilities {
  import opened Wire
  import opened Lines
  import opened Text

  function Prepend(lines: seq<Bytes>, rest: Option<seq<Bytes>>): (r: Option<seq<Bytes>>) {
    match rest
    case None => None
    case Some(more) => Some(lines + more)
  }

  /** The strict CRLF lines that exactly fill `d[from..to]`. */
  function LinesBetween(d: Bytes, from: nat, to: nat): (r: Option<seq<Bytes>>)
    requires to <= |d|
    decreases if from < to then to - from else 0
  {
    if from == to then Some([])
    else if from > to then None
    else
      match StrictLineContentEnd(d, from)
      case None => None
      case Some(end) =>
        if end + 2 > to then None else Prepend([d[from..end]], LinesBetween(d, end + 2, to))
  }

  /** The lines of a body made of strict CRLF lines only. */
  function CrlfLines(d: Bytes): (r: Option<seq<Bytes>>) {
    LinesBetween(d, 0, |d|)
  }

  lemma PrependTwice(x: seq<Bytes>, y: seq<Bytes>, rest: Option<seq<Bytes>>)
    ensures Prepend(x, Prepend(y, rest)) == Prepend(x + y, rest)
  {
    if rest.Some? { assert x + (y + rest.value) == x + y + rest.value; }
  }

  lemma PrependNone(rest: Option<seq<Bytes>>)
    ensures Prepend([], rest) == rest
  {
    if rest.Some? { assert [] + rest.value == rest.value; }
  }

  /** Lines up to a line start and lines from it make up all the lines. */
  lemma {:induction false} LinesJoin(d: Bytes, from: nat, mid: nat, to: nat)
    requires mid <= to <= |d| && LinesBetween(d, from, mid).Some?
    ensures LinesBetween(d, from, to) == Prepend(LinesBetween(d, from, mid).value, LinesBetween(d, mid, to))
    decreases if from < mid then mid - from else 0
  {
    if from == mid {
      PrependNone(LinesBetween(d, mid, to));
    } else {
      var end := StrictLineContentEnd(d, from).value;
      LinesJoin(d, end + 2, mid, to);
      PrependTwice([d[from..end]], LinesBetween(d, end + 2, mid).value, LinesBetween(d, mid, to));
    }
  }

  lemma OneLine(d: Bytes, from: nat, to: nat)
    requires to <= |d| && from < to
    ensures match StrictLineContentEnd(d, from)
            case None => LinesBetween(d, from, to).None?
            case Some(end) => end + 2 <= |d| && LinesBetween(d, from, end + 2) == Some([d[from..end]])
  {
    if StrictLineContentEnd(d, from).Some? {
      var end := StrictLineContentEnd(d, from).value;
      assert LinesBetween(d, end + 2, end + 2) == Some([]);
      assert [d[from..end]] + [] == [d[from..end]];
    }
  }

  /** All blank-separated tokens; none at all is fine, stray blanks are not. */
  function WsTokens(rest: Bytes): (r: Option<seq<Bytes>>)
    decreases |rest|
  {
    if rest == [] then Some([])
    else
      match SplitWsToken(rest)
      case None => None
      case Some((token, next)) =>
        match WsTokens(next)
        case None => None
        case Some(more) => Some([token] + more)
  }

  predicate AllTokens(rest: Bytes, ok: Bytes -> bool) {
    WsTokens(rest).Some? && forall t | t in WsTokens(rest).value :: ok(t)
  }

  predicate ValidVersionToken(t: Bytes) {
    1 <= |t| <= 6 && t[0] != 48 && AllDigits(t)
  }

  predicate ValidMechanism(t: Bytes) {
    1 <= |t| <= 20 && forall i | 0 <= i < |t| :: 65 <= t[i] <= 90 || IsDigit(t[i]) || t[i] == 45 || t[i] == 95
  }

  predicate ValidVersionLine(line: Bytes) {
    match SplitWsToken(line)
    case None => false
    case Some((name, rest)) => EqIgnoreCase(name, Ascii("VERSION")) && rest != [] && AllTokens(rest, ValidVersionToken)
  }

  const BARE_LABELS: seq<Bytes> :=
    [Ascii("HDR"), Ascii("IHAVE"), Ascii("MODE-READER"), Ascii("NEWNEWS"), Ascii("POST"), Ascii("READER"),
     Ascii("STARTTLS"), Ascii("STREAMING")]

  /** Arguments of a keyword-labelled line, with the rules of the known labels. */
  predicate ValidArguments(name: Bytes, rest: Bytes) {
    if exists k | 0 <= k < |BARE_LABELS| :: EqIgnoreCase(name, BARE_LABELS[k]) then rest == []
    else if EqIgnoreCase(name, Ascii("LIST")) then rest != [] && AllTokens(rest, ValidKeyword)
    else if EqIgnoreCase(name, Ascii("OVER")) then
      rest == [] || (SplitWsToken(rest).Some? && SplitWsToken(rest).value.1 == []
                     && EqIgnoreCase(SplitWsToken(rest).value.0, Ascii("MSGID")))
    else if EqIgnoreCase(name, Ascii("AUTHINFO")) then
      AllTokens(rest, (t: Bytes) => EqIgnoreCase(t, Ascii("USER")) || EqIgnoreCase(t, Ascii("SASL")))
    else if EqIgnoreCase(name, Ascii("SASL")) then rest != [] && AllTokens(rest, ValidMechanism)
    else AllTokens(rest, ValidPCharToken)
  }

  predicate ValidCapabilityLine(line: Bytes) {
    match SplitWsToken(line)
    case None => false
    case Some((name, rest)) =>
      if !ValidKeyword(name) then ValidPCharToken(name) && !IsAlpha(name[0]) && AllTokens(rest, ValidPCharToken)
      else ValidArguments(name, rest)
  }

  /** A line that is a dot not doubled by stuffing. */
  predicate BareDot(line: Bytes) {
    |line| >= 1 && line[0] == DOT && (|line| == 1 || line[1] != DOT)
  }

  predicate HasKeyword(line: Bytes) {
    SplitWsToken(line).Some? && ValidKeyword(SplitWsToken(line).value.0)
  }

  function LabelOf(line: Bytes): (r: Bytes) {
    match SplitWsToken(line)
    case None => []
    case Some((name, _)) => name
  }

  /** Whether one of `lines` carries `name`, ignoring case. */
  predicate LabelSeen(lines: seq<Bytes>, name: Bytes) {
    exists j | 0 <= j < |lines| :: EqIgnoreCase(LabelOf(lines[j]), name)
  }

  /** A body line given the body lines before it. */
  predicate ValidBodyLine(before: seq<Bytes>, line: Bytes) {
    && !BareDot(line) && ValidCapabilityLine(line)
    && (HasKeyword(line) ==> !EqIgnoreCase(LabelOf(line), Ascii("VERSION")) && !LabelSeen(before, LabelOf(line)))
  }

  predicate ValidBody(body: seq<Bytes>) {
    forall i | 0 <= i < |body| :: ValidBodyLine(body[..i], body[i])
  }

  predicate ValidLines(lines: seq<Bytes>) {
    lines != [] && ValidVersionLine(lines[0]) && ValidBody(lines[1..])
  }

  /** An acceptable payload: VERSION first, then well-formed lines with no name repeated. */
  predicate ValidCapabilities(content: Bytes) {
    CrlfLines(content).Some? && ValidLines(CrlfLines(content).value)
  }

  datatype CapabilityEntry = Entry(name: Bytes, arguments: seq<Bytes>)

  /** The entry of a line; `None` when the name is no keyword, the blanks are stray or an
      argument is not UTF-8. */
  function EntryOf(line: Bytes): (r: Option<CapabilityEntry>) {
    match SplitWsToken(line)
    case None => None
    case Some((name, rest)) =>
      if ValidKeyword(name) && WsTokens(rest).Some? && (forall t | t in WsTokens(rest).value :: IsUtf8(t))
      then Some(Entry(name, WsTokens(rest).value)) else None
  }

  predicate Blankless(w: Bytes) { w != [] && forall i | 0 <= i < |w| :: !IsWs(w[i]) }

  predicate AllBlankless(words: seq<Bytes>) { forall i | 0 <= i < |words| :: Blankless(words[i]) }

  lemma LastToken(w: Bytes)
    requires Blankless(w)
    ensures SplitWsToken(w) == Some((w, []))
  {
    hide WsIndex;
  }

  lemma BlankThen(next: Bytes)
    requires next != [] && !IsWs(next[0])
    ensures SkipWs(next) == next && SkipWs([SPACE] + next) == next
  {
    assert ([SPACE] + next)[1..] == next;
  }

  lemma TokenThen(w: Bytes, next: Bytes)
    requires Blankless(w) && next != [] && !IsWs(next[0])
    ensures SplitWsToken(w + ([SPACE] + next)) == Some((w, next))
  {
    hide WsIndex, SkipWs;
    var line := w + ([SPACE] + next);
    assert forall i | 0 <= i < |w| :: line[i] == w[i];
    assert line[|w|] == SPACE && line[|w| + 1..] == next && line[..|w|] == w;
    assert WsIndex(line) == |w|;
    BlankThen(next);
    assert line[|w|..] == [SPACE] + next;
  }

  /** Splitting a line of words with single spaces between them gives back those words. */
  lemma {:induction false} TokensOfPhrase(words: seq<Bytes>)
    requires AllBlankless(words)
    ensures WsTokens(Phrase(words)) == Some(words) && (words != [] ==> Phrase(words) != [] && !IsWs(Phrase(words)[0]))
  {
    hide SplitWsToken;
    if words != [] {
      var w, more := words[0], words[1..];
      assert Blankless(w);
      TokensOfPhrase(more);
      if more == [] {
        LastToken(w);
        assert [w] + [] == words;
      } else {
        TokenThen(w, Phrase(more));
        assert Phrase(words) == w + ([SPACE] + Phrase(more));
        assert [w] + more == words;
      }
    }
  }

  lemma KeywordIsBlankless(name: Bytes)
    requires ValidKeyword(name)
    ensures Blankless(name)
  {
  }

  /** A line is its first word and the rest. */
  lemma FirstOfPhrase(name: Bytes, words: seq<Bytes>)
    requires Blankless(name) && AllBlankless(words)
    ensures SplitWsToken(Phrase([name] + words)) == Some((name, Phrase(words)))
  {
    hide SplitWsToken, WsTokens, Blankless;
    TokensOfPhrase(words);
    assert ([name] + words)[1..] == words;
    if words == [] {
      LastToken(name);
    } else {
      TokenThen(name, Phrase(words));
      assert Phrase([name] + words) == name + ([SPACE] + Phrase(words));
    }
  }

  /** A keyword and words with single spaces between them are read as that label with exactly
      those arguments, in order. */
  lemma EntryReadsBack(name: Bytes, words: seq<Bytes>)
    requires ValidKeyword(name) && AllBlankless(words) && forall t | t in words :: IsUtf8(t)
    ensures EntryOf(Phrase([name] + words)) == Some(Entry(name, words))
  {
    hide SplitWsToken, WsTokens, IsUtf8, Phrase, ValidKeyword, Blankless;
    KeywordIsBlankless(name);
    FirstOfPhrase(name, words);
    TokensOfPhrase(words);
  }

  // ----- which arguments go with which label -----

  predicate IsLabel(name: Bytes, w: string) { EqIgnoreCase(name, Ascii(w)) }

  predicate TakesNone(name: Bytes) {
    || IsLabel(name, "HDR") || IsLabel(name, "IHAVE") || IsLabel(name, "MODE-READER") || IsLabel(name, "NEWNEWS")
    || IsLabel(name, "POST") || IsLabel(name, "READER") || IsLabel(name, "STARTTLS") || IsLabel(name, "STREAMING")
  }

  /** The arguments that a label allows; a label of no other kind allows any printable words. */
  predicate ArgumentsFit(name: Bytes, words: seq<Bytes>) {
    && (TakesNone(name) ==> words == [])
    && (IsLabel(name, "LIST") ==> words != [] && forall w | w in words :: ValidKeyword(w))
    && (IsLabel(name, "OVER") ==> words == [] || (|words| == 1 && IsLabel(words[0], "MSGID")))
    && (IsLabel(name, "AUTHINFO") ==> forall w | w in words :: IsLabel(w, "USER") || IsLabel(w, "SASL"))
    && (IsLabel(name, "SASL") ==> words != [] && forall w | w in words :: ValidMechanism(w))
    && (!TakesNone(name) && !IsLabel(name, "LIST") && !IsLabel(name, "OVER") && !IsLabel(name, "AUTHINFO") && !IsLabel(name, "SASL") ==>
          forall w | w in words :: ValidPCharToken(w))
  }

  lemma LabelShape(name: Bytes, w: string)
    requires w != "" && IsLabel(name, w)
    ensures |name| == |w| && Upper(name[0]) == Upper(ByteOf(w[0]))
  {
  }

  /** No name is two labels with different rules. */
  lemma LabelsDiffer(name: Bytes)
    ensures IsLabel(name, "LIST") ==> !TakesNone(name)
    ensures IsLabel(name, "OVER") ==> !TakesNone(name) && !IsLabel(name, "LIST")
    ensures IsLabel(name, "AUTHINFO") ==> !TakesNone(name) && !IsLabel(name, "LIST") && !IsLabel(name, "OVER")
    ensures IsLabel(name, "SASL") ==> !TakesNone(name) && !IsLabel(name, "LIST") && !IsLabel(name, "OVER") && !IsLabel(name, "AUTHINFO")
  {
    hide IsLabel;
    if IsLabel(name, "HDR") { LabelShape(name, "HDR"); }
    if IsLabel(name, "IHAVE") { LabelShape(name, "IHAVE"); }
    if IsLabel(name, "MODE-READER") { LabelShape(name, "MODE-READER"); }
    if IsLabel(name, "NEWNEWS") { LabelShape(name, "NEWNEWS"); }
    if IsLabel(name, "POST") { LabelShape(name, "POST"); }
    if IsLabel(name, "READER") { LabelShape(name, "READER"); }
    if IsLabel(name, "STARTTLS") { LabelShape(name, "STARTTLS"); }
    if IsLabel(name, "STREAMING") { LabelShape(name, "STREAMING"); }
    if IsLabel(name, "LIST") { LabelShape(name, "LIST"); }
    if IsLabel(name, "OVER") { LabelShape(name, "OVER"); }
    if IsLabel(name, "AUTHINFO") { LabelShape(name, "AUTHINFO"); }
    if IsLabel(name, "SASL") { LabelShape(name, "SASL"); }
  }

  lemma BareLabels(name: Bytes)
    ensures (exists k | 0 <= k < |BARE_LABELS| :: EqIgnoreCase(name, BARE_LABELS[k])) <==> TakesNone(name)
  {
    hide EqIgnoreCase, Ascii;
    if IsLabel(name, "HDR") { assert EqIgnoreCase(name, BARE_LABELS[0]); }
    if IsLabel(name, "IHAVE") { assert EqIgnoreCase(name, BARE_LABELS[1]); }
    if IsLabel(name, "MODE-READER") { assert EqIgnoreCase(name, BARE_LABELS[2]); }
    if IsLabel(name, "NEWNEWS") { assert EqIgnoreCase(name, BARE_LABELS[3]); }
    if IsLabel(name, "POST") { assert EqIgnoreCase(name, BARE_LABELS[4]); }
    if IsLabel(name, "READER") { assert EqIgnoreCase(name, BARE_LABELS[5]); }
    if IsLabel(name, "STARTTLS") { assert EqIgnoreCase(name, BARE_LABELS[6]); }
    if IsLabel(name, "STREAMING") { assert EqIgnoreCase(name, BARE_LABELS[7]); }
  }

  lemma PhraseIsSomething(words: seq<Bytes>)
    requires AllBlankless(words)
    ensures Phrase(words) == [] <==> words == []
  {
    hide WsTokens;
    TokensOfPhrase(words);
  }

  lemma OneWordPhrase(words: seq<Bytes>)
    requires AllBlankless(words) && words != []
    ensures SplitWsToken(Phrase(words)) == Some((words[0], Phrase(words[1..])))
  {
    hide SplitWsToken, Phrase;
    assert words == [words[0]] + words[1..];
    FirstOfPhrase(words[0], words[1..]);
  }

  /** A line of a keyword and words is accepted if and only if the label allows the words. */
  lemma LineFits(name: Bytes, words: seq<Bytes>)
    requires ValidKeyword(name) && AllBlankless(words)
    ensures ValidCapabilityLine(Phrase([name] + words)) <==> ArgumentsFit(name, words)
  {
    hide SplitWsToken, WsTokens, Phrase, ValidKeyword, Blankless, EqIgnoreCase, Ascii, ValidMechanism, ValidPCharToken, TakesNone;
    KeywordIsBlankless(name);
    FirstOfPhrase(name, words);
    TokensOfPhrase(words);
    BareLabels(name);
    LabelsDiffer(name);
    PhraseIsSomething(words);
    if words != [] {
      OneWordPhrase(words);
      PhraseIsSomething(words[1..]);
    }
  }

  function Entries(lines: seq<Bytes>): (r: seq<CapabilityEntry>) {
    if lines == [] then []
    else
      var last := EntryOf(lines[|lines| - 1]);
      Entries(lines[..|lines| - 1]) + (if last.Some? then [last.value] else [])
  }

  function ParseCapabilities(content: Bytes): (r: Option<seq<CapabilityEntry>>) {
    if ValidCapabilities(content) then Some(Entries(CrlfLines(content).value)) else None
  }

  lemma {:induction false} AsciiIsUtf8(s: Bytes)
    requires forall i | 0 <= i < |s| :: s[i] < 0x80
    ensures IsUtf8(s)
  {
    if s != [] {
      AsciiIsUtf8(s[1..]);
    }
  }

  /** Case-insensitive equality with ASCII text leaves nothing but ASCII. */
  lemma MatchesAscii(t: Bytes, s: string)
    requires forall i | 0 <= i < |s| :: s[i] as int < 0x80
    requires EqIgnoreCase(t, Ascii(s))
    ensures IsUtf8(t)
  {
    forall i | 0 <= i < |t|
      ensures t[i] < 0x80
    {
      assert Upper(t[i]) == Upper(Ascii(s)[i]);
    }
    AsciiIsUtf8(t);
  }

  lemma TokenKindsAreUtf8()
    ensures forall t | ValidKeyword(t) :: IsUtf8(t)
    ensures forall t | ValidMechanism(t) :: IsUtf8(t)
    ensures forall t | ValidVersionToken(t) :: IsUtf8(t)
    ensures forall t | EqIgnoreCase(t, Ascii("USER")) || EqIgnoreCase(t, Ascii("SASL")) :: IsUtf8(t)
    ensures forall t | EqIgnoreCase(t, Ascii("MSGID")) :: IsUtf8(t)
  {
    forall t: Bytes ensures ValidKeyword(t) || ValidMechanism(t) || ValidVersionToken(t) ==> IsUtf8(t) {
      if ValidKeyword(t) || ValidMechanism(t) || ValidVersionToken(t) { AsciiIsUtf8(t); }
    }
    forall t: Bytes | EqIgnoreCase(t, Ascii("USER")) ensures IsUtf8(t) { MatchesAscii(t, "USER"); }
    forall t: Bytes | EqIgnoreCase(t, Ascii("SASL")) ensures IsUtf8(t) { MatchesAscii(t, "SASL"); }
    forall t: Bytes | EqIgnoreCase(t, Ascii("MSGID")) ensures IsUtf8(t) { MatchesAscii(t, "MSGID"); }
  }

  lemma OneToken(rest: Bytes)
    requires SplitWsToken(rest).Some? && SplitWsToken(rest).value.1 == []
    ensures WsTokens(rest) == Some([SplitWsToken(rest).value.0])
  {
    var (token, next) := SplitWsToken(rest).value;
    assert WsTokens(next) == Some([]);
    assert [token] + [] == [token];
  }

  /** No keyword-labelled line of an accepted payload is dropped from the list. */
  lemma KeywordLineHasEntry(line: Bytes)
    requires ValidCapabilityLine(line) || ValidVersionLine(line)
    requires HasKeyword(line)
    ensures EntryOf(line).Some? && EntryOf(line).value.name == LabelOf(line)
  {
    TokenKindsAreUtf8();
    var (name, rest) := SplitWsToken(line).value;
    if rest != [] && EqIgnoreCase(name, Ascii("OVER")) && SplitWsToken(rest).Some? && SplitWsToken(rest).value.1 == [] {
      OneToken(rest);
    }
  }

  predicate DistinctLabels(entries: seq<CapabilityEntry>) {
    forall i, j | 0 <= i < j < |entries| :: !EqIgnoreCase(entries[i].name, entries[j].name)
  }

  /** The keyword labels of `lines`, in order. */
  function Keywords(lines: seq<Bytes>): (r: seq<Bytes>) {
    if lines == [] then []
    else
      var last := lines[|lines| - 1];
      Keywords(lines[..|lines| - 1]) + (if HasKeyword(last) then [LabelOf(last)] else [])
  }

  predicate LabelsAre(entries: seq<CapabilityEntry>, names: seq<Bytes>) {
    |entries| == |names| && forall i | 0 <= i < |names| :: entries[i].name == names[i]
  }

  lemma {:induction false} KeywordsComeFromLines(lines: seq<Bytes>)
    ensures forall k | k in Keywords(lines) :: ValidKeyword(k) && exists j | 0 <= j < |lines| :: LabelOf(lines[j]) == k
  {
    if lines != [] {
      var init, last := lines[..|lines| - 1], lines[|lines| - 1];
      KeywordsComeFromLines(init);
      forall k | k in Keywords(lines)
        ensures ValidKeyword(k) && exists j | 0 <= j < |lines| :: LabelOf(lines[j]) == k
      {
        if k in Keywords(init) {
          var j :| 0 <= j < |init| && LabelOf(init[j]) == k;
          assert lines[j] == init[j];
        } else {
          assert LabelOf(lines[|lines| - 1]) == k;
        }
      }
    }
  }

  /** Dropping the last body line keeps a list of lines valid. */
  lemma ValidLinesInit(lines: seq<Bytes>)
    requires ValidLines(lines) && |lines| > 1
    ensures ValidLines(lines[..|lines| - 1])
    ensures ValidBodyLine(lines[..|lines| - 1][1..], lines[|lines| - 1])
  {
    hide ValidBodyLine, ValidVersionLine;
    var init, body := lines[..|lines| - 1], lines[1..];
    var last := |body| - 1;
    assert init[0] == lines[0] && init[1..] == body[..last] && body[last] == lines[|lines| - 1];
    forall i | 0 <= i < last
      ensures ValidBodyLine(init[1..][..i], init[1..][i])
    {
      assert init[1..][..i] == body[..i] && init[1..][i] == body[i];
    }
    assert ValidBodyLine(body[..last], body[last]);
  }

  /** One more entry with a new label keeps labels matched and distinct. */
  lemma AddEntry(entries: seq<CapabilityEntry>, names: seq<Bytes>, e: CapabilityEntry)
    requires LabelsAre(entries, names) && DistinctLabels(entries)
    requires forall k | k in names :: !EqIgnoreCase(k, e.name)
    ensures LabelsAre(entries + [e], names + [e.name]) && DistinctLabels(entries + [e])
  {
    hide EqIgnoreCase;
    assert forall i | 0 <= i < |entries| :: entries[i].name == names[i] && names[i] in names;
  }

  lemma VersionIsKeyword(line: Bytes)
    requires ValidVersionLine(line)
    ensures HasKeyword(line)
  {
    var name := SplitWsToken(line).value.0;
    assert forall i | 0 <= i < |name| :: Upper(name[i]) == Upper(Ascii("VERSION")[i]);
  }

  lemma VersionEntry(line: Bytes)
    requires ValidVersionLine(line)
    ensures HasKeyword(line) && EntryOf(line).Some? && EntryOf(line).value.name == LabelOf(line)
    ensures EqIgnoreCase(LabelOf(line), Ascii("VERSION"))
  {
    VersionIsKeyword(line);
    KeywordLineHasEntry(line);
  }

  lemma BodyEntry(before: seq<Bytes>, line: Bytes)
    requires ValidBodyLine(before, line)
    ensures if HasKeyword(line) then EntryOf(line).Some? && EntryOf(line).value.name == LabelOf(line)
            else EntryOf(line).None?
  {
    if HasKeyword(line) { KeywordLineHasEntry(line); }
  }

  lemma SameAsVersion(a: Bytes, b: Bytes)
    requires EqIgnoreCase(a, Ascii("VERSION")) && EqIgnoreCase(a, b)
    ensures EqIgnoreCase(b, Ascii("VERSION"))
  {
  }

  /** A label that was neither VERSION nor seen in the body differs from every keyword so far. */
  lemma NewLabelIsNew(init: seq<Bytes>, last: Bytes)
    requires ValidLines(init) && ValidBodyLine(init[1..], last) && HasKeyword(last)
    ensures forall k | k in Keywords(init) :: !EqIgnoreCase(k, LabelOf(last))
  {
    KeywordsComeFromLines(init);
    forall k | k in Keywords(init)
      ensures !EqIgnoreCase(k, LabelOf(last))
    {
      var j :| 0 <= j < |init| && LabelOf(init[j]) == k;
      if j > 0 {
        assert init[1..][j - 1] == init[j];
      } else if EqIgnoreCase(k, LabelOf(last)) {
        SameAsVersion(k, LabelOf(last));
      }
    }
  }

  /** One entry for every keyword-labelled line, in order, and all labels distinct. */
  lemma {:induction false} EntriesOfValid(lines: seq<Bytes>)
    requires ValidLines(lines)
    ensures LabelsAre(Entries(lines), Keywords(lines))
    ensures Entries(lines) != [] && EqIgnoreCase(Entries(lines)[0].name, Ascii("VERSION"))
    ensures DistinctLabels(Entries(lines))
    decreases |lines|
  {
    hide ValidBodyLine, ValidVersionLine, EntryOf, HasKeyword, LabelOf, EqIgnoreCase;
    var init, last := lines[..|lines| - 1], lines[|lines| - 1];
    if |lines| == 1 {
      VersionEntry(last);
      assert Entries(init) == [] && Keywords(init) == [];
    } else {
      ValidLinesInit(lines);
      EntriesOfValid(init);
      BodyEntry(init[1..], last);
      if HasKeyword(last) {
        NewLabelIsNew(init, last);
        AddEntry(Entries(init), Keywords(init), EntryOf(last).value);
      }
    }
  }

  /** First entry with the label, ignoring case. */
  function Get(entries: seq<CapabilityEntry>, name: Bytes): (r: Option<CapabilityEntry>) {
    if entries == [] then None
    else if EqIgnoreCase(entries[0].name, name) then Some(entries[0])
    else Get(entries[1..], name)
  }

  /** With distinct labels, lookup is unambiguous: any entry with the label is the answer. */
  lemma {:induction false} GetFinds(entries: seq<CapabilityEntry>, name: Bytes, i: nat)
    requires DistinctLabels(entries) && i < |entries| && EqIgnoreCase(entries[i].name, name)
    ensures Get(entries, name) == Some(entries[i])
  {
    if i > 0 {
      if EqIgnoreCase(entries[0].name, name) {
        assert EqIgnoreCase(entries[0].name, entries[i].name);
      } else {
        GetFinds(entries[1..], name, i - 1);
      }
    }
  }

  lemma {:induction false} GetFindsNone(entries: seq<CapabilityEntry>, name: Bytes)
    ensures Get(entries, name).None? <==> forall i | 0 <= i < |entries| :: !EqIgnoreCase(entries[i].name, name)
  {
    hide EqIgnoreCase;
    if entries != [] {
      GetFindsNone(entries[1..], name);
      assert entries == [entries[0]] + entries[1..];
    }
  }

  /** Lookup finds the one entry that has the label up to case, and nothing if there is none. */
  lemma GetIsUnambiguous(entries: seq<CapabilityEntry>, name: Bytes)
    requires DistinctLabels(entries)
    ensures forall i | 0 <= i < |entries| && EqIgnoreCase(entries[i].name, name) :: Get(entries, name) == Some(entries[i])
    ensures Get(entries, name).None? <==> forall i | 0 <= i < |entries| :: !EqIgnoreCase(entries[i].name, name)
  {
    hide EqIgnoreCase, Get, DistinctLabels;
    GetFindsNone(entries, name);
    forall i | 0 <= i < |entries| && EqIgnoreCase(entries[i].name, name) ensures Get(entries, name) == Some(entries[i]) {
      GetFinds(entries, name, i);
    }
  }

  /** An accepted payload lists VERSION first, every keyword-labelled line once, and no
      label twice; lookup by any listed label returns that very entry. */
  lemma CapabilityListIsFaithful(content: Bytes)
    requires ParseCapabilities(content).Some?
    ensures var entries, lines := ParseCapabilities(content).value, CrlfLines(content).value;
            && LabelsAre(entries, Keywords(lines))
            && entries != [] && EqIgnoreCase(entries[0].name, Ascii("VERSION"))
            && forall i | 0 <= i < |entries| :: Get(entries, entries[i].name) == Some(entries[i])
  {
    var entries := ParseCapabilities(content).value;
    EntriesOfValid(CrlfLines(content).value);
    forall i | 0 <= i < |entries|
      ensures Get(entries, entries[i].name) == Some(entries[i])
    {
      GetFinds(entries, entries[i].name, i);
    }
  }

  lemma LabelSeenCons(line: Bytes, rest: seq<Bytes>, name: Bytes)
    ensures LabelSeen([line] + rest, name) <==> EqIgnoreCase(LabelOf(line), name) || LabelSeen(rest, name)
  {
    hide LabelOf, EqIgnoreCase;
    var all := [line] + rest;
    assert all[0] == line;
    assert forall j | 0 < j < |all| :: all[j] == rest[j - 1];
    if LabelSeen(rest, name) {
      var j :| 0 <= j < |rest| && EqIgnoreCase(LabelOf(rest[j]), name);
      assert all[j + 1] == rest[j];
    }
  }

  /** The lines that start before `end`, up to the first that is no strict line or has no
      label to read. */
  function LabelledLines(content: Bytes, start: nat, end: nat): (r: seq<Bytes>)
    decreases |content| - start
  {
    if start >= end then []
    else
      match StrictLineContentEnd(content, start)
      case None => []
      case Some(e) =>
        if SplitWsToken(content[start..e]).None? then [] else [content[start..e]] + LabelledLines(content, e + 2, end)
  }

  /** On a range of whole labelled lines these are all the lines. */
  lemma {:induction false} LabelledLinesAll(content: Bytes, start: nat, end: nat)
    requires start <= end <= |content| && LinesBetween(content, start, end).Some?
    requires forall l | l in LinesBetween(content, start, end).value :: SplitWsToken(l).Some?
    ensures LabelledLines(content, start, end) == LinesBetween(content, start, end).value
    decreases end - start
  {
    hide SplitWsToken;
    if start < end {
      var e := StrictLineContentEnd(content, start).value;
      var lines, rest := LinesBetween(content, start, end).value, LinesBetween(content, e + 2, end).value;
      assert lines == [content[start..e]] + rest;
      assert lines[0] in lines;
      assert forall l | l in rest :: l in lines;
      LabelledLinesAll(content, e + 2, end);
    }
  }

  /** The scan for an earlier occurrence of a label: it looks at line after line and gives
      up at the first it cannot read. */
  method CapabilityLabelSeen(content: Bytes, start: nat, end: nat, name: Bytes) returns (r: bool)
    ensures r <==> LabelSeen(LabelledLines(content, start, end), name)
  {
    hide SplitWsToken, StrictLineContentEnd, EqIgnoreCase;
    ghost var lines := LabelledLines(content, start, end);
    var offset := start;
    assert !LabelSeen([], name);
    while offset < end
      invariant LabelSeen(lines, name) <==> LabelSeen(LabelledLines(content, offset, end), name)
      decreases |content| - offset
    {
      var lineEnd := StrictLineContentEnd(content, offset);
      if lineEnd.None? {
        return false;
      }
      var token := SplitWsToken(content[offset..lineEnd.value]);
      if token.None? {
        return false;
      }
      LabelSeenCons(content[offset..lineEnd.value], LabelledLines(content, lineEnd.value + 2, end), name);
      if EqIgnoreCase(token.value.0, name) {
        return true;
      }
      offset := lineEnd.value + 2;
    }
    return false;
  }

  lemma ValidBodySnoc(body: seq<Bytes>, line: Bytes)
    ensures ValidBody(body + [line]) <==> ValidBody(body) && ValidBodyLine(body, line)
  {
    var all := body + [line];
    assert forall i | 0 <= i < |body| :: all[..i] == body[..i] && all[i] == body[i];
    assert all[..|body|] == body && all[|body|] == line;
  }

  lemma ValidBodyPrefix(body: seq<Bytes>, more: seq<Bytes>)
    requires ValidBody(body + more)
    ensures ValidBody(body)
  {
    assert forall i | 0 <= i < |body| :: (body + more)[..i] == body[..i] && (body + more)[i] == body[i];
  }

  predicate BodyIsValid(content: Bytes, bodyStart: nat) {
    && LinesBetween(content, bodyStart, |content|).Some?
    && ValidBody(LinesBetween(content, bodyStart, |content|).value)
  }

  /** The payload is acceptable exactly when its body lines are, given its VERSION line. */
  lemma ValidByBody(content: Bytes, bodyStart: nat)
    requires StrictLineContentEnd(content, 0) == Some(bodyStart - 2) && 2 <= bodyStart <= |content|
    requires ValidVersionLine(content[..bodyStart - 2])
    ensures ValidCapabilities(content) <==> BodyIsValid(content, bodyStart)
  {
    var version, rest := content[0..bodyStart - 2], LinesBetween(content, bodyStart, |content|);
    assert CrlfLines(content) == Prepend([version], rest);
    if rest.Some? { assert ([version] + rest.value)[1..] == rest.value; }
  }

  /** One step of the validating loop, seen from the specification. */
  lemma BodyStep(content: Bytes, bodyStart: nat, offset: nat, body: seq<Bytes>)
    requires bodyStart <= offset < |content| && LinesBetween(content, bodyStart, offset) == Some(body)
    ensures match StrictLineContentEnd(content, offset)
            case None => LinesBetween(content, bodyStart, |content|).None?
            case Some(end) =>
              var line := content[offset..end];
              && end + 2 <= |content| && LinesBetween(content, bodyStart, end + 2) == Some(body + [line])
              && (BodyIsValid(content, bodyStart) ==> ValidBody(body + [line]))
  {
    hide StrictLineContentEnd, ValidBody;
    LinesJoin(content, bodyStart, offset, |content|);
    OneLine(content, offset, |content|);
    match StrictLineContentEnd(content, offset)
    case None =>
    case Some(end) =>
      LinesJoin(content, bodyStart, offset, end + 2);
      LinesJoin(content, bodyStart, end + 2, |content|);
      var rest := LinesBetween(content, end + 2, |content|);
      if rest.Some? && ValidBody(body + [content[offset..end]] + rest.value) {
        ValidBodyPrefix(body + [content[offset..end]], rest.value);
      }
  }

  lemma BodyIsLabelled(body: seq<Bytes>)
    requires ValidBody(body)
    ensures forall l | l in body :: SplitWsToken(l).Some?
  {
    hide SplitWsToken, LabelSeen, ValidKeyword;
    forall l | l in body ensures SplitWsToken(l).Some? {
      var i :| 0 <= i < |body| && body[i] == l;
      assert ValidBodyLine(body[..i], body[i]);
    }
  }

  method ValidateBodyLine(content: Bytes, bodyStart: nat, offset: nat, line: Bytes) returns (r: bool)
    requires bodyStart <= offset <= |content| && LinesBetween(content, bodyStart, offset).Some?
    requires ValidBody(LinesBetween(content, bodyStart, offset).value)
    ensures r <==> ValidBodyLine(LinesBetween(content, bodyStart, offset).value, line)
  {
    hide BareDot, ValidBody, EqIgnoreCase, ValidKeyword, Ascii;
    if BareDot(line) || !ValidCapabilityLine(line) {
      return false;
    }
    var name := SplitWsToken(line).value.0;
    if !ValidKeyword(name) {
      return true;
    }
    if EqIgnoreCase(name, Ascii("VERSION")) {
      return false;
    }
    BodyIsLabelled(LinesBetween(content, bodyStart, offset).value);
    LabelledLinesAll(content, bodyStart, offset);
    var seen := CapabilityLabelSeen(content, bodyStart, offset, name);
    return !seen;
  }

  /** The validating loop: the VERSION line, then each body line against those before it. */
  method ValidateCapabilities(content: Bytes) returns (r: bool)
    ensures r <==> ValidCapabilities(content)
  {
    hide ValidBodyLine, ValidVersionLine;
    var versionEnd := StrictLineContentEnd(content, 0);
    if versionEnd.None? {
      return false;
    }
    var bodyStart := versionEnd.value + 2;
    if !ValidVersionLine(content[..versionEnd.value]) {
      assert content[0..versionEnd.value] == content[..versionEnd.value];
      return false;
    }
    ValidByBody(content, bodyStart);
    var offset := bodyStart;
    ghost var body: seq<Bytes> := [];
    while offset < |content|
      invariant bodyStart <= offset <= |content|
      invariant LinesBetween(content, bodyStart, offset) == Some(body)
      invariant ValidBody(body)
    {
      BodyStep(content, bodyStart, offset, body);
      var lineEnd := StrictLineContentEnd(content, offset);
      if lineEnd.None? {
        return false;
      }
      var line := content[offset..lineEnd.value];
      ValidBodySnoc(body, line);
      var good := ValidateBodyLine(content, bodyStart, offset, line);
      if !good {
        return false;
      }
      body := body + [line];
      offset := lineEnd.value + 2;
    }
    return true;
  }

  /** Parsing: validate, then collect an entry per keyword-labelled line. */
  method ParseCapabilityList(content: Bytes) returns (r: Option<seq<CapabilityEntry>>)
    ensures r == ParseCapabilities(content)
  {
    var valid := ValidateCapabilities(content);
    if !valid {
      return None;
    }
    var entries: seq<CapabilityEntry> := [];
    var offset := 0;
    ghost var lines: seq<Bytes> := [];
    while offset < |content|
      invariant 0 <= offset <= |content|
      invariant LinesBetween(content, 0, offset) == Some(lines)
      invariant entries == Entries(lines)
    {
      LinesJoin(content, 0, offset, |content|);
      OneLine(content, offset, |content|);
      var lineEnd := StrictLineContentEnd(content, offset).value;
      var line := content[offset..lineEnd];
      LinesJoin(content, 0, offset, lineEnd + 2);
      assert (lines + [line])[..|lines|] == lines;
      var entry := EntryOf(line);
      if entry.Some? {
        entries := entries + [entry.value];
      }
      lines := lines + [line];
      offset := lineEnd + 2;
    }
    return Some(entries);
  }
}
