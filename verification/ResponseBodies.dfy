/** Payloads as a server prints them, line by line, and which of them the client accepts. */
module ResponseBodies {
  import opened Wire
  import opened Lines
  import opened Text
  import opened Protocol
  import opened Capabilities
  import opened Frames
  import opened DotStuffing
  import opened ResponseLines

  // ----- lines -----

  lemma JoinCons(line: Bytes, lines: seq<Bytes>)
    ensures JoinCrlf([line] + lines) == line + CRLF + JoinCrlf(lines)
  {
    assert ([line] + lines)[1..] == lines;
  }

  lemma LineAt(before: Bytes, line: Bytes, rest: Bytes)
    requires Unbroken(line)
    ensures var d := before + (line + CRLF + rest);
            StrictLineContentEnd(d, |before|) == Some(|before| + |line|) && d[|before|..|before| + |line|] == line
  {
    hide StrictLineContentEnd;
    var d := before + (line + CRLF + rest);
    var e := |before| + |line|;
    assert d[|before|..e] == line;
    assert d[e] == CR && d[e + 1] == LF;
    ContentEndMeans(d, |before|, e);
  }

  lemma {:induction false} LinesReadBack(before: Bytes, lines: seq<Bytes>)
    requires AllUnbroken(lines)
    ensures var d := before + JoinCrlf(lines); LinesBetween(d, |before|, |d|) == Some(lines)
    decreases |lines|
  {
    hide StrictLineContentEnd, Unbroken;
    var d := before + JoinCrlf(lines);
    if lines == [] {
      assert JoinCrlf(lines) == [];
    } else {
      var line, more := lines[0], lines[1..];
      assert lines == [line] + more;
      JoinCons(line, more);
      LineAt(before, line, JoinCrlf(more));
      var next := before + (line + CRLF);
      assert d == next + JoinCrlf(more);
      LinesReadBack(next, more);
    }
  }

  lemma {:induction false} LinesMean(d: Bytes, from: nat, to: nat)
    requires from <= to <= |d| && LinesBetween(d, from, to).Some?
    ensures AllUnbroken(LinesBetween(d, from, to).value) && JoinCrlf(LinesBetween(d, from, to).value) == d[from..to]
    decreases |d| - from
  {
    hide StrictLineContentEnd;
    if from < to {
      var end := StrictLineContentEnd(d, from).value;
      assert end + 2 <= to;
      LinesMean(d, end + 2, to);
      JoinCons(d[from..end], LinesBetween(d, end + 2, to).value);
      assert d[from..to] == d[from..end] + CRLF + d[end + 2..to];
    }
  }

  /** A payload is read as lines if and only if it is these lines, none with a break in it,
      each followed by CRLF. */
  lemma LinesExactly(d: Bytes, lines: seq<Bytes>)
    ensures CrlfLines(d) == Some(lines) <==> AllUnbroken(lines) && d == JoinCrlf(lines)
  {
    hide LinesBetween, JoinCrlf, AllUnbroken;
    if CrlfLines(d).Some? {
      LinesMean(d, 0, |d|);
      assert d[0..|d|] == d;
    }
    if AllUnbroken(lines) && d == JoinCrlf(lines) {
      LinesReadBack([], lines);
      assert [] + JoinCrlf(lines) == JoinCrlf(lines);
    }
  }

  // ----- which lines are accepted -----

  lemma IdIsNoDot(id: Bytes)
    requires ValidMessageId(id)
    ensures !BareDot(id)
  {
  }

  /** The payloads of NEWNEWS and HELP, and of an unknown command, told by their lines. */
  lemma ContentByLines(g: Grammar, kind: RequestKind, statusLine: Bytes, lines: seq<Bytes>)
    requires AllUnbroken(lines)
    ensures var ok := ValidContent(g, kind, statusLine, JoinCrlf(lines));
            && (kind.NewNews? ==> (ok <==> forall line | line in lines :: ValidMessageId(line)))
            && (kind.Help? ==> (ok <==> forall line | line in lines :: !BareDot(line) && ValidUChars(line)))
            && (kind.Unknown? ==> (ok <==> forall line | line in lines :: !BareDot(line) && NoNul(line)))
  {
    hide CrlfLines, JoinCrlf, ValidMessageId, BareDot, ValidUChars, NoNul, ValidListGroup, ValidCapabilities;
    LinesExactly(JoinCrlf(lines), lines);
    forall line | line in lines && ValidMessageId(line) ensures !BareDot(line) { IdIsNoDot(line); }
  }

  // ----- LISTGROUP -----

  function Printed(numbers: seq<nat>): (lines: seq<Bytes>)
    ensures |lines| == |numbers| && forall i | 0 <= i < |lines| :: lines[i] == Digits(numbers[i])
  {
    seq(|numbers|, i requires 0 <= i < |numbers| => Digits(numbers[i]))
  }

  predicate AllNumbers(numbers: seq<nat>) { forall i | 0 <= i < |numbers| :: numbers[i] <= MAX_ARTICLE_NUMBER }

  lemma PrintedUnbroken(numbers: seq<nat>)
    ensures AllUnbroken(Printed(numbers))
  {
    hide Digits, DecimalValue;
    forall i | 0 <= i < |numbers| ensures Unbroken(Printed(numbers)[i]) { DigitsReadBack(numbers[i]); }
  }

  /** Numbers from a first to a last one, each larger than the one before. */
  predicate Ascending(numbers: seq<nat>, low: nat, high: nat) {
    && (forall i | 0 <= i < |numbers| :: 0 < numbers[i] && low <= numbers[i] <= high)
    && forall i, j | 0 <= i < j < |numbers| :: numbers[i] < numbers[j]
  }

  lemma PrintedAscend(numbers: seq<nat>, low: nat, high: nat)
    requires AllNumbers(numbers)
    ensures AscendingNumbers(Printed(numbers), low, high) <==> Ascending(numbers, low, high)
  {
    hide Digits, ResponseArticleNumber;
    var lines := Printed(numbers);
    forall i | 0 <= i < |numbers| ensures ResponseArticleNumber(lines[i]) == Some(numbers[i]) {
      ResponseNumberReadsBack(numbers[i]);
    }
  }

  lemma GroupLineParts(count: nat, low: nat, high: nat, group: Bytes, tail: Bytes)
    requires count <= MAX_ARTICLE_NUMBER && low <= MAX_ARTICLE_NUMBER && high <= MAX_ARTICLE_NUMBER
    requires Unspaced(group) && IsTail(tail)
    ensures var line := StatusLine(211, Phrase([Digits(count), Digits(low), Digits(high), group]) + tail);
            && |line| >= 6 && line[|line| - 2..] == CRLF
            && ParseGroupArguments(line[4..|line| - 2]) == Some(GroupArguments(count, low, high, group, tail))
  {
    hide Digits, Phrase, ParseGroupArguments, StatusLine;
    var words := [Digits(count), Digits(low), Digits(high), group];
    DigitsUnspaced(count);
    DigitsUnspaced(low);
    DigitsUnspaced(high);
    PhraseStarts(words, tail);
    GroupReadsBack(count, low, high, group, tail);
    StatusLineParts(211, Phrase(words) + tail);
  }

  /** A printed LISTGROUP response is accepted if and only if its numbers ascend from the
      first to the last that its status line names, and are no more than it says. */
  lemma ListGroupAccepted(g: Grammar, count: nat, low: nat, high: nat, group: Bytes, tail: Bytes, numbers: seq<nat>)
    requires count <= MAX_ARTICLE_NUMBER && low <= MAX_ARTICLE_NUMBER && high <= MAX_ARTICLE_NUMBER
    requires Unspaced(group) && IsTail(tail) && AllNumbers(numbers)
    ensures var line := StatusLine(211, Phrase([Digits(count), Digits(low), Digits(high), group]) + tail);
            ValidContent(g, RequestKind.ListGroup, line, JoinCrlf(Printed(numbers))) <==>
            Ascending(numbers, low, high) && |numbers| <= count
  {
    hide Digits, Phrase, ParseGroupArguments, StatusLine, CrlfLines, JoinCrlf, AscendingNumbers, Ascending, AllUnbroken;
    GroupLineParts(count, low, high, group, tail);
    PrintedUnbroken(numbers);
    LinesExactly(JoinCrlf(Printed(numbers)), Printed(numbers));
    PrintedAscend(numbers, low, high);
  }
}
