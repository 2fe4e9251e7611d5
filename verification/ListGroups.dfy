/** The LISTGROUP payload check, as the loop over lines that it is. */
module ListGroups {
  import opened Wire
  import opened Lines
  import opened Text
  import opened Protocol
  import opened Frames
  import opened Capabilities

  /** One step of the loop, seen from the specification. */
  lemma LinesStep(content: Bytes, offset: nat, lines: seq<Bytes>)
    requires offset < |content| && LinesBetween(content, 0, offset) == Some(lines)
    ensures match StrictLineContentEnd(content, offset)
            case None => CrlfLines(content).None?
            case Some(end) =>
              var more := lines + [content[offset..end]];
              && end + 2 <= |content| && LinesBetween(content, 0, end + 2) == Some(more)
              && (CrlfLines(content).Some? ==> more <= CrlfLines(content).value)
  {
    hide StrictLineContentEnd;
    LinesJoin(content, 0, offset, |content|);
    OneLine(content, offset, |content|);
    match StrictLineContentEnd(content, offset)
    case None =>
    case Some(end) =>
      LinesJoin(content, 0, offset, end + 2);
      LinesJoin(content, 0, end + 2, |content|);
  }

  /** A further line keeps the numbers in order exactly when it passes the loop's checks. */
  lemma AscendingSnoc(lines: seq<Bytes>, line: Bytes, low: nat, high: nat)
    requires AscendingNumbers(lines, low, high)
    ensures AscendingNumbers(lines + [line], low, high) <==>
            && ResponseArticleNumber(line).Some? && 0 < ResponseArticleNumber(line).value
            && low <= ResponseArticleNumber(line).value <= high
            && (lines != [] ==> ResponseArticleNumber(lines[|lines| - 1]).value < ResponseArticleNumber(line).value)
  {
    hide ResponseArticleNumber;
    var more := lines + [line];
    assert more[|lines|] == line;
    assert forall i | 0 <= i < |lines| :: more[i] == lines[i];
  }

  lemma AscendingPrefix(lines: seq<Bytes>, all: seq<Bytes>, low: nat, high: nat)
    requires lines <= all && AscendingNumbers(all, low, high)
    ensures AscendingNumbers(lines, low, high)
  {
    hide ResponseArticleNumber;
    assert forall i | 0 <= i < |lines| :: lines[i] == all[i];
  }

  /** The number on a line when it may follow `previous` within the watermarks. */
  method CheckNumber(line: Bytes, low: nat, high: nat, previous: Option<nat>) returns (n: Option<nat>)
    ensures n.Some? ==> n == ResponseArticleNumber(line)
    ensures n.Some? <==>
            && !BareDot(line) && ResponseArticleNumber(line).Some? && 0 < ResponseArticleNumber(line).value
            && low <= ResponseArticleNumber(line).value <= high
            && (previous.Some? ==> previous.value < ResponseArticleNumber(line).value)
  {
    if BareDot(line) {
      return None;
    }
    n := ResponseArticleNumber(line);
    if n.None? || n.value == 0 || low > high || n.value < low || n.value > high || (previous.Some? && n.value <= previous.value) {
      return None;
    }
  }

  lemma NumberIsNoDot(line: Bytes)
    requires ResponseArticleNumber(line).Some?
    ensures !BareDot(line)
  {
    assert IsDigit(line[0]);
  }

  lemma Start(content: Bytes, low: nat, high: nat)
    ensures LinesBetween(content, 0, 0) == Some([]) && AscendingNumbers([], low, high)
  {
  }

  /** The LISTGROUP check: numbers within the watermarks, strictly ascending, and no more
      of them than the status line says. */
  method ValidateListGroup(statusLine: Bytes, content: Bytes) returns (r: bool)
    ensures r <==> ValidListGroup(statusLine, content)
  {
    hide ResponseArticleNumber, ParseGroupArguments, AscendingNumbers, LinesBetween, StrictLineContentEnd, BareDot;
    if |statusLine| < 6 || statusLine[|statusLine| - 2..] != CRLF {
      return false;
    }
    var arguments := ParseGroupArguments(statusLine[4..|statusLine| - 2]);
    if arguments.None? {
      return false;
    }
    var low, high := arguments.value.low, arguments.value.high;
    var previous: Option<nat> := None;
    var actual := 0;
    var offset := 0;
    ghost var lines: seq<Bytes> := [];
    Start(content, low, high);
    while offset < |content|
      invariant 0 <= offset <= |content|
      invariant LinesBetween(content, 0, offset) == Some(lines) && AscendingNumbers(lines, low, high)
      invariant actual == |lines|
      invariant previous.None? <==> lines == []
      invariant previous.Some? ==> previous == ResponseArticleNumber(lines[|lines| - 1])
    {
      LinesStep(content, offset, lines);
      var end := StrictLineContentEnd(content, offset);
      if end.None? {
        return false;
      }
      var line := content[offset..end.value];
      var number := CheckNumber(line, low, high, previous);
      AscendingSnoc(lines, line, low, high);
      if ResponseArticleNumber(line).Some? { NumberIsNoDot(line); }
      if number.None? {
        assert !ValidListGroup(statusLine, content) by {
          if ValidListGroup(statusLine, content) { AscendingPrefix(lines + [line], CrlfLines(content).value, low, high); }
        }
        return false;
      }
      lines := lines + [line];
      previous := number;
      actual := actual + 1;
      offset := end.value + 2;
    }
    return actual <= arguments.value.count || actual == 0;
  }
}
