/** Stateless response framing and parsing: the specification side of the incremental
    receiver, and its stability under extension of the input. */
module Frames {
  import opened Wire
  import opened Lines
  import opened Text
  import opened Protocol
  import Capabilities

  /** Checks this model does not spell out: the listing formats and the article view. */
  datatype Grammar = Grammar(listing: (RequestKind, Bytes) -> bool, article: (RequestKind, Bytes) -> bool)

  predicate AllLines(content: Bytes, ok: Bytes -> bool) {
    && Capabilities.CrlfLines(content).Some?
    && forall line | line in Capabilities.CrlfLines(content).value :: !Capabilities.BareDot(line) && ok(line)
  }

  /** Article numbers of LISTGROUP lines: within the watermarks and strictly ascending. */
  predicate AscendingNumbers(lines: seq<Bytes>, low: nat, high: nat) {
    && (forall i | 0 <= i < |lines| ::
          ResponseArticleNumber(lines[i]).Some? && 0 < ResponseArticleNumber(lines[i]).value
          && low <= ResponseArticleNumber(lines[i]).value <= high)
    && (forall i, j | 0 <= i < j < |lines| ::
          ResponseArticleNumber(lines[i]).value < ResponseArticleNumber(lines[j]).value)
  }

  predicate ValidListGroup(statusLine: Bytes, content: Bytes) {
    && |statusLine| >= 6 && statusLine[|statusLine| - 2..] == CRLF
    && ParseGroupArguments(statusLine[4..|statusLine| - 2]).Some?
    && var a := ParseGroupArguments(statusLine[4..|statusLine| - 2]).value;
       && Capabilities.CrlfLines(content).Some?
       && var lines := Capabilities.CrlfLines(content).value;
          AscendingNumbers(lines, a.low, a.high) && (|lines| <= a.count || lines == [])
  }

  predicate NoNul(line: Bytes) { forall i | 0 <= i < |line| :: line[i] != 0 }

  /** Semantic content checks of non-article multi-line responses. */
  predicate ValidContent(g: Grammar, kind: RequestKind, statusLine: Bytes, content: Bytes) {
    match kind
    case ListGroup => ValidListGroup(statusLine, content)
    case Capabilities => Capabilities.ValidCapabilities(content)
    case NewNews => AllLines(content, ValidMessageId)
    case Help => AllLines(content, ValidUChars)
    case Unknown => AllLines(content, NoNul)
    case List | ListActive | ListActiveTimes | ListNewsgroups | ListOverviewFmt | ListHeaders | ListDistribPats
      | NewGroups | Over | Xover | Hdr | Xhdr => g.listing(kind, content)
    case _ => true
  }

  datatype Framing = Partial | Refuse | Framed(status: nat, lineEnd: nat, contentEnd: nat, frameEnd: nat)

  datatype Initial = InitialNeedMore | InitialInvalid
    | InitialComplete(status: nat, framing: ResponseFraming, article: Option<InitialArticle>)

  /** The initial line alone, as the streaming decoder parses it. */
  function ParseInitial(kind: RequestKind, buf: Bytes): (r: Initial) {
    var status := StatusOf(buf);
    match BoundedLineEnd(buf, InitialLineLimit(kind, status))
    case BoundedCompleteAt(end) =>
      if status.None? then InitialInvalid
      else if FramingOf(kind, status.value) == Unexpected then InitialInvalid
      else if IsArticleResponse(kind, status.value) then
        var article := ParseInitialArticle(buf[..end]);
        if article.None? then InitialInvalid else InitialComplete(status.value, FramingOf(kind, status.value), article)
      else if !ValidInitialLine(kind, status.value, buf[..end]) then InitialInvalid
      else InitialComplete(status.value, FramingOf(kind, status.value), None)
    case BoundedNeedMore => InitialNeedMore
    case BoundedInvalid => InitialInvalid
    case TooLong => InitialInvalid
  }

  /** Framing of what follows a complete initial line. */
  function FrameBody(kind: RequestKind, status: nat, line: Bytes, rest: Bytes): (r: Framing)
    ensures r.Framed? ==> r.status == status && |line| == r.lineEnd <= r.contentEnd <= r.frameEnd <= |line| + |rest|
    ensures r.Framed? ==> r.frameEnd == r.lineEnd || r.frameEnd == r.contentEnd + 3
  {
    if FramingOf(kind, status) == Unexpected then Refuse
    else if !ValidInitialLine(kind, status, line) then Refuse
    else if FramingOf(kind, status) == Multiline then
      match FirstDotLine(rest)
      case None => Partial
      case Some(e) => Framed(status, |line|, |line| + e - 3, |line| + e)
    else Framed(status, |line|, |line|, |line|)
  }

  /** Where the initial line and the frame end, or why that is not decided. */
  function Frame(kind: RequestKind, buf: Bytes): (r: Framing)
    ensures r.Framed? ==> 5 <= r.lineEnd <= r.contentEnd <= r.frameEnd <= |buf|
    ensures r.Framed? ==> r.frameEnd == r.lineEnd || r.frameEnd == r.contentEnd + 3
  {
    var status := StatusOf(buf);
    match BoundedLineEnd(buf, InitialLineLimit(kind, status))
    case BoundedCompleteAt(end) =>
      if status.None? || end < 5 then Refuse else FrameBody(kind, status.value, buf[..end], buf[end..])
    case BoundedNeedMore => Partial
    case BoundedInvalid => Refuse
    case TooLong => Refuse
  }

  datatype FrameParse = ParseNeedMore | ParseInvalid
    | ParseComplete(status: nat, contentStart: nat, contentEnd: nat, consumed: nat)

  /** Stateless parse of a whole response, content checks included. */
  function ParseFrame(g: Grammar, kind: RequestKind, buf: Bytes): (r: FrameParse) {
    match Frame(kind, buf)
    case Partial => ParseNeedMore
    case Refuse => ParseInvalid
    case Framed(status, lineEnd, contentEnd, frameEnd) =>
      var ok := if IsArticleResponse(kind, status) then g.article(kind, buf[..frameEnd])
                else FramingOf(kind, status) != Multiline || ValidContent(g, kind, buf[..lineEnd], buf[lineEnd..contentEnd]);
      if ok then ParseComplete(status, lineEnd, contentEnd, frameEnd) else ParseInvalid
  }

  /** One response handed to the client: the frame and its coordinates. */
  datatype Response = Response(kind: RequestKind, status: nat, lineEnd: nat, contentEnd: nat, bytes: Bytes)

  datatype Delivery = DeliverNeedMore | DeliverReject | Delivered(response: Response)

  function ContentOf(r: Response): (c: Bytes) {
    if r.lineEnd <= r.contentEnd <= |r.bytes| then r.bytes[r.lineEnd..r.contentEnd] else []
  }

  /** What the receiver hands over: article content is checked later, and a framed 101
      list is delivered even if its content is unusable. */
  function Deliver(g: Grammar, kind: RequestKind, buf: Bytes): (r: Delivery)
    ensures r.Delivered? ==> 0 < |r.response.bytes| <= |buf| && r.response.bytes == buf[..|r.response.bytes|]
  {
    match Frame(kind, buf)
    case Partial => DeliverNeedMore
    case Refuse => DeliverReject
    case Framed(status, lineEnd, contentEnd, frameEnd) =>
      if IsArticleResponse(kind, status) || FramingOf(kind, status) != Multiline
         || ValidContent(g, kind, buf[..lineEnd], buf[lineEnd..contentEnd]) || (kind.Capabilities? && status == 101)
      then Delivered(Response(kind, status, lineEnd, contentEnd, buf[..frameEnd]))
      else DeliverReject
  }

  /** A framed response is delivered, whole and with its coordinates, unless its content is
      checked here and found invalid; a CAPABILITIES 101 is never held back. */
  lemma DeliverRejects(g: Grammar, kind: RequestKind, buf: Bytes)
    requires Frame(kind, buf).Framed?
    ensures var f := Frame(kind, buf);
            && (Deliver(g, kind, buf).DeliverReject? <==>
                  && FramingOf(kind, f.status) == Multiline && !IsArticleResponse(kind, f.status)
                  && (kind, f.status) != (RequestKind.Capabilities, 101)
                  && !ValidContent(g, kind, buf[..f.lineEnd], buf[f.lineEnd..f.contentEnd]))
            && (!Deliver(g, kind, buf).DeliverReject? ==>
                  Deliver(g, kind, buf) == Delivered(Response(kind, f.status, f.lineEnd, f.contentEnd, buf[..f.frameEnd])))
  {
    hide Frame, FramingOf, ValidContent, IsArticleResponse;
  }

  /** The receiver and the stateless parser agree except on the two deferred checks. */
  lemma DeliverAgrees(g: Grammar, kind: RequestKind, buf: Bytes)
    ensures Deliver(g, kind, buf).DeliverNeedMore? <==> ParseFrame(g, kind, buf).ParseNeedMore?
    ensures ParseFrame(g, kind, buf).ParseComplete? ==>
              var p, d := ParseFrame(g, kind, buf), Deliver(g, kind, buf);
              d == Delivered(Response(kind, p.status, p.contentStart, p.contentEnd, buf[..p.consumed]))
    ensures Deliver(g, kind, buf).Delivered? && ParseFrame(g, kind, buf).ParseInvalid? ==>
              var status := Deliver(g, kind, buf).response.status;
              || (IsArticleResponse(kind, status) && !g.article(kind, Deliver(g, kind, buf).response.bytes))
              || (kind.Capabilities? && status == 101 && !Capabilities.ValidCapabilities(ContentOf(Deliver(g, kind, buf).response)))
  {
    hide Frame, FramingOf, ValidListGroup, AllLines, Capabilities.ValidCapabilities, IsArticleResponse;
    if Deliver(g, kind, buf).Delivered? {
      var r := Deliver(g, kind, buf).response;
      assert ContentOf(r) == buf[r.lineEnd..r.contentEnd];
    }
  }

  /** A refused or completed initial line has shown enough bytes for its status, or can
      never have one. */
  lemma DecidedStatus(kind: RequestKind, d: Bytes, more: Bytes)
    requires !BoundedLineEnd(d, InitialLineLimit(kind, StatusOf(d))).BoundedNeedMore?
    ensures StatusOf(d + more) == StatusOf(d)
  {
    LineEndMeans(d);
    if |d| < 3 {
      assert exists i | 0 <= i < |d| :: !IsDigit(d[i]);
      var i :| 0 <= i < |d| && !IsDigit(d[i]);
      assert (d + more)[i] == d[i];
    }
  }

  lemma InitialStable(kind: RequestKind, d: Bytes, more: Bytes)
    requires !ParseInitial(kind, d).InitialNeedMore?
    ensures ParseInitial(kind, d + more) == ParseInitial(kind, d)
  {
    hide FramingOf, ValidInitialLine, ParseInitialArticle, IsArticleResponse, BoundedLineEnd, StatusOf, InitialLineLimit;
    DecidedStatus(kind, d, more);
    var limit := InitialLineLimit(kind, StatusOf(d));
    BoundedStable(d, more, limit);
    match BoundedLineEnd(d, limit)
    case BoundedCompleteAt(end) =>
      AppendSlice(d, more, end);
    case _ =>
  }

  lemma FrameBodyStable(kind: RequestKind, status: nat, line: Bytes, rest: Bytes, more: Bytes)
    requires FrameBody(kind, status, line, rest) != Partial
    ensures FrameBody(kind, status, line, rest + more) == FrameBody(kind, status, line, rest)
  {
    hide FramingOf, ValidInitialLine;
    if FirstDotLine(rest).Some? { FirstDotLineStable(rest, more); }
  }

  /** Framing once the bounded line search is decided. */
  lemma FrameDecided(kind: RequestKind, buf: Bytes)
    ensures match BoundedLineEnd(buf, InitialLineLimit(kind, StatusOf(buf)))
            case BoundedCompleteAt(end) =>
              Frame(kind, buf) == if StatusOf(buf).None? || end < 5 then Refuse
                                  else FrameBody(kind, StatusOf(buf).value, buf[..end], buf[end..])
            case BoundedNeedMore => Frame(kind, buf) == Partial
            case BoundedInvalid => Frame(kind, buf) == Refuse
            case TooLong => Frame(kind, buf) == Refuse
  {
    hide FrameBody, BoundedLineEnd, StatusOf, InitialLineLimit;
  }

  /** Once a frame is complete, appending any bytes leaves it unchanged; once refused, the
      input stays refused. */
  lemma FrameStable(kind: RequestKind, d: Bytes, more: Bytes)
    requires Frame(kind, d) != Partial
    ensures Frame(kind, d + more) == Frame(kind, d)
  {
    hide Frame, FrameBody, BoundedLineEnd, StatusOf, InitialLineLimit, LineEnd;
    var status := StatusOf(d);
    var limit := InitialLineLimit(kind, status);
    FrameDecided(kind, d);
    FrameDecided(kind, d + more);
    DecidedStatus(kind, d, more);
    BoundedStable(d, more, limit);
    match BoundedLineEnd(d, limit)
    case BoundedCompleteAt(end) =>
      AppendSlice(d, more, end);
      if status.Some? && end >= 5 { FrameBodyStable(kind, status.value, d[..end], d[end..], more); }
    case _ =>
  }

  lemma ParseFrameStable(g: Grammar, kind: RequestKind, d: Bytes, more: Bytes)
    requires !ParseFrame(g, kind, d).ParseNeedMore?
    ensures ParseFrame(g, kind, d + more) == ParseFrame(g, kind, d)
  {
    hide Frame, FramingOf, ValidContent, IsArticleResponse;
    FrameStable(kind, d, more);
    if Frame(kind, d).Framed? {
      var f := Frame(kind, d);
      assert (d + more)[..f.frameEnd] == d[..f.frameEnd];
      assert (d + more)[..f.lineEnd] == d[..f.lineEnd];
      assert (d + more)[f.lineEnd..f.contentEnd] == d[f.lineEnd..f.contentEnd];
    }
  }

  lemma DeliverStable(g: Grammar, kind: RequestKind, d: Bytes, more: Bytes)
    requires !Deliver(g, kind, d).DeliverNeedMore?
    ensures Deliver(g, kind, d + more) == Deliver(g, kind, d)
  {
    hide Frame, FramingOf, ValidContent, IsArticleResponse;
    FrameStable(kind, d, more);
    if Frame(kind, d).Framed? {
      var f := Frame(kind, d);
      assert (d + more)[..f.frameEnd] == d[..f.frameEnd];
      assert (d + more)[..f.lineEnd] == d[..f.lineEnd];
      assert (d + more)[f.lineEnd..f.contentEnd] == d[f.lineEnd..f.contentEnd];
    }
  }

  /** An undecided initial line always fits the decoder's fixed status buffer. */
  lemma StatusBufferSuffices(kind: RequestKind, buf: Bytes)
    requires ParseInitial(kind, buf).InitialNeedMore?
    ensures |buf| < MAX_AUTHINFO_SASL_RESPONSE_LINE_BYTES
  {
  }

  lemma StatusLineLength(line: Bytes)
    requires LineEnd(line) == CompleteAt(|line|) && StatusOf(line).Some?
    ensures |line| >= 5
  {
    LineEndMeans(line);
  }

  lemma BodyFromInitial(kind: RequestKind, line: Bytes, body: Bytes)
    requires ParseInitial(kind, line).InitialComplete? && LineEnd(line) == CompleteAt(|line|)
    ensures var i := ParseInitial(kind, line);
            && StatusOf(line) == Some(i.status)
            && FrameBody(kind, i.status, line, body) ==
               if i.framing != Multiline then Framed(i.status, |line|, |line|, |line|)
               else match FirstDotLine(body) {
                 case None => Partial
                 case Some(e) => Framed(i.status, |line|, |line| + e - 3, |line| + e) }
  {
    hide FramingOf, ValidInitialLine, ParseInitialArticle, IsArticleResponse, StatusOf, InitialLineLimit, FirstDotLine, LineEnd;
    StatusLineLength(line);
    assert line[..|line|] == line;
    var status := StatusOf(line).value;
    if IsArticleResponse(kind, status) {
      InitialArticleAgrees(kind, status, line);
    }
  }

  /** Framing is the initial line followed by the search for the dot line. */
  lemma FrameFromInitial(kind: RequestKind, line: Bytes, body: Bytes)
    requires ParseInitial(kind, line).InitialComplete? && LineEnd(line) == CompleteAt(|line|)
    ensures var i := ParseInitial(kind, line);
            Frame(kind, line + body) ==
            if i.framing != Multiline then Framed(i.status, |line|, |line|, |line|)
            else match FirstDotLine(body) {
              case None => Partial
              case Some(e) => Framed(i.status, |line|, |line| + e - 3, |line| + e) }
  {
    hide Frame, FrameBody, FramingOf, ValidInitialLine, ParseInitialArticle, IsArticleResponse, StatusOf, InitialLineLimit,
      FirstDotLine, LineEnd;
    StatusLineLength(line);
    BodyFromInitial(kind, line, body);
    DecidedStatus(kind, line, body);
    BoundedStable(line, body, InitialLineLimit(kind, StatusOf(line)));
    FrameDecided(kind, line + body);
    AppendSlice(line, body, |line|);
    assert line[..|line|] == line && line[|line|..] + body == body;
  }

  /** While the initial line is open the frame is too, and a refused line is a refused frame. */
  lemma FrameWhileInitialOpen(kind: RequestKind, buf: Bytes)
    ensures ParseInitial(kind, buf).InitialNeedMore? ==> Frame(kind, buf) == Partial
    ensures ParseInitial(kind, buf).InitialInvalid? ==> Frame(kind, buf) == Refuse
  {
    hide FramingOf, ValidInitialLine, ParseInitialArticle, IsArticleResponse, StatusOf, InitialLineLimit, FirstDotLine;
    var status := StatusOf(buf);
    match BoundedLineEnd(buf, InitialLineLimit(kind, status))
    case BoundedCompleteAt(end) =>
      if status.Some? && IsArticleResponse(kind, status.value) && end >= 5 {
        InitialArticleAgrees(kind, status.value, buf[..end]);
      }
    case _ =>
  }
}
