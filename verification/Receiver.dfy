/** The incremental response receiver: a streaming decoder fed with whatever the socket
    returns, an accumulated buffer, and the extraction of exactly one frame. */
module Receiver {
  import opened Wire
  import opened Lines
  import opened Protocol
  import opened Terminator
  import opened Frames

  datatype DecodeProgress =
    | DecodeError
    | DecodeNeedMore(consumed: nat)
    | DecodeComplete(status: nat, consumed: nat, bodyContentEnd: Option<nat>)

  /** How the initial line stands after a push. */
  datatype LineOutcome = LineRefused | LineOpen | LineSingle(code: nat) | LineMultiline

  lemma EmptyIsOpen(kind: RequestKind)
    ensures ParseInitial(kind, []).InitialNeedMore?
  {
  }

  lemma Regroup(prior: Bytes, chunk: Bytes, n: nat)
    requires n <= |chunk|
    ensures prior + chunk == prior + chunk[..n] + chunk[n..]
  {
  }

  /** A line that one byte completes ends with that byte. */
  lemma ClosesHere(kind: RequestKind, open: Bytes, line: Bytes)
    requires |line| == |open| + 1 && open == line[..|open|]
    requires ParseInitial(kind, open).InitialNeedMore? && ParseInitial(kind, line).InitialComplete?
    ensures LineEnd(line) == CompleteAt(|line|)
  {
    hide FramingOf, ValidInitialLine, ParseInitialArticle, IsArticleResponse, StatusOf, InitialLineLimit;
    assert line == open + [line[|open|]];
    assert LineEnd(open) == LineStatus.NeedMore;
    LineEndBeyond(open, [line[|open|]]);
  }

  /** Decodes one response of a known kind, chunk by chunk. `seen` is all that was pushed. */
  class StreamingResponseDecoder {
    const kind: RequestKind
    var status: Option<nat>
    var statusLineEnd: nat
    const framer: MultilineFramer
    const statusBuf: array<byte>
    var statusLen: nat
    ghost var seen: Bytes

    ghost function Repr(): set<object> reads this, framer {
      {this, framer, framer.emptyTerminator, framer.tail, framer.tail.data, statusBuf}
    }

    ghost predicate Valid()
      reads this, framer, framer.emptyTerminator, framer.tail, framer.tail.data, statusBuf
    {
      && statusBuf.Length == MAX_AUTHINFO_SASL_RESPONSE_LINE_BYTES && statusLen <= statusBuf.Length
      && framer.tail.data != statusBuf
      && framer.Valid()
      && (status.None? ==> framer.seen == [] && OpenLine(statusBuf[..statusLen]) && seen == statusBuf[..statusLen])
      && (status.Some? ==> statusLineEnd == statusLen && ClosedLine(statusBuf[..statusLen], status.value)
                           && seen == statusBuf[..statusLen] + framer.seen)
    }

    /** The initial line is still undecided. */
    ghost predicate OpenLine(line: Bytes) { ParseInitial(kind, line).InitialNeedMore? }

    /** The initial line is complete and announces a multi-line block. */
    ghost predicate ClosedLine(line: Bytes, code: nat) {
      && LineEnd(line) == CompleteAt(|line|)
      && ParseInitial(kind, line).InitialComplete?
      && ParseInitial(kind, line).status == code && ParseInitial(kind, line).framing == Multiline
    }

    constructor (kind: RequestKind)
      ensures Valid() && this.kind == kind && seen == [] && fresh(Repr())
    {
      this.kind := kind;
      status := None;
      statusLineEnd := 0;
      framer := new MultilineFramer();
      statusBuf := new byte[MAX_AUTHINFO_SASL_RESPONSE_LINE_BYTES];
      statusLen := 0;
      seen := [];
      EmptyIsOpen(kind);
      hide ParseInitial;
      new;
      assert statusBuf[..0] == [];
    }

    /** Pushing a chunk gives the stateless verdict on everything pushed so far. */
    method Push(chunk: Bytes) returns (r: DecodeProgress)
      requires Valid()
      modifies Repr()
      ensures match Frame(kind, old(seen) + chunk)
              case Partial => r == DecodeNeedMore(|chunk|) && Valid() && seen == old(seen) + chunk
              case Refuse => r == DecodeError
              case Framed(code, lineEnd, contentEnd, frameEnd) =>
                && |old(seen)| < frameEnd && statusLineEnd == lineEnd
                && r == DecodeComplete(code, frameEnd - |old(seen)|,
                                       if frameEnd == lineEnd then None else Some(contentEnd - lineEnd))
    {
      hide Frame, ParseInitial, LineEnd, FirstDotLine;
      var contentStart := 0;
      if status.None? {
        var lineDone, consumed := PushStatusLine(chunk);
        match lineDone {
          case LineRefused => return DecodeError;
          case LineOpen => return DecodeNeedMore(|chunk|);
          case LineSingle(code) => return DecodeComplete(code, consumed, None);
          case LineMultiline =>
            contentStart := consumed;
        }
      }
      Regroup(old(seen), chunk, contentStart);
      assert seen == old(seen) + chunk[..contentStart];
      r := PushBody(chunk, contentStart);
    }

    /** The byte-by-byte part: one more byte into the status buffer, one more parse. */
    method PushStatusLine(chunk: Bytes) returns (v: LineOutcome, consumed: nat)
      requires Valid() && status.None?
      modifies this, statusBuf
      ensures consumed <= |chunk|
      ensures var all := old(seen) + chunk;
              match v
              case LineRefused => Frame(kind, all) == Refuse
              case LineOpen => Frame(kind, all) == Partial && Valid() && seen == all
              case LineSingle(code) =>
                var end := |old(seen)| + consumed;
                consumed > 0 && statusLineEnd == end && Frame(kind, all) == Framed(code, end, end, end)
              case LineMultiline => Valid() && status.Some? && seen == old(seen) + chunk[..consumed]
    {
      hide Frame, ParseInitial, LineEnd;
      ghost var prior := seen;
      consumed := 0;
      while consumed < |chunk|
        invariant consumed <= |chunk| && statusLen == |prior| + consumed <= statusBuf.Length
        invariant statusBuf[..statusLen] == prior + chunk[..consumed]
        invariant OpenLine(statusBuf[..statusLen])
        invariant status.None? && framer.Valid() && framer.seen == []
      {
        ghost var open := statusBuf[..statusLen];
        StatusBufferSuffices(kind, open);
        // The capacity check of the status buffer can therefore never fail here.
        assert statusLen < statusBuf.Length;
        statusBuf[statusLen] := chunk[consumed];
        statusLen := statusLen + 1;
        consumed := consumed + 1;
        var line := statusBuf[..statusLen];
        assert line == open + [chunk[consumed - 1]];
        assert line == prior + chunk[..consumed];
        Regroup(prior, chunk, consumed);
        var initial := ParseInitial(kind, line);
        match initial {
          case InitialComplete(code, framing, _) =>
            ClosesHere(kind, open, line);
            FrameFromInitial(kind, line, chunk[consumed..]);
            status := Some(code);
            statusLineEnd := statusLen;
            if framing != Multiline {
              return LineSingle(code), consumed;
            }
            seen := line;
            return LineMultiline, consumed;
          case InitialNeedMore =>
          case InitialInvalid =>
            InitialStable(kind, line, chunk[consumed..]);
            FrameWhileInitialOpen(kind, prior + chunk);
            return LineRefused, consumed;
        }
      }
      seen := statusBuf[..statusLen];
      assert chunk[..consumed] == chunk;
      FrameWhileInitialOpen(kind, seen);
      return LineOpen, consumed;
    }

    /** The block after the initial line goes to the framer. */
    method PushBody(chunk: Bytes, contentStart: nat) returns (r: DecodeProgress)
      requires Valid() && status.Some? && contentStart <= |chunk|
      modifies Repr()
      ensures var f := Frame(kind, old(seen) + chunk[contentStart..]);
              match f
              case Partial => r == DecodeNeedMore(|chunk|) && Valid() && seen == old(seen) + chunk[contentStart..]
              case Refuse => false
              case Framed(code, lineEnd, contentEnd, frameEnd) =>
                && |old(seen)| < frameEnd && lineEnd < frameEnd && statusLineEnd == lineEnd
                && r == DecodeComplete(code, contentStart + frameEnd - |old(seen)|, Some(contentEnd - lineEnd))
    {
      hide Frame, ParseInitial, LineEnd, FirstDotLine;
      ghost var line, body, rest := statusBuf[..statusLen], framer.seen, chunk[contentStart..];
      FrameFromInitial(kind, line, body + rest);
      Assoc(line, body, rest);
      if contentStart >= |chunk| {
        assert rest == [] && body + rest == body && seen + rest == seen;
        return DecodeNeedMore(|chunk|);
      }
      var progress := framer.Push(chunk[contentStart..]);
      match progress {
        case FrameComplete(chunkConsumed, contentEnd) =>
          return DecodeComplete(status.value, contentStart + chunkConsumed, Some(contentEnd));
        case FrameNeedMore =>
          seen := seen + rest;
          return DecodeNeedMore(|chunk|);
      }
    }
  }

  datatype Extraction = ExtractError | ExtractNothing | Extracted(response: Response, rest: Bytes)

  /** Remembers how much of the accumulated buffer the streaming decoder has already seen,
      and translates its chunk coordinates into buffer coordinates. */
  class ResponseDecoder {
    const streaming: StreamingResponseDecoder
    var scanned: nat

    ghost function Repr(): set<object> reads this, streaming, streaming.framer { {this} + streaming.Repr() }

    ghost predicate Valid()
      reads this, streaming, streaming.framer, streaming.framer.emptyTerminator, streaming.framer.tail,
            streaming.framer.tail.data, streaming.statusBuf
    {
      streaming.Valid() && scanned == |streaming.seen|
    }

    constructor (kind: RequestKind)
      ensures Valid() && streaming.kind == kind && scanned == 0 && fresh(Repr())
    {
      streaming := new StreamingResponseDecoder(kind);
      scanned := 0;
    }

    /** Extracts the frame at the front of `pending` exactly when the stateless framing
        finds one there; bytes already scanned are not scanned again. */
    method ExtractFramed(pending: Bytes) returns (r: Extraction)
      requires Valid() && streaming.seen <= pending
      modifies Repr()
      ensures match Frame(streaming.kind, pending)
              case Partial => r == ExtractNothing && Valid() && streaming.seen == pending
              case Refuse => r == ExtractError
              case Framed(status, lineEnd, contentEnd, frameEnd) =>
                r == Extracted(Response(streaming.kind, status, lineEnd, contentEnd, pending[..frameEnd]), pending[frameEnd..])
    {
      hide Frame;
      var start := scanned;
      var chunk := pending[start..];
      scanned := |pending|;
      assert streaming.seen + chunk == pending;
      var progress := streaming.Push(chunk);
      match progress {
        case DecodeError => return ExtractError;
        case DecodeNeedMore(_) => return ExtractNothing;
        case DecodeComplete(status, consumed, bodyContentEnd) =>
          var frameEnd := start + consumed;
          var lineEnd := streaming.statusLineEnd;
          var contentEnd := if bodyContentEnd.Some? then lineEnd + bodyContentEnd.value else lineEnd;
          return Extracted(Response(streaming.kind, status, lineEnd, contentEnd, pending[..frameEnd]), pending[frameEnd..]);
      }
    }
  }

  datatype Outcome = Ok(response: Response) | ConnectionClosed | UnexpectedEof | ReadFailed | InvalidStatusLine | Cancelled

  /** What one read of the socket returns: bytes (none at the end of input) or an error. */
  datatype Read = Got(bytes: Bytes) | ReadError

  /** Why no further bytes come: end of input, a failed read, or a dropped call. */
  datatype Stop = AtEof | AtError | Dropped

  /** The next read returns bytes. */
  predicate GivesBytes(input: seq<Read>) { input != [] && input[0].Got? && input[0].bytes != [] }

  /** Everything that can still be read, up to the end of input or a failed read, in at most
      `polls` reads. */
  function Readable(input: seq<Read>, polls: nat): (r: Bytes) {
    if polls == 0 || !GivesBytes(input) then [] else input[0].bytes + Readable(input[1..], polls - 1)
  }

  /** Everything that can still be read before the end of input or a failed read. */
  function Available(input: seq<Read>): (r: Bytes) {
    if !GivesBytes(input) then [] else input[0].bytes + Available(input[1..])
  }

  /** Why reading stops when it stops for want of bytes, in at most `polls` reads. */
  function StopOf(input: seq<Read>, polls: nat): (r: Stop) {
    if polls == 0 then Dropped
    else if GivesBytes(input) then StopOf(input[1..], polls - 1)
    else if input != [] && input[0].ReadError? then AtError
    else AtEof
  }

  /** One call of `receive`, as a function of the stateless delivery of all readable bytes. */
  function Verdict(g: Grammar, kind: RequestKind, bytes: Bytes, stop: Stop): (r: Outcome) {
    match Deliver(g, kind, bytes)
    case Delivered(response) => Ok(response)
    case DeliverReject => InvalidStatusLine
    case DeliverNeedMore => match stop { case AtEof => UnexpectedEof case AtError => ReadFailed case Dropped => Cancelled }
  }

  /** The frames at the front of a stream, one for each kind, as far as they can be delivered. */
  function Cut(g: Grammar, kinds: seq<RequestKind>, stream: Bytes): (r: seq<Response>)
    ensures |r| <= |kinds|
  {
    if kinds == [] then []
    else
      match Deliver(g, kinds[0], stream)
      case Delivered(response) => [response] + Cut(g, kinds[1..], stream[|response.bytes|..])
      case _ => []
  }

  function FrameBytes(frames: seq<Response>): (r: Bytes) {
    if frames == [] then [] else FrameBytes(frames[..|frames| - 1]) + frames[|frames| - 1].bytes
  }

  lemma FrameBytesSnoc(frames: seq<Response>, r: Response)
    ensures FrameBytes(frames + [r]) == FrameBytes(frames) + r.bytes
  {
    assert (frames + [r])[..|frames|] == frames;
  }

  lemma CutStep(g: Grammar, kinds: seq<RequestKind>, i: nat, stream: Bytes, first: Response, rest: Bytes)
    requires i < |kinds| && Deliver(g, kinds[i], stream) == Delivered(first) && stream == first.bytes + rest
    ensures Cut(g, kinds[i..], stream) == [first] + Cut(g, kinds[i + 1..], rest)
  {
    hide Deliver;
    assert kinds[i..][1..] == kinds[i + 1..];
    assert stream[|first.bytes|..] == rest;
  }

  lemma {:induction false} ReadableAll(input: seq<Read>, polls: nat)
    requires polls > |input|
    ensures Readable(input, polls) == Available(input) && !StopOf(input, polls).Dropped?
  {
    if input != [] {
      ReadableAll(input[1..], polls - 1);
    }
  }

  /** The outcome in store for a receiver with this buffer, these reads and this patience. */
  function Outlook(g: Grammar, kind: RequestKind, pending: Bytes, input: seq<Read>, polls: nat): (r: Outcome) {
    Verdict(g, kind, pending + Readable(input, polls), StopOf(input, polls))
  }

  /** A decided buffer settles the outcome; an undecided one passes it on to the next read. */
  lemma OutlookStep(g: Grammar, kind: RequestKind, pending: Bytes, input: seq<Read>, polls: nat)
    ensures var v := Outlook(g, kind, pending, input, polls);
            match Deliver(g, kind, pending)
            case Delivered(response) => v == Ok(response)
            case DeliverReject => v == InvalidStatusLine
            case DeliverNeedMore =>
              if polls == 0 then v == Cancelled
              else if GivesBytes(input) then v == Outlook(g, kind, pending + input[0].bytes, input[1..], polls - 1)
              else if input != [] && input[0].ReadError? then v == ReadFailed
              else v == UnexpectedEof
  {
    hide Deliver;
    if !Deliver(g, kind, pending).DeliverNeedMore? {
      DeliverStable(g, kind, pending, Readable(input, polls));
    } else if polls == 0 || !GivesBytes(input) {
      assert pending + [] == pending;
    } else {
      Assoc(pending, input[0].bytes, Readable(input[1..], polls - 1));
    }
  }

  lemma ReadMore(pending: Bytes, input: seq<Read>)
    requires GivesBytes(input)
    ensures pending + input[0].bytes + Available(input[1..]) == pending + Available(input)
  {
    Assoc(pending, input[0].bytes, Available(input[1..]));
  }

  /** Semantic checks made on an extracted frame. */
  predicate Acceptable(g: Grammar, r: Response) {
    || IsArticleResponse(r.kind, r.status)
    || FramingOf(r.kind, r.status) != Multiline
    || (r.lineEnd <= |r.bytes| && ValidContent(g, r.kind, r.bytes[..r.lineEnd], ContentOf(r)))
    || (r.kind.Capabilities? && r.status == 101)
  }

  lemma DeliverByFrame(g: Grammar, kind: RequestKind, buf: Bytes)
    ensures match Frame(kind, buf)
            case Partial => Deliver(g, kind, buf) == DeliverNeedMore
            case Refuse => Deliver(g, kind, buf) == DeliverReject
            case Framed(status, lineEnd, contentEnd, frameEnd) =>
              var r := Response(kind, status, lineEnd, contentEnd, buf[..frameEnd]);
              Deliver(g, kind, buf) == if Acceptable(g, r) then Delivered(r) else DeliverReject
  {
    hide Frame, FramingOf, ValidContent, IsArticleResponse;
    match Frame(kind, buf)
    case Framed(status, lineEnd, contentEnd, frameEnd) =>
      assert buf[..frameEnd][..lineEnd] == buf[..lineEnd];
      assert buf[..frameEnd][lineEnd..contentEnd] == buf[lineEnd..contentEnd];
    case _ =>
  }

  /** Frame extraction followed by the semantic checks. */
  method Extract(g: Grammar, decoder: ResponseDecoder, pending: Bytes) returns (r: Extraction)
    requires decoder.Valid() && decoder.streaming.seen <= pending
    modifies decoder.Repr()
    ensures match Deliver(g, decoder.streaming.kind, pending)
            case DeliverNeedMore => r == ExtractNothing && decoder.Valid() && decoder.streaming.seen == pending
            case DeliverReject => r == ExtractError
            case Delivered(response) => r == Extracted(response, pending[|response.bytes|..])
  {
    hide Deliver, Frame, Acceptable;
    DeliverByFrame(g, decoder.streaming.kind, pending);
    r := decoder.ExtractFramed(pending);
    if r.Extracted? && !Acceptable(g, r.response) {
      r := ExtractError;
    }
  }

  /** Accumulated input and the reads still to come. `input` holds what each further read
      of the socket will return. */
  class BufferedResponseReceiver {
    const g: Grammar
    var input: seq<Read>
    var pending: Bytes
    var ready: bool

    constructor (g: Grammar, input: seq<Read>)
      ensures this.g == g && this.input == input && pending == [] && ready
    {
      this.g := g;
      this.input := input;
      pending := [];
      ready := true;
    }

    /** Receives one response, giving up after `polls` reads if the caller drops the call.
        The outcome depends only on the bytes, not on how they were split over reads; a
        delivered frame is cut off and nothing else is consumed; after any other outcome
        the receiver refuses every later call without touching its state. */
    method Receive(kind: RequestKind, polls: nat) returns (r: Outcome)
      modifies this
      ensures !old(ready) ==> r == ConnectionClosed && !ready && pending == old(pending) && input == old(input)
      ensures old(ready) ==>
                r == Verdict(g, kind, old(pending) + Readable(old(input), polls), StopOf(old(input), polls))
      ensures ready <==> r.Ok?
      ensures r.Ok? ==> r.response.bytes + pending + Available(input) == old(pending) + Available(old(input))
    {
      hide Deliver, Verdict, Available, ResponseDecoder.Valid, StreamingResponseDecoder.Valid, MultilineFramer.Valid;
      if !ready {
        return ConnectionClosed;
      }
      ready := false;
      var decoder := new ResponseDecoder(kind);
      var left := polls;
      ghost var goal, everything := Outlook(g, kind, pending, input, left), pending + Available(input);
      while true
        invariant decoder.Valid() && fresh(decoder.Repr()) && decoder.streaming.kind == kind
        invariant decoder.streaming.seen <= pending
        invariant goal == Outlook(g, kind, pending, input, left)
        invariant everything == pending + Available(input)
        invariant !ready
        decreases left
      {
        var extraction := Extract(g, decoder, pending);
        OutlookStep(g, kind, pending, input, left);
        match extraction {
          case ExtractError =>
            return InvalidStatusLine;
          case Extracted(response, rest) =>
            SplitAt(pending, |response.bytes|);
            Assoc(response.bytes, rest, Available(input));
            pending := rest;
            ready := true;
            return Ok(response);
          case ExtractNothing =>
        }
        if left == 0 {
          return Cancelled;
        }
        if input != [] && input[0].ReadError? {
          return ReadFailed;
        }
        if !GivesBytes(input) {
          return UnexpectedEof;
        }
        ReadMore(pending, input);
        pending, input, left := pending + input[0].bytes, input[1..], left - 1;
      }
    }

    /** Repeated receives cut the input into consecutive frames, the same ones however the
        bytes arrive, and whatever is left stays in front of the bytes still to come. */
    method ReceiveEach(kinds: seq<RequestKind>) returns (frames: seq<Response>)
      requires ready
      modifies this
      ensures frames == Cut(g, kinds, old(pending) + Available(old(input)))
      ensures ready <==> |frames| == |kinds|
      ensures ready ==> FrameBytes(frames) + pending + Available(input) == old(pending) + Available(old(input))
    {
      hide Deliver, Available;
      frames := [];
      ghost var total := pending + Available(input);
      var i := 0;
      while i < |kinds|
        invariant 0 <= i <= |kinds| && ready && |frames| == i
        invariant total == FrameBytes(frames) + (pending + Available(input))
        invariant Cut(g, kinds, total) == frames + Cut(g, kinds[i..], pending + Available(input))
      {
        ghost var stream := pending + Available(input);
        ReadableAll(input, |input| + 1);
        var r := Receive(kinds[i], |input| + 1);
        if !r.Ok? {
          return;
        }
        assert stream == r.response.bytes + (pending + Available(input)) by {
          Assoc(r.response.bytes, pending, Available(input));
        }
        CutStep(g, kinds, i, stream, r.response, pending + Available(input));
        FrameBytesSnoc(frames, r.response);
        Assoc(FrameBytes(frames), r.response.bytes, pending + Available(input));
        frames := frames + [r.response];
        i := i + 1;
      }
      Assoc(FrameBytes(frames), pending, Available(input));
    }
  }

  lemma FreshDecoder(decoder: ResponseDecoder)
    requires decoder.Valid() && decoder.scanned == 0
    ensures decoder.streaming.seen == []
  {
  }

  lemma EmptyDelivers(g: Grammar, kind: RequestKind)
    ensures Deliver(g, kind, []).DeliverNeedMore?
  {
    EmptyIsOpen(kind);
    FrameWhileInitialOpen(kind, []);
  }

  /** Feeding a response in pieces of any size ends with the stateless verdict on it. */
  method ReceiveFragments(g: Grammar, kind: RequestKind, response: Bytes, chunkBytes: nat) returns (r: Outcome)
    ensures r == Verdict(g, kind, response, AtEof)
  {
    hide Deliver, ResponseDecoder.Valid, StreamingResponseDecoder.Valid, MultilineFramer.Valid;
    var size := if chunkBytes == 0 then 1 else chunkBytes;
    var decoder := new ResponseDecoder(kind);
    FreshDecoder(decoder);
    EmptyDelivers(g, kind);
    var pending: Bytes := [];
    while |pending| < |response|
      invariant decoder.Valid() && fresh(decoder.Repr()) && decoder.streaming.kind == kind
      invariant decoder.streaming.seen <= pending <= response
      invariant Deliver(g, kind, pending).DeliverNeedMore?
      decreases |response| - |pending|
    {
      var next := if |pending| + size < |response| then |pending| + size else |response|;
      pending := response[..next];
      var extraction := Extract(g, decoder, pending);
      if !Deliver(g, kind, pending).DeliverNeedMore? {
        SplitAt(response, next);
        DeliverStable(g, kind, pending, response[next..]);
      }
      match extraction {
        case ExtractError => return InvalidStatusLine;
        case Extracted(delivered, _) => return Ok(delivered);
        case ExtractNothing =>
      }
    }
    assert pending == response;
    return UnexpectedEof;
  }
}
