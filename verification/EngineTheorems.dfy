/** What holds in every reachable state of the connection engine, and over every run. */
module EngineTheorems {
  import opened Wire
  import opened Protocol
  import opened Frames
  import opened Engine
  import opened EngineInvariant
  import opened EngineSteps
  import DotStuffing

  ghost predicate Reachable(c: Config, s: State) { exists steps :: Run(c, Init(), steps) == Some(s) }

  lemma ReachableInv(c: Config, s: State)
    requires Reachable(c, s)
    ensures Inv(c, s)
  {
    hide Inv, Run;
    var steps :| Run(c, Init(), steps) == Some(s);
    InitInv(c);
    RunKeeps(c, Init(), steps);
  }

  // ----- every response goes to its request -----

  /** A client that sends one request at a time: each takes its answer from the front of what
      is left of the stream, and the first that finds none ends it. */
  function Replies(g: Grammar, reqs: seq<Req>, stream: Bytes): (done: seq<Exchange>)
    ensures |done| <= |reqs|
  {
    if reqs == [] then []
    else
      match Answer(g, reqs[0], stream)
      case None => []
      case Some(frames) => [Exchange(reqs[0], frames)] + Replies(g, reqs[1..], stream[Size(frames)..])
  }

  lemma RepliesCons(g: Grammar, r: Req, rest: seq<Req>, stream: Bytes, frames: seq<Response>)
    requires Answer(g, r, stream) == Some(frames)
    ensures Replies(g, [r] + rest, stream) == [Exchange(r, frames)] + Replies(g, rest, stream[Size(frames)..])
  {
    hide Answer, Size;
    assert ([r] + rest)[1..] == rest;
  }

  lemma {:induction false} ServedLeads(g: Grammar, done: seq<Exchange>, rest: seq<Req>, sent: Bytes)
    requires Served(g, done, sent) && Total(done) <= |sent|
    ensures Replies(g, ReqsOf(done) + rest, sent) == done + Replies(g, rest, sent[Total(done)..])
  {
    hide Answer, Size, Replies;
    if done == [] {
      assert ReqsOf(done) + rest == rest;
    } else {
      var before, x := done[..|done| - 1], done[|done| - 1];
      var at := Total(before);
      ServedLeads(g, before, [x.req] + rest, sent);
      assert ReqsOf(done) + rest == ReqsOf(before) + ([x.req] + rest);
      SliceSlice(sent, at, Size(x.frames));
      RepliesCons(g, x.req, rest, sent[at..], x.frames);
    }
  }

  /** The settled exchanges are what the one-at-a-time client gets for the same requests from
      the same bytes, so far as the reader has come. */
  predicate AnsweredInOrder(g: Grammar, admitted: seq<Req>, b: Inbox) { b.done <= Replies(g, admitted, b.sent) }

  /** Pipelining does not show: in every reachable state each settled request has exactly the
      response it would have had from the same peer bytes if every request, in order of
      admission, had been sent only after the one before was answered. */
  lemma EachRequestGetsItsResponse(c: Config, s: State)
    requires Reachable(c, s)
    ensures AnsweredInOrder(c.g, s.admitted, s.inbox)
  {
    hide Answer, Served, CallersOk, Hold, Alone, Shape, Written, Scripted, Handoff, Backed, Quiet, Deliver, Line, WellFormed, Replies;
    ReachableInv(c, s);
    ServedLeads(c.g, s.inbox.done, Line(s.inbox.reader, s.pipe), s.inbox.sent);
  }

  /** And once nothing is unsettled that client would have got nothing more. */
  lemma AllRequestsAnswered(c: Config, s: State)
    requires Reachable(c, s) && Line(s.inbox.reader, s.pipe) == []
    ensures s.inbox.done == Replies(c.g, s.admitted, s.inbox.sent)
  {
    hide Answer, Served, CallersOk, Hold, Alone, Shape, Written, Scripted, Handoff, Backed, Quiet, Deliver, Line, WellFormed, Replies;
    ReachableInv(c, s);
    ServedLeads(c.g, s.inbox.done, [], s.inbox.sent);
  }

  // ----- a list that cannot be read -----

  /** The response that framing cuts off. */
  function Cut(kind: RequestKind, buf: Bytes): (r: Response)
    requires Frame(kind, buf).Framed?
  {
    var f := Frame(kind, buf);
    Response(kind, f.status, f.lineEnd, f.contentEnd, buf[..f.frameEnd])
  }

  /** Whatever its content, a framed 101 is the whole answer to CAPABILITIES. */
  lemma FramedListIsAnswer(g: Grammar, r: Req, stream: Bytes)
    requires r.kind.Capabilities? && r.article.None? && Frame(r.kind, stream).Framed? && Frame(r.kind, stream).status == 101
    ensures Answer(g, r, stream) == Some([Cut(r.kind, stream)])
  {
    hide Frame, FramingOf, ValidContent, IsArticleResponse, Deliver;
    DeliverRejects(g, r.kind, stream);
  }

  lemma ReaderIsWellFormed(s: State)
    requires Ordered(s) && s.inbox.reader.First?
    ensures WellFormed(s.inbox.reader.req)
  {
    hide WellFormed, Committed, Ahead;
    assert s.admitted[|s.inbox.done|] == s.inbox.reader.req;
  }

  lemma ListIsTaken(c: Config, s: State, t: State)
    requires !s.failed && s.inbox.reader.First? && s.inbox.reader.req.kind.Capabilities? && s.inbox.reader.req.article.None?
    requires var kind := s.inbox.reader.req.kind; Frame(kind, Pending(s.inbox)).Framed? && Frame(kind, Pending(s.inbox)).status == 101
    requires var f := Cut(s.inbox.reader.req.kind, Pending(s.inbox));
             t == s.(inbox := s.inbox.(cut := s.inbox.cut + |f.bytes|, reader := Settle(s.inbox.reader.req, [f])))
    ensures Advance(c, s, Reject).None? && Advance(c, s, Receive(TakeFrame)) == Some(t)
  {
    hide Frame, FramingOf, ValidContent, IsArticleResponse, Deliver;
    DeliverRejects(c.g, s.inbox.reader.req.kind, Pending(s.inbox));
  }

  /** A framed 101, readable or not, settles its CAPABILITIES request with that one frame and
      without failure; it replaces the stored list if it can be read and leaves it otherwise. */
  lemma FramedListSettles(c: Config, s: State)
    requires Reachable(c, s) && !s.failed && s.inbox.reader.First? && s.inbox.reader.req.kind.Capabilities?
    requires var kind := s.inbox.reader.req.kind; Frame(kind, Pending(s.inbox)).Framed? && Frame(kind, Pending(s.inbox)).status == 101
    ensures Advance(c, s, Reject).None?
    ensures var req := s.inbox.reader.req;
            var f := Cut(req.kind, Pending(s.inbox));
            var list := Capabilities.ParseCapabilities(ContentOf(f));
            Run(c, s, [Receive(TakeFrame), Receive(SettleRequest)])
              == Some(s.(inbox := s.inbox.(cut := s.inbox.cut + |f.bytes|, done := s.inbox.done + [Exchange(req, [f])],
                                           caps := if list.Some? then list else s.inbox.caps, reader := Close(req, f))))
  {
    hide Reachable, Frame, FramingOf, ValidContent, IsArticleResponse, Deliver, Ordered, CallersOk, Hold, Alone, Shape, Counted, WillWake,
      Written, Scripted, Handoff, Reading, Backed, Quiet, Capabilities.ParseCapabilities, ContentOf;
    var req := s.inbox.reader.req;
    ReachableInv(c, s);
    ReaderIsWellFormed(s);
    var f := Cut(req.kind, Pending(s.inbox));
    var t := s.(inbox := s.inbox.(cut := s.inbox.cut + |f.bytes|, reader := Settle(req, [f])));
    ListIsTaken(c, s, t);
    var first, both := [Receive(TakeFrame)], [Receive(TakeFrame), Receive(SettleRequest)];
    assert first[..0] == [] && both[..1] == first;
    assert Run(c, s, first) == Some(t);
  }

  // ----- what is on the wire -----

  /** An exchange has a second frame exactly when its request has an article and the first
      frame asks for it. */
  predicate FramesFit(x: Exchange) {
    && x.frames != []
    && |x.frames| == if x.req.article.Some? && AcceptsArticle(x.req.kind, x.frames[0].status) then 2 else 1
  }

  lemma AnswerFits(g: Grammar, r: Req, stream: Bytes, frames: seq<Response>)
    requires Answer(g, r, stream) == Some(frames)
    ensures FramesFit(Exchange(r, frames))
  {
    hide Deliver, AcceptsArticle;
  }

  lemma {:induction false} ServedFits(g: Grammar, done: seq<Exchange>, sent: Bytes)
    requires Served(g, done, sent)
    ensures forall i | 0 <= i < |done| :: FramesFit(done[i])
  {
    hide Answer, FramesFit;
    if done != [] {
      var before, x := done[..|done| - 1], done[|done| - 1];
      ServedFits(g, before, sent);
      AnswerFits(g, x.req, sent[Total(before)..], x.frames);
      assert forall i | 0 <= i < |before| :: done[i] == before[i];
    }
  }

  lemma FlatNone()
    ensures Flat([]) == []
  {
  }

  lemma FlatOwed(items: seq<Item>, owed: seq<Item>)
    requires |owed| <= 1
    ensures Flat(items + owed) == Flat(items) + Flat(owed)
  {
    hide ItemBytes, Flat;
    FlatNone();
    if owed == [] {
      assert items + owed == items;
    } else {
      var i := owed[0];
      FlatSnoc(items, i);
      FlatSnoc([], i);
      assert owed == [i] && [] + [i] == [i];
    }
  }

  /** The bytes written, with those still to be written of what was committed, are the
      commands in order of admission, each followed by its article if and only if its own
      first response asked for one. */
  lemma WireIsScript(c: Config, s: State)
    requires Reachable(c, s)
    ensures s.pipe.out + Rest(s.pipe.writer) + Flat(Owed(s.pipe)) == Flat(Promised(s.inbox, s.pipe))
    ensures forall x <- s.inbox.done :: FramesFit(x)
    ensures ReqsOf(s.inbox.done) + OnWire(s.inbox.reader, s.pipe) <= s.admitted
  {
    hide CallersOk, Hold, Alone, Shape, Handoff, Backed, Quiet, Deliver, WellFormed, Answer, Served, FramesFit, Flat, Promised,
      OnWire, Ahead;
    ReachableInv(c, s);
    ServedFits(c.g, s.inbox.done, s.inbox.sent);
    FlatOwed(s.pipe.issued, Owed(s.pipe));
  }

  /** The place of an item: commands by number, an article right behind its command. */
  function Place(i: Item): (n: nat) {
    match i
    case Cmd(r) => 2 * r.id
    case Art(r) => 2 * r.id + 1
  }

  predicate Ascending(items: seq<Item>) { forall i, j | 0 <= i < j < |items| :: Place(items[i]) < Place(items[j]) }

  predicate Within(items: seq<Item>, from: nat, to: nat) { forall i | 0 <= i < |items| :: from <= Place(items[i]) < to }

  lemma AscendingAppend(a: seq<Item>, b: seq<Item>, n: nat, m: nat)
    requires Ascending(a) && Within(a, 0, n) && Ascending(b) && Within(b, n, m) && n <= m
    ensures Ascending(a + b) && Within(a + b, 0, m)
  {
    hide Place;
  }

  lemma {:induction false} ScriptAscends(done: seq<Exchange>)
    requires forall i | 0 <= i < |done| :: done[i].req.id == i
    ensures Ascending(Script(done)) && Within(Script(done), 0, 2 * |done|)
  {
    if done != [] {
      var before, x := done[..|done| - 1], done[|done| - 1];
      ScriptAscends(before);
      AscendingAppend(Script(before), ItemsOf(x.req, |x.frames|), 2 * |before|, 2 * |done|);
    }
  }

  lemma {:induction false} CommandsAscend(reqs: seq<Req>, n: nat)
    requires forall i | 0 <= i < |reqs| :: reqs[i].id == n + i
    ensures Ascending(Commands(reqs)) && Within(Commands(reqs), 2 * n, 2 * (n + |reqs|))
  {
    var items := Commands(reqs);
    forall i, j | 0 <= i < j < |items| ensures Place(items[i]) < Place(items[j]) {
      assert items[i] == Cmd(reqs[i]) && items[j] == Cmd(reqs[j]);
    }
  }

  /** The numbers of the requests, where they stand. */
  lemma NumbersInOrder(s: State)
    requires Ordered(s)
    ensures forall i | 0 <= i < |s.inbox.done| :: s.inbox.done[i].req.id == i
    ensures Front(s.inbox.reader) != [] ==> s.inbox.reader.req.id == |s.inbox.done|
    ensures var later := Committed(s.pipe);
            forall i | 0 <= i < |later| :: later[i].id == |s.inbox.done| + |Front(s.inbox.reader)| + i
  {
    hide WellFormed, Committed, Ahead;
    var done, rd, later := s.inbox.done, s.inbox.reader, Committed(s.pipe);
    var n := |done|;
    forall i | 0 <= i < n ensures done[i].req.id == i { assert s.admitted[i] == ReqsOf(done)[i]; }
    if Front(rd) != [] { assert s.admitted[n] == Line(rd, s.pipe)[0] == rd.req; }
    forall i | 0 <= i < |later| ensures later[i].id == n + |Front(rd)| + i {
      assert Line(rd, s.pipe)[|Front(rd)| + i] == later[i];
      assert s.admitted[n + (|Front(rd)| + i)] == later[i];
    }
  }

  lemma HeadAscends(rd: Reader, n: nat)
    requires Front(rd) != [] ==> rd.req.id == n
    ensures Ascending(HeadItems(rd)) && Within(HeadItems(rd), 2 * n, 2 * (n + |Front(rd)|))
  {
  }

  /** The writer commits each command once, in order of admission, and an article at most
      once, right behind its own command. */
  lemma CommittedInOrder(c: Config, s: State)
    requires Reachable(c, s)
    ensures Ascending(s.pipe.issued)
  {
    hide Ordered, CallersOk, Hold, Alone, Shape, Written, Handoff, Backed, Quiet, Deliver, Reading, Script, Commands, Committed,
      Front, HeadItems, Ahead, Owed, Place, Within;
    ReachableInv(c, s);
    NumbersInOrder(s);
    var done, rd, later := s.inbox.done, s.inbox.reader, Committed(s.pipe);
    var n, m := |done|, |done| + |Front(rd)|;
    ScriptAscends(done);
    HeadAscends(rd, n);
    AscendingAppend(Script(done), HeadItems(rd), 2 * n, 2 * m);
    CommandsAscend(later, m);
    AscendingAppend(Script(done) + HeadItems(rd), Commands(later), 2 * m, 2 * (m + |later|));
    assert s.pipe.issued == Promised(s.inbox, s.pipe)[..|s.pipe.issued|];
  }

  predicate HasTwoFrames(b: Inbox, r: Req) {
    || (exists i :: 0 <= i < |b.done| && b.done[i].req == r && |b.done[i].frames| == 2)
    || (b.reader.Second? && b.reader.req == r)
    || (b.reader.Settle? && b.reader.req == r && |b.reader.frames| == 2)
  }

  predicate AsksFor(r: Req, f: Response) { r.article.Some? && AcceptsArticle(r.kind, f.status) }

  /** The peer's first response to this request was received and asks for its article. */
  predicate AskedFor(b: Inbox, r: Req) {
    || (exists i :: 0 <= i < |b.done| && b.done[i].req == r && b.done[i].frames != [] && AsksFor(r, b.done[i].frames[0]))
    || (b.reader.Second? && b.reader.req == r && AsksFor(r, b.reader.first))
    || (b.reader.Settle? && b.reader.req == r && b.reader.frames != [] && AsksFor(r, b.reader.frames[0]))
  }

  lemma TwoFramesAsked(g: Grammar, b: Inbox, r: Req)
    requires Reading(g, b) && HasTwoFrames(b, r)
    ensures AskedFor(b, r)
  {
    hide Deliver, Served, Answer, AcceptsArticle;
    ServedFits(g, b.done, b.sent);
    if i :| 0 <= i < |b.done| && b.done[i].req == r && |b.done[i].frames| == 2 {
      assert FramesFit(b.done[i]);
    } else if b.reader.Settle? {
      AnswerFits(g, r, b.sent[Total(b.done)..], b.reader.frames);
    }
  }

  lemma {:induction false} ScriptArticle(done: seq<Exchange>, j: nat)
    requires j < |Script(done)| && Script(done)[j].Art?
    ensures j > 0 && Script(done)[j - 1] == Cmd(Script(done)[j].req)
    ensures exists i :: 0 <= i < |done| && done[i].req == Script(done)[j].req && |done[i].frames| == 2
  {
    var before, x := done[..|done| - 1], done[|done| - 1];
    if j < |Script(before)| {
      ScriptArticle(before, j);
      var i :| 0 <= i < |before| && before[i].req == Script(before)[j].req && |before[i].frames| == 2;
      assert done[i] == before[i];
    } else {
      assert x == done[|done| - 1];
    }
  }

  lemma PromisedArticle(b: Inbox, p: Pipe, j: nat)
    requires j < |Promised(b, p)| && Promised(b, p)[j].Art?
    ensures j > 0 && Promised(b, p)[j - 1] == Cmd(Promised(b, p)[j].req)
    ensures HasTwoFrames(b, Promised(b, p)[j].req)
  {
    hide Script, Committed;
    var n := |Script(b.done)|;
    if j < n { ScriptArticle(b.done, j); }
  }

  /** Article bytes go out only when the peer's response to that very request asked for the
      article, and right behind its command. */
  lemma ArticleOnlyWhenAsked(c: Config, s: State, j: nat)
    requires Reachable(c, s) && j < |s.pipe.issued| && s.pipe.issued[j].Art?
    ensures j > 0 && s.pipe.issued[j - 1] == Cmd(s.pipe.issued[j].req)
    ensures AskedFor(s.inbox, s.pipe.issued[j].req)
  {
    hide Ordered, CallersOk, Hold, Alone, Shape, Written, Handoff, Backed, Quiet, Deliver, Reading, Promised, AskedFor, HasTwoFrames, Owed;
    ReachableInv(c, s);
    var items := Promised(s.inbox, s.pipe);
    assert items == s.pipe.issued + Owed(s.pipe);
    assert items[j] == s.pipe.issued[j];
    PromisedArticle(s.inbox, s.pipe, j);
    TwoFramesAsked(c.g, s.inbox, items[j].req);
    assert items[j - 1] == s.pipe.issued[j - 1];
  }

  // ----- who may share the connection -----

  /** An exclusive request on the wire is the only unsettled one, and stays so: the request
      before it has its whole response, and none is admitted behind it. */
  lemma ExclusiveIsAlone(c: Config, s: State, r: Req)
    requires Reachable(c, s) && r in OnWire(s.inbox.reader, s.pipe) && IsExclusive(r.kind)
    ensures Line(s.inbox.reader, s.pipe) == [r] && s.admitted == ReqsOf(s.inbox.done) + [r]
    ensures s.callers.barrier == Carried(r.id)
  {
    hide CallersOk, Shape, Written, Scripted, Handoff, Backed, Quiet, Deliver, Reading, OnWire, Line, WellFormed, IsExclusive, RequiresBarrier;
    ReachableInv(c, s);
    WireLeadsLine(s.inbox.reader, s.pipe);
    CoordinationFacts(r.kind);
    var wire := OnWire(s.inbox.reader, s.pipe);
    var i :| 0 <= i < |wire| && wire[i] == r;
    assert Line(s.inbox.reader, s.pipe)[i] == r;
  }

  /** Nothing is admitted behind a request that forbids it until that one is settled. */
  lemma NothingBehindBarrier(c: Config, s: State, i: nat)
    requires Reachable(c, s) && |s.inbox.done| <= i < |s.admitted| && RequiresBarrier(s.admitted[i].kind)
    ensures i == |s.admitted| - 1 && s.callers.barrier == Carried(i)
  {
    hide CallersOk, Alone, Shape, Written, Scripted, Handoff, Backed, Quiet, Deliver, Reading, Line, WellFormed, RequiresBarrier;
    ReachableInv(c, s);
    assert s.admitted[i] == Line(s.inbox.reader, s.pipe)[i - |s.inbox.done|];
  }

  /** A batch written in one go has at most 64 commands, and more than one only if none of
      them is exclusive or large; a request is held back only for being so. */
  lemma BatchesAreCoalesced(c: Config, s: State)
    requires Reachable(c, s)
    ensures s.pipe.writer.Writing? ==>
              var batch := s.pipe.writer.batch;
              1 <= |batch| <= 64 && (|batch| > 1 ==> forall r <- batch :: !IsExclusive(r.kind) && !r.large)
    ensures s.pipe.held.Some? ==> IsExclusive(s.pipe.held.value.kind) || s.pipe.held.value.large
  {
    hide Ordered, CallersOk, Hold, Alone, Written, Scripted, Handoff, Backed, Quiet, Deliver, Reading, Line, OnWire, IsExclusive;
    ReachableInv(c, s);
  }

  /** The counter is the number of requests between the writer's count and the end of their
      response: the one to hand over, those handed over, and the one the reader has. So it is
      never below zero, and a parked writer always has a wake-up to come. */
  lemma CounterIsExact(c: Config, s: State)
    requires Reachable(c, s)
    ensures s.pipe.inflight == |s.pipe.chan| + Busy(s.inbox.reader) + (if s.pipe.writer.SendInflight? then 1 else 0)
    ensures s.pipe.inflight >= 0
    ensures s.pipe.inflight == 0 <==> s.pipe.chan == [] && Busy(s.inbox.reader) == 0 && !s.pipe.writer.SendInflight?
    ensures s.pipe.writer.WaitIdle? && s.pipe.writer.stage == Park(Waiting) ==> s.pipe.inflight > 0 || s.inbox.reader == Notify
  {
    hide Ordered, CallersOk, Hold, Alone, Shape, Written, Scripted, Handoff, Backed, Quiet, Deliver, Reading, Line, OnWire;
    ReachableInv(c, s);
  }

  // ----- the capability list -----

  /** The exchange empties the list. */
  predicate Clears(x: Exchange) {
    Final(x).Some? && x.req.invalidate && ResponseInvalidatesCapabilities(x.req.kind, Final(x).value.status)
  }

  /** The last exchange with a list in it came with this one, and none since empties it. */
  predicate LastListIs(done: seq<Exchange>, list: CapabilityList) {
    exists i :: 0 <= i < |done| && ListOf(done[i]) == Some(list) && forall j | i < j < |done| :: ListOf(done[j]).None? && !Clears(done[j])
  }

  lemma StoreOneMeans(caps: Option<CapabilityList>, x: Exchange)
    requires WellFormed(x.req)
    ensures StoreOne(caps, x) == if Clears(x) then None else if ListOf(x).Some? then ListOf(x) else caps
  {
    hide Capabilities.ParseCapabilities, ContentOf;
  }

  lemma ListClears(x: Exchange)
    requires WellFormed(x.req) && ListOf(x).Some?
    ensures !Clears(x)
  {
    hide Capabilities.ParseCapabilities, ContentOf;
  }

  /** The stored list, without running through the exchanges. */
  lemma {:induction false} CapsAfterIsLast(done: seq<Exchange>, list: CapabilityList)
    requires forall i | 0 <= i < |done| :: WellFormed(done[i].req)
    ensures CapsAfter(done) == Some(list) <==> LastListIs(done, list)
  {
    hide WellFormed, ListOf, Clears, StoreOne;
    if done != [] {
      var n := |done| - 1;
      var before, x := done[..n], done[n];
      CapsAfterIsLast(before, list);
      StoreOneMeans(CapsAfter(before), x);
      if ListOf(x).Some? { ListClears(x); }
      if LastListIs(before, list) && ListOf(x).None? && !Clears(x) {
        var i :| 0 <= i < |before| && ListOf(before[i]) == Some(list) && forall j | i < j < |before| :: ListOf(before[j]).None? && !Clears(before[j]);
        assert done[i] == before[i];
        assert LastListIs(done, list);
      }
      if LastListIs(done, list) {
        var i :| 0 <= i < |done| && ListOf(done[i]) == Some(list) && forall j | i < j < |done| :: ListOf(done[j]).None? && !Clears(done[j]);
        if i < n { assert before[i] == done[i] && forall j | i < j < n :: before[j] == done[j]; }
      }
    }
  }

  /** When each settled request that needs a list was settled, one was stored. */
  predicate ListBehindEach(done: seq<Exchange>) {
    forall i | 0 <= i < |done| && RequiresCapabilities(done[i].req.kind) :: CapsAfter(done[..i]).Some?
  }

  /** Every request that needs the peer's capabilities has a list behind it that was received
      before it was sent and not emptied until it is settled. */
  lemma ListBehindEveryRequest(c: Config, s: State)
    requires Reachable(c, s)
    ensures forall r <- Line(s.inbox.reader, s.pipe) :: RequiresCapabilities(r.kind) ==> s.inbox.caps.Some?
    ensures ListBehindEach(s.inbox.done)
  {
    hide Ordered, CallersOk, Hold, Alone, Shape, Written, Scripted, Handoff, Quiet, Deliver, Reading, Line, RequiresCapabilities, CapsAfter;
    ReachableInv(c, s);
  }

  /** The stored list is the last one received, unless a response since has emptied it. */
  lemma StoredListIsLast(c: Config, s: State)
    requires Reachable(c, s)
    ensures forall list :: s.inbox.caps == Some(list) <==> LastListIs(s.inbox.done, list)
  {
    hide CallersOk, Hold, Alone, Shape, Written, Scripted, Handoff, Quiet, Deliver, Reading, Line, WellFormed, RequiresCapabilities,
      CapsAfter, LastListIs;
    ReachableInv(c, s);
    var done := s.inbox.done;
    forall i | 0 <= i < |done| ensures WellFormed(done[i].req) { assert s.admitted[i] == ReqsOf(done)[i]; }
    forall list ensures s.inbox.caps == Some(list) <==> LastListIs(done, list) { CapsAfterIsLast(done, list); }
  }

  // ----- the end of the session -----

  lemma QuietWriter(depth: nat, p: Pipe, a: WriterAction)
    requires WriterStep(depth, p, a).Some? && Ahead(p) == [] && (p.writer == Top || p.writer == Dispatch([]))
    ensures var q := WriterStep(depth, p, a).value; q == p.(writer := Top)
  {
    hide DotStuffing.Encode, WireOf, Commands, TakeFirst, IsExclusive;
  }

  /** Once a QUIT is settled with 205 the session is over for every further step. */
  lemma QuietStep(c: Config, s: State, step: Step, t: State)
    requires Inv(c, s) && Ended(s.inbox) && Advance(c, s, step) == Some(t)
    ensures Ended(t.inbox)
    ensures t.pipe.out == s.pipe.out && t.pipe.issued == s.pipe.issued && t.admitted == s.admitted && t.inbox.done == s.inbox.done
  {
    hide Ordered, CallersOk, Hold, Alone, Written, Scripted, Handoff, Reading, Backed, Deliver, CallerStep, IsExclusive,
      StoreTransition, RequiresBarrier, AcceptsArticle, CollectStep, SendStep;
    LineParts(s.inbox.reader, s.pipe);
    match step
    case WriterTask(a) => QuietWriter(c.depth, s.pipe, a);
    case _ =>
  }

  lemma {:induction false} QuietRun(c: Config, s: State, steps: seq<Step>)
    requires Inv(c, s) && Ended(s.inbox) && Run(c, s, steps).Some?
    ensures var t := Run(c, s, steps).value;
            && Ended(t.inbox)
            && t.pipe.out == s.pipe.out && t.pipe.issued == s.pipe.issued && t.admitted == s.admitted && t.inbox.done == s.inbox.done
  {
    hide Inv, Advance, Ended;
    if steps != [] {
      var init := steps[..|steps| - 1];
      QuietRun(c, s, init);
      RunKeeps(c, s, init);
      QuietStep(c, Run(c, s, init).value, steps[|steps| - 1], Run(c, s, steps).value);
    }
  }

  /** After a QUIT that the peer answered with 205 no byte is written, no request admitted and
      none settled, whatever callers and the peer go on to do. */
  lemma NothingAfterQuit(c: Config, s: State, steps: seq<Step>, i: nat)
    requires Reachable(c, s) && i < |s.inbox.done| && IsQuit(s.inbox.done[i]) && Run(c, s, steps).Some?
    ensures i == |s.admitted| - 1 && OnWire(s.inbox.reader, s.pipe) == []
    ensures var t := Run(c, s, steps).value;
            t.pipe.out == s.pipe.out && t.pipe.issued == s.pipe.issued && t.admitted == s.admitted && t.inbox.done == s.inbox.done
  {
    hide CallersOk, Hold, Alone, Shape, Written, Scripted, Handoff, Backed, Deliver, Reading, WellFormed, Run, IsQuit;
    ReachableInv(c, s);
    QuietRun(c, s, steps);
  }

  // ----- nothing gets stuck -----

  /** Steps the engine takes of its own accord, without a new call, a dropped future, bytes
      from the peer or a failure. */
  predicate Internal(step: Step) {
    match step
    case Caller(a) => !(a.Call? || a.CallProbeFirst? || a.DropWaiting? || a.DropSender? || a.DropProbeWaiter? || a.DropProber?)
    case PeerSends(_) => false
    case Fail => false
    case _ => true
  }

  ghost predicate Stuck(c: Config, s: State) { forall step | Internal(step) :: Advance(c, s, step).None? }

  /** A caller waits or a task has something under way. */
  predicate HasWork(s: State) {
    || s.callers.waiting != multiset{} || s.callers.barrier != Free || s.callers.probeQueue != multiset{} || s.callers.probe != NoProbe
    || Line(s.inbox.reader, s.pipe) != [] || s.pipe.writer != Top || s.inbox.reader != Idle
  }

  /** The reader waits for a response, has read all the peer has sent, and everything the
      peer should have is written. */
  predicate PeerOwes(c: Config, s: State) {
    && Receiving(s.inbox.reader)
    && Deliver(c.g, s.inbox.reader.req.kind, Pending(s.inbox)).DeliverNeedMore?
    && s.inbox.read == |s.inbox.sent|
    && s.pipe.out == Flat(Promised(s.inbox, s.pipe))
  }

  lemma StuckReader(c: Config, s: State)
    requires Inv(c, s) && !s.failed && Stuck(c, s)
    ensures Receiving(s.inbox.reader) || (s.inbox.reader == Idle && s.pipe.chan == [])
    ensures Receiving(s.inbox.reader) ==> Deliver(c.g, s.inbox.reader.req.kind, Pending(s.inbox)).DeliverNeedMore? && s.inbox.read == |s.inbox.sent|
  {
    hide Ordered, CallersOk, Hold, Alone, Shape, Written, Scripted, Handoff, Backed, Quiet, Deliver, Served, Answer, StoreTransition,
      RequiresBarrier, AcceptsArticle, CallerStep, WriterStep;
    assert Advance(c, s, Receive(ReadSome(1))).None?;
    assert Advance(c, s, Receive(TakeFrame)).None?;
    assert Advance(c, s, Receive(SettleRequest)).None?;
    assert Advance(c, s, Receive(SetClosed)).None?;
    assert Advance(c, s, Pass(RecvInflight)).None?;
    assert Advance(c, s, Pass(SendSignal)).None?;
    assert Advance(c, s, Pass(ReleaseBarrier)).None?;
    assert Advance(c, s, Pass(EndInflight)).None?;
    assert Advance(c, s, Pass(NotifyIdle)).None?;
    assert Advance(c, s, Reject).None?;
  }

  lemma StuckCollect(p: Pipe)
    requires forall a | Collects(a) :: CollectStep(p, a).None?
    ensures p.writer == Top ==> p.held.None? && p.queue == []
    ensures p.writer.WaitIdle? ==> p.writer.stage == Park(Waiting)
    ensures !p.writer.Batching?
  {
    hide TakeFirst, StartWriting, Holds;
    assert CollectStep(p, Recv).None? by { assert Collects(Recv); }
    assert CollectStep(p, ArmWakeup).None? by { assert Collects(ArmWakeup); }
    assert CollectStep(p, CheckIdle).None? by { assert Collects(CheckIdle); }
    assert CollectStep(p, Unpark).None? by { assert Collects(Unpark); }
    assert CollectStep(p, Drain).None? by { assert Collects(Drain); }
    assert CollectStep(p, Flush).None? by { assert Collects(Flush); }
  }

  lemma StuckSend(depth: nat, p: Pipe)
    requires Shape(p) && forall a | !Collects(a) :: SendStep(depth, p, a).None?
    ensures !p.writer.Writing? && !p.writer.WritingArticle? && !p.writer.Dispatch?
    ensures p.writer.SendInflight? ==> |p.chan| >= depth
    ensures p.writer.AwaitProceed? ==> p.signal.None?
  {
    hide DotStuffing.Encode, IsExclusive;
    assert SendStep(depth, p, Write(1)).None? by { assert !Collects(Write(1)); }
    assert SendStep(depth, p, WriteDone).None? by { assert !Collects(WriteDone); }
    assert SendStep(depth, p, Begin).None? by { assert !Collects(Begin); }
    assert SendStep(depth, p, HandOver).None? by { assert !Collects(HandOver); }
    assert SendStep(depth, p, TakeSignal).None? by { assert !Collects(TakeSignal); }
    assert SendStep(depth, p, EndBatch).None? by { assert !Collects(EndBatch); }
  }

  lemma StuckWriter(c: Config, s: State)
    requires !s.failed && Stuck(c, s)
    ensures forall a | Collects(a) :: CollectStep(s.pipe, a).None?
    ensures forall a | !Collects(a) :: SendStep(c.depth, s.pipe, a).None?
  {
    hide CollectStep, SendStep, Collects;
    forall a | Collects(a) ensures CollectStep(s.pipe, a).None? { assert Advance(c, s, WriterTask(a)).None?; }
    forall a | !Collects(a) ensures SendStep(c.depth, s.pipe, a).None? { assert Advance(c, s, WriterTask(a)).None?; }
  }

  predicate Settled(k: Callers) {
    k.barrier == Free && k.waiting == multiset{} && k.probeQueue == multiset{} && k.probe == NoProbe
  }

  /** With writer and reader at rest, callers without a step to take have nothing left to do. */
  lemma StuckCallers(k: Callers, b: Inbox, admitted: nat)
    requires forall a | Internal(Caller(a)) :: CallerStep(k, b, a).None?
    requires !k.barrier.Carried? && !(k.barrier.Sender? && k.barrier.stage == Sending)
    requires CallersOk(k, admitted) && admitted == |b.done|
    ensures Settled(k)
  {
    hide AllWellFormed, ListsCapabilities, RequiresCapabilities;
    assert CallerStep(k, b, CheckClosed).None?;
    assert CallerStep(k, b, CheckCapabilities).None?;
    assert CallerStep(k, b, Release).None?;
    assert CallerStep(k, b, TakeBarrierForProbe).None?;
    assert CallerStep(k, b, ProbeCheck).None?;
    assert CallerStep(k, b, ProbeAnswered).None?;
    forall r ensures r !in k.waiting { assert CallerStep(k, b, TakeBarrier(r)).None?; }
    forall r ensures r !in k.probeQueue { assert CallerStep(k, b, TakeProbe(r)).None?; }
  }

  lemma StuckCaller(c: Config, s: State)
    requires !s.failed && Stuck(c, s)
    ensures forall a | Internal(Caller(a)) :: CallerStep(s.callers, s.inbox, a).None?
    ensures s.callers.barrier.Sender? && s.callers.barrier.stage == Sending ==> |s.pipe.queue| >= c.depth
  {
    hide CallerStep;
    forall a | Internal(Caller(a)) ensures CallerStep(s.callers, s.inbox, a).None? { assert Advance(c, s, Caller(a)).None?; }
    assert Advance(c, s, Enqueue).None?;
  }

  /** With the reader at rest the writer is, too. */
  lemma RestingWriter(c: Config, s: State)
    requires Inv(c, s) && !s.failed && Stuck(c, s) && c.depth > 0 && s.inbox.reader == Idle && s.pipe.chan == []
    ensures s.pipe.writer == Top && Line(s.inbox.reader, s.pipe) == []
  {
    hide Ordered, CallersOk, Hold, Alone, Written, Scripted, Backed, Quiet, Deliver, Reading, Stuck, IsExclusive, CollectStep, SendStep;
    StuckWriter(c, s);
    StuckCollect(s.pipe);
    StuckSend(c.depth, s.pipe);
  }

  lemma RestingQueue(s: State)
    requires Ordered(s) && Line(s.inbox.reader, s.pipe) == []
    ensures s.pipe.queue == [] && |s.admitted| == |s.inbox.done|
  {
    hide WellFormed;
  }

  /** The engine never waits on itself: in every reachable state in which it has work and no
      step of its own to take, a response is due from the peer, all the peer has sent is
      read, and everything the peer needs to respond is written. */
  lemma StuckMeansPeerOwes(c: Config, s: State)
    requires Reachable(c, s) && !s.failed && c.depth > 0 && Stuck(c, s) && HasWork(s)
    ensures PeerOwes(c, s)
  {
    hide Ordered, CallersOk, Alone, Shape, Handoff, Backed, Quiet, Deliver, Reading, Stuck, CollectStep, SendStep, CallerStep,
      Promised, Line, Flat, RequiresBarrier;
    ReachableInv(c, s);
    StuckReader(c, s);
    StuckWriter(c, s);
    StuckSend(c.depth, s.pipe);
    if Receiving(s.inbox.reader) {
      assert s.pipe.issued + Owed(s.pipe) == s.pipe.issued;
      assert s.pipe.out + Rest(s.pipe.writer) == s.pipe.out;
    } else {
      RestingWriter(c, s);
      StuckCaller(c, s);
      RestingQueue(s);
      StuckCallers(s.callers, s.inbox, |s.admitted|);
    }
  }
}
