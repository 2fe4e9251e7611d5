/** What every state of a run satisfies, stated over where each admitted request stands:
    settled, held by the reader, in the in-flight queue, with the writer, or still queued. */
module EngineInvariant {
  import opened Wire
  import opened Protocol
  import opened Frames
  import opened Engine
  import DotStuffing

  // ----- where a request stands -----

  /** The request the reader is receiving. */
  function Front(rd: Reader): (r: seq<Req>) {
    if rd.First? || rd.Go? || rd.Second? || rd.Settle? then [rd.req] else []
  }

  /** Requests the writer has committed to the wire and not handed over yet. */
  function Sent(w: Writer): (r: seq<Req>) {
    match w
    case Writing(batch, _) => batch
    case Dispatch(todo) => todo
    case SendInflight(todo) => todo
    case AwaitProceed(_, todo) => todo
    case WritingArticle(_, _, todo) => todo
    case _ => []
  }

  /** Requests the writer has taken and not committed yet. */
  function Taken(w: Writer): (r: seq<Req>) {
    match w
    case WaitIdle(first, _) => [first]
    case Batching(batch) => batch
    case _ => []
  }

  function HeldBack(held: Option<Req>): (r: seq<Req>) { if held.Some? then [held.value] else [] }

  /** Committed requests the reader has not taken over, oldest first. */
  function Committed(p: Pipe): (r: seq<Req>) { p.chan + Sent(p.writer) }

  /** Admitted requests not committed yet, oldest first. */
  function Ahead(p: Pipe): (r: seq<Req>) { Taken(p.writer) + HeldBack(p.held) + p.queue }

  /** Committed requests without a settled response, oldest first. */
  function OnWire(rd: Reader, p: Pipe): (r: seq<Req>) { Front(rd) + Committed(p) }

  /** All admitted requests without a settled response, oldest first. */
  function Line(rd: Reader, p: Pipe): (r: seq<Req>) { OnWire(rd, p) + Ahead(p) }

  function ReqsOf(done: seq<Exchange>): (r: seq<Req>)
    ensures |r| == |done| && forall i | 0 <= i < |done| :: r[i] == done[i].req
  {
    seq(|done|, i requires 0 <= i < |done| => done[i].req)
  }

  // ----- how steps move requests -----

  /** The first request of a round goes behind everything committed. */
  lemma TakeFirstMoves(p: Pipe, first: Req, q: Pipe)
    requires p.writer == Top && q == TakeFirst(p, first)
    ensures Committed(p) <= Committed(q)
    ensures Committed(q) + Ahead(q) == p.chan + ([first] + HeldBack(p.held) + p.queue)
  {
    hide WireOf, IsExclusive, Commands;
  }

  lemma RecvMoves(p: Pipe, q: Pipe)
    requires CollectStep(p, Recv) == Some(q)
    ensures Committed(q) + Ahead(q) == Committed(p) + Ahead(p) && Committed(p) <= Committed(q)
  {
    hide TakeFirst;
    if p.held.Some? { TakeFirstMoves(p.(held := None), p.held.value, q); }
    else { TakeFirstMoves(p.(queue := p.queue[1..]), p.queue[0], q); }
  }

  lemma DrainMoves(p: Pipe, q: Pipe)
    requires CollectStep(p, Drain) == Some(q) && p.held.None?
    ensures Committed(q) + Ahead(q) == Committed(p) + Ahead(p) && Committed(p) <= Committed(q)
  {
    hide WireOf, IsExclusive, Commands;
    if Holds(p.queue[0]) { assert Ahead(q) == [p.queue[0]] + q.queue; }
  }

  lemma FlushMoves(p: Pipe, q: Pipe)
    requires p.writer.Batching? && q == StartWriting(p, p.writer.batch)
    ensures Committed(q) + Ahead(q) == Committed(p) + Ahead(p) && Committed(p) <= Committed(q)
  {
    hide WireOf, Commands;
  }

  /** Waiting changes nothing but the stage. */
  lemma WaitMoves(p: Pipe, q: Pipe)
    requires p.writer.WaitIdle? && q.writer.WaitIdle? && q.writer.first == p.writer.first
    requires q.chan == p.chan && q.held == p.held && q.queue == p.queue
    ensures Committed(q) == Committed(p) && Ahead(q) == Ahead(p)
  {
  }

  lemma CheckIdleMoves(p: Pipe, q: Pipe)
    requires CollectStep(p, CheckIdle) == Some(q)
    ensures Committed(q) + Ahead(q) == Committed(p) + Ahead(p) && Committed(p) <= Committed(q)
  {
    hide WireOf, Commands;
    if p.inflight != 0 { WaitMoves(p, q); }
  }

  /** Collecting keeps the order of the unsettled requests; commits only add to the end. */
  lemma CollectMoves(p: Pipe, a: WriterAction, q: Pipe)
    requires CollectStep(p, a) == Some(q)
    requires p.writer.Batching? ==> p.held.None?
    ensures Committed(q) + Ahead(q) == Committed(p) + Ahead(p) && Committed(p) <= Committed(q)
  {
    hide WireOf, IsExclusive, Commands, TakeFirst, Committed, Ahead;
    match a
    case Recv => RecvMoves(p, q);
    case ArmWakeup => WaitMoves(p, q);
    case CheckIdle => CheckIdleMoves(p, q);
    case Unpark => WaitMoves(p, q);
    case Drain => DrainMoves(p, q);
    case Flush => FlushMoves(p, q);
    case _ =>
  }

  lemma SendMoves(depth: nat, p: Pipe, a: WriterAction, q: Pipe)
    requires SendStep(depth, p, a) == Some(q)
    ensures Committed(q) == Committed(p) && Ahead(q) == Ahead(p)
  {
    hide DotStuffing.Encode;
    if a.HandOver? { assert p.writer.todo == [p.writer.todo[0]] + p.writer.todo[1..]; }
  }

  lemma SameRequests(p: Pipe, q: Pipe)
    requires q.chan == p.chan && q.writer == p.writer && q.held == p.held && q.queue == p.queue
    ensures Committed(q) == Committed(p) && Ahead(q) == Ahead(p)
  {
    hide Sent, Taken, HeldBack;
  }

  lemma TakeOver(p: Pipe, q: Pipe)
    requires p.chan != [] && q == p.(chan := p.chan[1..])
    ensures Committed(p) == [p.chan[0]] + Committed(q) && Ahead(q) == Ahead(p)
  {
    hide Sent, Taken, HeldBack;
  }

  lemma NotifyMoves(p: Pipe)
    ensures Committed(NotifyOne(p)) == Committed(p) && Ahead(NotifyOne(p)) == Ahead(p)
  {
    hide HeldBack;
  }

  lemma PassMoves(s: State, a: PassAction, t: State)
    requires PassStep(s, a) == Some(t)
    ensures OnWire(t.inbox.reader, t.pipe) == OnWire(s.inbox.reader, s.pipe)
    ensures Ahead(t.pipe) == Ahead(s.pipe)
    ensures t.admitted == s.admitted && t.inbox == s.inbox.(reader := t.inbox.reader)
  {
    hide RequiresBarrier, AcceptsArticle, Committed, Ahead, NotifyOne;
    match a
    case RecvInflight => TakeOver(s.pipe, t.pipe);
    case NotifyIdle => NotifyMoves(s.pipe);
    case _ => SameRequests(s.pipe, t.pipe);
  }

  // ----- admission and order -----

  /** Requests settle and wait in the order in which they were admitted. */
  predicate Ordered(s: State) {
    && s.admitted == ReqsOf(s.inbox.done) + Line(s.inbox.reader, s.pipe)
    && forall i | 0 <= i < |s.admitted| :: s.admitted[i].id == i && WellFormed(s.admitted[i])
  }

  predicate WellFormedIn(m: multiset<Req>) { forall r <- m :: WellFormed(r) }

  predicate AllWellFormed(k: Callers) {
    && WellFormedIn(k.waiting) && WellFormedIn(k.probeQueue)
    && (k.probe.Probing? ==> WellFormed(k.probe.req))
    && (k.barrier.Sender? ==> WellFormed(k.barrier.req))
  }

  /** The probe and the sender that acts for it agree. */
  predicate ProbeInStep(barrier: Barrier, probe: Probe, admitted: nat) {
    && (barrier.Sender? && !barrier.guarded ==> barrier.req.kind.Capabilities?)
    && ((barrier.Sender? && !barrier.guarded && barrier.stage != Queued) <==> probe.Probing? && probe.stage == NestedSending)
    && (probe.Probing? && probe.stage.NestedSent? ==> probe.stage.p < admitted)
  }

  predicate CallersOk(k: Callers, admitted: nat) {
    AllWellFormed(k) && ProbeInStep(k.barrier, k.probe, admitted)
  }

  // ----- the send barrier -----

  predicate Finishing(rd: Reader) { (rd.Close? || rd.Unlock?) && RequiresBarrier(rd.req.kind) }

  /** A request that takes the barrier along is the last one admitted and has the barrier,
      until the reader is through with it; a carried barrier is always somebody's. */
  predicate Hold(barrier: Barrier, rd: Reader, line: seq<Req>) {
    && (forall i | 0 <= i < |line| && RequiresBarrier(line[i].kind) :: i == |line| - 1 && barrier == Carried(line[i].id))
    && (Finishing(rd) ==> line == [] && barrier == Carried(rd.req.id))
    && (barrier.Carried? ==> Finishing(rd) || (line != [] && RequiresBarrier(line[|line| - 1].kind)))
  }

  /** A committed exclusive request is the only unsettled one. */
  predicate Alone(wire: seq<Req>, line: seq<Req>) {
    forall i | 0 <= i < |wire| && IsExclusive(wire[i].kind) :: |line| == 1
  }

  /** A batch is short, and a request that must be written alone is alone in it. */
  predicate Coalesced(batch: seq<Req>) {
    0 < |batch| <= MAX_BATCH && (|batch| > 1 ==> forall i | 0 <= i < |batch| :: !Holds(batch[i]))
  }

  /** What the writer's position says about the requests it has. */
  predicate Shape(p: Pipe) {
    && (p.writer.WaitIdle? ==> IsExclusive(p.writer.first.kind) && p.held.None?)
    && (p.writer.Batching? ==>
          && Coalesced(p.writer.batch) && p.held.None?
          && forall i | 0 <= i < |p.writer.batch| :: !Holds(p.writer.batch[i]))
    && (p.writer.Writing? ==> Coalesced(p.writer.batch))
    && (p.held.Some? ==> Holds(p.held.value))
    && (p.writer.SendInflight? ==> p.writer.todo != [])
    && (p.writer.AwaitProceed? || p.writer.WritingArticle? ==> p.writer.todo == [] && p.writer.req.article.Some?)
    && (p.signal.Some? ==> p.writer.AwaitProceed?)
  }

  // ----- the counter and the wake-up -----

  function Busy(rd: Reader): (n: nat) { if rd.Idle? || rd.Notify? then 0 else 1 }

  /** The counter counts the requests between the writer and the end of their response. */
  predicate Counted(rd: Reader, p: Pipe) {
    p.inflight == |p.chan| + Busy(rd) + (if p.writer.SendInflight? then 1 else 0)
  }

  /** A writer parked without a wake-up still has one to come. */
  predicate WillWake(rd: Reader, p: Pipe) {
    p.writer.WaitIdle? && p.writer.stage == Park(Waiting) ==> p.inflight > 0 || rd.Notify?
  }

  // ----- the bytes written -----

  function ItemBytes(i: Item): (r: Bytes) {
    match i
    case Cmd(req) => req.wire
    case Art(req) => if req.article.Some? then DotStuffing.Encode(req.article.value) else []
  }

  function Flat(items: seq<Item>): (r: Bytes) {
    if items == [] then [] else Flat(items[..|items| - 1]) + ItemBytes(items[|items| - 1])
  }

  function Rest(w: Writer): (r: Bytes) { if w.Writing? || w.WritingArticle? then w.rest else [] }

  /** What has been written is a prefix of what was committed, short of what is being written. */
  predicate Written(p: Pipe) { Flat(p.issued) == p.out + Rest(p.writer) }

  /** The items of one exchange: its command, and its article once that was asked for. */
  function ItemsOf(r: Req, frames: nat): (items: seq<Item>) {
    if frames == 2 then [Cmd(r), Art(r)] else [Cmd(r)]
  }

  function Script(done: seq<Exchange>): (items: seq<Item>) {
    if done == [] then []
    else Script(done[..|done| - 1]) + ItemsOf(done[|done| - 1].req, |done[|done| - 1].frames|)
  }

  function HeadItems(rd: Reader): (items: seq<Item>) {
    match rd
    case First(r) => [Cmd(r)]
    case Go(r, _) => [Cmd(r)]
    case Second(r, _) => ItemsOf(r, 2)
    case Settle(r, frames) => ItemsOf(r, |frames|)
    case _ => []
  }

  /** An article the reader has asked for and the writer has not begun. */
  function Owed(p: Pipe): (items: seq<Item>) {
    if p.writer.AwaitProceed? && p.signal == Some(true) then [Art(p.writer.req)] else []
  }

  /** What should be on the wire: the settled exchanges, the one being received, and the
      commands of the other committed requests. */
  function Promised(b: Inbox, p: Pipe): (items: seq<Item>) {
    Script(b.done) + HeadItems(b.reader) + Commands(Committed(p))
  }

  predicate Scripted(b: Inbox, p: Pipe) {
    && p.issued + Owed(p) == Promised(b, p)
    && (p.writer.AwaitProceed? ==> p.issued != [] && p.issued[|p.issued| - 1] == Cmd(p.writer.req))
    && (p.writer.WritingArticle? ==> p.issued != [] && p.issued[|p.issued| - 1] == Art(p.writer.req))
  }

  predicate Asks(rd: Reader) { rd.Go? || (rd.First? && rd.req.article.Some?) }

  /** While the reader has not decided about an article the writer waits for exactly that. */
  predicate Handoff(rd: Reader, p: Pipe) {
    && (Asks(rd) ==> p.writer == AwaitProceed(rd.req, []) && p.signal.None?)
    && (forall i | 0 <= i < |p.chan| && p.chan[i].article.Some? :: p.writer == AwaitProceed(p.chan[i], []) && p.signal.None?)
    && (p.writer.AwaitProceed? && p.signal.None? ==> Asks(rd) || exists i :: 0 <= i < |p.chan| && p.chan[i].article.Some?)
  }

  // ----- the bytes read -----

  function Size(frames: seq<Response>): (n: nat) {
    if frames == [] then 0 else Size(frames[..|frames| - 1]) + |frames[|frames| - 1].bytes|
  }

  function Total(done: seq<Exchange>): (n: nat) {
    if done == [] then 0 else Total(done[..|done| - 1]) + Size(done[|done| - 1].frames)
  }

  /** The frames at the start of a stream that answer one request: one frame, or two when
      the first asks for an article that the request has. */
  function Answer(g: Grammar, r: Req, stream: Bytes): (frames: Option<seq<Response>>)
    ensures frames.Some? ==> frames.value != [] && Size(frames.value) <= |stream|
  {
    match Deliver(g, r.kind, stream)
    case DeliverNeedMore => None
    case DeliverReject => None
    case Delivered(f) =>
      if r.article.Some? && AcceptsArticle(r.kind, f.status) then
        match Deliver(g, r.kind, stream[|f.bytes|..]) {
          case DeliverNeedMore => None
          case DeliverReject => None
          case Delivered(f2) => assert Size([f, f2]) == Size([f]) + |f2.bytes| by { assert [f, f2][..1] == [f]; } Some([f, f2])
        }
      else Some([f])
  }

  /** Each settled exchange has the answer that starts where the previous one ended. */
  predicate Served(g: Grammar, done: seq<Exchange>, sent: Bytes) {
    done == [] ||
    var before, x := done[..|done| - 1], done[|done| - 1];
    Served(g, before, sent) && Total(before) <= |sent| && Answer(g, x.req, sent[Total(before)..]) == Some(x.frames)
  }

  /** The reader's frames are those at the end of the settled ones. */
  predicate Reading(g: Grammar, b: Inbox) {
    && b.cut <= b.read <= |b.sent|
    && Served(g, b.done, b.sent)
    && Total(b.done) <= b.cut
    && match b.reader
       case Go(r, f) => r.article.Some? && Deliver(g, r.kind, b.sent[Total(b.done)..]) == Delivered(f) && b.cut == Total(b.done) + |f.bytes|
       case Second(r, f) =>
         && r.article.Some? && AcceptsArticle(r.kind, f.status)
         && Deliver(g, r.kind, b.sent[Total(b.done)..]) == Delivered(f) && b.cut == Total(b.done) + |f.bytes|
       case Settle(r, frames) => Answer(g, r, b.sent[Total(b.done)..]) == Some(frames) && b.cut == Total(b.done) + Size(frames)
       case _ => b.cut == Total(b.done)
  }

  // ----- the capability list -----

  function StoreOne(caps: Option<CapabilityList>, x: Exchange): (r: Option<CapabilityList>) {
    if Final(x).Some? then StoreTransition(caps, x.req, Final(x).value).0 else caps
  }

  /** The list as the settled exchanges leave it. */
  function CapsAfter(done: seq<Exchange>): (r: Option<CapabilityList>) {
    if done == [] then None else StoreOne(CapsAfter(done[..|done| - 1]), done[|done| - 1])
  }

  /** Whoever needs a list and got past the check still has one. */
  predicate Backed(k: Callers, line: seq<Req>, b: Inbox) {
    && b.caps == CapsAfter(b.done)
    && (forall i | 0 <= i < |line| && RequiresCapabilities(line[i].kind) :: b.caps.Some?)
    && (k.barrier.Sender? && (k.barrier.stage == Sending || k.barrier.stage == Queued) && RequiresCapabilities(k.barrier.req.kind)
        ==> b.caps.Some?)
    && (forall i | 0 <= i < |b.done| && RequiresCapabilities(b.done[i].req.kind) :: CapsAfter(b.done[..i]).Some?)
  }

  // ----- the end of the session -----

  predicate Ended(b: Inbox) { b.closed || (b.reader.Close? && IsQuitDone(b.reader.req, b.reader.final)) }

  predicate IsQuit(x: Exchange) { x.req.kind.Quit? && Final(x).Some? && Final(x).value.status == 205 }

  /** After a successful QUIT nothing is under way and no sender is past the closed check. */
  predicate Quiet(k: Callers, b: Inbox, p: Pipe) {
    && (forall i | 0 <= i < |b.done| && IsQuit(b.done[i]) :: i == |b.done| - 1 && Ended(b))
    && (Ended(b) ==>
          && Line(b.reader, p) == [] && (p.writer == Top || p.writer == Dispatch([]))
          && (k.barrier.Sender? ==> k.barrier.stage == Locked))
  }

  /** The invariant of the engine. */
  predicate Inv(c: Config, s: State) {
    && Ordered(s)
    && CallersOk(s.callers, |s.admitted|)
    && Hold(s.callers.barrier, s.inbox.reader, Line(s.inbox.reader, s.pipe))
    && Alone(OnWire(s.inbox.reader, s.pipe), Line(s.inbox.reader, s.pipe))
    && Shape(s.pipe)
    && Counted(s.inbox.reader, s.pipe) && WillWake(s.inbox.reader, s.pipe)
    && Written(s.pipe) && Scripted(s.inbox, s.pipe) && Handoff(s.inbox.reader, s.pipe)
    && Reading(c.g, s.inbox)
    && Backed(s.callers, Line(s.inbox.reader, s.pipe), s.inbox)
    && Quiet(s.callers, s.inbox, s.pipe)
  }

  lemma InitPipe()
    ensures var s := Init();
            && Line(s.inbox.reader, s.pipe) == [] && OnWire(s.inbox.reader, s.pipe) == []
            && Shape(s.pipe) && Counted(s.inbox.reader, s.pipe) && WillWake(s.inbox.reader, s.pipe)
            && Written(s.pipe) && Scripted(s.inbox, s.pipe) && Handoff(s.inbox.reader, s.pipe)
  {
    hide Coalesced, Holds, IsExclusive;
  }

  lemma InitReading(g: Grammar)
    ensures Reading(g, Init().inbox)
  {
    hide Deliver, Answer;
  }

  lemma InitInv(c: Config)
    ensures Inv(c, Init())
  {
    hide Deliver, Reading, Line, OnWire, Shape, Counted, WillWake, Written, Scripted, Handoff, RequiresBarrier, RequiresCapabilities,
      IsExclusive, WellFormed, IsQuit;
    InitPipe();
    InitReading(c.g);
  }
}
