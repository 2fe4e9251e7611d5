/** The pipelined connection engine as a transition system: callers, a writer task and a
    reader task that share a bounded request queue, a bounded in-flight queue, a send
    barrier, an in-flight counter with a wake-up, a stored capability list and a closed
    flag. Steps are the points at which tasks can be interleaved. */
module Engine {
  import opened Wire
  import opened Protocol
  import opened Frames
  import opened Capabilities
  import DotStuffing
  import Text

  /** A request. `id` is its place in the order of admission, given when it enters the
      queue and zero before; `wire` is its command on the wire. */
  datatype Req = Req(id: nat, kind: RequestKind, wire: Bytes, article: Option<Bytes>,
                     mark: bool, invalidate: bool, large: bool)

  /** What the client's entry points put into a request. */
  predicate WellFormed(r: Req) {
    && r.invalidate == InvalidatesCapabilities(r.kind)
    && (r.mark ==> r.kind.Capabilities?)
    && (r.article.Some? ==> r.kind.Post? || r.kind.Ihave?)
    && r.wire != []
  }

  /** The capability probe sent on behalf of another request. */
  const PROBE: Req :=
    Req(0, RequestKind.Capabilities, Text.Ascii("CAPABILITIES") + CRLF, None, false, false, false)

  /** A settled request with the frames that answered it; the last one is the response. */
  datatype Exchange = Exchange(req: Req, frames: seq<Response>)

  type CapabilityList = seq<CapabilityEntry>

  datatype SenderStage = Locked | Open | Sending | Queued

  /** The send barrier: free, held by a caller that is sending, or carried by a request. */
  datatype Barrier = Free | Sender(req: Req, guarded: bool, stage: SenderStage) | Carried(id: nat)

  /** Where the probe made under the probe lock stands: not sent yet, waiting for the send
      barrier, holding it, or admitted as request number `p`. */
  datatype ProbeStage = CheckList | NestedWaiting | NestedSending | NestedSent(p: nat)

  datatype Probe = NoProbe | Probing(req: Req, stage: ProbeStage)

  /** The wake-up future of the waiting writer: queued, notified, or ready at once because
      a stored permit was there. */
  datatype Wakeup = Waiting | Woken | Ready

  datatype IdleStage = Arm | Armed(reg: Wakeup) | Park(reg: Wakeup)

  datatype Writer =
    | Top
    | WaitIdle(first: Req, stage: IdleStage)
    | Batching(batch: seq<Req>)
    | Writing(batch: seq<Req>, rest: Bytes)
    | Dispatch(todo: seq<Req>)
    | SendInflight(todo: seq<Req>)
    | AwaitProceed(req: Req, todo: seq<Req>)
    | WritingArticle(req: Req, rest: Bytes, todo: seq<Req>)

  datatype Reader =
    | Idle
    | First(req: Req)
    | Go(req: Req, first: Response)
    | Second(req: Req, first: Response)
    | Settle(req: Req, frames: seq<Response>)
    | Close(req: Req, final: Response)
    | Unlock(req: Req)
    | End
    | Notify

  /** What the writer has committed to put on the wire, in order. */
  datatype Item = Cmd(req: Req) | Art(req: Req)

  /** What callers share: requests that wait to be sent, the send barrier, requests that wait
      for the probe lock, and the probe in progress. */
  datatype Callers = Callers(waiting: multiset<Req>, barrier: Barrier, probeQueue: multiset<Req>, probe: Probe)

  /** The way out: the bounded request queue, the writer with the request it holds back, the
      bounded in-flight queue, the go-ahead for an article, the in-flight counter and stored
      wake-up, what the writer has committed and the bytes written so far. */
  datatype Pipe = Pipe(queue: seq<Req>, held: Option<Req>, writer: Writer, chan: seq<Req>, signal: Option<bool>,
                       inflight: int, permit: bool, issued: seq<Item>, out: Bytes)

  /** The way in: the reader, the bytes the peer has sent, how many were read from the
      socket and how many of those were cut off as frames, and what came of them. */
  datatype Inbox = Inbox(reader: Reader, sent: Bytes, read: nat, cut: nat,
                         done: seq<Exchange>, caps: Option<CapabilityList>, closed: bool)

  datatype State = State(callers: Callers, pipe: Pipe, inbox: Inbox, admitted: seq<Req>, failed: bool)

  datatype Config = Config(g: Grammar, depth: nat)

  const MAX_BATCH: nat := 64

  function Init(): (s: State) {
    State(Callers(multiset{}, Free, multiset{}, NoProbe),
          Pipe([], None, Top, [], None, 0, false, [], []),
          Inbox(Idle, [], 0, 0, [], None, false),
          [], false)
  }

  /** Bytes read and not yet cut off as a frame. */
  function Pending(b: Inbox): (r: Bytes) {
    if b.cut <= b.read <= |b.sent| then b.sent[b.cut..b.read] else []
  }

  // ----- capability list -----

  /** The list after a response, and whether the caller gets it rather than an error. */
  function StoreTransition(caps: Option<CapabilityList>, r: Req, f: Response): (res: (Option<CapabilityList>, bool)) {
    if r.kind.Capabilities? && f.status == 101 then
      match ParseCapabilities(ContentOf(f))
      case None => (caps, false)
      case Some(list) =>
        (if r.invalidate && ResponseInvalidatesCapabilities(r.kind, f.status) then None else Some(list), true)
    else if r.mark then (caps, false)
    else (if r.invalidate && ResponseInvalidatesCapabilities(r.kind, f.status) then None else caps, true)
  }

  function Final(x: Exchange): (r: Option<Response>) {
    if x.frames == [] then None else Some(x.frames[|x.frames| - 1])
  }

  /** The list that a settled exchange stores, if it is an accepted 101. */
  function ListOf(x: Exchange): (r: Option<CapabilityList>) {
    if x.req.kind.Capabilities? && Final(x).Some? && Final(x).value.status == 101
    then ParseCapabilities(ContentOf(Final(x).value)) else None
  }

  predicate ListsCapabilities(x: Exchange) { ListOf(x).Some? }

  // ----- steps of callers -----

  datatype CallerAction =
    | Call(req: Req)
    | CallProbeFirst(req: Req)
    | TakeBarrier(req: Req)
    | TakeBarrierForProbe
    | CheckClosed
    | CheckCapabilities
    | Release
    | TakeProbe(req: Req)
    | ProbeCheck
    | ProbeAnswered
    | DropWaiting(req: Req)
    | DropSender
    | DropProbeWaiter(req: Req)
    | DropProber

  /** The steps of callers that leave the queue alone. */
  function CallerStep(k: Callers, b: Inbox, a: CallerAction): (r: Option<Callers>) {
    match a
    case Call(req) =>
      if !WellFormed(req) || req.id != 0 then None else Some(k.(waiting := k.waiting + multiset{req}))
    case CallProbeFirst(req) =>
      if !WellFormed(req) || req.id != 0 || !RequiresCapabilities(req.kind) then None
      else Some(k.(probeQueue := k.probeQueue + multiset{req}))
    case TakeBarrier(req) =>
      if k.barrier != Free || req !in k.waiting then None
      else Some(k.(barrier := Sender(req, true, Locked), waiting := k.waiting - multiset{req}))
    case TakeBarrierForProbe =>
      if k.barrier != Free || !k.probe.Probing? || k.probe.stage != NestedWaiting then None
      else Some(k.(barrier := Sender(PROBE, false, Locked), probe := Probing(k.probe.req, NestedSending)))
    case CheckClosed =>
      if !k.barrier.Sender? || k.barrier.stage != Locked then None
      else if b.closed then Some(k.(barrier := Free, probe := if k.barrier.guarded then k.probe else NoProbe))
      else Some(k.(barrier := Sender(k.barrier.req, k.barrier.guarded, Open)))
    case CheckCapabilities =>
      if !k.barrier.Sender? || k.barrier.stage != Open then None
      else if k.barrier.guarded && RequiresCapabilities(k.barrier.req.kind) && b.caps.None? then
        Some(k.(barrier := Free, probeQueue := k.probeQueue + multiset{k.barrier.req}))
      else Some(k.(barrier := Sender(k.barrier.req, k.barrier.guarded, Sending)))
    case Release =>
      if !k.barrier.Sender? || k.barrier.stage != Queued then None else Some(k.(barrier := Free))
    case TakeProbe(req) =>
      if k.probe != NoProbe || req !in k.probeQueue then None
      else Some(k.(probe := Probing(req, CheckList), probeQueue := k.probeQueue - multiset{req}))
    case ProbeCheck =>
      if !k.probe.Probing? || k.probe.stage != CheckList then None
      else if b.caps.Some? then Some(k.(probe := NoProbe, waiting := k.waiting + multiset{k.probe.req}))
      else Some(k.(probe := Probing(k.probe.req, NestedWaiting)))
    case ProbeAnswered =>
      if !k.probe.Probing? || !k.probe.stage.NestedSent? || k.probe.stage.p >= |b.done| then None
      else if ListsCapabilities(b.done[k.probe.stage.p]) then
        Some(k.(probe := NoProbe, waiting := k.waiting + multiset{k.probe.req}))
      else Some(k.(probe := NoProbe))
    case DropWaiting(req) =>
      if req !in k.waiting then None else Some(k.(waiting := k.waiting - multiset{req}))
    case DropSender =>
      if !k.barrier.Sender? || !k.barrier.guarded || k.barrier.stage == Queued then None
      else Some(k.(barrier := Free))
    case DropProbeWaiter(req) =>
      if req !in k.probeQueue then None else Some(k.(probeQueue := k.probeQueue - multiset{req}))
    case DropProber =>
      if !k.probe.Probing? then None
      else Some(k.(probe := NoProbe, barrier := if k.probe.stage == NestedSending then Free else k.barrier))
  }

  /** The sender's request enters the queue and gets its number; a barrier request takes the
      barrier along, any other leaves it with the sender for one more moment. */
  function EnqueueStep(c: Config, s: State): (r: Option<State>) {
    var k := s.callers;
    if !k.barrier.Sender? || k.barrier.stage != Sending || |s.pipe.queue| >= c.depth then None
    else
      var n := |s.admitted|;
      var req := k.barrier.req.(id := n);
      Some(s.(pipe := s.pipe.(queue := s.pipe.queue + [req]), admitted := s.admitted + [req],
              callers := k.(barrier := if RequiresBarrier(req.kind) then Carried(n) else Sender(req, k.barrier.guarded, Queued),
                            probe := if !k.barrier.guarded && k.probe.Probing? then Probing(k.probe.req, NestedSent(n)) else k.probe)))
  }

  // ----- steps of the writer task -----

  datatype WriterAction =
    | Recv
    | ArmWakeup
    | CheckIdle
    | Unpark
    | Drain
    | Flush
    | Write(n: nat)
    | WriteDone
    | Begin
    | HandOver
    | TakeSignal
    | EndBatch

  function Commands(batch: seq<Req>): (r: seq<Item>)
    ensures |r| == |batch| && forall i | 0 <= i < |batch| :: r[i] == Cmd(batch[i])
  {
    seq(|batch|, i requires 0 <= i < |batch| => Cmd(batch[i]))
  }

  function WireOf(batch: seq<Req>): (r: Bytes) {
    if batch == [] then [] else WireOf(batch[..|batch| - 1]) + batch[|batch| - 1].wire
  }

  /** Commit a batch to the wire. */
  function StartWriting(p: Pipe, batch: seq<Req>): (r: Pipe) {
    p.(writer := Writing(batch, WireOf(batch)), issued := p.issued + Commands(batch))
  }

  predicate Holds(r: Req) { IsExclusive(r.kind) || r.large }

  /** Deal with the first request of a round. */
  function TakeFirst(p: Pipe, first: Req): (r: Pipe) {
    if IsExclusive(first.kind) then p.(writer := WaitIdle(first, Arm))
    else if first.large then StartWriting(p, [first])
    else p.(writer := Batching([first]))
  }

  /** The steps of the writer while it collects requests. */
  function CollectStep(p: Pipe, a: WriterAction): (r: Option<Pipe>) {
    match a
    case Recv =>
      if p.writer != Top then None
      else if p.held.Some? then Some(TakeFirst(p.(held := None), p.held.value))
      else if p.queue != [] then Some(TakeFirst(p.(queue := p.queue[1..]), p.queue[0]))
      else None
    case ArmWakeup =>
      if !p.writer.WaitIdle? || p.writer.stage != Arm then None
      else Some(p.(writer := WaitIdle(p.writer.first, Armed(if p.permit then Ready else Waiting)), permit := false))
    case CheckIdle =>
      if !p.writer.WaitIdle? || !p.writer.stage.Armed? then None
      else if p.inflight == 0 then
        Some(StartWriting(p.(permit := p.permit || p.writer.stage.reg == Woken), [p.writer.first]))
      else Some(p.(writer := WaitIdle(p.writer.first, Park(p.writer.stage.reg))))
    case Unpark =>
      if !p.writer.WaitIdle? || !p.writer.stage.Park? || p.writer.stage.reg == Waiting then None
      else Some(p.(writer := WaitIdle(p.writer.first, Arm)))
    case Drain =>
      if !p.writer.Batching? || |p.writer.batch| >= MAX_BATCH || p.queue == [] then None
      else
        var next, rest := p.queue[0], p.queue[1..];
        if Holds(next) then Some(StartWriting(p.(held := Some(next), queue := rest), p.writer.batch))
        else Some(p.(writer := Batching(p.writer.batch + [next]), queue := rest))
    case Flush =>
      if !p.writer.Batching? || (|p.writer.batch| < MAX_BATCH && p.queue != []) then None
      else Some(StartWriting(p, p.writer.batch))
    case _ => None
  }

  /** The steps of the writer once requests are committed: writing their bytes, handing them
      to the reader, and writing an article when the reader gives the go-ahead. */
  function SendStep(depth: nat, p: Pipe, a: WriterAction): (r: Option<Pipe>) {
    match a
    case Write(n) =>
      if p.writer.Writing? && 0 < n <= |p.writer.rest| then
        Some(p.(out := p.out + p.writer.rest[..n], writer := Writing(p.writer.batch, p.writer.rest[n..])))
      else if p.writer.WritingArticle? && 0 < n <= |p.writer.rest| then
        Some(p.(out := p.out + p.writer.rest[..n],
                writer := WritingArticle(p.writer.req, p.writer.rest[n..], p.writer.todo)))
      else None
    case WriteDone =>
      if p.writer.Writing? && p.writer.rest == [] then Some(p.(writer := Dispatch(p.writer.batch)))
      else if p.writer.WritingArticle? && p.writer.rest == [] then Some(p.(writer := Dispatch(p.writer.todo)))
      else None
    case Begin =>
      if !p.writer.Dispatch? || p.writer.todo == [] then None
      else Some(p.(inflight := p.inflight + 1, writer := SendInflight(p.writer.todo)))
    case HandOver =>
      if !p.writer.SendInflight? || p.writer.todo == [] || |p.chan| >= depth then None
      else
        var r, todo := p.writer.todo[0], p.writer.todo[1..];
        Some(p.(chan := p.chan + [r], writer := if r.article.Some? then AwaitProceed(r, todo) else Dispatch(todo)))
    case TakeSignal =>
      if !p.writer.AwaitProceed? || p.signal.None? then None
      else if p.signal.value && p.writer.req.article.Some? then
        Some(p.(signal := None, issued := p.issued + [Art(p.writer.req)],
                writer := WritingArticle(p.writer.req, DotStuffing.Encode(p.writer.req.article.value), p.writer.todo)))
      else Some(p.(signal := None, writer := Dispatch(p.writer.todo)))
    case EndBatch =>
      if p.writer != Dispatch([]) then None else Some(p.(writer := Top))
    case _ => None
  }

  predicate Collects(a: WriterAction) {
    a.Recv? || a.ArmWakeup? || a.CheckIdle? || a.Unpark? || a.Drain? || a.Flush?
  }

  function WriterStep(depth: nat, p: Pipe, a: WriterAction): (r: Option<Pipe>) {
    if Collects(a) then CollectStep(p, a) else SendStep(depth, p, a)
  }

  // ----- steps of the reader task -----

  /** The reader's steps on the connection. */
  datatype ReceiveAction =
    | ReadSome(n: nat)
    | TakeFrame
    | SettleRequest
    | SetClosed

  /** The reader's steps on what it shares with the writer and with callers. */
  datatype PassAction =
    | RecvInflight
    | SendSignal
    | ReleaseBarrier
    | EndInflight
    | NotifyIdle

  predicate Receiving(rd: Reader) { rd.First? || rd.Second? }

  predicate IsQuitDone(r: Req, final: Response) { r.kind.Quit? && final.status == 205 }

  /** Where a complete frame takes the reader. */
  function AfterFrame(rd: Reader, f: Response): (r: Reader)
    requires Receiving(rd)
  {
    if rd.Second? then Settle(rd.req, [rd.first, f])
    else if rd.req.article.Some? then Go(rd.req, f)
    else Settle(rd.req, [f])
  }

  function ReceiveStep(g: Grammar, b: Inbox, a: ReceiveAction): (r: Option<Inbox>) {
    match a
    case ReadSome(n) =>
      if !Receiving(b.reader) || !Deliver(g, b.reader.req.kind, Pending(b)).DeliverNeedMore?
         || n == 0 || b.read + n > |b.sent| then None
      else Some(b.(read := b.read + n))
    case TakeFrame =>
      if !Receiving(b.reader) || !Deliver(g, b.reader.req.kind, Pending(b)).Delivered? then None
      else
        var f := Deliver(g, b.reader.req.kind, Pending(b)).response;
        Some(b.(cut := b.cut + |f.bytes|, reader := AfterFrame(b.reader, f)))
    case SettleRequest =>
      if !b.reader.Settle? || b.reader.frames == [] then None
      else
        var final := b.reader.frames[|b.reader.frames| - 1];
        Some(b.(caps := StoreTransition(b.caps, b.reader.req, final).0,
                done := b.done + [Exchange(b.reader.req, b.reader.frames)],
                reader := Close(b.reader.req, final)))
    case SetClosed =>
      if !b.reader.Close? then None
      else Some(b.(closed := b.closed || IsQuitDone(b.reader.req, b.reader.final), reader := Unlock(b.reader.req)))
  }

  /** `notify_one`: wake the registered waiter, or store a permit. */
  function NotifyOne(p: Pipe): (r: Pipe) {
    if p.writer.WaitIdle? && p.writer.stage == Armed(Waiting) then p.(writer := WaitIdle(p.writer.first, Armed(Woken)))
    else if p.writer.WaitIdle? && p.writer.stage == Park(Waiting) then p.(writer := WaitIdle(p.writer.first, Park(Woken)))
    else p.(permit := true)
  }

  function PassStep(s: State, a: PassAction): (r: Option<State>) {
    var rd := s.inbox.reader;
    match a
    case RecvInflight =>
      if rd != Idle || s.pipe.chan == [] then None
      else Some(s.(inbox := s.inbox.(reader := First(s.pipe.chan[0])), pipe := s.pipe.(chan := s.pipe.chan[1..])))
    case SendSignal =>
      if !rd.Go? then None
      else
        var proceed := AcceptsArticle(rd.req.kind, rd.first.status);
        Some(s.(pipe := s.pipe.(signal := Some(proceed)),
                inbox := s.inbox.(reader := if proceed then Second(rd.req, rd.first) else Settle(rd.req, [rd.first]))))
    case ReleaseBarrier =>
      if !rd.Unlock? then None
      else Some(s.(callers := if RequiresBarrier(rd.req.kind) then s.callers.(barrier := Free) else s.callers,
                   inbox := s.inbox.(reader := End)))
    case EndInflight =>
      if rd != End then None
      else Some(s.(pipe := s.pipe.(inflight := s.pipe.inflight - 1),
                   inbox := s.inbox.(reader := if s.pipe.inflight == 1 then Notify else Idle)))
    case NotifyIdle =>
      if rd != Notify then None
      else Some(s.(pipe := NotifyOne(s.pipe), inbox := s.inbox.(reader := Idle)))
  }

  // ----- runs -----

  datatype Step =
    | Caller(ca: CallerAction)
    | Enqueue
    | WriterTask(wa: WriterAction)
    | Receive(ra: ReceiveAction)
    | Pass(pa: PassAction)
    | Reject
    | PeerSends(bytes: Bytes)
    | Fail

  /** One step of the system; a failed engine takes no further step. `Reject` is the reader
      giving up on bytes that are no response to its request, `Fail` a failure of the socket
      or of a task: the connection is aborted. */
  function Advance(c: Config, s: State, step: Step): (r: Option<State>) {
    if s.failed then None
    else
      match step
      case Caller(a) =>
        var k := CallerStep(s.callers, s.inbox, a);
        if k.None? then None else Some(s.(callers := k.value))
      case Enqueue => EnqueueStep(c, s)
      case WriterTask(a) =>
        var p := WriterStep(c.depth, s.pipe, a);
        if p.None? then None else Some(s.(pipe := p.value))
      case Receive(a) =>
        var b := ReceiveStep(c.g, s.inbox, a);
        if b.None? then None else Some(s.(inbox := b.value))
      case Pass(a) => PassStep(s, a)
      case Reject =>
        if Receiving(s.inbox.reader) && Deliver(c.g, s.inbox.reader.req.kind, Pending(s.inbox)).DeliverReject?
        then Some(s.(failed := true)) else None
      case PeerSends(bytes) => Some(s.(inbox := s.inbox.(sent := s.inbox.sent + bytes)))
      case Fail => Some(s.(failed := true))
  }

  /** The state after a sequence of steps, if every one of them could be taken. */
  function Run(c: Config, s: State, steps: seq<Step>): (r: Option<State>) {
    if steps == [] then Some(s)
    else
      match Run(c, s, steps[..|steps| - 1])
      case None => None
      case Some(before) => Advance(c, before, steps[|steps| - 1])
  }
}
