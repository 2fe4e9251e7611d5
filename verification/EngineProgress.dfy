/** The engine's own steps come to an end: no livelock, and at rest every answer that the
    peer's bytes hold has been delivered. */
module EngineProgress {
  import opened Wire
  import opened Protocol
  import opened Frames
  import opened Engine
  import opened EngineInvariant
  import opened EngineSteps
  import opened EngineTheorems
  import DotStuffing
  import Text

  // ----- what is left to do -----

  /** Requests whose caller is still at work. */
  function Pool(k: Callers): (n: nat) {
    |k.waiting| + |k.probeQueue| + (if k.probe.Probing? then 1 else 0)
    + (if k.barrier.Sender? && k.barrier.guarded && k.barrier.stage != Queued then 1 else 0)
  }

  /** Unsettled requests that can empty the stored list. */
  function Clearing(line: seq<Req>): (n: nat) {
    if line == [] then 0 else Clearing(line[..|line| - 1]) + (if line[|line| - 1].invalidate then 1 else 0)
  }

  const IN_QUEUE: nat := 26

  /** Steps a sender has ahead of it; without a list it may have to go back for a probe. */
  function SenderWeight(barrier: Barrier, listed: bool): (n: nat) {
    if !barrier.Sender? then 0
    else
      match barrier.stage
      case Queued => 1
      case Sending => IN_QUEUE + 2
      case Open => if listed || !barrier.guarded then IN_QUEUE + 3 else IN_QUEUE + 10
      case Locked => if listed || !barrier.guarded then IN_QUEUE + 4 else IN_QUEUE + 11
  }

  /** The probe's request is settled and has brought a list. */
  predicate Answered(stage: ProbeStage, done: seq<Exchange>) {
    stage.NestedSent? && stage.p < |done| && ListsCapabilities(done[stage.p])
  }

  /** Steps a prober has ahead of it, those of its nested request included. */
  function ProbeWeight(probe: Probe, listed: bool, done: seq<Exchange>): (n: nat) {
    if !probe.Probing? then 0
    else if listed then
      match probe.stage
      case CheckList => IN_QUEUE + 6
      case NestedWaiting => 2 * IN_QUEUE + 12
      case NestedSending => IN_QUEUE + 7
      case NestedSent(_) => IN_QUEUE + 6
    else if Answered(probe.stage, done) then IN_QUEUE + 13
    else
      match probe.stage
      case CheckList => IN_QUEUE + 8
      case NestedWaiting => IN_QUEUE + 7
      case NestedSending => 2
      case NestedSent(_) => 1
  }

  function CallerWeight(k: Callers, listed: bool, done: seq<Exchange>): (n: nat) {
    |k.waiting| * (if listed then IN_QUEUE + 5 else IN_QUEUE + 12)
    + |k.probeQueue| * (if listed then IN_QUEUE + 7 else IN_QUEUE + 9)
    + ProbeWeight(k.probe, listed, done) + SenderWeight(k.barrier, listed)
  }

  /** Three for a wake-up that will send the writer round once more. */
  function TokenWeight(reg: Wakeup): (n: nat) { if reg == Waiting then 0 else 3 }

  function WriterWeight(w: Writer): (n: nat) {
    match w
    case Top => 0
    case WaitIdle(_, Arm) => 7
    case WaitIdle(_, Armed(reg)) => 6 + TokenWeight(reg)
    case WaitIdle(_, Park(reg)) => 5 + TokenWeight(reg)
    case Batching(_) => 4
    case Writing(_, _) => 3
    case Dispatch(_) => 2
    case SendInflight(_) => 1
    case AwaitProceed(_, _) => 4
    case WritingArticle(_, _, _) => 3
  }

  function PipeWeight(p: Pipe): (n: nat) {
    |p.queue| * IN_QUEUE + |HeldBack(p.held)| * 25 + |Taken(p.writer)| * 17 + |Sent(p.writer)| * 17 + |p.chan| * 12
    + WriterWeight(p.writer) + (if p.permit then 3 else 0)
  }

  function ReaderWeight(rd: Reader): (n: nat) {
    match rd
    case Idle => 0
    case Notify => 4
    case End => 5
    case Unlock(_) => 6
    case Close(_, _) => 7
    case Settle(_, _) => 8
    case Second(_, _) => 9
    case Go(_, _) => 10
    case First(_) => 11
  }

  /** Bytes still to write of what is committed, and to read of what the peer has sent. */
  function BytesLeft(s: State): (n: nat) {
    |Rest(s.pipe.writer)| + (if s.inbox.read <= |s.inbox.sent| then |s.inbox.sent| - s.inbox.read else 0)
  }

  /** The measure of a state, most significant part first: requests that may yet empty the
      list, whether a list is missing, steps left for everything under way, bytes left. */
  datatype Measure = Measure(clearing: nat, missing: nat, steps: nat, bytes: nat)

  function MeasureOf(s: State): (m: Measure) {
    var listed := s.inbox.caps.Some?;
    Measure(Pool(s.callers) + Clearing(Line(s.inbox.reader, s.pipe)), if listed then 0 else 1,
            CallerWeight(s.callers, listed, s.inbox.done) + PipeWeight(s.pipe) + ReaderWeight(s.inbox.reader), BytesLeft(s))
  }

  predicate Below(a: Measure, b: Measure) {
    || a.clearing < b.clearing
    || (a.clearing == b.clearing && a.missing < b.missing)
    || (a.clearing == b.clearing && a.missing == b.missing && a.steps < b.steps)
    || (a.clearing == b.clearing && a.missing == b.missing && a.steps == b.steps && a.bytes < b.bytes)
  }

  // ----- callers -----

  lemma SizeChange(m: multiset<Req>, r: Req)
    ensures |m + multiset{r}| == |m| + 1
    ensures r in m ==> |m - multiset{r}| == |m| - 1
  {
    if r in m { assert m == (m - multiset{r}) + multiset{r}; }
  }

  predicate Lighter(l: Callers, k: Callers, b: Inbox) {
    || Pool(l) < Pool(k)
    || (Pool(l) == Pool(k) && CallerWeight(l, b.caps.Some?, b.done) < CallerWeight(k, b.caps.Some?, b.done))
  }

  lemma TakeBarrierDescends(k: Callers, b: Inbox, r: Req, l: Callers)
    requires CallerStep(k, b, TakeBarrier(r)) == Some(l)
    ensures Lighter(l, k, b)
  {
    hide ListsCapabilities, WellFormed, ProbeWeight;
    SizeChange(k.waiting, r);
  }

  lemma NestDescends(k: Callers, b: Inbox, l: Callers)
    requires CallerStep(k, b, TakeBarrierForProbe) == Some(l)
    ensures Lighter(l, k, b)
  {
    hide ListsCapabilities, WellFormed, Text.Ascii;
  }

  lemma CheckClosedDescends(k: Callers, b: Inbox, l: Callers, admitted: nat)
    requires ProbeInStep(k.barrier, k.probe, admitted) && CallerStep(k, b, CheckClosed) == Some(l)
    ensures Lighter(l, k, b)
  {
    hide ListsCapabilities, WellFormed, ProbeWeight;
  }

  lemma CheckCapabilitiesDescends(k: Callers, b: Inbox, l: Callers)
    requires CallerStep(k, b, CheckCapabilities) == Some(l)
    ensures Lighter(l, k, b)
  {
    hide ListsCapabilities, WellFormed, ProbeWeight, RequiresCapabilities;
    if k.barrier.Sender? { SizeChange(k.probeQueue, k.barrier.req); }
  }

  lemma ReleaseDescends(k: Callers, b: Inbox, l: Callers)
    requires CallerStep(k, b, Release) == Some(l)
    ensures Lighter(l, k, b)
  {
    hide ListsCapabilities, WellFormed, ProbeWeight;
  }

  lemma TakeProbeDescends(k: Callers, b: Inbox, r: Req, l: Callers)
    requires CallerStep(k, b, TakeProbe(r)) == Some(l)
    ensures Lighter(l, k, b)
  {
    hide ListsCapabilities, WellFormed, SenderWeight;
    SizeChange(k.probeQueue, r);
  }

  lemma ProbeCheckDescends(k: Callers, b: Inbox, l: Callers)
    requires CallerStep(k, b, ProbeCheck) == Some(l)
    ensures Lighter(l, k, b)
  {
    hide ListsCapabilities, WellFormed, SenderWeight;
    if k.probe.Probing? { SizeChange(k.waiting, k.probe.req); }
  }

  lemma ProbeAnsweredDescends(k: Callers, b: Inbox, l: Callers)
    requires CallerStep(k, b, ProbeAnswered) == Some(l)
    ensures Lighter(l, k, b)
  {
    hide ListsCapabilities, WellFormed, SenderWeight;
    if k.probe.Probing? { SizeChange(k.waiting, k.probe.req); }
  }

  lemma CallerDescends(k: Callers, b: Inbox, a: CallerAction, l: Callers, admitted: nat)
    requires ProbeInStep(k.barrier, k.probe, admitted) && Internal(Caller(a)) && CallerStep(k, b, a) == Some(l)
    ensures Lighter(l, k, b)
  {
    hide CallerStep, Lighter, ProbeInStep;
    match a
    case TakeBarrier(r) => TakeBarrierDescends(k, b, r, l);
    case TakeBarrierForProbe => NestDescends(k, b, l);
    case CheckClosed => CheckClosedDescends(k, b, l, admitted);
    case CheckCapabilities => CheckCapabilitiesDescends(k, b, l);
    case Release => ReleaseDescends(k, b, l);
    case TakeProbe(r) => TakeProbeDescends(k, b, r, l);
    case ProbeCheck => ProbeCheckDescends(k, b, l);
    case ProbeAnswered => ProbeAnsweredDescends(k, b, l);
    case _ =>
  }

  // ----- the writer -----

  lemma CollectDescends(p: Pipe, a: WriterAction, q: Pipe)
    requires CollectStep(p, a) == Some(q) && Shape(p)
    ensures PipeWeight(q) < PipeWeight(p)
  {
    hide WireOf, IsExclusive, Commands, Coalesced;
  }

  lemma SendDescends(depth: nat, p: Pipe, a: WriterAction, q: Pipe)
    requires SendStep(depth, p, a) == Some(q)
    ensures PipeWeight(q) < PipeWeight(p) || (PipeWeight(q) == PipeWeight(p) && |Rest(q.writer)| < |Rest(p.writer)|)
  {
    hide DotStuffing.Encode;
  }

  // ----- the reader -----

  lemma NotifyDescends(p: Pipe)
    ensures PipeWeight(NotifyOne(p)) <= PipeWeight(p) + 3 && Rest(NotifyOne(p).writer) == Rest(p.writer)
  {
  }

  lemma ClearingSnoc(line: seq<Req>, r: Req)
    ensures Clearing(line + [r]) == Clearing(line) + (if r.invalidate then 1 else 0)
  {
    assert (line + [r])[..|line|] == line;
  }

  lemma {:induction false} ClearingCons(r: Req, line: seq<Req>)
    ensures Clearing([r] + line) == (if r.invalidate then 1 else 0) + Clearing(line)
  {
    if line == [] {
      ClearingSnoc([], r);
      assert [r] + line == [] + [r];
    } else {
      var init, last := line[..|line| - 1], line[|line| - 1];
      ClearingCons(r, init);
      ClearingSnoc([r] + init, last);
      assert [r] + line == [r] + init + [last];
    }
  }

  // ----- every step of the engine's own -----

  lemma CallerMeasure(c: Config, s: State, a: CallerAction, t: State)
    requires Inv(c, s) && Internal(Caller(a)) && Advance(c, s, Caller(a)) == Some(t)
    ensures Below(MeasureOf(t), MeasureOf(s))
  {
    hide CallerStep, Ordered, AllWellFormed, ProbeInStep, Hold, Alone, Shape, Counted, WillWake, Written, Scripted, Handoff, Reading, Backed,
      Quiet, Deliver, Line, Pool, CallerWeight, PipeWeight, ReaderWeight, Clearing, Internal;
    CallerDescends(s.callers, s.inbox, a, t.callers, |s.admitted|);
  }

  lemma EnqueueWeights(k: Callers, l: Callers, n: Req, listed: bool, done: seq<Exchange>)
    requires k.barrier.Sender? && k.barrier.stage == Sending && |done| <= n.id
    requires l.waiting == k.waiting && l.probeQueue == k.probeQueue
    requires l.barrier == Carried(n.id) || l.barrier == Sender(n, k.barrier.guarded, Queued)
    requires l.probe == if !k.barrier.guarded && k.probe.Probing? then Probing(k.probe.req, NestedSent(n.id)) else k.probe
    requires !k.barrier.guarded ==> k.probe.Probing? && k.probe.stage == NestedSending
    ensures Pool(l) + (if k.barrier.guarded then 1 else 0) == Pool(k)
    ensures CallerWeight(l, listed, done) + IN_QUEUE < CallerWeight(k, listed, done)
  {
    hide ListsCapabilities;
  }

  lemma ProbeClearsNothing(k: Callers)
    requires AllWellFormed(k) && k.barrier.Sender? && k.barrier.req.kind.Capabilities?
    ensures !k.barrier.req.invalidate
  {
    hide WellFormedIn;
  }

  lemma EnqueueMeasure(c: Config, s: State, t: State)
    requires Inv(c, s) && Advance(c, s, Enqueue) == Some(t)
    ensures Below(MeasureOf(t), MeasureOf(s))
  {
    hide AllWellFormed, Hold, Alone, Shape, Counted, WillWake, Written, Scripted, Handoff, Reading, Backed, Quiet, Deliver, Line, OnWire, Pool,
      CallerWeight, ReaderWeight, Clearing, RequiresBarrier;
    EnqueueMoves(c, s, t);
    var n := t.admitted[|s.admitted|];
    ClearingSnoc(Line(s.inbox.reader, s.pipe), n);
    EnqueueWeights(s.callers, t.callers, n, s.inbox.caps.Some?, s.inbox.done);
    assert n.invalidate == s.callers.barrier.req.invalidate;
    if !s.callers.barrier.guarded { ProbeClearsNothing(s.callers); }
  }

  lemma WriterMeasure(c: Config, s: State, a: WriterAction, t: State)
    requires Inv(c, s) && Advance(c, s, WriterTask(a)) == Some(t)
    ensures Below(MeasureOf(t), MeasureOf(s))
  {
    hide CallersOk, Hold, Alone, Ordered, Counted, WillWake, Written, Scripted, Handoff, Reading, Backed, Quiet, Deliver, Line, Pool,
      CallerWeight, PipeWeight, ReaderWeight, Clearing, CollectStep, SendStep, Collects, Committed, Ahead, Front, Coalesced, Holds, IsExclusive;
    var p, q, rd := s.pipe, t.pipe, s.inbox.reader;
    LineParts(rd, p);
    LineParts(rd, q);
    if Collects(a) {
      CollectMoves(p, a, q);
      CollectDescends(p, a, q);
    } else {
      SendMoves(c.depth, p, a, q);
      SendDescends(c.depth, p, a, q);
    }
  }

  lemma ReceiveMeasure(c: Config, s: State, a: ReceiveAction, t: State)
    requires Inv(c, s) && Advance(c, s, Receive(a)) == Some(t) && a != SettleRequest
    ensures Below(MeasureOf(t), MeasureOf(s))
  {
    hide CallersOk, Hold, Alone, Ordered, Shape, Counted, WillWake, Written, Scripted, Handoff, Backed, Quiet, Deliver, Pool, Served, Answer,
      CallerWeight, PipeWeight, Clearing, Committed, Ahead, Front, HeadItems, Finishing, Asks;
    ReceiveFrame(c.g, s.inbox, a, t.inbox);
  }

  /** Settling empties the list only with a request that may, and an answered probe fills it. */
  lemma SettleList(caps: Option<CapabilityList>, x: Exchange, final: Response)
    requires Final(x) == Some(final)
    ensures caps.Some? && StoreTransition(caps, x.req, final).0.None? ==> x.req.invalidate
    ensures ListOf(x).Some? ==> StoreTransition(caps, x.req, final).0.Some?
  {
    hide Capabilities.ParseCapabilities, ContentOf;
  }

  /** The caller of a settled request gets an error exactly when a list was due and none came:
      a 101 that cannot be read, or any other answer to a request that asks for a list. */
  lemma CallerGetsError(caps: Option<CapabilityList>, x: Exchange, final: Response)
    requires Final(x) == Some(final)
    ensures !StoreTransition(caps, x.req, final).1 <==>
              ListOf(x).None? && (x.req.mark || (x.req.kind.Capabilities? && final.status == 101))
  {
    hide Capabilities.ParseCapabilities, ContentOf, ResponseInvalidatesCapabilities;
  }

  lemma SettleWeights(k: Callers, done: seq<Exchange>, x: Exchange)
    requires !ListsCapabilities(x)
    ensures CallerWeight(k, false, done + [x]) <= CallerWeight(k, false, done)
  {
    hide ListsCapabilities, SenderWeight;
  }

  lemma ListedWeights(k: Callers, done: seq<Exchange>, more: seq<Exchange>)
    ensures CallerWeight(k, true, done) == CallerWeight(k, true, more)
  {
    hide ListsCapabilities, SenderWeight;
  }

  lemma SettleMeasure(c: Config, s: State, t: State)
    requires Inv(c, s) && Advance(c, s, Receive(SettleRequest)) == Some(t)
    ensures Below(MeasureOf(t), MeasureOf(s))
  {
    hide CallersOk, Hold, Alone, Ordered, Shape, Counted, WillWake, Written, Scripted, Handoff, Reading, Backed, Quiet, Deliver, Pool, Line, OnWire,
      CallerWeight, PipeWeight, Clearing, ReceiveStep, StoreTransition, ListOf;
    var b, d := s.inbox, t.inbox;
    SettleMoves(c.g, b, s.pipe, d);
    var x := Exchange(b.reader.req, b.reader.frames);
    ClearingCons(b.reader.req, Line(d.reader, s.pipe));
    SettleList(b.caps, x, d.reader.final);
    if b.caps.Some? { ListedWeights(s.callers, b.done, d.done); }
    else if !ListsCapabilities(x) { SettleWeights(s.callers, b.done, x); }
  }

  lemma PassWeights(s: State, a: PassAction, t: State)
    requires PassStep(s, a) == Some(t)
    ensures PipeWeight(t.pipe) + ReaderWeight(t.inbox.reader) < PipeWeight(s.pipe) + ReaderWeight(s.inbox.reader)
  {
    hide RequiresBarrier, NotifyOne, AcceptsArticle, WriterWeight, Taken, Sent;
    NotifyDescends(s.pipe);
  }

  lemma PassMeasure(c: Config, s: State, a: PassAction, t: State)
    requires Inv(c, s) && PassStep(s, a) == Some(t)
    ensures Below(MeasureOf(t), MeasureOf(s))
  {
    hide CallersOk, Alone, Ordered, Shape, Counted, WillWake, Written, Scripted, Handoff, Reading, Backed, Quiet, Deliver, OnWire, Ahead,
      Clearing, RequiresBarrier, NotifyOne, AcceptsArticle, ProbeWeight, PipeWeight, ReaderWeight;
    PassMoves(s, a, t);
    PassWeights(s, a, t);
  }

  /** Every step of the engine's own brings the measure down, or ends in failure. */
  lemma InternalStepDescends(c: Config, s: State, step: Step, t: State)
    requires Inv(c, s) && Internal(step) && Advance(c, s, step) == Some(t)
    ensures t.failed || Below(MeasureOf(t), MeasureOf(s))
  {
    hide Inv, CallerStep, EnqueueStep, WriterStep, ReceiveStep, PassStep, Deliver, Below, MeasureOf;
    match step
    case Caller(a) => CallerMeasure(c, s, a, t);
    case Enqueue => EnqueueMeasure(c, s, t);
    case WriterTask(a) => WriterMeasure(c, s, a, t);
    case Receive(a) => if a == SettleRequest { SettleMeasure(c, s, t); } else { ReceiveMeasure(c, s, a, t); }
    case Pass(a) => PassMeasure(c, s, a, t);
    case _ =>
  }

  // ----- at rest everything is delivered -----

  /** A peer that owes a response has sent no complete answer to the request in front. */
  lemma NoFurtherAnswer(c: Config, s: State)
    requires Inv(c, s) && PeerOwes(c, s)
    ensures var line := Line(s.inbox.reader, s.pipe);
            line != [] && Answer(c.g, line[0], s.inbox.sent[Total(s.inbox.done)..]).None?
  {
    hide Ordered, CallersOk, Hold, Alone, Shape, Counted, WillWake, Written, Scripted, Handoff, Backed, Quiet, Deliver, Served, Committed,
      Ahead, Promised, Flat, AcceptsArticle;
    var b := s.inbox;
    var at := Total(b.done);
    assert Pending(b) == b.sent[b.cut..];
    if b.reader.Second? { SliceSlice(b.sent, at, |b.reader.first.bytes|); }
  }

  lemma NoReplies(g: Grammar, reqs: seq<Req>, stream: Bytes)
    requires reqs != [] && Answer(g, reqs[0], stream).None?
    ensures Replies(g, reqs, stream) == []
  {
    hide Answer;
  }

  /** Every answer that the peer's bytes hold has been delivered, and if work is left then a
      response is due from the peer. */
  predicate AllDelivered(c: Config, s: State) {
    s.inbox.done == Replies(c.g, s.admitted, s.inbox.sent) && (HasWork(s) ==> PeerOwes(c, s))
  }

  /** The engine rests only when everything is delivered. */
  lemma AtRestAllDelivered(c: Config, s: State)
    requires Reachable(c, s) && !s.failed && c.depth > 0 && Stuck(c, s)
    ensures AllDelivered(c, s)
  {
    hide CallersOk, Hold, Alone, Shape, Counted, WillWake, Written, Scripted, Handoff, Backed, Quiet, Deliver, Served, Answer, Replies, Line,
      Stuck, PeerOwes, WellFormed;
    ReachableInv(c, s);
    if HasWork(s) {
      StuckMeansPeerOwes(c, s);
      NoFurtherAnswer(c, s);
      var line := Line(s.inbox.reader, s.pipe);
      ServedLeads(c.g, s.inbox.done, line, s.inbox.sent);
      NoReplies(c.g, line, s.inbox.sent[Total(s.inbox.done)..]);
    } else {
      AllRequestsAnswered(c, s);
    }
  }

  // ----- every schedule -----

  /** Left alone, the engine takes one of its own steps as long as it has one. */
  ghost predicate OnItsOwn(c: Config, s: State, step: Step, t: State) {
    s.failed || Stuck(c, s) || (Internal(step) && Advance(c, s, step) == Some(t))
  }

  /** A schedule of an engine left alone: any of its own steps, in any order. */
  ghost predicate Schedule(c: Config, states: nat -> State, steps: nat -> Step) {
    forall i: nat :: OnItsOwn(c, states(i), steps(i), states(i + 1))
  }

  /** A run is carried on by steps of the engine's own. */
  predicate Extends(before: seq<Step>, run: seq<Step>) {
    before <= run && forall i | |before| <= i < |run| :: Internal(run[i])
  }

  lemma RunSnoc(c: Config, run: seq<Step>, s: State, step: Step, t: State)
    requires Run(c, Init(), run) == Some(s) && Advance(c, s, step) == Some(t)
    ensures Run(c, Init(), run + [step]) == Some(t)
  {
    hide Advance;
    assert (run + [step])[..|run|] == run;
  }

  lemma OwnStep(c: Config, run: seq<Step>, s: State, step: Step, t: State)
    requires Run(c, Init(), run) == Some(s) && OnItsOwn(c, s, step, t) && !s.failed && !Stuck(c, s)
    ensures Run(c, Init(), run + [step]) == Some(t) && Internal(step) && (t.failed || Below(MeasureOf(t), MeasureOf(s)))
  {
    hide Run, Stuck, Advance, Internal, MeasureOf, Inv, Below;
    assert Reachable(c, s);
    ReachableInv(c, s);
    RunSnoc(c, run, s, step, t);
    InternalStepDescends(c, s, step, t);
  }

  /** On every schedule, after finitely many steps, the engine has failed or is at rest; the
      run so far is carried on by its own steps. */
  lemma {:induction false} ScheduleEnds(c: Config, states: nat -> State, steps: nat -> Step, before: seq<Step>, from: nat)
    returns (i: nat, run: seq<Step>)
    requires Run(c, Init(), before) == Some(states(from)) && Schedule(c, states, steps)
    ensures Run(c, Init(), run) == Some(states(i)) && Extends(before, run) && (states(i).failed || Stuck(c, states(i)))
    decreases !states(from).failed, MeasureOf(states(from)).clearing, MeasureOf(states(from)).missing,
              MeasureOf(states(from)).steps, MeasureOf(states(from)).bytes
  {
    hide Run, Stuck, Advance, Internal, MeasureOf;
    var s, t := states(from), states(from + 1);
    if s.failed || Stuck(c, s) {
      return from, before;
    }
    OwnStep(c, before, s, steps(from), t);
    i, run := ScheduleEnds(c, states, steps, before + [steps(from)], from + 1);
    assert run[|before|] == steps(from);
  }

  /** No livelock: on every schedule, after finitely many steps, the engine has failed or
      has delivered everything. */
  lemma EveryScheduleDelivers(c: Config, states: nat -> State, steps: nat -> Step)
    requires Reachable(c, states(0)) && c.depth > 0 && Schedule(c, states, steps)
    ensures exists i: nat :: states(i).failed || AllDelivered(c, states(i))
  {
    hide Run, Stuck, AllDelivered, Schedule;
    var before :| Run(c, Init(), before) == Some(states(0));
    var i, run := ScheduleEnds(c, states, steps, before, 0);
    if !states(i).failed {
      assert Reachable(c, states(i));
      AtRestAllDelivered(c, states(i));
    }
  }

  lemma ReachableNext(c: Config, s: State, step: Step, t: State)
    requires Reachable(c, s) && Advance(c, s, step) == Some(t)
    ensures Reachable(c, t)
  {
    hide Run, Advance;
    var run :| Run(c, Init(), run) == Some(s);
    RunSnoc(c, run, s, step, t);
  }

  lemma {:induction false} RepliesMore(g: Grammar, reqs: seq<Req>, more: seq<Req>, stream: Bytes)
    requires |Replies(g, reqs, stream)| == |reqs|
    ensures |Replies(g, reqs + more, stream)| >= |reqs|
  {
    hide Answer, Size;
    if reqs != [] {
      var frames := Answer(g, reqs[0], stream).value;
      RepliesMore(g, reqs[1..], more, stream[Size(frames)..]);
      assert (reqs + more)[1..] == reqs[1..] + more;
    }
  }

  /** What the engine's own steps leave alone, and that only bad bytes make them fail. */
  lemma InternalFrame(c: Config, s: State, step: Step, t: State)
    requires Internal(step) && Advance(c, s, step) == Some(t)
    ensures t.inbox.sent == s.inbox.sent && s.admitted <= t.admitted
    ensures t.failed ==> step == Reject
  {
    hide CallerStep, WriterStep, Deliver, StoreTransition, RequiresBarrier, AcceptsArticle, NotifyOne;
  }

  /** The first unsettled request, seen from a prefix of the admitted ones. */
  lemma FrontOfPrefix(s: State, reqs: seq<Req>)
    requires Ordered(s) && reqs <= s.admitted && |s.inbox.done| < |reqs|
    ensures var n := |s.inbox.done|;
            && reqs == ReqsOf(s.inbox.done) + reqs[n..]
            && Line(s.inbox.reader, s.pipe) != [] && reqs[n..][0] == Line(s.inbox.reader, s.pipe)[0]
  {
    hide WellFormed, Line;
    var n := |s.inbox.done|;
    forall i | 0 <= i < n ensures reqs[i] == ReqsOf(s.inbox.done)[i] { assert reqs[i] == s.admitted[i]; }
    assert reqs[n] == s.admitted[n] == Line(s.inbox.reader, s.pipe)[0];
  }

  lemma RejectedHasNoAnswer(c: Config, s: State)
    requires Inv(c, s) && Advance(c, s, Reject).Some?
    ensures var line := Line(s.inbox.reader, s.pipe);
            line != [] && Answer(c.g, line[0], s.inbox.sent[Total(s.inbox.done)..]).None?
  {
    hide Ordered, CallersOk, Hold, Alone, Shape, Counted, WillWake, Written, Scripted, Handoff, Backed, Quiet, Deliver, Served, Committed,
      Ahead, AcceptsArticle;
    var b := s.inbox;
    var at := Total(b.done);
    DeliverStable(c.g, b.reader.req.kind, Pending(b), b.sent[b.read..]);
    assert b.sent[b.cut..] == Pending(b) + b.sent[b.read..];
    if b.reader.Second? { SliceSlice(b.sent, at, |b.reader.first.bytes|); }
  }

  /** As long as the peer's bytes answer the request in front they are not rejected. */
  lemma AnsweredIsNotRejected(c: Config, s: State, reqs: seq<Req>, t: State)
    requires Inv(c, s) && Advance(c, s, Reject) == Some(t)
    requires reqs <= s.admitted && |Replies(c.g, reqs, s.inbox.sent)| == |reqs|
    ensures |reqs| <= |s.inbox.done|
  {
    hide Ordered, CallersOk, Hold, Alone, Shape, Counted, WillWake, Written, Scripted, Handoff, Backed, Quiet, Deliver, Served, Line, Answer,
      Replies, Advance;
    var b := s.inbox;
    if |b.done| < |reqs| {
      var rest := reqs[|b.done|..];
      RejectedHasNoAnswer(c, s);
      FrontOfPrefix(s, reqs);
      ServedLeads(c.g, b.done, rest, b.sent);
      NoReplies(c.g, rest, b.sent[Total(b.done)..]);
    }
  }

  lemma {:induction false} ServesAll(c: Config, states: nat -> State, steps: nat -> Step, reqs: seq<Req>, from: nat) returns (i: nat)
    requires Reachable(c, states(from)) && !states(from).failed && c.depth > 0 && Schedule(c, states, steps)
    requires reqs <= states(from).admitted && |Replies(c.g, reqs, states(from).inbox.sent)| == |reqs|
    ensures !states(i).failed && |reqs| <= |states(i).inbox.done|
    decreases MeasureOf(states(from)).clearing, MeasureOf(states(from)).missing, MeasureOf(states(from)).steps,
              MeasureOf(states(from)).bytes
  {
    hide Reachable, Stuck, Advance, Internal, MeasureOf, Replies;
    var s, t := states(from), states(from + 1);
    if |reqs| <= |s.inbox.done| {
      return from;
    }
    var more := s.admitted[|reqs|..];
    assert s.admitted == reqs + more;
    RepliesMore(c.g, reqs, more, s.inbox.sent);
    if Stuck(c, s) { AtRestAllDelivered(c, s); }
    assert OnItsOwn(c, s, steps(from), t);
    ReachableInv(c, s);
    ReachableNext(c, s, steps(from), t);
    InternalFrame(c, s, steps(from), t);
    if steps(from) == Reject { AnsweredIsNotRejected(c, s, reqs, t); }
    InternalStepDescends(c, s, steps(from), t);
    i := ServesAll(c, states, steps, reqs, from + 1);
  }

  /** A peer whose bytes answer every admitted request gets every one of them settled, on
      every schedule and in finitely many steps, without a failure on the way. */
  lemma AnsweringPeerIsServed(c: Config, states: nat -> State, steps: nat -> Step)
    requires Reachable(c, states(0)) && !states(0).failed && c.depth > 0 && Schedule(c, states, steps)
    requires |Replies(c.g, states(0).admitted, states(0).inbox.sent)| == |states(0).admitted|
    ensures exists i: nat :: !states(i).failed && |states(0).admitted| <= |states(i).inbox.done|
  {
    hide Reachable, Replies, Schedule;
    var i := ServesAll(c, states, steps, states(0).admitted, 0);
  }
}
