/** Every step of the engine keeps the invariant. */
module EngineSteps {
  import opened Wire
  import opened Protocol
  import opened Frames
  import opened Engine
  import opened EngineInvariant
  import DotStuffing
  import Text

  lemma WireLeadsLine(rd: Reader, p: Pipe)
    ensures OnWire(rd, p) <= Line(rd, p)
  {
    hide OnWire, Ahead;
  }

  lemma LineParts(rd: Reader, p: Pipe)
    ensures Line(rd, p) == Front(rd) + (Committed(p) + Ahead(p))
  {
    hide Front, Committed, Ahead;
  }

  // ----- callers -----

  lemma ProbeWellFormed()
    ensures WellFormed(PROBE) && PROBE.kind.Capabilities?
  {
  }

  lemma WellFormedChange(m: multiset<Req>, r: Req)
    requires WellFormedIn(m)
    ensures r in m ==> WellFormed(r)
    ensures WellFormed(r) ==> WellFormedIn(m + multiset{r})
    ensures WellFormedIn(m - multiset{r})
  {
    hide WellFormed;
  }

  /** A request joins those that wait, for the barrier or for the probe. */
  lemma JoinKeepsWellFormed(k: Callers, r: Req)
    requires AllWellFormed(k) && WellFormed(r)
    ensures AllWellFormed(k.(waiting := k.waiting + multiset{r}))
    ensures AllWellFormed(k.(probeQueue := k.probeQueue + multiset{r}))
  {
    hide WellFormed, WellFormedIn;
    WellFormedChange(k.waiting, r);
    WellFormedChange(k.probeQueue, r);
  }

  /** A request leaves those that wait. */
  lemma LeaveKeepsWellFormed(k: Callers, r: Req)
    requires AllWellFormed(k)
    ensures AllWellFormed(k.(waiting := k.waiting - multiset{r})) && (r in k.waiting ==> WellFormed(r))
    ensures AllWellFormed(k.(probeQueue := k.probeQueue - multiset{r})) && (r in k.probeQueue ==> WellFormed(r))
  {
    hide WellFormed, WellFormedIn;
    WellFormedChange(k.waiting, r);
    WellFormedChange(k.probeQueue, r);
  }

  /** The barrier or the probe passes to a well-formed request, or to none. */
  lemma HandKeepsWellFormed(k: Callers, barrier: Barrier, probe: Probe)
    requires AllWellFormed(k)
    requires barrier.Sender? ==> WellFormed(barrier.req)
    requires probe.Probing? ==> WellFormed(probe.req)
    ensures AllWellFormed(k.(barrier := barrier, probe := probe))
  {
    hide WellFormed, WellFormedIn;
  }

  lemma HeldWellFormed(k: Callers)
    requires AllWellFormed(k)
    ensures k.barrier.Sender? ==> WellFormed(k.barrier.req)
    ensures k.probe.Probing? ==> WellFormed(k.probe.req)
  {
    hide WellFormed, WellFormedIn;
  }

  lemma TakeBarrierKeepsWellFormed(k: Callers, b: Inbox, r: Req, l: Callers)
    requires AllWellFormed(k) && CallerStep(k, b, TakeBarrier(r)) == Some(l)
    ensures AllWellFormed(l)
  {
    hide RequiresCapabilities, ListsCapabilities, WellFormed, AllWellFormed, Text.Ascii;
    LeaveKeepsWellFormed(k, r);
    HeldWellFormed(k);
    HandKeepsWellFormed(k.(waiting := l.waiting), l.barrier, l.probe);
  }

  lemma CheckCapabilitiesKeepsWellFormed(k: Callers, b: Inbox, l: Callers)
    requires AllWellFormed(k) && CallerStep(k, b, CheckCapabilities) == Some(l)
    ensures AllWellFormed(l)
  {
    hide RequiresCapabilities, ListsCapabilities, WellFormed, AllWellFormed, Text.Ascii;
    HeldWellFormed(k);
    JoinKeepsWellFormed(k, k.barrier.req);
    HandKeepsWellFormed(k.(probeQueue := l.probeQueue), l.barrier, l.probe);
  }

  lemma TakeProbeKeepsWellFormed(k: Callers, b: Inbox, r: Req, l: Callers)
    requires AllWellFormed(k) && CallerStep(k, b, TakeProbe(r)) == Some(l)
    ensures AllWellFormed(l)
  {
    hide RequiresCapabilities, ListsCapabilities, WellFormed, AllWellFormed, Text.Ascii;
    LeaveKeepsWellFormed(k, r);
    HeldWellFormed(k);
    HandKeepsWellFormed(k.(probeQueue := l.probeQueue), l.barrier, l.probe);
  }

  lemma ProbeCheckKeepsWellFormed(k: Callers, b: Inbox, l: Callers)
    requires AllWellFormed(k) && CallerStep(k, b, ProbeCheck) == Some(l)
    ensures AllWellFormed(l)
  {
    hide RequiresCapabilities, ListsCapabilities, WellFormed, AllWellFormed, Text.Ascii;
    HeldWellFormed(k);
    JoinKeepsWellFormed(k, k.probe.req);
    HandKeepsWellFormed(k.(waiting := l.waiting), l.barrier, l.probe);
  }

  lemma ProbeAnsweredKeepsWellFormed(k: Callers, b: Inbox, l: Callers)
    requires AllWellFormed(k) && CallerStep(k, b, ProbeAnswered) == Some(l)
    ensures AllWellFormed(l)
  {
    hide RequiresCapabilities, ListsCapabilities, WellFormed, AllWellFormed, Text.Ascii;
    HeldWellFormed(k);
    JoinKeepsWellFormed(k, k.probe.req);
    HandKeepsWellFormed(k.(waiting := l.waiting), l.barrier, l.probe);
  }

  /** The remaining steps, in which no request comes or goes but the one they name. */
  lemma OtherKeepsWellFormed(k: Callers, b: Inbox, a: CallerAction, l: Callers)
    requires AllWellFormed(k) && CallerStep(k, b, a) == Some(l)
    requires !(a.TakeBarrier? || a.CheckCapabilities? || a.TakeProbe? || a.ProbeCheck? || a.ProbeAnswered?)
    ensures AllWellFormed(l)
  {
    hide RequiresCapabilities, ListsCapabilities, WellFormed, AllWellFormed, Text.Ascii;
    HeldWellFormed(k);
    match a
    case Call(r) => JoinKeepsWellFormed(k, r);
    case CallProbeFirst(r) => JoinKeepsWellFormed(k, r);
    case DropWaiting(r) => LeaveKeepsWellFormed(k, r);
    case DropProbeWaiter(r) => LeaveKeepsWellFormed(k, r);
    case TakeBarrierForProbe => ProbeWellFormed(); HandKeepsWellFormed(k, l.barrier, l.probe);
    case _ => HandKeepsWellFormed(k, l.barrier, l.probe);
  }

  lemma CallerKeepsWellFormed(k: Callers, b: Inbox, a: CallerAction, l: Callers)
    requires AllWellFormed(k) && CallerStep(k, b, a) == Some(l)
    ensures AllWellFormed(l)
  {
    hide CallerStep, AllWellFormed;
    match a
    case TakeBarrier(r) => TakeBarrierKeepsWellFormed(k, b, r, l);
    case CheckCapabilities => CheckCapabilitiesKeepsWellFormed(k, b, l);
    case TakeProbe(r) => TakeProbeKeepsWellFormed(k, b, r, l);
    case ProbeCheck => ProbeCheckKeepsWellFormed(k, b, l);
    case ProbeAnswered => ProbeAnsweredKeepsWellFormed(k, b, l);
    case _ => OtherKeepsWellFormed(k, b, a, l);
  }

  lemma CallerKeepsProbe(k: Callers, b: Inbox, a: CallerAction, l: Callers, admitted: nat)
    requires ProbeInStep(k.barrier, k.probe, admitted) && CallerStep(k, b, a) == Some(l)
    ensures ProbeInStep(l.barrier, l.probe, admitted)
  {
    hide RequiresCapabilities, ListsCapabilities, WellFormed, Text.Ascii;
    ProbeWellFormed();
  }

  lemma ProbeNeedsNoList()
    ensures !RequiresCapabilities(RequestKind.Capabilities)
  {
  }

  lemma QuitHolds()
    ensures RequiresBarrier(Quit) && IsExclusive(Quit)
  {
  }

  /** Callers never touch a carried barrier, and pass the closed
      check only while the connection is open and the capability check only with a list. */
  lemma CallerBarrier(k: Callers, b: Inbox, a: CallerAction, l: Callers, admitted: nat)
    requires CallersOk(k, admitted) && CallerStep(k, b, a) == Some(l)
    ensures l.barrier == k.barrier || (!l.barrier.Carried? && !k.barrier.Carried?)
    ensures l.barrier.Sender? && l.barrier.stage != Locked ==>
              !b.closed || (k.barrier.Sender? && k.barrier.stage != Locked)
    ensures l.barrier.Sender? && l.barrier.stage == Queued ==> l.barrier == k.barrier
    ensures l.barrier.Sender? && l.barrier.stage == Sending && RequiresCapabilities(l.barrier.req.kind) ==>
              b.caps.Some? || l.barrier == k.barrier
  {
    hide RequiresCapabilities, ListsCapabilities, WellFormed, Text.Ascii;
    ProbeNeedsNoList();
  }

  lemma CallerKeeps(c: Config, s: State, a: CallerAction, t: State)
    requires Inv(c, s) && Advance(c, s, Caller(a)) == Some(t)
    ensures Inv(c, t)
  {
    hide CallerStep, AllWellFormed, ProbeInStep, Alone, Shape, Counted, WillWake, Written, Scripted, Handoff, Reading,
      RequiresCapabilities, RequiresBarrier, CapsAfter, IsQuit, Line, OnWire, Deliver, WellFormed;
    QuitHolds();
    var k, l := s.callers, t.callers;
    CallerKeepsWellFormed(k, s.inbox, a, l);
    CallerKeepsProbe(k, s.inbox, a, l, |s.admitted|);
    CallerBarrier(k, s.inbox, a, l, |s.admitted|);
  }

  // ----- entering the queue -----

  lemma EnqueueMoves(c: Config, s: State, t: State)
    requires EnqueueStep(c, s) == Some(t)
    ensures s.callers.barrier.Sender? && t.inbox == s.inbox && t.pipe == s.pipe.(queue := t.pipe.queue)
    ensures var n := s.callers.barrier.req.(id := |s.admitted|);
            && t.admitted == s.admitted + [n]
            && Line(t.inbox.reader, t.pipe) == Line(s.inbox.reader, s.pipe) + [n]
            && t.callers.barrier == (if RequiresBarrier(n.kind) then Carried(n.id) else Sender(n, s.callers.barrier.guarded, Queued))
    ensures OnWire(t.inbox.reader, t.pipe) == OnWire(s.inbox.reader, s.pipe)
  {
    hide RequiresBarrier;
    var n := s.callers.barrier.req.(id := |s.admitted|);
    assert Ahead(t.pipe) == Ahead(s.pipe) + [n];
  }

  /** Nothing but the order of admission depends on the queue. */
  lemma QueueIsBehind(b: Inbox, p: Pipe, q: Pipe)
    requires q == p.(queue := q.queue)
    ensures Shape(q) == Shape(p) && Counted(b.reader, q) == Counted(b.reader, p) && WillWake(b.reader, q) == WillWake(b.reader, p)
    ensures Written(q) == Written(p) && Scripted(b, q) == Scripted(b, p) && Handoff(b.reader, q) == Handoff(b.reader, p)
  {
    hide Flat, Script, IsExclusive, HeadItems, Commands;
  }

  lemma EnqueueKeepsCallers(c: Config, s: State, t: State)
    requires CallersOk(s.callers, |s.admitted|) && EnqueueStep(c, s) == Some(t)
    ensures CallersOk(t.callers, |t.admitted|)
    ensures WellFormed(t.admitted[|s.admitted|])
  {
    hide RequiresBarrier, WellFormedIn;
  }

  lemma EnqueueKeeps(c: Config, s: State, t: State)
    requires Inv(c, s) && Advance(c, s, Enqueue) == Some(t)
    ensures Inv(c, t)
  {
    hide CallersOk, Shape, Counted, WillWake, Written, Scripted, Handoff, Reading, IsExclusive,
      RequiresCapabilities, RequiresBarrier, CapsAfter, IsQuit, Line, OnWire, Deliver, WellFormed, IsQuitDone;
    EnqueueMoves(c, s, t);
    QueueIsBehind(s.inbox, s.pipe, t.pipe);
    EnqueueKeepsCallers(c, s, t);
    WireLeadsLine(s.inbox.reader, s.pipe);
    var wire := OnWire(s.inbox.reader, s.pipe);
    forall i | 0 <= i < |wire| ensures !IsExclusive(wire[i].kind) { CoordinationFacts(wire[i].kind); }
  }

  // ----- the writer collects -----

  /** The requests a collecting step commits. */
  function Commits(p: Pipe, a: WriterAction): (batch: seq<Req>)
    requires CollectStep(p, a).Some?
  {
    match CollectStep(p, a).value.writer
    case Writing(batch, _) => batch
    case _ => []
  }

  lemma CommitNothing()
    ensures Commands([]) == [] && WireOf([]) == []
  {
  }

  /** A collecting step commits a batch whole: its commands and its bytes, behind all others. */
  lemma CollectCommits(p: Pipe, a: WriterAction, q: Pipe)
    requires CollectStep(p, a) == Some(q)
    ensures var batch := Commits(p, a);
            Committed(q) == Committed(p) + batch && q.issued == p.issued + Commands(batch) && Rest(q.writer) == WireOf(batch)
    ensures q.out == p.out && q.chan == p.chan && q.signal == p.signal && q.inflight == p.inflight
    ensures Committed(p) == p.chan
    ensures p.writer.Top? || p.writer.WaitIdle? || p.writer.Batching?
    ensures q.writer.WaitIdle? || q.writer.Batching? || q.writer.Writing?
  {
    hide IsExclusive, WireOf, Commands;
    CommitNothing();
  }

  lemma CollectKeepsShape(p: Pipe, a: WriterAction, q: Pipe)
    requires CollectStep(p, a) == Some(q) && Shape(p)
    ensures Shape(q)
    ensures forall r <- Commits(p, a) :: IsExclusive(r.kind) ==> p.writer.WaitIdle? && p.inflight == 0
    ensures q.writer.WaitIdle? && q.writer.stage == Park(Waiting) ==> p.inflight != 0
  {
    hide WireOf, IsExclusive, Commands;
  }

  lemma CommandsAppend(a: seq<Req>, b: seq<Req>)
    ensures Commands(a + b) == Commands(a) + Commands(b)
  {
  }

  lemma CommandsCons(r: Req, rest: seq<Req>)
    ensures Commands([r] + rest) == [Cmd(r)] + Commands(rest)
  {
  }

  lemma FlatSnoc(items: seq<Item>, i: Item)
    ensures Flat(items + [i]) == Flat(items) + ItemBytes(i)
  {
    hide ItemBytes;
    assert (items + [i])[..|items|] == items;
  }

  lemma {:induction false} FlatCommands(items: seq<Item>, batch: seq<Req>)
    ensures Flat(items + Commands(batch)) == Flat(items) + WireOf(batch)
  {
    hide DotStuffing.Encode, Flat;
    if batch == [] {
      assert items + Commands(batch) == items;
    } else {
      var init, r := batch[..|batch| - 1], batch[|batch| - 1];
      FlatCommands(items, init);
      FlatSnoc(items + Commands(init), Cmd(r));
      assert items + Commands(batch) == items + Commands(init) + [Cmd(r)];
      Assoc(Flat(items), WireOf(init), r.wire);
    }
  }

  lemma CollectKeepsWritten(p: Pipe, a: WriterAction, q: Pipe)
    requires CollectStep(p, a) == Some(q) && Written(p)
    ensures Written(q)
  {
    hide Flat, Commits, Commands, CollectStep, WireOf;
    CollectCommits(p, a, q);
    FlatCommands(p.issued, Commits(p, a));
  }

  lemma CollectKeepsScript(b: Inbox, p: Pipe, a: WriterAction, q: Pipe)
    requires CollectStep(p, a) == Some(q) && Scripted(b, p) && Handoff(b.reader, p)
    ensures Scripted(b, q) && Handoff(b.reader, q)
  {
    hide Script, HeadItems, Commits, CollectStep, WireOf, Commands;
    CollectCommits(p, a, q);
    CommandsAppend(p.chan, Commits(p, a));
    assert p.issued == Promised(b, p);
    assert q.issued == Promised(b, q);
  }

  lemma CollectKeepsAlone(barrier: Barrier, rd: Reader, p: Pipe, a: WriterAction, q: Pipe)
    requires CollectStep(p, a) == Some(q) && Shape(p) && Counted(rd, p)
    requires Hold(barrier, rd, Line(rd, p)) && Alone(OnWire(rd, p), Line(rd, p))
    ensures Line(rd, q) == Line(rd, p)
    ensures Alone(OnWire(rd, q), Line(rd, q))
  {
    hide CollectStep, Commits, WireOf, IsExclusive, RequiresBarrier, Commands;
    CollectMoves(p, a, q);
    CollectCommits(p, a, q);
    CollectKeepsShape(p, a, q);
    LineParts(rd, p);
    LineParts(rd, q);
    var wire := OnWire(rd, q);
    forall i | 0 <= i < |wire| && IsExclusive(wire[i].kind) ensures |Line(rd, q)| == 1 {
      if i < |OnWire(rd, p)| {
        assert OnWire(rd, p)[i] == wire[i];
      } else {
        assert wire[i] in Commits(p, a);
        assert OnWire(rd, p) == [];
        var line := Line(rd, p);
        assert line[0] == p.writer.first;
        CoordinationFacts(line[0].kind);
      }
    }
  }

  lemma CollectNeedsWork(p: Pipe, a: WriterAction)
    requires CollectStep(p, a).Some? && Shape(p)
    ensures Ahead(p) != []
  {
    hide WireOf, IsExclusive, Commands, TakeFirst;
  }

  lemma CollectKeeps(c: Config, s: State, a: WriterAction, t: State)
    requires Inv(c, s) && Advance(c, s, WriterTask(a)) == Some(t) && Collects(a)
    ensures Inv(c, t)
  {
    hide CallersOk, Shape, Written, Scripted, Handoff, Reading, Alone, Hold, Backed, Line, OnWire, Deliver, WellFormed,
      CollectStep, Commits, IsQuit, Collects, Ahead;
    var b, p, q := s.inbox, s.pipe, t.pipe;
    assert CollectStep(p, a) == Some(q) by { assert Collects(a); }
    CollectKeepsShape(p, a, q);
    CollectKeepsWritten(p, a, q);
    CollectKeepsScript(b, p, a, q);
    CollectKeepsAlone(s.callers.barrier, b.reader, p, a, q);
    CollectCommits(p, a, q);
    CollectNeedsWork(p, a);
    LineParts(b.reader, p);
  }

  // ----- the writer sends -----

  /** A request with an article is handed over as the only one of its batch. */
  predicate LoneArticle(p: Pipe) {
    p.writer.SendInflight? && p.writer.todo != [] && p.writer.todo[0].article.Some? ==> |p.writer.todo| == 1
  }

  lemma SendKeepsShape(rd: Reader, depth: nat, p: Pipe, a: WriterAction, q: Pipe)
    requires SendStep(depth, p, a) == Some(q) && Shape(p) && LoneArticle(p) && Counted(rd, p)
    ensures Shape(q) && Counted(rd, q)
    ensures !q.writer.WaitIdle?
  {
    hide DotStuffing.Encode, IsExclusive;
  }

  lemma WriteKeepsWritten(p: Pipe, n: nat, q: Pipe)
    requires SendStep(0, p, Write(n)) == Some(q) && Written(p)
    ensures Written(q)
  {
    hide Flat;
    var rest := p.writer.rest;
    assert p.out + rest == p.out + rest[..n] + rest[n..];
  }

  lemma SendKeepsWritten(depth: nat, p: Pipe, a: WriterAction, q: Pipe)
    requires SendStep(depth, p, a) == Some(q) && Shape(p) && Written(p)
    ensures Written(q)
  {
    hide DotStuffing.Encode, IsExclusive, Flat, Coalesced, Holds;
    match a
    case Write(n) => WriteKeepsWritten(p, n, q);
    case TakeSignal => FlatSnoc(p.issued, Art(p.writer.req));
    case _ =>
  }

  lemma LastOfTwo(p: Pipe)
    requires p.writer.SendInflight? && |p.writer.todo| == 1
    ensures Committed(p) != [] && Committed(p)[|Committed(p)| - 1] == p.writer.todo[0]
  {
  }

  lemma HandOverKeepsScript(b: Inbox, depth: nat, p: Pipe, q: Pipe)
    requires SendStep(depth, p, HandOver) == Some(q) && Shape(p) && LoneArticle(p) && Scripted(b, p)
    ensures Scripted(b, q)
  {
    hide Script, HeadItems, Coalesced, Holds, IsExclusive, Committed, Commands;
    SendMoves(depth, p, HandOver, q);
    assert p.issued + Owed(p) == p.issued && q.issued + Owed(q) == q.issued;
    if p.writer.todo[0].article.Some? {
      assert Committed(p)[|Committed(p)| - 1] == p.writer.todo[0] by { LastOfTwo(p); }
    }
  }

  lemma TakeSignalKeepsScript(b: Inbox, depth: nat, p: Pipe, q: Pipe)
    requires SendStep(depth, p, TakeSignal) == Some(q) && Shape(p) && Scripted(b, p)
    ensures Scripted(b, q)
  {
    hide DotStuffing.Encode, Script, HeadItems, Coalesced, Holds, IsExclusive, Committed, Commands;
    SendMoves(depth, p, TakeSignal, q);
    assert q.issued + Owed(q) == p.issued + Owed(p);
  }

  lemma SendKeepsScript(b: Inbox, depth: nat, p: Pipe, a: WriterAction, q: Pipe)
    requires SendStep(depth, p, a) == Some(q) && Shape(p) && LoneArticle(p) && Scripted(b, p)
    ensures Scripted(b, q)
  {
    hide DotStuffing.Encode, Script, HeadItems, Coalesced, Holds, IsExclusive, Committed, Commands;
    SendMoves(depth, p, a, q);
    match a
    case HandOver => HandOverKeepsScript(b, depth, p, q);
    case TakeSignal => TakeSignalKeepsScript(b, depth, p, q);
    case _ =>
  }

  lemma SendKeepsHandoff(rd: Reader, depth: nat, p: Pipe, a: WriterAction, q: Pipe)
    requires SendStep(depth, p, a) == Some(q) && Shape(p) && LoneArticle(p) && Handoff(rd, p)
    ensures Handoff(rd, q)
  {
    hide DotStuffing.Encode, IsExclusive;
    if a.HandOver? { assert q.chan[|p.chan|] == p.writer.todo[0]; }
  }

  lemma ArticleIsExclusive(r: Req)
    requires WellFormed(r) && r.article.Some?
    ensures IsExclusive(r.kind)
  {
    CoordinationFacts(r.kind);
  }

  /** The first request to hand over, in the line of unsettled requests. */
  lemma SentInLine(rd: Reader, p: Pipe)
    requires p.writer.SendInflight? && p.writer.todo != []
    ensures var i := |Front(rd)| + |p.chan|;
            && i < |OnWire(rd, p)| && OnWire(rd, p)[i] == p.writer.todo[0]
            && i < |Line(rd, p)| && Line(rd, p)[i] == p.writer.todo[0]
            && |p.writer.todo| <= |Line(rd, p)|
  {
    hide Front, Ahead;
  }

  lemma ArticleIsLone(s: State)
    requires Ordered(s) && Alone(OnWire(s.inbox.reader, s.pipe), Line(s.inbox.reader, s.pipe))
    ensures LoneArticle(s.pipe)
  {
    hide WellFormed, IsExclusive, Ahead, Line, OnWire;
    var p, rd := s.pipe, s.inbox.reader;
    if p.writer.SendInflight? && p.writer.todo != [] && p.writer.todo[0].article.Some? {
      var i := |Front(rd)| + |p.chan|;
      SentInLine(rd, p);
      assert s.admitted[|s.inbox.done| + i] == Line(rd, p)[i];
      ArticleIsExclusive(p.writer.todo[0]);
    }
  }

  lemma SameLine(rd: Reader, p: Pipe, q: Pipe)
    requires Committed(q) == Committed(p) && Ahead(q) == Ahead(p)
    ensures OnWire(rd, q) == OnWire(rd, p) && Line(rd, q) == Line(rd, p)
  {
    hide Committed, Ahead;
  }

  lemma SendKeepsQuiet(k: Callers, b: Inbox, depth: nat, p: Pipe, a: WriterAction, q: Pipe)
    requires SendStep(depth, p, a) == Some(q) && Quiet(k, b, p) && Line(b.reader, q) == Line(b.reader, p)
    ensures Quiet(k, b, q)
  {
    hide DotStuffing.Encode, IsQuit, Ended, Line;
  }

  lemma SendKeeps(c: Config, s: State, a: WriterAction, t: State)
    requires Inv(c, s) && Advance(c, s, WriterTask(a)) == Some(t) && !Collects(a)
    ensures Inv(c, t)
  {
    hide CallersOk, Shape, Counted, Written, Scripted, Handoff, Reading, Alone, Hold, Backed, Quiet, Deliver, WellFormed, LoneArticle,
      SendStep, OnWire, Line, Collects;
    var b, p, q := s.inbox, s.pipe, t.pipe;
    ArticleIsLone(s);
    SendKeepsShape(b.reader, c.depth, p, a, q);
    SendKeepsWritten(c.depth, p, a, q);
    SendKeepsScript(b, c.depth, p, a, q);
    SendKeepsHandoff(b.reader, c.depth, p, a, q);
    SendMoves(c.depth, p, a, q);
    SameLine(b.reader, p, q);
    SendKeepsQuiet(s.callers, b, c.depth, p, a, q);
  }

  // ----- the reader receives -----

  lemma SizeOfFrames(f: Response, f2: Response)
    ensures Size([f]) == |f.bytes| && Size([f, f2]) == |f.bytes| + |f2.bytes|
  {
    assert [f, f2][..1] == [f];
  }

  /** A frame found in the bytes read so far is the frame at the front of the whole stream. */
  lemma FrameOfStream(g: Grammar, b: Inbox)
    requires Reading(g, b) && Receiving(b.reader) && Deliver(g, b.reader.req.kind, Pending(b)).Delivered?
    ensures var d := Deliver(g, b.reader.req.kind, Pending(b));
            d == Deliver(g, b.reader.req.kind, b.sent[b.cut..]) && |d.response.bytes| <= b.read - b.cut
  {
    hide Deliver, Served, Answer;
    DeliverStable(g, b.reader.req.kind, Pending(b), b.sent[b.read..]);
    assert b.sent[b.cut..] == Pending(b) + b.sent[b.read..];
  }

  lemma TakeFrameReading(g: Grammar, b: Inbox, d: Inbox)
    requires Reading(g, b) && ReceiveStep(g, b, TakeFrame) == Some(d)
    ensures Reading(g, d)
  {
    hide Deliver, Served, Pending, Size;
    FrameOfStream(g, b);
    var f := Deliver(g, b.reader.req.kind, Pending(b)).response;
    if b.reader.Second? {
      SizeOfFrames(b.reader.first, f);
      SliceSlice(b.sent, Total(b.done), |b.reader.first.bytes|);
    } else {
      SizeOfFrames(f, f);
    }
  }

  /** One more exchange, served where the others end. */
  lemma ServedSnoc(g: Grammar, done: seq<Exchange>, x: Exchange, sent: Bytes)
    ensures Total(done + [x]) == Total(done) + Size(x.frames)
    ensures Served(g, done, sent) && Total(done) <= |sent| && Answer(g, x.req, sent[Total(done)..]) == Some(x.frames)
            ==> Served(g, done + [x], sent)
  {
    hide Answer, Size;
    assert (done + [x])[..|done|] == done;
  }

  lemma SettleReading(g: Grammar, b: Inbox, d: Inbox)
    requires Reading(g, b) && ReceiveStep(g, b, SettleRequest) == Some(d)
    ensures Reading(g, d)
  {
    hide Deliver, Answer, Size, StoreTransition, Served, Total;
    ServedSnoc(g, b.done, Exchange(b.reader.req, b.reader.frames), b.sent);
  }

  lemma ReceiveKeepsReading(g: Grammar, b: Inbox, a: ReceiveAction, d: Inbox)
    requires Reading(g, b) && ReceiveStep(g, b, a) == Some(d)
    ensures Reading(g, d)
  {
    hide Deliver, Answer, Served, Size, StoreTransition;
    match a
    case TakeFrame => TakeFrameReading(g, b, d);
    case SettleRequest => SettleReading(g, b, d);
    case _ =>
  }

  /** Reading, taking a frame and closing leave the requests and items where they are. */
  lemma ReceiveFrame(g: Grammar, b: Inbox, a: ReceiveAction, d: Inbox)
    requires ReceiveStep(g, b, a) == Some(d) && a != SettleRequest
    ensures Front(d.reader) == Front(b.reader) && HeadItems(d.reader) == HeadItems(b.reader)
    ensures Busy(d.reader) == Busy(b.reader) && d.reader.Notify? == b.reader.Notify?
    ensures Asks(d.reader) == Asks(b.reader) && (Asks(b.reader) ==> d.reader.req == b.reader.req)
    ensures Finishing(d.reader) == Finishing(b.reader) && (Finishing(b.reader) ==> d.reader.req == b.reader.req)
    ensures Ended(d) == Ended(b) && d.done == b.done && d.caps == b.caps
  {
    hide Deliver, RequiresBarrier;
  }

  lemma ReceiveKeepsOther(c: Config, s: State, a: ReceiveAction, t: State)
    requires Inv(c, s) && Advance(c, s, Receive(a)) == Some(t) && a != SettleRequest
    ensures Inv(c, t)
  {
    hide CallersOk, Shape, Written, Reading, Alone, Ended, Deliver, WellFormed, IsQuit, ReceiveStep, Front, HeadItems, Busy, Asks,
      Finishing, Commands, Committed, Ahead, CapsAfter, Script, RequiresCapabilities, RequiresBarrier;
    ReceiveKeepsReading(c.g, s.inbox, a, t.inbox);
    ReceiveFrame(c.g, s.inbox, a, t.inbox);
  }

  // ----- a request settles -----

  lemma SettleMoves(g: Grammar, b: Inbox, p: Pipe, d: Inbox)
    requires ReceiveStep(g, b, SettleRequest) == Some(d)
    ensures b.reader.Settle? && b.reader.frames != []
    ensures d.reader == Close(b.reader.req, b.reader.frames[|b.reader.frames| - 1])
    ensures d.done == b.done + [Exchange(b.reader.req, b.reader.frames)] && d.closed == b.closed
    ensures OnWire(b.reader, p) == [b.reader.req] + OnWire(d.reader, p)
    ensures Line(b.reader, p) == [b.reader.req] + Line(d.reader, p)
    ensures d.caps == StoreTransition(b.caps, b.reader.req, d.reader.final).0
  {
    hide Committed, Ahead, StoreTransition;
  }

  /** The oldest request leaves the line and is being finished. */
  lemma HoldAfterFirst(barrier: Barrier, rd: Reader, r: Req, rest: seq<Req>, closing: Reader)
    requires Hold(barrier, rd, [r] + rest) && !Finishing(rd) && closing.Close? && closing.req == r
    ensures Hold(barrier, closing, rest)
    ensures RequiresBarrier(r.kind) ==> rest == [] && barrier == Carried(r.id)
  {
    hide RequiresBarrier;
    var line := [r] + rest;
    assert line[0] == r;
    assert forall i | 0 <= i < |rest| :: rest[i] == line[i + 1];
  }

  lemma AloneAfterFirst(r: Req, wire: seq<Req>, line: seq<Req>)
    requires Alone([r] + wire, [r] + line) && wire <= line
    ensures Alone(wire, line)
  {
    hide IsExclusive;
    assert forall i | 0 <= i < |wire| :: wire[i] == ([r] + wire)[i + 1];
  }

  lemma SettleKeepsHold(barrier: Barrier, g: Grammar, b: Inbox, p: Pipe, d: Inbox)
    requires ReceiveStep(g, b, SettleRequest) == Some(d)
    requires Hold(barrier, b.reader, Line(b.reader, p)) && Alone(OnWire(b.reader, p), Line(b.reader, p))
    ensures Hold(barrier, d.reader, Line(d.reader, p)) && Alone(OnWire(d.reader, p), Line(d.reader, p))
    ensures RequiresBarrier(b.reader.req.kind) ==> Line(d.reader, p) == []
  {
    hide ReceiveStep, Hold, Alone, OnWire, Line, StoreTransition;
    SettleMoves(g, b, p, d);
    WireLeadsLine(d.reader, p);
    HoldAfterFirst(barrier, b.reader, b.reader.req, Line(d.reader, p), d.reader);
    AloneAfterFirst(b.reader.req, OnWire(d.reader, p), Line(d.reader, p));
  }

  lemma SettleKeepsScript(g: Grammar, b: Inbox, p: Pipe, d: Inbox)
    requires ReceiveStep(g, b, SettleRequest) == Some(d) && Scripted(b, p) && Handoff(b.reader, p)
    ensures Scripted(d, p) && Handoff(d.reader, p)
  {
    hide ReceiveStep, Commands, Committed, Owed, StoreTransition;
    SettleMoves(g, b, p, d);
    assert d.done[..|b.done|] == b.done;
    assert Promised(d, p) == Promised(b, p);
  }

  /** Only a request that takes the barrier along can empty the list. */
  lemma StoreKeepsList(caps: Option<CapabilityList>, r: Req, f: Response)
    requires caps.Some? && WellFormed(r) && !RequiresBarrier(r.kind)
    ensures StoreTransition(caps, r, f).0.Some?
  {
    hide Capabilities.ParseCapabilities, ContentOf, RequiresBarrier;
    CoordinationFacts(r.kind);
  }

  lemma SettleKeepsBacked(k: Callers, g: Grammar, b: Inbox, p: Pipe, d: Inbox)
    requires ReceiveStep(g, b, SettleRequest) == Some(d) && WellFormed(b.reader.req)
    requires Hold(k.barrier, b.reader, Line(b.reader, p)) && Backed(k, Line(b.reader, p), b)
    ensures Backed(k, Line(d.reader, p), d)
  {
    hide ReceiveStep, OnWire, Line, StoreTransition, WellFormed, RequiresBarrier, RequiresCapabilities;
    SettleMoves(g, b, p, d);
    var line, rest := Line(b.reader, p), Line(d.reader, p);
    assert line[0] == b.reader.req;
    assert forall i | 0 <= i < |rest| :: rest[i] == line[i + 1];
    if b.caps.Some? && !RequiresBarrier(b.reader.req.kind) { StoreKeepsList(b.caps, b.reader.req, d.reader.final); }
    assert d.done[..|b.done|] == b.done;
    assert forall i | 0 <= i < |b.done| :: d.done[..i] == b.done[..i] && d.done[i] == b.done[i];
  }

  lemma OneFrame(g: Grammar, r: Req, stream: Bytes)
    requires r.article.None? && Answer(g, r, stream).Some?
    ensures |Answer(g, r, stream).value| == 1
  {
    hide Deliver;
  }

  lemma OneIsAll(rd: Reader, p: Pipe)
    requires Front(rd) != [] && |Line(rd, p)| == 1
    ensures Committed(p) == [] && Ahead(p) == []
  {
    hide Committed, Ahead;
  }

  lemma LastPromised(b: Inbox, p: Pipe)
    requires b.reader.Settle? && Committed(p) == [] && HeadItems(b.reader) == [Cmd(b.reader.req)]
    ensures var items := Promised(b, p); items != [] && items[|items| - 1] == Cmd(b.reader.req)
  {
    hide Script, HeadItems, Committed;
  }

  /** When a request without an article settles alone, the writer has nothing under way. */
  lemma NothingUnderWay(g: Grammar, b: Inbox, p: Pipe)
    requires b.reader.Settle? && b.reader.req.article.None? && Reading(g, b) && Scripted(b, p) && Shape(p)
    requires |Line(b.reader, p)| == 1
    ensures p.writer == Top || p.writer == Dispatch([])
  {
    hide Deliver, Served, Holds, IsExclusive, Script, Answer, Promised, Line;
    OneFrame(g, b.reader.req, b.sent[Total(b.done)..]);
    OneIsAll(b.reader, p);
    LastPromised(b, p);
    var items := p.issued + Owed(p);
    assert items[|items| - 1] == Cmd(b.reader.req);
  }

  lemma SettleKeepsQuiet(k: Callers, g: Grammar, b: Inbox, p: Pipe, d: Inbox)
    requires ReceiveStep(g, b, SettleRequest) == Some(d) && WellFormed(b.reader.req)
    requires Reading(g, b) && Scripted(b, p) && Shape(p) && Quiet(k, b, p)
    requires Hold(k.barrier, b.reader, Line(b.reader, p)) && Alone(OnWire(b.reader, p), Line(b.reader, p))
    ensures Quiet(k, d, p)
  {
    hide ReceiveStep, Reading, Scripted, Shape, StoreTransition, OnWire, Line, RequiresBarrier, IsExclusive;
    SettleMoves(g, b, p, d);
    assert Line(b.reader, p)[0] == OnWire(b.reader, p)[0] == b.reader.req;
    assert forall i | 0 <= i < |b.done| :: d.done[i] == b.done[i];
    QuitHolds();
    if Ended(d) { NothingUnderWay(g, b, p); }
  }

  lemma FrontWellFormed(s: State)
    requires Ordered(s) && Front(s.inbox.reader) != []
    ensures WellFormed(s.inbox.reader.req)
  {
    hide WellFormed, Committed, Ahead;
    assert s.admitted[|s.inbox.done|] == Line(s.inbox.reader, s.pipe)[0] == s.inbox.reader.req;
  }

  lemma SettleKeepsOrder(c: Config, s: State, t: State)
    requires Ordered(s) && Advance(c, s, Receive(SettleRequest)) == Some(t)
    ensures Ordered(t)
  {
    hide WellFormed, ReceiveStep, OnWire, Line, StoreTransition;
    SettleMoves(c.g, s.inbox, s.pipe, t.inbox);
    assert ReqsOf(t.inbox.done) == ReqsOf(s.inbox.done) + [s.inbox.reader.req];
  }

  lemma SettleKeeps(c: Config, s: State, t: State)
    requires Inv(c, s) && Advance(c, s, Receive(SettleRequest)) == Some(t)
    ensures Inv(c, t)
  {
    hide Ordered, CallersOk, Shape, Written, Reading, Scripted, Handoff, Hold, Alone, Backed, Quiet, Deliver, WellFormed, ReceiveStep,
      OnWire, Line, StoreTransition;
    var b, d, p := s.inbox, t.inbox, s.pipe;
    SettleMoves(c.g, b, p, d);
    SettleKeepsOrder(c, s, t);
    FrontWellFormed(s);
    SettleReading(c.g, b, d);
    SettleKeepsHold(s.callers.barrier, c.g, b, p, d);
    SettleKeepsScript(c.g, b, p, d);
    SettleKeepsBacked(s.callers, c.g, b, p, d);
    SettleKeepsQuiet(s.callers, c.g, b, p, d);
  }

  // ----- the reader passes on -----

  lemma RecvInflightKeepsPipe(b: Inbox, p: Pipe, q: Pipe)
    requires b.reader == Idle && p.chan != [] && q == p.(chan := p.chan[1..])
    requires Shape(p) && Counted(b.reader, p) && WillWake(b.reader, p) && Written(p) && Handoff(b.reader, p)
    ensures var rd := First(p.chan[0]);
            Shape(q) && Counted(rd, q) && WillWake(rd, q) && Written(q) && Handoff(rd, q)
  {
    hide Flat, IsExclusive;
    if q.writer.AwaitProceed? && q.signal.None? {
      var i :| 0 <= i < |p.chan| && p.chan[i].article.Some?;
      if i > 0 { assert q.chan[i - 1] == p.chan[i]; }
    }
  }

  lemma RecvInflightKeepsScript(b: Inbox, p: Pipe, q: Pipe)
    requires b.reader == Idle && p.chan != [] && q == p.(chan := p.chan[1..]) && Scripted(b, p)
    ensures Scripted(b.(reader := First(p.chan[0])), q)
  {
    hide Script, Commands, Sent;
    var r := p.chan[0];
    TakeOver(p, q);
    CommandsCons(r, Committed(q));
    assert Script(b.done) + [] + ([Cmd(r)] + Commands(Committed(q))) == Script(b.done) + [Cmd(r)] + Commands(Committed(q));
  }

  lemma RecvInflightKeeps(c: Config, s: State, t: State)
    requires Inv(c, s) && PassStep(s, RecvInflight) == Some(t)
    ensures Inv(c, t)
  {
    hide CallersOk, Shape, Counted, WillWake, Written, Scripted, Handoff, Served, Alone, CapsAfter, Deliver, WellFormed, IsQuit,
      OnWire, Ahead, Answer, RequiresCapabilities, RequiresBarrier;
    PassMoves(s, RecvInflight, t);
    RecvInflightKeepsPipe(s.inbox, s.pipe, t.pipe);
    RecvInflightKeepsScript(s.inbox, s.pipe, t.pipe);
  }

  /** The reader decides about an article only when its request is the only unsettled one. */
  lemma AskedAlone(c: Config, s: State)
    requires Inv(c, s) && s.inbox.reader.Go?
    ensures s.pipe.chan == [] && Committed(s.pipe) == []
  {
    hide CallersOk, Shape, Counted, WillWake, Written, Scripted, Served, Backed, Deliver, IsQuit, Hold, Quiet,
      WellFormed, IsExclusive;
    FrontWellFormed(s);
    var r := s.inbox.reader.req;
    assert OnWire(s.inbox.reader, s.pipe)[0] == r;
    assert IsExclusive(r.kind) by { ArticleIsExclusive(r); }
  }

  lemma SendSignalKeepsPipe(b: Inbox, p: Pipe, proceed: bool, q: Pipe, d: Inbox)
    requires b.reader.Go? && p.chan == [] && Committed(p) == [] && q == p.(signal := Some(proceed))
    requires d == b.(reader := if proceed then Second(b.reader.req, b.reader.first) else Settle(b.reader.req, [b.reader.first]))
    requires Shape(p) && Counted(b.reader, p) && WillWake(b.reader, p) && Written(p) && Handoff(b.reader, p) && Scripted(b, p)
    ensures Shape(q) && Counted(d.reader, q) && WillWake(d.reader, q) && Written(q) && Handoff(d.reader, q) && Scripted(d, q)
  {
    hide Flat, IsExclusive, Script;
    CommitNothing();
    assert Promised(b, p) == Script(b.done) + [Cmd(b.reader.req)];
    assert p.issued + Owed(p) == p.issued;
    assert q.issued + Owed(q) == Promised(d, q);
  }

  lemma SendSignalKeepsReading(g: Grammar, b: Inbox, d: Inbox)
    requires Reading(g, b) && b.reader.Go?
    requires d == b.(reader := if AcceptsArticle(b.reader.req.kind, b.reader.first.status)
                               then Second(b.reader.req, b.reader.first) else Settle(b.reader.req, [b.reader.first]))
    ensures Reading(g, d)
  {
    hide Deliver, Served, AcceptsArticle, Size;
    SizeOfFrames(b.reader.first, b.reader.first);
  }

  lemma SendSignalKeeps(c: Config, s: State, t: State)
    requires Inv(c, s) && PassStep(s, SendSignal) == Some(t)
    ensures Inv(c, t)
  {
    hide CallersOk, Shape, Counted, WillWake, Written, Scripted, Handoff, Reading, Alone, CapsAfter, Deliver, WellFormed, IsQuit,
      OnWire, Ahead, RequiresCapabilities, RequiresBarrier, AcceptsArticle;
    PassMoves(s, SendSignal, t);
    AskedAlone(c, s);
    var rd := s.inbox.reader;
    SendSignalKeepsPipe(s.inbox, s.pipe, AcceptsArticle(rd.req.kind, rd.first.status), t.pipe, t.inbox);
    SendSignalKeepsReading(c.g, s.inbox, t.inbox);
  }

  lemma UnlockKeepsPipe(b: Inbox, p: Pipe)
    requires b.reader.Unlock? && Counted(b.reader, p) && WillWake(b.reader, p) && Handoff(b.reader, p) && Scripted(b, p)
    ensures Counted(End, p) && WillWake(End, p) && Handoff(End, p) && Scripted(b.(reader := End), p)
  {
    hide Script, Commands, Committed, Owed;
  }

  lemma FreeKeepsWellFormed(k: Callers)
    requires AllWellFormed(k)
    ensures AllWellFormed(k.(barrier := Free))
  {
    hide WellFormedIn;
  }

  lemma ReleaseBarrierKeeps(c: Config, s: State, t: State)
    requires Inv(c, s) && PassStep(s, ReleaseBarrier) == Some(t)
    ensures Inv(c, t)
  {
    hide AllWellFormed, Shape, Written, Counted, WillWake, Handoff, Scripted, Served, Alone, CapsAfter, Deliver, WellFormed, IsQuit,
      OnWire, Ahead, RequiresCapabilities, RequiresBarrier, Answer;
    PassMoves(s, ReleaseBarrier, t);
    UnlockKeepsPipe(s.inbox, s.pipe);
    assert AllWellFormed(t.callers) by { FreeKeepsWellFormed(s.callers); }
  }

  lemma NotifyKeepsPipe(p: Pipe, q: Pipe)
    requires q == NotifyOne(p)
    ensures Committed(q) == Committed(p) && Ahead(q) == Ahead(p) && q.chan == p.chan && q.issued == p.issued && q.out == p.out
    ensures q.signal == p.signal && q.inflight == p.inflight && Owed(q) == Owed(p) && Rest(q.writer) == Rest(p.writer)
    ensures !q.writer.WaitIdle? ==> q.writer == p.writer
    ensures q.writer.WaitIdle? ==> p.writer.WaitIdle? && q.writer.stage != Park(Waiting)
    ensures Shape(p) ==> Shape(q)
  {
    hide IsExclusive;
  }

  lemma EndInflightKeepsPipe(b: Inbox, p: Pipe, q: Pipe, d: Inbox)
    requires b.reader == End && q == p.(inflight := p.inflight - 1)
    requires d == b.(reader := if p.inflight == 1 then Notify else Idle)
    requires Shape(p) && Counted(b.reader, p) && WillWake(b.reader, p) && Written(p) && Handoff(b.reader, p) && Scripted(b, p)
    ensures Shape(q) && Counted(d.reader, q) && WillWake(d.reader, q) && Written(q) && Handoff(d.reader, q) && Scripted(d, q)
  {
    hide Flat, IsExclusive, Script, Commands;
  }

  lemma EndInflightKeeps(c: Config, s: State, t: State)
    requires Inv(c, s) && PassStep(s, EndInflight) == Some(t)
    ensures Inv(c, t)
  {
    hide CallersOk, Shape, Counted, WillWake, Written, Scripted, Handoff, Served, Alone, CapsAfter, Deliver, WellFormed, IsQuit,
      OnWire, Ahead, RequiresCapabilities, RequiresBarrier, Answer;
    PassMoves(s, EndInflight, t);
    EndInflightKeepsPipe(s.inbox, s.pipe, t.pipe, t.inbox);
  }

  lemma NotifyIdleKeeps(c: Config, s: State, t: State)
    requires Inv(c, s) && PassStep(s, NotifyIdle) == Some(t)
    ensures Inv(c, t)
  {
    hide CallersOk, Shape, Served, Alone, CapsAfter, Deliver, WellFormed, IsQuit, Script, Commands, Flat, Committed, Ahead, Owed,
      Rest, RequiresCapabilities, RequiresBarrier, NotifyOne, Answer;
    PassMoves(s, NotifyIdle, t);
    NotifyKeepsPipe(s.pipe, t.pipe);
  }

  // ----- the peer sends -----

  lemma AnswerStable(g: Grammar, r: Req, stream: Bytes, more: Bytes)
    requires Answer(g, r, stream).Some?
    ensures Answer(g, r, stream + more) == Answer(g, r, stream)
  {
    hide Deliver, AcceptsArticle, Size;
    DeliverStable(g, r.kind, stream, more);
    var f := Deliver(g, r.kind, stream).response;
    if r.article.Some? && AcceptsArticle(r.kind, f.status) {
      DeliverStable(g, r.kind, stream[|f.bytes|..], more);
      assert (stream + more)[|f.bytes|..] == stream[|f.bytes|..] + more;
    }
  }

  lemma {:induction false} ServedStable(g: Grammar, done: seq<Exchange>, sent: Bytes, more: Bytes)
    requires Served(g, done, sent)
    ensures Served(g, done, sent + more)
  {
    hide Answer;
    if done != [] {
      var before, x := done[..|done| - 1], done[|done| - 1];
      ServedStable(g, before, sent, more);
      AnswerStable(g, x.req, sent[Total(before)..], more);
      AppendSlice(sent, more, Total(before));
    }
  }

  lemma PeerKeepsReading(g: Grammar, b: Inbox, more: Bytes)
    requires Reading(g, b)
    ensures Reading(g, b.(sent := b.sent + more))
  {
    hide Answer, Served, Size, Deliver, AcceptsArticle;
    ServedStable(g, b.done, b.sent, more);
    var at := Total(b.done);
    AppendSlice(b.sent, more, at);
    match b.reader
    case Go(r, f) => DeliverStable(g, r.kind, b.sent[at..], more);
    case Second(r, f) => DeliverStable(g, r.kind, b.sent[at..], more);
    case Settle(r, frames) => AnswerStable(g, r, b.sent[at..], more);
    case _ =>
  }

  lemma PeerKeeps(c: Config, s: State, more: Bytes, t: State)
    requires Inv(c, s) && Advance(c, s, PeerSends(more)) == Some(t)
    ensures Inv(c, t)
  {
    hide CallersOk, Shape, Written, Handoff, Hold, Alone, Reading, CapsAfter, Deliver, WellFormed, IsQuit, Script, Commands, Flat,
      OnWire, Line;
    PeerKeepsReading(c.g, s.inbox, more);
  }

  // ----- every step, every run -----

  lemma PassKeeps(c: Config, s: State, a: PassAction, t: State)
    requires Inv(c, s) && PassStep(s, a) == Some(t)
    ensures Inv(c, t)
  {
    hide Inv, PassStep;
    match a
    case RecvInflight => RecvInflightKeeps(c, s, t);
    case SendSignal => SendSignalKeeps(c, s, t);
    case ReleaseBarrier => ReleaseBarrierKeeps(c, s, t);
    case EndInflight => EndInflightKeeps(c, s, t);
    case NotifyIdle => NotifyIdleKeeps(c, s, t);
  }

  lemma FailKeeps(c: Config, s: State)
    requires Inv(c, s)
    ensures Inv(c, s.(failed := true))
  {
    hide CallersOk, Shape, Counted, WillWake, Written, Scripted, Handoff, Hold, Alone, Reading, Backed, Quiet, Line, OnWire,
      WellFormed;
  }

  /** Every step keeps the invariant. */
  lemma StepKeeps(c: Config, s: State, step: Step, t: State)
    requires Inv(c, s) && Advance(c, s, step) == Some(t)
    ensures Inv(c, t)
  {
    hide Inv, CallerStep, EnqueueStep, WriterStep, ReceiveStep, PassStep, Deliver;
    match step
    case Caller(a) => CallerKeeps(c, s, a, t);
    case Enqueue => EnqueueKeeps(c, s, t);
    case WriterTask(a) => if Collects(a) { CollectKeeps(c, s, a, t); } else { SendKeeps(c, s, a, t); }
    case Receive(a) => if a == SettleRequest { SettleKeeps(c, s, t); } else { ReceiveKeepsOther(c, s, a, t); }
    case Pass(a) => PassKeeps(c, s, a, t);
    case Reject => FailKeeps(c, s);
    case PeerSends(more) => PeerKeeps(c, s, more, t);
    case Fail => FailKeeps(c, s);
  }

  /** Every run that starts in a state with the invariant ends in one. */
  lemma {:induction false} RunKeeps(c: Config, s: State, steps: seq<Step>)
    requires Inv(c, s) && Run(c, s, steps).Some?
    ensures Inv(c, Run(c, s, steps).value)
  {
    hide Inv, Advance;
    if steps != [] {
      var init := steps[..|steps| - 1];
      RunKeeps(c, s, init);
      StepKeeps(c, Run(c, s, init).value, steps[|steps| - 1], Run(c, s, steps).value);
    }
  }
}
