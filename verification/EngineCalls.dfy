/** No request is lost: whatever callers ask for is still waiting, is admitted, or was given
    up for one of three stated reasons, and at rest it no longer waits. */
module EngineCalls {
  import opened Wire
  import opened Protocol
  import opened Frames
  import opened Engine
  import opened EngineInvariant
  import opened EngineSteps
  import opened EngineTheorems
  import opened EngineProgress
  import Text

  // ----- what callers ask for and what becomes of it -----

  /** A request that waits for its probe, if there is one. */
  function OfProbe(probe: Probe): (m: multiset<Req>) { if probe.Probing? then multiset{probe.req} else multiset{} }

  /** A request whose sender holds the barrier and has not queued it. */
  function OfSender(barrier: Barrier): (m: multiset<Req>) {
    if barrier.Sender? && barrier.stage != Queued then multiset{barrier.req} else multiset{}
  }

  /** The requests that callers still hold. */
  function Held(k: Callers): (m: multiset<Req>) {
    k.waiting + k.probeQueue + OfProbe(k.probe) + OfSender(k.barrier)
  }

  /** Admitted requests as their callers made them, without their numbers. */
  function Unnumbered(reqs: seq<Req>): (m: multiset<Req>) {
    if reqs == [] then multiset{} else Unnumbered(reqs[..|reqs| - 1]) + multiset{reqs[|reqs| - 1].(id := 0)}
  }

  /** The requests that callers have made. */
  function Called(steps: seq<Step>): (m: multiset<Req>) {
    if steps == [] then multiset{}
    else
      var before := Called(steps[..|steps| - 1]);
      match steps[|steps| - 1]
      case Caller(Call(r)) => before + multiset{r}
      case Caller(CallProbeFirst(r)) => before + multiset{r}
      case _ => before
  }

  /** The probes made on their behalf. */
  function Probes(steps: seq<Step>): (m: multiset<Req>) {
    if steps == [] then multiset{}
    else
      var before := Probes(steps[..|steps| - 1]);
      if steps[|steps| - 1] == Caller(TakeBarrierForProbe) then before + multiset{PROBE} else before
  }

  /** Why a request is given up: its caller went away, the session was closed, or its own
      probe was settled without a list. */
  datatype Reason = Dropped | Refused | Unlisted

  function DroppedBy(k: Callers, a: CallerAction): (m: multiset<Req>) {
    match a
    case DropWaiting(r) => multiset{r}
    case DropProbeWaiter(r) => multiset{r}
    case DropSender => OfSender(k.barrier)
    case DropProber => OfProbe(k.probe) + (if k.probe.Probing? && k.probe.stage == NestedSending then multiset{PROBE} else multiset{})
    case _ => multiset{}
  }

  /** A closed session turns the sender away, a probe together with the request it is for. */
  function RefusedBy(k: Callers, b: Inbox, a: CallerAction): (m: multiset<Req>) {
    if a != CheckClosed || !b.closed || !k.barrier.Sender? then multiset{}
    else if k.barrier.guarded then multiset{k.barrier.req}
    else multiset{PROBE} + OfProbe(k.probe)
  }

  function UnlistedBy(k: Callers, b: Inbox, a: CallerAction): (m: multiset<Req>) {
    if a == ProbeAnswered && k.probe.Probing? && k.probe.stage.NestedSent? && k.probe.stage.p < |b.done|
       && ListOf(b.done[k.probe.stage.p]).None?
    then multiset{k.probe.req} else multiset{}
  }

  function LostBy(why: Reason, s: State, step: Step): (m: multiset<Req>) {
    if !step.Caller? then multiset{}
    else
      match why
      case Dropped => DroppedBy(s.callers, step.ca)
      case Refused => RefusedBy(s.callers, s.inbox, step.ca)
      case Unlisted => UnlistedBy(s.callers, s.inbox, step.ca)
  }

  /** The requests given up for a reason over a run. */
  function Lost(c: Config, why: Reason, steps: seq<Step>): (m: multiset<Req>) {
    if steps == [] then multiset{}
    else
      var before := steps[..|steps| - 1];
      match Run(c, Init(), before)
      case None => Lost(c, why, before)
      case Some(s) => Lost(c, why, before) + LostBy(why, s, steps[|steps| - 1])
  }

  // ----- every step accounts for every request -----

  /** What a step adds to the requests callers hold. */
  function Gained(step: Step): (m: multiset<Req>) {
    match step
    case Caller(Call(r)) => multiset{r}
    case Caller(CallProbeFirst(r)) => multiset{r}
    case Caller(TakeBarrierForProbe) => multiset{PROBE}
    case _ => multiset{}
  }

  /** What a step has lost, whatever the reason. */
  function Gone(s: State, step: Step): (m: multiset<Req>) {
    LostBy(Dropped, s, step) + LostBy(Refused, s, step) + LostBy(Unlisted, s, step)
  }

  /** A probe's nested request is the probe, before and after it is queued. */
  predicate ProbeIsOwn(k: Callers, admitted: seq<Req>) {
    && (k.barrier.Sender? && !k.barrier.guarded && k.barrier.stage != Queued ==> k.barrier.req == PROBE)
    && (k.probe.Probing? && k.probe.stage.NestedSent? ==>
          k.probe.stage.p < |admitted| && admitted[k.probe.stage.p] == PROBE.(id := k.probe.stage.p))
  }

  predicate Balanced(k: Callers, gained: multiset<Req>, l: Callers, gone: multiset<Req>) {
    Held(k) + gained == Held(l) + gone
  }

  lemma CallBalances(k: Callers, b: Inbox, r: Req, l: Callers)
    requires CallerStep(k, b, Call(r)) == Some(l)
    ensures Balanced(k, multiset{r}, l, multiset{})
  {
    hide WellFormed, RequiresCapabilities, ListsCapabilities, Text.Ascii;
  }

  lemma CallProbeFirstBalances(k: Callers, b: Inbox, r: Req, l: Callers)
    requires CallerStep(k, b, CallProbeFirst(r)) == Some(l)
    ensures Balanced(k, multiset{r}, l, multiset{})
  {
    hide WellFormed, RequiresCapabilities, ListsCapabilities, Text.Ascii;
  }

  lemma TakeBarrierBalances(k: Callers, b: Inbox, r: Req, l: Callers)
    requires CallerStep(k, b, TakeBarrier(r)) == Some(l)
    ensures Balanced(k, multiset{}, l, multiset{})
  {
    hide WellFormed, RequiresCapabilities, ListsCapabilities, Text.Ascii;
  }

  lemma NestBalances(k: Callers, b: Inbox, l: Callers)
    requires CallerStep(k, b, TakeBarrierForProbe) == Some(l)
    ensures Balanced(k, multiset{PROBE}, l, multiset{})
  {
    hide WellFormed, RequiresCapabilities, ListsCapabilities, Text.Ascii;
  }

  lemma CheckCapabilitiesBalances(k: Callers, b: Inbox, l: Callers)
    requires CallerStep(k, b, CheckCapabilities) == Some(l)
    ensures Balanced(k, multiset{}, l, multiset{})
  {
    hide WellFormed, RequiresCapabilities, ListsCapabilities, Text.Ascii, OfProbe;
    var r := k.barrier.req;
    assert OfSender(k.barrier) == multiset{r};
    if l.barrier == Free { assert Held(l) == k.waiting + (k.probeQueue + multiset{r}) + OfProbe(k.probe) + multiset{}; }
    else { assert OfSender(l.barrier) == multiset{r}; }
  }

  lemma ReleaseBalances(k: Callers, b: Inbox, l: Callers)
    requires CallerStep(k, b, Release) == Some(l)
    ensures Balanced(k, multiset{}, l, multiset{})
  {
    hide WellFormed, RequiresCapabilities, ListsCapabilities, Text.Ascii;
  }

  lemma TakeProbeBalances(k: Callers, b: Inbox, r: Req, l: Callers)
    requires CallerStep(k, b, TakeProbe(r)) == Some(l)
    ensures Balanced(k, multiset{}, l, multiset{})
  {
    hide WellFormed, RequiresCapabilities, ListsCapabilities, Text.Ascii;
  }

  lemma ProbeCheckBalances(k: Callers, b: Inbox, l: Callers)
    requires CallerStep(k, b, ProbeCheck) == Some(l)
    ensures Balanced(k, multiset{}, l, multiset{})
  {
    hide WellFormed, RequiresCapabilities, ListsCapabilities, Text.Ascii;
  }

  lemma ClosedBalances(k: Callers, b: Inbox, l: Callers, admitted: seq<Req>)
    requires ProbeIsOwn(k, admitted) && ProbeInStep(k.barrier, k.probe, |admitted|) && CallerStep(k, b, CheckClosed) == Some(l)
    ensures Balanced(k, multiset{}, l, RefusedBy(k, b, CheckClosed))
  {
    hide WellFormed, RequiresCapabilities, ListsCapabilities, Text.Ascii;
  }

  lemma AnsweredBalances(k: Callers, b: Inbox, l: Callers)
    requires CallerStep(k, b, ProbeAnswered) == Some(l)
    ensures Balanced(k, multiset{}, l, UnlistedBy(k, b, ProbeAnswered))
  {
    hide WellFormed, RequiresCapabilities, ListOf, Text.Ascii;
  }

  lemma DropWaitingBalances(k: Callers, b: Inbox, r: Req, l: Callers)
    requires CallerStep(k, b, DropWaiting(r)) == Some(l)
    ensures Balanced(k, multiset{}, l, multiset{r})
  {
    hide WellFormed, RequiresCapabilities, ListsCapabilities, Text.Ascii;
  }

  lemma DropProbeWaiterBalances(k: Callers, b: Inbox, r: Req, l: Callers)
    requires CallerStep(k, b, DropProbeWaiter(r)) == Some(l)
    ensures Balanced(k, multiset{}, l, multiset{r})
  {
    hide WellFormed, RequiresCapabilities, ListsCapabilities, Text.Ascii;
  }

  lemma DropSenderBalances(k: Callers, b: Inbox, l: Callers)
    requires CallerStep(k, b, DropSender) == Some(l)
    ensures Balanced(k, multiset{}, l, OfSender(k.barrier))
  {
    hide WellFormed, RequiresCapabilities, ListsCapabilities, Text.Ascii;
  }

  lemma DropProberBalances(k: Callers, b: Inbox, l: Callers, admitted: seq<Req>)
    requires ProbeIsOwn(k, admitted) && ProbeInStep(k.barrier, k.probe, |admitted|) && CallerStep(k, b, DropProber) == Some(l)
    ensures Balanced(k, multiset{}, l, DroppedBy(k, DropProber))
  {
    hide WellFormed, RequiresCapabilities, ListsCapabilities, Text.Ascii;
  }

  /** A step that is no check of the closed flag, no answer and no drop loses nothing. */
  predicate Keeps(a: CallerAction) {
    !(a.CheckClosed? || a.ProbeAnswered? || a.DropWaiting? || a.DropSender? || a.DropProbeWaiter? || a.DropProber?)
  }

  /** Only the reason that fits a step has lost something to it. */
  lemma GoneOnce(s: State, a: CallerAction)
    ensures Gone(s, Caller(a)) ==
            if Keeps(a) then multiset{}
            else if a == CheckClosed then RefusedBy(s.callers, s.inbox, a)
            else if a == ProbeAnswered then UnlistedBy(s.callers, s.inbox, a)
            else DroppedBy(s.callers, a)
  {
    hide OfProbe, OfSender, ListOf, Text.Ascii;
  }

  lemma CallerBalances(s: State, a: CallerAction, l: Callers)
    requires ProbeIsOwn(s.callers, s.admitted) && ProbeInStep(s.callers.barrier, s.callers.probe, |s.admitted|)
    requires CallerStep(s.callers, s.inbox, a) == Some(l)
    ensures Balanced(s.callers, Gained(Caller(a)), l, Gone(s, Caller(a)))
  {
    hide CallerStep, Balanced, ProbeIsOwn, ProbeInStep, Gone, RefusedBy, UnlistedBy, OfSender, OfProbe, Text.Ascii;
    var k, b := s.callers, s.inbox;
    GoneOnce(s, a);
    match a
    case Call(r) => CallBalances(k, b, r, l);
    case CallProbeFirst(r) => CallProbeFirstBalances(k, b, r, l);
    case TakeBarrier(r) => TakeBarrierBalances(k, b, r, l);
    case TakeBarrierForProbe => NestBalances(k, b, l);
    case CheckClosed => ClosedBalances(k, b, l, s.admitted);
    case CheckCapabilities => CheckCapabilitiesBalances(k, b, l);
    case Release => ReleaseBalances(k, b, l);
    case TakeProbe(r) => TakeProbeBalances(k, b, r, l);
    case ProbeCheck => ProbeCheckBalances(k, b, l);
    case ProbeAnswered => AnsweredBalances(k, b, l);
    case DropWaiting(r) => DropWaitingBalances(k, b, r, l);
    case DropSender => DropSenderBalances(k, b, l);
    case DropProbeWaiter(r) => DropProbeWaiterBalances(k, b, r, l);
    case DropProber => DropProberBalances(k, b, l, s.admitted);
  }

  lemma UnnumberedSnoc(reqs: seq<Req>, r: Req)
    ensures Unnumbered(reqs + [r]) == Unnumbered(reqs) + multiset{r.(id := 0)}
  {
    assert (reqs + [r])[..|reqs|] == reqs;
  }

  lemma EnqueueBalances(c: Config, s: State, t: State)
    requires EnqueueStep(c, s) == Some(t) && s.callers.barrier.req.id == 0
    ensures Held(s.callers) + Unnumbered(s.admitted) == Held(t.callers) + Unnumbered(t.admitted)
  {
    hide RequiresBarrier, Unnumbered, Text.Ascii;
    var r := s.callers.barrier.req;
    assert r.(id := |s.admitted|).(id := 0) == r;
    UnnumberedSnoc(s.admitted, r.(id := |s.admitted|));
    assert OfSender(s.callers.barrier) == multiset{r} && OfSender(t.callers.barrier) == multiset{};
    assert OfProbe(t.callers.probe) == OfProbe(s.callers.probe);
  }

  /** The reader leaves what callers hold alone. */
  lemma PassBalances(c: Config, s: State, a: PassAction, t: State)
    requires Inv(c, s) && PassStep(s, a) == Some(t)
    ensures Held(t.callers) == Held(s.callers) && t.admitted == s.admitted
  {
    hide CallersOk, Alone, Ordered, Shape, Counted, WillWake, Written, Scripted, Handoff, Reading, Backed, Quiet, Deliver, OnWire, Ahead,
      RequiresBarrier, NotifyOne, AcceptsArticle, Line;
  }

  predicate Fresh(m: multiset<Req>) { forall r <- m :: r.id == 0 }

  /** What the account over a run needs of a state. */
  predicate Accountable(s: State) { Fresh(Held(s.callers)) && ProbeIsOwn(s.callers, s.admitted) }

  predicate StepBalances(s: State, step: Step, t: State) {
    Held(s.callers) + Unnumbered(s.admitted) + Gained(step) == Held(t.callers) + Unnumbered(t.admitted) + Gone(s, step)
  }

  lemma Shift(a: multiset<Req>, m: multiset<Req>, gained: multiset<Req>, b: multiset<Req>, gone: multiset<Req>)
    requires a + gained == b + gone
    ensures a + m + gained == b + m + gone
  {
    assert a + m + gained == a + gained + m;
  }

  lemma SenderIsFresh(c: Config, s: State, t: State)
    requires EnqueueStep(c, s) == Some(t) && Fresh(Held(s.callers))
    ensures s.callers.barrier.Sender? && s.callers.barrier.req.id == 0
  {
    hide OfProbe, RequiresBarrier, Text.Ascii;
    assert s.callers.barrier.req in OfSender(s.callers.barrier);
    assert s.callers.barrier.req in Held(s.callers);
  }

  /** Every step accounts for every request. */
  lemma EveryStepBalances(c: Config, s: State, step: Step, t: State)
    requires Inv(c, s) && Accountable(s) && Advance(c, s, step) == Some(t)
    ensures StepBalances(s, step, t)
  {
    hide Ordered, AllWellFormed, ProbeInStep, Hold, Alone, Shape, Counted, WillWake, Written, Scripted, Handoff, Reading, Backed, Quiet,
      Deliver, Line, OnWire, CallerStep, EnqueueStep, WriterStep, ReceiveStep, PassStep, Held, Unnumbered, DroppedBy, RefusedBy, UnlistedBy,
      ProbeIsOwn, Text.Ascii;
    match step
    case Caller(a) =>
      CallerBalances(s, a, t.callers);
      Shift(Held(s.callers), Unnumbered(s.admitted), Gained(step), Held(t.callers), Gone(s, step));
    case Enqueue =>
      SenderIsFresh(c, s, t);
      EnqueueBalances(c, s, t);
    case Pass(a) => PassBalances(c, s, a, t);
    case _ =>
  }

  lemma FreshBalance(held: multiset<Req>, before: multiset<Req>, gained: multiset<Req>, left: multiset<Req>, after: multiset<Req>,
                     gone: multiset<Req>)
    requires held + before + gained == left + after + gone && before <= after && Fresh(held) && Fresh(gained)
    ensures Fresh(left)
  {
    forall r | r in left ensures r.id == 0 {
      assert (held + before + gained)[r] == (left + after + gone)[r];
      assert r in held || r in gained;
    }
  }

  lemma GainsFresh(c: Config, s: State, step: Step, t: State)
    requires Advance(c, s, step) == Some(t)
    ensures Fresh(Gained(step)) && Unnumbered(s.admitted) <= Unnumbered(t.admitted)
  {
    hide WriterStep, ReceiveStep, Deliver, WellFormed, RequiresCapabilities, ListsCapabilities, RequiresBarrier, AcceptsArticle, NotifyOne,
      Unnumbered, Text.Ascii;
    if step.Enqueue? { UnnumberedSnoc(s.admitted, t.admitted[|s.admitted|]); }
  }

  lemma ProbeStaysOwn(c: Config, s: State, step: Step, t: State)
    requires Inv(c, s) && ProbeIsOwn(s.callers, s.admitted) && Advance(c, s, step) == Some(t)
    ensures ProbeIsOwn(t.callers, t.admitted)
  {
    hide Ordered, AllWellFormed, Hold, Alone, Shape, Counted, WillWake, Written, Scripted, Handoff, Reading, Backed, Quiet, Line, OnWire,
      WriterStep, ReceiveStep, Deliver, WellFormed, RequiresCapabilities, ListsCapabilities, RequiresBarrier, AcceptsArticle, NotifyOne,
      Text.Ascii;
  }

  /** Every step accounts for every request and leaves a state that can be accounted for. */
  lemma StepAccounts(c: Config, s: State, step: Step, t: State)
    requires Inv(c, s) && Accountable(s) && Advance(c, s, step) == Some(t)
    ensures StepBalances(s, step, t) && Accountable(t)
  {
    hide Inv, Advance, Held, Unnumbered, Gained, Gone, ProbeIsOwn, Fresh;
    EveryStepBalances(c, s, step, t);
    GainsFresh(c, s, step, t);
    ProbeStaysOwn(c, s, step, t);
    FreshBalance(Held(s.callers), Unnumbered(s.admitted), Gained(step), Held(t.callers), Unnumbered(t.admitted), Gone(s, step));
  }

  // ----- over every run -----

  lemma CalledSnoc(c: Config, before: seq<Step>, step: Step, s: State)
    requires Run(c, Init(), before) == Some(s)
    ensures var steps := before + [step];
            && Called(steps) + Probes(steps) == Called(before) + Probes(before) + Gained(step)
            && forall why :: Lost(c, why, steps) == Lost(c, why, before) + LostBy(why, s, step)
  {
    hide Run, LostBy, Text.Ascii;
    assert (before + [step])[..|before|] == before;
  }

  /** What has become of the requests after a run. */
  function Fate(c: Config, steps: seq<Step>, s: State): (m: multiset<Req>) {
    Held(s.callers) + Unnumbered(s.admitted) + Lost(c, Dropped, steps) + Lost(c, Refused, steps) + Lost(c, Unlisted, steps)
  }

  lemma Carry(all: multiset<Req>, kept: multiset<Req>, d: multiset<Req>, r: multiset<Req>, u: multiset<Req>, gained: multiset<Req>,
              left: multiset<Req>, d1: multiset<Req>, r1: multiset<Req>, u1: multiset<Req>)
    requires all == kept + d + r + u && kept + gained == left + (d1 + r1 + u1)
    ensures all + gained == left + (d + d1) + (r + r1) + (u + u1)
  {
    forall x ensures (all + gained)[x] == (left + (d + d1) + (r + r1) + (u + u1))[x] {
      assert (kept + gained)[x] == (left + (d1 + r1 + u1))[x];
    }
  }

  lemma InitAccounts(c: Config)
    ensures Called([]) + Probes([]) == Fate(c, [], Init()) && Accountable(Init())
  {
    hide Text.Ascii;
  }

  /** Requests are conserved over every run: those that were called for, and the probes, are
      those callers still hold, the admitted ones, and those given up for a stated reason. */
  lemma {:induction false} RequestsAreConserved(c: Config, steps: seq<Step>, s: State)
    requires Run(c, Init(), steps) == Some(s)
    ensures Called(steps) + Probes(steps) == Fate(c, steps, s)
    ensures Accountable(s)
  {
    hide Advance, Held, LostBy, Gained, Called, Probes, Lost, Unnumbered, Accountable, Inv;
    if steps == [] {
      InitAccounts(c);
    } else {
      var before, step := steps[..|steps| - 1], steps[|steps| - 1];
      var r := Run(c, Init(), before).value;
      RequestsAreConserved(c, before, r);
      InitInv(c);
      RunKeeps(c, Init(), before);
      StepAccounts(c, r, step, s);
      assert steps == before + [step];
      CalledSnoc(c, before, step, r);
      Carry(Called(before) + Probes(before), Held(r.callers) + Unnumbered(r.admitted), Lost(c, Dropped, before), Lost(c, Refused, before),
            Lost(c, Unlisted, before), Gained(step), Held(s.callers) + Unnumbered(s.admitted), LostBy(Dropped, r, step),
            LostBy(Refused, r, step), LostBy(Unlisted, r, step));
    }
  }

  // ----- what the reasons mean -----

  predicate IsDrop(step: Step) {
    step.Caller? && (step.ca.DropWaiting? || step.ca.DropSender? || step.ca.DropProbeWaiter? || step.ca.DropProber?)
  }

  predicate NoDrops(steps: seq<Step>) { forall i | 0 <= i < |steps| :: !IsDrop(steps[i]) }

  /** Request number `p` was a probe, and its answer brought no list. */
  predicate BringsNoList(done: seq<Exchange>, p: nat) {
    p < |done| && done[p].req == PROBE.(id := p) && ListOf(done[p]).None?
  }

  /** Nothing but an answer of 205 to QUIT closes the session. */
  predicate ClosedByQuit(b: Inbox) {
    && (b.reader.Close? ==> b.done != [] && b.done[|b.done| - 1].req == b.reader.req && Final(b.done[|b.done| - 1]) == Some(b.reader.final))
    && (b.closed ==> exists i :: 0 <= i < |b.done| && IsQuit(b.done[i]))
  }

  ghost predicate Explained(c: Config, steps: seq<Step>, b: Inbox) {
    && ClosedByQuit(b)
    && (NoDrops(steps) ==> Lost(c, Dropped, steps) == multiset{})
    && (Lost(c, Refused, steps) != multiset{} ==> b.closed)
    && (Lost(c, Unlisted, steps) != multiset{} ==> exists p: nat :: BringsNoList(b.done, p))
  }

  lemma InitClosed()
    ensures ClosedByQuit(Init().inbox)
  {
    hide IsQuit;
  }

  lemma InboxGrows(c: Config, s: State, step: Step, t: State)
    requires Advance(c, s, step) == Some(t)
    ensures s.inbox.done <= t.inbox.done && (s.inbox.closed ==> t.inbox.closed)
  {
    hide CallerStep, WriterStep, Deliver, StoreTransition, RequiresBarrier, AcceptsArticle, NotifyOne, IsQuitDone;
  }

  lemma StaysClosedByQuit(c: Config, s: State, step: Step, t: State)
    requires ClosedByQuit(s.inbox) && Advance(c, s, step) == Some(t)
    ensures ClosedByQuit(t.inbox)
  {
    hide CallerStep, WriterStep, Deliver, StoreTransition, RequiresBarrier, AcceptsArticle, NotifyOne;
    var b, d := s.inbox, t.inbox;
    InboxGrows(c, s, step, t);
    if b.closed {
      var i :| 0 <= i < |b.done| && IsQuit(b.done[i]);
      assert d.done[i] == b.done[i];
    } else if d.closed {
      assert IsQuit(b.done[|b.done| - 1]);
    }
  }

  lemma LossExplained(s: State, step: Step)
    requires Ordered(s) && ProbeIsOwn(s.callers, s.admitted)
    ensures !IsDrop(step) ==> LostBy(Dropped, s, step) == multiset{}
    ensures LostBy(Refused, s, step) != multiset{} ==> s.inbox.closed
    ensures LostBy(Unlisted, s, step) != multiset{} ==> exists p: nat :: BringsNoList(s.inbox.done, p)
  {
    hide WellFormed, Line, ListOf, OfProbe, OfSender, Text.Ascii;
    if LostBy(Unlisted, s, step) != multiset{} {
      var p := s.callers.probe.stage.p;
      assert s.admitted[p] == s.inbox.done[p].req;
      assert BringsNoList(s.inbox.done, p);
    }
  }

  lemma StillNoList(done: seq<Exchange>, more: seq<Exchange>)
    requires done <= more
    ensures (exists p: nat :: BringsNoList(done, p)) ==> exists p: nat :: BringsNoList(more, p)
  {
    hide ListOf, Text.Ascii;
    if p: nat :| BringsNoList(done, p) { assert BringsNoList(more, p); }
  }

  /** Only dropped callers, a session closed by QUIT and probes without a list lose requests. */
  lemma {:induction false} LossesAreExplained(c: Config, steps: seq<Step>, s: State)
    requires Run(c, Init(), steps) == Some(s)
    ensures Explained(c, steps, s.inbox)
  {
    hide Advance, LostBy, Ordered, ClosedByQuit, BringsNoList, ProbeIsOwn, IsDrop, CallersOk, Hold, Alone, Shape, Counted, WillWake, Written,
      Scripted, Handoff, Reading, Backed, Quiet, Line, OnWire, Fate, Fresh, Held, Called, Probes;
    if steps == [] {
      InitClosed();
    } else {
      var before, step := steps[..|steps| - 1], steps[|steps| - 1];
      var r := Run(c, Init(), before).value;
      LossesAreExplained(c, before, r);
      RequestsAreConserved(c, before, r);
      InitInv(c);
      RunKeeps(c, Init(), before);
      LossExplained(r, step);
      InboxGrows(c, r, step, s);
      StaysClosedByQuit(c, r, step, s);
      StillNoList(r.inbox.done, s.inbox.done);
      assert NoDrops(steps) ==> NoDrops(before) && !IsDrop(step);
    }
  }

  // ----- calls are always taken -----

  lemma CallAdds(k: Callers, l: Callers, req: Req)
    requires Balanced(k, multiset{req}, l, multiset{})
    ensures Held(l) == Held(k) + multiset{req}
  {
    hide Held;
  }

  /** As long as the connection has not failed, every well-formed request can be called for,
      with or without a probe ahead of it, and the peer can always send. */
  lemma CallsAreTaken(c: Config, s: State, req: Req, bytes: Bytes)
    requires !s.failed && WellFormed(req) && req.id == 0
    ensures var t := Advance(c, s, Caller(Call(req)));
            t.Some? && t.value == s.(callers := t.value.callers) && Held(t.value.callers) == Held(s.callers) + multiset{req}
    ensures RequiresCapabilities(req.kind) ==>
              var t := Advance(c, s, Caller(CallProbeFirst(req)));
              t.Some? && t.value == s.(callers := t.value.callers) && Held(t.value.callers) == Held(s.callers) + multiset{req}
    ensures Advance(c, s, PeerSends(bytes)) == Some(s.(inbox := s.inbox.(sent := s.inbox.sent + bytes)))
  {
    hide WellFormed, RequiresCapabilities, Text.Ascii, Balanced, Held;
    var k, b := s.callers, s.inbox;
    CallBalances(k, b, req, CallerStep(k, b, Call(req)).value);
    CallAdds(k, CallerStep(k, b, Call(req)).value, req);
    if RequiresCapabilities(req.kind) {
      CallProbeFirstBalances(k, b, req, CallerStep(k, b, CallProbeFirst(req)).value);
      CallAdds(k, CallerStep(k, b, CallProbeFirst(req)).value, req);
    }
  }

  // ----- at rest -----

  /** Callers of an engine at rest wait only for what the peer can still give them: a carried
      barrier, room in the queue, or the answer to the probe in progress. */
  predicate WaitOnPeer(c: Config, s: State) {
    var k := s.callers;
    var blocked := k.barrier.Carried? || (k.barrier.Sender? && k.barrier.stage == Sending && |s.pipe.queue| >= c.depth);
    && (k.barrier == Free || blocked)
    && (k.waiting != multiset{} ==> blocked)
    && (k.probeQueue != multiset{} ==> k.probe.Probing?)
    && (k.probe.Probing? ==> blocked || (k.probe.stage.NestedSent? && |s.inbox.done| <= k.probe.stage.p < |s.admitted|))
  }

  lemma AtRestCallersWaitOnPeer(c: Config, s: State)
    requires Reachable(c, s) && !s.failed && Stuck(c, s)
    ensures WaitOnPeer(c, s)
  {
    hide Reachable, Stuck, Ordered, AllWellFormed, Hold, Alone, Shape, Counted, WillWake, Written, Scripted, Handoff, Reading, Backed, Quiet,
      Line, OnWire, ListsCapabilities, RequiresCapabilities, WellFormed, Text.Ascii;
    ReachableInv(c, s);
    StuckCaller(c, s);
    var k, b := s.callers, s.inbox;
    assert CallerStep(k, b, CheckClosed).None?;
    assert CallerStep(k, b, CheckCapabilities).None?;
    assert CallerStep(k, b, Release).None?;
    assert CallerStep(k, b, TakeBarrierForProbe).None?;
    assert CallerStep(k, b, ProbeCheck).None?;
    assert CallerStep(k, b, ProbeAnswered).None?;
    if r :| r in k.waiting { assert CallerStep(k, b, TakeBarrier(r)).None?; }
    if r :| r in k.probeQueue { assert CallerStep(k, b, TakeProbe(r)).None?; }
  }

  /** Every request called for was admitted and answered, or was given up for a stated reason. */
  predicate AllAccounted(c: Config, steps: seq<Step>, s: State) {
    && Called(steps) + Probes(steps)
       == Unnumbered(s.admitted) + Lost(c, Dropped, steps) + Lost(c, Refused, steps) + Lost(c, Unlisted, steps)
    && ReqsOf(s.inbox.done) == s.admitted
  }

  lemma NothingHeld(k: Callers)
    requires Settled(k)
    ensures Held(k) == multiset{}
  {
  }

  lemma NoWorkLeft(s: State)
    requires Ordered(s) && !HasWork(s)
    ensures Settled(s.callers) && ReqsOf(s.inbox.done) == s.admitted
  {
    hide WellFormed, Line;
  }

  /** At rest, and with no response due, no request is left waiting. */
  lemma AtRestAllAccounted(c: Config, steps: seq<Step>, s: State)
    requires Run(c, Init(), steps) == Some(s) && !s.failed && c.depth > 0 && Stuck(c, s) && !PeerOwes(c, s)
    ensures AllAccounted(c, steps, s)
  {
    hide Run, Stuck, PeerOwes, HasWork, Ordered, CallersOk, Hold, Alone, Shape, Counted, WillWake, Written, Scripted, Handoff, Reading,
      Backed, Quiet, Line, OnWire, Held, Unnumbered, Called, Probes, Lost, Accountable;
    assert Reachable(c, s);
    if HasWork(s) { StuckMeansPeerOwes(c, s); }
    ReachableInv(c, s);
    NoWorkLeft(s);
    NothingHeld(s.callers);
    RequestsAreConserved(c, steps, s);
  }

  /** No QUIT was answered with 205 and every settled probe brought a list. */
  ghost predicate Unhindered(done: seq<Exchange>) {
    (forall i | 0 <= i < |done| :: !IsQuit(done[i])) && forall p: nat :: !BringsNoList(done, p)
  }

  lemma NothingLost(c: Config, steps: seq<Step>, s: State)
    requires Run(c, Init(), steps) == Some(s) && NoDrops(steps) && Unhindered(s.inbox.done)
    ensures forall why :: Lost(c, why, steps) == multiset{}
  {
    hide Run, Lost, NoDrops, BringsNoList, IsQuit;
    LossesAreExplained(c, steps, s);
    forall why ensures Lost(c, why, steps) == multiset{} {
      assert why == Dropped || why == Refused || why == Unlisted;
    }
  }

  /** Every request called for, every probe and nothing else was admitted, and each is answered. */
  predicate AllServed(steps: seq<Step>, s: State) {
    Called(steps) + Probes(steps) == Unnumbered(s.admitted) && ReqsOf(s.inbox.done) == s.admitted
  }

  lemma AccountedIsServed(c: Config, steps: seq<Step>, s: State)
    requires Run(c, Init(), steps) == Some(s) && AllAccounted(c, steps, s) && NoDrops(steps) && Unhindered(s.inbox.done)
    ensures AllServed(steps, s)
  {
    hide Run, Lost, NoDrops, Unhindered, Called, Probes, Unnumbered;
    NothingLost(c, steps, s);
  }

  // ----- every schedule admits every call -----

  lemma {:induction false} ExtendedCalls(before: seq<Step>, run: seq<Step>)
    requires Extends(before, run)
    ensures Called(run) == Called(before) && (NoDrops(before) ==> NoDrops(run))
  {
    if |run| > |before| {
      var init := run[..|run| - 1];
      assert forall i | |before| <= i < |init| :: init[i] == run[i];
      ExtendedCalls(before, init);
      assert Internal(run[|run| - 1]);
    } else {
      assert run == before;
    }
  }

  /** Where a schedule ends after `run`, which carries on `before` with steps of the engine's
      own only: in failure, waiting for the peer, or with everything accounted for that was
      called for, and served if nothing was in the way. */
  ghost predicate Ends(c: Config, before: seq<Step>, run: seq<Step>, s: State) {
    && Extends(before, run) && Run(c, Init(), run) == Some(s) && Called(run) == Called(before)
    && (s.failed || PeerOwes(c, s) ||
        (AllAccounted(c, run, s) && (NoDrops(before) && Unhindered(s.inbox.done) ==> AllServed(run, s))))
  }

  /** On every schedule, after finitely many steps, the engine has failed, waits for the peer, or
      has admitted and answered every call, but for those dropped before, refused because
      a 205 to QUIT closed the session, or whose own probe brought no list. */
  lemma EveryCallIsAdmitted(c: Config, states: nat -> State, steps: nat -> Step, before: seq<Step>)
    requires Run(c, Init(), before) == Some(states(0)) && c.depth > 0 && Schedule(c, states, steps)
    ensures exists i: nat, run :: Ends(c, before, run, states(i))
  {
    hide Run, Stuck, PeerOwes, Schedule, Extends, AllAccounted, AllServed, Called, NoDrops, Unhindered;
    var i, run := ScheduleEnds(c, states, steps, before, 0);
    var s := states(i);
    ExtendedCalls(before, run);
    if !s.failed && !PeerOwes(c, s) {
      AtRestAllAccounted(c, run, s);
      if NoDrops(before) && Unhindered(s.inbox.done) { AccountedIsServed(c, run, s); }
    }
    assert Ends(c, before, run, states(i));
  }
}
