/** Writing whole requests to the connection, one by one or coalesced. */
module RequestWriter {
  import opened Wire
  import opened Writers
  import Requests
  import Engine
  import Protocol
  import DotStuffing

  /** The bytes of a batch in order. */
  function BatchWire(batch: seq<Requests.Request>): (r: Bytes) {
    if batch == [] then [] else BatchWire(batch[..|batch| - 1]) + Requests.WireOf(batch[|batch| - 1])
  }

  lemma BatchWireSnoc(batch: seq<Requests.Request>, i: nat)
    requires i < |batch|
    ensures BatchWire(batch[..i + 1]) == BatchWire(batch[..i]) + Requests.WireOf(batch[i])
  {
    hide Requests.WireOf;
    assert batch[..i + 1][..i] == batch[..i];
  }

  lemma LineIsSomething(r: Requests.Request)
    ensures Requests.CommandLine(r) != []
  {
    hide Requests.VerbOf, Requests.ArgsOf, Requests.Spaced;
  }

  lemma WireIsSomething(r: Requests.Request)
    ensures Requests.WireOf(r) != []
  {
    hide Requests.WireOf, Requests.CommandLine, DotStuffing.Encode;
    Requests.PrintersAgree(r);
    LineIsSomething(r);
  }

  /** Whatever the sizes of the accepted pieces, a request is written as its wire form; a
      failed write leaves a prefix of it. */
  method WriteRequest(w: ShortWriter, r: Requests.Request) returns (ok: bool)
    modifies w
    ensures ok ==> w.out == old(w.out) + Requests.WireOf(r)
    ensures !ok ==> ExtendsWithin(old(w.out), w.out, Requests.WireOf(r))
    ensures w.Live() ==> ok
  {
    hide Requests.WireOf, Requests.CommandSlices, Requests.CommandLine, DotStuffing.Encode, Concat;
    Requests.PrintersAgree(r);
    LineIsSomething(r);
    ok := WriteAllVectored(w, Requests.CommandSlices(r));
    if ok && r.TakeThis? {
      ghost var line, payload := Requests.CommandLine(r), Requests.PayloadOf(r);
      ok := WriteDotStuffedArticle(w, r.article);
      Assoc(old(w.out), line, payload);
    }
  }

  /** A batch is encoded into one buffer and written at once. */
  method WriteRequestsBuffered(w: ShortWriter, batch: seq<Requests.Request>) returns (ok: bool)
    modifies w
    ensures ok ==> w.out == old(w.out) + BatchWire(batch)
    ensures !ok ==> ExtendsWithin(old(w.out), w.out, BatchWire(batch))
    ensures w.Live() ==> ok
  {
    hide Requests.WireOf;
    var sink := new ShortWriter(n => 1);
    for i := 0 to |batch|
      invariant sink.out == BatchWire(batch[..i]) && fresh(sink) && sink.Live()
      invariant w.out == old(w.out)
    {
      var done := WriteRequest(sink, batch[i]);
      BatchWireSnoc(batch, i);
    }
    assert batch[..|batch|] == batch;
    ok := WriteAll(w, sink.out);
  }

  /** The writer task's choice between the two makes no difference to the peer. */
  method WriteBatch(w: ShortWriter, batch: seq<Requests.Request>) returns (ok: bool)
    modifies w
    ensures ok ==> w.out == old(w.out) + BatchWire(batch)
    ensures !ok ==> ExtendsWithin(old(w.out), w.out, BatchWire(batch))
    ensures w.Live() ==> ok
  {
    hide Requests.WireOf;
    if |batch| == 1 {
      BatchWireSnoc(batch, 0);
      assert batch[..1] == batch;
      ok := WriteRequest(w, batch[0]);
    } else {
      ok := WriteRequestsBuffered(w, batch);
    }
  }

  const LARGE_PAYLOAD_BYTES: nat := 8 * 1024

  predicate HasLargePayload(r: Requests.Request) { r.TakeThis? && |r.article| > LARGE_PAYLOAD_BYTES }

  /** What a caller queues for a request: its kind and wire form, and the flags that follow
      from them. */
  function ReqOf(r: Requests.Request, article: Option<Bytes>, mark: bool): (q: Engine.Req) {
    var kind := Requests.KindOf(r);
    Engine.Req(0, kind, Requests.WireOf(r), article, mark, Protocol.InvalidatesCapabilities(kind), HasLargePayload(r))
  }

  /** The client's entry points queue well-formed requests: exactly those with an article only
      on POST and IHAVE and a mark only on CAPABILITIES. */
  lemma QueuedIsWellFormed(r: Requests.Request, article: Option<Bytes>, mark: bool)
    ensures Engine.WellFormed(ReqOf(r, article, mark)) <==>
            (mark ==> r.Capabilities?) && (article.Some? ==> r.Post? || r.Ihave?)
    ensures ReqOf(r, article, mark).large <==> r.TakeThis? && |r.article| > 8192
  {
    hide Requests.WireOf, Protocol.InvalidatesCapabilities;
    WireIsSomething(r);
  }

  /** The probe is what a caller would queue for CAPABILITIES without an argument. */
  lemma ProbeIsCapabilities()
    ensures Engine.PROBE == ReqOf(Requests.Capabilities(None), None, false)
  {
    var r := Requests.Capabilities(None);
    assert Requests.CommandLine(r) == Engine.PROBE.wire;
  }

  /** A request under whatever number it was admitted. */
  predicate IsQueued(q: Engine.Req, r: Requests.Request) { q == ReqOf(r, q.article, q.mark).(id := q.id) }

  /** What the engine commits for a batch is what the writer puts out for it. */
  lemma {:induction false} CommittedIsWritten(queued: seq<Engine.Req>, batch: seq<Requests.Request>)
    requires |queued| == |batch| && forall i | 0 <= i < |batch| :: IsQueued(queued[i], batch[i])
    ensures Engine.WireOf(queued) == BatchWire(batch)
  {
    hide Requests.WireOf;
    if batch != [] {
      CommittedIsWritten(queued[..|queued| - 1], batch[..|batch| - 1]);
      assert IsQueued(queued[|queued| - 1], batch[|batch| - 1]);
    }
  }
}
