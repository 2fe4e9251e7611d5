/** Writing to a peer that may accept only part of what is offered, and the two article
    writers built on it. */
module Writers {
  import opened Wire
  import opened DotStuffing

  /** A connection that accepts at most `accept(i)` bytes in its i-th write; accepting
      nothing is a failed write. */
  class ShortWriter {
    var out: Bytes
    var calls: nat
    const accept: nat -> nat

    constructor (accept: nat -> nat)
      ensures out == [] && calls == 0 && this.accept == accept
    {
      out := [];
      calls := 0;
      this.accept := accept;
    }

    /** Every write is accepted at least in part. */
    ghost predicate Live() { forall i :: accept(i) > 0 }

    method PollWriteVectored(slices: seq<Bytes>) returns (written: nat)
      modifies this
      ensures calls == old(calls) + 1
      ensures written <= |Concat(slices)| && out == old(out) + Concat(slices)[..written]
      ensures written == 0 <==> accept(old(calls)) == 0 || Concat(slices) == []
    {
      var offered := Concat(slices);
      written := if accept(calls) < |offered| then accept(calls) else |offered|;
      out := out + offered[..written];
      calls := calls + 1;
    }
  }

  /** Drop `n` bytes from the front of a slice list: whole slices first (empty ones
      included), then the rest from the first slice that remains. */
  function AdvanceSlices(slices: seq<Bytes>, n: nat): (r: seq<Bytes>)
    requires n <= |Concat(slices)|
    ensures Concat(r) == Concat(slices)[n..]
    ensures r != [] ==> r[0] != []
  {
    if slices == [] then []
    else if |slices[0]| <= n then
      assert Concat(slices)[n..] == Concat(slices[1..])[n - |slices[0]|..];
      AdvanceSlices(slices[1..], n - |slices[0]|)
    else
      var r := [slices[0][n..]] + slices[1..];
      assert r[1..] == slices[1..];
      assert Concat(slices)[n..] == slices[0][n..] + Concat(slices[1..]);
      r
  }

  /** `b` extends `a` by some prefix of `whole`. */
  ghost predicate ExtendsWithin(a: Bytes, b: Bytes, whole: Bytes) {
    a <= b <= a + whole
  }

  /** Whatever the sizes of the accepted pieces, a successful vectored write puts out
      exactly the concatenation of its slices; a failed one puts out a prefix of it and
      means that the peer accepted nothing or that there was nothing to write. */
  method WriteAllVectored(w: ShortWriter, slices: seq<Bytes>) returns (ok: bool)
    modifies w
    ensures ok ==> w.out == old(w.out) + Concat(slices)
    ensures !ok ==> ExtendsWithin(old(w.out), w.out, Concat(slices))
    ensures w.Live() && (slices == [] || Concat(slices) != []) ==> ok
  {
    var remaining := slices;
    ghost var sent: Bytes := [];
    while remaining != []
      invariant sent + Concat(remaining) == Concat(slices)
      invariant w.out == old(w.out) + sent
      invariant Concat(remaining) == [] ==> remaining == [] || remaining == slices
      decreases |Concat(remaining)|
    {
      var written := w.PollWriteVectored(remaining);
      if written == 0 {
        assert Concat(remaining)[..0] == [];
        return false;
      }
      sent := sent + Concat(remaining)[..written];
      remaining := AdvanceSlices(remaining, written);
      if remaining != [] { assert Concat(remaining)[0] == remaining[0][0]; }
    }
    return true;
  }

  method WriteAll(w: ShortWriter, buf: Bytes) returns (ok: bool)
    modifies w
    ensures ok ==> w.out == old(w.out) + buf
    ensures !ok ==> ExtendsWithin(old(w.out), w.out, buf)
    ensures w.Live() ==> ok
  {
    ConcatOne(buf);
    if buf == [] {
      return true;
    }
    ok := WriteAllVectored(w, [buf]);
  }

  lemma SlicesOfLine(line: Bytes)
    ensures Concat([[DOT], line, CRLF]) == [DOT] + line + CRLF
    ensures Concat([line, CRLF]) == line + CRLF
  {
    ConcatOne(CRLF);
    assert [line, CRLF][1..] == [CRLF];
    assert [[DOT], line, CRLF][1..] == [line, CRLF];
  }

  method WriteStuffedLine(w: ShortWriter, line: Bytes) returns (ok: bool)
    modifies w
    ensures ok ==> w.out == old(w.out) + StuffLine(line)
    ensures !ok ==> ExtendsWithin(old(w.out), w.out, StuffLine(line))
    ensures w.Live() ==> ok
  {
    SlicesOfLine(line);
    if StartsWith(line, [DOT]) {
      ok := WriteAllVectored(w, [[DOT], line, CRLF]);
    } else {
      ok := WriteAllVectored(w, [line, CRLF]);
    }
  }

  lemma StuffLinesCons(line: Bytes, rest: seq<Bytes>)
    ensures StuffLines([line] + rest) == StuffLine(line) + StuffLines(rest)
  {
    assert ([line] + rest)[1..] == rest;
  }

  /** The bytes sent so far and the lines still to send always make up the whole. */
  lemma StuffStep(total: Bytes, sent: Bytes, line: Bytes, rest: seq<Bytes>)
    requires total == sent + (StuffLines([line] + rest) + DOT_TERMINATOR)
    ensures total == sent + StuffLine(line) + (StuffLines(rest) + DOT_TERMINATOR)
  {
    hide StuffLine, StuffLines;
    StuffLinesCons(line, rest);
    Assoc(StuffLine(line), StuffLines(rest), DOT_TERMINATOR);
    Assoc(sent, StuffLine(line), StuffLines(rest) + DOT_TERMINATOR);
  }

  /** A piece broken off on the way to the whole leaves a prefix of the whole. */
  lemma FailedWithin(start: Bytes, before: Bytes, out: Bytes, piece: Bytes, rest: Bytes, whole: Bytes)
    requires start <= before && before + piece + rest == start + whole
    ensures ExtendsWithin(before, out, piece) ==> ExtendsWithin(start, out, whole)
    ensures start <= before + piece
  {
    assert before + piece <= start + whole;
  }

  lemma EncodeNothing()
    ensures Encode([]) == DOT_TERMINATOR && StuffLines([]) == []
  {
  }

  /** The asynchronous article writer. */
  method WriteDotStuffedArticle(w: ShortWriter, payload: Bytes) returns (ok: bool)
    modifies w
    ensures ok ==> w.out == old(w.out) + Encode(payload)
    ensures !ok ==> ExtendsWithin(old(w.out), w.out, Encode(payload))
    ensures w.Live() ==> ok
  {
    hide StuffLine, StuffLines, PayloadLines, LineBreak, ExtendsWithin, CrlfNormalizedPayloadLines.Remaining;
    EncodeNothing();
    if payload == [] {
      ok := WriteAll(w, DOT_TERMINATOR);
      return;
    }
    var lines := new CrlfNormalizedPayloadLines(payload);
    ghost var todo := PayloadLines(payload);
    ghost var goal := w.out + Encode(payload);
    while true
      invariant lines.Valid() && lines.Remaining() == todo
      invariant goal == w.out + (StuffLines(todo) + DOT_TERMINATOR) && old(w.out) <= w.out
      decreases |lines.payload| - lines.start
    {
      var next := lines.Next();
      if next.None? {
        break;
      }
      ghost var before, rest := w.out, lines.Remaining();
      StuffStep(goal, before, next.value, rest);
      todo := rest;
      ok := WriteStuffedLine(w, next.value);
      FailedWithin(old(w.out), before, w.out, StuffLine(next.value), StuffLines(rest) + DOT_TERMINATOR, Encode(payload));
      if !ok {
        return;
      }
    }
    ghost var before := w.out;
    assert StuffLines(todo) + DOT_TERMINATOR == DOT_TERMINATOR;
    ok := WriteAll(w, DOT_TERMINATOR);
    FailedWithin(old(w.out), before, w.out, DOT_TERMINATOR, [], Encode(payload));
  }

  method AppendStuffedLine(output: Bytes, line: Bytes) returns (out: Bytes)
    ensures out == output + StuffLine(line)
  {
    out := output;
    if StartsWith(line, [DOT]) {
      out := out + [DOT];
    }
    out := out + line;
    out := out + CRLF;
  }

  /** The synchronous article writer puts out the same bytes. */
  method AppendDotStuffedArticle(payload: Bytes) returns (out: Bytes)
    ensures out == Encode(payload)
  {
    hide StuffLine, StuffLines, PayloadLines, LineBreak;
    EncodeNothing();
    out := [];
    if payload == [] {
      return DOT_TERMINATOR;
    }
    var lines := new CrlfNormalizedPayloadLines(payload);
    ghost var todo := lines.Remaining();
    ghost var total := Encode(payload);
    while true
      invariant lines.Valid() && lines.Remaining() == todo
      invariant total == out + (StuffLines(todo) + DOT_TERMINATOR)
      decreases |lines.payload| - lines.start
    {
      var next := lines.Next();
      if next.None? {
        break;
      }
      StuffStep(total, out, next.value, lines.Remaining());
      out := AppendStuffedLine(out, next.value);
      todo := lines.Remaining();
    }
    out := out + DOT_TERMINATOR;
  }
}
