/** Dot-stuffing of an article: payload lines are normalised to CRLF, a leading dot is
    doubled, and a dot line closes the block (section 3.1.1 of RFC 3977). */
module DotStuffing {
  import opened Wire
  import opened Lines
  import Terminator

  /** Length of the first payload line, and where the next one starts. A line ends at
      CR, LF or CRLF, or at the end of the payload. */
  function LineBreak(p: Bytes, i: nat): (r: (nat, nat))
    requires i <= |p|
    ensures i <= r.0 <= r.1 <= |p| && (i < |p| ==> i < r.1)
    decreases |p| - i
  {
    if i == |p| then (i, i)
    else if p[i] == CR then (i, if i + 1 < |p| && p[i + 1] == LF then i + 2 else i + 1)
    else if p[i] == LF then (i, i + 1)
    else LineBreak(p, i + 1)
  }

  /** Payload lines, without their breaks. */
  function PayloadLines(p: Bytes): (r: seq<Bytes>)
    decreases |p|
  {
    if p == [] then []
    else
      var (end, next) := LineBreak(p, 0);
      [p[..end]] + PayloadLines(p[next..])
  }

  predicate AllUnbroken(lines: seq<Bytes>) {
    forall i | 0 <= i < |lines| :: Unbroken(lines[i])
  }

  lemma {:induction false} LineBreakFinds(p: Bytes, i: nat)
    requires i <= |p| && UnbrokenTo(p, i)
    ensures var (end, next) := LineBreak(p, i);
            && UnbrokenTo(p, end)
            && (end == |p| ==> next == |p|)
            && (end < |p| ==>
                  || (p[end..next] == [LF])
                  || (p[end..next] == CRLF)
                  || (p[end..next] == [CR] && (next == |p| || p[next] != LF)))
    decreases |p| - i
  {
    if i < |p| && !IsBreak(p[i]) {
      LineBreakFinds(p, i + 1);
    }
  }

  lemma {:induction false} PayloadLinesUnbroken(p: Bytes)
    ensures AllUnbroken(PayloadLines(p))
    decreases |p|
  {
    if p != [] {
      LineBreakFinds(p, 0);
      PayloadLinesUnbroken(p[LineBreak(p, 0).1..]);
    }
  }

  // ----- the lines are those of the payload -----

  /** The bytes of a payload other than its line breaks. */
  function Kept(p: Bytes): (r: Bytes) {
    if p == [] then [] else (if IsBreak(p[0]) then [] else [p[0]]) + Kept(p[1..])
  }

  lemma {:induction false} KeptAppend(a: Bytes, b: Bytes)
    ensures Kept(a + b) == Kept(a) + Kept(b)
  {
    if a == [] {
      assert a + b == b;
    } else {
      KeptAppend(a[1..], b);
      assert (a + b)[0] == a[0] && (a + b)[1..] == a[1..] + b;
      Assoc(if IsBreak(a[0]) then [] else [a[0]], Kept(a[1..]), Kept(b));
    }
  }

  lemma {:induction false} KeptUnbroken(line: Bytes)
    requires Unbroken(line)
    ensures Kept(line) == line
  {
    if line != [] {
      KeptUnbroken(line[1..]);
      assert line == [line[0]] + line[1..];
    }
  }

  /** A separator between lines, or the end of the payload. */
  predicate IsSeparator(sep: Bytes) { sep == CRLF || sep == [CR] || sep == [LF] }

  lemma KeptSeparator(sep: Bytes)
    requires sep == [] || IsSeparator(sep)
    ensures Kept(sep) == []
  {
    if sep != [] { assert Kept(sep[1..]) == []; }
  }

  lemma InThree(p: Bytes, end: nat, next: nat)
    requires end <= next <= |p|
    ensures p == p[..end] + (p[end..next] + p[next..])
  {
    SplitAt(p, end);
    SplitAt(p[end..], next - end);
    assert p[end..][..next - end] == p[end..next] && p[end..][next - end..] == p[next..];
  }

  /** The first line, its separator and the rest make up the payload. */
  lemma FirstLine(p: Bytes)
    requires p != []
    ensures var (end, next) := LineBreak(p, 0);
            && p == p[..end] + (p[end..next] + p[next..]) && Unbroken(p[..end])
            && (if end == |p| then p[end..next] == [] && p[next..] == [] && p[..end] != [] else IsSeparator(p[end..next]))
            && (p[end..next] == [CR] ==> p[next..] == [] || p[next..][0] != LF)
  {
    hide LineBreak;
    var (end, next) := LineBreak(p, 0);
    LineBreakFinds(p, 0);
    InThree(p, end, next);
    assert forall i | 0 <= i < end :: p[..end][i] == p[i];
    if next < |p| { assert p[next..][0] == p[next]; }
  }

  lemma ConcatNothing()
    ensures Concat([]) == []
  {
  }

  /** The encoder keeps every byte of the payload but the breaks, in order. */
  lemma {:induction false} PayloadIsKept(p: Bytes)
    ensures Concat(PayloadLines(p)) == Kept(p)
    decreases |p|
  {
    hide Kept, Concat;
    if p == [] {
      KeptSeparator([]);
      ConcatNothing();
    } else {
      var (end, next) := LineBreak(p, 0);
      var line, sep, rest := p[..end], p[end..next], p[next..];
      FirstLine(p);
      PayloadIsKept(rest);
      KeptAppend(line, sep + rest);
      KeptAppend(sep, rest);
      KeptUnbroken(line);
      KeptSeparator(sep);
      ConcatCons(line, PayloadLines(rest));
    }
  }

  /** Lines, each followed by its separator; the last one may go without. */
  function Broken(lines: seq<Bytes>, seps: seq<Bytes>): (p: Bytes) {
    if lines == [] then []
    else if seps == [] then lines[0] + Broken(lines[1..], [])
    else lines[0] + (seps[0] + Broken(lines[1..], seps[1..]))
  }

  /** The payload is these lines broken by these separators: no line has a break in it, a
      lone CR is not before LF, and only a nonempty last line goes without a separator. */
  predicate IsSplit(lines: seq<Bytes>, seps: seq<Bytes>) {
    if lines == [] then seps == []
    else if seps == [] then |lines| == 1 && lines[0] != [] && Unbroken(lines[0])
    else
      var rest := Broken(lines[1..], seps[1..]);
      && Unbroken(lines[0]) && IsSeparator(seps[0]) && (seps[0] == [CR] ==> rest == [] || rest[0] != LF)
      && IsSplit(lines[1..], seps[1..])
  }

  lemma {:induction false} LineBreakAt(line: Bytes, sep: Bytes, rest: Bytes, i: nat)
    requires Unbroken(line) && i <= |line|
    requires if sep == [] then rest == [] else IsSeparator(sep) && (sep == [CR] ==> rest == [] || rest[0] != LF)
    ensures LineBreak(line + (sep + rest), i) == (|line|, |line| + |sep|)
    decreases |line| - i
  {
    var d := line + (sep + rest);
    if i < |line| {
      assert d[i] == line[i];
      LineBreakAt(line, sep, rest, i + 1);
    } else if sep != [] {
      assert d[i] == sep[0];
      assert sep == [CR] && rest != [] ==> d[i + 1] == rest[0];
      assert sep == CRLF ==> d[i + 1] == LF;
    }
  }

  lemma PayloadLinesAt(line: Bytes, sep: Bytes, rest: Bytes)
    requires Unbroken(line) && line + sep != []
    requires if sep == [] then rest == [] else IsSeparator(sep) && (sep == [CR] ==> rest == [] || rest[0] != LF)
    ensures PayloadLines(line + (sep + rest)) == [line] + PayloadLines(rest)
  {
    hide LineBreak;
    var d := line + (sep + rest);
    LineBreakAt(line, sep, rest, 0);
    assert d[..|line|] == line && d[|line| + |sep|..] == rest;
  }

  lemma NoPayloadLines()
    ensures PayloadLines([]) == []
  {
  }

  /** However a payload is broken into lines, those are its payload lines ... */
  lemma {:induction false} SplitIsUnique(lines: seq<Bytes>, seps: seq<Bytes>)
    requires IsSplit(lines, seps)
    ensures PayloadLines(Broken(lines, seps)) == lines
  {
    hide PayloadLines;
    if lines == [] {
      NoPayloadLines();
    } else if seps == [] {
      NoPayloadLines();
      PayloadLinesAt(lines[0], [], []);
      assert Broken(lines, seps) == lines[0] + ([] + []);
      assert lines == [lines[0]];
    } else {
      SplitIsUnique(lines[1..], seps[1..]);
      PayloadLinesAt(lines[0], seps[0], Broken(lines[1..], seps[1..]));
      assert lines == [lines[0]] + lines[1..];
    }
  }

  /** ... and every payload is its payload lines, so broken. */
  lemma {:induction false} SplitExists(p: Bytes) returns (seps: seq<Bytes>)
    ensures IsSplit(PayloadLines(p), seps) && Broken(PayloadLines(p), seps) == p
    decreases |p|
  {
    if p == [] {
      seps := [];
    } else {
      var (end, next) := LineBreak(p, 0);
      var line, rest, lines := p[..end], p[next..], PayloadLines(p);
      FirstLine(p);
      assert lines[0] == line && lines[1..] == PayloadLines(rest);
      if end == |p| {
        seps := [];
        assert lines[1..] == [];
      } else {
        var more := SplitExists(rest);
        seps := [p[end..next]] + more;
        assert seps[1..] == more;
      }
    }
  }

  /** Every line followed by CRLF. */
  function JoinCrlf(lines: seq<Bytes>): (r: Bytes) {
    if lines == [] then [] else lines[0] + CRLF + JoinCrlf(lines[1..])
  }

  lemma {:induction false} KeptJoined(lines: seq<Bytes>)
    requires AllUnbroken(lines)
    ensures Kept(JoinCrlf(lines)) == Concat(lines)
  {
    hide Kept;
    KeptSeparator([]);
    if lines != [] {
      var rest := JoinCrlf(lines[1..]);
      KeptJoined(lines[1..]);
      Assoc(lines[0], CRLF, rest);
      KeptAppend(lines[0], CRLF + rest);
      KeptAppend(CRLF, rest);
      KeptUnbroken(lines[0]);
      KeptSeparator(CRLF);
    }
  }

  /** The payload as the receiving side is meant to see it. */
  function Normalized(p: Bytes): (r: Bytes) { JoinCrlf(PayloadLines(p)) }

  lemma {:induction false} LineBreakOfJoined(line: Bytes, rest: Bytes, i: nat)
    requires Unbroken(line) && i <= |line|
    ensures LineBreak(line + CRLF + rest, i) == (|line|, |line| + 2)
    decreases |line| - i
  {
    var d := line + CRLF + rest;
    if i < |line| {
      assert d[i] == line[i];
      LineBreakOfJoined(line, rest, i + 1);
    } else {
      assert d[i] == CR && d[i + 1] == LF;
    }
  }

  /** Lines joined with CRLF split back into the same lines ... */
  lemma {:induction false} SplitJoined(lines: seq<Bytes>)
    requires AllUnbroken(lines)
    ensures PayloadLines(JoinCrlf(lines)) == lines
  {
    if lines != [] {
      var rest := JoinCrlf(lines[1..]);
      var d := lines[0] + CRLF + rest;
      LineBreakOfJoined(lines[0], rest, 0);
      SplitJoined(lines[1..]);
      assert d[..|lines[0]|] == lines[0] && d[|lines[0]| + 2..] == rest;
    }
  }

  /** ... so normalising is idempotent. */
  lemma NormalizedIdempotent(p: Bytes)
    ensures Normalized(Normalized(p)) == Normalized(p)
  {
    PayloadLinesUnbroken(p);
    SplitJoined(PayloadLines(p));
  }

  function StuffLine(line: Bytes): (r: Bytes) {
    if StartsWith(line, [DOT]) then [DOT] + line + CRLF else line + CRLF
  }

  function StuffLines(lines: seq<Bytes>): (r: Bytes) {
    if lines == [] then [] else StuffLine(lines[0]) + StuffLines(lines[1..])
  }

  /** The bytes put on the wire for an article payload. */
  function Encode(payload: Bytes): (r: Bytes) {
    StuffLines(PayloadLines(payload)) + DOT_TERMINATOR
  }

  /** A dot line found behind a complete line is a dot line of what follows that line. */
  lemma DotLineShift(line: Bytes, rest: Bytes, e: nat)
    requires |line| >= 2 && line[|line| - 2] == CR && line[|line| - 1] == LF
    requires e > |line|
    ensures DotLineEndsAt(line + rest, e) <==> DotLineEndsAt(rest, e - |line|)
  {
    var d, n := line + rest, |line|;
    assert d[n - 1] == LF && d[n - 2] == CR;
    assert forall i | n <= i < |d| :: d[i] == rest[i - n];
  }

  /** A stuffed line is never a dot line and holds no other line end. */
  lemma NoDotLineInStuffed(line: Bytes, rest: Bytes, e: nat)
    requires Unbroken(line) && e <= |StuffLine(line)|
    ensures !DotLineEndsAt(StuffLine(line) + rest, e)
  {
    var s := StuffLine(line);
    var body := if StartsWith(line, [DOT]) then [DOT] + line else line;
    assert s == body + CRLF;
    assert forall i | 0 <= i < |body| :: (s + rest)[i] == body[i] && !IsBreak(body[i]);
    assert (s + rest)[|body|] == CR;
    if |line| == 1 && line[0] == DOT { assert line[..1] == [DOT]; }
    if |line| >= 1 && line[0] == DOT { assert line[..1] == [DOT]; assert |body| >= 2; }
  }

  /** The stuffed lines and the closing dot line are one block, of exactly that length,
      whatever follows. */
  lemma StuffLineEnds(line: Bytes)
    ensures var s := StuffLine(line); |s| >= 2 && s[|s| - 2] == CR && s[|s| - 1] == LF
  {
  }

  /** A stuffed line in front moves the first dot line by its length. */
  lemma FirstDotLineBehind(line: Bytes, rest: Bytes)
    requires Unbroken(line) && FirstDotLine(rest).Some?
    ensures FirstDotLine(StuffLine(line) + rest) == Some(|StuffLine(line)| + FirstDotLine(rest).value)
  {
    StuffLineEnds(line);
    var end := FirstDotLine(rest).value;
    hide DotLineEndsAt, StuffLine;
    var s := StuffLine(line);
    DotLineShift(s, rest, |s| + end);
    forall k: nat | k < |s| + end
      ensures !DotLineEndsAt(s + rest, k)
    {
      if k <= |s| { NoDotLineInStuffed(line, rest, k); }
      else { DotLineShift(s, rest, k); }
    }
    FirstDotLineIs(s + rest, |s| + end);
  }

  lemma {:induction false} StuffedIsOneBlock(lines: seq<Bytes>, suffix: Bytes)
    requires AllUnbroken(lines)
    ensures FirstDotLine(StuffLines(lines) + DOT_TERMINATOR + suffix) == Some(|StuffLines(lines)| + 3)
  {
    var d := StuffLines(lines) + DOT_TERMINATOR + suffix;
    if lines == [] {
      FirstDotLineIs(d, 3);
    } else {
      StuffedIsOneBlock(lines[1..], suffix);
      hide FirstDotLine, StuffLine;
      var s, others := StuffLine(lines[0]), StuffLines(lines[1..]);
      Assoc(s, others, DOT_TERMINATOR);
      Assoc(s, others + DOT_TERMINATOR, suffix);
      FirstDotLineBehind(lines[0], others + DOT_TERMINATOR + suffix);
    }
  }

  /** An encoded article is recognised at exactly its full length. */
  lemma EncodeIsOneBlock(payload: Bytes, suffix: Bytes)
    ensures FirstDotLine(Encode(payload) + suffix) == Some(|Encode(payload)|)
  {
    PayloadLinesUnbroken(payload);
    StuffedIsOneBlock(PayloadLines(payload), suffix);
  }

  function EncodeAll(payloads: seq<Bytes>): (r: seq<Bytes>)
    ensures |r| == |payloads|
  {
    seq(|payloads|, i requires 0 <= i < |payloads| => Encode(payloads[i]))
  }

  /** Any number of encoded articles followed by an incomplete tail come apart again
      into exactly those articles, with the tail left over. */
  lemma {:induction false} BlocksOfEncoded(payloads: seq<Bytes>, tail: Bytes)
    requires FirstDotLine(tail).None?
    ensures Terminator.Blocks(Concat(EncodeAll(payloads)) + tail) == EncodeAll(payloads)
    ensures Terminator.Unfinished(Concat(EncodeAll(payloads)) + tail) == tail
  {
    var d := Concat(EncodeAll(payloads)) + tail;
    if payloads == [] {
      assert d == tail;
    } else {
      var first, others := Encode(payloads[0]), EncodeAll(payloads[1..]);
      assert EncodeAll(payloads)[1..] == others;
      var rest := Concat(others) + tail;
      assert d == first + rest;
      EncodeIsOneBlock(payloads[0], rest);
      BlocksOfEncoded(payloads[1..], tail);
      assert d[..|first|] == first && d[|first|..] == rest;
    }
  }

  /** Reading side: drop a dot at the start of a line, byte by byte. */
  function Unstuff(d: Bytes, lineStart: bool): (r: Bytes)
    decreases |d|
  {
    if d == [] then []
    else if lineStart && d[0] == DOT then Unstuff(d[1..], false)
    else [d[0]] + Unstuff(d[1..], d[0] == LF)
  }

  /** Un-stuffing, one byte at a time. */
  lemma UnstuffStep(b: byte, rest: Bytes, lineStart: bool)
    ensures Unstuff([b] + rest, lineStart)
         == if lineStart && b == DOT then Unstuff(rest, false) else [b] + Unstuff(rest, b == LF)
  {
    assert ([b] + rest)[1..] == rest;
  }

  lemma CrlfCons(rest: Bytes)
    ensures CRLF + rest == [CR] + ([LF] + rest)
  {
    Assoc([CR], [LF], rest);
  }

  lemma UnstuffCrlf(rest: Bytes)
    ensures Unstuff(CRLF + rest, false) == CRLF + Unstuff(rest, true)
  {
    hide Unstuff;
    CrlfCons(rest);
    CrlfCons(Unstuff(rest, true));
    UnstuffStep(CR, [LF] + rest, false);
    UnstuffStep(LF, rest, false);
  }

  lemma FirstOfLine(body: Bytes, rest: Bytes)
    requires body != []
    ensures body + CRLF + rest == [body[0]] + (body[1..] + CRLF + rest)
  {
    assert body == [body[0]] + body[1..];
    Assoc([body[0]], body[1..], CRLF);
    Assoc([body[0]], body[1..] + CRLF, rest);
  }

  lemma {:induction false} UnstuffPlain(body: Bytes, rest: Bytes)
    requires Unbroken(body)
    ensures Unstuff(body + CRLF + rest, false) == body + CRLF + Unstuff(rest, true)
  {
    hide Unstuff;
    if body == [] {
      UnstuffCrlf(rest);
      assert body + CRLF == CRLF;
    } else {
      FirstOfLine(body, rest);
      FirstOfLine(body, Unstuff(rest, true));
      UnstuffStep(body[0], body[1..] + CRLF + rest, false);
      UnstuffPlain(body[1..], rest);
    }
  }

  /** At the start of a line only a dot makes a difference. */
  lemma UnstuffUndotted(d: Bytes)
    requires d != [] && d[0] != DOT
    ensures Unstuff(d, true) == Unstuff(d, false)
  {
    hide Unstuff;
    UnstuffStep(d[0], d[1..], true);
    UnstuffStep(d[0], d[1..], false);
    assert d == [d[0]] + d[1..];
  }

  lemma StuffedLineBytes(line: Bytes, rest: Bytes)
    ensures StuffLine(line) + rest == (if StartsWith(line, [DOT]) then [DOT] else []) + (line + CRLF + rest)
    ensures !StartsWith(line, [DOT]) ==> (line + CRLF + rest)[0] != DOT
  {
    if line != [] { assert line[..1] == [line[0]]; }
  }

  lemma UnstuffStuffedLine(line: Bytes, rest: Bytes)
    requires Unbroken(line)
    ensures Unstuff(StuffLine(line) + rest, true) == line + CRLF + Unstuff(rest, true)
  {
    hide Unstuff, StuffLine, StartsWith;
    var plain := line + CRLF + rest;
    UnstuffPlain(line, rest);
    StuffedLineBytes(line, rest);
    if StartsWith(line, [DOT]) {
      UnstuffStep(DOT, plain, true);
    } else {
      assert [] + plain == plain;
      UnstuffUndotted(plain);
    }
  }

  lemma {:induction false} UnstuffStuffed(lines: seq<Bytes>)
    requires AllUnbroken(lines)
    ensures Unstuff(StuffLines(lines), true) == JoinCrlf(lines)
  {
    if lines != [] {
      UnstuffStuffedLine(lines[0], StuffLines(lines[1..]));
      UnstuffStuffed(lines[1..]);
    }
  }

  /** Round trip: framing an encoded article and un-stuffing its content gives back the
      payload with normalised line ends, and those ends are all that differs. */
  lemma EncodeRoundTrip(payload: Bytes, suffix: Bytes)
    ensures var wire := Encode(payload) + suffix;
            && FirstDotLine(wire).Some?
            && Unstuff(wire[..FirstDotLine(wire).value - 3], true) == Normalized(payload)
    ensures Kept(Normalized(payload)) == Kept(payload)
  {
    EncodeIsOneBlock(payload, suffix);
    PayloadLinesUnbroken(payload);
    var lines := PayloadLines(payload);
    UnstuffStuffed(lines);
    assert (Encode(payload) + suffix)[..|Encode(payload)| - 3] == StuffLines(lines);
    KeptJoined(lines);
    PayloadIsKept(payload);
  }

  lemma UnstuffNone()
    ensures Unstuff([], true) == [] && Unstuff([], false) == []
  {
  }

  lemma UnstuffAt(buf: Bytes, i: nat, lineStart: bool)
    requires i < |buf|
    ensures Unstuff(buf[i..], lineStart)
         == if lineStart && buf[i] == DOT then Unstuff(buf[i + 1..], false) else [buf[i]] + Unstuff(buf[i + 1..], buf[i] == LF)
  {
    hide Unstuff;
    UnstuffStep(buf[i], buf[i + 1..], lineStart);
    assert buf[i..] == [buf[i]] + buf[i + 1..];
  }

  /** The un-stuffing loop of the article view. */
  method UnstuffKnownDotLines(buf: Bytes) returns (unstuffed: Bytes)
    ensures unstuffed == Unstuff(buf, true)
  {
    hide Unstuff;
    unstuffed := [];
    var lineStart := true;
    ghost var whole := Unstuff(buf, true);
    assert buf[0..] == buf;
    UnstuffNone();
    for i := 0 to |buf|
      invariant whole == unstuffed + Unstuff(buf[i..], lineStart)
    {
      UnstuffAt(buf, i, lineStart);
      Assoc(unstuffed, [buf[i]], Unstuff(buf[i + 1..], buf[i] == LF));
      if lineStart && buf[i] == DOT {
        lineStart := false;
      } else {
        unstuffed := unstuffed + [buf[i]];
        lineStart := buf[i] == LF;
      }
    }
    assert buf[|buf|..] == [];
  }

  lemma NoDotLineInNothing()
    ensures FirstDotLine([]).None? && Concat([]) == []
  {
  }

  lemma ChunksBefore(chunks: seq<Bytes>, k: nat)
    requires k < |chunks|
    ensures Concat(chunks[..k + 1]) == Concat(chunks[..k]) + chunks[k]
  {
    hide Concat;
    ConcatAppend(chunks[..k], [chunks[k]]);
    ConcatOne(chunks[k]);
    assert chunks[..k + 1] == chunks[..k] + [chunks[k]];
  }

  lemma ChunksSplit(chunks: seq<Bytes>, k: nat)
    requires k <= |chunks|
    ensures Concat(chunks[..k]) + Concat(chunks[k..]) == Concat(chunks)
  {
    hide Concat;
    ConcatAppend(chunks[..k], chunks[k..]);
    assert chunks == chunks[..k] + chunks[k..];
  }

  /** Until the block is complete there are chunks to come. */
  lemma MoreToFeed(payload: Bytes, suffix: Bytes, chunks: seq<Bytes>, k: nat)
    requires Concat(chunks) == Encode(payload) + suffix && k <= |chunks| && FirstDotLine(Concat(chunks[..k])).None?
    ensures k < |chunks|
  {
    hide Encode, FirstDotLine, Concat;
    EncodeIsOneBlock(payload, suffix);
    assert chunks[..|chunks|] == chunks;
  }

  /** An encoded payload fed to the framer in any chunks, with anything behind it, is framed
      at exactly its full length: in chunk `k`, of which `consumed` bytes belong to it. */
  method FrameEncoded(payload: Bytes, suffix: Bytes, chunks: seq<Bytes>) returns (k: nat, consumed: nat, contentEnd: nat)
    requires Concat(chunks) == Encode(payload) + suffix
    ensures k < |chunks| && 0 < consumed <= |chunks[k]|
    ensures |Concat(chunks[..k])| + consumed == |Encode(payload)| && contentEnd == |Encode(payload)| - 3
  {
    hide Encode, FirstDotLine, Concat, Terminator.MultilineFramer.Valid;
    EncodeIsOneBlock(payload, suffix);
    var framer := new Terminator.MultilineFramer();
    k := 0;
    NoDotLineInNothing();
    MoreToFeed(payload, suffix, chunks, 0);
    while true
      invariant k < |chunks| && framer.Valid() && fresh(framer.Repr())
      invariant framer.seen == Concat(chunks[..k]) && FirstDotLine(framer.seen).None?
      decreases |chunks| - k
    {
      ChunksBefore(chunks, k);
      ChunksSplit(chunks, k + 1);
      ghost var seen := Concat(chunks[..k + 1]);
      if FirstDotLine(seen).Some? { FirstDotLineStable(seen, Concat(chunks[k + 1..])); }
      var progress := framer.Push(chunks[k]);
      if progress.FrameComplete? {
        return k, progress.chunkConsumed, progress.contentEnd;
      }
      MoreToFeed(payload, suffix, chunks, k + 1);
      k := k + 1;
    }
  }

  /** Iterator over payload lines. */
  class CrlfNormalizedPayloadLines {
    const payload: Bytes
    var start: nat

    ghost predicate Valid() reads this { start <= |payload| }

    ghost function Remaining(): (r: seq<Bytes>)
      requires Valid()
      reads this
    {
      PayloadLines(payload[start..])
    }

    constructor (payload: Bytes)
      ensures Valid() && this.payload == payload && Remaining() == PayloadLines(payload)
    {
      this.payload := payload;
      start := 0;
      new;
      assert payload[0..] == payload;
    }

    method Next() returns (r: Option<Bytes>)
      requires Valid()
      modifies this
      ensures Valid()
      ensures r.None? ==> old(Remaining()) == [] && Remaining() == []
      ensures r.Some? ==> old(Remaining()) == [r.value] + Remaining() && old(start) < start
    {
      if start >= |payload| {
        return None;
      }
      ghost var rest := payload[start..];
      var index := start;
      while index < |payload| && !IsBreak(payload[index])
        invariant start <= index <= |payload|
        invariant LineBreak(rest, 0) == LineBreak(rest, index - start)
      {
        assert rest[index - start] == payload[index];
        index := index + 1;
      }
      var line := payload[start..index];
      assert line == rest[..index - start];
      var next := index;
      if index < |payload| {
        assert rest[index - start] == payload[index];
        next := index + 1;
        if payload[index] == CR && next < |payload| && payload[next] == LF {
          next := next + 1;
        }
      }
      assert LineBreak(rest, 0) == (index - start, next - start);
      assert payload[next..] == rest[next - start..];
      start := next;
      return Some(line);
    }
  }
}
