/** Incremental search for the dot line that ends a multi-line block: a rolling
    four-byte tail, a prefix automaton for the empty block, the framer that combines
    them, and the iterator over whole blocks in one buffer. */
module Terminator {
  import opened Wire

  const TERMINATOR_TAIL_SIZE: nat := 4

  predicate TerminatorAt(d: Bytes, i: nat) {
    && i + 5 <= |d|
    && d[i] == CR && d[i + 1] == LF && d[i + 2] == DOT && d[i + 3] == CR && d[i + 4] == LF
  }

  /** First occurrence of CRLF "." CRLF at offset `i` or later (the substring searcher). */
  function FindTerminator(d: Bytes, i: nat): (r: Option<nat>)
    requires i <= |d|
    ensures r.Some? ==> i <= r.value && TerminatorAt(d, r.value)
                        && forall k | i <= k < r.value :: !TerminatorAt(d, k)
    ensures r.None? ==> forall k | i <= k :: !TerminatorAt(d, k)
    decreases |d| - i
  {
    if i == |d| then None
    else if TerminatorAt(d, i) then Some(i)
    else FindTerminator(d, i + 1)
  }

  function FindTerminatorEnd(d: Bytes): (r: Option<nat>)
    ensures r.Some? ==> 5 <= r.value <= |d|
  {
    match FindTerminator(d, 0)
    case None => None
    case Some(start) => Some(start + |TERMINATOR|)
  }

  /** The last `TERMINATOR_TAIL_SIZE` bytes of `d`, or all of them. */
  function LastBytes(d: Bytes): (r: Bytes)
    ensures |r| == if |d| < TERMINATOR_TAIL_SIZE then |d| else TERMINATOR_TAIL_SIZE
  {
    if |d| <= TERMINATOR_TAIL_SIZE then d else d[|d| - TERMINATOR_TAIL_SIZE..]
  }

  lemma LastBytesAt(d: Bytes)
    ensures var r := LastBytes(d); forall j | 0 <= j < |r| :: r[j] == d[|d| - |r| + j]
  {
  }

  /** The window over `d + more` needs only the window over `d`. */
  lemma LastBytesAppend(d: Bytes, more: Bytes)
    ensures LastBytes(LastBytes(d) + more) == LastBytes(d + more)
  {
    var whole, part := d + more, LastBytes(d) + more;
    var n := |LastBytes(whole)|;
    assert |LastBytes(part)| == n;
    assert part == whole[|whole| - |part|..];
    assert part[|part| - n..] == whole[|whole| - n..];
  }

  /** The last 5 - k bytes of `tail` and the first `k` bytes of `c` spell the terminator. */
  predicate Straddles(tail: Bytes, c: Bytes, k: nat) {
    var t := |tail|;
    match k
    case 1 => t >= 4 && |c| >= 1 && tail[t - 4] == CR && tail[t - 3] == LF && tail[t - 2] == DOT && tail[t - 1] == CR
              && c[0] == LF
    case 2 => t >= 3 && |c| >= 2 && tail[t - 3] == CR && tail[t - 2] == LF && tail[t - 1] == DOT
              && c[0] == CR && c[1] == LF
    case 3 => t >= 2 && |c| >= 3 && tail[t - 2] == CR && tail[t - 1] == LF && c[0] == DOT && c[1] == CR && c[2] == LF
    case 4 => t >= 1 && |c| >= 4 && tail[t - 1] == CR && c[0] == LF && c[1] == DOT && c[2] == CR && c[3] == LF
    case _ => false
  }

  /** Chunk-relative end of a terminator that began in `tail` and ends in `current`. */
  function FindSpanningTerminator(tail: Bytes, current: Bytes): (r: Option<nat>) {
    if Straddles(tail, current, 1) then Some(1)
    else if Straddles(tail, current, 2) then Some(2)
    else if Straddles(tail, current, 3) then Some(3)
    else if Straddles(tail, current, 4) then Some(4)
    else None
  }

  /** A spanning match always ends before any match inside the chunk could. */
  function DetectStreamingTerminator(tail: Bytes, chunk: Bytes): (r: Option<nat>) {
    var spanning := FindSpanningTerminator(tail, chunk);
    if spanning.Some? then spanning else FindTerminatorEnd(chunk)
  }

  /** Where a dot line that does not start at offset zero ends, in terms of the terminator. */
  lemma DotLineIsTerminator(d: Bytes, e: nat)
    requires e != 3
    ensures DotLineEndsAt(d, e) <==> 5 <= e && TerminatorAt(d, e - 5)
  {
  }

  /** A terminator ends `k` bytes into `chunk` when it is appended to `seen`. */
  predicate EndsInChunk(seen: Bytes, chunk: Bytes, k: nat) {
    5 <= |seen| + k && TerminatorAt(seen + chunk, |seen| + k - 5)
  }

  /** With the last four bytes of `seen` as tail, straddling is ending inside the chunk. */
  lemma StraddleIsEnd(seen: Bytes, chunk: Bytes, k: nat)
    requires 1 <= k <= 4
    ensures Straddles(LastBytes(seen), chunk, k) <==> EndsInChunk(seen, chunk, k)
  {
    var tail, all := LastBytes(seen), seen + chunk;
    LastBytesAt(seen);
    hide LastBytes;
    var t, s := |tail|, |seen|;
    assert forall j | 0 <= j < t :: tail[j] == all[s - t + j];
    assert forall j | 0 <= j < |chunk| :: chunk[j] == all[s + j];
  }

  /** The block is not, and cannot become, the empty one. */
  predicate RulesOutEmpty(d: Bytes) {
    || (|d| >= 1 && d[0] != DOT)
    || (|d| >= 2 && d[1] != CR)
    || (|d| >= 3 && d[2] != LF)
  }

  /** Inside the chunk a terminator is a dot line of the whole. */
  lemma ChunkTerminator(seen: Bytes, chunk: Bytes, i: nat)
    ensures TerminatorAt(chunk, i) <==> i + 5 <= |chunk| && DotLineEndsAt(seen + chunk, |seen| + i + 5)
  {
    DotLineIsTerminator(seen + chunk, |seen| + i + 5);
  }

  lemma StraddleIsDotLine(seen: Bytes, chunk: Bytes, k: nat)
    requires 1 <= k <= 4 && RulesOutEmpty(seen + chunk)
    ensures Straddles(LastBytes(seen), chunk, k) <==> DotLineEndsAt(seen + chunk, |seen| + k)
  {
    StraddleIsEnd(seen, chunk, k);
    if |seen| + k != 3 { DotLineIsTerminator(seen + chunk, |seen| + k); }
  }

  /** No dot line of `seen + chunk` ends before `limit`, given what the searches missed. */
  lemma NothingBefore(seen: Bytes, chunk: Bytes, limit: nat)
    requires FirstDotLine(seen).None? && RulesOutEmpty(seen + chunk)
    requires forall k | 1 <= k <= 4 && |seen| + k < limit :: !Straddles(LastBytes(seen), chunk, k)
    requires forall i | 0 <= i && |seen| + i + 5 < limit :: !TerminatorAt(chunk, i)
    ensures forall k: nat | k < limit :: !DotLineEndsAt(seen + chunk, k)
  {
    forall k: nat | k < limit
      ensures !DotLineEndsAt(seen + chunk, k)
    {
      if k > |seen| + 4 { ChunkTerminator(seen, chunk, k - |seen| - 5); }
      else if k > |seen| { StraddleIsDotLine(seen, chunk, k - |seen|); }
      else { DotLinePrefix(seen, chunk, k); }
    }
  }

  /** The central fact of incremental framing: if no block is complete in `seen` and
      the block is not the empty one, the tail search on the next chunk finds the first
      dot line of everything. */
  lemma StreamingFindsFirst(seen: Bytes, chunk: Bytes)
    requires FirstDotLine(seen).None?
    requires RulesOutEmpty(seen + chunk)
    ensures var found, first := DetectStreamingTerminator(LastBytes(seen), chunk), FirstDotLine(seen + chunk);
            && found.Some? == first.Some?
            && (found.Some? ==> first.value == |seen| + found.value && 0 < found.value <= |chunk|)
  {
    var spanning := FindSpanningTerminator(LastBytes(seen), chunk);
    var found := DetectStreamingTerminator(LastBytes(seen), chunk);
    if found.Some? {
      var e := |seen| + found.value;
      NothingBefore(seen, chunk, e);
      if spanning.Some? { StraddleIsDotLine(seen, chunk, found.value); }
      else { ChunkTerminator(seen, chunk, found.value - 5); }
      FirstDotLineIs(seen + chunk, e);
    } else {
      NothingBefore(seen, chunk, |seen + chunk| + 1);
      NoDotLine(seen + chunk);
    }
  }

  datatype EmptyTerminatorStatus =
    | FoundAt(end: nat)
    | EmptyNeedMore
    | NotFound(previousPrefixLen: nat)

  /** Length of the longest common prefix (the `zip`/`take_while`/`count` chain). */
  function MatchingPrefix(chunk: Bytes, expected: Bytes): (r: nat)
    ensures r <= |chunk| && r <= |expected|
    ensures chunk[..r] == expected[..r]
    ensures r < |chunk| && r < |expected| ==> chunk[r] != expected[r]
  {
    if chunk == [] || expected == [] || chunk[0] != expected[0] then 0
    else
      var n := MatchingPrefix(chunk[1..], expected[1..]);
      assert chunk[..n + 1] == [chunk[0]] + chunk[1..][..n];
      assert expected[..n + 1] == [expected[0]] + expected[1..][..n];
      1 + n
  }

  /** Recognises the empty block at content start across chunks. */
  class EmptyMultilineTerminator {
    var prefixLen: nat

    ghost predicate Valid() reads this { prefixLen < |DOT_TERMINATOR| }

    constructor ()
      ensures Valid() && prefixLen == 0
    {
      prefixLen := 0;
    }

    /** With the already matched prefix in front, the chunk completes the empty block,
        is still a proper prefix of it, or rules it out. */
    method Detect(chunk: Bytes) returns (r: EmptyTerminatorStatus)
      requires Valid()
      modifies this
      ensures Valid()
      ensures var all := DOT_TERMINATOR[..old(prefixLen)] + chunk;
              match r
              case FoundAt(end) => prefixLen == 0 && StartsWith(all, DOT_TERMINATOR) && old(prefixLen) + end == |DOT_TERMINATOR|
              case EmptyNeedMore => prefixLen == |all| && all == DOT_TERMINATOR[..prefixLen]
              case NotFound(previous) => prefixLen == 0 && previous == old(prefixLen) && chunk != []
                                         && RulesOutEmpty(all)
    {
      var alreadyMatched := prefixLen;
      ghost var all := DOT_TERMINATOR[..alreadyMatched] + chunk;
      if alreadyMatched == 0 && chunk != [] && chunk[0] != DOT {
        assert all == chunk;
        return NotFound(0);
      }
      var remaining := DOT_TERMINATOR[alreadyMatched..];
      var matched := MatchingPrefix(chunk, remaining);
      assert all[..alreadyMatched + matched] == DOT_TERMINATOR[..alreadyMatched] + chunk[..matched];
      assert DOT_TERMINATOR[..alreadyMatched + matched] == DOT_TERMINATOR[..alreadyMatched] + remaining[..matched];
      if alreadyMatched + matched == |DOT_TERMINATOR| {
        prefixLen := 0;
        return FoundAt(matched);
      }
      if matched == |chunk| {
        prefixLen := prefixLen + matched;
        return EmptyNeedMore;
      }
      var previous := prefixLen;
      prefixLen := 0;
      assert all[alreadyMatched + matched] != DOT_TERMINATOR[alreadyMatched + matched];
      return NotFound(previous);
    }
  }

  /** Rolling window over the last four bytes of everything seen. */
  class MultilineTerminatorDetector {
    const data: array<byte>
    var len: nat

    ghost predicate Valid() reads this { data.Length == TERMINATOR_TAIL_SIZE && len <= TERMINATOR_TAIL_SIZE }

    function AsSlice(): (s: Bytes)
      requires Valid()
      reads this, data
    {
      data[..len]
    }

    constructor ()
      ensures Valid() && AsSlice() == [] && fresh(data)
    {
      data := new byte[TERMINATOR_TAIL_SIZE];
      len := 0;
    }

    method Update(chunk: Bytes)
      requires Valid()
      modifies this, data
      ensures Valid()
      ensures AsSlice() == LastBytes(old(AsSlice()) + chunk)
    {
      if |chunk| >= TERMINATOR_TAIL_SIZE {
        forall i | 0 <= i < TERMINATOR_TAIL_SIZE {
          data[i] := chunk[|chunk| - TERMINATOR_TAIL_SIZE + i];
        }
        len := TERMINATOR_TAIL_SIZE;
        assert data[..len] == chunk[|chunk| - TERMINATOR_TAIL_SIZE..];
      } else if chunk != [] {
        if len + |chunk| >= TERMINATOR_TAIL_SIZE {
          Shift(chunk);
        } else {
          forall i | 0 <= i < |chunk| {
            data[len + i] := chunk[i];
          }
          len := len + |chunk|;
        }
      }
    }

    /** A short chunk that fills the window: keep the newest old bytes, then append it. */
    method Shift(chunk: Bytes)
      requires Valid() && |chunk| < TERMINATOR_TAIL_SIZE <= len + |chunk|
      modifies this, data
      ensures Valid()
      ensures AsSlice() == LastBytes(old(AsSlice()) + chunk)
    {
      ghost var was := data[..len];
      var keep := TERMINATOR_TAIL_SIZE - |chunk|;
      var from := len - keep;
      forall i | 0 <= i < keep {
        data[i] := data[from + i];
      }
      assert forall i | 0 <= i < keep :: data[i] == was[from + i];
      forall i | 0 <= i < |chunk| {
        data[keep + i] := chunk[i];
      }
      len := TERMINATOR_TAIL_SIZE;
      ghost var all := was + chunk;
      assert forall i | 0 <= i < len :: data[i] == all[from + i];
    }
  }

  datatype MultilineFrameProgress =
    | FrameNeedMore
    | FrameComplete(chunkConsumed: nat, contentEnd: nat)

  /** Frames a multi-line body fed in arbitrary chunks. `seen` is everything fed so far. */
  class MultilineFramer {
    var contentStarted: bool
    const emptyTerminator: EmptyMultilineTerminator
    const tail: MultilineTerminatorDetector
    var fed: nat
    ghost var seen: Bytes

    ghost function Repr(): set<object> reads this { {this, emptyTerminator, tail, tail.data} }

    ghost predicate Valid() reads this, emptyTerminator, tail, tail.data {
      && emptyTerminator.Valid() && tail.Valid()
      && fed == |seen|
      && FirstDotLine(seen).None?
      && (contentStarted ==> emptyTerminator.prefixLen == 0 && tail.AsSlice() == LastBytes(seen)
                             && RulesOutEmpty(seen))
      && (!contentStarted ==> seen == DOT_TERMINATOR[..emptyTerminator.prefixLen] && tail.AsSlice() == [])
    }

    constructor ()
      ensures Valid() && seen == [] && fresh(Repr())
    {
      contentStarted := false;
      emptyTerminator := new EmptyMultilineTerminator();
      tail := new MultilineTerminatorDetector();
      fed := 0;
      seen := [];
    }

    /** Feeding a chunk completes the frame exactly when everything fed so far plus the
        chunk first contains a dot line, with the offsets of that line; otherwise the
        chunk is absorbed. */
    method Push(chunk: Bytes) returns (r: MultilineFrameProgress)
      requires Valid()
      modifies Repr()
      ensures match FirstDotLine(old(seen) + chunk)
              case None => r == FrameNeedMore && Valid() && seen == old(seen) + chunk
              case Some(e) => |old(seen)| < e && r == FrameComplete(e - |old(seen)|, e - 3)
    {
      var before := fed;
      fed := fed + |chunk|;
      ghost var prior := seen;
      if !contentStarted || emptyTerminator.prefixLen != 0 {
        var status := emptyTerminator.Detect(chunk);
        match status {
          case FoundAt(end) =>
            FirstDotLineIs(prior + chunk, 3);
            return FrameComplete(end, 0);
          case EmptyNeedMore =>
            seen := seen + chunk;
            return FrameNeedMore;
          case NotFound(previousPrefixLen) =>
            contentStarted := true;
            if previousPrefixLen != 0 {
              tail.Update(DOT_TERMINATOR[..previousPrefixLen]);
            }
        }
      }
      r := PushContent(before, chunk);
    }

    /** The rest of `Push` once the block is known not to be the empty one. */
    method PushContent(before: nat, chunk: Bytes) returns (r: MultilineFrameProgress)
      requires emptyTerminator.Valid() && tail.Valid() && emptyTerminator.prefixLen == 0
      requires contentStarted && before == |seen| && fed == before + |chunk|
      requires FirstDotLine(seen).None? && RulesOutEmpty(seen + chunk)
      requires tail.AsSlice() == LastBytes(seen)
      modifies this, tail, tail.data
      ensures match FirstDotLine(old(seen) + chunk)
              case None => r == FrameNeedMore && Valid() && seen == old(seen) + chunk
              case Some(e) => |old(seen)| < e && r == FrameComplete(e - |old(seen)|, e - 3)
    {
      hide FirstDotLine, LastBytes, DetectStreamingTerminator;
      StreamingFindsFirst(seen, chunk);
      var found := DetectStreamingTerminator(tail.AsSlice(), chunk);
      match found {
        case Some(end) =>
          return FrameComplete(end, before + end - |DOT_TERMINATOR|);
        case None =>
          LastBytesAppend(seen, chunk);
          contentStarted := true;
          tail.Update(chunk);
          seen := seen + chunk;
          return FrameNeedMore;
      }
    }
  }

  datatype DotTerminatedBlock = Block(bytes: Bytes, content: Bytes, terminator: Bytes,
                                      start: nat, contentEnd: nat, blockEnd: nat)

  /** The code's two-way search is the first dot line. */
  lemma BlockSearchIsFirst(d: Bytes)
    ensures FirstDotLine(d) == if StartsWith(d, DOT_TERMINATOR) then Some(|DOT_TERMINATOR|) else FindTerminatorEnd(d)
  {
    if StartsWith(d, DOT_TERMINATOR) {
      assert d[0] == d[..3][0] && d[1] == d[..3][1] && d[2] == d[..3][2];
      FirstDotLineIs(d, 3);
    } else {
      if |d| >= 3 { assert d[..3] == [d[0], d[1], d[2]]; }
      assert !DotLineEndsAt(d, 3);
      forall k: nat | k != 3
        ensures DotLineEndsAt(d, k) <==> 5 <= k && TerminatorAt(d, k - 5)
      {
        DotLineIsTerminator(d, k);
      }
      var found := FindTerminator(d, 0);
      if found.Some? {
        forall k: nat | k < found.value + 5
          ensures !DotLineEndsAt(d, k)
        {
          if 5 <= k { assert !TerminatorAt(d, k - 5); }
        }
        FirstDotLineIs(d, found.value + 5);
      } else {
        NoDotLine(d);
      }
    }
  }

  /** All complete blocks of `d`, one after the other. */
  function Blocks(d: Bytes): (r: seq<Bytes>)
    decreases |d|
  {
    match FirstDotLine(d)
    case None => []
    case Some(e) => [d[..e]] + Blocks(d[e..])
  }

  /** What is left of `d` after its complete blocks. */
  function Unfinished(d: Bytes): (r: Bytes)
    decreases |d|
  {
    match FirstDotLine(d)
    case None => d
    case Some(e) => Unfinished(d[e..])
  }

  /** Blocks tile the input: nothing is skipped, nothing overlaps, and what remains
      holds no complete block. */
  lemma {:induction false} BlocksTile(d: Bytes)
    ensures Concat(Blocks(d)) + Unfinished(d) == d
    ensures FirstDotLine(Unfinished(d)).None?
    decreases |d|
  {
    assert Concat([]) == [];
    hide FirstDotLine, Concat;
    match FirstDotLine(d)
    case None =>
    case Some(e) =>
      BlocksTile(d[e..]);
      ConcatCons(d[..e], Blocks(d[e..]));
      Assoc(d[..e], Concat(Blocks(d[e..])), Unfinished(d[e..]));
      SplitAt(d, e);
  }

  /** The first block of a suffix, in coordinates of the whole. */
  lemma BlockParts(data: Bytes, start: nat, contentEnd: nat, blockEnd: nat)
    requires start <= contentEnd && contentEnd + 3 == blockEnd <= |data|
    requires FirstDotLine(data[start..]) == Some(blockEnd - start)
    ensures data[contentEnd..blockEnd] == DOT_TERMINATOR
    ensures data[start..blockEnd] == data[start..contentEnd] + data[contentEnd..blockEnd]
    ensures Blocks(data[start..]) == [data[start..blockEnd]] + Blocks(data[blockEnd..])
  {
    var slice, e := data[start..], blockEnd - start;
    FirstDotLineIs(slice, e);
    assert slice[..e] == data[start..blockEnd] && slice[e..] == data[blockEnd..];
    assert data[contentEnd..blockEnd] == [slice[e - 3], slice[e - 2], slice[e - 1]];
  }

  /** Iterator over the complete blocks of one buffer. */
  class DotTerminatedBlocks {
    const data: Bytes
    var cursor: nat

    constructor (data: Bytes, start: nat)
      ensures this.data == data && cursor == start
    {
      this.data := data;
      cursor := start;
    }

    /** Blocks still to come. */
    ghost function Remaining(): (r: seq<Bytes>) reads this {
      if cursor <= |data| then Blocks(data[cursor..]) else []
    }

    /** Yields the next block and advances strictly, or leaves the cursor alone. */
    method Next() returns (r: Option<DotTerminatedBlock>)
      modifies this
      ensures r.None? ==> old(Remaining()) == [] && cursor == old(cursor)
      ensures r.Some? ==>
                var b := r.value;
                && old(Remaining()) == [b.bytes] + Remaining()
                && b.start == old(cursor) < b.blockEnd == cursor <= |data|
                && b.bytes == data[b.start..b.blockEnd] == b.content + b.terminator
                && |b.content| == b.contentEnd - b.start && b.terminator == DOT_TERMINATOR
    {
      var start := cursor;
      if start > |data| {
        return None;
      }
      var slice := data[start..];
      BlockSearchIsFirst(slice);
      if slice == [] {
        return None;
      }
      var contentEnd, blockEnd := start, start + |DOT_TERMINATOR|;
      if !StartsWith(slice, DOT_TERMINATOR) {
        var end := FindTerminatorEnd(slice);
        if end.None? {
          return None;
        }
        blockEnd := start + end.value;
        contentEnd := blockEnd - |DOT_TERMINATOR|;
      }
      cursor := blockEnd;
      BlockParts(data, start, contentEnd, blockEnd);
      return Some(Block(data[start..blockEnd], data[start..contentEnd], data[contentEnd..blockEnd],
                        start, contentEnd, blockEnd));
    }
  }
}
