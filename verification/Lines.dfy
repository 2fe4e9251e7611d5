/** Strict CRLF line detection for response lines, with and without a length limit. */
module Lines {
  import opened Wire

  datatype LineStatus = CompleteAt(end: nat) | NeedMore | Invalid

  datatype BoundedLineStatus = BoundedCompleteAt(end: nat) | BoundedNeedMore | BoundedInvalid | TooLong

  predicate IsBreak(b: byte) { b == CR || b == LF }

  /** No CR and no LF. */
  predicate Unbroken(d: Bytes) {
    forall i | 0 <= i < |d| :: !IsBreak(d[i])
  }

  function LineEndFrom(d: Bytes, i: nat): (r: LineStatus)
    requires i <= |d|
    decreases |d| - i
  {
    if i == |d| then NeedMore
    else if d[i] == CR && i + 1 == |d| then NeedMore
    else if d[i] == CR && d[i + 1] == LF then CompleteAt(i + 2)
    else if IsBreak(d[i]) then Invalid
    else LineEndFrom(d, i + 1)
  }

  function LineEnd(d: Bytes): (r: LineStatus) {
    LineEndFrom(d, 0)
  }

  predicate UnbrokenTo(d: Bytes, n: int)
    requires n <= |d|
  {
    forall i | 0 <= i < n :: !IsBreak(d[i])
  }

  /** Unbroken bytes followed by a CRLF that ends at `e`. */
  predicate IsLine(d: Bytes, e: nat) {
    2 <= e <= |d| && UnbrokenTo(d, e - 2) && d[e - 2] == CR && d[e - 1] == LF
  }

  /** No break yet, except possibly a CR as the very last byte. */
  predicate IsOpen(d: Bytes) {
    UnbrokenTo(d, |d| - 1) && (d == [] || d[|d| - 1] != LF)
  }

  lemma {:induction false} LineEndFromMeans(d: Bytes, i: nat)
    requires i <= |d| && UnbrokenTo(d, i)
    ensures match LineEndFrom(d, i)
            case CompleteAt(e) => IsLine(d, e)
            case NeedMore => IsOpen(d)
            case Invalid => !IsOpen(d) && forall e: nat :: !IsLine(d, e)
    decreases |d| - i
  {
    if i < |d| && !IsBreak(d[i]) {
      LineEndFromMeans(d, i + 1);
    }
  }

  /** What the three verdicts mean. */
  lemma LineEndMeans(d: Bytes)
    ensures match LineEnd(d)
            case CompleteAt(e) => IsLine(d, e)
            case NeedMore => IsOpen(d)
            case Invalid => !IsOpen(d) && forall e: nat :: !IsLine(d, e)
  {
    LineEndFromMeans(d, 0);
  }

  /** A line, once present, is found. */
  lemma LineEndFinds(d: Bytes, e: nat)
    requires IsLine(d, e)
    ensures LineEnd(d) == CompleteAt(e)
  {
    LineEndMeans(d);
  }

  lemma {:induction false} LineEndStableFrom(d: Bytes, more: Bytes, i: nat)
    requires i <= |d| && LineEndFrom(d, i) != NeedMore
    ensures LineEndFrom(d + more, i) == LineEndFrom(d, i)
    decreases |d| - i
  {
    if !IsBreak(d[i]) {
      LineEndStableFrom(d, more, i + 1);
    }
  }

  /** Once decided, a verdict does not change when more bytes arrive. */
  lemma LineEndStable(d: Bytes, more: Bytes)
    requires LineEnd(d) != NeedMore
    ensures LineEnd(d + more) == LineEnd(d)
  {
    LineEndStableFrom(d, more, 0);
  }

  /** A line still open after `d` can only end beyond `d`. */
  lemma LineEndBeyond(d: Bytes, more: Bytes)
    requires LineEnd(d) == NeedMore
    ensures LineEnd(d + more).CompleteAt? ==> LineEnd(d + more).end > |d|
  {
    LineEndMeans(d + more);
    assert forall k | 0 <= k < |d| :: d[k] == (d + more)[k];
    var r := LineEnd(d + more);
    if r.CompleteAt? && r.end <= |d| {
      LineEndFinds(d, r.end);
    }
  }

  function BoundedLineEnd(d: Bytes, maxLen: nat): (r: BoundedLineStatus)
    ensures r.BoundedCompleteAt? ==> 2 <= r.end <= |d|
  {
    LineEndMeans(d);
    match LineEnd(d)
    case CompleteAt(end) => if end <= maxLen then BoundedCompleteAt(end) else TooLong
    case NeedMore => if |d| >= maxLen then TooLong else BoundedNeedMore
    case Invalid => BoundedInvalid
  }

  predicate Refused(r: BoundedLineStatus) { r.BoundedInvalid? || r.TooLong? }

  /** Acceptance and refusal under a limit both survive extension. */
  lemma BoundedStable(d: Bytes, more: Bytes, maxLen: nat)
    ensures BoundedLineEnd(d, maxLen).BoundedCompleteAt? ==>
              BoundedLineEnd(d + more, maxLen) == BoundedLineEnd(d, maxLen)
    ensures Refused(BoundedLineEnd(d, maxLen)) ==> Refused(BoundedLineEnd(d + more, maxLen))
  {
    if LineEnd(d) == NeedMore {
      LineEndBeyond(d, more);
    } else {
      LineEndStable(d, more);
    }
  }

  /** The scanning loop of the client. */
  method DetectResponseLineEnd(buffer: Bytes) returns (r: LineStatus)
    ensures r == LineEnd(buffer)
  {
    for index := 0 to |buffer|
      invariant LineEnd(buffer) == LineEndFrom(buffer, index)
    {
      if buffer[index] == CR {
        if index + 1 == |buffer| {
          return NeedMore;
        }
        if buffer[index + 1] == LF {
          return CompleteAt(index + 2);
        }
        return Invalid;
      }
      if buffer[index] == LF {
        return Invalid;
      }
    }
    return NeedMore;
  }

  /** A single strict line, without its CRLF. */
  function StripCompleteCrlfLine(line: Bytes): (r: Option<Bytes>) {
    if LineEnd(line) == CompleteAt(|line|) && 2 <= |line| then Some(line[..|line| - 2]) else None
  }

  lemma StripCompleteMeans(line: Bytes)
    requires Unbroken(line)
    ensures StripCompleteCrlfLine(line + CRLF) == Some(line)
  {
    LineEndFinds(line + CRLF, |line| + 2);
    assert (line + CRLF)[..|line|] == line;
  }

  /** A strict line starts at `start` and its content ends at `e`. */
  predicate LineContent(d: Bytes, start: nat, e: nat) {
    start <= e && e + 2 <= |d| && Unbroken(d[start..e]) && d[e] == CR && d[e + 1] == LF
  }

  /** Offset of the end of the line content that starts at `start`. */
  function StrictLineContentEnd(d: Bytes, start: nat): (r: Option<nat>)
    ensures r.Some? ==> start <= r.value && r.value + 2 <= |d| && Unbroken(d[start..r.value])
                        && d[r.value] == CR && d[r.value + 1] == LF
  {
    if start > |d| then None
    else
      LineEndMeans(d[start..]);
      match LineEnd(d[start..])
      case CompleteAt(end) =>
        Some(start + end - 2)
      case _ => None
  }

  /** The content end is found exactly where a strict line has it, and nowhere else. */
  lemma ContentEndMeans(d: Bytes, start: nat, e: nat)
    ensures StrictLineContentEnd(d, start) == Some(e) <==> LineContent(d, start, e)
  {
    if LineContent(d, start, e) {
      LineEndFinds(d[start..], e + 2 - start);
    }
  }
}
