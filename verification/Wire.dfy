/** Bytes, the fixed byte strings of the protocol, and the meaning of "a line that
    is a single dot". Everything here is specification: the search strategies of the
    client live in module Terminator and are proved against it. */
module Wire {
  newtype byte = x: int | 0 <= x < 256

  type Bytes = seq<byte>

  datatype Option<+T> = None | Some(value: T)

  const CR: byte := 13
  const LF: byte := 10
  const DOT: byte := 46
  const SPACE: byte := 32
  const TAB: byte := 9

  const CRLF: Bytes := [CR, LF]
  const TERMINATOR: Bytes := [CR, LF, DOT, CR, LF]
  const DOT_TERMINATOR: Bytes := [DOT, CR, LF]

  predicate StartsWith(d: Bytes, prefix: Bytes) {
    |prefix| <= |d| && d[..|prefix|] == prefix
  }

  /** A line holding exactly one dot ends (after its CRLF) at offset `e`: the line
      starts either at offset zero or right after a CRLF. */
  predicate DotLineEndsAt(d: Bytes, e: nat) {
    && 3 <= e <= |d|
    && d[e - 3] == DOT && d[e - 2] == CR && d[e - 1] == LF
    && (e == 3 || (5 <= e && d[e - 5] == CR && d[e - 4] == LF))
  }

  /** Offset just after the first dot line that ends at `e` or later. */
  function FirstDotLineFrom(d: Bytes, e: nat): (r: Option<nat>)
    requires e <= |d| + 1
    ensures r.Some? ==>
              && e <= r.value <= |d| && DotLineEndsAt(d, r.value)
              && forall k | e <= k < r.value :: !DotLineEndsAt(d, k)
    ensures r.None? ==> forall k | e <= k <= |d| :: !DotLineEndsAt(d, k)
    decreases |d| + 1 - e
  {
    if e > |d| then None
    else if DotLineEndsAt(d, e) then Some(e)
    else FirstDotLineFrom(d, e + 1)
  }

  /** Section 3.1.1 of RFC 3977: a multi-line block ends with its first dot line. */
  function FirstDotLine(d: Bytes): (r: Option<nat>)
    ensures r.Some? ==> 3 <= r.value <= |d|
  {
    FirstDotLineFrom(d, 0)
  }

  /** `FirstDotLine` is the least such offset, and any offset with that property is it. */
  lemma FirstDotLineIs(d: Bytes, e: nat)
    requires DotLineEndsAt(d, e)
    requires forall k: nat | k < e :: !DotLineEndsAt(d, k)
    ensures FirstDotLine(d) == Some(e)
  {
  }

  lemma NoDotLine(d: Bytes)
    requires forall k: nat | k <= |d| :: !DotLineEndsAt(d, k)
    ensures FirstDotLine(d) == None
  {
  }

  /** Whether a dot line ends at `e` does not depend on the bytes after `e`. */
  lemma DotLinePrefix(d: Bytes, more: Bytes, e: nat)
    requires e <= |d|
    ensures DotLineEndsAt(d + more, e) == DotLineEndsAt(d, e)
  {
  }

  /** A block that is complete stays complete, with the same end, whatever follows. */
  lemma FirstDotLineStable(d: Bytes, more: Bytes)
    requires FirstDotLine(d).Some?
    ensures FirstDotLine(d + more) == FirstDotLine(d)
  {
    var e := FirstDotLine(d).value;
    forall k: nat | k <= e
      ensures DotLineEndsAt(d + more, k) == DotLineEndsAt(d, k)
    {
      DotLinePrefix(d, more, k);
    }
    FirstDotLineIs(d + more, e);
  }

  function Concat(parts: seq<Bytes>): (r: Bytes) {
    if parts == [] then [] else parts[0] + Concat(parts[1..])
  }

  lemma {:induction false} ConcatAppend(xs: seq<Bytes>, ys: seq<Bytes>)
    ensures Concat(xs + ys) == Concat(xs) + Concat(ys)
  {
    if xs == [] {
      assert xs + ys == ys;
    } else {
      assert (xs + ys)[1..] == xs[1..] + ys;
      ConcatAppend(xs[1..], ys);
    }
  }

  lemma ConcatCons(x: Bytes, xs: seq<Bytes>)
    ensures Concat([x] + xs) == x + Concat(xs)
  {
    assert ([x] + xs)[1..] == xs;
  }

  lemma Assoc(a: Bytes, b: Bytes, c: Bytes)
    ensures a + b + c == a + (b + c)
  {
  }

  lemma ConcatOne(x: Bytes)
    ensures Concat([x]) == x
  {
    assert [x][1..] == [];
    assert Concat([]) == [];
  }

  lemma AppendSlice(d: Bytes, more: Bytes, n: nat)
    requires n <= |d|
    ensures (d + more)[..n] == d[..n] && (d + more)[n..] == d[n..] + more
  {
  }

  lemma SplitAt(d: Bytes, n: nat)
    requires n <= |d|
    ensures d == d[..n] + d[n..]
  {
  }

  lemma SliceSlice(d: Bytes, from: nat, n: nat)
    requires from + n <= |d|
    ensures d[from..][..n] == d[from..from + n] && d[from..][n..] == d[from + n..]
  {
  }
}
