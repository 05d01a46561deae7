/**
 * Position resolution of `display_snippet`: the buffer is the sequence of
 * its lines, each line holding its own terminator, and a byte offset is
 * mapped to a `(line, col)` pair by scanning the lines with a running offset.
 */
module Lines {
  import opened Wrappers

  /** A resolved coordinate: 0-based line index and byte column in that line. */
  datatype Pos = Pos(line: nat, col: nat)

  /** The two `unwrap` calls that panic when no line reaches an offset. */
  datatype ResolveError = StartNotFound | EndNotFound

  /** Offset of the first byte of line `k`: the lengths of the lines before it. */
  function LineStart(lines: seq<string>, k: nat): (r: nat)
    requires k <= |lines|
  {
    if k == 0 then 0 else LineStart(lines, k - 1) + |lines[k - 1]|
  }

  /** Offset just past line `k`, terminator included. */
  function LineEnd(lines: seq<string>, k: nat): (r: nat)
    requires k < |lines|
  {
    LineStart(lines, k) + |lines[k]|
  }

  /** Length of the whole buffer. */
  function Total(lines: seq<string>): (r: nat)
  {
    LineStart(lines, |lines|)
  }

  /** The buffer the lines were split from. */
  function Concat(lines: seq<string>): (r: string)
  {
    if lines == [] then [] else Concat(lines[..|lines| - 1]) + lines[|lines| - 1]
  }

  lemma {:induction false} LineStartMonotone(lines: seq<string>, j: nat, k: nat)
    requires j <= k <= |lines|
    ensures LineStart(lines, j) <= LineStart(lines, k)
    decreases k
  {
    if j < k {
      LineStartMonotone(lines, j, k - 1);
    }
  }

  /** Offsets of lines do not depend on the lines after them. */
  lemma {:induction false} LineStartOfPrefix(lines: seq<string>, n: nat, k: nat)
    requires k <= n <= |lines|
    ensures LineStart(lines[..n], k) == LineStart(lines, k)
    decreases k
  {
    if k > 0 {
      LineStartOfPrefix(lines, n, k - 1);
    }
  }

  /** The buffer is as long as its lines together. */
  lemma {:induction false} ConcatLength(lines: seq<string>)
    ensures |Concat(lines)| == Total(lines)
    decreases |lines|
  {
    if lines != [] {
      var n := |lines| - 1;
      ConcatLength(lines[..n]);
      LineStartOfPrefix(lines, n, n);
    }
  }

  /** The first `k` lines make up the first `LineStart(k)` bytes of the buffer. */
  lemma {:induction false} ConcatLayout(lines: seq<string>, k: nat)
    requires k <= |lines|
    ensures |Concat(lines[..k])| == LineStart(lines, k)
    ensures Concat(lines[..k]) <= Concat(lines)
    decreases |lines| - k
  {
    ConcatLength(lines[..k]);
    LineStartOfPrefix(lines, k, k);
    if k < |lines| {
      ConcatLayout(lines, k + 1);
      assert lines[..k + 1][..k] == lines[..k];
    } else {
      assert lines[..k] == lines;
    }
  }

  /** Byte `col` of line `k` is byte `LineStart(k) + col` of the buffer. */
  lemma OffsetInBuffer(lines: seq<string>, k: nat, col: nat)
    requires k < |lines| && col < |lines[k]|
    ensures LineStart(lines, k) + col < |Concat(lines)|
    ensures Concat(lines)[LineStart(lines, k) + col] == lines[k][col]
  {
    ConcatLayout(lines, k + 1);
    var prefix := Concat(lines[..k + 1]);
    assert lines[..k + 1][..k] == lines[..k];
    assert prefix == Concat(lines[..k]) + lines[k];
    ConcatLayout(lines, k);
    assert prefix[LineStart(lines, k) + col] == lines[k][col];
  }

  /**
   * `p` is what a scan that begins at line `from` with the running offset at
   * `LineStart(from)` reports for offset `x`: the first line at or after
   * `from` whose end reaches `x`, and the column of `x` in that line.
   */
  predicate Resolves(lines: seq<string>, from: nat, x: nat, p: Pos)
  {
    && from <= p.line < |lines|
    && LineStart(lines, p.line) + p.col == x
    && p.col <= |lines[p.line]|
    && forall k :: from <= k < p.line ==> LineEnd(lines, k) < x
  }

  /**
   * The index of the first line at or after `from` whose end offset is at
   * least `x`, or `|lines|` when there is none.
   */
  function FirstReaching(lines: seq<string>, from: nat, x: nat): (k: nat)
    requires from <= |lines|
    ensures from <= k <= |lines|
    ensures k < |lines| ==> x <= LineEnd(lines, k)
    ensures forall j :: from <= j < k ==> LineEnd(lines, j) < x
    decreases |lines| - from
  {
    if from == |lines| then from
    else if x <= LineEnd(lines, from) then from
    else FirstReaching(lines, from + 1, x)
  }

  /** The first-reaching line is determined by the property that defines it. */
  lemma FirstReachingUnique(lines: seq<string>, from: nat, x: nat, i: nat)
    requires from <= i <= |lines|
    requires i < |lines| ==> x <= LineEnd(lines, i)
    requires forall j :: from <= j < i ==> LineEnd(lines, j) < x
    ensures FirstReaching(lines, from, x) == i
  {
    var k := FirstReaching(lines, from, x);
    assert k < |lines| ==> x <= LineEnd(lines, k);
    assert i < |lines| ==> x <= LineEnd(lines, i);
  }

  /**
   * The positions `display_snippet` computes (:146-173): the start is found
   * by scanning from line 0, the end by resuming at the start line itself
   * with the same running offset. A missing start or end is the panic of
   * the corresponding `unwrap`.
   */
  function Resolve(lines: seq<string>, s: nat, e: nat): (r: Result<(Pos, Pos), ResolveError>)
    requires s <= e
    ensures r.Ok? ==> Resolves(lines, 0, s, r.value.0) && Resolves(lines, r.value.0.line, e, r.value.1)
  {
    var i := FirstReaching(lines, 0, s);
    if i == |lines| then Err(StartNotFound)
    else
      assert i > 0 ==> LineEnd(lines, i - 1) == LineStart(lines, i);
      var j := FirstReaching(lines, i, e);
      if j == |lines| then Err(EndNotFound)
      else
        assert j > i ==> LineEnd(lines, j - 1) == LineStart(lines, j);
        Ok((Pos(i, s - LineStart(lines, i)), Pos(j, e - LineStart(lines, j))))
  }

  /**
   * The scanning loops of `display_snippet` (:146-173). One index `i` plays
   * the peekable iterator: the first loop breaks without consuming the line
   * it found, so the second loop examines that line first.
   */
  method ResolveSpan(lines: seq<string>, s: nat, e: nat) returns (r: Result<(Pos, Pos), ResolveError>)
    requires s <= e
    ensures r == Resolve(lines, s, e)
  {
    var start: Option<Pos> := None;
    var end: Option<Pos> := None;
    var pos := 0;
    var i := 0;
    while i < |lines|
      invariant i <= |lines| && pos == LineStart(lines, i) && pos <= s
      invariant forall j :: 0 <= j < i ==> LineEnd(lines, j) < s
    {
      if pos + |lines[i]| >= s {
        start := Some(Pos(i, s - pos));
        break;
      }
      pos := pos + |lines[i]|;
      i := i + 1;
    }
    ghost var first := i;
    FirstReachingUnique(lines, 0, s, first);
    while i < |lines|
      invariant first <= i <= |lines| && pos == LineStart(lines, i)
      invariant start.None? ==> first == |lines|
      invariant start.Some? ==> start.value == Pos(first, s - LineStart(lines, first))
      invariant start.Some? ==> pos <= e
      invariant forall j :: first <= j < i ==> LineEnd(lines, j) < e
    {
      if pos + |lines[i]| >= e {
        end := Some(Pos(i, e - pos));
        break;
      }
      pos := pos + |lines[i]|;
      i := i + 1;
    }
    if start.None? {
      return Err(StartNotFound);
    }
    FirstReachingUnique(lines, first, e, i);
    if end.None? {
      return Err(EndNotFound);
    }
    r := Ok((start.value, end.value));
  }

  // ----- Properties of the resolution -----

  /**
   * Both `unwrap`s succeed exactly when there is a line and the span ends
   * within the buffer; the start one fails exactly when the start is beyond
   * the buffer (or there is no line).
   */
  lemma ResolveSucceedsIff(lines: seq<string>, s: nat, e: nat)
    requires s <= e
    ensures Resolve(lines, s, e).Ok? <==> |lines| > 0 && e <= Total(lines)
    ensures Resolve(lines, s, e) == Err(StartNotFound) <==> |lines| == 0 || s > Total(lines)
  {
    if |lines| > 0 {
      var last := |lines| - 1;
      assert LineEnd(lines, last) == Total(lines);
      var i := FirstReaching(lines, 0, s);
      if i < |lines| {
        LineStartMonotone(lines, i + 1, |lines|);
        var j := FirstReaching(lines, i, e);
        if j < |lines| {
          LineStartMonotone(lines, j + 1, |lines|);
        }
      }
    }
  }

  /**
   * Resolution round-trips: the start and end offsets are recovered from
   * their coordinates, the columns stay within their lines, and the end is
   * never on a line before the start.
   */
  lemma ResolveRoundTrip(lines: seq<string>, s: nat, e: nat)
    requires s <= e
    requires Resolve(lines, s, e).Ok?
    ensures var (st, en) := Resolve(lines, s, e).value;
      && st.line <= en.line < |lines|
      && LineStart(lines, st.line) + st.col == s && st.col <= |lines[st.line]|
      && LineStart(lines, en.line) + en.col == e && en.col <= |lines[en.line]|
  {
  }

  /**
   * The coordinates name the same byte as the offsets do in the buffer the
   * lines were split from (when that byte exists inside the line).
   */
  lemma ResolveAgreesWithBuffer(lines: seq<string>, s: nat, e: nat)
    requires s <= e
    requires Resolve(lines, s, e).Ok?
    ensures var (st, en) := Resolve(lines, s, e).value;
      && (st.col < |lines[st.line]| ==> s < |Concat(lines)| && Concat(lines)[s] == lines[st.line][st.col])
      && (en.col < |lines[en.line]| ==> e < |Concat(lines)| && Concat(lines)[e] == lines[en.line][en.col])
  {
    var (st, en) := Resolve(lines, s, e).value;
    if st.col < |lines[st.line]| {
      OffsetInBuffer(lines, st.line, st.col);
    }
    if en.col < |lines[en.line]| {
      OffsetInBuffer(lines, en.line, en.col);
    }
  }

  /**
   * A span inside a non-empty buffer always resolves, whatever the lines
   * are, as long as they make up that buffer.
   */
  lemma SpanInBufferResolves(buffer: string, lines: seq<string>, s: nat, e: nat)
    requires Concat(lines) == buffer && buffer != []
    requires s <= e <= |buffer|
    ensures Resolve(lines, s, e).Ok?
  {
    ConcatLength(lines);
    ResolveSucceedsIff(lines, s, e);
  }

  /**
   * The columns the renderer subtracts never underflow: on a single line
   * the start column is at most the end column (`col_end - col_start`,
   * :84), and across lines the end column is at least one (`col - 1`, :133).
   * Likewise a start on a later line is never at column 0.
   */
  lemma ResolveColumns(lines: seq<string>, s: nat, e: nat)
    requires s <= e
    requires Resolve(lines, s, e).Ok?
    ensures var (st, en) := Resolve(lines, s, e).value;
      && (st.line == en.line ==> st.col <= en.col)
      && (st.line < en.line ==> en.col >= 1)
      && (st.line > 0 ==> st.col >= 1)
  {
    var (st, en) := Resolve(lines, s, e).value;
    if st.line < en.line {
      assert LineEnd(lines, en.line - 1) < e;
    }
    if st.line > 0 {
      assert LineEnd(lines, st.line - 1) < s;
    }
  }

  /**
   * The span stays on one line exactly when its end does not go past the
   * end of the start line; in particular an empty span is always on one line.
   */
  lemma ResolveSingleLineIff(lines: seq<string>, s: nat, e: nat)
    requires s <= e
    requires Resolve(lines, s, e).Ok?
    ensures var (st, en) := Resolve(lines, s, e).value;
      st.line == en.line <==> e <= LineEnd(lines, st.line)
  {
  }

  /**
   * Conversely to `Resolve`'s contract, any start and end positions with the
   * defining property are what the scan finds.
   */
  lemma ResolveComplete(lines: seq<string>, s: nat, e: nat, st: Pos, en: Pos)
    requires s <= e
    requires Resolves(lines, 0, s, st) && Resolves(lines, st.line, e, en)
    ensures Resolve(lines, s, e) == Ok((st, en))
  {
    assert s <= LineEnd(lines, st.line) && e <= LineEnd(lines, en.line);
    FirstReachingUnique(lines, 0, s, st.line);
    FirstReachingUnique(lines, st.line, e, en.line);
  }

  /** Offsets within the first line resolve to that line, at the offsets themselves as columns. */
  lemma ResolveWithinFirstLine(lines: seq<string>, s: nat, e: nat)
    requires s <= e && |lines| > 0 && e <= |lines[0]|
    ensures Resolve(lines, s, e) == Ok((Pos(0, s), Pos(0, e)))
  {
    assert LineEnd(lines, 0) == |lines[0]|;
    FirstReachingUnique(lines, 0, s, 0);
    FirstReachingUnique(lines, 0, e, 0);
  }

  /**
   * An offset on the boundary after a non-empty line `k - 1` resolves to
   * the end of that line, not to column 0 of line `k`.
   */
  lemma BoundaryResolvesToEarlierLine(lines: seq<string>, from: nat, x: nat, p: Pos, k: nat)
    requires from < k <= |lines| && |lines[k - 1]| > 0
    requires LineStart(lines, k) == x
    requires Resolves(lines, from, x, p)
    ensures p == Pos(k - 1, |lines[k - 1]|)
  {
    assert LineEnd(lines, k - 1) == x;
    LineStartMonotone(lines, if p.line < k - 1 then p.line + 1 else k - 1, k - 1);
  }

  /** The start and end positions are determined by their defining property. */
  lemma ResolvesUnique(lines: seq<string>, from: nat, x: nat, p: Pos, q: Pos)
    requires Resolves(lines, from, x, p) && Resolves(lines, from, x, q)
    ensures p == q
  {
    assert x <= LineEnd(lines, p.line) && x <= LineEnd(lines, q.line);
  }
}
