/**
 * The two layouts of a snippet. Every write of the source becomes one
 * tagged segment: plain text written directly, or text handed to the span,
 * marker or number formatter. A row is the segments up to and including
 * its `writeln!`.
 */
module Layout {
  import opened Strings
  import opened Lines

  datatype Segment =
    | Plain(text: string)   // `write!` / `writeln!` straight to the sink
    | Span(text: string)    // passed to `span_formatter`
    | Marker(text: string)  // passed to `marker_formatter`
    | Number(text: string)  // passed to `number_formatter`

  type Row = seq<Segment>

  /** The line and columns of a span that starts and ends on one line. */
  datatype PosSpan = PosSpan(line: nat, colStart: nat, colEnd: nat)

  /** The text a row prints when every formatter passes its text through. */
  function RowText(row: Row): (r: string)
  {
    if row == [] then [] else row[0].text + RowText(row[1..])
  }

  lemma {:induction false} RowTextAppend(a: Row, b: Row)
    ensures RowText(a + b) == RowText(a) + RowText(b)
    decreases |a|
  {
    if a == [] {
      assert a + b == b;
    } else {
      assert (a + b)[1..] == a[1..] + b;
      RowTextAppend(a[1..], b);
    }
  }

  /** All rows one after another: the segments in the order they are written. */
  function Flatten(rows: seq<Row>): (r: Row)
  {
    if rows == [] then [] else rows[0] + Flatten(rows[1..])
  }

  /** The texts handed to the marker formatter, in order. */
  function Markers(row: Row): (r: seq<string>)
  {
    if row == [] then [] else (if row[0].Marker? then [row[0].text] else []) + Markers(row[1..])
  }

  /** The texts handed to the span formatter, in order. */
  function Spans(row: Row): (r: seq<string>)
  {
    if row == [] then [] else (if row[0].Span? then [row[0].text] else []) + Spans(row[1..])
  }

  /** The texts handed to the number formatter, in order. */
  function Numbers(row: Row): (r: seq<string>)
  {
    if row == [] then [] else (if row[0].Number? then [row[0].text] else []) + Numbers(row[1..])
  }

  // ----- Formatter callbacks -----

  /** The three callbacks of `FormatOption`, as maps from text to styled text. */
  datatype FormatOption = FormatOption(
    spanFormatter: string -> string,
    markerFormatter: string -> string,
    numberFormatter: string -> string)

  /** `FormatOption::default()`: every callback writes its text unchanged. */
  function DefaultOption(): (r: FormatOption)
  {
    FormatOption(s => s, m => m, n => n)
  }

  /** What one segment prints under the given callbacks. */
  function Styled(opt: FormatOption, seg: Segment): (r: string)
  {
    match seg
    case Plain(t) => t
    case Span(t) => opt.spanFormatter(t)
    case Marker(t) => opt.markerFormatter(t)
    case Number(t) => opt.numberFormatter(t)
  }

  /** What a sequence of segments prints under the given callbacks. */
  function Render(opt: FormatOption, row: Row): (r: string)
  {
    if row == [] then [] else Styled(opt, row[0]) + Render(opt, row[1..])
  }

  /** Writes made one after another print one after another. */
  lemma {:induction false} RenderAppend(opt: FormatOption, a: Row, b: Row)
    ensures Render(opt, a + b) == Render(opt, a) + Render(opt, b)
    decreases |a|
  {
    if a == [] {
      assert a + b == b;
    } else {
      assert (a + b)[1..] == a[1..] + b;
      RenderAppend(opt, a[1..], b);
    }
  }

  /** With the default callbacks the output is the plain text of the segments. */
  lemma {:induction false} RenderDefault(row: Row)
    ensures Render(DefaultOption(), row) == RowText(row)
    decreases |row|
  {
    if row != [] {
      RenderDefault(row[1..]);
    }
  }

  /** Callbacks never touch plain text: a row without styled segments prints the same under any option. */
  lemma {:induction false} RenderPlainRow(opt: FormatOption, row: Row)
    requires forall i :: 0 <= i < |row| ==> row[i].Plain?
    ensures Render(opt, row) == RowText(row)
    decreases |row|
  {
    if row != [] {
      RenderPlainRow(opt, row[1..]);
    }
  }

  // ----- Rows -----

  /** `write!(f, "{} ", spacing)` then `number_formatter("|")`. */
  function BlankGutter(d: nat): (r: Row)
  {
    [Plain(Repeat(' ', d) + " "), Number("|")]
  }

  /** The padded line number `number`, `write!(f, " ")` then `number_formatter("|")`. */
  function NumberGutter(number: string): (r: Row)
  {
    [Number(number), Plain(" "), Number("|")]
  }

  /** The row standing for the lines a multi-line snippet leaves out. */
  function EllipsisRow(d: nat): (r: Row)
  {
    BlankGutter(d) + [Plain(" ...\n")]
  }

  /** `usize::abs_diff`. */
  function AbsDiff(a: nat, b: nat): (r: nat)
  {
    if a <= b then b - a else a - b
  }

  /** The row of a blank gutter and nothing else (:67-70). */
  function SpacerRow(d: nat): (r: Row)
  {
    BlankGutter(d) + [Plain("\n")]
  }

  /** The numbered source row with the span styled (:72-79). */
  function SourceRow(number: string, line: string, ps: PosSpan): (r: Row)
    requires ps.colStart <= ps.colEnd <= |line|
  {
    NumberGutter(number)
      + [Plain(" " + line[..ps.colStart]), Span(line[ps.colStart..ps.colEnd]), Plain(line[ps.colEnd..]), Plain("\n")]
  }

  /** The caret row: the prefix text again, then one `^` per highlighted byte (:81-85). */
  function CaretRow(d: nat, line: string, ps: PosSpan): (r: Row)
    requires ps.colStart <= ps.colEnd <= |line|
  {
    BlankGutter(d) + [Plain(" " + line[..ps.colStart]), Marker(Repeat('^', ps.colEnd - ps.colStart)), Plain("\n")]
  }

  /**
   * `display_snippet_single_line`: a spacer row, the numbered source row
   * with the span styled, and the caret row under it. `line` is the
   * already visualized source line.
   */
  function SingleLine(d: nat, line: string, ps: PosSpan): (r: seq<Row>)
    requires ps.colStart <= ps.colEnd <= |line|
  {
    [SpacerRow(d), SourceRow(FormatWidth(ps.line + 1, d), line, ps), CaretRow(d, line, ps)]
  }

  /** The `v` row: the start line's text up to the start column, then `v` (:102-107). */
  function LeadInRow(d: nat, startLine: string, start: Pos): (r: Row)
    requires start.col <= |startLine|
  {
    BlankGutter(d) + [Plain(" " + startLine[..start.col]), Marker("v"), Plain("\n")]
  }

  /** The numbered start line, styled from the start column on (:109-115). */
  function StartRow(number: string, startLine: string, start: Pos): (r: Row)
    requires start.col <= |startLine|
  {
    NumberGutter(number)
      + [Plain(" " + startLine[..start.col]), Span(startLine[start.col..]), Plain("\n")]
  }

  /** The numbered end line, styled up to the end column (:123-129). */
  function EndRow(number: string, endLine: string, end: Pos): (r: Row)
    requires end.col <= |endLine|
  {
    NumberGutter(number)
      + [Plain(" "), Span(endLine[..end.col]), Plain(endLine[end.col..] + "\n")]
  }

  /** The `^` row: the end line's text before the last highlighted byte, then `^` (:131-135). */
  function EndCaretRow(d: nat, endLine: string, end: Pos): (r: Row)
    requires 1 <= end.col <= |endLine|
  {
    BlankGutter(d) + [Plain(" " + endLine[..end.col - 1]), Marker("^"), Plain("\n")]
  }

  /**
   * `display_snippet_multi_line`: a `v` row over the start, the numbered
   * start line, an ellipsis row when lines lie between start and end, the
   * numbered end line and a `^` row under the last highlighted byte.
   * `startLine` and `endLine` are the already visualized lines.
   */
  function MultiLine(d: nat, startLine: string, start: Pos, endLine: string, end: Pos): (r: seq<Row>)
    requires start.col <= |startLine| && 1 <= end.col <= |endLine|
  {
    var (leadIn, first) := (LeadInRow(d, startLine, start), StartRow(FormatWidth(start.line + 1, d), startLine, start));
    var (last, caret) := (EndRow(FormatWidth(end.line + 1, d), endLine, end), EndCaretRow(d, endLine, end));
    if AbsDiff(start.line, end.line) > 1 then [leadIn, first, EllipsisRow(d), last, caret]
    else [leadIn, first, last, caret]
  }

  // ----- Properties of the rows -----

  /** A row text opening with a gutter `d` wide of spaces or digits, then " |". */
  predicate Aligned(t: string, d: nat)
  {
    && |t| >= d + 2
    && t[d..d + 2] == " |"
    && forall i :: 0 <= i < d ==> t[i] == ' ' || IsDigit(t[i])
  }

  /** A line number padded to `d` characters: spaces, then digits (:72, :109, :123). */
  predicate PaddedNumber(number: string, d: nat)
  {
    |number| == d && forall i :: 0 <= i < d ==> number[i] == ' ' || IsDigit(number[i])
  }

  /** `format!("{:w$}", n)` for a width `w` that fits `n` gives a padded line number. */
  lemma FormatWidthPadded(n: nat, w: nat)
    requires DigitCount(n) <= w
    ensures PaddedNumber(FormatWidth(n, w), w)
  {
    FormatWidthFits(n, w);
  }

  /** A row text ended by its one and only line feed. */
  predicate OneLine(t: string)
  {
    |t| > 0 && t[|t| - 1] == '\n' && '\n' !in t[..|t| - 1]
  }

  lemma RowTextSingleton(s: Segment)
    ensures RowText([s]) == s.text
  {
    assert [s][1..] == [];
    assert s.text + [] == s.text;
  }

  lemma RowTextTwo(a: Segment, b: Segment)
    ensures RowText([a, b]) == a.text + b.text
  {
    assert [a, b][1..] == [b];
    RowTextSingleton(b);
  }

  lemma RowTextThree(a: Segment, b: Segment, c: Segment)
    ensures RowText([a, b, c]) == a.text + b.text + c.text
  {
    assert [a, b, c][1..] == [b, c];
    RowTextTwo(b, c);
  }

  lemma RowTextFour(a: Segment, b: Segment, c: Segment, e: Segment)
    ensures RowText([a, b, c, e]) == a.text + b.text + c.text + e.text
  {
    assert [a, b, c, e][1..] == [b, c, e];
    RowTextThree(b, c, e);
  }

  lemma BlankGutterText(d: nat)
    ensures RowText(BlankGutter(d)) == Repeat(' ', d) + " |"
  {
    BlankGutterOf(Repeat(' ', d));
  }

  lemma BlankGutterOf(x: string)
    ensures RowText([Plain(x + " "), Number("|")]) == x + " |"
  {
    RowTextTwo(Plain(x + " "), Number("|"));
  }

  lemma NumberGutterText(number: string)
    ensures RowText(NumberGutter(number)) == number + " |"
  {
    RowTextThree(Number(number), Plain(" "), Number("|"));
  }

  /** Text of a gutter followed by segments whose texts are given. */
  lemma RowTextOfSegments(gutter: Row, a: Segment, b: Segment, c: Segment)
    ensures RowText(gutter + [a, b, c]) == RowText(gutter) + (a.text + b.text + c.text)
  {
    RowTextAppend(gutter, [a, b, c]);
    RowTextThree(a, b, c);
  }

  lemma RowTextOfFourSegments(gutter: Row, a: Segment, b: Segment, c: Segment, e: Segment)
    ensures RowText(gutter + [a, b, c, e]) == RowText(gutter) + (a.text + b.text + c.text + e.text)
  {
    RowTextAppend(gutter, [a, b, c, e]);
    RowTextFour(a, b, c, e);
  }

  lemma MarkersAppend(a: Row, b: Row)
    ensures Markers(a + b) == Markers(a) + Markers(b)
    ensures Spans(a + b) == Spans(a) + Spans(b)
  {
    MarkersOnlyAppend(a, b);
    SpansAppend(a, b);
  }

  lemma {:induction false} MarkersOnlyAppend(a: Row, b: Row)
    ensures Markers(a + b) == Markers(a) + Markers(b)
    decreases |a|
  {
    if a == [] {
      assert a + b == b;
    } else {
      assert (a + b)[1..] == a[1..] + b;
      MarkersOnlyAppend(a[1..], b);
    }
  }

  lemma {:induction false} SpansAppend(a: Row, b: Row)
    ensures Spans(a + b) == Spans(a) + Spans(b)
    decreases |a|
  {
    if a == [] {
      assert a + b == b;
    } else {
      assert (a + b)[1..] == a[1..] + b;
      SpansAppend(a[1..], b);
    }
  }

  lemma {:induction false} FlattenAppend(a: seq<Row>, b: seq<Row>)
    ensures Flatten(a + b) == Flatten(a) + Flatten(b)
    decreases |a|
  {
    if a == [] {
      assert a + b == b;
    } else {
      assert (a + b)[1..] == a[1..] + b;
      FlattenAppend(a[1..], b);
    }
  }

  /** Rows that each end with their only line feed print that many line feeds. */
  lemma {:induction false} LineFeedCount(rows: seq<Row>, d: nat)
    requires forall r :: 0 <= r < |rows| ==> WellFormed(rows[r], d)
    ensures Count(RowText(Flatten(rows)), '\n') == |rows|
    decreases |rows|
  {
    if rows != [] {
      var (t, rest) := (RowText(rows[0]), RowText(Flatten(rows[1..])));
      LineFeedCount(rows[1..], d);
      RowTextAppend(rows[0], Flatten(rows[1..]));
      CountAppend(t, rest, '\n');
      OneLineCount(t);
    }
  }

  /** A text ended by its only line feed holds one line feed. */
  lemma OneLineCount(t: string)
    requires OneLine(t)
    ensures Count(t, '\n') == 1
  {
    assert t == t[..|t| - 1] + ['\n'];
    CountAppend(t[..|t| - 1], ['\n'], '\n');
    CountAbsent(t[..|t| - 1], '\n');
    assert Count(['\n'], '\n') == Count([], '\n') + 1 by {
      assert ['\n'][..0] == [];
    }
  }

  /** A gutter `d` wide, " |" and text ending in its only line feed makes a well-formed row. */
  lemma GutteredRow(g: string, rest: string, d: nat)
    requires PaddedNumber(g, d)
    requires |rest| > 0 && rest[|rest| - 1] == '\n' && '\n' !in rest[..|rest| - 1]
    ensures Aligned(g + " |" + rest, d) && OneLine(g + " |" + rest)
  {
    var t := g + " |" + rest;
    assert t[d..d + 2] == " |";
    assert forall i :: 0 <= i < d ==> t[i] == g[i];
    assert t[..|t| - 1] == g + " |" + rest[..|rest| - 1];
    assert '\n' !in g by {
      forall i | 0 <= i < |g| ensures g[i] != '\n' {
        assert g[i] == ' ' || IsDigit(g[i]);
      }
    }
  }

  lemma MarkersSingleton(s: Segment)
    ensures Markers([s]) == if s.Marker? then [s.text] else []
    ensures Spans([s]) == if s.Span? then [s.text] else []
  {
    assert [s][1..] == [];
  }

  // ----- Texts of the rows -----

  lemma SpacerRowText(d: nat)
    ensures RowText(SpacerRow(d)) == Repeat(' ', d) + " |" + "\n"
  {
    assert SpacerRow(d) == BlankGutter(d) + [Plain("\n")];
    BlankGutterText(d);
    RowTextAppend(BlankGutter(d), [Plain("\n")]);
    RowTextSingleton(Plain("\n"));
  }

  /**
   * After a gutter whose text is `gt`, a line cut into prefix, span and
   * suffix at `i` and `j` reads as the whole line.
   */
  lemma CutLineText(row: Row, g: Row, gt: string, line: string, i: nat, j: nat)
    requires RowText(g) == gt && i <= j <= |line|
    requires row == g + [Plain(" " + line[..i]), Span(line[i..j]), Plain(line[j..]), Plain("\n")]
    ensures RowText(row) == gt + (" " + line + "\n")
  {
    var (p, m, s) := (line[..i], line[i..j], line[j..]);
    RowTextOfFourSegments(g, Plain(" " + p), Span(m), Plain(s), Plain("\n"));
    assert p + m + s == line;
    assert " " + (p + m) == " " + p + m;
    assert " " + (p + m + s) == " " + p + m + s;
  }

  /** The source row shows the whole line: prefix, span and suffix put back together. */
  lemma SourceRowText(number: string, line: string, ps: PosSpan)
    requires ps.colStart <= ps.colEnd <= |line|
    ensures RowText(SourceRow(number, line, ps)) == number + " |" + (" " + line + "\n")
  {
    NumberGutterText(number);
    CutLineText(SourceRow(number, line, ps), NumberGutter(number), number + " |", line, ps.colStart, ps.colEnd);
  }

  lemma CaretRowText(d: nat, line: string, ps: PosSpan)
    requires ps.colStart <= ps.colEnd <= |line|
    ensures RowText(CaretRow(d, line, ps))
      == Repeat(' ', d) + " |" + (" " + line[..ps.colStart] + Repeat('^', ps.colEnd - ps.colStart) + "\n")
  {
    var (p, carets) := (line[..ps.colStart], Repeat('^', ps.colEnd - ps.colStart));
    assert CaretRow(d, line, ps) == BlankGutter(d) + [Plain(" " + p), Marker(carets), Plain("\n")];
    RowTextOfSegments(BlankGutter(d), Plain(" " + p), Marker(carets), Plain("\n"));
    BlankGutterText(d);
  }

  lemma LeadInRowText(d: nat, startLine: string, start: Pos)
    requires start.col <= |startLine|
    ensures RowText(LeadInRow(d, startLine, start)) == Repeat(' ', d) + " |" + (" " + startLine[..start.col] + "v\n")
  {
    var (g, p) := (BlankGutter(d), " " + startLine[..start.col]);
    assert LeadInRow(d, startLine, start) == g + [Plain(p), Marker("v"), Plain("\n")];
    BlankGutterText(d);
    MarkRowText(g, Repeat(' ', d) + " |", p, "v", "v\n");
  }

  /** After a gutter whose text is `gt`, a plain prefix, a marker and the line feed. */
  lemma MarkRowText(g: Row, gt: string, p: string, m: string, tail: string)
    requires RowText(g) == gt && tail == m + "\n"
    ensures RowText(g + [Plain(p), Marker(m), Plain("\n")]) == gt + (p + tail)
  {
    RowTextOfSegments(g, Plain(p), Marker(m), Plain("\n"));
    assert p + (m + "\n") == p + m + "\n";
  }

  /** After a gutter whose text is `gt`, a prefix and a span cut at `i` read as the whole line. */
  lemma SpanToEndText(row: Row, g: Row, gt: string, line: string, i: nat)
    requires RowText(g) == gt && i <= |line|
    requires row == g + [Plain(" " + line[..i]), Span(line[i..]), Plain("\n")]
    ensures RowText(row) == gt + (" " + line + "\n")
  {
    var (p, s) := (line[..i], line[i..]);
    RowTextOfSegments(g, Plain(" " + p), Span(s), Plain("\n"));
    assert p + s == line;
    assert " " + (p + s) == " " + p + s;
  }

  /** The start row shows the whole start line. */
  lemma StartRowText(number: string, startLine: string, start: Pos)
    requires start.col <= |startLine|
    ensures RowText(StartRow(number, startLine, start)) == number + " |" + (" " + startLine + "\n")
  {
    NumberGutterText(number);
    SpanToEndText(StartRow(number, startLine, start), NumberGutter(number), number + " |", startLine, start.col);
  }

  lemma EllipsisRowText(d: nat)
    ensures RowText(EllipsisRow(d)) == Repeat(' ', d) + " |" + " ...\n"
  {
    assert EllipsisRow(d) == BlankGutter(d) + [Plain(" ...\n")];
    BlankGutterText(d);
    RowTextAppend(BlankGutter(d), [Plain(" ...\n")]);
    RowTextSingleton(Plain(" ...\n"));
  }

  /** After a gutter whose text is `gt`, a span and a suffix cut at `i` read as the whole line. */
  lemma SpanFromStartText(row: Row, g: Row, gt: string, line: string, i: nat)
    requires RowText(g) == gt && i <= |line|
    requires row == g + [Plain(" "), Span(line[..i]), Plain(line[i..] + "\n")]
    ensures RowText(row) == gt + (" " + line + "\n")
  {
    var (x, y) := (line[..i], line[i..]);
    RowTextOfSegments(g, Plain(" "), Span(x), Plain(y + "\n"));
    assert x + y == line;
    assert " " + x + (y + "\n") == " " + x + y + "\n";
    assert " " + (x + y) == " " + x + y;
  }

  /** The end row shows the whole end line. */
  lemma EndRowText(number: string, endLine: string, end: Pos)
    requires end.col <= |endLine|
    ensures RowText(EndRow(number, endLine, end)) == number + " |" + (" " + endLine + "\n")
  {
    NumberGutterText(number);
    SpanFromStartText(EndRow(number, endLine, end), NumberGutter(number), number + " |", endLine, end.col);
  }

  lemma EndCaretRowText(d: nat, endLine: string, end: Pos)
    requires 1 <= end.col <= |endLine|
    ensures RowText(EndCaretRow(d, endLine, end)) == Repeat(' ', d) + " |" + (" " + endLine[..end.col - 1] + "^\n")
  {
    var (g, p) := (BlankGutter(d), " " + endLine[..end.col - 1]);
    assert EndCaretRow(d, endLine, end) == g + [Plain(p), Marker("^"), Plain("\n")];
    BlankGutterText(d);
    MarkRowText(g, Repeat(' ', d) + " |", p, "^", "^\n");
  }

  // ----- Markers and spans of the rows -----

  lemma FlattenCons(r: Row, rest: seq<Row>)
    ensures Flatten([r] + rest) == r + Flatten(rest)
  {
    assert ([r] + rest)[1..] == rest;
  }

  lemma FlattenOne(r: Row)
    ensures Flatten([r]) == r
  {
    assert [r][1..] == [];
    assert r + [] == r;
  }

  lemma BlankGutterMarkers(d: nat)
    ensures Markers(BlankGutter(d)) == [] && Spans(BlankGutter(d)) == []
  {
    var b := BlankGutter(d);
    assert b == [b[0]] + [b[1]];
    MarkersAppend([b[0]], [b[1]]);
    MarkersSingleton(b[0]);
    MarkersSingleton(b[1]);
  }

  lemma NumberGutterMarkers(number: string)
    ensures Markers(NumberGutter(number)) == [] && Spans(NumberGutter(number)) == []
  {
    var g := NumberGutter(number);
    assert g == [g[0]] + [g[1]] + [g[2]];
    MarkersAppend([g[0]] + [g[1]], [g[2]]);
    MarkersAppend([g[0]], [g[1]]);
    MarkersSingleton(g[0]);
    MarkersSingleton(g[1]);
    MarkersSingleton(g[2]);
  }

  /** Markers and spans of a gutter that holds none, followed by three segments. */
  lemma SegmentsMarkers(gutter: Row, a: Segment, b: Segment, c: Segment)
    requires Markers(gutter) == [] && Spans(gutter) == []
    ensures Markers(gutter + [a, b, c]) == Markers([a]) + Markers([b]) + Markers([c])
    ensures Spans(gutter + [a, b, c]) == Spans([a]) + Spans([b]) + Spans([c])
  {
    assert [a, b, c] == [a] + [b] + [c];
    MarkersAppend(gutter, [a, b, c]);
    MarkersAppend([a] + [b], [c]);
    MarkersAppend([a], [b]);
  }

  lemma SegmentsMarkers4(gutter: Row, a: Segment, b: Segment, c: Segment, e: Segment)
    requires Markers(gutter) == [] && Spans(gutter) == []
    ensures Markers(gutter + [a, b, c, e]) == Markers([a]) + Markers([b]) + Markers([c]) + Markers([e])
    ensures Spans(gutter + [a, b, c, e]) == Spans([a]) + Spans([b]) + Spans([c]) + Spans([e])
  {
    assert gutter + [a, b, c, e] == (gutter + [a, b, c]) + [e];
    MarkersAppend(gutter + [a, b, c], [e]);
    SegmentsMarkers(gutter, a, b, c);
  }

  /** A marker between two plain segments after a gutter: one marker, no span. */
  lemma MarkerRowMarkers(gutter: Row, x: string, m: string, y: string)
    requires Markers(gutter) == [] && Spans(gutter) == []
    ensures Markers(gutter + [Plain(x), Marker(m), Plain(y)]) == [m]
    ensures Spans(gutter + [Plain(x), Marker(m), Plain(y)]) == []
  {
    SegmentsMarkers(gutter, Plain(x), Marker(m), Plain(y));
    MarkersSingleton(Plain(x));
    MarkersSingleton(Marker(m));
    MarkersSingleton(Plain(y));
  }

  /** A span between two plain segments after a gutter: one span, no marker. */
  lemma SpanRowMarkers(row: Row, gutter: Row, x: string, s: string, y: string)
    requires Markers(gutter) == [] && Spans(gutter) == []
    requires row == gutter + [Plain(x), Span(s), Plain(y)]
    ensures Markers(row) == []
    ensures Spans(row) == [s]
  {
    SegmentsMarkers(gutter, Plain(x), Span(s), Plain(y));
    MarkersSingleton(Plain(x));
    MarkersSingleton(Span(s));
    MarkersSingleton(Plain(y));
  }

  /** The same with a second plain segment after the span. */
  lemma SpanRowMarkers4(gutter: Row, x: string, s: string, y: string, z: string)
    requires Markers(gutter) == [] && Spans(gutter) == []
    ensures Markers(gutter + [Plain(x), Span(s), Plain(y), Plain(z)]) == []
    ensures Spans(gutter + [Plain(x), Span(s), Plain(y), Plain(z)]) == [s]
  {
    SegmentsMarkers4(gutter, Plain(x), Span(s), Plain(y), Plain(z));
    MarkersSingleton(Plain(x));
    MarkersSingleton(Span(s));
    MarkersSingleton(Plain(y));
    MarkersSingleton(Plain(z));
  }

  // ----- Single-line layout -----

  /** Column `k` of the text after a `d`-wide gutter and " |" is at index `d + 2 + k`. */
  lemma AfterGutter(g: string, rest: string, d: nat, k: nat)
    requires |g| == d && k < |rest|
    ensures (g + " |" + rest)[d + 2 + k] == rest[k]
  {
  }

  /** No line feed in a visualized line or in any part of it. */
  lemma NoLineFeedInSlice(line: string, i: nat, j: nat)
    requires '\n' !in line && i <= j <= |line|
    ensures '\n' !in line[i..j]
  {
    forall k | 0 <= k < j - i ensures line[i..j][k] != '\n' {
      assert line[i..j][k] == line[i + k];
    }
  }

  /** A row well formed for a gutter `d` wide: aligned and ended by its only line feed. */
  predicate WellFormed(row: Row, d: nat)
  {
    Aligned(RowText(row), d) && OneLine(RowText(row))
  }

  lemma SpacerRowWellFormed(d: nat)
    ensures WellFormed(SpacerRow(d), d)
  {
    SpacerRowText(d);
    GutteredRow(Repeat(' ', d), "\n", d);
  }

  lemma SourceRowWellFormed(d: nat, number: string, line: string, ps: PosSpan)
    requires ps.colStart <= ps.colEnd <= |line|
    requires PaddedNumber(number, d) && '\n' !in line
    ensures WellFormed(SourceRow(number, line, ps), d)
  {
    SourceRowText(number, line, ps);
    var r1 := " " + line + "\n";
    assert r1[..|r1| - 1] == " " + line;
    GutteredRow(number, r1, d);
  }

  lemma CaretRowWellFormed(d: nat, line: string, ps: PosSpan)
    requires ps.colStart <= ps.colEnd <= |line|
    requires '\n' !in line
    ensures WellFormed(CaretRow(d, line, ps), d)
  {
    CaretRowText(d, line, ps);
    var carets := Repeat('^', ps.colEnd - ps.colStart);
    var r2 := " " + line[..ps.colStart] + carets + "\n";
    assert r2[..|r2| - 1] == " " + line[..ps.colStart] + carets;
    NoLineFeedInSlice(line, 0, ps.colStart);
    assert line[0..ps.colStart] == line[..ps.colStart];
    assert '\n' !in carets;
    GutteredRow(Repeat(' ', d), r2, d);
  }

  /**
   * With a gutter wide enough for the line number and a visualized line,
   * the single-line layout is three rows aligned on the gutter, each ended
   * by its only line feed, so it prints exactly three line feeds.
   */
  lemma SingleLineRows(d: nat, line: string, ps: PosSpan)
    requires ps.colStart <= ps.colEnd <= |line|
    requires DigitCount(ps.line + 1) <= d && '\n' !in line
    ensures var rows := SingleLine(d, line, ps);
      && |rows| == 3
      && (forall r :: 0 <= r < 3 ==> WellFormed(rows[r], d))
      && Count(RowText(Flatten(rows)), '\n') == 3
  {
    var number := FormatWidth(ps.line + 1, d);
    var (a, b, c) := (SpacerRow(d), SourceRow(number, line, ps), CaretRow(d, line, ps));
    SpacerRowWellFormed(d);
    FormatWidthPadded(ps.line + 1, d);
    SourceRowWellFormed(d, number, line, ps);
    CaretRowWellFormed(d, line, ps);
    LineFeedCount([a, b, c], d);
  }

  /**
   * The source row shows the whole line after the gutter, and each caret
   * stands in the column of the source row that holds a highlighted byte.
   */
  lemma SingleLineCaretsUnderSpan(d: nat, line: string, ps: PosSpan)
    requires ps.colStart <= ps.colEnd <= |line|
    requires DigitCount(ps.line + 1) <= d
    ensures var rows := SingleLine(d, line, ps);
      && RowText(rows[1]) == FormatWidth(ps.line + 1, d) + " | " + line + "\n"
      && |RowText(rows[2])| == d + 4 + ps.colEnd
      && forall k :: ps.colStart <= k < ps.colEnd ==>
           RowText(rows[2])[d + 3 + k] == '^' && RowText(rows[1])[d + 3 + k] == line[k]
  {
    var (rows, number) := (SingleLine(d, line, ps), FormatWidth(ps.line + 1, d));
    assert rows[1] == SourceRow(number, line, ps) && rows[2] == CaretRow(d, line, ps);
    SourceRowText(number, line, ps);
    CaretRowText(d, line, ps);
    assert |number| == d by {
      FormatWidthFits(ps.line + 1, d);
    }
    CaretsUnderSpan(RowText(rows[1]), RowText(rows[2]), number, Repeat(' ', d),
      line, ps.colStart, ps.colEnd, Repeat('^', ps.colEnd - ps.colStart), d);
  }

  /** The column arithmetic of the source and caret rows, for any gutters `d` wide. */
  lemma CaretsUnderSpan(t1: string, t2: string, g1: string, g2: string, line: string, cs: nat, ce: nat,
                        carets: string, d: nat)
    requires cs <= ce <= |line| && |g1| == d && |g2| == d
    requires |carets| == ce - cs && forall i :: 0 <= i < |carets| ==> carets[i] == '^'
    requires t1 == g1 + " |" + (" " + line + "\n")
    requires t2 == g2 + " |" + (" " + line[..cs] + carets + "\n")
    ensures t1 == g1 + " | " + line + "\n"
    ensures |t2| == d + 4 + ce
    ensures forall k :: cs <= k < ce ==> t2[d + 3 + k] == '^' && t1[d + 3 + k] == line[k]
  {
    var r1 := " " + line + "\n";
    var r2 := " " + line[..cs] + carets + "\n";
    forall k | cs <= k < ce
      ensures t2[d + 3 + k] == '^' && t1[d + 3 + k] == line[k]
    {
      AfterGutter(g2, r2, d, k + 1);
      assert r2[k + 1] == carets[k - cs];
      AfterGutter(g1, r1, d, k + 1);
    }
  }

  /**
   * The text of the single-line layout with the default formatters: a
   * blank gutter row, the numbered line, and the caret row that repeats
   * the line up to the start column before the carets.
   */
  lemma SingleLineText(d: nat, line: string, ps: PosSpan)
    requires ps.colStart <= ps.colEnd <= |line|
    ensures RowText(Flatten(SingleLine(d, line, ps)))
      == Repeat(' ', d) + " |" + "\n"
       + ((FormatWidth(ps.line + 1, d) + " |" + (" " + line + "\n"))
       + (Repeat(' ', d) + " |" + (" " + line[..ps.colStart] + Repeat('^', ps.colEnd - ps.colStart) + "\n")))
  {
    var number := FormatWidth(ps.line + 1, d);
    var (a, b, c) := (SpacerRow(d), SourceRow(number, line, ps), CaretRow(d, line, ps));
    SpacerRowText(d);
    SourceRowText(number, line, ps);
    CaretRowText(d, line, ps);
    ThreeRowsText(a, b, c, RowText(a), RowText(b), RowText(c));
  }

  /** The text of three rows written one after another. */
  lemma ThreeRowsText(a: Row, b: Row, c: Row, ta: string, tb: string, tc: string)
    requires RowText(a) == ta && RowText(b) == tb && RowText(c) == tc
    ensures RowText(Flatten([a, b, c])) == ta + (tb + tc)
  {
    FlattenThree(a, b, c);
    RowTextAppend(b, c);
    RowTextAppend(a, b + c);
  }

  /** The single-line layout never holds the `...` row. */
  lemma SingleLineHasNoEllipsis(d: nat, line: string, ps: PosSpan)
    requires ps.colStart <= ps.colEnd <= |line|
    ensures EllipsisRow(d) !in SingleLine(d, line, ps)
  {
    assert |SpacerRow(d)| == 3 && SpacerRow(d)[2] != EllipsisRow(d)[2];
    assert |SourceRow(FormatWidth(ps.line + 1, d), line, ps)| == 7 && |CaretRow(d, line, ps)| == 5;
  }

  lemma SpacerRowMarkers(d: nat)
    ensures Markers(SpacerRow(d)) == [] && Spans(SpacerRow(d)) == []
  {
    BlankGutterMarkers(d);
    MarkersAppend(BlankGutter(d), [Plain("\n")]);
    MarkersSingleton(Plain("\n"));
  }

  lemma SourceRowMarkers(number: string, line: string, ps: PosSpan)
    requires ps.colStart <= ps.colEnd <= |line|
    ensures Markers(SourceRow(number, line, ps)) == [] && Spans(SourceRow(number, line, ps)) == [line[ps.colStart..ps.colEnd]]
  {
    var g := NumberGutter(number);
    assert SourceRow(number, line, ps) == g
      + [Plain(" " + line[..ps.colStart]), Span(line[ps.colStart..ps.colEnd]), Plain(line[ps.colEnd..]), Plain("\n")];
    NumberGutterMarkers(number);
    SpanRowMarkers4(g, " " + line[..ps.colStart], line[ps.colStart..ps.colEnd], line[ps.colEnd..], "\n");
  }

  lemma CaretRowMarkers(d: nat, line: string, ps: PosSpan)
    requires ps.colStart <= ps.colEnd <= |line|
    ensures Markers(CaretRow(d, line, ps)) == [Repeat('^', ps.colEnd - ps.colStart)]
    ensures Spans(CaretRow(d, line, ps)) == []
  {
    var carets := Repeat('^', ps.colEnd - ps.colStart);
    assert CaretRow(d, line, ps) == BlankGutter(d) + [Plain(" " + line[..ps.colStart]), Marker(carets), Plain("\n")];
    BlankGutterMarkers(d);
    MarkerRowMarkers(BlankGutter(d), " " + line[..ps.colStart], carets, "\n");
  }

  /** Flattening three rows. */
  lemma FlattenThree(a: Row, b: Row, c: Row)
    ensures Flatten([a, b, c]) == a + (b + c)
  {
    FlattenOne(c);
    assert [b, c] == [b] + [c];
    FlattenCons(b, [c]);
    assert [a, b, c] == [a] + [b, c];
    FlattenCons(a, [b, c]);
  }

  /** Markers and spans of three rows written one after another. */
  lemma FlattenThreeMarkers(a: Row, b: Row, c: Row)
    ensures Markers(Flatten([a, b, c])) == Markers(a) + (Markers(b) + Markers(c))
    ensures Spans(Flatten([a, b, c])) == Spans(a) + (Spans(b) + Spans(c))
  {
    FlattenThree(a, b, c);
    MarkersAppend(b, c);
    MarkersAppend(a, b + c);
  }

  /** Three rows, of which only the last holds a marker and only the middle one a span. */
  lemma ThreeRowsMarkers(a: Row, b: Row, c: Row, m: string, s: string)
    requires Markers(a) == [] && Markers(b) == [] && Markers(c) == [m]
    requires Spans(a) == [] && Spans(b) == [s] && Spans(c) == []
    ensures Markers(Flatten([a, b, c])) == [m]
    ensures Spans(Flatten([a, b, c])) == [s]
  {
    FlattenThreeMarkers(a, b, c);
  }

  /**
   * The single-line layout hands the span formatter exactly the highlighted
   * bytes and the marker formatter exactly one `^` per highlighted byte.
   */
  lemma SingleLineMarkers(d: nat, line: string, ps: PosSpan)
    requires ps.colStart <= ps.colEnd <= |line|
    ensures var rows := SingleLine(d, line, ps);
      && Spans(Flatten(rows)) == [line[ps.colStart..ps.colEnd]]
      && Markers(Flatten(rows)) == [Repeat('^', ps.colEnd - ps.colStart)]
  {
    var (a, b, c) := (SpacerRow(d), SourceRow(FormatWidth(ps.line + 1, d), line, ps), CaretRow(d, line, ps));
    SpacerRowMarkers(d);
    SourceRowMarkers(FormatWidth(ps.line + 1, d), line, ps);
    CaretRowMarkers(d, line, ps);
    ThreeRowsMarkers(a, b, c, Repeat('^', ps.colEnd - ps.colStart), line[ps.colStart..ps.colEnd]);
  }

  // ----- Multi-line layout -----

  lemma LeadInRowWellFormed(d: nat, startLine: string, start: Pos)
    requires start.col <= |startLine| && '\n' !in startLine
    ensures WellFormed(LeadInRow(d, startLine, start), d)
  {
    LeadInRowText(d, startLine, start);
    var r := " " + startLine[..start.col] + "v\n";
    assert r[..|r| - 1] == " " + startLine[..start.col] + "v";
    NoLineFeedInSlice(startLine, 0, start.col);
    assert startLine[0..start.col] == startLine[..start.col];
    GutteredRow(Repeat(' ', d), r, d);
  }

  lemma StartRowWellFormed(d: nat, number: string, startLine: string, start: Pos)
    requires start.col <= |startLine| && '\n' !in startLine
    requires PaddedNumber(number, d)
    ensures WellFormed(StartRow(number, startLine, start), d)
  {
    StartRowText(number, startLine, start);
    var r := " " + startLine + "\n";
    assert r[..|r| - 1] == " " + startLine;
    GutteredRow(number, r, d);
  }

  lemma EllipsisRowWellFormed(d: nat)
    ensures WellFormed(EllipsisRow(d), d)
  {
    EllipsisRowText(d);
    var r := " ...\n";
    assert r[..|r| - 1] == " ...";
    GutteredRow(Repeat(' ', d), r, d);
  }

  lemma EndRowWellFormed(d: nat, number: string, endLine: string, end: Pos)
    requires end.col <= |endLine| && '\n' !in endLine
    requires PaddedNumber(number, d)
    ensures WellFormed(EndRow(number, endLine, end), d)
  {
    EndRowText(number, endLine, end);
    var r := " " + endLine + "\n";
    assert r[..|r| - 1] == " " + endLine;
    GutteredRow(number, r, d);
  }

  lemma EndCaretRowWellFormed(d: nat, endLine: string, end: Pos)
    requires 1 <= end.col <= |endLine| && '\n' !in endLine
    ensures WellFormed(EndCaretRow(d, endLine, end), d)
  {
    EndCaretRowText(d, endLine, end);
    var r := " " + endLine[..end.col - 1] + "^\n";
    assert r[..|r| - 1] == " " + endLine[..end.col - 1] + "^";
    NoLineFeedInSlice(endLine, 0, end.col - 1);
    assert endLine[0..end.col - 1] == endLine[..end.col - 1];
    GutteredRow(Repeat(' ', d), r, d);
  }

  /**
   * The multi-line layout has an ellipsis row exactly when the two lines
   * are more than one apart, so four or five rows.
   */
  lemma MultiLineShape(d: nat, startLine: string, start: Pos, endLine: string, end: Pos)
    requires start.col <= |startLine| && 1 <= end.col <= |endLine|
    ensures var rows := MultiLine(d, startLine, start, endLine, end);
      && |rows| == (if AbsDiff(start.line, end.line) > 1 then 5 else 4)
      && (EllipsisRow(d) in rows <==> AbsDiff(start.line, end.line) > 1)
  {
    var (a, b) := (LeadInRow(d, startLine, start), StartRow(FormatWidth(start.line + 1, d), startLine, start));
    var (c, e) := (EndRow(FormatWidth(end.line + 1, d), endLine, end), EndCaretRow(d, endLine, end));
    assert |EllipsisRow(d)| == 3 && |a| == 5 && |b| == 6 && |c| == 6 && |e| == 5;
  }

  lemma MultiLineRowsWellFormed(d: nat, startLine: string, start: Pos, endLine: string, end: Pos)
    requires start.col <= |startLine| && 1 <= end.col <= |endLine|
    requires DigitCount(start.line + 1) <= d && DigitCount(end.line + 1) <= d
    requires '\n' !in startLine && '\n' !in endLine
    ensures var rows := MultiLine(d, startLine, start, endLine, end);
      forall r :: 0 <= r < |rows| ==> WellFormed(rows[r], d)
  {
    MultiLineCases(d, startLine, start, endLine, end);
    var (n1, n2) := (FormatWidth(start.line + 1, d), FormatWidth(end.line + 1, d));
    var (a, b) := (LeadInRow(d, startLine, start), StartRow(n1, startLine, start));
    var (c, e) := (EndRow(n2, endLine, end), EndCaretRow(d, endLine, end));
    FormatWidthPadded(start.line + 1, d);
    FormatWidthPadded(end.line + 1, d);
    LeadInRowWellFormed(d, startLine, start);
    StartRowWellFormed(d, n1, startLine, start);
    EndRowWellFormed(d, n2, endLine, end);
    EndCaretRowWellFormed(d, endLine, end);
    if AbsDiff(start.line, end.line) > 1 {
      EllipsisRowWellFormed(d);
    }
  }

  /**
   * With a gutter wide enough for both line numbers and visualized lines,
   * every row of the multi-line layout is aligned on the gutter and ended
   * by its only line feed, so the layout prints one line feed per row.
   */
  lemma MultiLineRows(d: nat, startLine: string, start: Pos, endLine: string, end: Pos)
    requires start.col <= |startLine| && 1 <= end.col <= |endLine|
    requires DigitCount(start.line + 1) <= d && DigitCount(end.line + 1) <= d
    requires '\n' !in startLine && '\n' !in endLine
    ensures var rows := MultiLine(d, startLine, start, endLine, end);
      && (forall r :: 0 <= r < |rows| ==> WellFormed(rows[r], d))
      && Count(RowText(Flatten(rows)), '\n') == |rows|
  {
    MultiLineRowsWellFormed(d, startLine, start, endLine, end);
    LineFeedCount(MultiLine(d, startLine, start, endLine, end), d);
  }

  lemma LeadInRowMarkers(d: nat, startLine: string, start: Pos)
    requires start.col <= |startLine|
    ensures Markers(LeadInRow(d, startLine, start)) == ["v"] && Spans(LeadInRow(d, startLine, start)) == []
  {
    assert LeadInRow(d, startLine, start) == BlankGutter(d) + [Plain(" " + startLine[..start.col]), Marker("v"), Plain("\n")];
    BlankGutterMarkers(d);
    MarkerRowMarkers(BlankGutter(d), " " + startLine[..start.col], "v", "\n");
  }

  lemma StartRowMarkers(number: string, startLine: string, start: Pos)
    requires start.col <= |startLine|
    ensures Markers(StartRow(number, startLine, start)) == [] && Spans(StartRow(number, startLine, start)) == [startLine[start.col..]]
  {
    NumberGutterMarkers(number);
    SpanRowMarkers(StartRow(number, startLine, start), NumberGutter(number),
      " " + startLine[..start.col], startLine[start.col..], "\n");
  }

  lemma EllipsisRowMarkers(d: nat)
    ensures Markers(EllipsisRow(d)) == [] && Spans(EllipsisRow(d)) == []
  {
    BlankGutterMarkers(d);
    MarkersAppend(BlankGutter(d), [Plain(" ...\n")]);
    MarkersSingleton(Plain(" ...\n"));
  }

  lemma EndRowMarkers(number: string, endLine: string, end: Pos)
    requires end.col <= |endLine|
    ensures Markers(EndRow(number, endLine, end)) == [] && Spans(EndRow(number, endLine, end)) == [endLine[..end.col]]
  {
    NumberGutterMarkers(number);
    SpanRowMarkers(EndRow(number, endLine, end), NumberGutter(number), " ", endLine[..end.col], endLine[end.col..] + "\n");
  }

  lemma EndCaretRowMarkers(d: nat, endLine: string, end: Pos)
    requires 1 <= end.col <= |endLine|
    ensures Markers(EndCaretRow(d, endLine, end)) == ["^"] && Spans(EndCaretRow(d, endLine, end)) == []
  {
    assert EndCaretRow(d, endLine, end) == BlankGutter(d) + [Plain(" " + endLine[..end.col - 1]), Marker("^"), Plain("\n")];
    BlankGutterMarkers(d);
    MarkerRowMarkers(BlankGutter(d), " " + endLine[..end.col - 1], "^", "\n");
  }

  /** Markers and spans of four rows written one after another. */
  lemma FlattenFourMarkers(a: Row, b: Row, c: Row, e: Row)
    ensures Markers(Flatten([a, b, c, e])) == Markers(a) + (Markers(b) + (Markers(c) + Markers(e)))
    ensures Spans(Flatten([a, b, c, e])) == Spans(a) + (Spans(b) + (Spans(c) + Spans(e)))
  {
    assert [a, b, c, e] == [a] + [b, c, e];
    RowsConsMarkers(a, [b, c, e]);
    FlattenThreeMarkers(b, c, e);
  }

  /** Markers and spans of five rows written one after another. */
  lemma FlattenFiveMarkers(a: Row, b: Row, g: Row, c: Row, e: Row)
    ensures Markers(Flatten([a, b, g, c, e])) == Markers(a) + (Markers(b) + (Markers(g) + (Markers(c) + Markers(e))))
    ensures Spans(Flatten([a, b, g, c, e])) == Spans(a) + (Spans(b) + (Spans(g) + (Spans(c) + Spans(e))))
  {
    assert [a, b, g, c, e] == [a] + [b, g, c, e];
    RowsConsMarkers(a, [b, g, c, e]);
    FlattenFourMarkers(b, g, c, e);
  }

  lemma RowsConsMarkers(r: Row, rest: seq<Row>)
    ensures Markers(Flatten([r] + rest)) == Markers(r) + Markers(Flatten(rest))
    ensures Spans(Flatten([r] + rest)) == Spans(r) + Spans(Flatten(rest))
  {
    FlattenCons(r, rest);
    MarkersAppend(r, Flatten(rest));
  }

  /** The rows of the multi-line layout, one case at a time. */
  lemma MultiLineCases(d: nat, startLine: string, start: Pos, endLine: string, end: Pos)
    requires start.col <= |startLine| && 1 <= end.col <= |endLine|
    ensures var (a, b) := (LeadInRow(d, startLine, start), StartRow(FormatWidth(start.line + 1, d), startLine, start));
      var (c, e) := (EndRow(FormatWidth(end.line + 1, d), endLine, end), EndCaretRow(d, endLine, end));
      MultiLine(d, startLine, start, endLine, end)
        == if AbsDiff(start.line, end.line) > 1 then [a, b, EllipsisRow(d), c, e] else [a, b, c, e]
  {
  }

  /** Four rows, of which only the first and last hold markers and only the middle two spans. */
  lemma FourRowsMarkers(a: Row, b: Row, c: Row, e: Row, m1: string, m2: string, s1: string, s2: string)
    requires Markers(a) == [m1] && Markers(b) == [] && Markers(c) == [] && Markers(e) == [m2]
    requires Spans(a) == [] && Spans(b) == [s1] && Spans(c) == [s2] && Spans(e) == []
    ensures Markers(Flatten([a, b, c, e])) == [m1, m2]
    ensures Spans(Flatten([a, b, c, e])) == [s1, s2]
  {
    FlattenFourMarkers(a, b, c, e);
  }

  /** The same with a row holding neither markers nor spans between the middle two. */
  lemma FiveRowsMarkers(a: Row, b: Row, g: Row, c: Row, e: Row, m1: string, m2: string, s1: string, s2: string)
    requires Markers(a) == [m1] && Markers(b) == [] && Markers(g) == [] && Markers(c) == [] && Markers(e) == [m2]
    requires Spans(a) == [] && Spans(b) == [s1] && Spans(g) == [] && Spans(c) == [s2] && Spans(e) == []
    ensures Markers(Flatten([a, b, g, c, e])) == [m1, m2]
    ensures Spans(Flatten([a, b, g, c, e])) == [s1, s2]
  {
    FlattenFiveMarkers(a, b, g, c, e);
  }

  /**
   * The multi-line layout hands the marker formatter one `v` and then one
   * `^`, and the span formatter the start line from the start column on
   * and the end line up to the end column; the lines in between are never
   * shown.
   */
  lemma MultiLineMarkers(d: nat, startLine: string, start: Pos, endLine: string, end: Pos)
    requires start.col <= |startLine| && 1 <= end.col <= |endLine|
    ensures Markers(Flatten(MultiLine(d, startLine, start, endLine, end))) == ["v", "^"]
    ensures Spans(Flatten(MultiLine(d, startLine, start, endLine, end))) == [startLine[start.col..], endLine[..end.col]]
  {
    MultiLineCases(d, startLine, start, endLine, end);
    var (n1, n2) := (FormatWidth(start.line + 1, d), FormatWidth(end.line + 1, d));
    var (a, b) := (LeadInRow(d, startLine, start), StartRow(n1, startLine, start));
    var (c, e) := (EndRow(n2, endLine, end), EndCaretRow(d, endLine, end));
    LeadInRowMarkers(d, startLine, start);
    StartRowMarkers(n1, startLine, start);
    EndRowMarkers(n2, endLine, end);
    EndCaretRowMarkers(d, endLine, end);
    if AbsDiff(start.line, end.line) > 1 {
      EllipsisRowMarkers(d);
      FiveRowsMarkers(a, b, EllipsisRow(d), c, e, "v", "^", startLine[start.col..], endLine[..end.col]);
    } else {
      FourRowsMarkers(a, b, c, e, "v", "^", startLine[start.col..], endLine[..end.col]);
    }
  }

  lemma LeadInRowPlaced(d: nat, startLine: string, start: Pos)
    requires start.col <= |startLine|
    ensures |RowText(LeadInRow(d, startLine, start))| == d + 5 + start.col
    ensures RowText(LeadInRow(d, startLine, start))[d + 3 + start.col] == 'v'
  {
    LeadInRowText(d, startLine, start);
    AfterGutter(Repeat(' ', d), " " + startLine[..start.col] + "v\n", d, start.col + 1);
  }

  /** Column `k` of a line shown after a gutter of width `d` sits at `d + 3 + k`. */
  lemma ShownAt(g: string, line: string, d: nat, k: nat)
    requires |g| == d && k < |line|
    ensures |g + " |" + (" " + line + "\n")| == d + 4 + |line|
    ensures (g + " |" + (" " + line + "\n"))[d + 3 + k] == line[k]
  {
    AfterGutter(g, " " + line + "\n", d, k + 1);
  }

  lemma StartRowPlaced(d: nat, number: string, startLine: string, start: Pos)
    requires start.col < |startLine| && |number| == d
    ensures |RowText(StartRow(number, startLine, start))| == d + 4 + |startLine|
    ensures RowText(StartRow(number, startLine, start))[d + 3 + start.col] == startLine[start.col]
  {
    StartRowText(number, startLine, start);
    ShownAt(number, startLine, d, start.col);
  }

  lemma EndRowPlaced(d: nat, number: string, endLine: string, end: Pos)
    requires 1 <= end.col <= |endLine| && |number| == d
    ensures |RowText(EndRow(number, endLine, end))| == d + 4 + |endLine|
    ensures RowText(EndRow(number, endLine, end))[d + 2 + end.col] == endLine[end.col - 1]
  {
    EndRowText(number, endLine, end);
    ShownAt(number, endLine, d, end.col - 1);
  }

  lemma EndCaretRowPlaced(d: nat, endLine: string, end: Pos)
    requires 1 <= end.col <= |endLine|
    ensures |RowText(EndCaretRow(d, endLine, end))| == d + 4 + end.col
    ensures RowText(EndCaretRow(d, endLine, end))[d + 2 + end.col] == '^'
  {
    EndCaretRowText(d, endLine, end);
    AfterGutter(Repeat(' ', d), " " + endLine[..end.col - 1] + "^\n", d, end.col);
  }

  /** The multi-line layout opens with the lead-in and start rows and closes with the end and caret rows. */
  lemma MultiLineEnds(d: nat, startLine: string, start: Pos, endLine: string, end: Pos)
    requires start.col <= |startLine| && 1 <= end.col <= |endLine|
    ensures var rows := MultiLine(d, startLine, start, endLine, end);
      && |rows| >= 4
      && rows[0] == LeadInRow(d, startLine, start)
      && rows[1] == StartRow(FormatWidth(start.line + 1, d), startLine, start)
      && rows[|rows| - 2] == EndRow(FormatWidth(end.line + 1, d), endLine, end)
      && rows[|rows| - 1] == EndCaretRow(d, endLine, end)
  {
    MultiLineCases(d, startLine, start, endLine, end);
  }

  /**
   * The `v` of the multi-line layout stands in the column that holds the
   * first highlighted byte in the start row below it, which shows the
   * whole start line.
   */
  lemma MultiLineStartMarked(d: nat, startLine: string, start: Pos, endLine: string, end: Pos)
    requires start.col < |startLine| && 1 <= end.col <= |endLine|
    requires DigitCount(start.line + 1) <= d
    ensures var rows := MultiLine(d, startLine, start, endLine, end);
      && |rows| >= 4
      && |RowText(rows[0])| == d + 5 + start.col
      && |RowText(rows[1])| == d + 4 + |startLine|
      && RowText(rows[0])[d + 3 + start.col] == 'v'
      && RowText(rows[1])[d + 3 + start.col] == startLine[start.col]
  {
    MultiLineEnds(d, startLine, start, endLine, end);
    LeadInRowPlaced(d, startLine, start);
    FormatWidthFits(start.line + 1, d);
    StartRowPlaced(d, FormatWidth(start.line + 1, d), startLine, start);
  }

  /**
   * The `^` of the multi-line layout stands in the column that holds the
   * last highlighted byte in the end row above it, which shows the whole
   * end line.
   */
  lemma MultiLineEndMarked(d: nat, startLine: string, start: Pos, endLine: string, end: Pos)
    requires start.col <= |startLine| && 1 <= end.col <= |endLine|
    requires DigitCount(end.line + 1) <= d
    ensures var rows := MultiLine(d, startLine, start, endLine, end);
      var n := |rows|;
      && n >= 4
      && |RowText(rows[n - 2])| == d + 4 + |endLine|
      && |RowText(rows[n - 1])| == d + 4 + end.col
      && RowText(rows[n - 1])[d + 2 + end.col] == '^'
      && RowText(rows[n - 2])[d + 2 + end.col] == endLine[end.col - 1]
  {
    MultiLineEnds(d, startLine, start, endLine, end);
    FormatWidthFits(end.line + 1, d);
    EndRowPlaced(d, FormatWidth(end.line + 1, d), endLine, end);
    EndCaretRowPlaced(d, endLine, end);
  }

  // ----- Texts handed to the number formatter -----

  lemma {:induction false} NumbersAppend(a: Row, b: Row)
    ensures Numbers(a + b) == Numbers(a) + Numbers(b)
    decreases |a|
  {
    if a == [] {
      assert a + b == b;
    } else {
      assert (a + b)[1..] == a[1..] + b;
      NumbersAppend(a[1..], b);
    }
  }

  lemma NumbersSingleton(s: Segment)
    ensures Numbers([s]) == if s.Number? then [s.text] else []
  {
    assert [s][1..] == [];
  }

  /** The blank gutter writes its `|` through the number formatter. */
  lemma BlankGutterNumbers(d: nat)
    ensures Numbers(BlankGutter(d)) == ["|"]
  {
    var b := BlankGutter(d);
    assert b == [b[0]] + [b[1]];
    NumbersAppend([b[0]], [b[1]]);
    NumbersSingleton(b[0]);
    NumbersSingleton(b[1]);
  }

  /** The numbered gutter writes the padded number, then its `|`. */
  lemma NumberGutterNumbers(number: string)
    ensures Numbers(NumberGutter(number)) == [number, "|"]
  {
    var g := NumberGutter(number);
    assert g == [g[0]] + [g[1]] + [g[2]];
    NumbersAppend([g[0]] + [g[1]], [g[2]]);
    NumbersAppend([g[0]], [g[1]]);
    NumbersSingleton(g[0]);
    NumbersSingleton(g[1]);
    NumbersSingleton(g[2]);
  }

  /** After its gutter, a row writes nothing more through the number formatter. */
  lemma SegmentsNumbers(gutter: Row, a: Segment, b: Segment, c: Segment)
    requires !a.Number? && !b.Number? && !c.Number?
    ensures Numbers(gutter + [a, b, c]) == Numbers(gutter)
  {
    assert [a, b, c] == [a] + [b] + [c];
    NumbersAppend(gutter, [a, b, c]);
    NumbersAppend([a] + [b], [c]);
    NumbersAppend([a], [b]);
    NumbersSingleton(a);
    NumbersSingleton(b);
    NumbersSingleton(c);
  }

  lemma SegmentsNumbers4(gutter: Row, a: Segment, b: Segment, c: Segment, e: Segment)
    requires !a.Number? && !b.Number? && !c.Number? && !e.Number?
    ensures Numbers(gutter + [a, b, c, e]) == Numbers(gutter)
  {
    assert gutter + [a, b, c, e] == (gutter + [a, b, c]) + [e];
    NumbersAppend(gutter + [a, b, c], [e]);
    SegmentsNumbers(gutter, a, b, c);
    NumbersSingleton(e);
  }

  lemma SegmentNumbers(gutter: Row, a: Segment)
    requires !a.Number?
    ensures Numbers(gutter + [a]) == Numbers(gutter)
  {
    NumbersAppend(gutter, [a]);
    NumbersSingleton(a);
  }

  /** Rows written one after another hand over the numbers of the first row first. */
  lemma RowsConsNumbers(r: Row, rest: seq<Row>)
    ensures Numbers(Flatten([r] + rest)) == Numbers(r) + Numbers(Flatten(rest))
  {
    FlattenCons(r, rest);
    NumbersAppend(r, Flatten(rest));
  }

  lemma ThreeRowsNumbers(a: Row, b: Row, c: Row)
    ensures Numbers(Flatten([a, b, c])) == Numbers(a) + (Numbers(b) + Numbers(c))
  {
    FlattenThree(a, b, c);
    NumbersAppend(b, c);
    NumbersAppend(a, b + c);
  }

  lemma FourRowsNumbers(a: Row, b: Row, c: Row, e: Row)
    ensures Numbers(Flatten([a, b, c, e])) == Numbers(a) + (Numbers(b) + (Numbers(c) + Numbers(e)))
  {
    assert [a, b, c, e] == [a] + [b, c, e];
    RowsConsNumbers(a, [b, c, e]);
    ThreeRowsNumbers(b, c, e);
  }

  lemma FiveRowsNumbers(a: Row, b: Row, g: Row, c: Row, e: Row)
    ensures Numbers(Flatten([a, b, g, c, e])) == Numbers(a) + (Numbers(b) + (Numbers(g) + (Numbers(c) + Numbers(e))))
  {
    assert [a, b, g, c, e] == [a] + [b, g, c, e];
    RowsConsNumbers(a, [b, g, c, e]);
    FourRowsNumbers(b, g, c, e);
  }

  lemma SpacerRowNumbers(d: nat)
    ensures Numbers(SpacerRow(d)) == ["|"]
  {
    BlankGutterNumbers(d);
    SegmentNumbers(BlankGutter(d), Plain("\n"));
  }

  lemma SourceRowNumbers(number: string, line: string, ps: PosSpan)
    requires ps.colStart <= ps.colEnd <= |line|
    ensures Numbers(SourceRow(number, line, ps)) == [number, "|"]
  {
    var (x, m, y) := (" " + line[..ps.colStart], line[ps.colStart..ps.colEnd], line[ps.colEnd..]);
    NumberGutterNumbers(number);
    NumberedRowNumbers4(SourceRow(number, line, ps), NumberGutter(number), number,
      Plain(x), Span(m), Plain(y), Plain("\n"));
  }

  /** A row made of a numbered gutter and four segments that are not numbers. */
  lemma NumberedRowNumbers4(row: Row, g: Row, w: string, a: Segment, b: Segment, c: Segment, e: Segment)
    requires row == g + [a, b, c, e] && Numbers(g) == [w, "|"]
    requires !a.Number? && !b.Number? && !c.Number? && !e.Number?
    ensures Numbers(row) == [w, "|"]
  {
    SegmentsNumbers4(g, a, b, c, e);
  }

  lemma CaretRowNumbers(d: nat, line: string, ps: PosSpan)
    requires ps.colStart <= ps.colEnd <= |line|
    ensures Numbers(CaretRow(d, line, ps)) == ["|"]
  {
    var (x, carets) := (" " + line[..ps.colStart], Repeat('^', ps.colEnd - ps.colStart));
    assert CaretRow(d, line, ps) == BlankGutter(d) + [Plain(x), Marker(carets), Plain("\n")];
    BlankGutterNumbers(d);
    SegmentsNumbers(BlankGutter(d), Plain(x), Marker(carets), Plain("\n"));
  }

  /**
   * The single-line layout hands the number formatter the spacer row's `|`,
   * the padded line number and its `|`, and the caret row's `|`.
   */
  lemma SingleLineNumbers(d: nat, line: string, ps: PosSpan)
    requires ps.colStart <= ps.colEnd <= |line|
    ensures Numbers(Flatten(SingleLine(d, line, ps))) == ["|", FormatWidth(ps.line + 1, d), "|", "|"]
  {
    var number := FormatWidth(ps.line + 1, d);
    var (a, b, c) := (SpacerRow(d), SourceRow(number, line, ps), CaretRow(d, line, ps));
    SpacerRowNumbers(d);
    SourceRowNumbers(number, line, ps);
    CaretRowNumbers(d, line, ps);
    ThreeRowsNumbersOf(a, b, c, number);
  }

  lemma ThreeRowsNumbersOf(a: Row, b: Row, c: Row, w: string)
    requires Numbers(a) == ["|"] && Numbers(b) == [w, "|"] && Numbers(c) == ["|"]
    ensures Numbers(Flatten([a, b, c])) == ["|", w, "|", "|"]
  {
    ThreeRowsNumbers(a, b, c);
  }

  lemma LeadInRowNumbers(d: nat, startLine: string, start: Pos)
    requires start.col <= |startLine|
    ensures Numbers(LeadInRow(d, startLine, start)) == ["|"]
  {
    var x := " " + startLine[..start.col];
    assert LeadInRow(d, startLine, start) == BlankGutter(d) + [Plain(x), Marker("v"), Plain("\n")];
    BlankGutterNumbers(d);
    SegmentsNumbers(BlankGutter(d), Plain(x), Marker("v"), Plain("\n"));
  }

  lemma StartRowNumbers(number: string, startLine: string, start: Pos)
    requires start.col <= |startLine|
    ensures Numbers(StartRow(number, startLine, start)) == [number, "|"]
  {
    var (x, s) := (" " + startLine[..start.col], startLine[start.col..]);
    NumberGutterNumbers(number);
    NumberedRowNumbers(StartRow(number, startLine, start), NumberGutter(number), number,
      Plain(x), Span(s), Plain("\n"));
  }

  /** A row made of a numbered gutter and three segments that are not numbers. */
  lemma NumberedRowNumbers(row: Row, g: Row, w: string, a: Segment, b: Segment, c: Segment)
    requires row == g + [a, b, c] && Numbers(g) == [w, "|"]
    requires !a.Number? && !b.Number? && !c.Number?
    ensures Numbers(row) == [w, "|"]
  {
    SegmentsNumbers(g, a, b, c);
  }

  lemma EllipsisRowNumbers(d: nat)
    ensures Numbers(EllipsisRow(d)) == ["|"]
  {
    BlankGutterNumbers(d);
    SegmentNumbers(BlankGutter(d), Plain(" ...\n"));
  }

  lemma EndRowNumbers(number: string, endLine: string, end: Pos)
    requires end.col <= |endLine|
    ensures Numbers(EndRow(number, endLine, end)) == [number, "|"]
  {
    var (s, y) := (endLine[..end.col], endLine[end.col..] + "\n");
    NumberGutterNumbers(number);
    NumberedRowNumbers(EndRow(number, endLine, end), NumberGutter(number), number,
      Plain(" "), Span(s), Plain(y));
  }

  lemma EndCaretRowNumbers(d: nat, endLine: string, end: Pos)
    requires 1 <= end.col <= |endLine|
    ensures Numbers(EndCaretRow(d, endLine, end)) == ["|"]
  {
    var x := " " + endLine[..end.col - 1];
    assert EndCaretRow(d, endLine, end) == BlankGutter(d) + [Plain(x), Marker("^"), Plain("\n")];
    BlankGutterNumbers(d);
    SegmentsNumbers(BlankGutter(d), Plain(x), Marker("^"), Plain("\n"));
  }

  /**
   * The multi-line layout hands the number formatter the `|` of every row
   * and the padded numbers of the start and end lines, in row order; the
   * ellipsis row adds one `|` and no number.
   */
  lemma MultiLineNumbers(d: nat, startLine: string, start: Pos, endLine: string, end: Pos)
    requires start.col <= |startLine| && 1 <= end.col <= |endLine|
    ensures var (w1, w2) := (FormatWidth(start.line + 1, d), FormatWidth(end.line + 1, d));
      Numbers(Flatten(MultiLine(d, startLine, start, endLine, end)))
        == if AbsDiff(start.line, end.line) > 1 then ["|", w1, "|", "|", w2, "|", "|"] else ["|", w1, "|", w2, "|", "|"]
  {
    MultiLineCases(d, startLine, start, endLine, end);
    var (w1, w2) := (FormatWidth(start.line + 1, d), FormatWidth(end.line + 1, d));
    var (a, b) := (LeadInRow(d, startLine, start), StartRow(w1, startLine, start));
    var (c, e) := (EndRow(w2, endLine, end), EndCaretRow(d, endLine, end));
    LeadInRowNumbers(d, startLine, start);
    StartRowNumbers(w1, startLine, start);
    EndRowNumbers(w2, endLine, end);
    EndCaretRowNumbers(d, endLine, end);
    if AbsDiff(start.line, end.line) > 1 {
      EllipsisRowNumbers(d);
      FiveRowsNumbersOf(a, b, EllipsisRow(d), c, e, w1, w2);
    } else {
      FourRowsNumbersOf(a, b, c, e, w1, w2);
    }
  }

  lemma FourRowsNumbersOf(a: Row, b: Row, c: Row, e: Row, w1: string, w2: string)
    requires Numbers(a) == ["|"] && Numbers(b) == [w1, "|"] && Numbers(c) == [w2, "|"] && Numbers(e) == ["|"]
    ensures Numbers(Flatten([a, b, c, e])) == ["|", w1, "|", w2, "|", "|"]
  {
    FourRowsNumbers(a, b, c, e);
  }

  lemma FiveRowsNumbersOf(a: Row, b: Row, g: Row, c: Row, e: Row, w1: string, w2: string)
    requires Numbers(a) == ["|"] && Numbers(b) == [w1, "|"] && Numbers(g) == ["|"]
    requires Numbers(c) == [w2, "|"] && Numbers(e) == ["|"]
    ensures Numbers(Flatten([a, b, g, c, e])) == ["|", w1, "|", "|", w2, "|", "|"]
  {
    FiveRowsNumbers(a, b, g, c, e);
  }
}
