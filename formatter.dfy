/**
 * `display_snippet` (main/src/formatter.rs:139-205): resolve the span to
 * line/column positions, size the gutter for the end line's number, and
 * lay the snippet out on one line or across several.
 */
module Formatter {
  import opened Wrappers
  import opened Strings
  import opened Lines
  import opened Layout

  /**
   * The gutter-width loop (:179-187): one digit, plus one for every time
   * the number can still be divided by ten.
   */
  method IndexDigit(n: nat) returns (digit: nat)
    ensures digit == DigitCount(n)
    ensures n >= 1 ==> Pow10(digit - 1) <= n < Pow10(digit)
  {
    digit := 1;
    var i := n;
    while i >= 10
      invariant digit >= 1 && digit - 1 + DigitCount(i) == DigitCount(n)
    {
      digit := digit + 1;
      i := i / 10;
    }
    if n >= 1 {
      DigitCountBounds(n);
    }
  }

  /**
   * The rows `display_snippet` writes for the span `s..e` of the buffer
   * made of `lines`, or the error of the `unwrap` that panics. Both lines
   * are visualized before they are laid out, and the gutter is as wide as
   * the end line's number.
   */
  function Snippet(lines: seq<string>, s: nat, e: nat): (r: Result<seq<Row>, ResolveError>)
    requires s <= e
    ensures r.Err? ==> Resolve(lines, s, e) == Err(r.error)
    ensures r.Ok? ==> Resolve(lines, s, e).Ok? && 3 <= |r.value| <= 5
  {
    match Resolve(lines, s, e)
    case Err(err) => Err(err)
    case Ok((st, en)) =>
      ResolveColumns(lines, s, e);
      var d := DigitCount(en.line + 1);
      if st.line == en.line then
        Ok(SingleLine(d, VisualizeWhiteSpace(lines[st.line]), PosSpan(st.line, st.col, en.col)))
      else
        MultiLineShape(d, VisualizeWhiteSpace(lines[st.line]), st, VisualizeWhiteSpace(lines[en.line]), en);
        Ok(MultiLine(d, VisualizeWhiteSpace(lines[st.line]), st, VisualizeWhiteSpace(lines[en.line]), en))
  }

  /**
   * `display_snippet` with the writer modelled as the segment sequence it
   * receives: the scanning loops, the digit loop, and the layout chosen by
   * whether both ends are on the same line.
   */
  method DisplaySnippet(lines: seq<string>, s: nat, e: nat) returns (r: Result<Row, ResolveError>)
    requires s <= e
    ensures r.Err? <==> Snippet(lines, s, e).Err?
    ensures r.Err? ==> r.error == Snippet(lines, s, e).error
    ensures r.Ok? ==> r.value == Flatten(Snippet(lines, s, e).value)
  {
    var positions := ResolveSpan(lines, s, e);
    if positions.Err? {
      return Err(positions.error);
    }
    var (start, end) := positions.value;
    ResolveColumns(lines, s, e);
    var indexDigit := IndexDigit(end.line + 1);
    if start.line == end.line {
      SnippetSingle(lines, s, e);
      var curLine := VisualizeWhiteSpace(lines[start.line]);
      var span := PosSpan(start.line, start.col, end.col);
      r := Ok(Flatten(SingleLine(indexDigit, curLine, span)));
    } else {
      var startLine := VisualizeWhiteSpace(lines[start.line]);
      SnippetMulti(lines, s, e);
      var endLine := VisualizeWhiteSpace(lines[end.line]);
      r := Ok(Flatten(MultiLine(indexDigit, startLine, start, endLine, end)));
    }
  }

  // ----- Properties of the whole snippet -----

  /**
   * `display_snippet` panics exactly when there is no line or the span
   * ends past the buffer; it panics at the first `unwrap` exactly when the
   * start is past the buffer (or there is no line).
   */
  lemma SnippetFailsIff(lines: seq<string>, s: nat, e: nat)
    requires s <= e
    ensures Snippet(lines, s, e).Err? <==> |lines| == 0 || e > Total(lines)
    ensures Snippet(lines, s, e) == Err(StartNotFound) <==> |lines| == 0 || s > Total(lines)
    ensures Snippet(lines, s, e) == Err(EndNotFound) <==> |lines| > 0 && s <= Total(lines) < e
  {
    ResolveSucceedsIff(lines, s, e);
  }

  /** The end is never on an earlier line than the start, so `abs_diff` (:117) is a plain difference. */
  lemma LineDistance(lines: seq<string>, s: nat, e: nat)
    requires s <= e
    requires Resolve(lines, s, e).Ok?
    ensures var (st, en) := Resolve(lines, s, e).value;
      AbsDiff(st.line, en.line) == en.line - st.line
  {
  }

  /** On one line, the snippet is the single-line layout of the visualized line. */
  lemma SnippetSingle(lines: seq<string>, s: nat, e: nat)
    requires s <= e
    requires Resolve(lines, s, e).Ok?
    requires Resolve(lines, s, e).value.0.line == Resolve(lines, s, e).value.1.line
    ensures var (st, en) := Resolve(lines, s, e).value;
      && st.col <= en.col <= |VisualizeWhiteSpace(lines[st.line])|
      && en.col - st.col == e - s
      && Snippet(lines, s, e)
         == Ok(SingleLine(DigitCount(en.line + 1), VisualizeWhiteSpace(lines[st.line]), PosSpan(st.line, st.col, en.col)))
  {
    ResolveColumns(lines, s, e);
  }

  /** Across lines, the snippet is the multi-line layout of the two visualized lines. */
  lemma SnippetMulti(lines: seq<string>, s: nat, e: nat)
    requires s <= e
    requires Resolve(lines, s, e).Ok?
    requires Resolve(lines, s, e).value.0.line != Resolve(lines, s, e).value.1.line
    ensures var (st, en) := Resolve(lines, s, e).value;
      && st.line < en.line
      && st.col <= |VisualizeWhiteSpace(lines[st.line])|
      && 1 <= en.col <= |VisualizeWhiteSpace(lines[en.line])|
      && Snippet(lines, s, e)
         == Ok(MultiLine(DigitCount(en.line + 1), VisualizeWhiteSpace(lines[st.line]), st, VisualizeWhiteSpace(lines[en.line]), en))
  {
    ResolveColumns(lines, s, e);
  }

  /**
   * The snippet has three rows exactly when the span ends within its start
   * line, five exactly when at least one whole line lies between its start
   * line and its end line, and four otherwise; the `...` row is present
   * exactly in the five-row case.
   */
  lemma SnippetShape(lines: seq<string>, s: nat, e: nat)
    requires s <= e
    requires Snippet(lines, s, e).Ok?
    ensures var (st, en) := Resolve(lines, s, e).value;
      var rows := Snippet(lines, s, e).value;
      && (|rows| == 3 <==> e <= LineEnd(lines, st.line))
      && (|rows| == 3 <==> st.line == en.line)
      && (|rows| == 5 <==> en.line - st.line > 1)
      && (EllipsisRow(DigitCount(en.line + 1)) in rows <==> en.line - st.line > 1)
  {
    var (st, en) := Resolve(lines, s, e).value;
    ResolveSingleLineIff(lines, s, e);
    var d := DigitCount(en.line + 1);
    if st.line != en.line {
      SnippetMulti(lines, s, e);
      MultiLineShape(d, VisualizeWhiteSpace(lines[st.line]), st, VisualizeWhiteSpace(lines[en.line]), en);
    } else {
      SnippetSingle(lines, s, e);
      SingleLineHasNoEllipsis(d, VisualizeWhiteSpace(lines[st.line]), PosSpan(st.line, st.col, en.col));
    }
  }

  /**
   * Every row of the snippet is aligned on a gutter exactly as wide as the
   * end line's number (and so at least as wide as the start line's), holds
   * no line feed but its last character, and so the text has one line feed
   * per row.
   */
  lemma SnippetAligned(lines: seq<string>, s: nat, e: nat, st: Pos, en: Pos)
    requires s <= e && Resolve(lines, s, e) == Ok((st, en))
    ensures Snippet(lines, s, e).Ok?
    ensures var rows := Snippet(lines, s, e).value;
      && (forall r :: 0 <= r < |rows| ==> WellFormed(rows[r], DigitCount(en.line + 1)))
      && Count(RowText(Flatten(rows)), '\n') == |rows|
  {
    var (d, first) := (DigitCount(en.line + 1), VisualizeWhiteSpace(lines[st.line]));
    if e <= LineEnd(lines, st.line) {
      var ps := PosSpan(st.line, st.col, en.col);
      assert st.line == en.line && st.col <= en.col <= |first| && Snippet(lines, s, e) == Ok(SingleLine(d, first, ps)) by {
        SingleLineSnippetAt(lines, s, e, st, en);
      }
      SingleLineRows(d, first, ps);
    } else {
      var last := VisualizeWhiteSpace(lines[en.line]);
      assert st.line < en.line && st.col <= |first| && 1 <= en.col <= |last|
        && Snippet(lines, s, e) == Ok(MultiLine(d, first, st, last, en)) by {
        ResolveSingleLineIff(lines, s, e);
        SnippetMulti(lines, s, e);
      }
      DigitCountMonotone(st.line + 1, en.line + 1);
      MultiLineRows(d, first, st, last, en);
    }
  }

  /**
   * On one line, the span formatter receives the visualized bytes `s..e`
   * of the line and the marker formatter one `^` per highlighted byte, as
   * many as the span is long; an empty span gets an empty marker.
   */
  lemma SingleLineSnippetMarkers(lines: seq<string>, s: nat, e: nat, st: Pos, en: Pos)
    requires s <= e && Resolve(lines, s, e) == Ok((st, en))
    requires e <= LineEnd(lines, st.line)
    ensures st.line == en.line && st.col <= en.col <= |VisualizeWhiteSpace(lines[st.line])|
    ensures Snippet(lines, s, e).Ok?
    ensures Spans(Flatten(Snippet(lines, s, e).value)) == [VisualizeWhiteSpace(lines[st.line])[st.col..en.col]]
    ensures Markers(Flatten(Snippet(lines, s, e).value)) == [Repeat('^', e - s)]
    ensures |VisualizeWhiteSpace(lines[st.line])[st.col..en.col]| == |Repeat('^', e - s)| == e - s
  {
    var (d, line, ps) := (DigitCount(en.line + 1), VisualizeWhiteSpace(lines[st.line]), PosSpan(st.line, st.col, en.col));
    SingleLineSnippetAt(lines, s, e, st, en);
    SingleLineMarkersOf(Snippet(lines, s, e).value, d, line, ps, e - s);
  }

  /**
   * A span that ends within its start line is laid out on that one line,
   * between columns as far apart as the span is long.
   */
  lemma SingleLineSnippetAt(lines: seq<string>, s: nat, e: nat, st: Pos, en: Pos)
    requires s <= e && Resolve(lines, s, e) == Ok((st, en))
    requires e <= LineEnd(lines, st.line)
    ensures st.line == en.line && st.col <= en.col <= |VisualizeWhiteSpace(lines[st.line])| && en.col - st.col == e - s
    ensures Snippet(lines, s, e)
      == Ok(SingleLine(DigitCount(en.line + 1), VisualizeWhiteSpace(lines[st.line]), PosSpan(st.line, st.col, en.col)))
  {
    ResolveSingleLineIff(lines, s, e);
    SnippetSingle(lines, s, e);
  }

  /** `SingleLineMarkers` for rows known to be a single-line layout, with the caret count named. */
  lemma SingleLineMarkersOf(rows: seq<Row>, d: nat, line: string, ps: PosSpan, n: nat)
    requires ps.colStart <= ps.colEnd <= |line| && n == ps.colEnd - ps.colStart
    requires rows == SingleLine(d, line, ps)
    ensures Spans(Flatten(rows)) == [line[ps.colStart..ps.colEnd]]
    ensures Markers(Flatten(rows)) == [Repeat('^', n)]
    ensures |line[ps.colStart..ps.colEnd]| == |Repeat('^', n)| == n
  {
    SingleLineMarkers(d, line, ps);
  }

  /**
   * Across lines, the marker formatter receives one `v` and then one `^`,
   * and the span formatter the visualized start line from the start column
   * on and the visualized end line up to the end column.
   */
  lemma MultiLineSnippetMarkers(lines: seq<string>, s: nat, e: nat, st: Pos, en: Pos)
    requires s <= e && Resolve(lines, s, e) == Ok((st, en))
    requires e > LineEnd(lines, st.line)
    ensures st.line < en.line
    ensures st.col <= |VisualizeWhiteSpace(lines[st.line])| && 1 <= en.col <= |VisualizeWhiteSpace(lines[en.line])|
    ensures Snippet(lines, s, e).Ok?
    ensures Markers(Flatten(Snippet(lines, s, e).value)) == ["v", "^"]
    ensures Spans(Flatten(Snippet(lines, s, e).value))
      == [VisualizeWhiteSpace(lines[st.line])[st.col..], VisualizeWhiteSpace(lines[en.line])[..en.col]]
  {
    assert st.line != en.line by {
      ResolveSingleLineIff(lines, s, e);
    }
    var (d, first, last) := (DigitCount(en.line + 1), VisualizeWhiteSpace(lines[st.line]), VisualizeWhiteSpace(lines[en.line]));
    assert st.line < en.line && st.col <= |first| && 1 <= en.col <= |last|
      && Snippet(lines, s, e) == Ok(MultiLine(d, first, st, last, en)) by {
      SnippetMulti(lines, s, e);
    }
    MultiLineMarkers(d, first, st, last, en);
  }

  /**
   * The number formatter receives the `|` of every row and, padded to the
   * gutter's width, the numbers of the lines shown: the start line's on one
   * line; the start and end lines' across lines, with one more `|` for the
   * `...` row.
   */
  lemma SnippetNumbers(lines: seq<string>, s: nat, e: nat, st: Pos, en: Pos)
    requires s <= e && Resolve(lines, s, e) == Ok((st, en))
    ensures Snippet(lines, s, e).Ok?
    ensures var d := DigitCount(en.line + 1);
      var (w1, w2) := (FormatWidth(st.line + 1, d), FormatWidth(en.line + 1, d));
      Numbers(Flatten(Snippet(lines, s, e).value))
        == if st.line == en.line then ["|", w1, "|", "|"]
           else if en.line - st.line > 1 then ["|", w1, "|", "|", w2, "|", "|"]
           else ["|", w1, "|", w2, "|", "|"]
  {
    var (d, first) := (DigitCount(en.line + 1), VisualizeWhiteSpace(lines[st.line]));
    if e <= LineEnd(lines, st.line) {
      var ps := PosSpan(st.line, st.col, en.col);
      assert st.line == en.line && st.col <= en.col <= |first| && Snippet(lines, s, e) == Ok(SingleLine(d, first, ps)) by {
        SingleLineSnippetAt(lines, s, e, st, en);
      }
      SingleLineNumbers(d, first, ps);
    } else {
      var last := VisualizeWhiteSpace(lines[en.line]);
      assert st.line < en.line && st.col <= |first| && 1 <= en.col <= |last|
        && Snippet(lines, s, e) == Ok(MultiLine(d, first, st, last, en)) by {
        ResolveSingleLineIff(lines, s, e);
        SnippetMulti(lines, s, e);
      }
      MultiLineNumbers(d, first, st, last, en);
    }
  }

  /** An empty span is always shown on one line, with no caret under it. */
  lemma EmptySpanSnippet(lines: seq<string>, s: nat)
    requires Snippet(lines, s, s).Ok?
    ensures |Snippet(lines, s, s).value| == 3
    ensures Markers(Flatten(Snippet(lines, s, s).value)) == [""]
  {
    var (st, en) := Resolve(lines, s, s).value;
    assert s <= LineEnd(lines, st.line);
    SingleLineSnippetMarkers(lines, s, s, st, en);
    SnippetShape(lines, s, s);
  }

  /** A span inside the first line is laid out on one line with a one-digit gutter. */
  lemma FirstLineSnippet(lines: seq<string>, s: nat, e: nat)
    requires |lines| > 0 && s <= e <= |lines[0]|
    ensures Snippet(lines, s, e) == Ok(SingleLine(1, VisualizeWhiteSpace(lines[0]), PosSpan(0, s, e)))
  {
    ResolveWithinFirstLine(lines, s, e);
    SnippetSingle(lines, s, e);
    assert DigitCount(1) == 1;
  }

  /**
   * Positions on two different lines with the defining property of the
   * scans give the multi-line layout of those two lines.
   */
  lemma MultiLineSnippetAt(lines: seq<string>, s: nat, e: nat, st: Pos, en: Pos)
    requires s <= e && st.line < en.line
    requires Resolves(lines, 0, s, st) && Resolves(lines, st.line, e, en)
    ensures st.col <= |VisualizeWhiteSpace(lines[st.line])| && 1 <= en.col <= |VisualizeWhiteSpace(lines[en.line])|
    ensures Snippet(lines, s, e)
      == Ok(MultiLine(DigitCount(en.line + 1), VisualizeWhiteSpace(lines[st.line]), st, VisualizeWhiteSpace(lines[en.line]), en))
  {
    ResolveComplete(lines, s, e, st, en);
    SnippetMulti(lines, s, e);
  }

  /** The three row texts of the example, put together. */
  lemma SingleLineExampleConcat(spacer: string, number: string, carets: string, line: string)
    requires spacer == " " && number == "1" && carets == "^" && line == "ab\U{240A}"
    ensures spacer + " |" + "\n" + ((number + " |" + (" " + line + "\n"))
      + (spacer + " |" + (" " + line[..0] + carets + "\n"))) == "  |\n1 | ab\U{240A}\n  | ^\n"
  {
    assert line[..0] == "";
  }

  /** The text of those rows with the default formatters. */
  lemma SingleLineExampleText(line: string)
    requires line == "ab\U{240A}"
    ensures RowText(Flatten(SingleLine(1, line, PosSpan(0, 0, 1)))) == "  |\n1 | ab\U{240A}\n  | ^\n"
  {
    SingleLineText(1, line, PosSpan(0, 0, 1));
    assert Repeat(' ', 1) == " " && FormatWidth(1, 1) == "1" && Repeat('^', 1) == "^";
    SingleLineExampleConcat(Repeat(' ', 1), FormatWidth(1, 1), Repeat('^', 1), line);
  }

  /**
   * The one-byte span `a` of the buffer "ab\n", printed with the default
   * formatters: the line feed shows as its glyph and one caret stands
   * under `a`.
   */
  lemma SingleLineExample(lines: seq<string>)
    requires |lines| == 1 && lines[0] == "ab\n"
    ensures Snippet(lines, 0, 1).Ok?
    ensures RowText(Flatten(Snippet(lines, 0, 1).value)) == "  |\n1 | ab\U{240A}\n  | ^\n"
  {
    var line := VisualizeWhiteSpace(lines[0]);
    assert line == "ab\U{240A}" by {
      VisualizeTerminatedLine(lines[0], "ab");
    }
    assert Snippet(lines, 0, 1) == Ok(SingleLine(1, line, PosSpan(0, 0, 1))) by {
      FirstLineSnippet(lines, 0, 1);
    }
    SingleLineExampleText(line);
  }

  /** Bytes 1..4 of "hello\nworld\n" are `ell` on line 1, marked by three carets. */
  lemma HelloExample(lines: seq<string>)
    requires |lines| == 2 && lines[0] == "hello\n" && lines[1] == "world\n"
    ensures Snippet(lines, 1, 4).Ok?
    ensures |Snippet(lines, 1, 4).value| == 3
    ensures Spans(Flatten(Snippet(lines, 1, 4).value)) == ["ell"]
    ensures Markers(Flatten(Snippet(lines, 1, 4).value)) == ["^^^"]
  {
    var line := VisualizeWhiteSpace(lines[0]);
    HelloLine(lines[0], line);
    FirstLineSnippet(lines, 1, 4);
    HelloMarks(line);
  }

  /** The span and marker texts of the single-line layout of the visualized "hello\n". */
  lemma HelloMarks(line: string)
    requires |line| == 6 && line[1..4] == "ell"
    ensures Spans(Flatten(SingleLine(1, line, PosSpan(0, 1, 4)))) == ["ell"]
    ensures Markers(Flatten(SingleLine(1, line, PosSpan(0, 1, 4)))) == ["^^^"]
  {
    SingleLineMarkers(1, line, PosSpan(0, 1, 4));
    assert Repeat('^', 3) == "^^^";
  }

  lemma HelloLine(raw: string, line: string)
    requires raw == "hello\n" && line == VisualizeWhiteSpace(raw)
    ensures |raw| == 6 && line[1..4] == "ell"
  {
    VisualizeTerminatedLine(raw, "hello");
    assert line[1..4] == ("hello" + [LineFeedGlyph])[1..4] == "ell";
  }

  /** The two lines of a multi-line example, visualized: the first whole, the last up to column 1. */
  lemma EndLinesOfExample(raw1: string, raw2: string, first: string, last: string, a: char, b: char)
    requires raw1 == [a, '\n'] && raw2 == [b, '\n'] && a !in "\r\n" && b !in "\r\n"
    requires first == VisualizeWhiteSpace(raw1) && last == VisualizeWhiteSpace(raw2)
    ensures |first| == 2 && 1 <= |last|
    ensures first[0..] == [a, LineFeedGlyph] && last[..1] == [b]
  {
    VisualizeTerminatedLine(raw1, [a]);
    VisualizeTerminatedLine(raw2, [b]);
  }

  lemma ElidedResolves(lines: seq<string>)
    requires |lines| == 4 && lines[0] == "a\n" && lines[1] == "b\n" && lines[2] == "c\n" && lines[3] == "d\n"
    ensures Resolves(lines, 0, 0, Pos(0, 0)) && Resolves(lines, 0, 7, Pos(3, 1))
  {
    assert LineStart(lines, 1) == 2 && LineStart(lines, 2) == 4 && LineStart(lines, 3) == 6;
    assert LineEnd(lines, 0) == 2 && LineEnd(lines, 1) == 4 && LineEnd(lines, 2) == 6;
  }

  /** From line `a` into line `d` of "a\nb\nc\nd\n": two lines are elided behind `...`. */
  lemma ElidedExample(lines: seq<string>)
    requires |lines| == 4 && lines[0] == "a\n" && lines[1] == "b\n" && lines[2] == "c\n" && lines[3] == "d\n"
    ensures Snippet(lines, 0, 7).Ok?
    ensures |Snippet(lines, 0, 7).value| == 5
    ensures EllipsisRow(1) in Snippet(lines, 0, 7).value
    ensures Markers(Flatten(Snippet(lines, 0, 7).value)) == ["v", "^"]
    ensures Spans(Flatten(Snippet(lines, 0, 7).value)) == ["a\U{240A}", "d"]
  {
    var (st, en) := (Pos(0, 0), Pos(3, 1));
    var (first, last) := (VisualizeWhiteSpace(lines[0]), VisualizeWhiteSpace(lines[3]));
    assert first[0..] == "a\U{240A}" && last[..1] == "d" && 1 <= |last| by {
      EndLinesOfExample(lines[0], lines[3], first, last, 'a', 'd');
    }
    var rows := MultiLine(1, first, st, last, en);
    assert Snippet(lines, 0, 7) == Ok(rows) by {
      ElidedResolves(lines);
      MultiLineSnippetAt(lines, 0, 7, st, en);
      assert DigitCount(4) == 1;
    }
    MultiLineShape(1, first, st, last, en);
    MultiLineMarkers(1, first, st, last, en);
  }

  lemma AdjacentResolves(lines: seq<string>)
    requires |lines| == 2 && lines[0] == "x\n" && lines[1] == "y\n"
    ensures Resolves(lines, 0, 0, Pos(0, 0)) && Resolves(lines, 0, 3, Pos(1, 1))
  {
    assert LineStart(lines, 1) == 2 && LineEnd(lines, 0) == 2;
  }

  /** From line `x` into the adjacent line `y` of "x\ny\n": four rows and no `...`. */
  lemma AdjacentExample(lines: seq<string>)
    requires |lines| == 2 && lines[0] == "x\n" && lines[1] == "y\n"
    ensures Snippet(lines, 0, 3).Ok?
    ensures |Snippet(lines, 0, 3).value| == 4
    ensures EllipsisRow(1) !in Snippet(lines, 0, 3).value
    ensures Markers(Flatten(Snippet(lines, 0, 3).value)) == ["v", "^"]
    ensures Spans(Flatten(Snippet(lines, 0, 3).value)) == ["x\U{240A}", "y"]
  {
    var (st, en) := (Pos(0, 0), Pos(1, 1));
    var (first, last) := (VisualizeWhiteSpace(lines[0]), VisualizeWhiteSpace(lines[1]));
    assert first[0..] == "x\U{240A}" && last[..1] == "y" && 1 <= |last| by {
      EndLinesOfExample(lines[0], lines[1], first, last, 'x', 'y');
    }
    var rows := MultiLine(1, first, st, last, en);
    assert Snippet(lines, 0, 3) == Ok(rows) by {
      AdjacentResolves(lines);
      MultiLineSnippetAt(lines, 0, 3, st, en);
      assert DigitCount(2) == 1;
    }
    MultiLineShape(1, first, st, last, en);
    MultiLineMarkers(1, first, st, last, en);
  }
}
