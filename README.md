# Snippet formatter model

This project models the diagnostic snippet formatter of pest-typed
(`main/src/formatter.rs`). Given a byte range of a text buffer, the formatter
renders a block like this:

```
  |
1 | ab␊
  | ^
```

The block has a gutter holding the line numbers and a `|` separator. It shows
the source line or lines with the span styled, then caret (`^`) or arrow (`v`)
marker rows. Every piece of text is written either plainly or through one of
three caller-supplied formatter callbacks (span, marker, number).

The model has five modules:

- `Wrappers` holds the `Option` and `Result` types.
- `Strings` models `str::repeat`, `visualize_white_space` and the `{:w$}`
  right-aligned decimal rendering of line numbers.
- `Lines` models the resolution of byte offsets to `(line, col)` positions.
  The buffer is given as its lines, each with its terminator. Resolution is
  both a specification function (`Resolve`) and the scanning loops of
  `display_snippet` (`ResolveSpan`), which are proved equal to it.
- `Layout` models the output as rows of tagged segments: `Plain`, `Span`,
  `Marker` and `Number`. A tag says which callback, if any, receives the text.
  `RowText` is the text printed with the default (identity) callbacks, and
  `Render` is the text printed under arbitrary callbacks. `Spans`, `Markers`
  and `Numbers` list the texts each callback receives. `SingleLine` and
  `MultiLine` are the two layouts. The numbered rows take the padded line
  number as a string, as the source computes it into `number` first (:72,
  :109, :123).
- `Formatter` models the gutter-width loop (`IndexDigit`) and the whole
  `display_snippet`. `Snippet` is the specification function and
  `DisplaySnippet` is the method that runs the loops.

A panicking `unwrap` is an `Err` result. `StartNotFound` stands for the panic
at :172 and `EndNotFound` for the one at :173. The span's own invariant
`start <= end` is a precondition.

Behaviour worth knowing, all proved below:

- The end search resumes at the start line itself, so the end is never on an
  earlier line than the start.
- An offset exactly at the end of a non-empty line resolves to the end of
  that line, not to column 0 of the next line. When that line ends in LF, as
  every line but the last does, the source then panics while slicing the
  visualized line; the model does not capture that panic (see "Left out").
- An empty span renders on one line with an empty caret marker. The
  exception is an empty span at the first byte of a later line: the source
  panics there for the reason just given.
- The single-line caret row repeats the line's text up to the start column
  before the carets; it does not use spaces. The multi-line `v` row does the
  same.
- The multi-line start row shows the whole start line, with the part before
  the start column written plainly.

## Model

| member | source | states |
|---|---|---|
| Strings.Repeat | main/src/formatter.rs:67 | `" ".repeat(n)` has length `n` and every character is the repeated one |
| Strings.Replace | main/src/formatter.rs:53 | `replace` keeps the length and swaps exactly the occurrences of the pattern character |
| Strings.VisualizeWhiteSpace | main/src/formatter.rs:50-54 | each character is shown as `VisibleChar` (LF as U+240A, CR as U+240D, all else unchanged); same length; no CR or LF remains |
| Strings.VisualizeIdempotent | main/src/formatter.rs:50-54 | visualizing twice is the same as visualizing once |
| Strings.VisualizeKeepsPlainLine | main/src/formatter.rs:50-54 | a line without CR or LF is shown unchanged |
| Strings.VisualizeTerminatedLine | main/src/formatter.rs:50-54 | a line ended by its only LF is shown as its text followed by the LF glyph |
| Strings.DigitCountBounds | main/src/formatter.rs:179-187 | for `n >= 1` the digit count `d` satisfies `10^(d-1) <= n < 10^d` |
| Strings.DigitCountMonotone | main/src/formatter.rs:179-187 | a smaller number never has more digits, so the start line number fits the end line's gutter |
| Strings.DecimalString | main/src/formatter.rs:72 | the decimal rendering has exactly `DigitCount(n)` characters, all digits |
| Strings.DecimalRoundTrip | main/src/formatter.rs:72 | reading the rendering back gives the number |
| Strings.DecimalNoLeadingZero | main/src/formatter.rs:72 | a positive number's rendering does not start with `0` |
| Strings.DigitCount | main/src/formatter.rs:179-187 | the gutter width; `DigitCountBounds` and `DigitCountMonotone` characterize it |
| Strings.PadLeft | main/src/formatter.rs:72 | `{:w$}` right alignment of a string; `PadLeftShape` characterizes it |
| Strings.PadLeftShape | main/src/formatter.rs:72 | padding gives `max(w, |s|)` characters: spaces, then `s` itself |
| Strings.PadLeftDigits | main/src/formatter.rs:72 | padding a digit string to a width it fits in gives exactly that width, spaces then digits |
| Strings.FormatWidth | main/src/formatter.rs:72 | `format!("{:w$}", n, w = w)`, also used at :109 and :123: the decimal rendering padded by `PadLeft`; `FormatWidthFits` gives its width and characters |
| Strings.FormatWidthFits | main/src/formatter.rs:109 | a line number with at most `w` digits renders to exactly `w` characters, each a space or a digit |
| Lines.ConcatLayout | main/src/formatter.rs:149-150 | the first `k` lines make up the first `LineStart(k)` bytes of the buffer |
| Lines.OffsetInBuffer | main/src/formatter.rs:149-150 | byte `col` of line `k` is byte `LineStart(k) + col` of the buffer |
| Lines.FirstReaching | main/src/formatter.rs:151-161 | the line found is the first one at or after the given line whose end reaches the offset, or none |
| Lines.FirstReachingUnique | main/src/formatter.rs:151-161 | that line is determined by its defining property |
| Lines.Resolve | main/src/formatter.rs:146-173 | on success, the start resolves from line 0 and the end from the start line, per `Resolves` |
| Lines.ResolveSpan | main/src/formatter.rs:146-173 | the two scanning loops, sharing one line index as the peekable iterator does, compute exactly `Resolve` |
| Lines.ResolveSucceedsIff | main/src/formatter.rs:172-173 | both unwraps succeed iff there is a line and `end <= Total`; the first fails iff there is no line or `start > Total` |
| Lines.ResolveRoundTrip | main/src/formatter.rs:151-171 | `LineStart(line) + col` gives back each offset; columns are within their lines; `start.line <= end.line` |
| Lines.ResolveAgreesWithBuffer | main/src/formatter.rs:149-171 | a resolved position inside its line names the same byte of the buffer as the offset |
| Lines.SpanInBufferResolves | main/src/formatter.rs:149-173 | a span within a non-empty buffer, split into its lines, always resolves |
| Lines.ResolveColumns | main/src/formatter.rs:162-171 | on one line `start.col <= end.col` (so `col_end - col_start` at :84 cannot underflow); across lines `end.col >= 1` (so `col - 1` at :133 cannot underflow) |
| Lines.ResolveSingleLineIff | main/src/formatter.rs:188 | both ends are on one line iff the span ends within the start line |
| Lines.ResolveComplete | main/src/formatter.rs:146-173 | conversely, positions with the defining property are exactly what the scan returns |
| Lines.ResolveWithinFirstLine | main/src/formatter.rs:151-171 | offsets within the first line resolve to line 0 with the offsets as columns |
| Lines.BoundaryResolvesToEarlierLine | main/src/formatter.rs:152-156 | an offset on the boundary after a non-empty line resolves to that line's end |
| Lines.ResolvesUnique | main/src/formatter.rs:151-171 | a resolved position is unique |
| Layout.DefaultOption | main/src/formatter.rs:25-33 | the default callbacks write their text unchanged; `RenderDefault` states what that prints |
| Layout.Styled | main/src/formatter.rs:37-49 | a plain write prints its text; a styled one prints what its callback makes of it |
| Layout.Render | main/src/formatter.rs:37-49 | the text written under the given callbacks; characterized by `RenderAppend`, `RenderDefault` and `RenderPlainRow` |
| Layout.RenderAppend | main/src/formatter.rs:66-87 | writes made one after another print one after another |
| Layout.RenderDefault | main/src/formatter.rs:25-33 | with the default callbacks the output is the plain text of the segments |
| Layout.RenderPlainRow | main/src/formatter.rs:76-78 | plain writes are printed the same under any callbacks |
| Layout.BlankGutter | main/src/formatter.rs:67-69 | `d` spaces, a space and `|` sent to the number callback; see `BlankGutterText`, `BlankGutterMarkers`, `BlankGutterNumbers` |
| Layout.NumberGutter | main/src/formatter.rs:73-75 | the padded number and `|`, each sent to the number callback; see `NumberGutterText`, `NumberGutterMarkers`, `NumberGutterNumbers` |
| Layout.BlankGutterText | main/src/formatter.rs:67-69 | the blank gutter prints `d` spaces then ` |` |
| Layout.NumberGutterText | main/src/formatter.rs:73-75 | the numbered gutter prints the padded number then ` |` |
| Layout.SpacerRow | main/src/formatter.rs:67-70 | the first single-line row; see `SpacerRowText`, `SpacerRowWellFormed`, `SpacerRowMarkers`, `SpacerRowNumbers` |
| Layout.SourceRow | main/src/formatter.rs:72-79 | the numbered source row; see `SourceRowText`, `SourceRowWellFormed`, `SourceRowMarkers`, `SourceRowNumbers` |
| Layout.CaretRow | main/src/formatter.rs:81-85 | the caret row; see `CaretRowText`, `CaretRowWellFormed`, `CaretRowMarkers`, `CaretRowNumbers` |
| Layout.LeadInRow | main/src/formatter.rs:102-107 | the `v` row; see `LeadInRowText`, `LeadInRowWellFormed`, `LeadInRowMarkers`, `LeadInRowPlaced`, `LeadInRowNumbers` |
| Layout.StartRow | main/src/formatter.rs:109-115 | the numbered start row; see `StartRowText`, `StartRowWellFormed`, `StartRowMarkers`, `StartRowPlaced`, `StartRowNumbers` |
| Layout.EllipsisRow | main/src/formatter.rs:117-121 | the `...` row; see `EllipsisRowText`, `EllipsisRowWellFormed`, `EllipsisRowMarkers`, `EllipsisRowNumbers` |
| Layout.EndRow | main/src/formatter.rs:123-129 | the numbered end row; see `EndRowText`, `EndRowWellFormed`, `EndRowMarkers`, `EndRowPlaced`, `EndRowNumbers` |
| Layout.EndCaretRow | main/src/formatter.rs:131-135 | the `^` row; see `EndCaretRowText`, `EndCaretRowWellFormed`, `EndCaretRowMarkers`, `EndCaretRowPlaced`, `EndCaretRowNumbers` |
| Layout.AbsDiff | main/src/formatter.rs:117 | `usize::abs_diff`; `Formatter.LineDistance` shows it is `end.line - start.line` for a resolved span |
| Layout.SingleLine | main/src/formatter.rs:55-88 | `display_snippet_single_line`; see `SingleLineRows`, `SingleLineText`, `SingleLineMarkers`, `SingleLineNumbers`, `SingleLineCaretsUnderSpan` |
| Layout.MultiLine | main/src/formatter.rs:89-138 | `display_snippet_multi_line`; see `MultiLineShape`, `MultiLineRows`, `MultiLineMarkers`, `MultiLineNumbers`, `MultiLineStartMarked`, `MultiLineEndMarked` |
| Layout.LineFeedCount | main/src/formatter.rs:70 | rows that each end in their only line feed print one line feed per row |
| Layout.SpacerRowText | main/src/formatter.rs:67-70 | the spacer row is `d` spaces, ` |`, line feed |
| Layout.SourceRowText | main/src/formatter.rs:72-79 | the source row is the padded number, ` | `, the whole line (prefix, span, suffix) and a line feed |
| Layout.CaretRowText | main/src/formatter.rs:81-85 | the caret row is the blank gutter, the line's prefix text, `col_end - col_start` carets and a line feed |
| Layout.LeadInRowText | main/src/formatter.rs:102-107 | the `v` row is the blank gutter, the start line's prefix and `v` |
| Layout.StartRowText | main/src/formatter.rs:109-115 | the start row shows the whole start line after the padded number |
| Layout.EllipsisRowText | main/src/formatter.rs:117-121 | the ellipsis row is the blank gutter and ` ...` |
| Layout.EndRowText | main/src/formatter.rs:123-129 | the end row shows the whole end line after the padded number |
| Layout.EndCaretRowText | main/src/formatter.rs:131-135 | the `^` row is the blank gutter, the end line before its last highlighted byte, and `^` |
| Layout.SpacerRowWellFormed | main/src/formatter.rs:67-70 | the row is aligned on a `d`-wide gutter and ends in its only line feed |
| Layout.SourceRowWellFormed | main/src/formatter.rs:72-79 | likewise, given a number padded to `d` characters of spaces and digits |
| Layout.CaretRowWellFormed | main/src/formatter.rs:81-85 | likewise |
| Layout.LeadInRowWellFormed | main/src/formatter.rs:102-107 | likewise |
| Layout.StartRowWellFormed | main/src/formatter.rs:109-115 | likewise, given a padded number |
| Layout.EllipsisRowWellFormed | main/src/formatter.rs:117-121 | likewise |
| Layout.EndRowWellFormed | main/src/formatter.rs:123-129 | likewise, given a padded number |
| Layout.EndCaretRowWellFormed | main/src/formatter.rs:131-135 | likewise |
| Layout.SpacerRowMarkers | main/src/formatter.rs:67-70 | the spacer row has no marker or span segment |
| Layout.SourceRowMarkers | main/src/formatter.rs:72-79 | the source row's only span segment is `line[col_start..col_end]`; it has no marker |
| Layout.CaretRowMarkers | main/src/formatter.rs:81-85 | the caret row's only marker is `col_end - col_start` carets; it has no span |
| Layout.LeadInRowMarkers | main/src/formatter.rs:102-107 | the `v` row's only marker is `v` |
| Layout.StartRowMarkers | main/src/formatter.rs:109-115 | the start row's only span is `start[col..]` |
| Layout.EllipsisRowMarkers | main/src/formatter.rs:117-121 | the ellipsis row has no marker or span |
| Layout.EndRowMarkers | main/src/formatter.rs:123-129 | the end row's only span is `end[..col]` |
| Layout.EndCaretRowMarkers | main/src/formatter.rs:131-135 | the `^` row's only marker is `^` |
| Layout.SingleLineRows | main/src/formatter.rs:55-88 | three rows, all aligned on the gutter, so exactly three line feeds |
| Layout.SingleLineText | main/src/formatter.rs:55-88 | the full printed text of the single-line layout |
| Layout.SingleLineHasNoEllipsis | main/src/formatter.rs:55-88 | the single-line layout has no `...` row |
| Layout.SingleLineCaretsUnderSpan | main/src/formatter.rs:72-85 | each caret stands in the column of the source row that holds a highlighted byte |
| Layout.CaretsUnderSpan | main/src/formatter.rs:72-85 | given the source and caret row texts, the caret row is `d + 4 + col_end` long and carets stand exactly where the source row holds bytes `col_start..col_end` |
| Layout.SingleLineMarkers | main/src/formatter.rs:76-84 | the span callback gets exactly the highlighted bytes, and the marker callback gets one `^` per byte |
| Layout.MultiLineShape | main/src/formatter.rs:117-121 | the `...` row is present iff the lines are more than one apart, so 4 or 5 rows |
| Layout.MultiLineRowsWellFormed | main/src/formatter.rs:89-138 | every multi-line row is aligned on the gutter and ends in its only line feed |
| Layout.MultiLineRows | main/src/formatter.rs:89-138 | the multi-line text has one line feed per row |
| Layout.MultiLineMarkers | main/src/formatter.rs:102-135 | markers are exactly `v` then `^`; spans are `start[col..]` then `end[..col]` |
| Layout.MultiLineEnds | main/src/formatter.rs:89-138 | the layout opens with the `v` row and the start row and closes with the end row and the `^` row |
| Layout.LeadInRowPlaced | main/src/formatter.rs:102-107 | the `v` is at text index `d + 3 + start.col` |
| Layout.StartRowPlaced | main/src/formatter.rs:109-115 | with a `d`-character number, the start row holds the first highlighted byte at that same index |
| Layout.EndRowPlaced | main/src/formatter.rs:123-129 | with a `d`-character number, the end row holds the last highlighted byte at index `d + 2 + end.col` |
| Layout.EndCaretRowPlaced | main/src/formatter.rs:131-135 | the `^` is at that same index |
| Layout.MultiLineStartMarked | main/src/formatter.rs:102-115 | the `v` stands directly above the first highlighted byte |
| Layout.MultiLineEndMarked | main/src/formatter.rs:123-135 | the `^` stands directly below the last highlighted byte |
| Layout.FormatWidthPadded | main/src/formatter.rs:72 | a line number that fits the gutter width renders as a padded number of exactly that width |
| Layout.BlankGutterNumbers | main/src/formatter.rs:69 | the blank gutter hands the number callback only `|` |
| Layout.NumberGutterNumbers | main/src/formatter.rs:73-75 | the numbered gutter hands it the padded number, then `|` |
| Layout.SpacerRowNumbers | main/src/formatter.rs:67-70 | the spacer row hands the number callback only `|` |
| Layout.SourceRowNumbers | main/src/formatter.rs:72-79 | the source row hands it the padded number, then `|` |
| Layout.CaretRowNumbers | main/src/formatter.rs:81-85 | the caret row hands it only `|` |
| Layout.LeadInRowNumbers | main/src/formatter.rs:102-107 | the `v` row hands it only `|` |
| Layout.StartRowNumbers | main/src/formatter.rs:109-115 | the start row hands it the padded start line number, then `|` |
| Layout.EllipsisRowNumbers | main/src/formatter.rs:117-121 | the `...` row hands it only `|` |
| Layout.EndRowNumbers | main/src/formatter.rs:123-129 | the end row hands it the padded end line number, then `|` |
| Layout.EndCaretRowNumbers | main/src/formatter.rs:131-135 | the `^` row hands it only `|` |
| Layout.SingleLineNumbers | main/src/formatter.rs:55-88 | the number callback receives exactly `|`, the padded line number, `|`, `|` |
| Layout.MultiLineNumbers | main/src/formatter.rs:89-138 | it receives `|`, the padded start number, `|`, one more `|` for the `...` row when present, the padded end number, `|`, `|` |
| Formatter.IndexDigit | main/src/formatter.rs:179-187 | the loop computes the digit count `d` of its input, with `10^(d-1) <= n < 10^d` |
| Formatter.Snippet | main/src/formatter.rs:139-205 | errors are exactly resolution errors; on success there are 3 to 5 rows |
| Formatter.DisplaySnippet | main/src/formatter.rs:139-205 | the method (scan, digit loop, layout choice) outputs the flattened `Snippet` rows or its error |
| Formatter.SnippetFailsIff | main/src/formatter.rs:172-173 | it panics iff there is no line or the span ends past the buffer; it panics at the start unwrap iff the start is past the buffer |
| Formatter.LineDistance | main/src/formatter.rs:117 | `abs_diff` of the two lines is `end.line - start.line` |
| Formatter.SnippetSingle | main/src/formatter.rs:188-196 | on one line the snippet is the single-line layout of the visualized line, and `col_end - col_start` is `end - start` |
| Formatter.SnippetMulti | main/src/formatter.rs:197-202 | across lines the snippet is the multi-line layout of both visualized lines, with `end.col >= 1` |
| Formatter.FirstLineSnippet | main/src/formatter.rs:188-196 | a span within the first line renders as the single-line layout of that visualized line, with a one-digit gutter and the offsets as columns |
| Formatter.MultiLineSnippetAt | main/src/formatter.rs:197-202 | when the start and end resolve to different lines, the snippet is the multi-line layout of both visualized lines, with the columns in range |
| Formatter.SnippetShape | main/src/formatter.rs:188-203 | 3 rows iff the span ends within its start line; 5 rows, with `...`, iff `end.line - start.line > 1` |
| Formatter.SnippetAligned | main/src/formatter.rs:179-203 | every row is aligned on a gutter of `DigitCount(end.line + 1)` and the text has one line feed per row |
| Formatter.SingleLineSnippetAt | main/src/formatter.rs:188-196 | when the span ends within its start line, both ends are on that line, the columns are in range and `col_end - col_start == end - start`, and the snippet is the single-line layout |
| Formatter.SnippetNumbers | main/src/formatter.rs:179-203 | the number callback receives `|`s and exactly the padded start and end line numbers, both padded to the end line's digit count, in row order |
| Formatter.SingleLineSnippetMarkers | main/src/formatter.rs:188-196 | on one line the span callback gets the visualized bytes `start..end`, and the marker callback gets `end - start` carets, as many as the span is long |
| Formatter.MultiLineSnippetMarkers | main/src/formatter.rs:197-202 | across lines the markers are `v` then `^`, and the spans are the start line from its column and the end line up to its column |
| Formatter.EmptySpanSnippet | main/src/formatter.rs:84 | an empty span gives three rows and an empty caret marker (at a line boundary the source panics instead; see "Left out") |
| Formatter.SingleLineExample | main/src/formatter.rs:139-205 | that snippet prints `  |`, `1 | ab␊`, `  | ^` |
| Formatter.HelloExample | main/src/formatter.rs:139-205 | bytes 1..4 of "hello\nworld\n": three rows, span `ell`, marker `^^^` |
| Formatter.ElidedExample | main/src/formatter.rs:139-205 | from line `a` into line `d` of "a\nb\nc\nd\n": five rows with `...` |
| Formatter.AdjacentExample | main/src/formatter.rs:139-205 | from line `x` into the adjacent line `y`: four rows without `...` |

## Left out

- The `fmt::Write` sink and `?` propagation of its errors (:68-135) are not modelled. The output is the sequence of segments written. A write failure would leave a prefix of that sequence.
- The formatter callbacks are `FnMut` closures that may keep state (:37-49). Here they are pure `string -> string` functions (`FormatOption`), and the layout records which callback gets which text.
- `crate::Span` is not part of this model. This covers `start()`, `end()`, `get_input()`, `lines()` and `Span::new(...).unwrap()` at :149. The buffer is given as its lines, terminators included; `Concat` relates them to the buffer. The iterator and `peekable` machinery is replaced by one line index.
- Strings are `seq<char>` with one element per byte, and a column indexes the visualized line one element per original byte. In Rust the column is a byte offset into the visualized line, where the glyphs that replace CR and LF are three bytes each. A column past a CR or LF in the line therefore either falls inside a glyph, and the slice panics, or cuts the visualized line at another character than the model does. The model returns `Ok` for those inputs. The common case is a column equal to the length of an LF-terminated line, sliced at :76-78, :83, :105, :113 or :128. Inputs that show it: any span that starts or ends at the first byte of a later line, such as the empty span `[2, 2)` of `a\nb\n` (it resolves to column 2 of line 0, so `Resolve(["a\n", "b\n"], 2, 2)` is `Ok` with both ends at `(0, 2)`); the whole line `x\n` as `[0, 2)`; and any span that runs to the end of a buffer ending in LF.
- Integers are unbounded: `usize` overflow of `pos`, line numbers and `end.line + 1` is not modelled.
- `format!("{:w$}")` is modelled only for unsigned integers, as left padding of the decimal rendering.
- The `Debug` derives and the `alloc` imports are not modelled.
