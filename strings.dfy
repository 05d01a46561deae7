/**
 * Text helpers used by the snippet formatter: `str::repeat`, the
 * whitespace visualization, decimal rendering of line numbers and the
 * right-aligned `{:w$}` padding of `format!`.
 *
 * Strings are `seq<char>` with one element per byte of the source text.
 */
module Strings {

  /** `c` repeated `n` times (`str::repeat` on a one-character string). */
  function Repeat(c: char, n: nat): (r: string)
    ensures |r| == n
    ensures forall i :: 0 <= i < n ==> r[i] == c
  {
    if n == 0 then [] else Repeat(c, n - 1) + [c]
  }

  /** Number of occurrences of `c` in `s`. */
  function Count(s: string, c: char): (r: nat)
  {
    if s == [] then 0 else Count(s[..|s| - 1], c) + (if s[|s| - 1] == c then 1 else 0)
  }

  lemma {:induction false} CountAppend(a: string, b: string, c: char)
    ensures Count(a + b, c) == Count(a, c) + Count(b, c)
    decreases |b|
  {
    if b == [] {
      assert a + b == a;
    } else {
      assert (a + b)[..|a + b| - 1] == a + b[..|b| - 1];
      CountAppend(a, b[..|b| - 1], c);
    }
  }

  lemma {:induction false} CountAbsent(s: string, c: char)
    requires c !in s
    ensures Count(s, c) == 0
    decreases |s|
  {
    if s != [] {
      assert s[..|s| - 1] <= s;
      CountAbsent(s[..|s| - 1], c);
    }
  }

  // ----- Whitespace visualization -----

  /** The glyph SYMBOL FOR LINE FEED, shown in place of '\n'. */
  const LineFeedGlyph: char := '\U{240A}'
  /** The glyph SYMBOL FOR CARRIAGE RETURN, shown in place of '\r'. */
  const CarriageReturnGlyph: char := '\U{240D}'

  /** The character a single source character is displayed as. */
  function VisibleChar(c: char): (r: char)
  {
    if c == '\n' then LineFeedGlyph else if c == '\r' then CarriageReturnGlyph else c
  }

  /** `str::replace` with a one-character pattern and a one-character replacement. */
  function Replace(s: string, from: char, to: char): (r: string)
    ensures |r| == |s|
    ensures forall i :: 0 <= i < |s| ==> r[i] == (if s[i] == from then to else s[i])
  {
    if s == [] then []
    else Replace(s[..|s| - 1], from, to) + [if s[|s| - 1] == from then to else s[|s| - 1]]
  }

  /**
   * `visualize_white_space`: replace every line feed, then every carriage
   * return. The result is the character-by-character map `VisibleChar`, has
   * the same length and holds no line break.
   */
  function VisualizeWhiteSpace(line: string): (r: string)
    ensures |r| == |line|
    ensures forall i :: 0 <= i < |line| ==> r[i] == VisibleChar(line[i])
    ensures '\n' !in r && '\r' !in r
  {
    Replace(Replace(line, '\n', LineFeedGlyph), '\r', CarriageReturnGlyph)
  }

  /** Visualizing an already visualized line changes nothing. */
  lemma VisualizeIdempotent(line: string)
    ensures VisualizeWhiteSpace(VisualizeWhiteSpace(line)) == VisualizeWhiteSpace(line)
  {
    var v := VisualizeWhiteSpace(line);
    var w := VisualizeWhiteSpace(v);
    assert forall i :: 0 <= i < |v| ==> w[i] == VisibleChar(v[i]) == v[i];
  }

  /** A line without CR or LF is displayed unchanged. */
  lemma VisualizeKeepsPlainLine(line: string)
    requires '\n' !in line && '\r' !in line
    ensures VisualizeWhiteSpace(line) == line
  {
    var v := VisualizeWhiteSpace(line);
    assert forall i :: 0 <= i < |line| ==> v[i] == line[i];
  }

  /** A line ended by LF and holding no other CR or LF shows its text, then the LF glyph. */
  lemma VisualizeTerminatedLine(line: string, body: string)
    requires line == body + "\n" && '\n' !in body && '\r' !in body
    ensures VisualizeWhiteSpace(line) == body + [LineFeedGlyph]
  {
    var v := VisualizeWhiteSpace(line);
    forall i | 0 <= i < |line|
      ensures v[i] == (body + [LineFeedGlyph])[i]
    {
      if i < |body| {
        assert line[i] == body[i];
      }
    }
  }

  // ----- Decimal rendering -----

  /** 10 to the power `k`. */
  function Pow10(k: nat): (p: nat)
    ensures p >= 1
  {
    if k == 0 then 1 else 10 * Pow10(k - 1)
  }

  /** Number of decimal digits of `n` (one for zero). */
  function DigitCount(n: nat): (d: nat)
    ensures d >= 1
  {
    if n < 10 then 1 else 1 + DigitCount(n / 10)
  }

  /** `DigitCount(n)` is the `d` with 10^(d-1) <= n < 10^d. */
  lemma {:induction false} DigitCountBounds(n: nat)
    requires n >= 1
    ensures Pow10(DigitCount(n) - 1) <= n < Pow10(DigitCount(n))
  {
    if n >= 10 {
      var q := n / 10;
      DigitCountBounds(q);
      var d := DigitCount(q);
      assert DigitCount(n) == d + 1;
      assert Pow10(d) == 10 * Pow10(d - 1);
      assert Pow10(d + 1) == 10 * Pow10(d);
      assert 10 * Pow10(d - 1) <= 10 * q <= n;
      assert n < 10 * (q + 1) <= 10 * Pow10(d);
    }
  }

  /** More digits never belong to a smaller number. */
  lemma {:induction false} DigitCountMonotone(a: nat, b: nat)
    requires a <= b
    ensures DigitCount(a) <= DigitCount(b)
    decreases b
  {
    if a >= 10 {
      DigitCountMonotone(a / 10, b / 10);
    }
  }

  /** The ASCII digit of value `v`. */
  function DigitChar(v: nat): (c: char)
    requires v < 10
    ensures '0' <= c <= '9'
  {
    (('0' as int) + v) as char
  }

  predicate IsDigit(c: char)
  {
    '0' <= c <= '9'
  }

  /** The `Display` rendering of an unsigned integer. */
  function DecimalString(n: nat): (s: string)
    ensures |s| == DigitCount(n)
    ensures forall i :: 0 <= i < |s| ==> IsDigit(s[i])
  {
    if n < 10 then [DigitChar(n)] else DecimalString(n / 10) + [DigitChar(n % 10)]
  }

  /** Reads back a string of decimal digits. */
  function DecimalValue(s: string): (r: nat)
    requires forall i :: 0 <= i < |s| ==> IsDigit(s[i])
  {
    if s == [] then 0
    else
      assert IsDigit(s[|s| - 1]);
      DecimalValue(s[..|s| - 1]) * 10 + ((s[|s| - 1] as int) - ('0' as int))
  }

  /** The rendering of a line number reads back as that number. */
  lemma {:induction false} DecimalRoundTrip(n: nat)
    ensures DecimalValue(DecimalString(n)) == n
  {
    var s := DecimalString(n);
    if n < 10 {
      assert s[..|s| - 1] == [];
    } else {
      DecimalRoundTrip(n / 10);
      assert s[..|s| - 1] == DecimalString(n / 10);
    }
  }

  /** The rendering starts with a non-zero digit unless the number is zero. */
  lemma {:induction false} DecimalNoLeadingZero(n: nat)
    requires n > 0
    ensures DecimalString(n)[0] != '0'
  {
    if n >= 10 {
      DecimalNoLeadingZero(n / 10);
    }
  }

  /** Right alignment in a field of width `w`, as `{:w$}` does for integers. */
  function PadLeft(s: string, w: nat): (r: string)
  {
    if |s| < w then Repeat(' ', w - |s|) + s else s
  }

  /** Padding gives `max(w, |s|)` characters: spaces, then `s` itself. */
  lemma PadLeftShape(s: string, w: nat)
    ensures var r := PadLeft(s, w);
      && |r| == (if |s| < w then w else |s|)
      && r[|r| - |s|..] == s
      && forall i :: 0 <= i < |r| - |s| ==> r[i] == ' '
  {
    var r := PadLeft(s, w);
    if |s| < w {
      assert r[w - |s|..] == s;
    }
  }

  /** `format!("{:w$}", n, w = w)` for an unsigned integer `n`. */
  function FormatWidth(n: nat, w: nat): (r: string)
  {
    PadLeft(DecimalString(n), w)
  }

  /**
   * A number whose digit count is at most `w` renders to exactly `w`
   * characters, each a space or a digit.
   */
  lemma FormatWidthFits(n: nat, w: nat)
    requires DigitCount(n) <= w
    ensures |FormatWidth(n, w)| == w
    ensures forall i :: 0 <= i < w ==> FormatWidth(n, w)[i] == ' ' || IsDigit(FormatWidth(n, w)[i])
  {
    PadLeftDigits(DecimalString(n), w);
  }

  /** Padding a string of digits to a width it fits in gives spaces, then those digits. */
  lemma PadLeftDigits(s: string, w: nat)
    requires |s| <= w && forall i :: 0 <= i < |s| ==> IsDigit(s[i])
    ensures |PadLeft(s, w)| == w
    ensures forall i :: 0 <= i < w ==> PadLeft(s, w)[i] == ' ' || IsDigit(PadLeft(s, w)[i])
  {
    PadLeftShape(s, w);
    var r := PadLeft(s, w);
    var k := w - |s|;
    forall i | 0 <= i < w
      ensures r[i] == ' ' || IsDigit(r[i])
    {
      if i >= k {
        assert r[i] == r[k..][i - k] == s[i - k];
      }
    }
  }
}
