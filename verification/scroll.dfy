/**
 Scroll state of the reader: the offset of the first visible display line,
 clamped to the last offset that still fills the window, moved one line at a
 time, and reported as a percentage.
 */
module Scroll {

  /** The last useful offset for `length` display lines in a terminal of
      `height` rows, one of which is the status line. */
  function MaxLine(length: nat, height: int): (m: nat)
    // from offset m the window of height - 1 rows reaches the last line ...
    ensures m + (height - 1) >= length
    // ... and no later offset is needed to get there
    ensures m == 0 || m + (height - 1) == length
  {
    if length - height + 1 > 0 then length - height + 1 else 0
  }

  /** The clamp at the top of the reading loop: never past `maxLine`, and an
      offset already in range is left alone. */
  function Clamp(offset: int, maxLine: nat): (c: int)
    ensures c <= maxLine && c <= offset
    ensures offset <= maxLine ==> c == offset
    ensures offset > maxLine ==> c == maxLine
    ensures offset >= 0 ==> c >= 0
  {
    if offset < maxLine then offset else maxLine
  }

  /** The up-arrow: one line back, never above the first line. */
  function ScrollUp(offset: int): (c: int)
    ensures c >= 0
    ensures offset > 0 ==> c == offset - 1
    ensures offset <= 0 ==> c == 0
  {
    if offset - 1 > 0 then offset - 1 else 0
  }

  /** The down-arrow: one line forward, never past `maxLine`. */
  function ScrollDown(offset: int, maxLine: nat): (c: int)
    ensures c <= maxLine
    ensures offset < maxLine ==> c == offset + 1
    ensures offset >= maxLine ==> c == maxLine
  {
    if offset + 1 < maxLine then offset + 1 else maxLine
  }

  /** An offset inside the range `0 ..= maxLine`. */
  predicate InRange(offset: int, maxLine: nat)
  {
    0 <= offset <= maxLine
  }

  /** Both moves keep a clamped offset in range, and each undoes the other
      away from the ends. */
  lemma MovesStayInRange(offset: int, maxLine: nat)
    requires InRange(offset, maxLine)
    ensures InRange(ScrollUp(offset), maxLine)
    ensures InRange(ScrollDown(offset, maxLine), maxLine)
    ensures offset < maxLine ==> ScrollUp(ScrollDown(offset, maxLine)) == offset
    ensures offset > 0 ==> ScrollDown(ScrollUp(offset), maxLine) == offset
    ensures offset == 0 ==> ScrollUp(offset) == offset
    ensures offset == maxLine ==> ScrollDown(offset, maxLine) == offset
  {
  }

  /** Clamping twice is clamping once. */
  lemma ClampIdempotent(offset: int, maxLine: nat)
    ensures Clamp(Clamp(offset, maxLine), maxLine) == Clamp(offset, maxLine)
  {
  }

  /** Python's `int(q)` on a non-negative or negative quotient: the exact
      rational `n / d` truncated toward zero. */
  function TruncDiv(n: int, d: int): (q: int)
    requires d > 0
    ensures n >= 0 ==> q * d <= n < (q + 1) * d
    ensures n < 0 ==> (q - 1) * d < n <= q * d
  {
    if n >= 0 then n / d else -((-n) / d)
  }

  /** The percentage shown in the status line. */
  function Progress(offset: int, maxLine: nat): (p: int)
    ensures maxLine == 0 ==> p == 100
    ensures maxLine > 0 && InRange(offset, maxLine) ==> 0 <= p <= 100
    ensures maxLine > 0 && offset == 0 ==> p == 0
    ensures maxLine > 0 && offset == maxLine ==> p == 100
  {
    if maxLine > 0 then
      PercentBounds(offset, maxLine);
      TruncDiv(100 * offset, maxLine)
    else 100
  }

  /** Multiplying by a positive number preserves a strict order, both ways. */
  lemma MulStrict(x: int, y: int, d: int)
    requires d > 0
    ensures x * d < y * d <==> x < y
  {
    assert y * d - x * d == (y - x) * d;
  }

  /** Division by a positive number is monotone. */
  lemma DivMonotone(a: int, b: int, d: int)
    requires 0 <= a <= b && d > 0
    ensures a / d <= b / d
  {
    var qa, qb := a / d, b / d;
    assert a == d * qa + a % d;
    assert b == d * qb + b % d;
    assert qa * d <= a;
    assert b < (qb + 1) * d;
    MulStrict(qa, qb + 1, d);
  }

  /** Dividing a multiple of a positive number by it gives the factor back. */
  lemma DivExact(q: int, d: int)
    requires d > 0
    ensures (q * d) / d == q
  {
    var r := (q * d) / d;
    assert q * d == d * r + (q * d) % d;
    assert r * d <= q * d < (r + 1) * d;
    MulStrict(r, q + 1, d);
    MulStrict(q, r + 1, d);
  }

  /** An offset in range is between 0 and 100 percent of the way. */
  lemma PercentBounds(c: int, d: int)
    requires d > 0
    ensures (100 * d) / d == 100
    ensures 0 <= c <= d ==> 0 <= (100 * c) / d <= 100
  {
    DivExact(100, d);
    assert 100 * d == d * 100;
    if 0 <= c <= d {
      DivMonotone(100 * c, 100 * d, d);
      DivMonotone(0, 100 * c, d);
    }
  }

  /** Reading further never shows a smaller percentage. */
  lemma ProgressMonotone(c1: int, c2: int, maxLine: nat)
    requires 0 <= c1 <= c2
    ensures Progress(c1, maxLine) <= Progress(c2, maxLine)
  {
    if maxLine > 0 {
      DivMonotone(100 * c1, 100 * c2, maxLine);
    }
  }

  /** When the whole document fits above the status line the offset can only
      be 0 and the progress is 100. */
  lemma ShortDocumentFullyRead(length: nat, height: int, offset: int)
    requires length <= height - 1
    requires 0 <= offset
    ensures MaxLine(length, height) == 0
    ensures Clamp(offset, MaxLine(length, height)) == 0
    ensures Progress(Clamp(offset, MaxLine(length, height)), MaxLine(length, height)) == 100
  {
  }
}
