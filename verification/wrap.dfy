/**
 Line wrapper of the reader (`process_line`): strip trailing whitespace,
 replace characters that cannot be shown by '?', then pack the characters
 greedily into display lines of at most `width - 2` columns.
 */
module Wrap {
  import opened Width

  /** What a character that cannot be shown is replaced with. */
  const Placeholder: char := '?'

  /** Columns kept free at the right edge of the terminal. */
  const Margin: int := 2

  /** The display lines read one after the other as a single string. */
  function Join(lines: seq<string>): string
  {
    if lines == [] then [] else lines[0] + Join(lines[1..])
  }

  lemma {:induction false} JoinAppend(a: seq<string>, b: seq<string>)
    ensures Join(a + b) == Join(a) + Join(b)
  {
    if a == [] {
      assert a + b == b;
    } else {
      assert (a + b)[0] == a[0];
      assert (a + b)[1..] == a[1..] + b;
      JoinAppend(a[1..], b);
    }
  }

  lemma JoinSingle(x: string)
    ensures Join([x]) == x
  {
    assert [x][1..] == [];
  }

  lemma JoinSnoc(a: seq<string>, x: string)
    ensures Join(a + [x]) == Join(a) + x
  {
    JoinAppend(a, [x]);
    assert [x][1..] == [];
  }

  // ---------------------------------------------------------------------------
  // Filtering

  /** Python's `str.rstrip()`: drop the trailing whitespace and nothing else. */
  function RStrip(u: Classifier, s: string): (r: string)
    ensures r <= s
    ensures r == [] || !u.whitespace(r[|r| - 1])
    ensures forall i :: |r| <= i < |s| ==> u.whitespace(s[i])
  {
    if s == [] || !u.whitespace(s[|s| - 1]) then s else RStrip(u, s[..|s| - 1])
  }

  /** A character is shown as itself when its category is outside group "C"
      and it is printable. */
  predicate Shown(u: Classifier, c: char)
  {
    !u.categoryC(c) && u.printable(c)
  }

  /** Replace every character that cannot be shown by the placeholder. */
  function Sanitize(u: Classifier, s: string): (r: string)
    ensures |r| == |s|
    ensures forall i :: 0 <= i < |s| ==> r[i] == (if Shown(u, s[i]) then s[i] else Placeholder)
  {
    if s == [] then []
    else [if Shown(u, s[0]) then s[0] else Placeholder] + Sanitize(u, s[1..])
  }

  /** The filtered line the wrapper packs: stripped, then sanitized. Each
      character is either kept or replaced, so the length is that of the
      stripped line; it is empty exactly when the line is all whitespace. */
  function Filter(u: Classifier, line: string): (r: string)
    ensures |r| == |RStrip(u, line)|
    ensures r == [] <==> forall i :: 0 <= i < |line| ==> u.whitespace(line[i])
  {
    Sanitize(u, RStrip(u, line))
  }

  /** A line made only of characters that are shown and ending in a
      non-whitespace character passes the filter unchanged. */
  lemma FilterKeepsPlainText(u: Classifier, line: string)
    requires line == [] || !u.whitespace(line[|line| - 1])
    requires forall i :: 0 <= i < |line| ==> Shown(u, line[i])
    ensures Filter(u, line) == line
  {
  }

  // ---------------------------------------------------------------------------
  // Greedy packing, step by step as the wrapping loop does it

  /** The loop state: lines closed so far, the line being filled and its width. */
  datatype Packer = Packer(wrapped: seq<string>, current: string, currentWidth: int)

  const Empty: Packer := Packer([], [], 0)

  /** One loop iteration: close the current line if `c` would overflow the
      budget and start a new one with `c`, otherwise append `c`. Either way
      the text seen so far is kept, and `c` ends up on the current line. */
  function Feed(u: Classifier, st: Packer, c: char, budget: int): (r: Packer)
    ensures Join(r.wrapped) + r.current == Join(st.wrapped) + st.current + [c]
    ensures r.current != [] && r.current[|r.current| - 1] == c
  {
    var cw := CharWidth(u, c);
    JoinSnoc(st.wrapped, st.current);
    if st.currentWidth + cw > budget then Packer(st.wrapped + [st.current], [c], cw)
    else Packer(st.wrapped, st.current + [c], st.currentWidth + cw)
  }

  /** The loop over the whole filtered line: no character is dropped. */
  function FeedAll(u: Classifier, st: Packer, s: string, budget: int): (r: Packer)
    ensures Join(r.wrapped) + r.current == Join(st.wrapped) + st.current + s
    decreases |s|
  {
    if s == [] then st
    else
      assert s == [s[0]] + s[1..];
      FeedAll(u, Feed(u, st, s[0], budget), s[1..], budget)
  }

  /** After the loop: keep a non-empty current line, and never return nothing.
      The text is kept, and an untouched packer gives one empty line. */
  function Finish(st: Packer): (r: seq<string>)
    ensures |r| >= 1
    ensures Join(r) == Join(st.wrapped) + st.current
    ensures st.wrapped == [] && st.current == [] ==> r == [[]]
  {
    JoinSnoc(st.wrapped, st.current);
    JoinSingle([]);
    var w := if st.current != [] then st.wrapped + [st.current] else st.wrapped;
    if w == [] then [[]] else w
  }

  /** `process_line(line, width)`. Defined for every width, including the
      narrow ones where a lone wide character overflows the budget. */
  function ProcessLine(u: Classifier, line: string, width: int): (r: seq<string>)
    ensures |r| >= 1
  {
    Finish(FeedAll(u, Empty, Filter(u, line), width - Margin))
  }

  // ---------------------------------------------------------------------------
  // Nothing is dropped

  /** The display lines read together give back the filtered line, for every
      width: the wrapper never drops or invents a character. */
  lemma NothingDropped(u: Classifier, line: string, width: int)
    ensures Join(ProcessLine(u, line, width)) == Filter(u, line)
  {
  }

  /** An all-whitespace (or empty) line yields exactly one empty display line,
      and no other line does. */
  lemma BlankLine(u: Classifier, line: string, width: int)
    ensures ProcessLine(u, line, width) == [[]] <==> forall i :: 0 <= i < |line| ==> u.whitespace(line[i])
  {
    if Filter(u, line) == [] {
      assert FeedAll(u, Empty, Filter(u, line), width - Margin) == Empty;
    } else {
      NothingDropped(u, line, width);
      JoinSingle([]);
    }
  }

  // ---------------------------------------------------------------------------
  // The greedy packing, stated independently of the loop

  /** Every line is non-empty and fits the budget, and every line but the last
      was closed only because the next character would have overflowed it. */
  ghost predicate Packed(u: Classifier, lines: seq<string>, budget: int)
  {
    && (forall i :: 0 <= i < |lines| ==> lines[i] != [] && DisplayWidth(u, lines[i]) <= budget)
    && (forall i :: 0 < i < |lines| ==> DisplayWidth(u, lines[i - 1]) + CharWidth(u, lines[i][0]) > budget)
  }

  /** `lines` is a greedy packing of `s` within `budget` columns. */
  ghost predicate GreedyPacking(u: Classifier, lines: seq<string>, s: string, budget: int)
  {
    Join(lines) == s && Packed(u, lines, budget)
  }

  /** What the loop keeps true while it runs with a budget of at least two. */
  ghost predicate PackerInv(u: Classifier, st: Packer, budget: int)
  {
    && st.currentWidth == DisplayWidth(u, st.current)
    && (st.current == [] ==> st.wrapped == [])
    && (st.current != [] ==> Packed(u, st.wrapped + [st.current], budget))
  }

  lemma FeedKeepsInv(u: Classifier, st: Packer, c: char, budget: int)
    requires budget >= 2
    requires PackerInv(u, st, budget)
    ensures PackerInv(u, Feed(u, st, c, budget), budget)
  {
    SingleCharWidth(u, c);
    if st.current == [] {
      var st' := Feed(u, st, c, budget);
      assert st' == Packer([], [c], CharWidth(u, c));
      assert st'.wrapped + [st'.current] == [[c]];
    } else if st.currentWidth + CharWidth(u, c) > budget {
      FeedClosesLine(u, st, c, budget);
    } else {
      FeedExtendsLine(u, st, c, budget);
    }
  }

  /** A character that overflows the current line starts a new one. */
  lemma FeedClosesLine(u: Classifier, st: Packer, c: char, budget: int)
    requires budget >= 2 && st.current != []
    requires PackerInv(u, st, budget)
    requires st.currentWidth + CharWidth(u, c) > budget
    ensures PackerInv(u, Feed(u, st, c, budget), budget)
  {
    SingleCharWidth(u, c);
    var st' := Feed(u, st, c, budget);
    assert st' == Packer(st.wrapped + [st.current], [c], CharWidth(u, c));
    var prev := st.wrapped + [st.current];
    assert st'.wrapped + [st'.current] == prev + [[c]];
    PackedSnoc(u, prev, [c], budget);
  }

  /** A packing followed by a line that fits, and that would have overflowed
      the packing's last line, is still a packing. */
  lemma PackedSnoc(u: Classifier, lines: seq<string>, line: string, budget: int)
    requires Packed(u, lines, budget)
    requires line != [] && DisplayWidth(u, line) <= budget
    requires lines != [] ==> DisplayWidth(u, lines[|lines| - 1]) + CharWidth(u, line[0]) > budget
    ensures Packed(u, lines + [line], budget)
  {
    var next := lines + [line];
    forall i | 0 <= i < |next|
      ensures next[i] != [] && DisplayWidth(u, next[i]) <= budget
    {
      SnocIndex(lines, line, i);
    }
    forall i | 0 < i < |next|
      ensures DisplayWidth(u, next[i - 1]) + CharWidth(u, next[i][0]) > budget
    {
      SnocIndex(lines, line, i);
      SnocIndex(lines, line, i - 1);
    }
  }

  lemma SnocIndex(lines: seq<string>, line: string, i: nat)
    requires i <= |lines|
    ensures (lines + [line])[i] == if i < |lines| then lines[i] else line
  {
  }

  /** A character that fits is appended to the current line. */
  lemma FeedExtendsLine(u: Classifier, st: Packer, c: char, budget: int)
    requires st.current != []
    requires PackerInv(u, st, budget)
    requires st.currentWidth + CharWidth(u, c) <= budget
    ensures PackerInv(u, Feed(u, st, c, budget), budget)
  {
    WidthSnoc(u, st.current, c);
    var st' := Feed(u, st, c, budget);
    assert st' == Packer(st.wrapped, st.current + [c], st.currentWidth + CharWidth(u, c));
    var prev := st.wrapped + [st.current];
    var next := st'.wrapped + [st'.current];
    assert |next| == |prev|;
    assert forall i :: 0 <= i < |prev| - 1 ==> next[i] == prev[i];
    assert next[|next| - 1][0] == prev[|prev| - 1][0];
  }

  lemma {:induction false} FeedAllKeepsInv(u: Classifier, st: Packer, s: string, budget: int)
    requires budget >= 2
    requires PackerInv(u, st, budget)
    ensures PackerInv(u, FeedAll(u, st, s, budget), budget)
    decreases |s|
  {
    if s != [] {
      FeedKeepsInv(u, st, s[0], budget);
      FeedAllKeepsInv(u, Feed(u, st, s[0], budget), s[1..], budget);
    }
  }

  /** With at least four columns (so any single character fits in `width - 2`),
      a non-blank line is wrapped into a greedy packing of its filtered text. */
  lemma ProcessLineGreedy(u: Classifier, line: string, width: int)
    requires width >= 4
    requires Filter(u, line) != []
    ensures GreedyPacking(u, ProcessLine(u, line, width), Filter(u, line), width - Margin)
  {
    var st := FeedAll(u, Empty, Filter(u, line), width - Margin);
    FeedAllKeepsInv(u, Empty, Filter(u, line), width - Margin);
    NothingDropped(u, line, width);
    assert st.current != [];
  }

  /** The layout invariant: with at least four columns no display line is
      wider than `width - 2`. */
  lemma LinesFitBudget(u: Classifier, line: string, width: int)
    requires width >= 4
    ensures forall i :: 0 <= i < |ProcessLine(u, line, width)| ==>
              DisplayWidth(u, ProcessLine(u, line, width)[i]) <= width - Margin
  {
    if Filter(u, line) == [] {
      BlankLine(u, line, width);
      assert DisplayWidth(u, []) == 0;
    } else {
      ProcessLineGreedy(u, line, width);
    }
  }

  // ---------------------------------------------------------------------------
  // A greedy packing is unique

  lemma JoinHead(lines: seq<string>)
    requires lines != []
    ensures Join(lines) == lines[0] + Join(lines[1..])
  {
  }

  lemma PackedTail(u: Classifier, lines: seq<string>, budget: int)
    requires lines != []
    requires Packed(u, lines, budget)
    ensures Packed(u, lines[1..], budget)
  {
    var t := lines[1..];
    assert forall i :: 0 <= i < |t| ==> t[i] == lines[i + 1];
  }

  /** Lines that are all non-empty hold at least one character each. */
  lemma {:induction false} JoinLength(lines: seq<string>)
    requires forall i :: 0 <= i < |lines| ==> lines[i] != []
    ensures |Join(lines)| >= |lines|
  {
    if lines != [] {
      JoinLength(lines[1..]);
    }
  }

  /** In a greedy packing, every prefix of the text that reaches past the first
      line overflows the budget. */
  lemma PastFirstLineOverflows(u: Classifier, a: seq<string>, s: string, budget: int, k: nat)
    requires GreedyPacking(u, a, s, budget)
    requires a != []
    requires |a[0]| < k <= |s|
    ensures DisplayWidth(u, s[..k]) > budget
  {
    var n := |a[0]|;
    JoinHead(a);
    assert |Join(a[1..])| == |s| - n > 0;
    assert a[1..] != [];
    JoinHead(a[1..]);
    assert a[1] == a[1..][0];
    assert a[1] != [];
    assert s == a[0] + (a[1] + Join(a[2..]));
    assert s[..n + 1] == a[0] + [a[1][0]];
    WidthSnoc(u, a[0], a[1][0]);
    assert s[..n + 1] == s[..k][..n + 1];
    WidthPrefix(u, s[..k], n + 1);
  }

  /** The first line of a greedy packing is determined by the text. */
  lemma FirstLinesAgree(u: Classifier, a: seq<string>, b: seq<string>, s: string, budget: int)
    requires GreedyPacking(u, a, s, budget) && GreedyPacking(u, b, s, budget)
    requires a != [] && b != []
    ensures a[0] == b[0]
  {
    JoinHead(a);
    JoinHead(b);
    assert s[..|a[0]|] == a[0];
    assert s[..|b[0]|] == b[0];
    if |a[0]| < |b[0]| {
      PastFirstLineOverflows(u, a, s, budget, |b[0]|);
    } else if |b[0]| < |a[0]| {
      PastFirstLineOverflows(u, b, s, budget, |a[0]|);
    }
  }

  /** Two greedy packings of the same text within the same budget are equal. */
  lemma {:induction false} GreedyUnique(u: Classifier, a: seq<string>, b: seq<string>, s: string, budget: int)
    requires GreedyPacking(u, a, s, budget) && GreedyPacking(u, b, s, budget)
    ensures a == b
    decreases |a|
  {
    if a == [] || b == [] {
      JoinLength(a);
      JoinLength(b);
    } else {
      FirstLinesAgree(u, a, b, s, budget);
      JoinHead(a);
      JoinHead(b);
      var rest := s[|a[0]|..];
      assert Join(a[1..]) == rest && Join(b[1..]) == rest;
      PackedTail(u, a, budget);
      PackedTail(u, b, budget);
      GreedyUnique(u, a[1..], b[1..], rest, budget);
      assert a == [a[0]] + a[1..];
      assert b == [b[0]] + b[1..];
    }
  }

  /** So the wrapper's output is THE greedy packing: any greedy packing of the
      filtered text is what `process_line` returns. */
  lemma ProcessLineIsTheGreedyPacking(u: Classifier, line: string, width: int, lines: seq<string>)
    requires width >= 4
    requires Filter(u, line) != []
    requires GreedyPacking(u, lines, Filter(u, line), width - Margin)
    ensures ProcessLine(u, line, width) == lines
  {
    ProcessLineGreedy(u, line, width);
    GreedyUnique(u, ProcessLine(u, line, width), lines, Filter(u, line), width - Margin);
  }

  /** A non-blank line whose filtered text fits the budget is not wrapped. */
  lemma ShortLineUnwrapped(u: Classifier, line: string, width: int)
    requires width >= 4
    requires Filter(u, line) != []
    requires DisplayWidth(u, Filter(u, line)) <= width - Margin
    ensures ProcessLine(u, line, width) == [Filter(u, line)]
  {
    var f := Filter(u, line);
    JoinSingle(f);
    ProcessLineIsTheGreedyPacking(u, line, width, [f]);
  }

  /** Thirty wide characters at width 20 (18 usable columns) give lines of
      9, 9, 9 and 3 characters. */
  lemma ThirtyWideCharacters(u: Classifier, line: string)
    requires |line| == 30
    requires forall i :: 0 <= i < |line| ==> u.eastAsianWide(line[i]) && Shown(u, line[i]) && !u.whitespace(line[i])
    ensures ProcessLine(u, line, 20) == [line[..9], line[9..18], line[18..27], line[27..]]
  {
    FilterKeepsPlainText(u, line);
    var lines := [line[..9], line[9..18], line[18..27], line[27..]];
    assert Join(lines) == line by {
      assert lines[3..] == [line[27..]];
      assert Join(lines[3..]) == line[27..] by { assert lines[3..][1..] == []; }
      assert Join(lines[2..]) == line[18..27] + line[27..];
      assert Join(lines[1..]) == line[9..18] + (line[18..27] + line[27..]);
      assert line == line[..9] + (line[9..18] + (line[18..27] + line[27..]));
    }
    forall i | 0 <= i < 4
      ensures DisplayWidth(u, lines[i]) == 2 * |lines[i]|
    {
      AllWideIff(u, lines[i]);
    }
    assert Packed(u, lines, 18);
    ProcessLineIsTheGreedyPacking(u, line, 20, lines);
  }

  /** Below four columns the budget can fail: at width 3 a lone wide character
      first closes an empty line, then sits alone on a line one column too wide. */
  lemma NarrowTerminal(u: Classifier, c: char)
    requires u.eastAsianWide(c) && Shown(u, c) && !u.whitespace(c)
    ensures ProcessLine(u, [c], 3) == [[], [c]]
    ensures DisplayWidth(u, [c]) > 3 - Margin
  {
    FilterKeepsPlainText(u, [c]);
    SingleCharWidth(u, c);
    assert [c][1..] == [];
    assert Feed(u, Empty, c, 1) == Packer([[]], [c], 2);
    assert FeedAll(u, Empty, [c], 1) == FeedAll(u, Packer([[]], [c], 2), [], 1);
  }
}
