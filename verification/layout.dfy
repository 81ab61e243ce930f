/**
 Layout builder of the reader (`create_display_lines`): the display lines of a
 whole document are the wrapped lines of each logical line, in order.
 */
module Layout {
  import opened Width
  import opened Wrap

  /** `create_display_lines(lines, width)`: every logical line contributes at
      least one display line. */
  function CreateDisplayLines(u: Classifier, lines: seq<string>, width: int): (r: seq<string>)
    ensures |r| >= |lines|
  {
    if lines == [] then [] else ProcessLine(u, lines[0], width) + CreateDisplayLines(u, lines[1..], width)
  }

  /** The filtered text of every logical line, in order. */
  function FilterAll(u: Classifier, lines: seq<string>): (r: seq<string>)
    ensures |r| == |lines|
    ensures forall i :: 0 <= i < |lines| ==> r[i] == Filter(u, lines[i])
  {
    if lines == [] then [] else [Filter(u, lines[0])] + FilterAll(u, lines[1..])
  }

  /** Every line mapped through `f`, the results concatenated in order. */
  function FlatMap(f: string -> seq<string>, lines: seq<string>): seq<string>
  {
    if lines == [] then [] else f(lines[0]) + FlatMap(f, lines[1..])
  }

  lemma {:induction false} FlatMapAppend(f: string -> seq<string>, a: seq<string>, b: seq<string>)
    ensures FlatMap(f, a + b) == FlatMap(f, a) + FlatMap(f, b)
  {
    if a == [] {
      assert a + b == b;
    } else {
      assert (a + b)[0] == a[0];
      assert (a + b)[1..] == a[1..] + b;
      FlatMapAppend(f, a[1..], b);
    }
  }

  /** The layout is `process_line` mapped over the lines and flattened. */
  lemma {:induction false} LayoutIsFlatMap(u: Classifier, lines: seq<string>, width: int)
    ensures CreateDisplayLines(u, lines, width) == FlatMap(line => ProcessLine(u, line, width), lines)
  {
    if lines != [] {
      LayoutIsFlatMap(u, lines[1..], width);
    }
  }

  /** Laying out two runs of lines one after the other is laying out each. */
  lemma LayoutAppend(u: Classifier, a: seq<string>, b: seq<string>, width: int)
    ensures CreateDisplayLines(u, a + b, width)
         == CreateDisplayLines(u, a, width) + CreateDisplayLines(u, b, width)
  {
    LayoutIsFlatMap(u, a + b, width);
    LayoutIsFlatMap(u, a, width);
    LayoutIsFlatMap(u, b, width);
    FlatMapAppend(line => ProcessLine(u, line, width), a, b);
  }

  /** In-order flattening: the layout is the layout of the lines before `k`,
      then the wrapped line `k`, then the layout of the lines after it. */
  lemma {:induction false} LayoutSplit(u: Classifier, lines: seq<string>, width: int, k: nat)
    requires k < |lines|
    ensures CreateDisplayLines(u, lines, width)
         == CreateDisplayLines(u, lines[..k], width)
          + ProcessLine(u, lines[k], width)
          + CreateDisplayLines(u, lines[k + 1..], width)
  {
    var before, line, after := lines[..k], [lines[k]], lines[k + 1..];
    assert lines == before + line + after;
    assert CreateDisplayLines(u, line, width) == ProcessLine(u, lines[k], width) by {
      assert line[1..] == [];
    }
    LayoutAppend(u, before + line, after, width);
    LayoutAppend(u, before, line, width);
  }

  /** Reading all display lines gives the filtered logical lines read one after
      the other: nothing is dropped, duplicated or reordered. */
  lemma {:induction false} LayoutConserves(u: Classifier, lines: seq<string>, width: int)
    ensures Join(CreateDisplayLines(u, lines, width)) == Join(FilterAll(u, lines))
  {
    var wrap := line => ProcessLine(u, line, width);
    forall line: string
      ensures Join(wrap(line)) == Filter(u, line)
    {
      NothingDropped(u, line, width);
    }
    LayoutIsFlatMap(u, lines, width);
    FlatMapConserves(u, wrap, lines);
  }

  /** Flattening lines that each join back to their filtered text joins back
      to all the filtered text. */
  lemma {:induction false} FlatMapConserves(u: Classifier, f: string -> seq<string>, lines: seq<string>)
    requires forall line :: Join(f(line)) == Filter(u, line)
    ensures Join(FlatMap(f, lines)) == Join(FilterAll(u, lines))
  {
    if lines != [] {
      FlatMapConserves(u, f, lines[1..]);
      JoinAppend(f(lines[0]), FlatMap(f, lines[1..]));
      var filtered := FilterAll(u, lines);
      assert filtered[1..] == FilterAll(u, lines[1..]);
      JoinHead(filtered);
    }
  }

  /** The layout invariant: with at least four columns every display line of
      the document fits in `width - 2` columns. */
  lemma {:induction false} LayoutFitsBudget(u: Classifier, lines: seq<string>, width: int)
    requires width >= 4
    ensures forall i :: 0 <= i < |CreateDisplayLines(u, lines, width)| ==>
              DisplayWidth(u, CreateDisplayLines(u, lines, width)[i]) <= width - Margin
  {
    if lines != [] {
      LayoutFitsBudget(u, lines[1..], width);
      LinesFitBudget(u, lines[0], width);
      var head := ProcessLine(u, lines[0], width);
      var tail := CreateDisplayLines(u, lines[1..], width);
      assert CreateDisplayLines(u, lines, width) == head + tail;
      forall i | 0 <= i < |head| + |tail|
        ensures DisplayWidth(u, (head + tail)[i]) <= width - Margin
      {
        if i < |head| {
          assert (head + tail)[i] == head[i];
          assert DisplayWidth(u, head[i]) <= width - Margin;
        } else {
          assert (head + tail)[i] == tail[i - |head|];
          assert DisplayWidth(u, tail[i - |head|]) <= width - Margin;
        }
      }
    }
  }

  /** Logical lines that each fit on one display line, blank ones included,
      are not wrapped: the layout has exactly one display line per logical
      line, its filtered text. */
  lemma {:induction false} ShortLinesUnwrapped(u: Classifier, lines: seq<string>, width: int)
    requires width >= 4
    requires forall i :: 0 <= i < |lines| ==> DisplayWidth(u, Filter(u, lines[i])) <= width - Margin
    ensures CreateDisplayLines(u, lines, width) == FilterAll(u, lines)
  {
    if lines != [] {
      if Filter(u, lines[0]) == [] {
        BlankLine(u, lines[0], width);
      } else {
        ShortLineUnwrapped(u, lines[0], width);
      }
      ShortLinesUnwrapped(u, lines[1..], width);
      assert FilterAll(u, lines) == [Filter(u, lines[0])] + FilterAll(u, lines[1..]);
    }
  }

  /** Three ASCII-like lines of ten narrow characters at width 40 give exactly
      three display lines, each the line itself. */
  lemma ThreeShortLines(u: Classifier, lines: seq<string>)
    requires |lines| == 3
    requires forall i, j :: 0 <= i < 3 && 0 <= j < |lines[i]| ==>
               !u.eastAsianWide(lines[i][j]) && Shown(u, lines[i][j]) && !u.whitespace(lines[i][j])
    requires forall i :: 0 <= i < 3 ==> |lines[i]| == 10
    ensures CreateDisplayLines(u, lines, 40) == lines
  {
    forall i | 0 <= i < 3
      ensures Filter(u, lines[i]) == lines[i] && DisplayWidth(u, lines[i]) == 10
    {
      FilterKeepsPlainText(u, lines[i]);
      NoneWideIff(u, lines[i]);
    }
    ShortLinesUnwrapped(u, lines, 40);
  }
}
