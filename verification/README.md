# Nirvash reader core in Dafny

Nirvash is a terminal reader for plain-text files. It lists the `.txt` files of
a directory, opens one, and wraps its lines to the terminal width. Wide East-Asian
characters count as two columns. You scroll with the arrow keys, and the status line
shows a progress percentage. When you quit a file, its scroll offset is remembered
under the file name.

This project models the logic that the curses calls wrap around. Everything is a
pure function over immutable values:

- `width.dfy`, module `Width`: the width classifier. The Unicode tables the program
  asks are abstract. They are the fields of a `Classifier` value:
  - `eastAsianWide`: the East-Asian-width class is F, W or A;
  - `categoryC`: the general category is in group C;
  - `printable`: Python's `str.isprintable`;
  - `whitespace`: Python's `str.isspace`, which is what `rstrip()` removes.
- `wrap.dfy`, module `Wrap`: `process_line`. It strips the line, replaces the
  characters that cannot be shown with `?`, and packs the rest greedily into
  `width - 2` columns. The loop is modelled step by step (`Feed`, `FeedAll`,
  `Finish`). `GreedyPacking` is a separate description of the result, and the
  model proves that the loop computes it and that it is unique.
- `layout.dfy`, module `Layout`: `create_display_lines`. It wraps every logical line
  in order. A resize rebuilds it from scratch.
- `scroll.dfy`, module `Scroll`: the last useful offset, the clamp, the up and down
  moves, and the progress percentage.
- `reader.dfy`, module `Reader`: the reading loop of `read_file` over a sequence of
  keys. It opens at the saved offset, clamps at the top of every pass, relays out on
  resize, and stores the offset on quit.
- `browser.dfy`, module `Browser`: the picker cursor (`selected`, `top_file`). The
  picker loop threads the positions map through every opened file and returns the
  map that is saved on quit.

Progress reads 100 when the document has at most `height - 1` display lines. A
document exactly as tall as the terminal has one line hidden under the status
line, so its progress starts at 0 and reaches 100 after one step down.

Every function is deterministic by construction. So calling the layout twice
with the same lines and width gives the same display lines.

## Model

| member | source | states |
|---|---|---|
| Width.CharWidth | Nirvash.py:109 | a character takes 1 or 2 columns, and 2 exactly when its East-Asian-width class is F, W or A |
| Width.DisplayWidth | Nirvash.py:89-97 | the width of a string lies between its length and twice its length |
| Width.SingleCharWidth | Nirvash.py:109 | the inline per-character rule used while wrapping agrees with the string width of a one-character string |
| Width.WidthAppend | Nirvash.py:89-97 | width is additive over concatenation |
| Width.AllWideIff | Nirvash.py:93-94 | a string is twice its length wide if and only if every character in it is wide |
| Width.NoneWideIff | Nirvash.py:95-96 | a string is exactly its length wide if and only if no character in it is wide |
| Wrap.RStrip | Nirvash.py:103 | `rstrip()` returns a prefix that does not end in whitespace, and everything it drops is whitespace |
| Wrap.Sanitize | Nirvash.py:103 | the sanitized string has the same length, and at each position it has the original character if that character is shown, else `?` |
| Wrap.Filter | Nirvash.py:103 | the filtered line is as long as the stripped line, and it is empty if and only if the line is all whitespace |
| Wrap.FilterKeepsPlainText | Nirvash.py:103 | a line of shown characters that does not end in whitespace passes the filter unchanged |
| Wrap.Feed | Nirvash.py:109-116 | one character added by the loop ends the current line, and the closed lines followed by the current line gain exactly that character at the end |
| Wrap.FeedAll | Nirvash.py:108-116 | after the loop, the closed lines followed by the current line are the text it started with followed by the whole filtered line |
| Wrap.Finish | Nirvash.py:117-120 | closing the loop gives at least one line, and the lines joined together lose nothing; with nothing closed and nothing pending, it gives the single empty line |
| Wrap.ProcessLine | Nirvash.py:117-121 | the wrapper returns at least one display line, at every width |
| Wrap.NothingDropped | Nirvash.py:105-121 | at every width, the display lines joined together equal the filtered line |
| Wrap.BlankLine | Nirvash.py:117-120 | the result is exactly one empty line if and only if the logical line is empty or all whitespace |
| Wrap.FeedKeepsInv | Nirvash.py:108-116 | with a budget of at least 2, one loop step keeps the closed lines and the current line non-empty, within budget and greedy |
| Wrap.FeedClosesLine | Nirvash.py:110-113 | when the next character would overflow a non-empty current line, the step keeps the loop invariant: the tracked width is the current line's display width, and the closed lines with the current one stay a greedy packing |
| Wrap.FeedExtendsLine | Nirvash.py:114-116 | when the next character fits, the step keeps the same loop invariant |
| Wrap.ProcessLineGreedy | Nirvash.py:108-118 | from width 4 up, a non-blank line wraps into a greedy packing of its filtered text: every line is non-empty and fits in `width - 2` columns, and every line but the last overflows when the next line's first character is added |
| Wrap.LinesFitBudget | Nirvash.py:110-120 | from width 4 up, no display line is wider than `width - 2` columns |
| Wrap.GreedyUnique | Nirvash.py:108-116 | two greedy packings of the same text in the same budget are equal |
| Wrap.ProcessLineIsTheGreedyPacking | Nirvash.py:100-121 | from width 4 up, any greedy packing of a non-blank filtered line is exactly what the wrapper returns |
| Wrap.ShortLineUnwrapped | Nirvash.py:108-118 | a non-blank line whose filtered text fits in `width - 2` columns stays one display line |
| Wrap.ThirtyWideCharacters | Nirvash.py:108-118 | thirty wide characters at width 20 wrap into lines of 9, 9, 9 and 3 characters |
| Wrap.NarrowTerminal | Nirvash.py:110-118 | at width 3, a lone wide character gives an empty line followed by a line one column over budget |
| Layout.CreateDisplayLines | Nirvash.py:143-148 | the layout has at least one display line per logical line |
| Layout.LayoutAppend | Nirvash.py:145-147 | laying out two runs of lines one after the other gives the two layouts concatenated |
| Layout.LayoutSplit | Nirvash.py:145-147 | the layout is the lines before `k`, then the wrapped line `k`, then the lines after `k`; this is in-order flattening |
| Layout.LayoutConserves | Nirvash.py:143-148 | all display lines joined together equal all filtered logical lines joined together |
| Layout.LayoutFitsBudget | Nirvash.py:143-148 | from width 4 up, every display line of the document fits in `width - 2` columns |
| Layout.ShortLinesUnwrapped | Nirvash.py:143-148 | from width 4 up, when every logical line fits in `width - 2` columns after filtering, blank lines included, the layout is exactly the filtered lines |
| Layout.ThreeShortLines | Nirvash.py:143-148 | three lines of ten narrow characters at width 40 give exactly those three display lines |
| Scroll.MaxLine | Nirvash.py:164 | from the last useful offset, the `height - 1` visible rows reach the last display line, and no later offset is needed |
| Scroll.Clamp | Nirvash.py:165 | the clamp never goes past the last useful offset and never increases the offset; an offset in range is unchanged, and a non-negative one stays non-negative |
| Scroll.ScrollUp | Nirvash.py:185-186 | the up key moves one line back but never above line 0 |
| Scroll.ScrollDown | Nirvash.py:187-188 | the down key moves one line forward but never past the last useful offset |
| Scroll.MovesStayInRange | Nirvash.py:185-188 | from an offset in `0..max_line`, both moves stay in range; away from the ends each undoes the other; at the ends they change nothing |
| Scroll.ClampIdempotent | Nirvash.py:164-165 | clamping an already clamped offset changes nothing |
| Scroll.TruncDiv | Nirvash.py:168 | `int()` of the quotient truncates toward zero, on both signs |
| Scroll.Progress | Nirvash.py:166-170 | progress is 100 when the whole document fits; otherwise it lies in 0..100 for offsets in range, is 0 at offset 0 and is 100 at the last offset |
| Scroll.ProgressMonotone | Nirvash.py:166-170 | reading further never shows a smaller percentage |
| Scroll.ShortDocumentFullyRead | Nirvash.py:164-170 | when the document fits above the status line, the offset clamps to 0 and the progress is 100 |
| Reader.StartOffset | Nirvash.py:138-141 | a file opens at its saved offset, or at 0 when none is saved |
| Reader.Open | Nirvash.py:134-151 | an opened file keeps its name, lines and terminal size, is laid out at the terminal width, starts at its saved offset or 0, and is a valid session when the saved offset is not negative |
| Reader.StatusProgress | Nirvash.py:163-172 | the percentage in the status line lies in 0..100, and it is 100 when the document fits above the status line |
| Reader.Tick | Nirvash.py:163-205 | one pass leaves the up-moved clamped offset on the up key, the down-moved one on the down key, and the clamped offset itself on every other key; it closes if and only if the key is quit; only a resize changes the size, and then the layout is rebuilt from the same lines at the new width; a non-negative offset stays non-negative, and it ends in range except after a resize |
| Reader.Run | Nirvash.py:163-191 | the loop closes if and only if a quit key is among the keys, never changes the file, and from a non-negative offset closes with an offset in range |
| Reader.ReadFile | Nirvash.py:124-191 | reading a file leaves every other name of the positions map as it was; an unreadable file or keys without a quit leave the whole map unchanged; a readable file with a quit gets an entry under its name |
| Reader.TickKeepsValid | Nirvash.py:163-205 | one pass of the loop keeps the layout matched to the lines and width, and keeps the offset non-negative; except after a resize, it leaves the offset in range |
| Reader.RunKeepsValid | Nirvash.py:163-191 | over any keys, the loop keeps the session valid, and when it closes, the offset is in range for the final layout |
| Reader.ReadFileStores | Nirvash.py:124-191 | an unreadable file leaves the positions unchanged; every other name is left alone; for a readable file whose keys hold a quit, the loop closes and the file's name holds the clamped offset of the closed session, in range of the final layout |
| Reader.ReopenResumes | Nirvash.py:138-190 | after a file is quit, opening it again from the stored map, at any terminal size, starts at the offset it was left at, and that offset is not negative |
| Reader.QuitAtOnce | Nirvash.py:138-165 | an immediate quit stores the saved offset, or 0 when none is saved, clamped to the layout |
| Reader.ResizeThenClamp | Nirvash.py:192-195 | after a resize, the next clamp gives the smaller of the previous clamped offset and the new last useful offset |
| Reader.ResizeExample | Nirvash.py:192-195 | clamped offset 8, then a resize to 10 rows with a 15-line layout, clamps to 6 |
| Reader.SavedPositionExample | Nirvash.py:138-190 | saved offset 5 with 50 display lines in 20 rows opens at 5; one line down and quit stores 6 |
| Browser.StartValid | Nirvash.py:37-38 | the picker starts with a valid cursor on a non-empty list |
| Browser.MoveUp | Nirvash.py:63-67 | on a valid cursor, the up key keeps `0 <= top_file <= selected <= n - 1` and `selected <= top_file + height - 2`; it selects the previous file; `top_file` stays unless the new selection is above it, and then becomes the selection; at index 0 it changes nothing |
| Browser.MoveDown | Nirvash.py:68-72 | on a valid cursor, the down key keeps the same invariant; it selects the next file; `top_file` stays unless the new selection is below the window, and then the selection is on the window's last row, `top_file + height - 2`; at index `n - 1` it changes nothing |
| Browser.MovesUndoEachOther | Nirvash.py:63-72 | away from the ends of the list, down then up (or up then down) returns to the same file |
| Browser.SelectedIsDrawn | Nirvash.py:47-53 | the selected file is among the rows the picker draws |
| Browser.Browse | Nirvash.py:40-86 | the map saved on quit has the same entries as the loaded one for every name that is not a listed file |
| Browser.OpenedNames | Nirvash.py:73-75 | every file the picker opens is a name from the list |
| Browser.SavedNames | Nirvash.py:73-75 | the files quit from the reading loop are among the files opened |
| Browser.BrowseStores | Nirvash.py:62-86 | the map saved on quit keeps every earlier key, adds only names of listed files, holds an entry for every file quit from the reading loop, keeps the entry of every file that was never opened exactly as it was, and holds only non-negative offsets |

## Left out

- Drawing is not modelled. This covers curses windows and pads, `addstr`/`refresh`, the placeholder strings shown when a row cannot be drawn, and the cursor hiding. These are screen side effects with no logic in them.
- Locale setup is not modelled. It only configures the environment.
- Directory listing, file reading and the JSON store are not modelled. These are I/O. A file's contents are a parameter, and `None` stands for a file that cannot be opened. When loading the positions file, a corrupt file makes `json.load` raise; the program does not fall back to an empty map, and the model does not claim it does. The save on quit is modelled only as the map `Browse` returns.
- The picker's early return when there are no `.txt` files is not modelled. In that case the positions file is not written. The picker model assumes a non-empty list.
- Unicode tables are not modelled. `east_asian_width`, `category`, `isprintable` and `isspace` are the abstract fields of `Classifier`. Characters with zero intrinsic width, such as combining marks, count as one column, as in the source.
- Scroll.Progress: the model uses the exact rational quotient truncated toward zero. The source computes `int((c / m) * 100)` in floating point, which can be one less (`c = 29, m = 100` gives 28). So only bounds, endpoints and monotonicity are claimed, and no exact values.
- Wrap.ProcessLineGreedy, Wrap.LinesFitBudget and Layout.LayoutFitsBudget are proved only from width 4 up. Below that, a lone wide character is emitted over budget after an empty line, as `Wrap.NarrowTerminal` shows.
- Browser.MoveDown assumes the terminal height does not change. On resize the picker only redraws and does not adjust `top_file`, so a smaller height can leave the selection below the window. `Browse` also uses the picker's height as the reader's starting height.
- Reader.ReadFileStores assumes a saved offset for the file is not negative. A negative offset from the positions file is never raised to 0 by the clamp. The model keeps offsets as integers and does not hide this; `Scroll.Clamp` keeps a negative offset negative.
- Browser.Browse: an `OpenFile` event whose keys hold no quit returns to the picker with the map unchanged. The program cannot do that, because `read_file` loops until the quit key; such an event stands for input that ends while a file is being read, and the frame lemmas hold for it as well.
- The `basename` of the joined path is not modelled. Sessions carry the file name directly, which is the name from the listing.
