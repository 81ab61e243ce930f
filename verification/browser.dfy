/**
 File picker of the reader (`main`): a cursor over the fixed list of text
 files, a window of `height - 1` rows that follows it, and the positions map
 that every opened file may update before it is saved on quit.
 */
module Browser {
  import opened Width
  import opened Reader

  /** The selected file and the first file shown in the window. */
  datatype Cursor = Cursor(selected: int, top: int)

  const Start: Cursor := Cursor(0, 0)

  /** The selection is a file of the list and lies in the window of
      `height - 1` rows that starts at `top`. */
  predicate CursorValid(c: Cursor, count: int, height: int)
  {
    0 <= c.top <= c.selected <= count - 1 && c.selected <= c.top + height - 2
  }

  /** The up-arrow: select the previous file, scrolling the window up to it.
      `count` and `height` only name the list and window the contract is about. */
  function MoveUp(c: Cursor, count: int, height: int): (r: Cursor)
    ensures CursorValid(c, count, height) && height >= 2 ==> CursorValid(r, count, height)
    ensures c.selected > 0 ==> r.selected == c.selected - 1
    // the window moves only when the new selection is above it, and then starts at it
    ensures c.selected > 0 && c.selected - 1 >= c.top ==> r.top == c.top
    ensures c.selected > 0 && c.selected - 1 < c.top ==> r.top == r.selected
    ensures c.selected <= 0 ==> r == c
  {
    if c.selected > 0 then
      var s := c.selected - 1;
      Cursor(s, if s < c.top then s else c.top)
    else c
  }

  /** The down-arrow: select the next file, scrolling the window so that it is
      on the last row. */
  function MoveDown(c: Cursor, count: int, height: int): (r: Cursor)
    ensures CursorValid(c, count, height) && height >= 2 ==> CursorValid(r, count, height)
    ensures c.selected < count - 1 ==> r.selected == c.selected + 1
    // the window moves only when the new selection is below its last row, and
    // then ends at it
    ensures c.selected < count - 1 && c.selected + 1 < c.top + height - 1 ==> r.top == c.top
    ensures c.selected < count - 1 && c.selected + 1 >= c.top + height - 1 ==> r.selected == r.top + height - 2
    ensures c.selected >= count - 1 ==> r == c
  {
    if c.selected < count - 1 then
      var s := c.selected + 1;
      Cursor(s, if s >= c.top + height - 1 then s - height + 2 else c.top)
    else c
  }

  /** The picker starts on the first file, at the top of the list. */
  lemma StartValid(count: int, height: int)
    requires count >= 1 && height >= 2
    ensures CursorValid(Start, count, height)
  {
  }

  /** Up then down, or down then up, away from the ends, returns to the same
      file. */
  lemma MovesUndoEachOther(c: Cursor, count: int, height: int)
    requires height >= 2
    requires CursorValid(c, count, height)
    ensures c.selected < count - 1 ==> MoveUp(MoveDown(c, count, height), count, height).selected == c.selected
    ensures c.selected > 0 ==> MoveDown(MoveUp(c, count, height), count, height).selected == c.selected
  {
  }

  /** The selected file is among the rows drawn: rows `top` up to, but not
      including, `min(top + height - 1, count)`. */
  lemma SelectedIsDrawn(c: Cursor, count: int, height: int)
    requires CursorValid(c, count, height)
    ensures c.top <= c.selected
    ensures c.selected < c.top + height - 1 && c.selected < count
  {
  }

  /** The picker's keys; `OpenFile` reads the selected file with the given
      contents, terminal width and reader keys. */
  datatype Event =
    | ArrowUp
    | ArrowDown
    | OpenFile(contents: Option<seq<string>>, width: int, keys: seq<Key>)
    | Redraw

  /** The picker loop up to its quit key: the cursor moves, and every opened
      file goes through the reading loop with the shared positions map. The
      result is the map that is saved on quit; names outside the list are
      carried through untouched. */
  function Browse(u: Classifier, files: seq<string>, height: int, c: Cursor,
                  positions: map<string, int>, events: seq<Event>): (r: map<string, int>)
    requires height >= 2
    requires CursorValid(c, |files|, height)
    ensures forall k :: k !in files ==> (k in r <==> k in positions) && (k in r ==> r[k] == positions[k])
    decreases |events|
  {
    if events == [] then positions
    else
      match events[0]
      case ArrowUp => Browse(u, files, height, MoveUp(c, |files|, height), positions, events[1..])
      case ArrowDown => Browse(u, files, height, MoveDown(c, |files|, height), positions, events[1..])
      case OpenFile(contents, width, keys) =>
        var p := ReadFile(u, positions, files[c.selected], contents, height, width, keys);
        Browse(u, files, height, c, p, events[1..])
      case Redraw => Browse(u, files, height, c, positions, events[1..])
  }

  /** The names of the files the picker opens along `events`: the selection at
      every `OpenFile`. They are all names from the list. */
  ghost function OpenedNames(files: seq<string>, height: int, c: Cursor, events: seq<Event>): (names: set<string>)
    requires height >= 2
    requires CursorValid(c, |files|, height)
    ensures forall k :: k in names ==> k in files
    decreases |events|
  {
    if events == [] then {}
    else
      match events[0]
      case ArrowUp => OpenedNames(files, height, MoveUp(c, |files|, height), events[1..])
      case ArrowDown => OpenedNames(files, height, MoveDown(c, |files|, height), events[1..])
      case OpenFile(_, _, _) => {files[c.selected]} + OpenedNames(files, height, c, events[1..])
      case Redraw => OpenedNames(files, height, c, events[1..])
  }

  /** The files whose reading loop ends with the quit key along `events`: a
      readable selection at an `OpenFile` whose keys hold a quit. */
  ghost function SavedNames(files: seq<string>, height: int, c: Cursor, events: seq<Event>): (names: set<string>)
    requires height >= 2
    requires CursorValid(c, |files|, height)
    ensures names <= OpenedNames(files, height, c, events)
    decreases |events|
  {
    if events == [] then {}
    else
      match events[0]
      case ArrowUp => SavedNames(files, height, MoveUp(c, |files|, height), events[1..])
      case ArrowDown => SavedNames(files, height, MoveDown(c, |files|, height), events[1..])
      case OpenFile(contents, _, keys) =>
        var rest := SavedNames(files, height, c, events[1..]);
        if contents.Some? && Quit in keys then {files[c.selected]} + rest else rest
      case Redraw => SavedNames(files, height, c, events[1..])
  }

  /** Offsets in the store are never negative. */
  ghost predicate NonNegative(positions: map<string, int>)
  {
    forall k :: k in positions ==> positions[k] >= 0
  }

  /** The saved map keeps every earlier entry's key, adds only names of listed
      files, holds an entry for every file quit from the reading loop, leaves
      the entry of every file that was never opened exactly as it was, and
      holds only non-negative offsets when it started that way. */
  lemma {:induction false} BrowseStores(u: Classifier, files: seq<string>, height: int, c: Cursor,
                                        positions: map<string, int>, events: seq<Event>)
    requires height >= 2
    requires CursorValid(c, |files|, height)
    requires NonNegative(positions)
    ensures var r := Browse(u, files, height, c, positions, events);
            && positions.Keys <= r.Keys
            && (forall k :: k in r && k !in positions ==> k in files)
            && SavedNames(files, height, c, events) <= r.Keys
            && (forall k :: k !in OpenedNames(files, height, c, events) ==>
                  (k in r <==> k in positions) && (k in r ==> r[k] == positions[k]))
            && NonNegative(r)
    decreases |events|
  {
    if events != [] {
      match events[0]
      case ArrowUp =>
        BrowseStores(u, files, height, MoveUp(c, |files|, height), positions, events[1..]);
      case ArrowDown =>
        BrowseStores(u, files, height, MoveDown(c, |files|, height), positions, events[1..]);
      case OpenFile(contents, width, keys) =>
        var name := files[c.selected];
        var p := ReadFile(u, positions, name, contents, height, width, keys);
        ReadFileStores(u, positions, name, contents, height, width, keys);
        assert NonNegative(p);
        BrowseStores(u, files, height, c, p, events[1..]);
      case Redraw =>
        BrowseStores(u, files, height, c, positions, events[1..]);
    }
  }
}
