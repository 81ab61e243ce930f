/**
 Reading loop of the reader (`read_file`): a file is opened at its saved
 offset, the offset is clamped at the top of every pass, the arrow keys move
 it, a resize lays the document out again, and quitting stores the offset
 under the file's name in the positions map.
 */
module Reader {
  import opened Width
  import opened Layout
  import opened Scroll

  datatype Option<T> = None | Some(value: T)

  /** The keys the reading loop reacts to; a resize carries the terminal's new
      height and width. Every other key only re-runs the loop. */
  datatype Key = KeyUp | KeyDown | Quit | Resize(height: int, width: int) | Other

  /** An open file: its name, its logical lines, the terminal size, the
      current layout and the offset of the first visible display line. */
  datatype Session = Session(
    name: string,
    lines: seq<string>,
    height: int,
    width: int,
    display: seq<string>,
    offset: int)

  /** After a pass of the loop: still reading, or closed with the offset that
      is stored. */
  datatype Next = Reading(session: Session) | Closed(session: Session)

  function MaxOffset(s: Session): nat
  {
    MaxLine(|s.display|, s.height)
  }

  /** The layout matches the lines and width, and the offset is not negative. */
  ghost predicate Valid(u: Classifier, s: Session)
  {
    s.display == CreateDisplayLines(u, s.lines, s.width) && s.offset >= 0
  }

  /** Where a file opens: its saved offset, or the first line. */
  function StartOffset(positions: map<string, int>, name: string): (o: int)
    ensures name in positions ==> o == positions[name]
    ensures name !in positions ==> o == 0
  {
    if name in positions then positions[name] else 0
  }

  /** Opening a file lays it out at the current width and starts at its
      saved offset, or at the first line when none is saved. */
  function Open(u: Classifier, positions: map<string, int>, name: string, lines: seq<string>,
                height: int, width: int): (s: Session)
    ensures s.name == name && s.lines == lines && s.height == height && s.width == width
    ensures s.display == CreateDisplayLines(u, lines, width)
    ensures name in positions ==> s.offset == positions[name]
    ensures name !in positions ==> s.offset == 0
    ensures (name in positions ==> positions[name] >= 0) ==> Valid(u, s)
  {
    Session(name, lines, height, width, CreateDisplayLines(u, lines, width), StartOffset(positions, name))
  }

  /** The percentage in the status line for the current pass. */
  function StatusProgress(s: Session): (p: int)
    ensures s.offset >= 0 ==> 0 <= p <= 100
    ensures |s.display| <= s.height - 1 ==> p == 100
  {
    var m := MaxOffset(s);
    Progress(Clamp(s.offset, m), m)
  }

  /** One pass of the reading loop: clamp, then react to `key`. The arrows
      move the clamped offset one line; every other key, the quit key
      included, leaves the clamped offset. Only the quit key closes; only a
      resize changes the terminal size and the layout, which is then rebuilt
      from the lines; a non-negative offset stays non-negative, and apart from
      a resize it ends in range. */
  function Tick(u: Classifier, s: Session, key: Key): (r: Next)
    ensures r.Closed? <==> key.Quit?
    ensures key.KeyUp? ==> r.session.offset == ScrollUp(Clamp(s.offset, MaxOffset(s)))
    ensures key.KeyDown? ==> r.session.offset == ScrollDown(Clamp(s.offset, MaxOffset(s)), MaxOffset(s))
    ensures !key.KeyUp? && !key.KeyDown? ==> r.session.offset == Clamp(s.offset, MaxOffset(s))
    ensures r.session.name == s.name && r.session.lines == s.lines
    ensures key.Resize? ==> && r.session.height == key.height && r.session.width == key.width
                            && r.session.display == CreateDisplayLines(u, s.lines, key.width)
    ensures !key.Resize? ==> && r.session.height == s.height && r.session.width == s.width
                             && r.session.display == s.display
    ensures s.offset >= 0 ==> r.session.offset >= 0
    ensures s.offset >= 0 && !key.Resize? ==> InRange(r.session.offset, MaxOffset(r.session))
  {
    var m := MaxOffset(s);
    var c := Clamp(s.offset, m);
    match key
    case KeyUp => Reading(s.(offset := ScrollUp(c)))
    case KeyDown => Reading(s.(offset := ScrollDown(c, m)))
    case Quit => Closed(s.(offset := c))
    case Resize(h, w) =>
      Reading(s.(height := h, width := w, display := CreateDisplayLines(u, s.lines, w), offset := c))
    case Other => Reading(s.(offset := c))
  }

  /** The reading loop over a sequence of keys; it stops at the first quit.
      It closes exactly when a quit key is among `keys`, never changes the
      file, and a closed session from a non-negative start holds an offset in
      range. */
  function Run(u: Classifier, s: Session, keys: seq<Key>): (r: Next)
    ensures r.Closed? <==> Quit in keys
    ensures r.session.name == s.name && r.session.lines == s.lines
    ensures s.offset >= 0 ==> r.session.offset >= 0
    ensures s.offset >= 0 && r.Closed? ==> InRange(r.session.offset, MaxOffset(r.session))
    decreases |keys|
  {
    if keys == [] then Reading(s)
    else
      assert keys == [keys[0]] + keys[1..];
      match Tick(u, s, keys[0])
      case Closed(t) => Closed(t)
      case Reading(t) => Run(u, t, keys[1..])
  }

  /** `read_file`: an unreadable file leaves the positions alone; otherwise the
      offset at quit is stored under the file's name. Keys that end before a
      quit leave the session open and the positions not yet written. */
  function ReadFile(u: Classifier, positions: map<string, int>, name: string,
                    contents: Option<seq<string>>, height: int, width: int,
                    keys: seq<Key>): (r: map<string, int>)
    ensures forall k :: k != name ==> (k in r <==> k in positions) && (k in r ==> r[k] == positions[k])
    ensures contents.None? || Quit !in keys ==> r == positions
    ensures contents.Some? && Quit in keys ==> name in r
  {
    match contents
    case None => positions
    case Some(lines) =>
      match Run(u, Open(u, positions, name, lines, height, width), keys)
      case Closed(t) => positions[name := t.offset]
      case Reading(_) => positions
  }

  // ---------------------------------------------------------------------------

  /** A pass keeps the session valid and never changes the file; apart from a
      resize, the offset it leaves is in range for the layout. */
  lemma TickKeepsValid(u: Classifier, s: Session, key: Key)
    requires Valid(u, s)
    ensures Valid(u, Tick(u, s, key).session)
    ensures Tick(u, s, key).session.name == s.name
    ensures Tick(u, s, key).session.lines == s.lines
    ensures !key.Resize? ==> InRange(Tick(u, s, key).session.offset, MaxOffset(Tick(u, s, key).session))
  {
    MovesStayInRange(Clamp(s.offset, MaxOffset(s)), MaxOffset(s));
  }

  /** The loop keeps the session valid, and a closed session holds an offset
      in range for its final layout. */
  lemma {:induction false} RunKeepsValid(u: Classifier, s: Session, keys: seq<Key>)
    requires Valid(u, s)
    ensures Valid(u, Run(u, s, keys).session)
    ensures Run(u, s, keys).session.name == s.name
    ensures Run(u, s, keys).session.lines == s.lines
    ensures Run(u, s, keys).Closed? ==> InRange(Run(u, s, keys).session.offset, MaxOffset(Run(u, s, keys).session))
    decreases |keys|
  {
    if keys != [] {
      TickKeepsValid(u, s, keys[0]);
      if Tick(u, s, keys[0]).Reading? {
        RunKeepsValid(u, Tick(u, s, keys[0]).session, keys[1..]);
      }
    }
  }

  /** Reading a file changes the positions map at most under that file's name.
      A readable file whose keys hold a quit is stored: the loop closes, and the
      entry is the clamped offset of the closed session, in range of its final
      layout. */
  lemma ReadFileStores(u: Classifier, positions: map<string, int>, name: string,
                       contents: Option<seq<string>>, height: int, width: int, keys: seq<Key>)
    requires name in positions ==> positions[name] >= 0
    ensures var r := ReadFile(u, positions, name, contents, height, width, keys);
            forall k :: k != name ==> (k in r <==> k in positions) && (k in r ==> r[k] == positions[k])
    ensures contents.Some? ==>
              var outcome := Run(u, Open(u, positions, name, contents.value, height, width), keys);
              var r := ReadFile(u, positions, name, contents, height, width, keys);
              && (outcome.Reading? ==> r == positions)
              && (outcome.Closed? ==> name in r && r[name] == outcome.session.offset
                                      && InRange(r[name], MaxOffset(outcome.session)))
    ensures contents.None? ==> ReadFile(u, positions, name, contents, height, width, keys) == positions
    ensures contents.Some? && Quit in keys ==>
              var outcome := Run(u, Open(u, positions, name, contents.value, height, width), keys);
              var r := ReadFile(u, positions, name, contents, height, width, keys);
              && outcome.Closed?
              && name in r && r[name] == outcome.session.offset
              && InRange(r[name], MaxOffset(outcome.session))
  {
    if contents.Some? {
      RunKeepsValid(u, Open(u, positions, name, contents.value, height, width), keys);
    }
  }

  /** Reopening a file after quitting it starts where it was left: the store
      and the lookup of the start offset are partners. */
  lemma ReopenResumes(u: Classifier, positions: map<string, int>, name: string, lines: seq<string>,
                      height: int, width: int, keys: seq<Key>, height': int, width': int)
    requires name in positions ==> positions[name] >= 0
    requires Quit in keys
    ensures var left := Run(u, Open(u, positions, name, lines, height, width), keys).session.offset;
            var r := ReadFile(u, positions, name, Some(lines), height, width, keys);
            && StartOffset(r, name) == left
            && Open(u, r, name, lines, height', width').offset == left
            && left >= 0
  {
    ReadFileStores(u, positions, name, Some(lines), height, width, keys);
  }

  /** Quitting at once stores the saved offset (or 0), clamped to the layout. */
  lemma QuitAtOnce(u: Classifier, positions: map<string, int>, name: string,
                   lines: seq<string>, height: int, width: int)
    ensures ReadFile(u, positions, name, Some(lines), height, width, [Quit])
         == positions[name := Clamp(StartOffset(positions, name),
                                    MaxLine(|CreateDisplayLines(u, lines, width)|, height))]
  {
    var s := Open(u, positions, name, lines, height, width);
    var t := s.(offset := Clamp(s.offset, MaxOffset(s)));
    assert Tick(u, s, Quit) == Closed(t);
    assert Run(u, s, [Quit]) == Closed(t);
  }

  /** After a resize the next clamp gives the older clamped offset or the new
      last useful offset, whichever is smaller. */
  lemma ResizeThenClamp(u: Classifier, s: Session, h: int, w: int)
    ensures var t := Tick(u, s, Resize(h, w)).session;
            var before := Clamp(s.offset, MaxOffset(s));
            var newMax := MaxLine(|CreateDisplayLines(u, s.lines, w)|, h);
            Clamp(t.offset, MaxOffset(t)) == (if before < newMax then before else newMax)
  {
  }

  /** Offset 8 with a new layout of 15 lines in 10 rows clamps to 6. */
  lemma ResizeExample(u: Classifier, s: Session, w: int)
    requires Clamp(s.offset, MaxOffset(s)) == 8
    requires |CreateDisplayLines(u, s.lines, w)| == 15
    ensures var t := Tick(u, s, Resize(10, w)).session;
            Clamp(t.offset, MaxOffset(t)) == 6
  {
    ResizeThenClamp(u, s, 10, w);
  }

  /** A file saved at offset 5, with 50 display lines in 20 rows, opens at 5;
      one line down and quit stores 6. */
  lemma SavedPositionExample(u: Classifier, positions: map<string, int>, lines: seq<string>, width: int)
    requires "a.txt" in positions && positions["a.txt"] == 5
    requires |CreateDisplayLines(u, lines, width)| == 50
    ensures Open(u, positions, "a.txt", lines, 20, width).offset == 5
    ensures ReadFile(u, positions, "a.txt", Some(lines), 20, width, [KeyDown, Quit])
         == positions["a.txt" := 6]
  {
    var s := Open(u, positions, "a.txt", lines, 20, width);
    assert MaxOffset(s) == 31;
    var t := s.(offset := 6);
    assert Tick(u, s, KeyDown) == Reading(t);
    assert Tick(u, t, Quit) == Closed(t);
    assert Run(u, s, [KeyDown, Quit]) == Run(u, t, [Quit]) by {
      assert [KeyDown, Quit][1..] == [Quit];
    }
    assert Run(u, t, [Quit]) == Closed(t);
  }
}
