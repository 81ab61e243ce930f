/**
 Width classifier of the reader: how many terminal columns a character and a
 string occupy. The Unicode property tables the reader consults are not
 modelled; they are carried as an abstract `Classifier` value whose fields are
 total predicates on characters.
 */
module Width {

  /** The Unicode facts the reader asks about a character.
      - eastAsianWide: the East-Asian-width class is F, W or A
      - categoryC:     the general category belongs to group "C" (control, format, ...)
      - printable:     Python's `str.isprintable` holds for the character
      - whitespace:    Python's `str.isspace` holds (what `rstrip()` removes) */
  datatype Classifier = Classifier(
    eastAsianWide: char -> bool,
    categoryC: char -> bool,
    printable: char -> bool,
    whitespace: char -> bool)

  /** Columns taken by one character: two for wide characters, one for every
      other character (combining marks included). */
  function CharWidth(u: Classifier, c: char): (w: nat)
    ensures w == 1 || w == 2
    ensures w == 2 <==> u.eastAsianWide(c)
  {
    if u.eastAsianWide(c) then 2 else 1
  }

  /** Columns taken by a string: the per-character widths summed left to right. */
  function DisplayWidth(u: Classifier, s: string): (w: nat)
    ensures |s| <= w <= 2 * |s|
  {
    if s == [] then 0 else CharWidth(u, s[0]) + DisplayWidth(u, s[1..])
  }

  /** The rule used inline while wrapping agrees with the string width of a
      one-character string. */
  lemma SingleCharWidth(u: Classifier, c: char)
    ensures DisplayWidth(u, [c]) == CharWidth(u, c)
  {
    assert [c][1..] == [];
  }

  /** Width is additive over concatenation. */
  lemma {:induction false} WidthAppend(u: Classifier, s: string, t: string)
    ensures DisplayWidth(u, s + t) == DisplayWidth(u, s) + DisplayWidth(u, t)
  {
    if s == [] {
      assert s + t == t;
    } else {
      assert (s + t)[0] == s[0];
      assert (s + t)[1..] == s[1..] + t;
      WidthAppend(u, s[1..], t);
    }
  }

  /** Appending one character adds exactly that character's width. */
  lemma WidthSnoc(u: Classifier, s: string, c: char)
    ensures DisplayWidth(u, s + [c]) == DisplayWidth(u, s) + CharWidth(u, c)
  {
    WidthAppend(u, s, [c]);
    SingleCharWidth(u, c);
  }

  /** A prefix never takes more columns than the whole string. */
  lemma WidthPrefix(u: Classifier, s: string, k: nat)
    requires k <= |s|
    ensures DisplayWidth(u, s[..k]) <= DisplayWidth(u, s)
  {
    assert s == s[..k] + s[k..];
    WidthAppend(u, s[..k], s[k..]);
  }

  /** A string takes twice its length in columns exactly when every character
      in it is wide. */
  lemma {:induction false} AllWideIff(u: Classifier, s: string)
    ensures DisplayWidth(u, s) == 2 * |s| <==> forall i :: 0 <= i < |s| ==> u.eastAsianWide(s[i])
  {
    if s != [] {
      AllWideIff(u, s[1..]);
      assert forall i :: 1 <= i < |s| ==> s[i] == s[1..][i - 1];
    }
  }

  /** A string takes exactly its length in columns exactly when no character in
      it is wide. */
  lemma {:induction false} NoneWideIff(u: Classifier, s: string)
    ensures DisplayWidth(u, s) == |s| <==> forall i :: 0 <= i < |s| ==> !u.eastAsianWide(s[i])
  {
    if s != [] {
      NoneWideIff(u, s[1..]);
      assert forall i :: 1 <= i < |s| ==> s[i] == s[1..][i - 1];
    }
  }
}
