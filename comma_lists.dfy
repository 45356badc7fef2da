/**
 * Comma-separated lists as the task forms keep them: a task's `dependencies`
 * string, the assignee text typed into the details dialog and the tag input.
 * Reading one splits on `,`, trims each piece and drops the empty ones.
 */
module CommaLists {
  import opened Seqs
  import opened Text

  /** Each piece trimmed, in order: `.map(d => d.trim())`. */
  function Trims(parts: seq<string>): (r: seq<string>)
    ensures |r| == |parts|
    decreases |parts|
  {
    if parts == [] then [] else [Trim(parts[0])] + Trims(parts[1..])
  }

  /** The `i`-th trimmed piece is the `i`-th piece trimmed. */
  lemma {:induction false} TrimsAt(parts: seq<string>, i: nat)
    requires i < |parts|
    ensures Trims(parts)[i] == Trim(parts[i])
    decreases |parts|
  {
    if i > 0 {
      TrimsAt(parts[1..], i - 1);
    }
  }

  /** `.filter(Boolean)` on strings: the non-empty ones. */
  function NonBlank(parts: seq<string>): seq<string> {
    Filter(parts, Except(""))
  }

  /** The test `x => x !== entry`. */
  function Except(entry: string): string -> bool {
    (x: string) => x != entry
  }

  /**
   * `s.split(",").map(d => d.trim()).filter(Boolean)`: a parsed list holds
   * items only, each non-empty, trimmed and comma-free.
   */
  function Parse(s: string): (r: seq<string>)
    ensures forall x | x in r :: IsItem(x)
  {
    PiecesTrimmed(s);
    NonBlank(Trims(Split(s, ',')))
  }

  /** A string that reads back as exactly one entry: non-empty, trimmed and free of commas. */
  predicate IsItem(x: string) {
    x != "" && Trimmed(x) && ',' !in x
  }

  /** Reading a list written as `a + "," + b` reads the two sides in turn. */
  lemma ParseConcat(a: string, b: string)
    ensures Parse(a + "," + b) == Parse(a) + Parse(b)
  {
    var pa, pb := Split(a, ','), Split(b, ',');
    assert a + "," + b == a + [','] + b;
    SplitConcat(a, b, ',');
    TrimsConcat(pa, pb);
    FilterConcat(Trims(pa), Trims(pb), Except(""));
  }

  lemma {:induction false} TrimsConcat(xs: seq<string>, ys: seq<string>)
    ensures Trims(xs + ys) == Trims(xs) + Trims(ys)
    decreases |xs|
  {
    if xs != [] {
      assert (xs + ys)[1..] == xs[1..] + ys;
      TrimsConcat(xs[1..], ys);
    } else {
      assert xs + ys == ys;
    }
  }

  /** A space in front of a list does not change what it reads as. */
  lemma ParseLeadingSpace(s: string)
    ensures Parse(" " + s) == Parse(s)
  {
    var parts := Split(s, ',');
    var spaced := Split(" " + s, ',');
    assert spaced == [" " + parts[0]] + parts[1..] by {
      assert (" " + s)[0] == ' ';
      assert (" " + s)[1..] == s;
    }
    TrimLeadingSpace(parts[0]);
    assert Trims(spaced) == Trims(parts);
  }

  /** Reading `a + ", " + b` reads the two sides in turn. */
  lemma ParseCommaSpace(a: string, b: string)
    ensures Parse(a + ", " + b) == Parse(a) + Parse(b)
  {
    CommaSpace(a, b);
    ParseConcat(a, " " + b);
    ParseLeadingSpace(b);
  }

  lemma CommaSpace(a: string, b: string)
    ensures a + ", " + b == a + "," + (" " + b)
  {
  }

  /** A single item reads as itself. */
  lemma ParseItem(x: string)
    ensures IsItem(x) ==> Parse(x) == [x]
  {
    if IsItem(x) {
      SplitNoSep(x, ',');
      TrimTrimmed(x);
    }
  }

  /** The empty string reads as the empty list. */
  lemma ParseEmpty()
    ensures Parse("") == []
  {
    assert Split("", ',') == [""];
  }

  /**
   * Joining trimmed, comma-free pieces with `", "` and reading the result back
   * gives the non-empty pieces.
   */
  lemma {:induction false} ParseJoin(xs: seq<string>)
    requires forall i | 0 <= i < |xs| :: Trimmed(xs[i]) && ',' !in xs[i]
    ensures Parse(Join(xs, ", ")) == NonBlank(xs)
    decreases |xs|
  {
    if xs == [] {
      ParseEmpty();
    } else if |xs| == 1 {
      ParseSingle(xs[0]);
    } else {
      ParseJoinStep(xs[0], xs[1..]);
      ParseJoin(xs[1..]);
      NonBlankCons(xs);
    }
  }

  lemma NonBlankCons(xs: seq<string>)
    requires xs != []
    ensures NonBlank(xs) == NonBlank([xs[0]]) + NonBlank(xs[1..])
  {
    assert xs == [xs[0]] + xs[1..];
    FilterConcat([xs[0]], xs[1..], Except(""));
  }

  /** A trimmed, comma-free piece reads as itself unless it is empty. */
  lemma ParseSingle(x: string)
    requires Trimmed(x) && ',' !in x
    ensures Parse(x) == NonBlank([x])
  {
    SplitNoSep(x, ',');
    TrimTrimmed(x);
  }

  lemma ParseJoinStep(x: string, rest: seq<string>)
    requires Trimmed(x) && ',' !in x
    requires |rest| >= 1
    ensures Parse(Join([x] + rest, ", ")) == NonBlank([x]) + Parse(Join(rest, ", "))
  {
    var xs := [x] + rest;
    assert xs[1..] == rest;
    assert Join(xs, ", ") == x + ", " + Join(rest, ", ");
    ParseCommaSpace(x, Join(rest, ", "));
    ParseSingle(x);
  }

  /**
   * Appending to the raw text: `current + ", " + item` when the list already has
   * an entry, otherwise the item alone. The current text is kept verbatim,
   * blank pieces and spacing included, and reads as the old entries followed
   * by the item.
   */
  function AppendRaw(current: string, item: string): (r: string)
    ensures IsItem(item) ==> Parse(r) == Parse(current) + [item]
  {
    ParseItem(item);
    if |Parse(current)| > 0 then
      AppendSpacedParses(current, item);
      current + ", " + item
    else
      item
  }

  lemma AppendSpacedParses(current: string, item: string)
    ensures IsItem(item) ==> Parse(current + ", " + item) == Parse(current) + [item]
  {
    ParseItem(item);
    ParseCommaSpace(current, item);
  }

  /**
   * Appending by rewriting the list: the parsed entries plus the new one, joined
   * with `", "`; blank pieces and odd spacing of the old text are normalised
   * away, and the result reads as the old entries followed by the item.
   */
  function AppendNormalised(current: string, item: string): (r: string)
    ensures IsItem(item) ==> Parse(r) == Parse(current) + [item]
  {
    var xs := Parse(current) + [item];
    JoinItemsParses(xs);
    Join(xs, ", ")
  }

  /** A list of items joined with `", "` reads back as itself. */
  lemma JoinItemsParses(xs: seq<string>)
    ensures (forall x | x in xs :: IsItem(x)) ==> Parse(Join(xs, ", ")) == xs
  {
    if forall x | x in xs :: IsItem(x) {
      assert forall i | 0 <= i < |xs| :: IsItem(xs[i]);
      ParseJoin(xs);
      FilterKeepsAll(xs, Except(""));
    }
  }

  /**
   * Removing an entry: split, trim each piece, drop every piece equal to
   * `entry` and join the rest with `", "`. Blank pieces are not dropped, yet
   * the result reads as before with every occurrence of the entry gone.
   */
  function Remove(current: string, entry: string): (r: string)
    ensures Parse(r) == Filter(Parse(current), Except(entry))
  {
    RemovedPiecesParse(current, entry);
    Join(Filter(Trims(Split(current, ',')), Except(entry)), ", ")
  }

  lemma RemovedPiecesParse(current: string, entry: string)
    ensures Parse(Join(Filter(Trims(Split(current, ',')), Except(entry)), ", ")) == Filter(Parse(current), Except(entry))
  {
    var pieces := Trims(Split(current, ','));
    var kept := Filter(pieces, Except(entry));
    PiecesTrimmed(current);
    forall i | 0 <= i < |kept| ensures Trimmed(kept[i]) && ',' !in kept[i] {
      var x := kept[i];
      assert x in kept;
      assert x in pieces;
    }
    ParseJoin(kept);
    FilterCommute(pieces, Except(entry), Except(""));
  }

  /** Every trimmed piece of a split is trimmed and comma-free. */
  lemma PiecesTrimmed(s: string)
    ensures forall x | x in Trims(Split(s, ',')) :: Trimmed(x) && ',' !in x
  {
    var parts := Split(s, ',');
    var pieces := Trims(parts);
    forall i | 0 <= i < |pieces| ensures Trimmed(pieces[i]) && ',' !in pieces[i] {
      TrimsAt(parts, i);
      TrimKeepsInfix(parts[i]);
      assert ',' !in parts[i];
    }
  }

  /** Two filters can be applied in either order. */
  lemma {:induction false} FilterCommute<T>(s: seq<T>, p: T -> bool, q: T -> bool)
    ensures Filter(Filter(s, p), q) == Filter(Filter(s, q), p)
    decreases |s|
  {
    if s != [] {
      FilterCommute(s[1..], p, q);
    }
  }
}
