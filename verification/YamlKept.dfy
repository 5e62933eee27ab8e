/** Which lines an edit leaves as they are: all but one, or all of them
    (internal/config/edit.go). */
module YamlKept {
  import opened Common
  import opened YamlWalk

  // The end of a section at an indentation: blank lines, then the end of the
  // file or a key further out.
  predicate SectionEnds(b: seq<Row>, indent: nat) {
    b == [] || (b[0].head.Key? && b[0].head.indent < indent) || (b[0].head.Blank? && SectionEnds(b[1..], indent))
  }

  /** Lines put in at the end of a section, before the blank lines that follow it. */
  predicate PutIn(b: seq<Row>, now: seq<Row>, at: nat, lines: seq<Row>, indent: nat) {
    && at <= |b| && now == b[..at] + lines + b[at..]
    && (at > 0 ==> !b[at - 1].head.Blank?) && SectionEnds(b[at..], indent)
  }

  /** The first k parts of a path are there, and the next is not. */
  predicate Missing(b: seq<Row>, parts: seq<string>, indent: nat, k: nat)
    requires k < |parts|
  {
    (k > 0 ==> Lookup(b, parts[..k], indent).Some?) && Lookup(b, parts[..k + 1], indent) == None
  }

  /** A setting changes the line its path names, in place, or puts in the lines of
      the keys that are missing. */
  predicate SetAt(b: seq<Row>, now: seq<Row>, parts: seq<string>, indent: nat, w: Writer, at: nat, k: nat)
    requires k < |parts|
  {
    match Lookup(b, parts, indent)
    case Some(row) => at < |b| && b[at] == row && now == b[at := w.edit(row)]
    case None =>
      var inner := indent + k * INDENT_STEP;
      Missing(b, parts, indent, k) && PutIn(b, now, at, w.branch(parts[k..], inner), inner)
  }

  lemma {:induction false} SectionAfter(x: seq<Row>, post: seq<Row>, indent: nat, outer: nat)
    requires SectionEnds(x, indent) && Ends(post, outer) && outer < indent
    ensures SectionEnds(x + post, indent)
  {
    if x == [] {
      assert x + post == post;
    } else if x[0].head.Blank? {
      assert (x + post)[1..] == x[1..] + post;
      SectionAfter(x[1..], post, indent, outer);
    }
  }

  // The blank lines from place at on, and what ends a section after them.
  lemma {:induction false} InsertEnds(b: seq<Row>, i: nat, at: nat, indent: nat)
    requires at <= i <= |b| && (at > 0 ==> !b[at - 1].head.Blank?)
    requires SectionEnds(b[i..], indent) ==> SectionEnds(b[at..], indent)
    ensures var r := InsertFrom(b, i, at, indent);
            (r > 0 ==> !b[r - 1].head.Blank?) && SectionEnds(b[r..], indent)
    decreases |b| - i
  {
    hide SectionEnds;
    if i < |b| {
      EndsStep(b, i, indent);
      if b[i].head.Blank? {
        InsertEnds(b, i + 1, at, indent);
      } else if !(b[i].head.Key? && b[i].head.indent < indent) {
        InsertEnds(b, i + 1, i + 1, indent);
      }
    } else {
      NothingEnds(indent);
      assert b[i..] == [];
    }
  }

  lemma NothingEnds(indent: nat)
    ensures SectionEnds([], indent)
  {
  }

  lemma EndsStep(b: seq<Row>, i: nat, indent: nat)
    requires i < |b|
    ensures SectionEnds(b[i..], indent) <==>
            (b[i].head.Key? && b[i].head.indent < indent) || (b[i].head.Blank? && SectionEnds(b[i + 1..], indent))
  {
    assert b[i..][0] == b[i] && b[i..][1..] == b[i + 1..];
  }

  lemma Here(pre: seq<Row>, row: Row, inner: seq<Row>, post: seq<Row>, line: Row)
    ensures var b := pre + [row] + inner + post;
            && pre + [line] + inner + post == b[|pre| := line] && b[|pre|] == row
            && pre + inner + post == b[..|pre|] + b[|pre| + 1..]
  {
  }

  lemma Within(pre: seq<Row>, row: Row, inner: seq<Row>, post: seq<Row>, n: nat, line: Row)
    requires n < |inner|
    ensures var b, at := pre + [row] + inner + post, |pre| + 1 + n;
            b[at] == inner[n] && pre + [row] + inner[n := line] + post == b[at := line]
  {
  }

  lemma TakenWithin(pre: seq<Row>, row: Row, inner: seq<Row>, post: seq<Row>, n: nat)
    requires n < |inner|
    ensures var b, at := pre + [row] + inner + post, |pre| + 1 + n;
            b[at] == inner[n] && pre + [row] + (inner[..n] + inner[n + 1..]) + post == b[..at] + b[at + 1..]
  {
    var b, at := pre + [row] + inner + post, |pre| + 1 + n;
    assert b[..at] == pre + [row] + inner[..n] && b[at + 1..] == inner[n + 1..] + post;
  }

  // A path that goes on below a key names what the rest of it names there.
  lemma LookupBelow(b: seq<Row>, parts: seq<string>, indent: nat)
    requires |parts| > 1 && Locate(b, indent, parts[0]) < |b|
    ensures Lookup(b, parts, indent) == Lookup(BlockAt(b, Locate(b, indent, parts[0]), indent), parts[1..], indent + INDENT_STEP)
  {
  }

  lemma MissingBelow(b: seq<Row>, parts: seq<string>, indent: nat, k: nat)
    requires k + 1 < |parts| && Locate(b, indent, parts[0]) < |b|
    requires Missing(BlockAt(b, Locate(b, indent, parts[0]), indent), parts[1..], indent + INDENT_STEP, k)
    ensures Missing(b, parts, indent, k + 1)
  {
    assert parts[..k + 1][1..] == parts[1..][..k] && parts[..k + 2][1..] == parts[1..][..k + 1];
    LookupBelow(b, parts[..k + 2], indent);
    if k > 0 { LookupBelow(b, parts[..k + 1], indent); }
  }

  lemma SetHere(b: seq<Row>, parts: seq<string>, indent: nat, w: Writer)
    requires parts != [] && Locate(b, indent, parts[0]) == |b|
    ensures SetAt(b, SetIn(b, parts, indent, w).value, parts, indent, w, InsertPoint(b, indent), 0)
  {
    var at := InsertPoint(b, indent);
    InsertEnds(b, 0, 0, indent);
    assert parts[0..] == parts && parts[..1][0] == parts[0];
    assert b[..at] + (w.branch(parts, indent) + b[at..]) == b[..at] + w.branch(parts, indent) + b[at..];
  }

  lemma SetInBelow(b: seq<Row>, parts: seq<string>, indent: nat, w: Writer)
      returns (pre: seq<Row>, row: Row, inner: seq<Row>, post: seq<Row>, now: seq<Row>)
    requires |parts| > 1 && Locate(b, indent, parts[0]) < |b| && SetIn(b, parts, indent, w).Ok?
    ensures inner == BlockAt(b, Locate(b, indent, parts[0]), indent) && |pre| == Locate(b, indent, parts[0])
    ensures b == pre + [row] + inner + post && row.head == Key(indent, parts[0]) && Ends(post, indent)
    ensures SetIn(inner, parts[1..], indent + INDENT_STEP, w) == Ok(now)
    ensures SetIn(b, parts, indent, w) == Ok(pre + [row] + now + post)
  {
    pre, row, inner, post := SplitAt(b, indent, parts[0]);
    now := SetIn(inner, parts[1..], indent + INDENT_STEP, w).value;
  }

  lemma SetBelow(b: seq<Row>, parts: seq<string>, indent: nat, w: Writer, at: nat, k: nat)
    requires |parts| > 1 && Locate(b, indent, parts[0]) < |b| && SetIn(b, parts, indent, w).Ok? && k < |parts| - 1
    requires var inner := BlockAt(b, Locate(b, indent, parts[0]), indent);
             SetIn(inner, parts[1..], indent + INDENT_STEP, w).Ok?
             && SetAt(inner, SetIn(inner, parts[1..], indent + INDENT_STEP, w).value, parts[1..], indent + INDENT_STEP, w, at, k)
    ensures SetAt(b, SetIn(b, parts, indent, w).value, parts, indent, w, Locate(b, indent, parts[0]) + 1 + at,
                  if Lookup(b, parts, indent) == None then k + 1 else k)
  {
    hide *;
    var pre, row, inner, post, now := SetInBelow(b, parts, indent, w);
    LookupBelow(b, parts, indent);
    if Lookup(b, parts, indent) == None {
      PutBelow(b, parts, indent, w, at, k, pre, row, inner, post, now);
    } else {
      EditBelow(b, parts, indent, w, at, k, pre, row, inner, post, now);
    }
  }

  lemma EditBelow(b: seq<Row>, parts: seq<string>, indent: nat, w: Writer, at: nat, k: nat,
                  pre: seq<Row>, row: Row, inner: seq<Row>, post: seq<Row>, now: seq<Row>)
    requires k < |parts| - 1 && b == pre + [row] + inner + post
    requires Lookup(b, parts, indent).Some? && Lookup(inner, parts[1..], indent + INDENT_STEP) == Lookup(b, parts, indent)
    requires SetAt(inner, now, parts[1..], indent + INDENT_STEP, w, at, k)
    ensures SetAt(b, pre + [row] + now + post, parts, indent, w, |pre| + 1 + at, k)
  {
    hide Lookup;
    Within(pre, row, inner, post, at, w.edit(Lookup(b, parts, indent).value));
  }

  lemma PutBelow(b: seq<Row>, parts: seq<string>, indent: nat, w: Writer, at: nat, k: nat,
                 pre: seq<Row>, row: Row, inner: seq<Row>, post: seq<Row>, now: seq<Row>)
    requires k < |parts| - 1 && |pre| == Locate(b, indent, parts[0]) < |b| && inner == BlockAt(b, |pre|, indent)
    requires b == pre + [row] + inner + post && row.head.Key? && Ends(post, indent)
    requires Lookup(b, parts, indent) == None && Lookup(inner, parts[1..], indent + INDENT_STEP) == None
    requires SetAt(inner, now, parts[1..], indent + INDENT_STEP, w, at, k)
    ensures SetAt(b, pre + [row] + now + post, parts, indent, w, |pre| + 1 + at, k + 1)
  {
    var deep := indent + INDENT_STEP + k * INDENT_STEP;
    assert deep == indent + (k + 1) * INDENT_STEP && parts[1..][k..] == parts[k + 1..];
    hide Lookup, BlockAt, Ends, Locate, Missing, PutIn;
    MissingBelow(b, parts, indent, k);
    PutInside(pre, row, inner, post, now, at, w.branch(parts[k + 1..], deep), deep, indent);
  }

  lemma {:induction false} SetKept(b: seq<Row>, parts: seq<string>, indent: nat, w: Writer) returns (at: nat, k: nat)
    requires parts != [] && SetIn(b, parts, indent, w).Ok?
    ensures k < |parts| && SetAt(b, SetIn(b, parts, indent, w).value, parts, indent, w, at, k)
    decreases |parts|
  {
    hide *;
    var i := Locate(b, indent, parts[0]);
    if i == |b| {
      SetHere(b, parts, indent, w);
      at, k := InsertPoint(b, indent), 0;
    } else if |parts| == 1 {
      SetOnly(b, parts, indent, w);
      at, k := i, 0;
    } else {
      var pre, row, inner, post, now := SetInBelow(b, parts, indent, w);
      at, k := SetKept(inner, parts[1..], indent + INDENT_STEP, w);
      SetBelow(b, parts, indent, w, at, k);
      at, k := i + 1 + at, if Lookup(b, parts, indent) == None then k + 1 else k;
    }
  }

  lemma SetOnly(b: seq<Row>, parts: seq<string>, indent: nat, w: Writer)
    requires |parts| == 1 && Locate(b, indent, parts[0]) < |b|
    ensures SetIn(b, parts, indent, w).Ok?
    ensures SetAt(b, SetIn(b, parts, indent, w).value, parts, indent, w, Locate(b, indent, parts[0]), 0)
  {
    var pre, row, inner, post := SplitAt(b, indent, parts[0]);
    Here(pre, row, inner, post, w.edit(row));
    assert Lookup(b, parts, indent) == Some(row) && SetIn(b, parts, indent, w) == Ok(pre + [w.edit(row)] + inner + post);
  }

  lemma PutInside(pre: seq<Row>, row: Row, inner: seq<Row>, post: seq<Row>, now: seq<Row>, at: nat, lines: seq<Row>, deep: nat, indent: nat)
    requires PutIn(inner, now, at, lines, deep) && Ends(post, indent) && indent < deep && row.head.Key?
    ensures PutIn(pre + [row] + inner + post, pre + [row] + now + post, |pre| + 1 + at, lines, deep)
  {
    var b, place := pre + [row] + inner + post, |pre| + 1 + at;
    PlaceIn(pre, row, inner, post, at, lines);
    SectionAfter(inner[at..], post, deep, indent);
    hide SectionEnds, Ends;
    assert at > 0 ==> b[place - 1] == inner[at - 1];
    assert at == 0 ==> b[place - 1] == row;
  }

  lemma PlaceIn(pre: seq<Row>, row: Row, inner: seq<Row>, post: seq<Row>, at: nat, lines: seq<Row>)
    requires at <= |inner|
    ensures var b, place := pre + [row] + inner + post, |pre| + 1 + at;
            && b[place..] == inner[at..] + post && b[..place] == pre + [row] + inner[..at]
            && pre + [row] + (inner[..at] + lines + inner[at..]) + post == b[..place] + lines + b[place..]
  {
    var b, place := pre + [row] + inner + post, |pre| + 1 + at;
    assert b[place..] == inner[at..] + post;
    assert b[..place] == pre + [row] + inner[..at];
  }

  /** A deletion takes the line its path names, and no other. */
  predicate DeleteAt(b: seq<Row>, now: seq<Row>, parts: seq<string>, indent: nat, at: nat)
    requires parts != []
  {
    match Lookup(b, parts, indent)
    case Some(row) => at < |b| && b[at] == row && now == b[..at] + b[at + 1..]
    case None => now == b
  }

  lemma DeleteNone(b: seq<Row>, parts: seq<string>, indent: nat)
    requires parts != [] && Locate(b, indent, parts[0]) == |b|
    ensures DeleteAt(b, DeleteIn(b, parts, indent), parts, indent, 0)
  {
  }

  lemma DeleteHere(b: seq<Row>, parts: seq<string>, indent: nat)
    requires |parts| == 1 && Locate(b, indent, parts[0]) < |b|
    ensures DeleteAt(b, DeleteIn(b, parts, indent), parts, indent, Locate(b, indent, parts[0]))
  {
    var pre, row, inner, post := SplitAt(b, indent, parts[0]);
    Here(pre, row, inner, post, row);
    assert Lookup(b, parts, indent) == Some(row) && DeleteIn(b, parts, indent) == pre + inner + post;
  }

  lemma DeleteInBelow(b: seq<Row>, parts: seq<string>, indent: nat)
      returns (pre: seq<Row>, row: Row, inner: seq<Row>, post: seq<Row>, now: seq<Row>)
    requires |parts| > 1 && Locate(b, indent, parts[0]) < |b|
    ensures inner == BlockAt(b, Locate(b, indent, parts[0]), indent) && |pre| == Locate(b, indent, parts[0])
    ensures b == pre + [row] + inner + post && now == DeleteIn(inner, parts[1..], indent + INDENT_STEP)
    ensures DeleteIn(b, parts, indent) == pre + [row] + now + post
  {
    pre, row, inner, post := SplitAt(b, indent, parts[0]);
    now := DeleteIn(inner, parts[1..], indent + INDENT_STEP);
  }

  lemma DeleteBelow(b: seq<Row>, parts: seq<string>, indent: nat, at: nat)
    requires |parts| > 1 && Locate(b, indent, parts[0]) < |b|
    requires var inner := BlockAt(b, Locate(b, indent, parts[0]), indent);
             DeleteAt(inner, DeleteIn(inner, parts[1..], indent + INDENT_STEP), parts[1..], indent + INDENT_STEP, at)
    ensures DeleteAt(b, DeleteIn(b, parts, indent), parts, indent, Locate(b, indent, parts[0]) + 1 + at)
  {
    hide *;
    var pre, row, inner, post, now := DeleteInBelow(b, parts, indent);
    LookupBelow(b, parts, indent);
    TakeBelow(b, parts, indent, at, pre, row, inner, post, now);
  }

  lemma TakeBelow(b: seq<Row>, parts: seq<string>, indent: nat, at: nat,
                  pre: seq<Row>, row: Row, inner: seq<Row>, post: seq<Row>, now: seq<Row>)
    requires |parts| > 1 && b == pre + [row] + inner + post
    requires Lookup(inner, parts[1..], indent + INDENT_STEP) == Lookup(b, parts, indent)
    requires DeleteAt(inner, now, parts[1..], indent + INDENT_STEP, at)
    ensures DeleteAt(b, pre + [row] + now + post, parts, indent, |pre| + 1 + at)
  {
    hide Lookup;
    if Lookup(b, parts, indent).Some? { TakenWithin(pre, row, inner, post, at); }
  }

  lemma {:induction false} DeleteKept(b: seq<Row>, parts: seq<string>, indent: nat) returns (at: nat)
    requires parts != []
    ensures DeleteAt(b, DeleteIn(b, parts, indent), parts, indent, at)
    decreases |parts|
  {
    hide *;
    var i := Locate(b, indent, parts[0]);
    if i == |b| {
      at := 0;
      DeleteNone(b, parts, indent);
    } else if |parts| == 1 {
      at := i;
      DeleteHere(b, parts, indent);
    } else {
      at := DeleteKept(BlockAt(b, i, indent), parts[1..], indent + INDENT_STEP);
      DeleteBelow(b, parts, indent, at);
      at := i + 1 + at;
    }
  }
}
