/** What a deletion does to every path of the file (internal/config/edit.go,
    DeleteValue): only the key's own line goes, so its children stay behind. */
module YamlDelete {
  import opened Common
  import opened YamlWalk

  // The block below a path.
  function BlockBelow(b: seq<Row>, parts: seq<string>, indent: nat): seq<Row>
    requires parts != []
    decreases |parts|
  {
    var i := Locate(b, indent, parts[0]);
    if i == |b| then []
    else if |parts| == 1 then BlockAt(b, i, indent)
    else BlockBelow(BlockAt(b, i, indent), parts[1..], indent + INDENT_STEP)
  }

  // What a path through parts finds in the rest of the section parts ends in.
  function LookupLater(b: seq<Row>, parts: seq<string>, indent: nat, q: seq<string>): Option<Row>
    requires parts != [] && parts <= q
    decreases |parts|
  {
    var i := Locate(b, indent, parts[0]);
    if i == |b| then None
    else if |parts| == 1 then Lookup(AfterBlock(b, i, indent), q, indent)
    else
      assert parts[1..] <= q[1..];
      LookupLater(BlockAt(b, i, indent), parts[1..], indent + INDENT_STEP, q[1..])
  }

  // The key p is the last sibling before the lines deleted, and the first of
  // its name: what is left behind falls to it.
  predicate Adopts(pre: seq<Row>, indent: nat, p: string) {
    var j := Locate(pre, indent, p);
    j < |pre| && Extent(pre[j + 1..], indent) == |pre| - j - 1
  }

  // --- one level ---

  // The block of a key of pre, and what it becomes when inner falls to it.
  function Under(pre: seq<Row>, indent: nat, key: string): seq<Row> {
    var j := Locate(pre, indent, key);
    if j == |pre| then [] else BlockAt(pre, j, indent)
  }

  function Grown(pre: seq<Row>, inner: seq<Row>, indent: nat, key: string): seq<Row> {
    if Adopts(pre, indent, key) then Under(pre, indent, key) + inner else Under(pre, indent, key)
  }

  // A path found among the lines of pre, its key's block as given, or else later.
  function Found(pre: seq<Row>, block: seq<Row>, later: Option<Row>, indent: nat, q: seq<string>): Option<Row>
    requires q != []
  {
    var j := Locate(pre, indent, q[0]);
    if j == |pre| then later else if |q| == 1 then Some(pre[j]) else Lookup(block, q[1..], indent + INDENT_STEP)
  }

  // What a path finds when a key's line has gone.
  lemma DeletedHere(pre: seq<Row>, inner: seq<Row>, post: seq<Row>, indent: nat, q: seq<string>)
    requires q != [] && KeysAbove(inner, indent) && KeysAbove(pre, indent - 1) && Ends(post, indent)
    ensures Lookup(pre + inner + post, q, indent) ==
            Found(pre, Grown(pre, inner, indent, q[0]), Lookup(post, q, indent), indent, q)
  {
    var j := Locate(pre, indent, q[0]);
    if j == |pre| {
      LocateAbsent(inner, indent, q[0]);
      LocateConcat(pre, inner, indent, q[0]);
      DeepParts(pre, inner, indent - 1);
      LookupAfter(pre + inner, post, indent, q);
    } else {
      FoundBefore(pre, inner, post, indent, q[0]);
      LookupOnce(pre + inner + post, indent, q);
      hide Locate, BlockAt, Extent, Lookup, KeysAbove, Ends;
    }
  }

  lemma {:induction false} FoundBefore(pre: seq<Row>, inner: seq<Row>, post: seq<Row>, indent: nat, key: string)
    requires KeysAbove(inner, indent) && Ends(post, indent) && Locate(pre, indent, key) < |pre|
    ensures var b, j := pre + inner + post, Locate(pre, indent, key);
            && Locate(b, indent, key) == j && b[j] == pre[j] && j < |b|
            && BlockAt(b, j, indent) == Grown(pre, inner, indent, key)
  {
    var j := Locate(pre, indent, key);
    Regrouped(pre, inner, post);
    LocateConcat(pre, inner + post, indent, key);
    assert Adopts(pre, indent, key) <==> Extent(pre[j + 1..], indent) == |pre[j + 1..]|;
    assert Under(pre, indent, key) == pre[j + 1..][..Extent(pre[j + 1..], indent)];
    hide Locate, Adopts, Under;
    GrowsInto(pre, inner, post, j, indent);
  }

  lemma Regrouped(x: seq<Row>, y: seq<Row>, z: seq<Row>)
    ensures x + y + z == x + (y + z)
  {
  }

  lemma GrowsInto(pre: seq<Row>, inner: seq<Row>, post: seq<Row>, j: nat, indent: nat)
    requires j < |pre| && KeysAbove(inner, indent) && Ends(post, indent)
    ensures var rest := pre[j + 1..];
            BlockAt(pre + (inner + post), j, indent) ==
            rest[..Extent(rest, indent)] + if Extent(rest, indent) == |rest| then inner else []
  {
    var rest := pre[j + 1..];
    BlockConcat(pre, inner + post, j, indent);
    EndsAt(inner, post, indent);
    hide *;
    assert (inner + post)[..|inner|] == inner && rest[..|rest|] == rest;
    assert forall n :: 0 <= n <= |rest| ==> rest[..n] + [] == rest[..n];
  }

  // What it found before.
  lemma BeforeHere(pre: seq<Row>, row: Row, inner: seq<Row>, post: seq<Row>, indent: nat, q: seq<string>)
    requires q != [] && row.head.Key? && row.head.indent == indent && row.head.name != q[0]
    requires KeysAbove(inner, indent) && KeysAbove(pre, indent - 1)
    ensures Lookup(pre + [row] + inner + post, q, indent) ==
            Found(pre, Under(pre, indent, q[0]), Lookup(post, q, indent), indent, q)
  {
    BesideLookup(pre, row, inner, post, indent, q);
    var j := Locate(pre, indent, q[0]);
    if j < |pre| {
      SameBefore(pre, row, indent, q[0]);
      LookupOnce(pre + [row], indent, q);
      hide Locate, BlockAt, Extent, Lookup, KeysAbove, Ends;
    }
  }

  lemma {:induction false} SameBefore(pre: seq<Row>, row: Row, indent: nat, key: string)
    requires row.head.Key? && row.head.indent == indent && Locate(pre, indent, key) < |pre|
    ensures var b, j := pre + [row], Locate(pre, indent, key);
            Locate(b, indent, key) == j < |b| && b[j] == pre[j] && BlockAt(b, j, indent) == BlockAt(pre, j, indent)
  {
    var j := Locate(pre, indent, key);
    var rest := pre[j + 1..];
    LocateConcat(pre, [row], indent, key);
    BlockConcat(pre, [row], j, indent);
    assert BlockAt(pre, j, indent) == rest[..Extent(rest, indent)] && Extent([row], indent) == 0;
    AllOf(rest, row);
    hide *;
  }

  lemma AllOf(rest: seq<Row>, row: Row)
    ensures rest[..|rest|] == rest && rest + [row][..0] == rest
  {
  }

  // --- every path ---

  lemma {:induction false} DeleteAbove(b: seq<Row>, parts: seq<string>, indent: nat, bound: int)
    requires parts != [] && KeysAbove(b, bound)
    ensures KeysAbove(DeleteIn(b, parts, indent), bound)
    decreases |parts|
  {
    if Locate(b, indent, parts[0]) < |b| {
      var pre, row, inner, post := SplitAt(b, indent, parts[0]);
      DeepParts(pre + [row] + inner, post, bound);
      DeepParts(pre + [row], inner, bound);
      DeepParts(pre, [row], bound);
      if |parts| == 1 {
        DeepParts(pre + inner, post, bound);
        DeepParts(pre, inner, bound);
      } else {
        var inner' := DeleteIn(inner, parts[1..], indent + INDENT_STEP);
        DeleteAbove(inner, parts[1..], indent + INDENT_STEP, bound);
        DeepParts(pre + [row] + inner', post, bound);
        DeepParts(pre + [row], inner', bound);
      }
    }
  }

  // A step down the deleted path: paths through its key see the inside, the
  // others see nothing of the deletion.
  lemma DeleteThere(b: seq<Row>, parts: seq<string>, indent: nat, q: seq<string>)
    requires |parts| > 1 && q != [] && Locate(b, indent, parts[0]) < |b|
    ensures var inner := BlockAt(b, Locate(b, indent, parts[0]), indent);
            && (q[0] == parts[0] && |q| > 1 ==>
                  && Lookup(b, q, indent) == Lookup(inner, q[1..], indent + INDENT_STEP)
                  && Lookup(DeleteIn(b, parts, indent), q, indent) ==
                     Lookup(DeleteIn(inner, parts[1..], indent + INDENT_STEP), q[1..], indent + INDENT_STEP))
            && (q[0] != parts[0] || |q| == 1 ==> Lookup(DeleteIn(b, parts, indent), q, indent) == Lookup(b, q, indent))
  {
    var pre, row, inner, post := SplitAt(b, indent, parts[0]);
    DeleteAbove(inner, parts[1..], indent + INDENT_STEP, indent);
    NestedFrame(pre, row, row, inner, DeleteIn(inner, parts[1..], indent + INDENT_STEP), post, indent, q);
    assert |q| == 1 ==> q == [q[0]];
    assert DeleteIn(b, parts, indent) == pre + [row] + DeleteIn(inner, parts[1..], indent + INDENT_STEP) + post;
    hide *;
  }

  lemma GoneHere(b: seq<Row>, parts: seq<string>, indent: nat, q: seq<string>)
    requires |parts| == 1 && parts <= q && Locate(b, indent, parts[0]) < |b|
    ensures Lookup(DeleteIn(b, parts, indent), q, indent) == Lookup(AfterBlock(b, Locate(b, indent, parts[0]), indent), q, indent)
  {
    var pre, row, inner, post := SplitAt(b, indent, parts[0]);
    DeletedHere(pre, inner, post, indent, q);
  }

  /** A path that leads to or through the deleted key finds the next line of
      that key in its section, if there is one. */
  lemma {:induction false} DeletedIsGone(b: seq<Row>, parts: seq<string>, indent: nat, q: seq<string>)
    requires parts != [] && parts <= q && Lookup(b, parts, indent).Some?
    ensures Lookup(DeleteIn(b, parts, indent), q, indent) == LookupLater(b, parts, indent, q)
    decreases |parts|
  {
    if |parts| == 1 {
      GoneHere(b, parts, indent, q);
    } else {
      PathTails(parts, q);
      DeleteThere(b, parts, indent, q);
      DeletedIsGone(BlockAt(b, Locate(b, indent, parts[0]), indent), parts[1..], indent + INDENT_STEP, q[1..]);
      hide DeleteIn, Locate, BlockAt, Lookup;
    }
  }

  /** Deleting a key whose block holds no keys leaves every other path naming
      the line it named. */
  lemma {:induction false} DeleteFrame(b: seq<Row>, parts: seq<string>, indent: nat, q: seq<string>)
    requires parts != [] && q != [] && !(parts <= q) && NoKeys(BlockBelow(b, parts, indent))
    ensures Lookup(DeleteIn(b, parts, indent), q, indent) == Lookup(b, q, indent)
    decreases |parts|
  {
    if Locate(b, indent, parts[0]) < |b| {
      if |parts| > 1 {
        PathTails(parts, q);
        DeleteThere(b, parts, indent, q);
        if q[0] == parts[0] && |q| > 1 {
          DeleteFrame(BlockAt(b, Locate(b, indent, parts[0]), indent), parts[1..], indent + INDENT_STEP, q[1..]);
        }
      } else {
        FrameHere(b, parts, indent, q);
      }
    }
  }

  lemma FrameHere(b: seq<Row>, parts: seq<string>, indent: nat, q: seq<string>)
    requires |parts| == 1 && q != [] && !(parts <= q) && Locate(b, indent, parts[0]) < |b|
    requires NoKeys(BlockAt(b, Locate(b, indent, parts[0]), indent))
    ensures Lookup(DeleteIn(b, parts, indent), q, indent) == Lookup(b, q, indent)
  {
    var pre, row, inner, post := SplitAt(b, indent, parts[0]);
    assert q[0] != parts[0] && DeleteIn(b, parts, indent) == pre + inner + post;
    hide *;
    DeletedHere(pre, inner, post, indent, q);
    BeforeHere(pre, row, inner, post, indent, q);
    GrownSame(pre, inner, indent, q, Lookup(post, q, indent));
  }

  // Lines without keys make no difference to the section they fall to.
  lemma GrownSame(pre: seq<Row>, inner: seq<Row>, indent: nat, q: seq<string>, later: Option<Row>)
    requires q != [] && NoKeys(inner)
    ensures Found(pre, Grown(pre, inner, indent, q[0]), later, indent, q) == Found(pre, Under(pre, indent, q[0]), later, indent, q)
  {
    hide Under, Adopts, Locate, Lookup, NoKeys;
    if |q| > 1 { TrailingLines(Under(pre, indent, q[0]), inner, q[1..], indent + INDENT_STEP); }
  }

  // --- when children move ---

  // The first key of b, if it has one, is indented by n.
  predicate FirstChild(b: seq<Row>, n: nat) {
    b != [] ==> if b[0].head.Key? then b[0].head.indent == n else FirstChild(b[1..], n)
  }

  /** The lines around a deleted key are indented by steps. */
  ghost predicate Stepped(b: seq<Row>, parts: seq<string>, indent: nat)
    requires parts != []
    decreases |parts|
  {
    var i := Locate(b, indent, parts[0]);
    i < |b| ==>
      if |parts| > 1 then Stepped(BlockAt(b, i, indent), parts[1..], indent + INDENT_STEP)
      else && FirstChild(BlockAt(b, i, indent), indent + INDENT_STEP)
           && forall p :: Adopts(b[..i], indent, p) ==> KeysAbove(Under(b[..i], indent, p), indent + 1)
  }

  // The sibling p takes over a child c it did not have.
  predicate TakesOver(pre: seq<Row>, inner: seq<Row>, indent: nat, p: string, c: string) {
    && Adopts(pre, indent, p) && Locate(inner, indent + INDENT_STEP, c) < |inner|
    && Locate(Under(pre, indent, p), indent + INDENT_STEP, c) == |Under(pre, indent, p)|
  }

  /** The key before the deleted one, in its section, lacks one of the children
      left behind. */
  ghost predicate ChildrenMove(b: seq<Row>, parts: seq<string>, indent: nat)
    requires parts != []
    decreases |parts|
  {
    var i := Locate(b, indent, parts[0]);
    && i < |b|
    && if |parts| > 1 then ChildrenMove(BlockAt(b, i, indent), parts[1..], indent + INDENT_STEP)
       else exists p, c :: TakesOver(b[..i], BlockAt(b, i, indent), indent, p, c)
  }

  lemma {:induction false} FirstChildEnds(b: seq<Row>, n: nat)
    requires FirstChild(b, n)
    ensures NoKeys(b[..Extent(b, n)])
  {
    if b != [] && !b[0].head.Key? {
      FirstChildEnds(b[1..], n);
      assert b[..Extent(b, n)] == [b[0]] + b[1..][..Extent(b[1..], n)];
    }
  }

  // A block that grows by children at its own indentation.
  lemma {:induction false} Adopted(x: seq<Row>, inner: seq<Row>, n: nat, q: seq<string>)
    requires q != [] && KeysAbove(x, n - 1) && FirstChild(inner, n)
    ensures Lookup(x + inner, q, n) == if Locate(x, n, q[0]) < |x| then Lookup(x, q, n) else Lookup(inner, q, n)
  {
    if Locate(x, n, q[0]) == |x| {
      LookupAfter(x, inner, n, q);
    } else {
      LookupOnce(x + inner, n, q);
      LookupOnce(x, n, q);
      LocateConcat(x, inner, n, q[0]);
      hide *;
      if |q| > 1 { InnerSame(x, Locate(x, n, q[0]), inner, n, q[1..]); }
    }
  }

  lemma InnerSame(x: seq<Row>, j: nat, inner: seq<Row>, n: nat, q: seq<string>)
    requires q != [] && j < |x| && FirstChild(inner, n)
    ensures Lookup(BlockAt(x + inner, j, n), q, n + INDENT_STEP) == Lookup(BlockAt(x, j, n), q, n + INDENT_STEP)
  {
    var rest := x[j + 1..];
    FirstChildEnds(inner, n);
    BlockConcat(x, inner, j, n);
    assert BlockAt(x, j, n) == rest[..Extent(rest, n)] && rest[..|rest|] == rest;
    hide *;
    TrailingLines(rest, inner[..Extent(inner, n)], q, n + INDENT_STEP);
  }

  // One level: what a path beside the deleted key finds before and after.
  lemma Beside(b: seq<Row>, key: string, indent: nat, q: seq<string>)
    requires q != [] && q[0] != key && Locate(b, indent, key) < |b| && Stepped(b, [key], indent)
    ensures var i := Locate(b, indent, key);
            var pre, inner := b[..i], BlockAt(b, i, indent);
            Lookup(DeleteIn(b, [key], indent), q, indent) ==
            if |q| > 1 && TakesOver(pre, inner, indent, q[0], q[1]) then Lookup(inner, q[1..], indent + INDENT_STEP)
            else Lookup(b, q, indent)
    ensures var i := Locate(b, indent, key);
            |q| > 1 && TakesOver(b[..i], BlockAt(b, i, indent), indent, q[0], q[1]) ==> Lookup(b, q, indent) == None
  {
    var pre, row, inner, post := SplitAt(b, indent, key);
    assert DeleteIn(b, [key], indent) == pre + inner + post;
    assert Adopts(pre, indent, q[0]) ==> KeysAbove(Under(pre, indent, q[0]), indent + 1);
    assert FirstChild(inner, indent + INDENT_STEP);
    hide *;
    BesideHere(pre, row, inner, post, indent, q);
  }

  lemma BesideHere(pre: seq<Row>, row: Row, inner: seq<Row>, post: seq<Row>, indent: nat, q: seq<string>)
    requires q != [] && row.head.Key? && row.head.indent == indent && row.head.name != q[0]
    requires KeysAbove(inner, indent) && KeysAbove(pre, indent - 1) && Ends(post, indent)
    requires FirstChild(inner, indent + INDENT_STEP)
    requires Adopts(pre, indent, q[0]) ==> KeysAbove(Under(pre, indent, q[0]), indent + 1)
    ensures Lookup(pre + inner + post, q, indent) ==
            if |q| > 1 && TakesOver(pre, inner, indent, q[0], q[1]) then Lookup(inner, q[1..], indent + INDENT_STEP)
            else Lookup(pre + [row] + inner + post, q, indent)
    ensures |q| > 1 && TakesOver(pre, inner, indent, q[0], q[1]) ==> Lookup(pre + [row] + inner + post, q, indent) == None
  {
    hide *;
    DeletedHere(pre, inner, post, indent, q);
    BeforeHere(pre, row, inner, post, indent, q);
    GrownBy(pre, inner, indent, q, Lookup(post, q, indent));
  }

  // Children that fall to a section are found there unless it has its own.
  lemma GrownBy(pre: seq<Row>, inner: seq<Row>, indent: nat, q: seq<string>, later: Option<Row>)
    requires q != [] && FirstChild(inner, indent + INDENT_STEP)
    requires Adopts(pre, indent, q[0]) ==> KeysAbove(Under(pre, indent, q[0]), indent + 1)
    ensures var was := Found(pre, Under(pre, indent, q[0]), later, indent, q);
            var moves := |q| > 1 && TakesOver(pre, inner, indent, q[0], q[1]);
            && Found(pre, Grown(pre, inner, indent, q[0]), later, indent, q) ==
               (if moves then Lookup(inner, q[1..], indent + INDENT_STEP) else was)
            && (moves ==> was == None)
  {
    hide Extent, KeysAbove, FirstChild, BlockAt, Under;
    if |q| > 1 && Adopts(pre, indent, q[0]) {
      var x := Under(pre, indent, q[0]);
      assert q[1..][0] == q[1];
      Adopted(x, inner, indent + INDENT_STEP, q[1..]);
      LookupOnce(x, indent + INDENT_STEP, q[1..]);
      LookupOnce(inner, indent + INDENT_STEP, q[1..]);
      hide Locate, Lookup;
    }
  }

  lemma {:induction false} OthersStay(b: seq<Row>, parts: seq<string>, indent: nat, q: seq<string>)
    requires parts != [] && q != [] && !(parts <= q) && Stepped(b, parts, indent) && !ChildrenMove(b, parts, indent)
    ensures Lookup(DeleteIn(b, parts, indent), q, indent) == Lookup(b, q, indent)
    decreases |parts|
  {
    if Locate(b, indent, parts[0]) < |b| {
      if |parts| == 1 {
        assert parts == [parts[0]];
        Beside(b, parts[0], indent, q);
      } else {
        PathTails(parts, q);
        DeleteThere(b, parts, indent, q);
        if q[0] == parts[0] && |q| > 1 {
          OthersStay(BlockAt(b, Locate(b, indent, parts[0]), indent), parts[1..], indent + INDENT_STEP, q[1..]);
        }
      }
    }
  }

  lemma {:induction false} OneMoves(b: seq<Row>, parts: seq<string>, indent: nat) returns (q: seq<string>)
    requires parts != [] && Stepped(b, parts, indent) && ChildrenMove(b, parts, indent)
    ensures q != [] && !(parts <= q)
    ensures Lookup(b, q, indent) == None && Lookup(DeleteIn(b, parts, indent), q, indent).Some?
    decreases |parts|
  {
    var i := Locate(b, indent, parts[0]);
    if |parts| == 1 {
      assert parts == [parts[0]];
      var p, c :| TakesOver(b[..i], BlockAt(b, i, indent), indent, p, c);
      q := MovedChild(b, parts[0], indent, p, c);
    } else {
      var deeper := OneMoves(BlockAt(b, i, indent), parts[1..], indent + INDENT_STEP);
      q := [parts[0]] + deeper;
      assert q[1..] == deeper;
      hide Stepped, ChildrenMove;
      PathTails(parts, q);
      DeleteThere(b, parts, indent, q);
      hide *;
    }
  }

  lemma MovedChild(b: seq<Row>, key: string, indent: nat, p: string, c: string) returns (q: seq<string>)
    requires Locate(b, indent, key) < |b| && Stepped(b, [key], indent)
    requires TakesOver(b[..Locate(b, indent, key)], BlockAt(b, Locate(b, indent, key), indent), indent, p, c)
    ensures q == [p, c] && p != key && Lookup(b, q, indent) == None && Lookup(DeleteIn(b, [key], indent), q, indent).Some?
  {
    q := [p, c];
    SplitBefore(b, indent, key);
    assert p != key;
    hide Lookup, DeleteIn, Stepped;
    Beside(b, key, indent, q);
    assert q[1..] == [c];
    LookupOnce(BlockAt(b, Locate(b, indent, key), indent), indent + INDENT_STEP, [c]);
  }

  /** In a file indented by steps, a deletion leaves every other path as it was
      exactly when the key before the deleted one has all the children left
      behind, or there is no such key, or no child. */
  lemma OthersStayWhen(b: seq<Row>, parts: seq<string>, indent: nat)
    requires parts != [] && Stepped(b, parts, indent)
    ensures (forall q :: q != [] && !(parts <= q) ==> Lookup(DeleteIn(b, parts, indent), q, indent) == Lookup(b, q, indent))
            <==> !ChildrenMove(b, parts, indent)
  {
    if ChildrenMove(b, parts, indent) {
      var q := OneMoves(b, parts, indent);
    } else {
      forall q | q != [] && !(parts <= q) ensures Lookup(DeleteIn(b, parts, indent), q, indent) == Lookup(b, q, indent) {
        OthersStay(b, parts, indent, q);
      }
    }
  }
}
