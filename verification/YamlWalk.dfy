/** The walk over the blocks of a configuration file, on lines already read:
    what a path finds, and which changes to a block it can see. */
module YamlWalk {
  import opened Common

  const INDENT_STEP: nat := 2

  /** What a line is to the walk: a key at an indentation, or something to
      skip (a blank line, or a comment, a list item, anything else). */
  datatype Head = Blank | Other | Key(indent: nat, name: string)

  /** A line as the walk reads it. */
  datatype Row = Row(text: string, head: Head)

  // --- the walk, over the lines of one block ---

  // findKey within a block: how many lines precede the key, |b| when the
  // block does not hold it (or is left before it is found).
  function Locate(b: seq<Row>, indent: nat, key: string): (i: nat)
    ensures i <= |b|
    ensures i < |b| ==> b[i].head == Key(indent, key)
  {
    if b == [] then 0
    else if b[0].head.Key? && b[0].head.indent < indent then |b|
    else if b[0].head == Key(indent, key) then 0
    else 1 + Locate(b[1..], indent, key)
  }

  // blockRange: how many of the following lines belong to a key at indent.
  function Extent(b: seq<Row>, indent: nat): (n: nat)
    ensures n <= |b|
    ensures n < |b| ==> b[n].head.Key? && b[n].head.indent <= indent
  {
    if b == [] || (b[0].head.Key? && b[0].head.indent <= indent) then 0
    else 1 + Extent(b[1..], indent)
  }

  // Every key in b is indented deeper than bound.
  predicate KeysAbove(b: seq<Row>, bound: int) {
    forall i :: 0 <= i < |b| ==> b[i].head.Key? ==> b[i].head.indent > bound
  }

  lemma {:induction false} ExtentAbove(b: seq<Row>, indent: nat)
    ensures KeysAbove(b[..Extent(b, indent)], indent)
  {
    var n := Extent(b, indent);
    if n > 0 {
      ExtentAbove(b[1..], indent);
      assert b[..n] == [b[0]] + b[1..][..n - 1];
    }
  }

  /** The line a path names: the walk of SetValue and DeleteValue. */
  function Lookup(b: seq<Row>, parts: seq<string>, indent: nat): Option<Row>
    requires parts != []
    decreases |parts|
  {
    var i := Locate(b, indent, parts[0]);
    if i == |b| then None
    else if |parts| == 1 then Some(b[i])
    else Lookup(BlockAt(b, i, indent), parts[1..], indent + INDENT_STEP)
  }

  // The block the key at line i opens.
  function BlockAt(b: seq<Row>, i: nat, indent: nat): seq<Row>
    requires i < |b|
  {
    b[i + 1..][..Extent(b[i + 1..], indent)]
  }

  function AfterBlock(b: seq<Row>, i: nat, indent: nat): seq<Row>
    requires i < |b|
  {
    b[i + 1..][Extent(b[i + 1..], indent)..]
  }

  // insertPoint: after the last line that is not blank, before the first key
  // that belongs to an outer block.
  function InsertPoint(b: seq<Row>, indent: nat): (at: nat)
    ensures at <= |b|
  {
    InsertFrom(b, 0, 0, indent)
  }

  function InsertFrom(b: seq<Row>, i: nat, at: nat, indent: nat): (r: nat)
    requires at <= i <= |b|
    ensures at <= r <= |b|
    decreases |b| - i
  {
    if i == |b| then at
    else if b[i].head.Blank? then InsertFrom(b, i + 1, at, indent)
    else if b[i].head.Key? && b[i].head.indent < indent then at
    else InsertFrom(b, i + 1, i + 1, indent)
  }

  // The shape of the lines buildBranch writes for a path.
  predicate IsBranch(b: seq<Row>, parts: seq<string>, indent: nat) {
    && parts != [] && |b| == |parts|
    && forall i :: 0 <= i < |b| ==> b[i].head == Key(indent + i * INDENT_STEP, parts[i])
  }

  // --- facts about the walk ---

  lemma {:induction false} LocateConcat(x: seq<Row>, y: seq<Row>, indent: nat, key: string)
    ensures Locate(x, indent, key) < |x| ==> Locate(x + y, indent, key) == Locate(x, indent, key)
    ensures Locate(x, indent, key) == |x| && KeysAbove(x, indent - 1) ==>
              Locate(x + y, indent, key) == |x| + Locate(y, indent, key)
    ensures Locate(x, indent, key) == |x| && !KeysAbove(x, indent - 1) ==>
              Locate(x + y, indent, key) == |x + y|
  {
    if x == [] {
      assert x + y == y;
    } else {
      assert (x + y)[1..] == x[1..] + y && (x + y)[0] == x[0];
      assert KeysAbove(x, indent - 1) <==>
             (x[0].head.Key? ==> x[0].head.indent > indent - 1) && KeysAbove(x[1..], indent - 1) by {
        assert x == [x[0]] + x[1..];
      }
      LocateConcat(x[1..], y, indent, key);
    }
  }

  lemma {:induction false} ExtentConcat(x: seq<Row>, y: seq<Row>, indent: nat)
    ensures Extent(x, indent) < |x| ==> Extent(x + y, indent) == Extent(x, indent)
    ensures Extent(x, indent) == |x| ==> Extent(x + y, indent) == |x| + Extent(y, indent)
    ensures KeysAbove(x, indent) ==> Extent(x, indent) == |x|
  {
    if x == [] {
      assert x + y == y;
    } else {
      assert (x + y)[1..] == x[1..] + y;
      ExtentConcat(x[1..], y, indent);
    }
  }

  // The block of a key in the first of two parts reaches into the second
  // only when nothing ends it before.
  lemma BlockConcat(x: seq<Row>, y: seq<Row>, i: nat, indent: nat)
    requires i < |x|
    ensures BlockAt(x + y, i, indent) ==
            var rest := x[i + 1..];
            if Extent(rest, indent) < |rest| then rest[..Extent(rest, indent)] else rest + y[..Extent(y, indent)]
  {
    var rest := x[i + 1..];
    assert (x + y)[i + 1..] == rest + y;
    ExtentConcat(rest, y, indent);
  }

  // A key nobody in b can match is not found there.
  lemma {:induction false} LocateAbsent(b: seq<Row>, indent: nat, key: string)
    requires forall i :: 0 <= i < |b| ==> b[i].head != Key(indent, key)
    ensures Locate(b, indent, key) == |b|
  {
    if b != [] {
      assert forall i :: 0 <= i < |b[1..]| ==> b[1..][i] == b[i + 1];
      LocateAbsent(b[1..], indent, key);
    }
  }

  // The scan passes nothing shallower on its way to a key it finds.
  lemma {:induction false} LocatePasses(b: seq<Row>, indent: nat, key: string)
    requires Locate(b, indent, key) < |b|
    ensures KeysAbove(b[..Locate(b, indent, key) + 1], indent - 1)
    ensures forall j :: 0 <= j < Locate(b, indent, key) ==> b[j].head != Key(indent, key)
  {
    var i := Locate(b, indent, key);
    if i > 0 {
      LocatePasses(b[1..], indent, key);
      assert b[..i + 1] == [b[0]] + b[1..][..i];
      assert forall j :: 1 <= j < i ==> b[j] == b[1..][j - 1];
    }
  }

  predicate NoKeys(b: seq<Row>) {
    forall i :: 0 <= i < |b| ==> !b[i].head.Key?
  }

  // Lines that define nothing change no lookup.
  lemma {:induction false} TrailingLines(x: seq<Row>, y: seq<Row>, parts: seq<string>, indent: nat)
    requires parts != [] && NoKeys(y)
    ensures Lookup(x + y, parts, indent) == Lookup(x, parts, indent)
    decreases |parts|
  {
    LocateConcat(x, y, indent, parts[0]);
    LocateAbsent(y, indent, parts[0]);
    var i := Locate(x, indent, parts[0]);
    if i < |x| && |parts| > 1 {
      BlockTrailing(x, y, i, indent);
      hide Extent, BlockAt, Locate, NoKeys;
      if BlockAt(x + y, i, indent) != BlockAt(x, i, indent) {
        TrailingLines(BlockAt(x, i, indent), y, parts[1..], indent + INDENT_STEP);
      }
    }
  }

  lemma BlockTrailing(x: seq<Row>, y: seq<Row>, i: nat, indent: nat)
    requires i < |x| && NoKeys(y)
    ensures |BlockAt(x, i, indent)| < |x|
    ensures BlockAt(x + y, i, indent) == BlockAt(x, i, indent) || BlockAt(x + y, i, indent) == BlockAt(x, i, indent) + y
  {
    var rest := x[i + 1..];
    BlockConcat(x, y, i, indent);
    ExtentConcat(y, [], indent);
    assert y[..|y|] == y && rest[..|rest|] == rest;
  }

  // Nor do they anywhere else.
  lemma {:induction false} KeylessInsert(x: seq<Row>, y: seq<Row>, z: seq<Row>, parts: seq<string>, indent: nat)
    requires parts != [] && NoKeys(y)
    ensures Lookup(x + (y + z), parts, indent) == Lookup(x + z, parts, indent)
    decreases |parts|
  {
    var i := Locate(x, indent, parts[0]);
    LocateAbsent(y, indent, parts[0]);
    LocateConcat(x, y + z, indent, parts[0]);
    LocateConcat(x, z, indent, parts[0]);
    LocateConcat(y, z, indent, parts[0]);
    LookupOnce(x + (y + z), indent, parts);
    LookupOnce(x + z, indent, parts);
    if i < |x| {
      BlockInsert(x, y, z, i, indent);
      hide *;
      if |parts| > 1 && BlockAt(x + (y + z), i, indent) != BlockAt(x + z, i, indent) {
        KeylessInsert(x[i + 1..], y, z[..Extent(z, indent)], parts[1..], indent + INDENT_STEP);
      }
    } else if KeysAbove(x, indent - 1) {
      LookupAfter(x, y + z, indent, parts);
      LookupAfter(x, z, indent, parts);
      LookupAfter(y, z, indent, parts);
    } else {
      hide *;
    }
  }

  lemma {:induction false} BlockInsert(x: seq<Row>, y: seq<Row>, z: seq<Row>, i: nat, indent: nat)
    requires i < |x| && NoKeys(y)
    ensures || BlockAt(x + (y + z), i, indent) == BlockAt(x + z, i, indent)
            || (BlockAt(x + (y + z), i, indent) == x[i + 1..] + (y + z[..Extent(z, indent)])
                && BlockAt(x + z, i, indent) == x[i + 1..] + z[..Extent(z, indent)])
  {
    BlockConcat(x, y + z, i, indent);
    BlockConcat(x, z, i, indent);
    ExtentConcat(y, z, indent);
    assert KeysAbove(y, indent);
    TakeBoth(y, z, Extent(z, indent));
    assert BlockAt(x + z, i, indent) == BlockAt(x + (y + z), i, indent) || Extent(x[i + 1..], indent) == |x[i + 1..]|;
    hide *;
  }

  lemma TakeBoth(y: seq<Row>, z: seq<Row>, n: nat)
    requires n <= |z|
    ensures (y + z)[..|y| + n] == y + z[..n]
  {
  }

  lemma PathTails(q: seq<string>, parts: seq<string>)
    requires q != [] && parts != []
    ensures q == parts <==> q[0] == parts[0] && q[1..] == parts[1..]
    ensures q <= parts <==> q[0] == parts[0] && q[1..] <= parts[1..]
  {
    assert q == [q[0]] + q[1..] && parts == [parts[0]] + parts[1..];
  }

  lemma BranchBlock(b: seq<Row>, parts: seq<string>, indent: nat)
    requires IsBranch(b, parts, indent)
    ensures BlockAt(b, 0, indent) == b[1..] && Locate(b, indent, parts[0]) == 0
    ensures |parts| > 1 ==> IsBranch(b[1..], parts[1..], indent + INDENT_STEP)
  {
    assert forall i :: 0 <= i < |b[1..]| ==> b[1..][i] == b[i + 1];
    assert KeysAbove(b[1..], indent);
    ExtentConcat(b[1..], [], indent);
  }

  // What lookups see of a new branch: the path itself, its prefixes, nothing else.
  lemma {:induction false} BranchLookup(b: seq<Row>, parts: seq<string>, indent: nat, q: seq<string>)
    requires IsBranch(b, parts, indent) && q != []
    ensures Lookup(b, q, indent) == if q <= parts then Some(b[|q| - 1]) else None
    decreases |parts|
  {
    if q[0] != parts[0] {
      LocateAbsent(b, indent, q[0]);
    } else {
      BranchBlock(b, parts, indent);
      if |q| == 1 {
        assert q == [parts[0]];
      } else if |parts| > 1 {
        PathTails(q, parts);
        BranchLookup(b[1..], parts[1..], indent + INDENT_STEP, q[1..]);
      }
    }
  }

  // --- inserting a branch ---

  // Where a branch goes in, nothing above is shallower than it, and the first
  // key below, if any, is.
  lemma {:induction false} InsertSplits(b: seq<Row>, i: nat, at: nat, indent: nat)
    requires at <= i <= |b|
    requires KeysAbove(b[..at], indent - 1) && NoKeys(b[at..i])
    ensures var r := InsertFrom(b, i, at, indent);
            KeysAbove(b[..r], indent - 1) && ShallowFirst(b[r..], indent)
    decreases |b| - i
  {
    if i == |b| {
      assert b[at..] == b[at..i];
      NoKeysShallow(b[at..], indent);
    } else if b[i].head.Blank? {
      OneMoreBlank(b, i, at);
      InsertSplits(b, i + 1, at, indent);
    } else if b[i].head.Key? && b[i].head.indent < indent {
      assert b[at..] == b[at..i] + b[i..];
      ShallowAfter(b[at..i], b[i..], indent);
    } else {
      OneMoreLine(b, i, at, indent);
      InsertSplits(b, i + 1, i + 1, indent);
    }
  }

  lemma OneMoreBlank(b: seq<Row>, i: nat, at: nat)
    requires at <= i < |b| && NoKeys(b[at..i]) && b[i].head.Blank?
    ensures NoKeys(b[at..i + 1])
  {
    assert b[at..i + 1] == b[at..i] + [b[i]];
  }

  lemma OneMoreLine(b: seq<Row>, i: nat, at: nat, indent: nat)
    requires at <= i < |b| && KeysAbove(b[..at], indent - 1) && NoKeys(b[at..i]) && (b[i].head.Key? ==> b[i].head.indent >= indent)
    ensures KeysAbove(b[..i + 1], indent - 1) && NoKeys(b[i + 1..i + 1])
  {
    assert forall j :: at <= j < i ==> b[j] == b[at..i][j - at];
    assert forall j :: 0 <= j < at ==> b[j] == b[..at][j];
  }

  // The first key of b, if it has one, is shallower than indent.
  predicate ShallowFirst(b: seq<Row>, indent: nat) {
    b != [] ==> if b[0].head.Key? then b[0].head.indent < indent else ShallowFirst(b[1..], indent)
  }

  lemma {:induction false} NoKeysShallow(b: seq<Row>, indent: nat)
    requires NoKeys(b)
    ensures ShallowFirst(b, indent)
  {
    if b != [] {
      assert forall i :: 0 <= i < |b[1..]| ==> b[1..][i] == b[i + 1];
      NoKeysShallow(b[1..], indent);
    }
  }

  lemma {:induction false} ShallowAfter(x: seq<Row>, y: seq<Row>, indent: nat)
    requires NoKeys(x) && ShallowFirst(y, indent)
    ensures ShallowFirst(x + y, indent)
  {
    if x == [] {
      assert x + y == y;
    } else {
      assert (x + y)[1..] == x[1..] + y;
      assert forall i :: 0 <= i < |x[1..]| ==> x[1..][i] == x[i + 1];
      ShallowAfter(x[1..], y, indent);
    }
  }

  // A block whose first key is shallower offers nothing at this level, and
  // only keyless lines to a block that would extend into it.
  lemma {:induction false} ShallowFacts(b: seq<Row>, indent: nat, key: string)
    requires ShallowFirst(b, indent)
    ensures Locate(b, indent, key) == |b|
    ensures forall deeper :: deeper >= indent ==> NoKeys(b[..Extent(b, deeper)])
  {
    if b != [] && !b[0].head.Key? {
      ShallowFacts(b[1..], indent, key);
      forall deeper: nat | deeper >= indent ensures NoKeys(b[..Extent(b, deeper)]) {
        var n := Extent(b[1..], deeper);
        assert b[..n + 1] == [b[0]] + b[1..][..n];
      }
    }
  }

  // A branch inserted where nothing of its first key existed: the paths into
  // it are found, all others as before.
  lemma {:induction false} InsertFrame(pre: seq<Row>, b: seq<Row>, post: seq<Row>, parts: seq<string>, indent: nat, q: seq<string>)
    requires IsBranch(b, parts, indent) && q != []
    requires KeysAbove(pre, indent - 1) && ShallowFirst(post, indent)
    requires Locate(pre + post, indent, parts[0]) == |pre + post|
    ensures q <= parts ==> Lookup(pre + (b + post), q, indent) == Some(b[|q| - 1])
    ensures !(q <= parts) ==> Lookup(pre + (b + post), q, indent) == Lookup(pre + post, q, indent)
    ensures q[0] == parts[0] ==> Lookup(pre + post, q, indent) == None
  {
    if q[0] == parts[0] {
      LocateConcat(pre, post, indent, parts[0]);
      InsertFound(pre, b, post, parts, indent, q);
    } else {
      InsertBeside(pre, b, post, parts, indent, q);
    }
  }

  lemma InsertBeside(pre: seq<Row>, b: seq<Row>, post: seq<Row>, parts: seq<string>, indent: nat, q: seq<string>)
    requires IsBranch(b, parts, indent) && q != [] && q[0] != parts[0]
    requires KeysAbove(pre, indent - 1) && ShallowFirst(post, indent)
    ensures Lookup(pre + (b + post), q, indent) == Lookup(pre + post, q, indent)
  {
    var i := Locate(pre, indent, q[0]);
    if i < |pre| {
      BeforeInsert(pre, b + post, i, indent, q[0]);
      BeforeInsert(pre, post, i, indent, q[0]);
      LookupOnce(pre + (b + post), indent, q);
      LookupOnce(pre + post, indent, q);
      hide *;
      if |q| > 1 { InsertPast(pre, i, b, post, indent, q[1..]); }
    } else {
      AbsentAfter(pre, b, post, parts, indent, q[0]);
    }
  }

  lemma BeforeInsert(pre: seq<Row>, rest: seq<Row>, i: nat, indent: nat, key: string)
    requires i == Locate(pre, indent, key) < |pre|
    ensures Locate(pre + rest, indent, key) == i && (pre + rest)[i] == pre[i]
  {
    LocateConcat(pre, rest, indent, key);
  }

  lemma AbsentAfter(pre: seq<Row>, b: seq<Row>, post: seq<Row>, parts: seq<string>, indent: nat, key: string)
    requires IsBranch(b, parts, indent) && key != parts[0] && Locate(pre, indent, key) == |pre|
    requires KeysAbove(pre, indent - 1) && ShallowFirst(post, indent)
    ensures Locate(pre + (b + post), indent, key) == |pre + (b + post)| && Locate(pre + post, indent, key) == |pre + post|
  {
    LocateConcat(pre, b + post, indent, key);
    LocateConcat(pre, post, indent, key);
    ShallowFacts(post, indent, key);
    BranchAbsent(b, parts, indent, key);
    LocateConcat(b, post, indent, key);
    hide *;
  }

  lemma BranchAbsent(b: seq<Row>, parts: seq<string>, indent: nat, key: string)
    requires IsBranch(b, parts, indent) && key != parts[0]
    ensures KeysAbove(b, indent - 1) && Locate(b, indent, key) == |b|
  {
    LocateAbsent(b, indent, key);
  }

  lemma {:induction false} InsertFound(pre: seq<Row>, b: seq<Row>, post: seq<Row>, parts: seq<string>, indent: nat, q: seq<string>)
    requires IsBranch(b, parts, indent) && q != [] && q[0] == parts[0]
    requires KeysAbove(pre, indent - 1) && ShallowFirst(post, indent)
    requires Locate(pre, indent, q[0]) == |pre|
    ensures Lookup(pre + (b + post), q, indent) == if q <= parts then Some(b[|q| - 1]) else None
  {
    var all := pre + (b + post);
    LocateConcat(pre, b + post, indent, q[0]);
    assert Locate(b + post, indent, q[0]) == 0 by {
      assert (b + post)[0] == b[0] && b[0].head == Key(indent, q[0]);
    }
    assert all[|pre|] == b[0];
    if |q| == 1 {
      assert q <= parts;
    } else {
      InsertedBlock(pre, b, post, parts, indent, q[0]);
      InsertedInner(b, post, parts, indent, q);
    }
  }

  lemma InsertedInner(b: seq<Row>, post: seq<Row>, parts: seq<string>, indent: nat, q: seq<string>)
    requires IsBranch(b, parts, indent) && |q| > 1 && q[0] == parts[0] && ShallowFirst(post, indent)
    ensures Lookup(b[1..] + post[..Extent(post, indent)], q[1..], indent + INDENT_STEP) ==
            if q <= parts then Some(b[|q| - 1]) else None
  {
    ShallowFacts(post, indent, q[0]);
    TrailingLines(b[1..], post[..Extent(post, indent)], q[1..], indent + INDENT_STEP);
    BranchLookup(b, parts, indent, q);
    BranchBlock(b, parts, indent);
  }

  lemma InsertedBlock(pre: seq<Row>, b: seq<Row>, post: seq<Row>, parts: seq<string>, indent: nat, key: string)
    requires IsBranch(b, parts, indent)
    ensures BlockAt(pre + (b + post), |pre|, indent) == b[1..] + post[..Extent(post, indent)]
  {
    assert (pre + (b + post))[|pre| + 1..] == b[1..] + post;
    assert KeysAbove(b[1..], indent);
    ExtentConcat(b[1..], post, indent);
  }

  // A sibling found before the insertion keeps its block, up to keyless lines.
  lemma InsertPast(pre: seq<Row>, i: nat, b: seq<Row>, post: seq<Row>, indent: nat, q: seq<string>)
    requires i < |pre| && q != [] && ShallowFirst(post, indent)
    requires b != [] && b[0].head.Key? && b[0].head.indent == indent
    ensures Lookup(BlockAt(pre + (b + post), i, indent), q, indent + INDENT_STEP) ==
            Lookup(BlockAt(pre + post, i, indent), q, indent + INDENT_STEP)
  {
    var rest := pre[i + 1..];
    BlockConcat(pre, b + post, i, indent);
    BlockConcat(pre, post, i, indent);
    if Extent(rest, indent) == |rest| {
      assert (b + post)[0] == b[0];
      assert Extent(b + post, indent) == 0;
      assert rest + (b + post)[..0] == rest;
      ShallowFacts(post, indent, q[0]);
      TrailingLines(rest, post[..Extent(post, indent)], q, indent + INDENT_STEP);
    }
  }

  // --- replacing a line or a nested block ---

  // A block changed inside one key, which stays what it is: other keys of the
  // same level see nothing of it, paths through the key see the new inside.
  lemma NestedFrame(pre: seq<Row>, line: Row, line': Row, inner: seq<Row>, inner': seq<Row>,
                    post: seq<Row>, indent: nat, q: seq<string>)
    requires q != []
    requires line.head.Key? && line.head.indent == indent && line'.head == line.head
    requires KeysAbove(inner, indent) && KeysAbove(inner', indent)
    requires Ends(post, indent)
    requires Locate(pre, indent, line.head.name) == |pre| && KeysAbove(pre, indent - 1)
    ensures var b, b' := pre + [line] + inner + post, pre + [line'] + inner' + post;
            && (q[0] != line.head.name ==> Lookup(b', q, indent) == Lookup(b, q, indent))
            && (q == [line.head.name] ==> Lookup(b, q, indent) == Some(line) && Lookup(b', q, indent) == Some(line'))
            && (q[0] == line.head.name && |q| > 1 ==>
                  && Lookup(b, q, indent) == Lookup(inner, q[1..], indent + INDENT_STEP)
                  && Lookup(b', q, indent) == Lookup(inner', q[1..], indent + INDENT_STEP))
  {
    if q[0] == line.head.name {
      ThroughKey(pre, line, inner, post, indent, q);
      ThroughKey(pre, line', inner', post, indent, q);
    } else {
      BesideKey(pre, line, line', inner, inner', post, indent, q);
    }
  }

  // Lines before which a block at indent ends.
  predicate Ends(post: seq<Row>, indent: nat) {
    post != [] ==> post[0].head.Key? && post[0].head.indent <= indent
  }

  lemma EndsAt(inner: seq<Row>, post: seq<Row>, indent: nat)
    requires KeysAbove(inner, indent) && Ends(post, indent)
    ensures Extent(inner + post, indent) == |inner|
  {
    ExtentConcat(inner, post, indent);
  }

  // A block put together around a key, taken apart again at that key.
  lemma {:induction false} AtKey(pre: seq<Row>, line: Row, inner: seq<Row>, post: seq<Row>, indent: nat, key: string)
    requires line.head == Key(indent, key) && KeysAbove(inner, indent)
    requires Ends(post, indent)
    requires Locate(pre, indent, key) == |pre| && KeysAbove(pre, indent - 1)
    ensures var b := pre + [line] + inner + post;
            && Locate(b, indent, key) == |pre| && b[..|pre|] == pre && b[|pre|] == line
            && BlockAt(b, |pre|, indent) == inner && AfterBlock(b, |pre|, indent) == post
  {
    Grouped(pre, line, inner, post);
    var tail := [line] + (inner + post);
    assert tail[0] == line;
    LocateConcat(pre, tail, indent, key);
    BlockOf(pre + [line], inner, post, indent);
  }

  lemma Grouped(pre: seq<Row>, line: Row, inner: seq<Row>, post: seq<Row>)
    ensures var b := pre + [line] + inner + post;
            && b == pre + ([line] + (inner + post)) && b == (pre + [line]) + (inner + post)
            && b[..|pre|] == pre && b[|pre|] == line
  {
  }

  lemma BlockOf(x: seq<Row>, inner: seq<Row>, post: seq<Row>, indent: nat)
    requires x != [] && KeysAbove(inner, indent)
    requires Ends(post, indent)
    ensures BlockAt(x + (inner + post), |x| - 1, indent) == inner
    ensures AfterBlock(x + (inner + post), |x| - 1, indent) == post
  {
    var rest := inner + post;
    assert (x + rest)[|x|..] == rest;
    ExtentConcat(inner, post, indent);
    assert Extent(rest, indent) == |inner|;
  }

  lemma ThroughKey(pre: seq<Row>, line: Row, inner: seq<Row>, post: seq<Row>, indent: nat, q: seq<string>)
    requires q != [] && line.head == Key(indent, q[0])
    requires KeysAbove(inner, indent)
    requires Ends(post, indent)
    requires Locate(pre, indent, q[0]) == |pre| && KeysAbove(pre, indent - 1)
    ensures Lookup(pre + [line] + inner + post, q, indent) ==
            if |q| == 1 then Some(line) else Lookup(inner, q[1..], indent + INDENT_STEP)
  {
    AtKey(pre, line, inner, post, indent, q[0]);
  }

  lemma BesideKey(pre: seq<Row>, line: Row, line': Row, inner: seq<Row>, inner': seq<Row>,
                  post: seq<Row>, indent: nat, q: seq<string>)
    requires q != [] && line.head.Key? && line.head.indent == indent && line.head.name != q[0]
    requires line'.head == line.head
    requires KeysAbove(inner, indent) && KeysAbove(inner', indent) && KeysAbove(pre, indent - 1)
    ensures Lookup(pre + [line'] + inner' + post, q, indent) == Lookup(pre + [line] + inner + post, q, indent)
  {
    BesideLookup(pre, line, inner, post, indent, q);
    BesideLookup(pre, line', inner', post, indent, q);
    if Locate(pre, indent, q[0]) < |pre| { BlockAtLine(pre, line, line', indent, q); }
  }

  // What a path beside a key sees: the lines before it and after its block.
  lemma BesideLookup(pre: seq<Row>, line: Row, inner: seq<Row>, post: seq<Row>, indent: nat, q: seq<string>)
    requires q != [] && line.head.Key? && line.head.indent == indent && line.head.name != q[0]
    requires KeysAbove(inner, indent) && KeysAbove(pre, indent - 1)
    ensures Lookup(pre + [line] + inner + post, q, indent) ==
            if Locate(pre, indent, q[0]) < |pre| then Lookup(pre + [line], q, indent) else Lookup(post, q, indent)
  {
    if Locate(pre, indent, q[0]) < |pre| {
      assert pre + [line] + inner + post == (pre + [line]) + (inner + post);
      LookupBefore(pre, line, inner + post, indent, q);
    } else {
      var x := pre + [line] + inner;
      LocateConcat(pre, [line] + inner, indent, q[0]);
      LocateAbsent([line] + inner, indent, q[0]);
      assert x == pre + ([line] + inner);
      assert KeysAbove(x, indent - 1);
      LookupAfter(x, post, indent, q);
    }
  }

  lemma LookupBefore(pre: seq<Row>, line: Row, tail: seq<Row>, indent: nat, q: seq<string>)
    requires q != [] && line.head.Key? && line.head.indent == indent
    requires Locate(pre, indent, q[0]) < |pre|
    ensures Lookup((pre + [line]) + tail, q, indent) == Lookup(pre + [line], q, indent)
  {
    hide KeysAbove;
    var i := Locate(pre, indent, q[0]);
    LocateConcat(pre, [line], indent, q[0]);
    LocateConcat(pre + [line], tail, indent, q[0]);
    hide Locate;
    if |q| > 1 {
      BlockUpTo(pre, line, tail, i, indent);
      hide BlockAt;
    }
  }

  lemma BlockUpTo(pre: seq<Row>, line: Row, tail: seq<Row>, i: nat, indent: nat)
    requires line.head.Key? && line.head.indent == indent && i < |pre|
    ensures BlockAt((pre + [line]) + tail, i, indent) == BlockAt(pre + [line], i, indent)
  {
    assert (pre + [line])[i + 1..] == pre[i + 1..] + [line];
    ExtentConcat(pre[i + 1..], [line], indent);
    BlockConcat(pre + [line], tail, i, indent);
  }

  lemma LookupAfter(x: seq<Row>, post: seq<Row>, indent: nat, q: seq<string>)
    requires q != [] && Locate(x, indent, q[0]) == |x| && KeysAbove(x, indent - 1)
    ensures Lookup(x + post, q, indent) == Lookup(post, q, indent)
  {
    LookupOnce(x + post, indent, q);
    LookupOnce(post, indent, q);
    hide *;
    LocateConcat(x, post, indent, q[0]);
    var j := Locate(post, indent, q[0]);
    if j < |post| { BlockAfter(x, post, j, indent); }
  }

  lemma LookupOnce(b: seq<Row>, indent: nat, q: seq<string>)
    requires q != []
    ensures var i := Locate(b, indent, q[0]);
            Lookup(b, q, indent) ==
            if i == |b| then None else if |q| == 1 then Some(b[i]) else Lookup(BlockAt(b, i, indent), q[1..], indent + INDENT_STEP)
  {
  }

  lemma BlockAfter(x: seq<Row>, post: seq<Row>, j: nat, indent: nat)
    requires j < |post|
    ensures (x + post)[|x| + j] == post[j] && BlockAt(x + post, |x| + j, indent) == BlockAt(post, j, indent)
  {
    assert (x + post)[|x| + j + 1..] == post[j + 1..];
  }

  lemma {:induction false} BlockAtLine(pre: seq<Row>, line: Row, line': Row, indent: nat, q: seq<string>)
    requires q != [] && line.head.Key? && line.head.indent == indent && line'.head == line.head
    requires Locate(pre, indent, q[0]) < |pre|
    ensures Lookup(pre + [line'], q, indent) == Lookup(pre + [line], q, indent)
  {
    var i := Locate(pre, indent, q[0]);
    LocateConcat(pre, [line], indent, q[0]);
    LocateConcat(pre, [line'], indent, q[0]);
    if |q| > 1 {
      BlockConcat(pre, [line], i, indent);
      BlockConcat(pre, [line'], i, indent);
      assert [line][..0] == [line'][..0];
    }
  }

  // --- setting and deleting, whatever is written ---

  /** How a setting is written: what becomes of a line that holds it, the lines
      of a path that does not exist, its last line, and which lines hold a
      value that rules out a section. */
  datatype Writer = Writer(edit: Row -> Row, branch: (seq<string>, nat) -> seq<Row>,
                           leaf: (string, nat) -> Row, scalar: Row -> bool)

  /** SetValue within a block. */
  function SetIn(b: seq<Row>, parts: seq<string>, indent: nat, w: Writer): (r: Result<seq<Row>>)
    requires parts != []
    decreases |parts|
  {
    var i := Locate(b, indent, parts[0]);
    if i == |b| then
      var at := InsertPoint(b, indent);
      Ok(b[..at] + (w.branch(parts, indent) + b[at..]))
    else if |parts| == 1 then Ok(b[..i] + [w.edit(b[i])] + BlockAt(b, i, indent) + AfterBlock(b, i, indent))
    else if w.scalar(b[i]) then Err("it is a value, not a section")
    else
      match SetIn(BlockAt(b, i, indent), parts[1..], indent + INDENT_STEP, w)
      case Err(e) => Err(e)
      case Ok(inner) => Ok(b[..i] + [b[i]] + inner + AfterBlock(b, i, indent))
  }

  /** DeleteValue within a block: the key's own line goes, nothing else. */
  function DeleteIn(b: seq<Row>, parts: seq<string>, indent: nat): seq<Row>
    requires parts != []
    decreases |parts|
  {
    var i := Locate(b, indent, parts[0]);
    if i == |b| then b
    else if |parts| == 1 then b[..i] + BlockAt(b, i, indent) + AfterBlock(b, i, indent)
    else b[..i] + [b[i]] + DeleteIn(BlockAt(b, i, indent), parts[1..], indent + INDENT_STEP) + AfterBlock(b, i, indent)
  }

  // A block split at the key a path goes through.
  lemma SplitAt(b: seq<Row>, indent: nat, key: string) returns (pre: seq<Row>, row: Row, inner: seq<Row>, post: seq<Row>)
    requires Locate(b, indent, key) < |b|
    ensures var i := Locate(b, indent, key);
            pre == b[..i] && row == b[i] && inner == BlockAt(b, i, indent) && post == AfterBlock(b, i, indent)
    ensures b == pre + [row] + inner + post && row.head == Key(indent, key)
    ensures KeysAbove(inner, indent) && KeysAbove(pre, indent - 1)
    ensures Ends(post, indent)
    ensures Locate(pre, indent, key) == |pre|
  {
    var i := Locate(b, indent, key);
    pre, row, inner, post := b[..i], b[i], BlockAt(b, i, indent), AfterBlock(b, i, indent);
    SplitBefore(b, indent, key);
    SplitAfter(b, i, indent);
    Joined(b, i, inner, post);
  }

  lemma Joined(b: seq<Row>, i: nat, inner: seq<Row>, post: seq<Row>)
    requires i < |b| && b[i + 1..] == inner + post
    ensures b == b[..i] + [b[i]] + inner + post
  {
    assert b == b[..i] + [b[i]] + b[i + 1..];
  }

  lemma SplitBefore(b: seq<Row>, indent: nat, key: string)
    requires Locate(b, indent, key) < |b|
    ensures var pre := b[..Locate(b, indent, key)]; KeysAbove(pre, indent - 1) && Locate(pre, indent, key) == |pre|
  {
    var i := Locate(b, indent, key);
    LocatePasses(b, indent, key);
    assert forall j :: 0 <= j < i ==> b[..i][j] == b[..i + 1][j];
    LocateAbsent(b[..i], indent, key);
  }

  lemma SplitAfter(b: seq<Row>, i: nat, indent: nat)
    requires i < |b|
    ensures b[i + 1..] == BlockAt(b, i, indent) + AfterBlock(b, i, indent)
    ensures KeysAbove(BlockAt(b, i, indent), indent)
    ensures Ends(AfterBlock(b, i, indent), indent)
  {
    ExtentAbove(b[i + 1..], indent);
  }

  predicate All(b: seq<Row>, good: Row -> bool) {
    forall i {:trigger good(b[i])} :: 0 <= i < |b| ==> good(b[i])
  }

  lemma AllParts(x: seq<Row>, y: seq<Row>, good: Row -> bool)
    ensures All(x + y, good) <==> All(x, good) && All(y, good)
  {
    if All(x + y, good) {
      forall i | 0 <= i < |x| ensures good(x[i]) { assert good((x + y)[i]); }
      forall i | 0 <= i < |y| ensures good(y[i]) { assert good((x + y)[|x| + i]); }
    } else {
      var i :| 0 <= i < |x + y| && !good((x + y)[i]);
      assert if i < |x| then !good(x[i]) else !good(y[i - |x|]);
    }
  }

  // A block with one of its parts replaced.
  lemma Replaced(pre: seq<Row>, row: Row, inner: seq<Row>, post: seq<Row>, row': Row, inner': seq<Row>,
                 good: Row -> bool, bound: int)
    requires All(pre + [row] + inner + post, good) && KeysAbove(pre + [row] + inner + post, bound)
    ensures All(inner, good) && good(row) && KeysAbove(inner, bound)
    ensures All(inner', good) && good(row') ==> All(pre + [row'] + inner' + post, good)
    ensures KeysAbove(inner', bound) && row'.head == row.head ==> KeysAbove(pre + [row'] + inner' + post, bound)
  {
    AllParts(pre + [row] + inner, post, good);
    AllParts(pre + [row], inner, good);
    AllParts(pre, [row], good);
    AllParts(pre + [row'] + inner', post, good);
    AllParts(pre + [row'], inner', good);
    AllParts(pre, [row'], good);
    assert good([row][0]);
    DeepParts(pre + [row] + inner, post, bound);
    DeepParts(pre + [row], inner, bound);
    DeepParts(pre, [row], bound);
    DeepParts(pre + [row'] + inner', post, bound);
    DeepParts(pre + [row'], inner', bound);
    DeepParts(pre, [row'], bound);
    assert [row][0] == row;
  }

  lemma DeepParts(x: seq<Row>, y: seq<Row>, bound: int)
    ensures KeysAbove(x + y, bound) <==> KeysAbove(x, bound) && KeysAbove(y, bound)
  {
    if KeysAbove(x + y, bound) {
      forall i | 0 <= i < |x| && x[i].head.Key? ensures x[i].head.indent > bound { assert (x + y)[i] == x[i]; }
      forall i | 0 <= i < |y| && y[i].head.Key? ensures y[i].head.indent > bound { assert (x + y)[|x| + i] == y[i]; }
    }
  }

  // What a writer owes a path: branches with its keys, sections down to the
  // leaf, and lines that stay good.
  predicate Writes(w: Writer, parts: seq<string>, indent: nat, good: Row -> bool, section: Row -> bool)
    requires parts != []
    decreases |parts|
  {
    var b := w.branch(parts, indent);
    && IsBranch(b, parts, indent) && All(b, good)
    && b[|parts| - 1] == w.leaf(parts[|parts| - 1], indent + (|parts| - 1) * INDENT_STEP)
    && All(b[..|parts| - 1], section)
    && (|parts| > 1 ==> Writes(w, parts[1..], indent + INDENT_STEP, good, section))
  }

  // What it owes a line that holds the setting.
  predicate Edits(w: Writer, row: Row, good: Row -> bool) {
    good(row) && row.head.Key? ==> w.edit(row).head == row.head && good(w.edit(row))
  }

  ghost predicate EditsAll(w: Writer, good: Row -> bool) {
    forall row {:trigger Edits(w, row, good)} :: Edits(w, row, good)
  }

  // Good lines stay good, and nothing shallower than the block comes in.
  lemma {:induction false} SetKeeps(b: seq<Row>, parts: seq<string>, indent: nat, w: Writer, good: Row -> bool,
                                    section: Row -> bool, bound: int)
    requires parts != [] && SetIn(b, parts, indent, w).Ok?
    requires Writes(w, parts, indent, good, section) && EditsAll(w, good) && All(b, good)
    requires KeysAbove(b, bound) && bound < indent
    ensures All(SetIn(b, parts, indent, w).value, good) && KeysAbove(SetIn(b, parts, indent, w).value, bound)
    decreases |parts|
  {
    if Locate(b, indent, parts[0]) == |b| {
      InsertKeeps(b, InsertPoint(b, indent), w.branch(parts, indent), parts, indent, good, bound);
    } else {
      var pre, row, inner, post := SplitAt(b, indent, parts[0]);
      if |parts| == 1 {
        assert Edits(w, row, good);
        Replaced(pre, row, inner, post, w.edit(row), inner, good, bound);
      } else {
        Replaced(pre, row, inner, post, row, [], good, bound);
        SetKeeps(inner, parts[1..], indent + INDENT_STEP, w, good, section, bound);
        Replaced(pre, row, inner, post, row, SetIn(inner, parts[1..], indent + INDENT_STEP, w).value, good, bound);
      }
    }
  }

  lemma InsertKeeps(b: seq<Row>, at: nat, br: seq<Row>, parts: seq<string>, indent: nat, good: Row -> bool, bound: int)
    requires at <= |b| && IsBranch(br, parts, indent) && All(br, good) && All(b, good)
    requires KeysAbove(b, bound) && bound < indent
    ensures All(b[..at] + (br + b[at..]), good) && KeysAbove(b[..at] + (br + b[at..]), bound)
  {
    assert b == b[..at] + b[at..];
    AllParts(b[..at], b[at..], good);
    AllParts(br, b[at..], good);
    AllParts(b[..at], br + b[at..], good);
    DeepParts(b[..at], b[at..], bound);
    DeepParts(br, b[at..], bound);
    DeepParts(b[..at], br + b[at..], bound);
  }

  // Whatever is written, it was written by the writer.
  predicate BranchesGood(w: Writer, parts: seq<string>, indent: nat, good: Row -> bool)
    decreases |parts|
  {
    parts != [] ==> All(w.branch(parts, indent), good) && BranchesGood(w, parts[1..], indent + INDENT_STEP, good)
  }

  lemma {:induction false} SetStaysGood(b: seq<Row>, parts: seq<string>, indent: nat, w: Writer, good: Row -> bool)
    requires parts != [] && SetIn(b, parts, indent, w).Ok? && All(b, good)
    requires BranchesGood(w, parts, indent, good)
    requires forall row {:trigger w.edit(row)} :: good(row) ==> good(w.edit(row))
    ensures All(SetIn(b, parts, indent, w).value, good)
    decreases |parts|
  {
    if Locate(b, indent, parts[0]) == |b| {
      var at := InsertPoint(b, indent);
      assert b == b[..at] + b[at..];
      AllParts(b[..at], b[at..], good);
      AllParts(w.branch(parts, indent), b[at..], good);
      AllParts(b[..at], w.branch(parts, indent) + b[at..], good);
    } else {
      var pre, row, inner, post := SplitAt(b, indent, parts[0]);
      if |parts| == 1 {
        Replaced(pre, row, inner, post, w.edit(row), inner, good, -1);
      } else {
        Replaced(pre, row, inner, post, row, [], good, -1);
        SetStaysGood(inner, parts[1..], indent + INDENT_STEP, w, good);
        Replaced(pre, row, inner, post, row, SetIn(inner, parts[1..], indent + INDENT_STEP, w).value, good, -1);
      }
    }
  }

  // A path finds one of the block's own lines, through keys of such lines.
  lemma {:induction false} LookupGood(b: seq<Row>, parts: seq<string>, indent: nat, good: Row -> bool, key: string -> bool)
    requires parts != [] && All(b, good) && Lookup(b, parts, indent).Some?
    requires forall row {:trigger good(row)} :: good(row) && row.head.Key? ==> key(row.head.name)
    ensures good(Lookup(b, parts, indent).value) && Lookup(b, parts, indent).value.head.Key?
    ensures forall k :: 0 <= k < |parts| ==> key(parts[k])
    decreases |parts|
  {
    var pre, row, inner, post := SplitAt(b, indent, parts[0]);
    Replaced(pre, row, inner, post, row, [], good, -1);
    if |parts| > 1 {
      LookupGood(inner, parts[1..], indent + INDENT_STEP, good, key);
      assert forall k :: 1 <= k < |parts| ==> parts[k] == parts[1..][k - 1];
    }
  }

  lemma AllOne(row: Row, good: Row -> bool)
    ensures All([row], good) <==> good(row)
  {
    assert good([row][0]) <==> good(row);
  }

  // What one path finds after another was set.
  predicate Framed(was: Option<Row>, now: Option<Row>, parts: seq<string>, indent: nat, w: Writer, q: seq<string>,
                   section: Row -> bool)
    requires parts != []
  {
    if q == parts then
      now == Some(if was.Some? then w.edit(was.value)
                  else w.leaf(parts[|parts| - 1], indent + (|parts| - 1) * INDENT_STEP))
    else if q <= parts && was == None then now.Some? && section(now.value)
    else now == was
  }

  // A setting changes what its own path names, adds its missing prefixes as
  // sections, and leaves every other path naming the line it named before.
  lemma {:induction false} SetFrame(b: seq<Row>, parts: seq<string>, indent: nat, w: Writer, q: seq<string>,
                                    good: Row -> bool, section: Row -> bool)
    requires parts != [] && q != [] && SetIn(b, parts, indent, w).Ok?
    requires Writes(w, parts, indent, good, section) && EditsAll(w, good) && All(b, good)
    ensures Framed(Lookup(b, q, indent), Lookup(SetIn(b, parts, indent, w).value, q, indent), parts, indent, w, q, section)
    decreases |parts|
  {
    if Locate(b, indent, parts[0]) == |b| {
      InsertCase(b, parts, indent, w, q, good, section);
    } else {
      var pre, row, inner, post := SplitAt(b, indent, parts[0]);
      Replaced(pre, row, inner, post, row, [], good, -1);
      if |parts| == 1 {
        assert Edits(w, row, good);
        ReplaceCase(pre, row, w.edit(row), inner, post, parts, indent, w, q, section);
      } else {
        var inner' := SetIn(inner, parts[1..], indent + INDENT_STEP, w).value;
        SetKeeps(inner, parts[1..], indent + INDENT_STEP, w, good, section, indent);
        if |q| > 1 && q[0] == parts[0] {
          SetFrame(inner, parts[1..], indent + INDENT_STEP, w, q[1..], good, section);
        }
        NestedCase(pre, row, inner, inner', post, parts, indent, w, q, section);
      }
    }
  }

  lemma ReplaceCase(pre: seq<Row>, row: Row, row': Row, inner: seq<Row>, post: seq<Row>, parts: seq<string>,
                    indent: nat, w: Writer, q: seq<string>, section: Row -> bool)
    requires q != [] && |parts| == 1 && row.head == Key(indent, parts[0]) && row'.head == row.head && row' == w.edit(row)
    requires KeysAbove(inner, indent) && KeysAbove(pre, indent - 1) && Locate(pre, indent, parts[0]) == |pre|
    requires Ends(post, indent)
    ensures Framed(Lookup(pre + [row] + inner + post, q, indent), Lookup(pre + [row'] + inner + post, q, indent),
                   parts, indent, w, q, section)
  {
    NestedFrame(pre, row, row', inner, inner, post, indent, q);
    assert q == [q[0]] + q[1..] && parts == [parts[0]];
  }

  lemma NestedCase(pre: seq<Row>, row: Row, inner: seq<Row>, inner': seq<Row>, post: seq<Row>, parts: seq<string>,
                   indent: nat, w: Writer, q: seq<string>, section: Row -> bool)
    requires q != [] && |parts| > 1 && row.head == Key(indent, parts[0])
    requires KeysAbove(inner, indent) && KeysAbove(inner', indent)
    requires KeysAbove(pre, indent - 1) && Locate(pre, indent, parts[0]) == |pre|
    requires Ends(post, indent)
    requires |q| > 1 && q[0] == parts[0] ==>
               Framed(Lookup(inner, q[1..], indent + INDENT_STEP), Lookup(inner', q[1..], indent + INDENT_STEP),
                      parts[1..], indent + INDENT_STEP, w, q[1..], section)
    ensures Framed(Lookup(pre + [row] + inner + post, q, indent), Lookup(pre + [row] + inner' + post, q, indent),
                   parts, indent, w, q, section)
  {
    NestedFrame(pre, row, row, inner, inner', post, indent, q);
    hide *;
    if q[0] == parts[0] && |q| > 1 {
      FramedDown(Lookup(inner, q[1..], indent + INDENT_STEP), Lookup(inner', q[1..], indent + INDENT_STEP),
                 parts, indent, w, q, section);
    } else {
      if q[0] == parts[0] { assert q == [parts[0]]; }
      FramedSame(Lookup(pre + [row] + inner + post, q, indent), parts, indent, w, q, section);
    }
  }

  lemma FramedDown(was: Option<Row>, now: Option<Row>, parts: seq<string>, indent: nat, w: Writer, q: seq<string>,
                   section: Row -> bool)
    requires |parts| > 1 && |q| > 1 && q[0] == parts[0]
    requires Framed(was, now, parts[1..], indent + INDENT_STEP, w, q[1..], section)
    ensures Framed(was, now, parts, indent, w, q, section)
  {
    PathTails(q, parts);
    assert parts[1..][|parts| - 2] == parts[|parts| - 1];
    assert indent + INDENT_STEP + (|parts| - 2) * INDENT_STEP == indent + (|parts| - 1) * INDENT_STEP;
  }

  lemma FramedSame(was: Option<Row>, parts: seq<string>, indent: nat, w: Writer, q: seq<string>, section: Row -> bool)
    requires parts != [] && q != [] && (q[0] != parts[0] || (was.Some? && q != parts))
    ensures Framed(was, was, parts, indent, w, q, section)
  {
  }

  lemma {:induction false} InsertCase(b: seq<Row>, parts: seq<string>, indent: nat, w: Writer, q: seq<string>,
                   good: Row -> bool, section: Row -> bool)
    requires parts != [] && q != [] && Locate(b, indent, parts[0]) == |b|
    requires Writes(w, parts, indent, good, section)
    ensures Framed(Lookup(b, q, indent), Lookup(SetIn(b, parts, indent, w).value, q, indent), parts, indent, w, q, section)
  {
    var at, br := InsertPoint(b, indent), w.branch(parts, indent);
    Inserting(b, parts, indent, w);
    assert IsBranch(br, parts, indent);
    hide *;
    InsertFrame(b[..at], br, b[at..], parts, indent, q);
    assert q <= parts ==> q[0] == parts[0];
    FramedByBranch(Lookup(b, q, indent), Lookup(b[..at] + (br + b[at..]), q, indent), parts, indent, w, q, good, section);
  }

  lemma FramedByBranch(was: Option<Row>, now: Option<Row>, parts: seq<string>, indent: nat, w: Writer, q: seq<string>,
                       good: Row -> bool, section: Row -> bool)
    requires parts != [] && q != [] && Writes(w, parts, indent, good, section)
    requires if q <= parts then was == None && now == Some(w.branch(parts, indent)[|q| - 1]) else now == was
    ensures Framed(was, now, parts, indent, w, q, section)
  {
    if q <= parts && q != parts {
      assert section(w.branch(parts, indent)[..|parts| - 1][|q| - 1]);
    }
  }

  lemma Inserting(b: seq<Row>, parts: seq<string>, indent: nat, w: Writer)
    requires parts != [] && Locate(b, indent, parts[0]) == |b|
    ensures var at := InsertPoint(b, indent);
            && b[..at] + b[at..] == b && KeysAbove(b[..at], indent - 1) && ShallowFirst(b[at..], indent)
            && SetIn(b, parts, indent, w) == Ok(b[..at] + (w.branch(parts, indent) + b[at..]))
  {
    assert b[..0] == [] && b[0..0] == [];
    InsertSplits(b, 0, 0, indent);
  }

  // The section of a path exists and its last key does not.
  predicate MissingLeaf(b: seq<Row>, parts: seq<string>, indent: nat)
    requires parts != []
    decreases |parts|
  {
    var i := Locate(b, indent, parts[0]);
    if |parts| == 1 then i == |b| else i < |b| && MissingLeaf(BlockAt(b, i, indent), parts[1..], indent + INDENT_STEP)
  }

  /** Deleting what a setting has just added to a block restores its lines. */
  lemma {:induction false} DeleteUndoesSet(b: seq<Row>, parts: seq<string>, indent: nat, w: Writer,
                                           good: Row -> bool, section: Row -> bool)
    requires parts != [] && MissingLeaf(b, parts, indent) && SetIn(b, parts, indent, w).Ok?
    requires Writes(w, parts, indent, good, section) && EditsAll(w, good) && All(b, good)
    ensures DeleteIn(SetIn(b, parts, indent, w).value, parts, indent) == b
    decreases |parts|
  {
    if |parts| == 1 {
      var at := InsertPoint(b, indent);
      InsertSplits(b, 0, 0, indent);
      assert b == b[..at] + b[at..];
      DeleteInserted(b[..at], w.branch(parts, indent), b[at..], parts, indent);
    } else {
      var pre, row, inner, post := SplitAt(b, indent, parts[0]);
      var inner' := SetIn(inner, parts[1..], indent + INDENT_STEP, w).value;
      Replaced(pre, row, inner, post, row, [], good, -1);
      SetKeeps(inner, parts[1..], indent + INDENT_STEP, w, good, section, indent);
      DeleteUndoesSet(inner, parts[1..], indent + INDENT_STEP, w, good, section);
      DeleteThrough(pre, row, inner', post, indent, parts);
    }
  }

  lemma DeleteInserted(pre: seq<Row>, br: seq<Row>, post: seq<Row>, parts: seq<string>, indent: nat)
    requires |parts| == 1 && IsBranch(br, parts, indent) && KeysAbove(pre, indent - 1)
    requires Locate(pre + post, indent, parts[0]) == |pre + post|
    ensures DeleteIn(pre + (br + post), parts, indent) == pre + post
  {
    var all, at := pre + (br + post), |pre|;
    LocateConcat(pre, post, indent, parts[0]);
    LocateConcat(pre, br + post, indent, parts[0]);
    assert (br + post)[0].head == Key(indent, parts[0]);
    assert Locate(br + post, indent, parts[0]) == 0;
    assert all[at + 1..] == post && all[..at] == pre;
    SplitAfter(all, at, indent);
    assert pre + BlockAt(all, at, indent) + AfterBlock(all, at, indent) == pre + post;
  }

  lemma DeleteThrough(pre: seq<Row>, row: Row, inner: seq<Row>, post: seq<Row>, indent: nat, parts: seq<string>)
    requires |parts| > 1 && row.head == Key(indent, parts[0])
    requires KeysAbove(inner, indent) && KeysAbove(pre, indent - 1) && Locate(pre, indent, parts[0]) == |pre|
    requires Ends(post, indent)
    ensures DeleteIn(pre + [row] + inner + post, parts, indent) ==
            pre + [row] + DeleteIn(inner, parts[1..], indent + INDENT_STEP) + post
  {
    AtKey(pre, row, inner, post, indent, parts[0]);
  }

  // Deleting a key does not delete its block: the lines below it fall to
  // whatever section comes before.
  lemma DeleteMovesChildren()
    ensures var b := [Row("a:", Key(0, "a")), Row("b:", Key(0, "b")), Row("  y: 2", Key(2, "y"))];
            && Lookup(b, ["a", "y"], 0) == None
            && Lookup(DeleteIn(b, ["b"], 0), ["a", "y"], 0) == Some(b[2])
  {
    var a, c, y := Row("a:", Key(0, "a")), Row("b:", Key(0, "b")), Row("  y: 2", Key(2, "y"));
    var b := [a, c, y];
    assert b[1..] == [c, y] && b[2..] == [y] && b[1..][1..] == [y];
    assert Locate(b, 0, "a") == 0 && Extent([c, y], 0) == 0;
    assert Locate([c, y], 0, "b") == 0 && Locate(b, 0, "b") == 1;
    var d := [a, y];
    assert DeleteIn(b, ["b"], 0) == d;
    assert d[1..] == [y] && [y][1..] == [];
    assert Extent([y], 0) == 1 && [y][..1] == [y];
    assert Locate(d, 0, "a") == 0 && BlockAt(d, 0, 0) == [y];
    assert ["a", "y"][1..] == ["y"];
    assert Locate([y], 2, "y") == 0;
  }

  // --- the loops, as the source runs them ---

  method FindKey(lines: seq<Row>, start: nat, end: nat, indent: nat, key: string) returns (idx: int)
    requires start <= end <= |lines|
    ensures idx < 0 <==> Locate(lines[start..end], indent, key) == end - start
    ensures idx >= 0 ==> idx == start + Locate(lines[start..end], indent, key) && idx < end
  {
    ghost var b := lines[start..end];
    var i := start;
    while i < end && i < |lines|
      invariant start <= i <= end
      invariant Locate(b, indent, key) == i - start + Locate(b[i - start..], indent, key)
    {
      assert b[i - start..][0] == lines[i] && b[i - start..][1..] == b[i + 1 - start..];
      var head := lines[i].head;
      if head.Key? {
        if head.indent < indent { return -1; }
        if head.indent == indent && head.name == key { return i; }
      }
      i := i + 1;
    }
    return -1;
  }

  method BlockRange(lines: seq<Row>, idx: nat, indent: nat) returns (start: nat, end: nat)
    requires idx < |lines|
    ensures start == idx + 1 && end == start + Extent(lines[start..], indent) && end <= |lines|
  {
    start := idx + 1;
    ghost var b := lines[start..];
    var i := start;
    while i < |lines|
      invariant start <= i <= |lines|
      invariant Extent(b, indent) == i - start + Extent(b[i - start..], indent)
    {
      assert b[i - start..][0] == lines[i] && b[i - start..][1..] == b[i + 1 - start..];
      var head := lines[i].head;
      if head.Key? && head.indent <= indent { return start, i; }
      i := i + 1;
    }
    return start, |lines|;
  }

  method FindInsertPoint(lines: seq<Row>, start: nat, end: nat, indent: nat) returns (at: nat)
    requires start <= end <= |lines|
    ensures at == start + InsertPoint(lines[start..end], indent) && at <= end
  {
    ghost var b := lines[start..end];
    at := start;
    var i := start;
    while i < end && i < |lines|
      invariant start <= at <= i <= end
      invariant InsertPoint(b, indent) == InsertFrom(b, i - start, at - start, indent)
    {
      assert b[i - start] == lines[i];
      var head := lines[i].head;
      if !head.Blank? {
        if head.Key? && head.indent < indent { break; }
        at := i + 1;
      }
      i := i + 1;
    }
  }

  function Composed(pre: seq<Row>, r: Result<seq<Row>>, post: seq<Row>): Result<seq<Row>> {
    match r case Err(e) => Err(e) case Ok(inner) => Ok(pre + inner + post)
  }

  lemma Regroup(a: seq<Row>, b: seq<Row>, c: seq<Row>, d: seq<Row>, e: seq<Row>, f: seq<Row>)
    ensures a + (b + c + d + e) + f == (a + b + c) + d + (e + f)
  {
  }

  lemma Reshape(pre: seq<Row>, b: seq<Row>, post: seq<Row>, i: nat, inner: seq<Row>, after: seq<Row>)
    requires i < |b| && b[i + 1..] == inner + after
    ensures pre + b + post == (pre + b[..i] + [b[i]]) + inner + (after + post)
    ensures (pre + b + post)[|pre| + i + 1..] == inner + (after + post)
  {
    assert b == b[..i] + [b[i]] + (inner + after);
  }

  /** One step down the path, on the lines of the file: pre + b + post with b
      the block being searched. */
  lemma StepDown(pre: seq<Row>, b: seq<Row>, post: seq<Row>, i: nat, inner: seq<Row>, after: seq<Row>, indent: nat)
    requires i < |b| && b[i + 1..] == inner + after && KeysAbove(inner, indent)
    requires Ends(after, indent) && Ends(post, indent)
    ensures pre + b + post == (pre + b[..i] + [b[i]]) + inner + (after + post) && Ends(after + post, indent)
    ensures Extent((pre + b + post)[|pre| + i + 1..], indent) == |inner|
  {
    Reshape(pre, b, post, i, inner, after);
    EndsConcat(after, post, indent);
    EndsAt(inner, after + post, indent);
  }

  lemma EndsConcat(x: seq<Row>, y: seq<Row>, indent: nat)
    requires Ends(x, indent) && Ends(y, indent)
    ensures Ends(x + y, indent)
  {
  }

  lemma Whole(r: Result<seq<Row>>)
    ensures Composed([], r, []) == r
  {
    if r.Ok? { assert [] + r.value + [] == r.value; }
  }

  // The lines of the file cut around the block being searched.
  datatype Cut = Cut(pre: seq<Row>, b: seq<Row>, post: seq<Row>)

  predicate IsCut(c: Cut, lines: seq<Row>, indent: nat) {
    && lines == c.pre + c.b + c.post
    && Ends(c.post, indent)
  }

  function Inside(c: Cut, i: nat, indent: nat): Cut
    requires i < |c.b|
  {
    Cut(c.pre + c.b[..i] + [c.b[i]], BlockAt(c.b, i, indent), AfterBlock(c.b, i, indent) + c.post)
  }

  // The block being searched is lines start up to end of the file.
  predicate Here(lines: seq<Row>, start: nat, end: nat, indent: nat, c: Cut) {
    IsCut(c, lines, indent) && start == |c.pre| && end == start + |c.b|
  }

  // The key is on line idx of the file, or nowhere in the block.
  predicate On(lines: seq<Row>, idx: int, indent: nat, key: string, c: Cut) {
    var i := Locate(c.b, indent, key);
    i < |c.b| && idx == |c.pre| + i < |lines| && lines[idx] == c.b[i]
  }

  predicate Absent(indent: nat, key: string, c: Cut) {
    Locate(c.b, indent, key) == |c.b|
  }

  // The cut around the block of a key of the block.
  function Below(c: Cut, indent: nat, key: string): Cut {
    var i := Locate(c.b, indent, key);
    if i < |c.b| then Inside(c, i, indent) else c
  }

  // What becomes of the file when its block is set, or a path deleted in it.
  function SetOf(c: Cut, parts: seq<string>, indent: nat, w: Writer): Result<seq<Row>>
    requires parts != []
  {
    Composed(c.pre, SetIn(c.b, parts, indent, w), c.post)
  }

  function DeleteOf(c: Cut, parts: seq<string>, indent: nat): Option<seq<Row>>
    requires parts != []
  {
    if Lookup(c.b, parts, indent) == None then None else Some(c.pre + DeleteIn(c.b, parts, indent) + c.post)
  }

  // One step down the path: the block of the key found is where the rest of
  // the change happens.
  lemma SetDown(c: Cut, i: nat, parts: seq<string>, indent: nat, w: Writer)
    requires |parts| > 1 && i == Locate(c.b, indent, parts[0]) < |c.b| && !w.scalar(c.b[i])
    ensures SetOf(c, parts, indent, w) == SetOf(Inside(c, i, indent), parts[1..], indent + INDENT_STEP, w)
  {
    match SetIn(BlockAt(c.b, i, indent), parts[1..], indent + INDENT_STEP, w)
    case Err(_) =>
    case Ok(inner) =>
      Regroup(c.pre, c.b[..i], [c.b[i]], inner, AfterBlock(c.b, i, indent), c.post);
  }

  lemma DeleteDown(c: Cut, i: nat, parts: seq<string>, indent: nat)
    requires |parts| > 1 && i == Locate(c.b, indent, parts[0]) < |c.b|
    ensures DeleteOf(c, parts, indent) == DeleteOf(Inside(c, i, indent), parts[1..], indent + INDENT_STEP)
  {
    Regroup(c.pre, c.b[..i], [c.b[i]], DeleteIn(BlockAt(c.b, i, indent), parts[1..], indent + INDENT_STEP),
            AfterBlock(c.b, i, indent), c.post);
  }

  // Into the block of the key on line idx.
  method Enter(lines: seq<Row>, idx: nat, indent: nat, ghost key: string, ghost c: Cut)
    returns (start: nat, end: nat, ghost c': Cut)
    requires IsCut(c, lines, indent) && On(lines, idx, indent, key, c)
    ensures c' == Below(c, indent, key) && Here(lines, start, end, indent + INDENT_STEP, c')
  {
    c' := Below(c, indent, key);
    GoDown(lines, idx, indent, key, c);
    hide *;
    start, end := BlockRange(lines, idx, indent);
  }

  lemma {:induction false} GoDown(lines: seq<Row>, idx: nat, indent: nat, key: string, c: Cut)
    requires IsCut(c, lines, indent) && On(lines, idx, indent, key, c)
    ensures idx < |lines|
    ensures Here(lines, idx + 1, idx + 1 + Extent(lines[idx + 1..], indent), indent + INDENT_STEP, Below(c, indent, key))
  {
    hide *;
    var i := BelowIs(lines, idx, indent, key, c);
    GoInside(c, i, indent);
  }

  lemma BelowIs(lines: seq<Row>, idx: nat, indent: nat, key: string, c: Cut) returns (i: nat)
    requires IsCut(c, lines, indent) && On(lines, idx, indent, key, c)
    ensures i < |c.b| && idx == |c.pre| + i < |lines| && Below(c, indent, key) == Inside(c, i, indent)
    ensures lines == c.pre + c.b + c.post && Ends(c.post, indent)
  {
    hide Locate, Inside, Ends;
    i := Locate(c.b, indent, key);
  }

  lemma {:induction false} GoInside(c: Cut, i: nat, indent: nat)
    requires i < |c.b| && Ends(c.post, indent)
    ensures var all, start := c.pre + c.b + c.post, |c.pre| + i + 1;
            Here(all, start, start + Extent(all[start..], indent), indent + INDENT_STEP, Inside(c, i, indent))
  {
    hide *;
    var inner, after := BlockAt(c.b, i, indent), AfterBlock(c.b, i, indent);
    InsideIs(c, i, indent);
    SplitAfter(c.b, i, indent);
    StepDown(c.pre, c.b, c.post, i, inner, after, indent);
    EndsDeeper(after + c.post, indent);
    CutThere(c.pre, c.b[..i], c.b[i]);
    HereCut(c.pre + c.b + c.post, c.pre + c.b[..i] + [c.b[i]], inner, after + c.post, indent + INDENT_STEP);
  }

  lemma InsideIs(c: Cut, i: nat, indent: nat)
    requires i < |c.b|
    ensures Inside(c, i, indent) ==
            Cut(c.pre + c.b[..i] + [c.b[i]], BlockAt(c.b, i, indent), AfterBlock(c.b, i, indent) + c.post)
  {
  }

  lemma HereCut(all: seq<Row>, x: seq<Row>, inner: seq<Row>, post: seq<Row>, indent: nat)
    requires all == x + inner + post && Ends(post, indent)
    ensures Here(all, |x|, |x| + |inner|, indent, Cut(x, inner, post))
  {
    hide Ends;
  }

  lemma EndsDeeper(post: seq<Row>, indent: nat)
    requires Ends(post, indent)
    ensures Ends(post, indent + INDENT_STEP)
  {
  }

  lemma CutThere(x: seq<Row>, y: seq<Row>, row: Row)
    ensures |x + y + [row]| == |x| + |y| + 1
  {
  }

  // The rest of a path, from its i-th key, set or deleted in the block.
  function SetFrom(c: Cut, parts: seq<string>, i: nat, indent: nat, w: Writer): Result<seq<Row>>
    requires i < |parts|
  {
    SetOf(c, parts[i..], indent, w)
  }

  function DeleteFrom(c: Cut, parts: seq<string>, i: nat, indent: nat): Option<seq<Row>>
    requires i < |parts|
  {
    DeleteOf(c, parts[i..], indent)
  }

  lemma Tail(parts: seq<string>, i: nat)
    requires i < |parts|
    ensures parts[i..][1..] == parts[i + 1..] && parts[i..][0] == parts[i]
  {
  }

  method SearchIn(lines: seq<Row>, start: nat, end: nat, indent: nat, key: string, ghost c: Cut) returns (idx: int)
    requires Here(lines, start, end, indent, c)
    ensures if idx < 0 then Absent(indent, key, c) else On(lines, idx, indent, key, c)
  {
    assert lines[start..end] == c.b;
    idx := FindKey(lines, start, end, indent, key);
    assert idx >= 0 ==> lines[idx] == lines[start..end][idx - start];
  }

  // The part of a path that does not exist, written into its block.
  method InsertAt(lines: seq<Row>, start: nat, end: nat, indent: nat, parts: seq<string>, i: nat, w: Writer, ghost c: Cut)
    returns (r: Result<seq<Row>>)
    requires Here(lines, start, end, indent, c) && i < |parts| && Absent(indent, parts[i], c)
    ensures r == SetFrom(c, parts, i, indent, w)
  {
    ghost var pre, b, post := c.pre, c.b, c.post;
    var insert := w.branch(parts[i..], indent);
    assert lines[start..end] == b;
    var at := FindInsertPoint(lines, start, end, indent);
    ghost var k := at - start;
    PutAt(pre, b, post, k, insert);
    r := Ok(lines[..at] + (insert + lines[at..]));
  }

  lemma PutAt(pre: seq<Row>, b: seq<Row>, post: seq<Row>, k: nat, x: seq<Row>)
    requires k <= |b|
    ensures var all := pre + b + post;
            all[..|pre| + k] + (x + all[|pre| + k..]) == pre + (b[..k] + (x + b[k..])) + post
  {
    assert b == b[..k] + b[k..];
  }

  // The line of a path that does, edited.
  method EditAt(lines: seq<Row>, idx: nat, indent: nat, parts: seq<string>, i: nat, w: Writer, ghost c: Cut)
    returns (r: Result<seq<Row>>)
    requires IsCut(c, lines, indent) && i + 1 == |parts| && On(lines, idx, indent, parts[i], c)
    ensures r == SetFrom(c, parts, i, indent, w)
  {
    ghost var k := Locate(c.b, indent, parts[i]);
    assert lines[idx] == c.b[k];
    SplitAfter(c.b, k, indent);
    Edited(c.pre, c.b, c.post, k, w.edit(c.b[k]), BlockAt(c.b, k, indent), AfterBlock(c.b, k, indent));
    r := Ok(lines[idx := w.edit(lines[idx])]);
  }

  lemma Edited(pre: seq<Row>, b: seq<Row>, post: seq<Row>, i: nat, row: Row, inner: seq<Row>, after: seq<Row>)
    requires i < |b| && b[i + 1..] == inner + after
    ensures (pre + b + post)[|pre| + i := row] == pre + (b[..i] + [row] + inner + after) + post
  {
    assert b[i := row] == b[..i] + [row] + (inner + after);
    assert (pre + b + post)[|pre| + i := row] == pre + b[i := row] + post;
  }

  // A path through a line that holds a value.
  lemma Blocked(lines: seq<Row>, idx: nat, c: Cut, parts: seq<string>, i: nat, indent: nat, w: Writer)
    requires i + 1 < |parts| && On(lines, idx, indent, parts[i], c) && w.scalar(lines[idx])
    ensures SetFrom(c, parts, i, indent, w) == Err("it is a value, not a section")
  {
    Tail(parts, i);
  }

  lemma NotThere(c: Cut, parts: seq<string>, i: nat, indent: nat)
    requires i < |parts| && Absent(indent, parts[i], c)
    ensures DeleteFrom(c, parts, i, indent) == None
  {
    Tail(parts, i);
  }

  // One level down is where the rest of the path is set or deleted.
  lemma SetBelow(lines: seq<Row>, idx: nat, c: Cut, parts: seq<string>, i: nat, indent: nat, w: Writer)
    requires i + 1 < |parts| && On(lines, idx, indent, parts[i], c) && !w.scalar(lines[idx])
    ensures SetFrom(Below(c, indent, parts[i]), parts, i + 1, indent + INDENT_STEP, w) == SetFrom(c, parts, i, indent, w)
  {
    Tail(parts, i);
    SetDown(c, idx - |c.pre|, parts[i..], indent, w);
  }

  lemma DeleteBelow(lines: seq<Row>, idx: nat, c: Cut, parts: seq<string>, i: nat, indent: nat)
    requires i + 1 < |parts| && On(lines, idx, indent, parts[i], c)
    ensures DeleteFrom(Below(c, indent, parts[i]), parts, i + 1, indent + INDENT_STEP) == DeleteFrom(c, parts, i, indent)
  {
    Tail(parts, i);
    DeleteDown(c, idx - |c.pre|, parts[i..], indent);
  }

  // The walk starts with the whole file as its block.
  lemma WholeSet(lines: seq<Row>, parts: seq<string>, w: Writer)
    requires parts != []
    ensures Here(lines, 0, |lines|, 0, Cut([], lines, []))
    ensures SetFrom(Cut([], lines, []), parts, 0, 0, w) == SetIn(lines, parts, 0, w)
  {
    Whole(SetIn(lines, parts, 0, w));
    assert parts[0..] == parts;
  }

  lemma WholeDelete(lines: seq<Row>, parts: seq<string>)
    requires parts != []
    ensures Here(lines, 0, |lines|, 0, Cut([], lines, []))
    ensures DeleteFrom(Cut([], lines, []), parts, 0, 0) ==
            if Lookup(lines, parts, 0) == None then None else Some(DeleteIn(lines, parts, 0))
  {
    Whole(Ok(DeleteIn(lines, parts, 0)));
    assert parts[0..] == parts;
  }

  /** SetValue's walk down the path, over the lines of the whole file. */
  method SetLoop(lines: seq<Row>, parts: seq<string>, w: Writer) returns (r: Result<seq<Row>>)
    requires parts != []
    ensures r == SetIn(lines, parts, 0, w)
  {
    var start: nat, end: nat, indent: nat := 0, |lines|, 0;
    ghost var c, goal := Cut([], lines, []), SetIn(lines, parts, 0, w);
    WholeSet(lines, parts, w);
    hide *;
    var i := 0;
    while i < |parts|
      invariant 0 <= i < |parts|
      invariant Here(lines, start, end, indent, c)
      invariant SetFrom(c, parts, i, indent, w) == goal
      decreases |parts| - i
    {
      var idx := SearchIn(lines, start, end, indent, parts[i], c);
      if idx < 0 {
        r := InsertAt(lines, start, end, indent, parts, i, w, c);
        return;
      }
      if i == |parts| - 1 {
        r := EditAt(lines, idx, indent, parts, i, w, c);
        return;
      }
      if w.scalar(lines[idx]) {
        Blocked(lines, idx, c, parts, i, indent, w);
        return Err("it is a value, not a section");
      }
      SetBelow(lines, idx, c, parts, i, indent, w);
      start, end, c := Enter(lines, idx, indent, parts[i], c);
      indent, i := indent + INDENT_STEP, i + 1;
    }
  }

  /** DeleteValue's; None when the path is not there. */
  method DeleteLoop(lines: seq<Row>, parts: seq<string>) returns (r: Option<seq<Row>>)
    requires parts != []
    ensures r == if Lookup(lines, parts, 0) == None then None else Some(DeleteIn(lines, parts, 0))
  {
    var start: nat, end: nat, indent: nat := 0, |lines|, 0;
    ghost var c := Cut([], lines, []);
    ghost var goal := if Lookup(lines, parts, 0) == None then None else Some(DeleteIn(lines, parts, 0));
    WholeDelete(lines, parts);
    hide *;
    var i := 0;
    while i < |parts|
      invariant 0 <= i < |parts|
      invariant Here(lines, start, end, indent, c)
      invariant DeleteFrom(c, parts, i, indent) == goal
      decreases |parts| - i
    {
      var idx := SearchIn(lines, start, end, indent, parts[i], c);
      if idx < 0 {
        NotThere(c, parts, i, indent);
        return None;
      }
      if i == |parts| - 1 {
        r := RemoveAt(lines, idx, indent, parts, i, c);
        return;
      }
      DeleteBelow(lines, idx, c, parts, i, indent);
      start, end, c := Enter(lines, idx, indent, parts[i], c);
      indent, i := indent + INDENT_STEP, i + 1;
    }
  }

  method RemoveAt(lines: seq<Row>, idx: nat, indent: nat, ghost parts: seq<string>, ghost i: nat, ghost c: Cut)
    returns (r: Option<seq<Row>>)
    requires IsCut(c, lines, indent) && i + 1 == |parts| && On(lines, idx, indent, parts[i], c)
    ensures r == DeleteFrom(c, parts, i, indent)
  {
    Removed(c, idx - |c.pre|, parts[i..], indent);
    r := Some(lines[..idx] + lines[idx + 1..]);
  }

  lemma Removed(c: Cut, i: nat, parts: seq<string>, indent: nat)
    requires |parts| == 1 && i == Locate(c.b, indent, parts[0]) < |c.b|
    ensures var lines, idx := c.pre + c.b + c.post, |c.pre| + i;
            Some(lines[..idx] + lines[idx + 1..]) == DeleteOf(c, parts, indent)
  {
    SplitAfter(c.b, i, indent);
    Cutting(c.pre, c.b, c.post, i);
    assert c.b[..i] + BlockAt(c.b, i, indent) + AfterBlock(c.b, i, indent) == c.b[..i] + c.b[i + 1..];
  }

  lemma Cutting(pre: seq<Row>, b: seq<Row>, post: seq<Row>, i: nat)
    requires i < |b|
    ensures var lines, idx := pre + b + post, |pre| + i;
            lines[..idx] + lines[idx + 1..] == pre + (b[..i] + b[i + 1..]) + post
  {
    var lines, idx := pre + b + post, |pre| + i;
    assert lines[..idx] == pre + b[..i] && lines[idx + 1..] == b[i + 1..] + post;
  }
}
