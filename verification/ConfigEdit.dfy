/** Setting and deleting a value by its path (internal/config/edit.go). */
module ConfigEdit {
  import opened Common
  import opened YamlWalk
  import opened YamlLine
  import opened YamlDelete

  function Read(line: string): Row { Row(line, KeyOf(line)) }

  function Rows(lines: seq<string>): (b: seq<Row>)
    ensures |b| == |lines|
  {
    seq(|lines|, i requires 0 <= i < |lines| => Read(lines[i]))
  }

  predicate IsRead(row: Row) { row == Read(row.text) }

  const AsRead: Row -> bool := (row: Row) => IsRead(row)

  // A key with nothing after it, or only a comment.
  const AsSection: Row -> bool := (row: Row) => ValueOf(row.text) == ""

  predicate IsScalar(line: string) { ValueOf(line) != "" && ValueOf(line)[0] != '#' }

  function EditRow(row: Row, text: string): Row {
    if Parse(row.text).Some? then Read(SetLine(row.text, text)) else row
  }

  function Leaf(key: string, text: string, indent: nat): string {
    Spaces(indent) + key + ": " + text
  }

  // buildBranch: the lines of a path that does not exist yet.
  function Branch(parts: seq<string>, text: string, indent: nat): (b: seq<Row>)
    ensures |b| == |parts|
  {
    if parts == [] then []
    else if |parts| == 1 then [Read(Leaf(parts[0], text, indent))]
    else [Read(Spaces(indent) + parts[0] + ":")] + Branch(parts[1..], text, indent + INDENT_STEP)
  }

  /** Line by line: each key below the one before it, the value on the last. */
  lemma {:induction false} BranchIs(parts: seq<string>, text: string, indent: nat, i: nat)
    requires i < |parts|
    ensures Branch(parts, text, indent)[i].text ==
            Spaces(indent + i * INDENT_STEP) + parts[i] + (if i == |parts| - 1 then ": " + text else ":")
    decreases |parts|
  {
    if |parts| == 1 {
      assert Leaf(parts[0], text, indent) == Spaces(indent) + parts[0] + (": " + text);
    } else if i > 0 {
      BranchIs(parts[1..], text, indent + INDENT_STEP, i - 1);
      assert indent + INDENT_STEP + (i - 1) * INDENT_STEP == indent + i * INDENT_STEP;
    }
  }

  function WriterOf(text: string): Writer {
    Writer((row: Row) => EditRow(row, text), (parts: seq<string>, n: nat) => Branch(parts, text, n),
           (key: string, n: nat) => Read(Leaf(key, text, n)), (row: Row) => IsScalar(row.text))
  }

  /** SetValue, on the lines of a file. */
  function Set(b: seq<Row>, parts: seq<string>, value: string): Result<seq<Row>>
    requires parts != []
  {
    SetIn(b, parts, 0, WriterOf(Render(value)))
  }

  /** The value a path reads as. */
  function Get(b: seq<Row>, parts: seq<string>): Option<string>
    requires parts != []
  {
    match Lookup(b, parts, 0)
    case None => None
    case Some(row) => Some(ValueOf(row.text))
  }

  predicate ValidPath(parts: seq<string>) {
    parts != [] && forall i :: 0 <= i < |parts| ==> ValidKey(parts[i])
  }

  lemma SectionLine(key: string, indent: nat)
    requires ValidKey(key)
    ensures KeyOf(Spaces(indent) + key + ":") == Key(indent, key)
    ensures ValueOf(Spaces(indent) + key + ":") == ""
  {
    assert Spaces(indent) + key + ":" == Spaces(indent) + key + ":" + "";
    BuiltLine(Spaces(indent), key, "");
    ParseOf(Spaces(indent), key, "");
  }

  lemma LeafLine(key: string, text: string, indent: nat)
    requires ValidKey(key) && '\n' !in text
    ensures KeyOf(Leaf(key, text, indent)) == Key(indent, key)
    ensures Parse(Leaf(key, text, indent)) == Some(Parsed(Spaces(indent), key, " " + text))
  {
    assert Leaf(key, text, indent) == Spaces(indent) + key + ":" + (" " + text);
    BuiltLine(Spaces(indent), key, " " + text);
    ParseOf(Spaces(indent), key, " " + text);
  }

  lemma BranchHead(parts: seq<string>, text: string, indent: nat) returns (row: Row)
    requires ValidPath(parts) && '\n' !in text
    ensures row.head == Key(indent, parts[0]) && AsRead(row) && (|parts| > 1 ==> AsSection(row))
    ensures Branch(parts, text, indent) ==
            if |parts| == 1 then [row] else [row] + Branch(parts[1..], text, indent + INDENT_STEP)
  {
    hide KeyOf, ValueOf;
    if |parts| == 1 { LeafLine(parts[0], text, indent); } else { SectionLine(parts[0], indent); }
    row := Branch(parts, text, indent)[0];
  }

  // A branch of lines as they are read, sections down to the last.
  predicate GoodBranch(b: seq<Row>, parts: seq<string>, indent: nat) {
    IsBranch(b, parts, indent) && All(b, AsRead) && All(b[..|parts| - 1], AsSection)
  }

  lemma {:induction false} BranchRows(parts: seq<string>, text: string, indent: nat)
    requires ValidPath(parts) && '\n' !in text
    ensures GoodBranch(Branch(parts, text, indent), parts, indent)
    decreases |parts|
  {
    var row := BranchHead(parts, text, indent);
    hide Branch, GoodBranch, ValidKey;
    if |parts| == 1 {
      OneRow(row, parts, indent);
    } else {
      BranchRows(parts[1..], text, indent + INDENT_STEP);
      Prepend(row, Branch(parts[1..], text, indent + INDENT_STEP), parts, indent);
    }
  }

  lemma OneRow(row: Row, parts: seq<string>, indent: nat)
    requires |parts| == 1 && row.head == Key(indent, parts[0]) && AsRead(row)
    ensures GoodBranch([row], parts, indent)
  {
    AllOne(row, AsRead);
  }

  lemma Prepend(row: Row, rest: seq<Row>, parts: seq<string>, indent: nat)
    requires |parts| > 1 && row.head == Key(indent, parts[0]) && AsRead(row) && AsSection(row)
    requires GoodBranch(rest, parts[1..], indent + INDENT_STEP)
    ensures GoodBranch([row] + rest, parts, indent)
  {
    var b := [row] + rest;
    AllOne(row, AsRead);
    AllOne(row, AsSection);
    AllParts([row], rest, AsRead);
    AllParts([row], rest[..|parts| - 2], AsSection);
    assert b[..|parts| - 1] == [row] + rest[..|parts| - 2];
    assert forall i :: 1 <= i < |b| ==> b[i] == rest[i - 1] && parts[1..][i - 1] == parts[i];
  }

  lemma {:induction false} BranchLast(parts: seq<string>, text: string, indent: nat)
    requires parts != []
    ensures Branch(parts, text, indent)[|parts| - 1] ==
            Read(Leaf(parts[|parts| - 1], text, indent + (|parts| - 1) * INDENT_STEP))
    decreases |parts|
  {
    if |parts| > 1 {
      BranchLast(parts[1..], text, indent + INDENT_STEP);
      assert Branch(parts, text, indent)[|parts| - 1] == Branch(parts[1..], text, indent + INDENT_STEP)[|parts| - 2];
    }
  }

  lemma {:induction false} WriterWrites(parts: seq<string>, text: string, indent: nat)
    requires ValidPath(parts) && '\n' !in text
    ensures Writes(WriterOf(text), parts, indent, AsRead, AsSection)
    decreases |parts|
  {
    BranchRows(parts, text, indent);
    BranchLast(parts, text, indent);
    if |parts| > 1 { WriterWrites(parts[1..], text, indent + INDENT_STEP); }
  }

  lemma EditKeeps(row: Row, value: string)
    requires '\n' !in value
    ensures Edits(WriterOf(Render(value)), row, AsRead)
  {
    if IsRead(row) && row.head.Key? { SetLineReads(row.text, value); }
  }

  lemma WriterEdits(value: string)
    requires '\n' !in value
    ensures EditsAll(WriterOf(Render(value)), AsRead)
  {
    forall row ensures Edits(WriterOf(Render(value)), row, AsRead) { EditKeeps(row, value); }
  }

  lemma {:induction false} BranchesRead(parts: seq<string>, text: string, indent: nat)
    ensures BranchesGood(WriterOf(text), parts, indent, AsRead)
    ensures All(Branch(parts, text, indent), AsRead)
    decreases |parts|
  {
    if parts != [] {
      BranchesRead(parts[1..], text, indent + INDENT_STEP);
      var b := Branch(parts, text, indent);
      AllOne(b[0], AsRead);
      if |parts| > 1 {
        AllParts([b[0]], Branch(parts[1..], text, indent + INDENT_STEP), AsRead);
      } else {
        assert b == [b[0]];
      }
    }
  }

  // --- the laws ---

  lemma ReadKeyIsValid(row: Row)
    requires IsRead(row) && row.head.Key?
    ensures ValidKey(row.head.name)
  {
    KeysAreValid(row.text);
  }

  lemma FoundPathsAreValid(b: seq<Row>, parts: seq<string>)
    requires All(b, AsRead) && parts != [] && Lookup(b, parts, 0).Some?
    ensures ValidPath(parts)
    ensures IsRead(Lookup(b, parts, 0).value) && Lookup(b, parts, 0).value.head.Key?
  {
    forall row | IsRead(row) && row.head.Key? ensures ValidKey(row.head.name) { ReadKeyIsValid(row); }
    LookupGood(b, parts, 0, AsRead, (k: string) => ValidKey(k));
    assert AsRead(Lookup(b, parts, 0).value);
  }

  lemma ValuesHaveNoNewline(line: string)
    ensures '\n' !in ValueOf(line)
  {
    if Parse(line).Some? {
      ParseShape(line);
      TrimShortens(ValuePart(Parse(line).value.rest));
    }
  }

  // Whether a value set on this path has to share its line with a comment.
  predicate Commented(b: seq<Row>, parts: seq<string>)
    requires parts != []
  {
    Lookup(b, parts, 0).Some? && HasComment(Lookup(b, parts, 0).value.text)
  }

  lemma LeafReads(key: string, indent: nat, value: string)
    requires ValidKey(key) && '\n' !in value
    ensures ValueOf(Leaf(key, Render(value), indent)) == Render(value) <==> Faithful(value, false)
  {
    RenderNewline(value);
    LeafLine(key, Render(value), indent);
    ReadBack(value, " ", "");
    assert " " + Render(value) + "" == " " + Render(value);
  }

  lemma SetStaysRead(b: seq<Row>, parts: seq<string>, value: string)
    requires All(b, AsRead) && parts != [] && Set(b, parts, value).Ok?
    ensures All(Set(b, parts, value).value, AsRead)
  {
    BranchesRead(parts, Render(value), 0);
    SetStaysGood(b, parts, 0, WriterOf(Render(value)), AsRead);
  }

  // SetFrame for the values SetValue writes.
  lemma Framing(b: seq<Row>, parts: seq<string>, value: string, q: seq<string>)
    requires All(b, AsRead) && ValidPath(parts) && '\n' !in value && q != [] && Set(b, parts, value).Ok?
    ensures Framed(Lookup(b, q, 0), Lookup(Set(b, parts, value).value, q, 0), parts, 0, WriterOf(Render(value)), q, AsSection)
  {
    RenderNewline(value);
    WriterWrites(parts, Render(value), 0);
    WriterEdits(value);
    SetFrame(b, parts, 0, WriterOf(Render(value)), q, AsRead, AsSection);
  }

  lemma SetReads(b: seq<Row>, parts: seq<string>, value: string)
    requires All(b, AsRead) && ValidPath(parts) && '\n' !in value && Set(b, parts, value).Ok?
    ensures Get(Set(b, parts, value).value, parts) == Some(Render(value)) <==> Faithful(value, Commented(b, parts))
  {
    Framing(b, parts, value, parts);
    match Lookup(b, parts, 0)
    case Some(row) =>
      FoundPathsAreValid(b, parts);
      SetLineReads(row.text, value);
    case None =>
      LeafReads(parts[|parts| - 1], (|parts| - 1) * INDENT_STEP, value);
  }

  /** Reading a path after setting it gives the rendered value exactly when
      the path is made of keys and the value is faithful. */
  lemma GetAfterSet(b: seq<Row>, parts: seq<string>, value: string)
    requires All(b, AsRead) && parts != [] && Set(b, parts, value).Ok?
    ensures Get(Set(b, parts, value).value, parts) == Some(Render(value)) <==>
            ValidPath(parts) && Faithful(value, Commented(b, parts))
  {
    if ValidPath(parts) && '\n' !in value {
      SetReads(b, parts, value);
    } else {
      var now := Set(b, parts, value).value;
      SetStaysRead(b, parts, value);
      if Lookup(now, parts, 0).Some? {
        FoundPathsAreValid(now, parts);
        ValuesHaveNoNewline(Lookup(now, parts, 0).value.text);
        RenderNewline(value);
      }
    }
  }

  /** Every path that is not a prefix of the one set reads as before; so does
      every prefix that was there, and a prefix that was not is a section. */
  lemma OthersAfterSet(b: seq<Row>, parts: seq<string>, value: string, q: seq<string>)
    requires All(b, AsRead) && ValidPath(parts) && '\n' !in value && q != [] && q != parts && Set(b, parts, value).Ok?
    ensures Get(Set(b, parts, value).value, q) == if q <= parts && Get(b, q) == None then Some("") else Get(b, q)
  {
    Framing(b, parts, value, q);
  }

  /** Not so for a path that is not made of keys: setting "x: y" creates x. */
  lemma PathsNeedKeys(value: string)
    requires '\n' !in value
    ensures var b := [Read("")];
            Set(b, ["x: y"], value).Ok? && Get(b, ["x"]) == None && Get(Set(b, ["x: y"], value).value, ["x"]) != None
  {
    var b, text := [Read("")], Render(value);
    RenderNewline(value);
    hide Render;
    assert Leaf("x: y", text, 0) == "" + "x" + ":" + (" y: " + text);
    BuiltLine("", "x", " y: " + text);
    assert KeyOf("") == Blank;
    assert b[1..] == [];
    var row := Read(Leaf("x: y", text, 0));
    assert Branch(["x: y"], text, 0) == [row];
    assert InsertPoint(b, 0) == 0 && b[..0] == [] && b[0..] == b;
    var now := Set(b, ["x: y"], value).value;
    assert now == [] + ([row] + b) && now[0] == row;
  }

  /** The comment beside a value survives the edit of the value. */
  lemma CommentAfterSet(b: seq<Row>, parts: seq<string>, value: string)
    requires All(b, AsRead) && parts != [] && Lookup(b, parts, 0).Some?
    requires Faithful(value, Commented(b, parts)) && Set(b, parts, value).Ok?
    ensures var was, now := Lookup(b, parts, 0), Lookup(Set(b, parts, value).value, parts, 0);
            now.Some? && CommentOf(now.value.text) == CommentOf(was.value.text)
  {
    FoundPathsAreValid(b, parts);
    Framing(b, parts, value, parts);
    SetLineReads(Lookup(b, parts, 0).value.text, value);
  }

  /** Deleting a setting just added to its section restores the file. */
  lemma DeleteAfterSet(b: seq<Row>, parts: seq<string>, value: string)
    requires All(b, AsRead) && ValidPath(parts) && '\n' !in value
    requires MissingLeaf(b, parts, 0) && Set(b, parts, value).Ok?
    ensures DeleteIn(Set(b, parts, value).value, parts, 0) == b
  {
    RenderNewline(value);
    WriterWrites(parts, Render(value), 0);
    WriterEdits(value);
    DeleteUndoesSet(b, parts, 0, WriterOf(Render(value)), AsRead, AsSection);
  }

  /** Deleting a key without children leaves every other path reading as before. */
  lemma OthersAfterDelete(b: seq<Row>, parts: seq<string>, q: seq<string>)
    requires parts != [] && q != [] && !(parts <= q) && NoKeys(BlockBelow(b, parts, 0))
    ensures Get(DeleteIn(b, parts, 0), q) == Get(b, q)
  {
    DeleteFrame(b, parts, 0, q);
  }

  /** A path that is not there and whose lines define no keys changes nothing. */
  lemma {:induction false} KeylessPath(b: seq<Row>, parts: seq<string>, value: string, q: seq<string>)
    requires parts != [] && q != [] && Locate(b, 0, parts[0]) == |b| && NoKeys(Branch(parts, Render(value), 0))
    ensures Set(b, parts, value).Ok? && Get(Set(b, parts, value).value, q) == Get(b, q)
  {
    var at := InsertPoint(b, 0);
    assert b[..at] + b[at..] == b;
    KeylessInsert(b[..at], Branch(parts, Render(value), 0), b[at..], q, 0);
  }

  // splitComment does not know escapes: a quote in the value ends, for it,
  // the quotes around it, and a '#' after that is a comment.
  lemma HashAfterQuoteIsLost()
    ensures !Faithful("a\" #b", false)
  {
    var v := "a\" #b";
    assert v[1..] == "\" #b" && v[1..][1..] == " #b" && " #b"[1..] == "#b";
    assert CommentAt("#b", true, '\0') == 0;
    assert CommentAt(" #b", false, '\0') == 1;
  }
}
