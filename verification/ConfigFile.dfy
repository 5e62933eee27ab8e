/** The edits as internal/config/edit.go runs them: loops over the lines of a
    file, each computing what the walk specifies. */
module ConfigFile {
  import opened Common
  import opened YamlWalk
  import opened YamlLine
  import opened ConfigEdit
  import opened YamlKept

  // --- bytes and lines ---

  function SplitOn(s: string, sep: char): (parts: seq<string>)
    ensures parts != []
  {
    if s == "" then [""]
    else
      var rest := SplitOn(s[1..], sep);
      if s[0] == sep then [""] + rest else [[s[0]] + rest[0]] + rest[1..]
  }

  function JoinOn(lines: seq<string>, sep: char): string {
    if lines == [] then "" else if |lines| == 1 then lines[0] else lines[0] + [sep] + JoinOn(lines[1..], sep)
  }

  // strings.ReplaceAll(s, "\r\n", "\n")
  function UnixLines(s: string): string {
    if |s| >= 2 && s[0] == '\r' && s[1] == '\n' then "\n" + UnixLines(s[2..])
    else if s == "" then "" else [s[0]] + UnixLines(s[1..])
  }

  function SplitLines(data: string): seq<string> { SplitOn(UnixLines(data), '\n') }

  predicate HasCRLF(s: string) {
    exists i :: 0 <= i < |s| - 1 && s[i] == '\r' && s[i + 1] == '\n'
  }

  lemma {:induction false} JoinSplit(s: string, sep: char)
    ensures JoinOn(SplitOn(s, sep), sep) == s
  {
    if s != "" {
      JoinSplit(s[1..], sep);
      var rest := SplitOn(s[1..], sep);
      var parts := SplitOn(s, sep);
      if s[0] == sep {
        assert parts[1..] == rest;
      } else {
        assert parts[0] == [s[0]] + rest[0] && parts[1..] == rest[1..];
      }
    }
  }

  lemma {:induction false} SplitJoin(lines: seq<string>, sep: char)
    requires lines != [] && forall i :: 0 <= i < |lines| ==> sep !in lines[i]
    ensures SplitOn(JoinOn(lines, sep), sep) == lines
    decreases |lines|, |lines[0]|
  {
    var s := JoinOn(lines, sep);
    if lines[0] != "" {
      var shorter := [lines[0][1..]] + lines[1..];
      assert lines[0][0] in lines[0];
      assert forall c :: c in lines[0][1..] ==> c in lines[0];
      SplitJoin(shorter, sep);
      assert shorter[1..] == lines[1..];
      assert s[1..] == JoinOn(shorter, sep) && s[0] == lines[0][0];
      assert [s[0]] + shorter[0] == lines[0];
      assert lines == [lines[0]] + lines[1..];
    } else if |lines| > 1 {
      SplitJoin(lines[1..], sep);
      assert s == [sep] + JoinOn(lines[1..], sep);
      assert s[1..] == JoinOn(lines[1..], sep);
      assert lines == [""] + lines[1..];
    }
  }

  lemma {:induction false} UnixLength(s: string)
    ensures |UnixLines(s)| <= |s|
    ensures HasCRLF(s) ==> |UnixLines(s)| < |s|
    ensures !HasCRLF(s) ==> UnixLines(s) == s
  {
    if |s| >= 2 && s[0] == '\r' && s[1] == '\n' {
      UnixLength(s[2..]);
    } else if s != "" {
      UnixLength(s[1..]);
      if HasCRLF(s) {
        var i :| 0 <= i < |s| - 1 && s[i] == '\r' && s[i + 1] == '\n';
        assert s[1..][i - 1] == '\r' && s[1..][i] == '\n';
      } else {
        forall i | 0 <= i < |s[1..]| - 1 && s[1..][i] == '\r' ensures s[1..][i + 1] != '\n' {
          assert s[i + 1] == '\r';
        }
        assert s == [s[0]] + s[1..];
      }
    }
  }

  /** A CRLF, wherever it stands, becomes a line feed; with UnixLength, which says
      that nothing else changes, that is all there is to it. */
  lemma {:induction false} LineEnds(a: string, b: string)
    ensures UnixLines(a + "\r\n" + b) == UnixLines(a) + "\n" + UnixLines(b)
    decreases |a|
  {
    var rest := "\r\n" + b;
    hide UnixLines;
    UnixPair(b);
    if a == "" {
      UnixNone();
      assert a + "\r\n" + b == rest;
    } else if |a| >= 2 && a[0] == '\r' && a[1] == '\n' {
      UnixPair(a[2..] + rest);
      UnixPair(a[2..]);
      LineEnds(a[2..], b);
      assert a + rest == "\r\n" + (a[2..] + rest) && a == "\r\n" + a[2..];
      Grouped(a[2..], b);
      Grouped(a, b);
    } else {
      UnixOne(a[0], a[1..] + rest);
      UnixOne(a[0], a[1..]);
      LineEnds(a[1..], b);
      assert a + rest == [a[0]] + (a[1..] + rest) && a == [a[0]] + a[1..];
      Grouped(a[1..], b);
      Grouped(a, b);
    }
  }

  lemma Grouped(a: string, b: string)
    ensures a + "\r\n" + b == a + ("\r\n" + b)
  {
  }

  lemma UnixNone()
    ensures UnixLines("") == ""
  {
  }

  lemma UnixPair(s: string)
    ensures UnixLines("\r\n" + s) == "\n" + UnixLines(s)
  {
    assert ("\r\n" + s)[2..] == s;
  }

  lemma UnixOne(c: char, s: string)
    requires c == '\r' && s != "" ==> s[0] != '\n'
    ensures UnixLines([c] + s) == [c] + UnixLines(s)
  {
    assert ([c] + s)[1..] == s;
  }

  /** Lines not edited come out byte for byte as they went in, exactly when
      the file has no CRLF line ends: those are rewritten. */
  lemma UntouchedBytes(data: string)
    ensures JoinOn(SplitLines(data), '\n') == data <==> !HasCRLF(data)
  {
    JoinSplit(UnixLines(data), '\n');
    UnixLength(data);
  }

  function Texts(b: seq<Row>): seq<string> {
    seq(|b|, i requires 0 <= i < |b| => b[i].text)
  }

  lemma RowsAreRead(lines: seq<string>)
    ensures All(Rows(lines), AsRead)
  {
    forall i | 0 <= i < |lines| ensures AsRead(Rows(lines)[i]) { assert Rows(lines)[i] == Read(lines[i]); }
  }

  // --- the other lines ---

  /** Some lines in the place of others. */
  function Splice(lines: seq<string>, at: nat, gone: nat, instead: seq<string>): seq<string>
    requires at + gone <= |lines|
  {
    lines[..at] + instead + lines[at + gone..]
  }

  /** An edit of a path: its own line is replaced by the edited one, or, when it is
      not there, the lines of its missing keys are put in after a line that is
      not blank, at the end of their section. */
  predicate EditOf(lines: seq<string>, parts: seq<string>, text: string, at: nat, gone: nat, put: seq<string>)
    requires parts != []
  {
    && at + gone <= |lines|
    && match Lookup(Rows(lines), parts, 0)
       case Some(row) =>
         gone == 1 && lines[at] == row.text && Parse(row.text).Some? && put == [SetLine(row.text, text)]
       case None =>
         && gone == 0 && 0 < |put| <= |parts| && (at > 0 ==> Trim(lines[at - 1]) != "")
         && var k := |parts| - |put|;
            Missing(Rows(lines), parts, 0, k) && SectionEnds(Rows(lines)[at..], k * INDENT_STEP)
            && put == Texts(Branch(parts[k..], text, k * INDENT_STEP))
  }

  lemma TextsOf(lines: seq<string>)
    ensures Texts(Rows(lines)) == lines
  {
  }

  lemma TextsSplice(b: seq<Row>, at: nat, gone: nat, put: seq<Row>)
    requires at + gone <= |b|
    ensures Texts(b[..at] + put + b[at + gone..]) == Splice(Texts(b), at, gone, Texts(put))
  {
  }

  lemma LineReplaced(lines: seq<string>, at: nat, row: Row)
    requires at < |lines|
    ensures Texts(Rows(lines)[at := row]) == Splice(lines, at, 1, [row.text])
  {
    var b := Rows(lines);
    TextsOf(lines);
    assert b[at := row] == b[..at] + [row] + b[at + 1..];
    TextsSplice(b, at, 1, [row]);
    assert Texts([row]) == [row.text];
  }

  lemma LinesPut(lines: seq<string>, at: nat, branch: seq<Row>)
    requires at <= |lines|
    ensures Texts(Rows(lines)[..at] + branch + Rows(lines)[at..]) == Splice(lines, at, 0, Texts(branch))
  {
    TextsOf(lines);
    TextsSplice(Rows(lines), at, 0, branch);
  }

  /** Setting a value leaves every line but its own as it is, in its order:
      blank lines, comments, list items and other settings. */
  lemma OtherLinesStay(lines: seq<string>, parts: seq<string>, value: string) returns (at: nat, gone: nat, put: seq<string>)
    requires parts != [] && Set(Rows(lines), parts, value).Ok?
    ensures EditOf(lines, parts, Render(value), at, gone, put)
    ensures Texts(Set(Rows(lines), parts, value).value) == Splice(lines, at, gone, put)
  {
    var b, w, k := Rows(lines), WriterOf(Render(value)), 0;
    at, k := SetKept(b, parts, 0, w);
    match Lookup(b, parts, 0)
    case Some(row) =>
      RowsAreRead(lines);
      FoundPathsAreValid(b, parts);
      hide Splice, Texts, SetIn;
      LineReplaced(lines, at, w.edit(row));
      gone, put := 1, [SetLine(row.text, Render(value))];
    case None =>
      var branch := Branch(parts[k..], Render(value), k * INDENT_STEP);
      gone, put := 0, Texts(branch);
      assert |put| == |parts| - k;
      if at > 0 { assert b[at - 1] == Read(lines[at - 1]); }
      hide Splice, Texts, SetIn, Branch, Missing, SectionEnds, Lookup;
      LinesPut(lines, at, branch);
  }

  /** Deleting takes one line away, or none. */
  lemma OtherLinesKept(lines: seq<string>, parts: seq<string>) returns (at: nat)
    requires parts != [] && Lookup(Rows(lines), parts, 0).Some?
    ensures at < |lines| && lines[at] == Lookup(Rows(lines), parts, 0).value.text
    ensures Texts(DeleteIn(Rows(lines), parts, 0)) == Splice(lines, at, 1, [])
  {
    at := DeleteKept(Rows(lines), parts, 0);
    hide Splice, Texts, DeleteIn, Lookup;
    LineTaken(lines, at);
  }

  lemma LineTaken(lines: seq<string>, at: nat)
    requires at < |lines|
    ensures Texts(Rows(lines)[..at] + Rows(lines)[at + 1..]) == Splice(lines, at, 1, [])
  {
    var b := Rows(lines);
    TextsOf(lines);
    TextsSplice(b, at, 1, []);
    assert b[..at] + [] + b[at + 1..] == b[..at] + b[at + 1..];
    assert Texts([]) == [];
  }

  /** The lines of the file after an edit are those, whatever the file holds,
      as long as the path and the value hold no line break. */
  lemma FileKeepsLines(lines: seq<string>, parts: seq<string>, value: string) returns (at: nat, gone: nat, put: seq<string>)
    requires lines != [] && (forall i :: 0 <= i < |lines| ==> '\n' !in lines[i])
    requires parts != [] && (forall i :: 0 <= i < |parts| ==> '\n' !in parts[i]) && '\n' !in value
    requires Set(Rows(lines), parts, value).Ok?
    ensures EditOf(lines, parts, Render(value), at, gone, put)
    ensures SplitOn(JoinOn(Texts(Set(Rows(lines), parts, value).value), '\n'), '\n') == Splice(lines, at, gone, put)
  {
    at, gone, put := OtherLinesStay(lines, parts, value);
    RenderNewline(value);
    PutChars(lines, parts, Render(value), at, gone, put);
    SpliceChars(lines, at, gone, put);
    hide *;
    SplitJoin(Splice(lines, at, gone, put), '\n');
  }

  lemma SpliceChars(lines: seq<string>, at: nat, gone: nat, put: seq<string>)
    requires at + gone <= |lines| && gone <= |put| && lines != []
    requires (forall i :: 0 <= i < |lines| ==> '\n' !in lines[i]) && forall i :: 0 <= i < |put| ==> '\n' !in put[i]
    ensures var now := Splice(lines, at, gone, put); now != [] && forall i :: 0 <= i < |now| ==> '\n' !in now[i]
  {
  }

  lemma PutChars(lines: seq<string>, parts: seq<string>, text: string, at: nat, gone: nat, put: seq<string>)
    requires forall i :: 0 <= i < |lines| ==> '\n' !in lines[i]
    requires parts != [] && (forall i :: 0 <= i < |parts| ==> '\n' !in parts[i]) && '\n' !in text
    requires EditOf(lines, parts, text, at, gone, put)
    ensures forall i :: 0 <= i < |put| ==> '\n' !in put[i]
  {
    forall i | 0 <= i < |put| ensures '\n' !in put[i] {
      hide Branch, SetLine, Missing, SectionEnds, Rows;
      match Lookup(Rows(lines), parts, 0)
      case Some(row) => EditChars(row.text, text, '\n');
      case None => BranchChars(parts[|parts| - |put|..], text, (|parts| - |put|) * INDENT_STEP, i);
    }
  }

  lemma {:induction false} BranchChars(parts: seq<string>, text: string, indent: nat, i: nat)
    requires i < |parts| && (forall j :: 0 <= j < |parts| ==> '\n' !in parts[j]) && '\n' !in text
    ensures '\n' !in Branch(parts, text, indent)[i].text
    decreases |parts|
  {
    if i > 0 {
      assert forall j :: 0 <= j < |parts| - 1 ==> parts[1..][j] == parts[j + 1];
      BranchChars(parts[1..], text, indent + INDENT_STEP, i - 1);
    }
  }

  // --- what a second reading of the file sees ---

  predicate CleanText(s: string) { '\n' !in s && '\r' !in s }

  const AsClean: Row -> bool := (row: Row) => CleanText(row.text)

  lemma CleanEdit(row: Row, text: string)
    requires CleanText(row.text) && CleanText(text)
    ensures CleanText(EditRow(row, text).text)
  {
    if Parse(row.text).Some? {
      EditChars(row.text, text, '\n');
      EditChars(row.text, text, '\r');
    }
  }

  lemma EditChars(line: string, text: string, c: char)
    requires Parse(line).Some? && c != ' ' && c != ':' && c !in line && c !in text
    ensures c !in SetLine(line, text)
  {
    var m := Parse(line).value;
    ParseShape(line);
    assert c !in line[..|m.ws|] && c !in line[|m.ws|..|m.ws| + |m.key|];
    NewRestChars(line, text, c);
    NotIn(m.ws, m.key, NewRest(line, text), c);
  }

  lemma NotIn(ws: string, key: string, rest: string, c: char)
    requires c !in ws && c !in key && c !in rest && c != ':'
    ensures c !in ws + key + ":" + rest
  {
  }

  lemma {:induction false} CleanBranch(parts: seq<string>, text: string, indent: nat)
    requires (forall i :: 0 <= i < |parts| ==> CleanText(parts[i])) && CleanText(text)
    ensures BranchesGood(WriterOf(text), parts, indent, AsClean)
    ensures All(Branch(parts, text, indent), AsClean)
    decreases |parts|
  {
    if parts != [] {
      CleanBranch(parts[1..], text, indent + INDENT_STEP);
      var b := Branch(parts, text, indent);
      assert CleanText(Spaces(indent) + parts[0] + ":") && CleanText(Leaf(parts[0], text, indent));
      AllOne(b[0], AsClean);
      if |parts| > 1 {
        AllParts([b[0]], Branch(parts[1..], text, indent + INDENT_STEP), AsClean);
      } else {
        assert b == [b[0]];
      }
    }
  }

  lemma SplitClean(s: string, sep: char)
    ensures forall i :: 0 <= i < |SplitOn(s, sep)| ==> sep !in SplitOn(s, sep)[i]
    ensures forall i, c :: 0 <= i < |SplitOn(s, sep)| && c in SplitOn(s, sep)[i] ==> c in s
  {
    forall i, c | 0 <= i < |SplitOn(s, sep)| && c in SplitOn(s, sep)[i] ensures c in s && c != sep {
      PartFrom(s, sep, i, c);
    }
  }

  lemma {:induction false} PartFrom(s: string, sep: char, i: nat, c: char)
    requires i < |SplitOn(s, sep)| && c in SplitOn(s, sep)[i]
    ensures c in s && c != sep
  {
    if s != "" {
      assert s == [s[0]] + s[1..];
      var rest := SplitOn(s[1..], sep);
      if s[0] == sep {
        PartFrom(s[1..], sep, i - 1, c);
      } else if c != s[0] || i > 0 {
        PartFrom(s[1..], sep, i, c);
      }
    }
  }

  /** The lines an edit produces are the lines a reader of the file finds,
      whichever line ends the file had; a carriage return is part of one. */
  lemma {:induction false} Reparse(data: string, parts: seq<string>, value: string)
    requires '\r' !in UnixLines(data) && CleanText(value) && ValidPath(parts)
    requires Set(Rows(SplitLines(data)), parts, value).Ok?
    ensures var b := Set(Rows(SplitLines(data)), parts, value).value;
            Rows(SplitLines(JoinOn(Texts(b), '\n'))) == b
  {
    var lines := SplitLines(data);
    var b := Set(Rows(lines), parts, value).value;
    SplitClean(UnixLines(data), '\n');
    RowsAreRead(lines);
    SetStaysRead(Rows(lines), parts, value);
    RenderOthers(value, '\n');
    RenderOthers(value, '\r');
    SetStaysClean(Rows(lines), parts, Render(value));
    CleanJoin(b);
  }

  lemma {:induction false} SetStaysClean(b: seq<Row>, parts: seq<string>, text: string)
    requires (forall i :: 0 <= i < |b| ==> CleanText(b[i].text)) && CleanText(text) && ValidPath(parts)
    requires SetIn(b, parts, 0, WriterOf(text)).Ok?
    ensures All(SetIn(b, parts, 0, WriterOf(text)).value, AsClean)
  {
    forall i | 0 <= i < |parts| ensures CleanText(parts[i]) { assert ValidKey(parts[i]); }
    CleanBranch(parts, text, 0);
    forall row | AsClean(row) ensures AsClean(WriterOf(text).edit(row)) { CleanEdit(row, text); }
    SetStaysGood(b, parts, 0, WriterOf(text), AsClean);
  }

  lemma CleanJoin(b: seq<Row>)
    requires b != [] && All(b, AsClean) && All(b, AsRead)
    ensures Rows(SplitLines(JoinOn(Texts(b), '\n'))) == b
  {
    var texts := Texts(b);
    forall i | 0 <= i < |b| ensures CleanText(texts[i]) && b[i] == Read(texts[i]) {
      assert AsClean(b[i]) && AsRead(b[i]);
    }
    SplitJoin(texts, '\n');
    JoinChars(texts);
    assert !HasCRLF(JoinOn(texts, '\n'));
    UnixLength(JoinOn(texts, '\n'));
  }

  lemma {:induction false} JoinChars(texts: seq<string>)
    requires forall i :: 0 <= i < |texts| ==> '\r' !in texts[i]
    ensures '\r' !in JoinOn(texts, '\n')
  {
    if |texts| > 1 { JoinChars(texts[1..]); }
  }

  /** The law of a setting, on the bytes of the file: reading the path back
      gives the rendered value exactly when it is faithful. */
  lemma {:induction false} FileGetAfterSet(data: string, parts: seq<string>, value: string)
    requires '\r' !in UnixLines(data) && CleanText(value) && ValidPath(parts)
    requires Set(Rows(SplitLines(data)), parts, value).Ok?
    ensures var lines := Rows(SplitLines(data));
            var out := JoinOn(Texts(Set(lines, parts, value).value), '\n');
            Get(Rows(SplitLines(out)), parts) == Some(Render(value)) <==> Faithful(value, Commented(lines, parts))
  {
    Reparse(data, parts, value);
    RowsAreRead(SplitLines(data));
    GetAfterSet(Rows(SplitLines(data)), parts, value);
  }

  // --- the loops ---

  method BuildBranch(parts: seq<string>, value: string, indent: nat) returns (out: seq<Row>)
    ensures out == Branch(parts, value, indent)
  {
    out := [];
    var i := 0;
    ghost var rest := Branch(parts, value, indent);
    assert parts[0..] == parts && Branch([], value, indent + |parts| * INDENT_STEP) == [];
    hide Branch, Leaf, Read;
    while i < |parts|
      invariant 0 <= i <= |parts|
      invariant rest == Branch(parts[i..], value, indent + i * INDENT_STEP)
      invariant out + rest == Branch(parts, value, indent)
    {
      var line := BranchLine(parts, i, value, indent + i * INDENT_STEP);
      rest := Branch(parts[i + 1..], value, indent + i * INDENT_STEP + INDENT_STEP);
      OneMore(out, Read(line), rest);
      out := out + [Read(line)];
      i := i + 1;
    }
    assert parts[i..] == [];
  }

  lemma OneMore(x: seq<Row>, row: Row, y: seq<Row>)
    ensures x + ([row] + y) == (x + [row]) + y
  {
  }

  method BranchLine(parts: seq<string>, i: nat, value: string, indent: nat) returns (line: string)
    requires i < |parts|
    ensures Branch(parts[i..], value, indent) == [Read(line)] + Branch(parts[i + 1..], value, indent + INDENT_STEP)
  {
    var pad := Spaces(indent);
    assert parts[i..][0] == parts[i] && parts[i..][1..] == parts[i + 1..];
    if i == |parts| - 1 {
      line := pad + parts[i] + ": " + value;
    } else {
      line := pad + parts[i] + ":";
    }
  }

  // setLineValue; its refusal of lists is never reached on a key's line.
  method SetLineValue(line: string, value: string) returns (r: Result<string>)
    ensures r.Ok? <==> Parse(line).Some?
    ensures r.Ok? ==> r.value == SetLine(line, value)
  {
    var parsed := Parse(line);
    if parsed == None { return Err("cannot edit the line"); }
    var m := parsed.value;
    var was, comment := SplitComment(m.rest);
    var list := StartsWith(Trim(m.rest), '-');
    assert comment == "" ==> was == m.rest;
    if Trim(was) == "" && comment == "" && list { assert false; }
    var head := m.ws + m.key + ": " + value;
    if comment == "" {
      Colon(m.ws, m.key, value, "");
      return Ok(head);
    }
    var column := |m.ws| + |m.key| + 1 + |was|;
    var pad := column - |head|;
    if pad < 1 { pad := 1; }
    Colon(m.ws, m.key, value, Spaces(pad) + Trim(comment));
    return Ok(head + Spaces(pad) + Trim(comment));
  }

  lemma Colon(ws: string, key: string, value: string, tail: string)
    ensures (ws + key + ": " + value) + tail == ws + key + ":" + (" " + value + tail)
  {
  }

  predicate StartsWith(s: string, c: char) { s != "" && s[0] == c }

  /** SetValue on the bytes of a file. */
  method SetValue(data: string, path: string, value: string) returns (r: Result<string>)
    ensures path == "" ==> r.Err?
    ensures path != "" ==>
              r == match Set(Rows(SplitLines(data)), SplitOn(path, '.'), value)
                   case Err(e) => Err(e)
                   case Ok(b) => Ok(JoinOn(Texts(b), '\n'))
    ensures r.Ok? ==> exists at, gone, put :: EditOf(SplitLines(data), SplitOn(path, '.'), Render(value), at, gone, put)
                                              && r.value == JoinOn(Splice(SplitLines(data), at, gone, put), '\n')
  {
    var parts := SplitOn(path, '.');
    if path == "" { return Err("no setting named"); }
    var edited := SetLoop(Rows(SplitLines(data)), parts, WriterOf(Render(value)));
    if edited.Err? { return Err(edited.error); }
    ghost var at, gone, put := OtherLinesStay(SplitLines(data), parts, value);
    return Ok(JoinOn(Texts(edited.value), '\n'));
  }

  /** DeleteValue on the bytes of a file. */
  method DeleteValue(data: string, path: string) returns (r: string)
    ensures var lines := Rows(SplitLines(data));
            r == if Lookup(lines, SplitOn(path, '.'), 0) == None then data
                 else JoinOn(Texts(DeleteIn(lines, SplitOn(path, '.'), 0)), '\n')
    ensures var lines := SplitLines(data);
            match Lookup(Rows(lines), SplitOn(path, '.'), 0)
            case None => r == data
            case Some(row) => exists at: nat :: at < |lines| && lines[at] == row.text && r == JoinOn(Splice(lines, at, 1, []), '\n')
  {
    var kept := DeleteLoop(Rows(SplitLines(data)), SplitOn(path, '.'));
    if kept == None { return data; }
    ghost var at := OtherLinesKept(SplitLines(data), SplitOn(path, '.'));
    return JoinOn(Texts(kept.value), '\n');
  }
}
