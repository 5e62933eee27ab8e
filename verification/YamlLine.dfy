/** One line of a configuration file: the key it defines, its indentation, its
    value and the comment after it, as internal/config/edit.go reads them. */
module YamlLine {
  import opened Common
  import opened YamlWalk

  // The class \s of RE2.
  predicate IsSpace(c: char) {
    c == ' ' || c == '\t' || c == '\n' || c == '\r' || c == '\U{0C}'
  }

  // What strings.TrimSpace removes, within ASCII.
  predicate IsTrimmed(c: char) {
    IsSpace(c) || c == '\U{0B}'
  }

  predicate IsKeyChar(c: char) {
    ('A' <= c <= 'Z') || ('a' <= c <= 'z') || ('0' <= c <= '9') || c == '_' || c == '-'
  }

  predicate IsBareChar(c: char) {
    ('A' <= c <= 'Z') || ('a' <= c <= 'z') || ('0' <= c <= '9') || c in "_./+-"
  }

  function SpaceRun(s: string): (n: nat)
    ensures n <= |s|
  {
    if s == "" || !IsSpace(s[0]) then 0 else 1 + SpaceRun(s[1..])
  }

  function KeyRun(s: string): (n: nat)
    ensures n <= |s|
  {
    if s == "" || !IsKeyChar(s[0]) then 0 else 1 + KeyRun(s[1..])
  }

  function TrimLeft(s: string): string {
    if s == "" || !IsTrimmed(s[0]) then s else TrimLeft(s[1..])
  }

  function TrimRight(s: string): string {
    if s == "" || !IsTrimmed(s[|s| - 1]) then s else TrimRight(s[..|s| - 1])
  }

  lemma {:induction false} RunFacts(s: string)
    ensures forall i :: 0 <= i < SpaceRun(s) ==> IsSpace(s[i])
    ensures forall i :: 0 <= i < KeyRun(s) ==> IsKeyChar(s[i])
  {
    if s != "" { RunFacts(s[1..]); }
  }

  lemma {:induction false} TrimLeftFacts(s: string)
    ensures var t := TrimLeft(s);
            && (t == "" || !IsTrimmed(t[0]))
            && |t| <= |s| && t == s[|s| - |t|..]
            && forall i :: 0 <= i < |s| - |t| ==> IsTrimmed(s[i])
  {
    if s != "" { TrimLeftFacts(s[1..]); }
  }

  lemma {:induction false} TrimRightFacts(s: string)
    ensures var t := TrimRight(s);
            && (t == "" || !IsTrimmed(t[|t| - 1]))
            && t <= s
            && forall i :: |t| <= i < |s| ==> IsTrimmed(s[i])
  {
    if s != "" { TrimRightFacts(s[..|s| - 1]); }
  }

  function Trim(s: string): string {
    TrimRight(TrimLeft(s))
  }

  predicate Padding(s: string) {
    forall i :: 0 <= i < |s| ==> IsTrimmed(s[i])
  }

  lemma {:induction false} TrimLeftIs(s: string, k: nat)
    requires k <= |s| && Padding(s[..k]) && (k < |s| ==> !IsTrimmed(s[k]))
    ensures TrimLeft(s) == s[k..]
  {
    if k > 0 {
      assert s[..k][0] == s[0];
      assert s[1..][..k - 1] == s[..k][1..];
      TrimLeftIs(s[1..], k - 1);
    }
  }

  lemma {:induction false} TrimRightIs(s: string, k: nat)
    requires k <= |s| && Padding(s[k..]) && (k > 0 ==> !IsTrimmed(s[k - 1]))
    ensures TrimRight(s) == s[..k]
  {
    if k < |s| {
      assert s[k..][|s| - k - 1] == s[|s| - 1];
      assert s[..|s| - 1][k..] == s[k..][..|s| - k - 1];
      TrimRightIs(s[..|s| - 1], k);
      assert s[..|s| - 1][..k] == s[..k];
    } else {
      assert s[..k] == s;
    }
  }

  // Trimming keeps exactly the part between the outermost other characters.
  lemma TrimCore(a: string, core: string, b: string)
    requires Padding(a) && Padding(b)
    requires core != "" && !IsTrimmed(core[0]) && !IsTrimmed(core[|core| - 1])
    ensures Trim(a + core + b) == core
  {
    var s := a + core + b;
    assert s[..|a|] == a && s[|a|] == core[0];
    TrimLeftIs(s, |a|);
    var t := s[|a|..];
    assert t == core + b && t[|core|..] == b && t[|core| - 1] == core[|core| - 1];
    TrimRightIs(t, |core|);
    assert t[..|core|] == core;
  }

  // A trimmed string keeps every untrimmed character, so it is at least as
  // long as the stretch between any two of them.
  lemma TrimKeeps(s: string, i: nat, j: nat)
    requires i <= j < |s| && !IsTrimmed(s[i]) && !IsTrimmed(s[j])
    ensures |Trim(s)| >= j - i + 1
  {
    var t := TrimLeft(s);
    var k := |s| - |t|;
    TrimLeftFacts(s);
    TrimRightFacts(t);
    assert k <= i;
    assert t[j - k] == s[j];
  }

  lemma TrimShortens(s: string)
    ensures |Trim(s)| <= |s|
    ensures s != "" && IsTrimmed(s[0]) ==> |Trim(s)| < |s|
    ensures forall c :: c in Trim(s) ==> c in s
    ensures Trim(s) != "" ==> !IsTrimmed(Trim(s)[|Trim(s)| - 1])
  {
    TrimLeftFacts(s);
    TrimRightFacts(TrimLeft(s));
  }

  /** What the key expression captures: indentation, key, rest of the line. */
  datatype Parsed = Parsed(ws: string, key: string, rest: string)

  function Parse(line: string): Option<Parsed> {
    var a := SpaceRun(line);
    var b := a + KeyRun(line[a..]);
    var c := b + SpaceRun(line[b..]);
    if a < b && c < |line| && line[c] == ':' && '\n' !in line[c + 1..]
    then Some(Parsed(line[..a], line[a..b], line[c + 1..]))
    else None
  }

  function KeyOf(line: string): Head {
    var trimmed := Trim(line);
    if trimmed == "" then Blank
    else if trimmed[0] == '#' || trimmed[0] == '-' then Other
    else match Parse(line)
      case None => Other
      case Some(m) => Key(|m.ws|, m.key)
  }

  predicate ValidKey(k: string) {
    k != "" && k[0] != '-' && forall i :: 0 <= i < |k| ==> IsKeyChar(k[i])
  }

  lemma {:induction false} SpaceRunIs(s: string, k: nat)
    requires k <= |s| && (forall i :: 0 <= i < k ==> IsSpace(s[i])) && (k < |s| ==> !IsSpace(s[k]))
    ensures SpaceRun(s) == k
  {
    if k > 0 { SpaceRunIs(s[1..], k - 1); }
  }

  lemma {:induction false} KeyRunIs(s: string, k: nat)
    requires k <= |s| && (forall i :: 0 <= i < k ==> IsKeyChar(s[i])) && (k < |s| ==> !IsKeyChar(s[k]))
    ensures KeyRun(s) == k
  {
    if k > 0 { KeyRunIs(s[1..], k - 1); }
  }

  // A trimmed line starts at its first other character.
  lemma TrimHead(line: string, k: nat)
    requires k < |line| && Padding(line[..k]) && !IsTrimmed(line[k])
    ensures Trim(line) != "" && Trim(line)[0] == line[k]
  {
    TrimLeftIs(line, k);
    var t := line[k..];
    assert t[0] == line[k];
    TrimKeeps(t, 0, 0);
    TrimLeftIs(t, 0);
    TrimRightFacts(t);
  }

  lemma ParseShape(line: string)
    requires Parse(line).Some?
    ensures var m := Parse(line).value;
            && |m.ws| + |m.key| + |m.rest| < |line| && m.key != ""
            && line[..|m.ws|] == m.ws && line[|m.ws|..|m.ws| + |m.key|] == m.key
            && (forall i :: 0 <= i < |m.ws| ==> IsSpace(m.ws[i]))
            && (forall i :: 0 <= i < |m.key| ==> IsKeyChar(m.key[i]))
            && '\n' !in m.rest
  {
    var a := SpaceRun(line);
    var tail := line[a..];
    var n := KeyRun(tail);
    RunFacts(line);
    RunFacts(tail);
    assert line[a..a + n] == tail[..n];
  }

  lemma KeysAreValid(line: string)
    requires KeyOf(line).Key?
    ensures ValidKey(KeyOf(line).name)
  {
    ParseShape(line);
    var m := Parse(line).value;
    assert line[|m.ws|..|m.ws| + |m.key|][0] == line[|m.ws|];
    TrimHead(line, |m.ws|);
  }

  lemma ParseOf(ws: string, key: string, rest: string)
    requires forall i :: 0 <= i < |ws| ==> IsSpace(ws[i])
    requires key != "" && forall i :: 0 <= i < |key| ==> IsKeyChar(key[i])
    ensures '\n' !in rest ==> Parse(ws + key + ":" + rest) == Some(Parsed(ws, key, rest))
    ensures '\n' in rest ==> Parse(ws + key + ":" + rest) == None
  {
    LineRuns(ws, key, "", rest);
    assert ws + key + "" == ws + key;
    hide SpaceRun, KeyRun;
  }

  // Blanks between the key and its colon do not matter.
  lemma LineParses(ws: string, key: string, gap: string, rest: string)
    requires Spacing(ws) && Spacing(gap) && key != "" && (forall i :: 0 <= i < |key| ==> IsKeyChar(key[i])) && '\n' !in rest
    ensures Parse(ws + key + gap + ":" + rest) == Some(Parsed(ws, key, rest))
  {
    LineRuns(ws, key, gap, rest);
    hide SpaceRun, KeyRun;
  }

  // The runs the key expression goes through.
  lemma LineRuns(ws: string, key: string, gap: string, rest: string)
    requires Spacing(ws) && Spacing(gap) && key != "" && (forall i :: 0 <= i < |key| ==> IsKeyChar(key[i]))
    ensures var line := ws + key + gap + ":" + rest; var b := |ws| + |key|; var c := b + |gap|;
            && SpaceRun(line) == |ws| && KeyRun(line[|ws|..]) == |key| && SpaceRun(line[b..]) == |gap|
            && line[..|ws|] == ws && line[|ws|..b] == key && line[c] == ':' && line[c + 1..] == rest
  {
    var line := ws + key + gap + ":" + rest;
    var b := |ws| + |key|;
    hide SpaceRun, KeyRun;
    GapPieces(ws, key, gap, rest);
    RunStarts(line, ws, key + (gap + ":" + rest));
    KeyStarts(line[|ws|..], key, gap + (":" + rest));
    RunStarts(line[b..], gap, ":" + rest);
  }

  lemma RunStarts(s: string, ws: string, rest: string)
    requires s == ws + rest && Spacing(ws) && (rest != "" ==> !IsSpace(rest[0]))
    ensures SpaceRun(s) == |ws|
  {
    SpaceRunIs(s, |ws|);
  }

  lemma KeyStarts(s: string, key: string, rest: string)
    requires s == key + rest && (forall i :: 0 <= i < |key| ==> IsKeyChar(key[i])) && (rest != "" ==> !IsKeyChar(rest[0]))
    ensures KeyRun(s) == |key|
  {
    KeyRunIs(s, |key|);
  }

  lemma GapPieces(ws: string, key: string, gap: string, rest: string)
    requires key != ""
    ensures var line := ws + key + gap + ":" + rest; var n := |ws| + |key|;
            && line[..|ws|] == ws && line[|ws|] == key[0]
            && line[|ws|..] == key + (gap + ":" + rest) && line[|ws|..n] == key
            && line[n..] == gap + (":" + rest) && line[n + |gap|] == ':' && line[n + |gap| + 1..] == rest
  {
  }

  // A line cut into what the key expression captures, and the blanks before the colon.
  predicate IsCut(line: string, m: Parsed, gap: string) {
    && line == m.ws + m.key + gap + ":" + m.rest && Spacing(m.ws) && Spacing(gap)
    && m.key != "" && (forall i :: 0 <= i < |m.key| ==> IsKeyChar(m.key[i])) && '\n' !in m.rest
  }

  lemma ParseCuts(line: string) returns (gap: string)
    requires Parse(line).Some?
    ensures IsCut(line, Parse(line).value, gap)
  {
    hide *;
    var a, b, c := ParsePieces(line);
    gap := line[b..c];
    assert line[0..] == line;
    RunAt(line, 0);
    KeyAt(line, a);
    RunAt(line, b);
    CutAt(line, a, b, c);
  }

  lemma ParsePieces(line: string) returns (a: nat, b: nat, c: nat)
    requires Parse(line).Some?
    ensures a < b <= c < |line| && line[c] == ':' && '\n' !in line[c + 1..]
    ensures a == SpaceRun(line) && b - a == KeyRun(line[a..]) && c - b == SpaceRun(line[b..])
    ensures Parse(line) == Some(Parsed(line[..a], line[a..b], line[c + 1..]))
  {
    a := SpaceRun(line);
    b := a + KeyRun(line[a..]);
    c := b + SpaceRun(line[b..]);
  }

  lemma CutAt(line: string, a: nat, b: nat, c: nat)
    requires a < b <= c < |line| && line[c] == ':' && '\n' !in line[c + 1..]
    requires Spacing(line[0..a]) && (forall i :: a <= i < b ==> IsKeyChar(line[i])) && Spacing(line[b..c])
    ensures IsCut(line, Parsed(line[..a], line[a..b], line[c + 1..]), line[b..c])
  {
    FiveParts(line, a, b, c);
    assert line[0..a] == line[..a];
    hide Spacing;
  }

  lemma RunAt(s: string, a: nat)
    requires a <= |s|
    ensures var n := SpaceRun(s[a..]); Spacing(s[a..a + n])
  {
    RunFacts(s[a..]);
    assert s[a..a + SpaceRun(s[a..])] == s[a..][..SpaceRun(s[a..])];
  }

  lemma KeyAt(s: string, a: nat)
    requires a <= |s|
    ensures var n := KeyRun(s[a..]); forall i :: a <= i < a + n ==> IsKeyChar(s[i])
  {
    RunFacts(s[a..]);
    assert forall i :: a <= i < a + KeyRun(s[a..]) ==> s[i] == s[a..][i - a];
  }

  lemma FiveParts(s: string, a: nat, b: nat, c: nat)
    requires a <= b <= c < |s|
    ensures s == s[..a] + s[a..b] + s[b..c] + [s[c]] + s[c + 1..]
  {
  }

  /** The key expression: a line has a key exactly when it is white space, key
      characters, white space, a colon, and no line break after it; and those
      are then its parts. */
  lemma ParseIs(line: string, m: Parsed)
    ensures Parse(line) == Some(m) <==> exists gap :: IsCut(line, m, gap)
  {
    if Parse(line) == Some(m) { var gap := ParseCuts(line); }
    if gap :| IsCut(line, m, gap) { LineParses(m.ws, m.key, gap, m.rest); }
  }

  predicate Spacing(s: string) { forall i :: 0 <= i < |s| ==> IsSpace(s[i]) }

  lemma HeadOf(line: string, c: char)
    requires Trim(line) != "" && Trim(line)[0] == c && c != '#' && c != '-'
    ensures KeyOf(line) == match Parse(line) case None => Other case Some(m) => Key(|m.ws|, m.key)
  {
  }

  // A line built as indentation, key, colon and rest is read back as such.
  lemma BuiltLine(ws: string, key: string, rest: string)
    requires forall i :: 0 <= i < |ws| ==> IsSpace(ws[i])
    requires ValidKey(key)
    ensures '\n' !in rest ==> KeyOf(ws + key + ":" + rest) == Key(|ws|, key)
    ensures '\n' in rest ==> KeyOf(ws + key + ":" + rest) == Other
  {
    BuiltHead(ws, key, rest);
    ParseOf(ws, key, rest);
    HeadOf(ws + key + ":" + rest, key[0]);
  }

  lemma BuiltHead(ws: string, key: string, rest: string)
    requires forall i :: 0 <= i < |ws| ==> IsSpace(ws[i])
    requires ValidKey(key)
    ensures Trim(ws + key + ":" + rest) != "" && Trim(ws + key + ":" + rest)[0] == key[0]
    ensures key[0] != '#'
  {
    var line := ws + key + ":" + rest;
    assert line[..|ws|] == ws && line[|ws|] == key[0];
    assert Padding(ws) && !IsTrimmed(key[0]);
    TrimHead(line, |ws|);
  }

  predicate IsBlank(c: char) { c == ' ' || c == '\t' }

  // The quotes splitComment is inside of after c ('\0' for none). A backslash
  // means nothing to it.
  function NextQuote(c: char, q: char): char {
    if q != '\0' then (if c == q then '\0' else q)
    else if c == '\'' || c == '"' then c
    else '\0'
  }

  // Where splitComment finds the comment in s, |s| when there is none, given
  // whether a blank (or nothing) comes before s and the quotes it is inside of.
  function CommentAt(s: string, blank: bool, q: char): (n: nat)
    ensures n <= |s|
    ensures n < |s| ==> s[n] == '#'
  {
    if s == "" then 0
    else if q == '\0' && s[0] == '#' && blank then 0
    else 1 + CommentAt(s[1..], IsBlank(s[0]), NextQuote(s[0], q))
  }

  function QuoteAfter(s: string, q: char): char {
    if s == "" then q else QuoteAfter(s[1..], NextQuote(s[0], q))
  }

  function BlankAfter(s: string, blank: bool): bool {
    if s == "" then blank else IsBlank(s[|s| - 1])
  }

  // Where a character first occurs, |s| when it does not.
  function Occurs(s: string, c: char): (n: nat)
    ensures n <= |s| && (n < |s| ==> s[n] == c) && c !in s[..n]
  {
    if s == "" || s[0] == c then 0 else 1 + Occurs(s[1..], c)
  }

  /** Every quote in a text is closed by the next of its kind. */
  predicate QuotesClosed(s: string)
    decreases |s|
  {
    if s == "" then true
    else if s[0] == '\'' || s[0] == '"' then
      var n := Occurs(s[1..], s[0]);
      n < |s| - 1 && QuotesClosed(s[n + 2..])
    else QuotesClosed(s[1..])
  }

  lemma {:induction false} InsideQuotes(s: string, q: char)
    requires q == '\'' || q == '"'
    ensures var n := Occurs(s, q); QuoteAfter(s, q) == if n == |s| then q else QuoteAfter(s[n + 1..], '\0')
  {
    if s != "" && s[0] != q { InsideQuotes(s[1..], q); }
  }

  lemma {:induction false} QuotesAre(s: string)
    ensures QuotesClosed(s) <==> QuoteAfter(s, '\0') == '\0'
    decreases |s|
  {
    if s != "" {
      if s[0] == '\'' || s[0] == '"' {
        InsideQuotes(s[1..], s[0]);
        var n := Occurs(s[1..], s[0]);
        if n < |s| - 1 {
          assert s[1..][n + 1..] == s[n + 2..];
          QuotesAre(s[n + 2..]);
        }
      } else {
        QuotesAre(s[1..]);
      }
    }
  }

  // A '#' at the start or after a blank, outside quotes.
  predicate StartsComment(s: string, i: nat)
    requires i < |s|
  {
    s[i] == '#' && (i == 0 || IsBlank(s[i - 1])) && QuotesClosed(s[..i])
  }

  lemma {:induction false} CommentFrom(s: string, k: nat)
    requires k <= |s|
    ensures var n := k + CommentAt(s[k..], k == 0 || IsBlank(s[k - 1]), QuoteAfter(s[..k], '\0'));
            (n < |s| ==> StartsComment(s, n)) && forall i: nat :: k <= i < n ==> !StartsComment(s, i)
    decreases |s| - k
  {
    hide QuotesClosed, QuoteAfter;
    if k < |s| {
      QuotesAre(s[..k]);
      assert s[k..][0] == s[k] && s[k..][1..] == s[k + 1..];
      QuoteOneMore(s[..k], s[k], '\0');
      assert s[..k + 1] == s[..k] + [s[k]];
      CommentFrom(s, k + 1);
    }
  }

  lemma {:induction false} QuoteOneMore(s: string, c: char, q: char)
    ensures QuoteAfter(s + [c], q) == NextQuote(c, QuoteAfter(s, q))
  {
    if s == "" {
      assert s + [c] == [c] && [c][1..] == "";
    } else {
      assert (s + [c])[1..] == s[1..] + [c];
      QuoteOneMore(s[1..], c, NextQuote(s[0], q));
    }
  }

  /** The comment of a value starts at the first '#' that is at the start or after
      a blank, with every quote before it closed. */
  lemma CommentIs(s: string)
    ensures var n := CommentAt(s, true, '\0');
            (n < |s| ==> StartsComment(s, n)) && forall i: nat :: i < n ==> !StartsComment(s, i)
  {
    assert s[0..] == s && s[..0] == "";
    CommentFrom(s, 0);
  }

  // The scan as the source runs it.
  method SplitComment(s: string) returns (value: string, comment: string)
    ensures value == ValuePart(s) && comment == CommentPart(s)
    ensures value + comment == s
  {
    var inQuote := '\0';
    var i := 0;
    while i < |s|
      invariant 0 <= i <= |s|
      invariant CommentAt(s, true, '\0') == i + CommentAt(s[i..], i == 0 || IsBlank(s[i - 1]), inQuote)
    {
      var c := s[i];
      assert s[i..][0] == c && s[i..][1..] == s[i + 1..];
      if inQuote != '\0' {
        if c == inQuote { inQuote := '\0'; }
      } else if c == '\'' || c == '"' {
        inQuote := c;
      } else if c == '#' && (i == 0 || s[i - 1] == ' ' || s[i - 1] == '\t') {
        return s[..i], s[i..];
      }
      i := i + 1;
    }
    return s, "";
  }

  function ValuePart(rest: string): string { rest[..CommentAt(rest, true, '\0')] }

  function CommentPart(rest: string): string { rest[CommentAt(rest, true, '\0')..] }

  // What follows the colon, without the comment.
  function ValueOf(line: string): string {
    match Parse(line)
    case None => ""
    case Some(m) => Trim(ValuePart(m.rest))
  }

  function CommentOf(line: string): string {
    match Parse(line)
    case None => ""
    case Some(m) => Trim(CommentPart(m.rest))
  }

  // Scanning a concatenation: through the first part, then the second.
  lemma {:induction false} ScanConcat(a: string, b: string, blank: bool, q: char)
    ensures QuoteAfter(a + b, q) == QuoteAfter(b, QuoteAfter(a, q))
    ensures CommentAt(a, blank, q) < |a| ==> CommentAt(a + b, blank, q) == CommentAt(a, blank, q)
    ensures CommentAt(a, blank, q) == |a| ==>
              CommentAt(a + b, blank, q) == |a| + CommentAt(b, BlankAfter(a, blank), QuoteAfter(a, q))
  {
    if a == "" {
      assert a + b == b;
    } else {
      assert (a + b)[1..] == a[1..] + b;
      ScanConcat(a[1..], b, IsBlank(a[0]), NextQuote(a[0], q));
    }
  }

  predicate IsPlain(s: string) {
    forall c :: c in s ==> c != '\'' && c != '"' && c != '#'
  }

  lemma {:induction false} PlainScan(s: string, blank: bool, q: char)
    requires IsPlain(s) && (q == '\0' || q == '\'' || q == '"')
    ensures CommentAt(s, blank, q) == |s| && QuoteAfter(s, q) == q
  {
    if s != "" {
      assert s[0] in s && forall c :: c in s[1..] ==> c in s;
      PlainScan(s[1..], IsBlank(s[0]), q);
    }
  }

  function Spaces(n: nat): (s: string)
    ensures |s| == n && forall i :: 0 <= i < n ==> s[i] == ' '
  {
    seq(n, i => ' ')
  }

  // strings.ReplaceAll(value, c, by) for a single character.
  function ReplaceChar(s: string, c: char, sub: string): string {
    if s == "" then "" else (if s[0] == c then sub else [s[0]]) + ReplaceChar(s[1..], c, sub)
  }

  function Render(value: string): string {
    if value == "" then "\"\""
    else if value == "[]" || value == "{}" then value
    else if forall i :: 0 <= i < |value| ==> IsBareChar(value[i]) then value
    else "\"" + Escape(value) + "\""
  }

  // --- rendering a value and reading it back ---

  function Escape(value: string): string {
    ReplaceChar(ReplaceChar(value, '\\', "\\\\"), '"', "\\\"")
  }

  function EscapeChar(c: char): string {
    if c == '\\' then "\\\\" else if c == '"' then "\\\"" else [c]
  }

  lemma {:induction false} ReplaceConcat(a: string, b: string, c: char, sub: string)
    ensures ReplaceChar(a + b, c, sub) == ReplaceChar(a, c, sub) + ReplaceChar(b, c, sub)
  {
    if a == "" {
      assert a + b == b;
    } else {
      assert (a + b)[1..] == a[1..] + b;
      ReplaceConcat(a[1..], b, c, sub);
    }
  }

  lemma EscapeStep(value: string)
    requires value != ""
    ensures Escape(value) == EscapeChar(value[0]) + Escape(value[1..])
  {
    var slash, sub := '\\', "\\\\";
    var head := if value[0] == slash then sub else [value[0]];
    ReplaceConcat(head, ReplaceChar(value[1..], slash, sub), '"', "\\\"");
    assert ReplaceChar(head, '"', "\\\"") == EscapeChar(value[0]) by {
      if value[0] == slash {
        assert head[1..] == "\\";
        assert head[1..][1..] == "";
      } else {
        assert head[1..] == "";
      }
    }
  }

  // What a YAML reader makes of the inside of a double-quoted scalar that
  // uses only the two escapes Render writes; None for any other escape.
  function Unescape(s: string): Option<string> {
    if s == "" then Some("")
    else if s[0] == '"' then None
    else if s[0] != '\\' then
      (match Unescape(s[1..]) case None => None case Some(t) => Some([s[0]] + t))
    else if |s| >= 2 && (s[1] == '\\' || s[1] == '"') then
      (match Unescape(s[2..]) case None => None case Some(t) => Some([s[1]] + t))
    else None
  }

  // The scalar a YAML reader decodes from a rendered value.
  function Decode(s: string): Option<string> {
    if |s| >= 2 && s[0] == '"' && s[|s| - 1] == '"' then Unescape(s[1..|s| - 1]) else Some(s)
  }

  lemma {:induction false} UnescapeEscape(value: string)
    ensures Unescape(Escape(value)) == Some(value)
  {
    if value != "" {
      EscapeStep(value);
      UnescapeEscape(value[1..]);
      var e, rest := EscapeChar(value[0]), Escape(value[1..]);
      assert Escape(value)[|e|..] == rest;
      assert value == [value[0]] + value[1..];
    }
  }

  // Rendering loses nothing: a YAML reader gets the value back.
  lemma DecodeRender(value: string)
    ensures Decode(Render(value)) == Some(value)
  {
    if value == "" {
      assert Render(value)[1..1] == "";
    } else if value != "[]" && value != "{}" && exists i :: 0 <= i < |value| && !IsBareChar(value[i]) {
      UnescapeEscape(value);
      var r := Render(value);
      assert r[1..|r| - 1] == Escape(value);
    }
  }

  // Escaping changes neither what splitComment would cut nor the quotes it
  // ends in: the escapes it writes are invisible to that scan.
  lemma {:induction false} EscapeScan(value: string, blank: bool, q: char)
    requires q == '\0' || q == '\'' || q == '"'
    ensures CommentAt(Escape(value), blank, q) == |Escape(value)| <==> CommentAt(value, blank, q) == |value|
    ensures QuoteAfter(Escape(value), q) == QuoteAfter(value, q)
  {
    if value != "" {
      EscapeStep(value);
      var c, e, rest := value[0], EscapeChar(value[0]), Escape(value[1..]);
      if q == '\0' && c == '#' && blank {
        assert Escape(value)[0] == '#';
        assert QuoteAfter(Escape(value), q) == QuoteAfter(rest, q) by { assert Escape(value)[1..] == rest; }
        EscapeScan(value[1..], IsBlank(c), NextQuote(c, q));
      } else {
        ScanConcat(e, rest, blank, q);
        assert CommentAt(e, blank, q) == |e| && QuoteAfter(e, q) == NextQuote(c, q) by {
          if |e| == 2 { assert e[1..][1..] == "" && e[1..][0] == e[1]; } else { assert e[1..] == ""; }
        }
        EscapeScan(value[1..], IsBlank(c), NextQuote(c, q));
      }
    }
  }

  lemma QuotedScan(e: string)
    requires CommentAt(e, false, '"') <= |e|
    ensures var r := "\"" + e + "\"";
            && (CommentAt(r, true, '\0') == |r| <==> CommentAt(e, false, '"') == |e|)
            && (CommentAt(e, false, '"') == |e| ==>
                  (QuoteAfter(r, '\0') == '\0' <==> QuoteAfter(e, '"') == '"'))
  {
    var r := "\"" + e + "\"";
    assert r[1..] == e + "\"";
    ScanConcat(e, "\"", false, '"');
    QuoteKinds(e, '"');
    assert "\""[1..] == "";
  }

  predicate WrittenBare(value: string) {
    value == "[]" || value == "{}" || (value != "" && forall i :: 0 <= i < |value| ==> IsBareChar(value[i]))
  }

  lemma BareIsPlain(value: string)
    requires WrittenBare(value)
    ensures Render(value) == value && IsPlain(value)
  {
  }

  // The scan of a rendered value, in terms of the value itself. The scan of
  // the value starts inside the double quotes Render puts around it.
  lemma RenderScan(value: string)
    ensures var r := Render(value);
            && (CommentAt(r, true, '\0') == |r| <==> CommentAt(value, false, '"') == |value|)
            && (CommentAt(r, true, '\0') == |r| ==>
                  (QuoteAfter(r, '\0') == '\0' <==> QuoteAfter(value, '"') == '"'))
  {
    if WrittenBare(value) {
      BareIsPlain(value);
      PlainScan(value, true, '\0');
      PlainScan(value, false, '"');
    } else if value == "" {
      QuotedScan("");
    } else {
      EscapeScan(value, false, '"');
      QuotedScan(Escape(value));
    }
  }

  lemma BlankFirst(r: string)
    ensures CommentAt(" " + r, true, '\0') == 1 + CommentAt(r, true, '\0')
    ensures QuoteAfter(" " + r, '\0') == QuoteAfter(r, '\0')
  {
    assert (" " + r)[1..] == r;
  }

  lemma RenderEnds(value: string)
    ensures var r := Render(value); r != "" && !IsTrimmed(r[0]) && !IsTrimmed(r[|r| - 1])
  {
  }

  lemma {:induction false} ReplaceOthers(s: string, c: char, sub: string, d: char)
    requires c != d && d !in sub
    ensures d in ReplaceChar(s, c, sub) <==> d in s
  {
    if s != "" {
      ReplaceOthers(s[1..], c, sub, d);
      assert s == [s[0]] + s[1..];
    }
  }

  lemma RenderOthers(value: string, d: char)
    requires d != '\\' && d != '"'
    ensures d in Render(value) <==> d in value
  {
    ReplaceOthers(value, '\\', "\\\\", d);
    ReplaceOthers(ReplaceChar(value, '\\', "\\\\"), '"', "\\\"", d);
  }

  lemma RenderNewline(value: string)
    ensures '\n' in Render(value) <==> '\n' in value
  {
    RenderOthers(value, '\n');
  }

  function MaxPad(column: int, head: nat): nat {
    if column - head < 1 then 1 else column - head
  }

  // Whether a value set on a line is the value that line then reads back,
  // as far as splitComment is concerned: no '#' after a blank may fall
  // outside the quotes it sees, and a comment may only follow closed quotes.
  predicate Faithful(value: string, commented: bool) {
    && '\n' !in value
    && CommentAt(value, false, '"') == |value|
    && (commented ==> QuoteAfter(value, '"') == '"')
  }

  lemma PlainValuesAreFaithful(value: string, commented: bool)
    requires forall c :: c in value ==> c != '"' && c != '\n'
    ensures Faithful(value, commented)
  {
    NoDoubleQuote(value, false);
  }

  lemma {:induction false} NoDoubleQuote(s: string, blank: bool)
    requires '"' !in s
    ensures CommentAt(s, blank, '"') == |s| && QuoteAfter(s, '"') == '"'
  {
    if s != "" {
      assert s[0] in s;
      NoDoubleQuote(s[1..], IsBlank(s[0]));
    }
  }

  predicate HasComment(line: string) {
    Parse(line).Some? && CommentPart(Parse(line).value.rest) != ""
  }

  // What SetLine writes after the colon.
  function NewRest(line: string, value: string): string
    requires Parse(line).Some?
  {
    var m := Parse(line).value;
    var was, comment := ValuePart(m.rest), CommentPart(m.rest);
    var column := |m.ws| + |m.key| + 1 + |was|;
    " " + value + (if comment == "" then "" else Spaces(MaxPad(column, |m.ws| + |m.key| + 2 + |value|)) + Trim(comment))
  }

  function SetLine(line: string, value: string): string
    requires Parse(line).Some?
  {
    var m := Parse(line).value;
    m.ws + m.key + ":" + NewRest(line, value)
  }

  lemma SetLineParses(line: string, value: string)
    requires KeyOf(line).Key? && '\n' !in NewRest(line, value)
    ensures KeyOf(SetLine(line, value)) == KeyOf(line)
    ensures Parse(SetLine(line, value)) == Some(Parse(line).value.(rest := NewRest(line, value)))
  {
    var m := Parse(line).value;
    ParseShape(line);
    KeysAreValid(line);
    BuiltLine(m.ws, m.key, NewRest(line, value));
    ParseOf(m.ws, m.key, NewRest(line, value));
  }

  lemma SetLineBreaks(line: string, value: string)
    requires KeyOf(line).Key? && '\n' in NewRest(line, value)
    ensures KeyOf(SetLine(line, value)) == Other && Parse(SetLine(line, value)) == None
  {
    var m := Parse(line).value;
    ParseShape(line);
    KeysAreValid(line);
    BuiltLine(m.ws, m.key, NewRest(line, value));
    ParseOf(m.ws, m.key, NewRest(line, value));
  }

  // A character that is in neither the line nor the value is not in the result.
  lemma NewRestChars(line: string, value: string, c: char)
    requires Parse(line).Some? && c != ' ' && c !in Parse(line).value.rest
    ensures c in NewRest(line, value) <==> c in value
  {
    var rest := Parse(line).value.rest;
    var comment := CommentPart(rest);
    TrimShortens(comment);
    assert forall d :: d in comment ==> d in rest;
    var pad := NewRest(line, value)[1 + |value|..];
    assert NewRest(line, value) == " " + value + pad;
    assert comment == "" ==> pad == "";
    if comment != "" { PadChars(pad, Trim(comment), c); }
  }

  lemma PadChars(pad: string, comment: string, c: char)
    requires |pad| >= |comment| && pad[|pad| - |comment|..] == comment && c != ' ' && c !in comment
    requires forall i :: 0 <= i < |pad| - |comment| ==> pad[i] == ' '
    ensures c !in pad
  {
    assert pad == pad[..|pad| - |comment|] + comment;
  }

  lemma NewRestNewline(line: string, value: string)
    requires Parse(line).Some?
    ensures '\n' in NewRest(line, Render(value)) <==> '\n' in value
  {
    ParseShape(line);
    RenderNewline(value);
    NewRestChars(line, Render(value), '\n');
  }

  // How far a line goes before its comment.
  function CommentColumn(line: string): nat
    requires Parse(line).Some?
  {
    var m := Parse(line).value;
    |m.ws| + |m.key| + 1 + |ValuePart(m.rest)|
  }

  /** The edited line: indentation, key and value, and the comment in the column
      it was in, or one blank after the value when that reaches further. */
  lemma CommentStays(line: string, value: string)
    requires Parse(line).Some?
    ensures var m, line' := Parse(line).value, SetLine(line, value);
            var head := m.ws + m.key + ": " + value;
            if !HasComment(line) then line' == head
            else
              var column := if CommentColumn(line) > |head| then CommentColumn(line) else |head| + 1;
              && |line'| == column + |CommentOf(line)| && line'[..|head|] == head && line'[column..] == CommentOf(line)
              && forall i :: |head| <= i < column ==> line'[i] == ' '
  {
    var m := Parse(line).value;
    var head := m.ws + m.key + ": " + value;
    SetLineIs(line, value);
    if HasComment(line) {
      var pad := Spaces(MaxPad(CommentColumn(line), |head|));
      hide SetLine, Parse, CommentColumn, CommentOf, HasComment;
      Padded(head, pad, CommentOf(line));
    }
  }

  lemma SetLineIs(line: string, value: string)
    requires Parse(line).Some?
    ensures var m := Parse(line).value; var head := m.ws + m.key + ": " + value;
            SetLine(line, value) ==
            if HasComment(line) then head + (Spaces(MaxPad(CommentColumn(line), |head|)) + CommentOf(line)) else head
  {
    var m := Parse(line).value;
    var head, comment := m.ws + m.key + ": " + value, CommentPart(m.rest);
    if comment == "" {
      Spread(m.ws, m.key, value, "");
      assert head + "" == head;
    } else {
      Spread(m.ws, m.key, value, Spaces(MaxPad(CommentColumn(line), |head|)) + Trim(comment));
      assert (" " + value) + (Spaces(MaxPad(CommentColumn(line), |head|)) + Trim(comment)) == NewRest(line, value);
    }
    hide Parse, Trim, CommentPart, ValuePart, Spaces;
  }

  lemma Spread(ws: string, key: string, value: string, tail: string)
    ensures ws + key + ":" + (" " + value + tail) == (ws + key + ": " + value) + tail
  {
  }

  lemma Padded(head: string, pad: string, comment: string)
    ensures var line := head + (pad + comment);
            && |line| == |head| + |pad| + |comment| && line[..|head|] == head && line[|head| + |pad|..] == comment
            && forall i :: |head| <= i < |head| + |pad| ==> line[i] == pad[i - |head|]
  {
  }

  /** Only what has to be quoted is: a value of letters, digits and _ . / + -, or
      an empty list or map, is written as it is. */
  lemma RenderBare(value: string)
    ensures Render(value) == value <==> WrittenBare(value)
  {
    if !WrittenBare(value) && value != "" {
      EscapeLength(value);
      assert |Render(value)| == |Escape(value)| + 2;
    }
  }

  lemma {:induction false} EscapeLength(value: string)
    ensures |Escape(value)| >= |value|
  {
    if value != "" {
      EscapeStep(value);
      EscapeLength(value[1..]);
    }
  }

  // Setting a value keeps the line's key and indentation; the line reads the
  // value back exactly when it is faithful, and then its comment survives.
  lemma SetLineReads(line: string, value: string)
    requires KeyOf(line).Key?
    ensures var line' := SetLine(line, Render(value));
            && KeyOf(line') == (if '\n' in value then Other else KeyOf(line))
            && (ValueOf(line') == Render(value) <==> Faithful(value, HasComment(line)))
            && (Faithful(value, HasComment(line)) ==> CommentOf(line') == CommentOf(line))
  {
    NewRestNewline(line, value);
    if '\n' in value {
      SetLineBreaks(line, Render(value));
      RenderEnds(value);
    } else {
      var m := Parse(line).value;
      SetLineParses(line, Render(value));
      ReadBack(value, Spaces(MaxPad(|m.ws| + |m.key| + 1 + |ValuePart(m.rest)|, |m.ws| + |m.key| + 2 + |Render(value)|)),
               CommentPart(m.rest));
    }
  }

  // The rest of a line after an edit, read back.
  lemma ReadBack(value: string, pad: string, comment: string)
    requires '\n' !in value
    requires pad != "" && forall i :: 0 <= i < |pad| ==> pad[i] == ' '
    requires comment == "" || comment[0] == '#'
    ensures var rest := " " + Render(value) + (if comment == "" then "" else pad + Trim(comment));
            && (Trim(ValuePart(rest)) == Render(value) <==> Faithful(value, comment != ""))
            && (Faithful(value, comment != "") ==> Trim(CommentPart(rest)) == Trim(comment))
  {
    var r := Render(value);
    var x := " " + r;
    RenderScan(value);
    BlankFirst(r);
    RenderEnds(value);
    if comment != "" {
      TrimHead(comment, 0);
      TrimShortens(comment);
    }
    var y := if comment == "" then "" else pad + Trim(comment);
    var rest := x + y;
    ScanConcat(x, y, true, '\0');
    var n := CommentAt(rest, true, '\0');
    if CommentAt(x, true, '\0') < |x| {
      assert rest[..n][0] == ' ';
      TrimShortens(rest[..n]);
    } else if comment == "" {
      assert rest == x == " " + r + "";
      TrimCore(" ", r, "");
      assert rest[..n] == rest;
      assert rest[n..] == "";
    } else {
      CommentBack(value, x, pad, Trim(comment));
    }
  }

  lemma {:induction false} PaddedScan(x: string, pad: string, tc: string)
    requires pad != "" && forall i :: 0 <= i < |pad| ==> pad[i] == ' '
    requires CommentAt(x, true, '\0') == |x|
    ensures CommentAt(x + (pad + tc), true, '\0') == |x| + |pad| + CommentAt(tc, true, QuoteAfter(x, '\0'))
  {
    var q := QuoteAfter(x, '\0');
    QuoteKinds(x, '\0');
    ScanConcat(x, pad + tc, true, '\0');
    ScanConcat(pad, tc, BlankAfter(x, true), q);
    PlainScan(pad, BlankAfter(x, true), q);
  }

  lemma CommentBack(value: string, x: string, pad: string, tc: string)
    requires x == " " + Render(value)
    requires pad != "" && forall i :: 0 <= i < |pad| ==> pad[i] == ' '
    requires tc != "" && tc[0] == '#' && !IsTrimmed(tc[|tc| - 1])
    requires CommentAt(x, true, '\0') == |x|
    ensures var rest := x + (pad + tc);
            && (Trim(ValuePart(rest)) == Render(value) <==> QuoteAfter(x, '\0') == '\0')
            && (QuoteAfter(x, '\0') == '\0' ==> Trim(CommentPart(rest)) == tc)
  {
    hide *;
    var r, q := Render(value), QuoteAfter(x, '\0');
    RenderEnds(value);
    PaddedScan(x, pad, tc);
    HashScan(tc, q);
    PartsOf(x + (pad + tc));
    if q == '\0' {
      CutAtComment(r, pad, tc);
    } else {
      CutPastComment(r, x + (pad + tc), |x| + |pad|, |x| + |pad| + CommentAt(tc, true, q));
    }
  }

  lemma HashScan(tc: string, q: char)
    requires tc != "" && tc[0] == '#'
    ensures CommentAt(tc, true, q) == 0 <==> q == '\0'
  {
  }

  lemma PartsOf(rest: string)
    ensures var n := CommentAt(rest, true, '\0'); ValuePart(rest) == rest[..n] && CommentPart(rest) == rest[n..]
  {
  }

  // Cut in front of the comment, the value and the comment come back.
  lemma CutAtComment(r: string, pad: string, tc: string)
    requires r != "" && !IsTrimmed(r[0]) && !IsTrimmed(r[|r| - 1]) && tc != "" && tc[0] == '#' && !IsTrimmed(tc[|tc| - 1])
    requires forall i :: 0 <= i < |pad| ==> pad[i] == ' '
    ensures var x := " " + r; var rest, n := x + (pad + tc), |x| + |pad|;
            Trim(rest[..n]) == r && Trim(rest[n..]) == tc
  {
    hide Trim;
    Apart(" " + r, pad, tc);
    TrimCore(" ", r, pad);
    assert tc == "" + tc + "";
    TrimCore("", tc, "");
  }

  // Cut behind its first character, the value does not.
  lemma CutPastComment(r: string, rest: string, at: nat, n: nat)
    requires r != "" && !IsTrimmed(r[0]) && at < n <= |rest| && rest[at] == '#' && at > |r| && rest[1] == r[0]
    ensures Trim(rest[..n]) != r
  {
    hide Trim;
    TrimKeeps(rest[..n], 1, at);
  }

  lemma Apart(x: string, y: string, z: string)
    ensures (x + (y + z))[..|x| + |y|] == x + y && (x + (y + z))[|x| + |y|..] == z
  {
  }

  lemma {:induction false} QuoteKinds(s: string, q: char)
    requires q == '\0' || q == '\'' || q == '"'
    ensures var e := QuoteAfter(s, q); e == '\0' || e == '\'' || e == '"'
  {
    if s != "" { QuoteKinds(s[1..], NextQuote(s[0], q)); }
  }
}
