/** Statements without their literals (internal/statement/fingerprint.go), up
    to the IN lists, which are collapsed in InLists. */
module Fingerprint {
  import opened Common
  import opened Statement
  import opened Normalize

  const NUL := '\0'

  predicate IsDigit(c: char) { '0' <= c <= '9' }

  predicate IsIdent(c: char) { c == '_' || c == '$' || 'a' <= c <= 'z' || 'A' <= c <= 'Z' || IsDigit(c) }

  predicate OpensString(c: char) { c == '\'' || c == '"' }

  function NumberRun(q: string): (n: nat)
    ensures n <= |q|
  {
    if q == "" || !(IsDigit(q[0]) || q[0] == '.') then 0 else 1 + NumberRun(q[1..])
  }

  function SpaceRun(q: string): (n: nat)
    ensures n <= |q|
  {
    if q == "" || !IsSpace(q[0]) then 0 else 1 + SpaceRun(q[1..])
  }

  predicate StartsNumber(q: string, prev: char)
    requires q != ""
  {
    IsDigit(q[0]) && !IsIdent(prev)
  }

  predicate StartsLiteral(q: string, prev: char)
    requires q != ""
  {
    OpensString(q[0]) || StartsNumber(q, prev)
  }

  // How many characters the scan takes in one turn; a string left open may
  // take one more than there are.
  function Turn(q: string, prev: char): (n: nat)
    requires q != ""
    ensures 0 < n <= |q| + 1
  {
    if OpensString(q[0]) then 1 + Skip(q[1..], q[0])
    else if StartsNumber(q, prev) then NumberRun(q)
    else if IsSpace(q[0]) then SpaceRun(q)
    else 1
  }

  // What it writes for them.
  function Writes(q: string, prev: char): (w: string)
    requires q != ""
    ensures |w| <= 1
  {
    if StartsLiteral(q, prev) then "?"
    else if IsSpace(q[0]) then if prev != ' ' && prev != NUL then " " else ""
    else [q[0]]
  }

  function Last(w: string, prev: char): char { if w == "" then prev else w[|w| - 1] }

  function From(q: string, n: nat): (r: string)
    ensures n > 0 && q != "" ==> |r| < |q|
  {
    if n <= |q| then q[n..] else ""
  }

  /** The scan: what it writes from a position, after having written prev. */
  function Scanned(q: string, prev: char): string
    decreases |q|
  {
    if q == "" then ""
    else var w := Writes(q, prev); w + Scanned(From(q, Turn(q, prev)), Last(w, prev))
  }

  function TrimRight(s: string): (r: string)
    ensures |r| <= |s| && r == s[..|r|]
  {
    if s != "" && s[|s| - 1] == ' ' then TrimRight(s[..|s| - 1]) else s
  }

  /** The scanned statement, before IN lists collapse. */
  function Print(query: string): string { TrimRight(Scanned(query, NUL)) }

  // --- scanning again changes nothing ---

  /** A text with no quotes, no number of its own and no two spaces in a row. */
  predicate Clean(s: string, prev: char) {
    s == "" || (!StartsLiteral(s, prev) && (IsSpace(s[0]) ==> s[0] == ' ' && prev != ' ' && prev != NUL) && Clean(s[1..], s[0]))
  }

  lemma {:induction false} ScannedClean(q: string, prev: char)
    ensures Clean(Scanned(q, prev), prev)
    decreases |q|
  {
    if q != "" {
      var w := Writes(q, prev);
      var rest := Scanned(From(q, Turn(q, prev)), Last(w, prev));
      ScannedClean(From(q, Turn(q, prev)), Last(w, prev));
      if w == "" {
        assert w + rest == rest;
      } else {
        assert (w + rest)[1..] == rest && (w + rest)[0] == w[0];
      }
    }
  }

  lemma {:induction false} CleanKept(s: string, prev: char)
    requires Clean(s, prev)
    ensures Scanned(s, prev) == s
  {
    if s != "" {
      CleanKept(s[1..], s[0]);
      if IsSpace(s[0]) { assert SpaceRun(s[1..]) == 0; }
      assert [s[0]] + s[1..] == s;
    }
  }

  lemma {:induction false} CleanPrefix(s: string, prev: char, n: nat)
    requires Clean(s, prev) && n <= |s|
    ensures Clean(s[..n], prev)
  {
    if n > 0 {
      assert s[..n][1..] == s[1..][..n - 1];
      CleanPrefix(s[1..], s[0], n - 1);
    }
  }

  lemma {:induction false} CleanQuotes(s: string, prev: char)
    requires Clean(s, prev)
    ensures '\'' !in s && '"' !in s
  {
    if s != "" {
      CleanQuotes(s[1..], s[0]);
      assert s == [s[0]] + s[1..];
    }
  }

  // A scanned statement is clean, and does not end in a space.
  lemma PrintClean(query: string)
    ensures Clean(Print(query), NUL)
    ensures Print(query) != "" ==> Print(query)[|Print(query)| - 1] != ' '
  {
    var s := Scanned(query, NUL);
    ScannedClean(query, NUL);
    CleanPrefix(s, NUL, |TrimRight(s)|);
    TrimEnds(s);
  }

  lemma {:induction false} TrimEnds(s: string)
    ensures TrimRight(s) != "" ==> TrimRight(s)[|TrimRight(s)| - 1] != ' '
  {
    if s != "" && s[|s| - 1] == ' ' { TrimEnds(s[..|s| - 1]); }
  }

  /** Scanning a scanned statement changes nothing, and it holds no quotes. */
  lemma ScanTwice(query: string)
    ensures Print(Print(query)) == Print(query)
    ensures '\'' !in Print(query) && '"' !in Print(query)
  {
    PrintClean(query);
    CleanKept(Print(query), NUL);
    CleanQuotes(Print(query), NUL);
    assert TrimRight(Print(query)) == Print(query);
  }
  // --- the parts of a statement, by their characters ---

  /** A part of a statement: a closed string, one left open, a number, white
      space, or any other character. */
  datatype Piece = Quoted(text: string) | Unclosed(text: string) | Number(text: string) | Gap(text: string) | Plain(text: string)

  predicate IsLiteral(p: Piece) { p.Quoted? || p.Unclosed? || p.Number? }

  // A quote, what a quoted run may hold, and the same quote.
  predicate ClosedString(t: string) {
    |t| >= 2 && OpensString(t[0]) && t[|t| - 1] == t[0] && IsBody(t[1..|t| - 1], t[0])
  }

  predicate OpenString(t: string) {
    t != "" && OpensString(t[0])
    && (IsBody(t[1..], t[0]) || (|t| >= 2 && t[|t| - 1] == '\\' && IsBody(t[1..|t| - 1], t[0])))
  }

  predicate InNumber(c: char) { IsDigit(c) || c == '.' }

  /** A part, after a character written and before the rest of the text. Numbers
      and white space are as long as they can be, no digit goes on an identifier,
      and a string does not end where its quote is doubled. */
  predicate Fits(p: Piece, prev: char, rest: string) {
    match p
    case Quoted(t) => ClosedString(t) && (rest != "" ==> rest[0] != t[0])
    case Unclosed(t) => OpenString(t) && rest == ""
    case Number(t) =>
      && t != "" && IsDigit(t[0]) && !IsIdent(prev) && (forall i :: 0 <= i < |t| ==> InNumber(t[i]))
      && (rest != "" ==> !InNumber(rest[0]))
    case Gap(t) => t != "" && (forall i :: 0 <= i < |t| ==> IsSpace(t[i])) && (rest != "" ==> !IsSpace(rest[0]))
    case Plain(t) => |t| == 1 && !OpensString(t[0]) && !IsSpace(t[0]) && !(IsDigit(t[0]) && !IsIdent(prev))
  }

  /** What becomes of a part: a literal is a question mark, white space is one
      space, except at the start, and any other character stays. */
  function Mark(p: Piece, prev: char): string {
    if IsLiteral(p) then "?" else if p.Gap? then (if prev == NUL || prev == ' ' then "" else " ") else p.text
  }

  function Join(ps: seq<Piece>): string { if ps == [] then "" else ps[0].text + Join(ps[1..]) }

  function Marks(ps: seq<Piece>, prev: char): string {
    if ps == [] then "" else Mark(ps[0], prev) + Marks(ps[1..], Last(Mark(ps[0], prev), prev))
  }

  /** Parts that make up a text. */
  predicate Parts(ps: seq<Piece>, prev: char) {
    ps == [] || (Fits(ps[0], prev, Join(ps[1..])) && Parts(ps[1..], Last(Mark(ps[0], prev), prev)))
  }

  // --- the scan goes from part to part ---

  lemma {:induction false} NumberIs(t: string, rest: string)
    requires (forall i :: 0 <= i < |t| ==> InNumber(t[i])) && (rest != "" ==> !InNumber(rest[0]))
    ensures NumberRun(t + rest) == |t|
  {
    if t == "" {
      assert t + rest == rest;
    } else {
      assert (t + rest)[1..] == t[1..] + rest;
      NumberIs(t[1..], rest);
    }
  }

  lemma {:induction false} SpaceIs(t: string, rest: string)
    requires (forall i :: 0 <= i < |t| ==> IsSpace(t[i])) && (rest != "" ==> !IsSpace(rest[0]))
    ensures SpaceRun(t + rest) == |t|
  {
    if t == "" {
      assert t + rest == rest;
    } else {
      assert (t + rest)[1..] == t[1..] + rest;
      SpaceIs(t[1..], rest);
    }
  }

  lemma StringIs(t: string, rest: string)
    requires (ClosedString(t) && (rest != "" ==> rest[0] != t[0])) || (OpenString(t) && rest == "")
    ensures 1 + Skip((t + rest)[1..], t[0]) == |t| || (rest == "" && 1 + Skip((t + rest)[1..], t[0]) == |t| + 1)
  {
    var quote := t[0];
    DropFront(t, rest, 1);
    if ClosedString(t) && (rest != "" ==> rest[0] != t[0]) {
      var body := t[1..|t| - 1];
      LastApart(t);
      SkipClosed(body, quote, rest);
    } else {
      assert t[1..] + rest == t[1..];
      if IsBody(t[1..], quote) {
        SkipOpen(t[1..], quote);
      } else {
        LastApart(t);
        SkipOpen(t[1..|t| - 1], quote);
      }
    }
  }

  lemma LastApart(t: string)
    requires |t| >= 2
    ensures t[1..] == t[1..|t| - 1] + [t[|t| - 1]]
  {
  }

  /** One turn of the scan takes one part and writes its mark: for a literal of
      any content, whatever text comes after it. */
  lemma TurnTakes(p: Piece, prev: char, rest: string)
    requires Fits(p, prev, rest)
    ensures p.text != "" && From(p.text + rest, Turn(p.text + rest, prev)) == rest
    ensures Writes(p.text + rest, prev) == Mark(p, prev)
  {
    var t := p.text;
    assert (t + rest)[0] == t[0] && (t + rest)[|t|..] == rest;
    match p
    case Quoted(_) => StringIs(t, rest);
    case Unclosed(_) => StringIs(t, rest);
    case Number(_) => NumberIs(t, rest);
    case Gap(_) => SpaceIs(t, rest);
    case Plain(_) =>
  }

  lemma {:induction false} ScannedMarks(ps: seq<Piece>, prev: char)
    requires Parts(ps, prev)
    ensures Scanned(Join(ps), prev) == Marks(ps, prev)
  {
    if ps != [] {
      var rest := Join(ps[1..]);
      TurnTakes(ps[0], prev, rest);
      ScannedTurn(ps[0].text + rest, prev);
      ScannedMarks(ps[1..], Last(Mark(ps[0], prev), prev));
    }
  }

  /** A closed string, described by its characters: whatever comes after it, the
      scan writes a question mark for it and goes on right behind it. */
  lemma StringScanned(t: string, rest: string, prev: char)
    requires ClosedString(t) && (rest != "" ==> rest[0] != t[0])
    ensures Scanned(t + rest, prev) == "?" + Scanned(rest, '?')
  {
    TurnTakes(Quoted(t), prev, rest);
    ScannedTurn(t + rest, prev);
  }

  /** And a number, digits and points as far as they go, that does not go on an
      identifier. */
  lemma NumberScanned(t: string, rest: string, prev: char)
    requires Fits(Number(t), prev, rest)
    ensures Scanned(t + rest, prev) == "?" + Scanned(rest, '?')
  {
    TurnTakes(Number(t), prev, rest);
    ScannedTurn(t + rest, prev);
  }

  /** Every text has such parts, so the scan is what becomes of them. */
  lemma {:induction false} EveryText(q: string, prev: char) returns (ps: seq<Piece>)
    ensures Parts(ps, prev) && Join(ps) == q && Scanned(q, prev) == Marks(ps, prev)
    decreases |q|
  {
    if q == "" {
      ps := [];
    } else {
      var p := FirstPart(q, prev);
      var rest := q[|p.text|..];
      var last := Last(Mark(p, prev), prev);
      ps := EveryText(rest, last);
      hide Fits, Mark, Scanned;
      assert ([p] + ps)[1..] == ps && p.text + rest == q;
      ps := [p] + ps;
      ScannedMarks(ps, prev);
    }
  }

  /** The scanned statement, before IN lists collapse: the marks of its parts,
      without the spaces at their end. */
  lemma PrintIs(q: string) returns (ps: seq<Piece>, spaces: string)
    ensures Parts(ps, NUL) && Join(ps) == q && Marks(ps, NUL) == Print(q) + spaces
    ensures (forall i :: 0 <= i < |spaces| ==> spaces[i] == ' ') && (Print(q) != "" ==> Print(q)[|Print(q)| - 1] != ' ')
  {
    ps := EveryText(q, NUL);
    spaces := Trimmed(Scanned(q, NUL));
    assert Print(q) == TrimRight(Scanned(q, NUL));
    hide *;
  }

  lemma Trimmed(s: string) returns (spaces: string)
    ensures s == TrimRight(s) + spaces && forall i :: 0 <= i < |spaces| ==> spaces[i] == ' '
    ensures TrimRight(s) != "" ==> TrimRight(s)[|TrimRight(s)| - 1] != ' '
  {
    spaces := s[|TrimRight(s)|..];
    TrimEnds(s);
    TrimsSpaces(s);
  }

  lemma {:induction false} TrimsSpaces(s: string)
    ensures forall i :: |TrimRight(s)| <= i < |s| ==> s[i] == ' '
  {
    if s != "" && s[|s| - 1] == ' ' { TrimsSpaces(s[..|s| - 1]); }
  }

  lemma FirstPart(q: string, prev: char) returns (p: Piece)
    requires q != ""
    ensures 0 < |p.text| <= |q| && q == p.text + q[|p.text|..] && Fits(p, prev, q[|p.text|..])
  {
    if OpensString(q[0]) {
      p := FirstString(q);
    } else if StartsNumber(q, prev) {
      p := Number(q[..NumberRun(q)]);
      NumberRunFacts(q);
    } else if IsSpace(q[0]) {
      p := Gap(q[..SpaceRun(q)]);
      SpaceRunFacts(q);
    } else {
      p := Plain(q[..1]);
    }
  }

  lemma FirstString(q: string) returns (p: Piece)
    requires q != "" && OpensString(q[0])
    ensures 0 < |p.text| <= |q| && q == p.text + q[|p.text|..] && (p.Quoted? || p.Unclosed?)
    ensures Fits(p, NUL, q[|p.text|..])
  {
    var s, quote := q[1..], q[0];
    var body := SkipReads(s, quote);
    var n := Skip(s, quote);
    assert q == [quote] + s;
    if n <= |s| && !(s == body && n == |s|) {
      ClosedFirst(quote, body, s[n..]);
      p := Quoted([quote] + body + [quote]);
    } else {
      assert q[|q|..] == "";
      OpenFirst(quote, body, n == |s| + 1);
      p := Unclosed(q);
    }
  }

  lemma ClosedFirst(quote: char, body: string, rest: string)
    requires OpensString(quote) && IsBody(body, quote)
    ensures ClosedString([quote] + body + [quote])
    ensures var t := [quote] + body + [quote]; [quote] + (body + [quote] + rest) == t + rest && (t + rest)[|t|..] == rest
  {
    var t := [quote] + body + [quote];
    assert t[1..|t| - 1] == body;
    hide IsBody;
  }

  lemma OpenFirst(quote: char, body: string, escaped: bool)
    requires OpensString(quote) && IsBody(body, quote)
    ensures OpenString([quote] + (if escaped then body + "\\" else body))
  {
    var t := [quote] + (if escaped then body + "\\" else body);
    assert if escaped then t[1..|t| - 1] == body && t[|t| - 1] == '\\' else t[1..] == body;
    hide IsBody;
  }

  lemma {:induction false} NumberRunFacts(q: string)
    ensures forall i :: 0 <= i < NumberRun(q) ==> InNumber(q[i])
    ensures NumberRun(q) < |q| ==> !InNumber(q[NumberRun(q)])
  {
    if q != "" && InNumber(q[0]) { NumberRunFacts(q[1..]); }
  }

  lemma {:induction false} SpaceRunFacts(q: string)
    ensures forall i :: 0 <= i < SpaceRun(q) ==> IsSpace(q[i])
    ensures SpaceRun(q) < |q| ==> !IsSpace(q[SpaceRun(q)])
  {
    if q != "" && IsSpace(q[0]) { SpaceRunFacts(q[1..]); }
  }

  // --- the literals do not matter ---

  /** Two statements part by part the same, but for what their literals are and
      how long their white space is. */
  predicate Alike(ps: seq<Piece>, qs: seq<Piece>) {
    |ps| == |qs|
    && forall i :: 0 <= i < |ps| ==>
         (IsLiteral(ps[i]) && IsLiteral(qs[i])) || (ps[i].Gap? && qs[i].Gap?) || ps[i] == qs[i]
  }

  lemma {:induction false} SameMarks(ps: seq<Piece>, qs: seq<Piece>, prev: char)
    requires Alike(ps, qs)
    ensures Marks(ps, prev) == Marks(qs, prev)
  {
    if ps != [] {
      assert Mark(ps[0], prev) == Mark(qs[0], prev);
      assert forall i :: 0 <= i < |ps| - 1 ==> ps[1..][i] == ps[i + 1] && qs[1..][i] == qs[i + 1];
      SameMarks(ps[1..], qs[1..], Last(Mark(ps[0], prev), prev));
    }
  }

  /** Any literals replaced by any others, quoted or numbers, and any white space
      by any other, leave the result as it is. */
  lemma LiteralIndependent(ps: seq<Piece>, qs: seq<Piece>)
    requires Parts(ps, NUL) && Parts(qs, NUL) && Alike(ps, qs)
    ensures Print(Join(ps)) == Print(Join(qs))
  {
    ScannedMarks(ps, NUL);
    ScannedMarks(qs, NUL);
    SameMarks(ps, qs, NUL);
  }

  // --- the loop ---

  method EndOfNumber(query: string, start: nat) returns (i: nat)
    requires start <= |query|
    ensures i == start + NumberRun(query[start..])
  {
    i := start;
    while i < |query| && (IsDigit(query[i]) || query[i] == '.')
      invariant start <= i <= |query| && NumberRun(query[start..]) == i - start + NumberRun(query[i..])
    {
      assert query[i..][1..] == query[i + 1..];
      i := i + 1;
    }
  }

  method EndOfSpaces(query: string, start: nat) returns (i: nat)
    requires start <= |query|
    ensures i == start + SpaceRun(query[start..])
  {
    i := start;
    while i < |query| && IsSpace(query[i])
      invariant start <= i <= |query| && SpaceRun(query[start..]) == i - start + SpaceRun(query[i..])
    {
      assert query[i..][1..] == query[i + 1..];
      i := i + 1;
    }
  }

  // What has been written, and what the rest of the text will add.
  function Written(b: string, q: string, prev: char): string { b + Scanned(q, prev) }

  lemma WriteTurn(b: string, query: string, i: nat, prev: char)
    requires i < |query|
    ensures var n, w := Turn(query[i..], prev), Writes(query[i..], prev);
            Written(b, From(query, i), prev) == Written(b + w, From(query, i + n), Last(w, prev))
  {
    var q := query[i..];
    var n, w := Turn(q, prev), Writes(q, prev);
    FromTwice(query, i, n);
    ScannedTurn(q, prev);
    hide Scanned, From, Turn, Writes;
    Joined(b, w, Scanned(From(q, n), Last(w, prev)));
  }

  lemma ScannedTurn(q: string, prev: char)
    requires q != ""
    ensures Scanned(q, prev) == Writes(q, prev) + Scanned(From(q, Turn(q, prev)), Last(Writes(q, prev), prev))
  {
  }

  lemma FromTwice(query: string, i: nat, n: nat)
    requires i <= |query|
    ensures From(query[i..], n) == From(query, i + n) && From(query, i) == query[i..]
  {
  }

  // One turn of the scan: where it ends and what it writes.
  method Take(query: string, start: nat, prev: char) returns (i: nat, w: string)
    requires start < |query|
    ensures i == start + Turn(query[start..], prev) && w == Writes(query[start..], prev)
  {
    var ch := query[start];
    if OpensString(ch) {
      i := SkipQuoted(query, start);
      w := "?";
    } else if IsDigit(ch) && !IsIdent(prev) {
      i := EndOfNumber(query, start);
      w := "?";
    } else if IsSpace(ch) {
      i := EndOfSpaces(query, start);
      w := if prev != ' ' && prev != NUL then " " else "";
    } else {
      i, w := start + 1, [ch];
    }
  }

  /** The scan as the source runs it; i may end one past the end of the text. */
  method Run(query: string) returns (out: string)
    ensures out == Print(query)
  {
    var b, prev, i := "", NUL, 0;
    assert "" + Scanned(query, NUL) == Scanned(query, NUL) && From(query, 0) == query;
    while i < |query|
      invariant 0 <= i <= |query| + 1
      invariant Written(b, From(query, i), prev) == Scanned(query, NUL)
      decreases |query| + 1 - i
    {
      hide Scanned, Written, From, Turn, Writes;
      WriteTurn(b, query, i, prev);
      var end, w := Take(query, i, prev);
      b, prev, i := b + w, Last(w, prev), end;
    }
    assert b + "" == b;
    out := TrimRight(b);
  }
}
