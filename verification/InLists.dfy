/** IN lists, of any length, as one placeholder: the regular expression at the
    end of Fingerprint (internal/statement/fingerprint.go, lines 8 and 54). */
module InLists {
  import opened Common
  import opened Statement
  import F = Fingerprint

  // \s of a Go regular expression.
  predicate IsBlank(c: char) { c == ' ' || c == '\t' || c == '\n' || c == '\r' || c == '\U{0C}' }

  function Ltrim(s: string): (r: string)
    ensures |r| <= |s|
  {
    if s != "" && IsBlank(s[0]) then Ltrim(s[1..]) else s
  }

  // What follows a character after blanks.
  function Past(s: string, c: char): (r: Option<string>)
    ensures r.Some? ==> |r.value| < |s|
  {
    var t := Ltrim(s);
    if t != "" && t[0] == c then Some(t[1..]) else None
  }

  // What follows the rest of a list, from after a placeholder.
  function ListEnd(s: string): (r: Option<string>)
    ensures r.Some? ==> |r.value| < |s|
    decreases |s|
  {
    if Past(s, ')').Some? then Past(s, ')')
    else
      match Past(s, ',')
      case None => None
      case Some(t) => match Past(t, '?') case None => None case Some(u) => ListEnd(u)
  }

  /** What follows an IN list at the start of a text, if there is one. */
  function AfterList(s: string): (r: Option<string>)
    ensures r.Some? ==> |r.value| < |s|
  {
    if |s| >= 2 && (s[0] == 'I' || s[0] == 'i') && (s[1] == 'N' || s[1] == 'n') then
      match Past(s[2..], '(')
      case None => None
      case Some(t) => match Past(t, '?') case None => None case Some(u) => ListEnd(u)
    else None
  }

  const ONE := "IN (?)"

  /** inListRe.ReplaceAllString. */
  function Collapse(s: string): string
    decreases |s|
  {
    if s == "" then ""
    else
      match AfterList(s)
      case Some(rest) => ONE + Collapse(rest)
      case None => [s[0]] + Collapse(s[1..])
  }

  /** Fingerprint. */
  function Fingerprint(query: string): string { Collapse(F.Print(query)) }

  method Run(query: string) returns (out: string)
    ensures out == Fingerprint(query)
  {
    out := F.Run(query);
    out := Collapse(out);
  }

  // --- lists by their characters ---

  predicate Blanks(s: string) { forall i :: 0 <= i < |s| ==> IsBlank(s[i]) }

  /** An IN list of placeholders: the word, blanks, a parenthesis, the first
      placeholder, commas and placeholders with blanks around the commas, and
      the closing parenthesis. */
  datatype List = List(word: string, before: string, inside: string, more: seq<(string, string)>, last: string)

  predicate IsList(l: List) {
    && |l.word| == 2 && (l.word[0] == 'I' || l.word[0] == 'i') && (l.word[1] == 'N' || l.word[1] == 'n')
    && Blanks(l.before) && Blanks(l.inside) && Blanks(l.last)
    && forall i :: 0 <= i < |l.more| ==> Blanks(l.more[i].0) && Blanks(l.more[i].1)
  }

  function TailText(more: seq<(string, string)>, last: string): string {
    if more == [] then last + ")" else more[0].0 + "," + (more[0].1 + "?" + TailText(more[1..], last))
  }

  function Text(l: List): string { l.word + (l.before + "(" + (l.inside + "?" + TailText(l.more, l.last))) }

  lemma {:induction false} LtrimIs(b: string, s: string)
    requires Blanks(b) && (s != "" ==> !IsBlank(s[0]))
    ensures Ltrim(b + s) == s
  {
    if b == "" {
      assert b + s == s;
    } else {
      assert (b + s)[1..] == b[1..] + s;
      LtrimIs(b[1..], s);
    }
  }

  lemma PastIs(b: string, c: string, x: string, rest: string)
    requires Blanks(b) && |c| == 1 && !IsBlank(c[0])
    ensures forall d :: Past((b + c + x) + rest, d) == if d == c[0] then Some(x + rest) else None
  {
    assert (b + c + x) + rest == b + (c + (x + rest));
    LtrimIs(b, c + (x + rest));
    assert (c + (x + rest))[1..] == x + rest;
  }

  lemma {:induction false} TailIs(more: seq<(string, string)>, last: string, rest: string)
    requires Blanks(last) && forall i :: 0 <= i < |more| ==> Blanks(more[i].0) && Blanks(more[i].1)
    ensures ListEnd(TailText(more, last) + rest) == Some(rest)
  {
    if more == [] {
      PastIs(last, ")", "", rest);
      assert last + ")" + "" == last + ")" && "" + rest == rest;
    } else {
      var after := TailText(more[1..], last);
      PastIs(more[0].0, ",", more[0].1 + "?" + after, rest);
      PastIs(more[0].1, "?", after, rest);
      TailIs(more[1..], last, rest);
    }
  }

  /** However long a list is, the expression takes all of it, and nothing after it. */
  lemma ListIs(l: List, rest: string)
    requires IsList(l)
    ensures AfterList(Text(l) + rest) == Some(rest)
  {
    var tail := TailText(l.more, l.last);
    var body := l.before + "(" + (l.inside + "?" + tail);
    assert (Text(l) + rest)[2..] == body + rest;
    PastIs(l.before, "(", l.inside + "?" + tail, rest);
    PastIs(l.inside, "?", tail, rest);
    TailIs(l.more, l.last, rest);
  }

  lemma {:induction false} LtrimCut(s: string) returns (b: string)
    ensures Blanks(b) && s == b + Ltrim(s)
  {
    b := "";
    assert "" + s == s;
    if s != "" && IsBlank(s[0]) {
      var rest := LtrimCut(s[1..]);
      b := [s[0]] + rest;
      assert s == [s[0]] + s[1..];
      Grouped([s[0]], rest, Ltrim(s[1..]));
    }
  }

  lemma PastCut(s: string, c: char) returns (b: string)
    requires Past(s, c).Some?
    ensures Blanks(b) && s == b + ([c] + Past(s, c).value)
  {
    b := LtrimCut(s);
    var t := Ltrim(s);
    assert t == [t[0]] + t[1..];
  }

  lemma {:induction false} TailCut(s: string) returns (more: seq<(string, string)>, last: string)
    requires ListEnd(s).Some?
    ensures Blanks(last) && (forall i :: 0 <= i < |more| ==> Blanks(more[i].0) && Blanks(more[i].1))
    ensures s == TailText(more, last) + ListEnd(s).value
    decreases |s|
  {
    if Past(s, ')').Some? {
      last := PastCut(s, ')');
      more := [];
      assert last + ([')'] + Past(s, ')').value) == (last + ")") + Past(s, ')').value;
    } else {
      var t := Past(s, ',').value;
      var u := Past(t, '?').value;
      var a := PastCut(s, ',');
      var b := PastCut(t, '?');
      var rest;
      rest, last := TailCut(u);
      more := [(a, b)] + rest;
      assert more[1..] == rest;
      Regroup(a, ",", b, "?", TailText(rest, last), ListEnd(u).value);
    }
  }

  lemma Regroup(a: string, c: string, b: string, d: string, x: string, y: string)
    ensures a + (c + (b + (d + (x + y)))) == (a + c + (b + d + x)) + y
  {
  }

  /** And it takes nothing but lists. */
  lemma ListThere(s: string) returns (l: List)
    requires AfterList(s).Some?
    ensures IsList(l) && s == Text(l) + AfterList(s).value
  {
    var t := Past(s[2..], '(').value;
    var u := Past(t, '?').value;
    var a := PastCut(s[2..], '(');
    var b := PastCut(t, '?');
    var more, last := TailCut(u);
    l := List(s[..2], a, b, more, last);
    assert s == s[..2] + s[2..];
    Regroup(a, "(", b, "?", TailText(more, last), ListEnd(u).value);
    Grouped(s[..2], a + "(" + (b + "?" + TailText(more, last)), ListEnd(u).value);
  }

  /** A text with no list in it stays as it is. */
  lemma {:induction false} NoLists(s: string)
    requires forall i :: 0 <= i < |s| ==> AfterList(s[i..]) == None
    ensures Collapse(s) == s
  {
    if s != "" {
      assert s[0..] == s && s == [s[0]] + s[1..];
      forall i | 0 <= i < |s| - 1 ensures AfterList(s[1..][i..]) == None { assert s[1..][i..] == s[i + 1..]; }
      NoLists(s[1..]);
    }
  }

  // --- nothing in front of a list reaches into it ---

  // No list holds a letter after its IN.
  predicate StartsIn(s: string) { s != "" && (s[0] == 'I' || s[0] == 'i') }

  lemma NotBlank(y: string)
    requires StartsIn(y)
    ensures Ltrim(y) == y
  {
  }

  lemma {:induction false} LtrimSplit(x: string, y: string)
    requires StartsIn(y)
    ensures Ltrim(x + y) == Ltrim(x) + y
  {
    if x == "" {
      assert x + y == y;
      NotBlank(y);
    } else {
      assert (x + y)[1..] == x[1..] + y;
      if IsBlank(x[0]) { LtrimSplit(x[1..], y); }
    }
  }

  // The rest of what was taken, with y still behind it.
  function With(r: Option<string>, y: string): Option<string> {
    match r case None => None case Some(x) => Some(x + y)
  }

  lemma PastSplit(x: string, c: char, y: string)
    requires StartsIn(y) && c != 'I' && c != 'i'
    ensures Past(x + y, c) == With(Past(x, c), y)
  {
    LtrimSplit(x, y);
    var t := Ltrim(x);
    if t == "" {
      assert t + y == y;
    } else {
      assert (t + y)[1..] == t[1..] + y;
    }
  }

  lemma {:induction false} EndSplit(x: string, y: string)
    requires StartsIn(y)
    ensures ListEnd(x + y) == With(ListEnd(x), y)
    decreases |x|
  {
    PastSplit(x, ')', y);
    PastSplit(x, ',', y);
    if Past(x, ')') == None && Past(x, ',').Some? {
      var t := Past(x, ',').value;
      PastSplit(t, '?', y);
      if Past(t, '?').Some? { EndSplit(Past(t, '?').value, y); }
    }
  }

  lemma AfterSplit(x: string, y: string)
    requires StartsIn(y) && x != ""
    ensures AfterList(x + y) == With(AfterList(x), y)
  {
    if |x| == 1 {
      assert (x + y)[1] == y[0];
    } else {
      assert (x + y)[2..] == x[2..] + y;
      PastSplit(x[2..], '(', y);
      if Past(x[2..], '(').Some? {
        var t := Past(x[2..], '(').value;
        PastSplit(t, '?', y);
        if Past(t, '?').Some? { EndSplit(Past(t, '?').value, y); }
      }
    }
  }

  lemma Grouped(x: string, y: string, z: string)
    ensures x + (y + z) == (x + y) + z
  {
  }

  lemma {:induction false} CollapseSplit(x: string, y: string)
    requires StartsIn(y)
    ensures Collapse(x + y) == Collapse(x) + Collapse(y)
    decreases |x|
  {
    if x == "" {
      assert x + y == y;
    } else {
      AfterSplit(x, y);
      match AfterList(x)
      case Some(rest) =>
        CollapseSplit(rest, y);
        Grouped(ONE, Collapse(rest), Collapse(y));
      case None =>
        assert (x + y)[1..] == x[1..] + y;
        CollapseSplit(x[1..], y);
        Grouped([x[0]], Collapse(x[1..]), Collapse(y));
    }
  }

  /** Statements that differ in how many values their IN lists hold have one
      fingerprint: a list anywhere becomes the one placeholder, and what is in
      front of it and behind it is what it would be without it. */
  lemma ListsCollapse(x: string, l: List, y: string)
    requires IsList(l)
    ensures Collapse(x + Text(l) + y) == Collapse(x) + ONE + Collapse(y)
  {
    assert x + Text(l) + y == x + (Text(l) + y);
    CollapseSplit(x, Text(l) + y);
    ListIs(l, y);
    assert Collapse(x) + (ONE + Collapse(y)) == Collapse(x) + ONE + Collapse(y);
  }

  // --- a fingerprint is its own ---

  // A text cut in front of the first list in it.
  predicate IsFirst(s: string, x: string, y: string) {
    s == x + y && Collapse(s) == x + Collapse(y) && (y != "" ==> StartsIn(y) && StartsIn(Collapse(y)))
  }

  lemma FirstHere(s: string)
    requires s == "" || AfterList(s).Some?
    ensures IsFirst(s, "", s)
  {
    assert "" + s == s && "" + Collapse(s) == Collapse(s);
    if s != "" { assert Collapse(s)[0] == ONE[0]; }
  }

  lemma FirstLater(s: string, x: string, y: string)
    requires s != "" && AfterList(s) == None && IsFirst(s[1..], x, y)
    ensures IsFirst(s, [s[0]] + x, y)
  {
    var c, t := [s[0]], s[1..];
    assert Collapse(s) == c + Collapse(t);
    assert s == c + t;
    FirstBehind(c, t, Collapse(t), x, y, Collapse(y));
    hide Collapse, AfterList, StartsIn;
  }

  lemma FirstBehind(c: string, t: string, now: string, x: string, y: string, later: string)
    requires t == x + y && now == x + later
    ensures c + t == (c + x) + y && c + now == (c + x) + later
  {
    Grouped(c, x, y);
    Grouped(c, x, later);
  }

  lemma {:induction false} FirstList(s: string) returns (x: string, y: string)
    ensures IsFirst(s, x, y)
    decreases |s|
  {
    if s == "" || AfterList(s).Some? {
      x, y := "", s;
      FirstHere(s);
    } else {
      x, y := FirstList(s[1..]);
      FirstLater(s, x, y);
      x := [s[0]] + x;
    }
  }

  // Collapsing makes no list that was not there.
  lemma NoNewList(s: string)
    requires s != "" && AfterList(s) == None
    ensures AfterList([s[0]] + Collapse(s[1..])) == None
  {
    var x, y := FirstList(s[1..]);
    var front := [s[0]] + x;
    assert s == [s[0]] + s[1..] && Collapse("") == "";
    hide AfterList, Collapse, StartsIn;
    Grouped([s[0]], x, y);
    Grouped([s[0]], x, Collapse(y));
    if y != "" {
      AfterSplit(front, y);
      AfterSplit(front, Collapse(y));
    }
  }

  lemma OneIs(rest: string)
    ensures AfterList(ONE + rest) == Some(rest)
  {
    var l := List("IN", " ", "", [], "");
    ListIs(l, rest);
    assert Text(l) == ONE;
  }

  lemma {:induction false} CollapseTwice(s: string)
    ensures Collapse(Collapse(s)) == Collapse(s)
    decreases |s|
  {
    if s != "" {
      match AfterList(s)
      case Some(rest) =>
        CollapseTwice(rest);
        OneIs(Collapse(rest));
      case None =>
        CollapseTwice(s[1..]);
        NoNewList(s);
        assert ([s[0]] + Collapse(s[1..]))[1..] == Collapse(s[1..]);
    }
  }

  // What a list leaves comes right after its parenthesis.
  lemma {:induction false} LtrimEnd(s: string)
    ensures Ltrim(s) == s[|s| - |Ltrim(s)|..]
  {
    if s != "" && IsBlank(s[0]) { LtrimEnd(s[1..]); }
  }

  predicate Follows(s: string, rest: string, c: char) {
    |rest| < |s| && rest == s[|s| - |rest|..] && s[|s| - |rest| - 1] == c
  }

  lemma PastEnd(s: string, c: char)
    requires Past(s, c).Some?
    ensures Follows(s, Past(s, c).value, c)
  {
    LtrimEnd(s);
    assert Ltrim(s) == [c] + Past(s, c).value;
  }

  lemma FollowsMore(s: string, t: string, d: char, rest: string, c: char)
    requires Follows(s, t, d) && Follows(t, rest, c)
    ensures Follows(s, rest, c)
  {
  }

  lemma {:induction false} EndIs(s: string)
    requires ListEnd(s).Some?
    ensures Follows(s, ListEnd(s).value, ')')
    decreases |s|
  {
    if Past(s, ')').Some? {
      PastEnd(s, ')');
    } else {
      PastEnd(s, ',');
      var t := Past(s, ',').value;
      PastEnd(t, '?');
      var u := Past(t, '?').value;
      EndIs(u);
      FollowsMore(t, u, '?', ListEnd(u).value, ')');
      FollowsMore(s, t, ',', ListEnd(u).value, ')');
    }
  }

  lemma AfterIs(s: string)
    requires AfterList(s).Some?
    ensures Follows(s, AfterList(s).value, ')')
  {
    var t := Past(s[2..], '(').value;
    var u := Past(t, '?').value;
    assert AfterList(s) == ListEnd(u);
    hide Follows, Past, ListEnd, AfterList;
    PastEnd(s[2..], '(');
    PastEnd(t, '?');
    EndIs(u);
    FollowsMore(t, u, '?', ListEnd(u).value, ')');
    FollowsMore(s[2..], t, '(', ListEnd(u).value, ')');
    FollowsIn(s, 2, ListEnd(u).value, ')');
  }

  lemma FollowsIn(s: string, k: nat, rest: string, c: char)
    requires k <= |s| && Follows(s[k..], rest, c)
    ensures Follows(s, rest, c)
  {
  }

  lemma {:induction false} CleanFrom(s: string, prev: char, n: nat)
    requires F.Clean(s, prev) && n < |s|
    ensures F.Clean(s[n + 1..], s[n])
  {
    if n > 0 {
      assert s[1..][n - 1] == s[n] && s[1..][n..] == s[n + 1..];
      CleanFrom(s[1..], s[0], n - 1);
    }
  }

  // A text like another at its start and its end, and clean.
  predicate StillClean(s: string, now: string, prev: char) {
    F.Clean(now, prev) && (s != "" ==> now != "" && (now[|now| - 1] == ' ' <==> s[|s| - 1] == ' '))
  }

  lemma ListClean(s: string, rest: string, prev: char)
    requires F.Clean(s, prev) && Follows(s, rest, ')') && StillClean(rest, Collapse(rest), ')')
    ensures StillClean(s, ONE + Collapse(rest), prev)
  {
    assert rest == "" ==> Collapse(rest) == "";
    hide F.Clean, Collapse;
    OneClean(Collapse(rest), prev);
  }

  lemma OtherClean(s: string, prev: char)
    requires s != "" && F.Clean(s, prev) && StillClean(s[1..], Collapse(s[1..]), s[0])
    ensures StillClean(s, [s[0]] + Collapse(s[1..]), prev)
  {
    var now := [s[0]] + Collapse(s[1..]);
    assert now[1..] == Collapse(s[1..]);
    if s[1..] == "" { assert Collapse("") == ""; }
  }

  // A list collapsed leaves a text the scan would leave as it is.
  lemma {:induction false} CollapsedClean(s: string, prev: char)
    requires F.Clean(s, prev)
    ensures StillClean(s, Collapse(s), prev)
    decreases |s|
  {
    if s != "" {
      match AfterList(s)
      case Some(rest) =>
        AfterIs(s);
        CleanFrom(s, prev, |s| - |rest| - 1);
        assert Collapse(s) == ONE + Collapse(rest) && Follows(s, rest, ')');
        hide Collapse, AfterList, F.Clean, StillClean;
        CollapsedClean(rest, ')');
        ListClean(s, rest, prev);
      case None =>
        CollapsedClean(s[1..], s[0]);
        OtherClean(s, prev);
    }
  }

  lemma OneClean(rest: string, prev: char)
    requires F.Clean(rest, ')')
    ensures F.Clean(ONE + rest, prev)
  {
    var parts := "I" + ("N" + (" " + ("(" + ("?" + (")" + rest)))));
    CleanMore(")", rest, '?');
    CleanMore("?", ")" + rest, '(');
    CleanMore("(", "?" + (")" + rest), ' ');
    CleanMore(" ", "(" + ("?" + (")" + rest)), 'N');
    CleanMore("N", " " + ("(" + ("?" + (")" + rest))), 'I');
    CleanMore("I", "N" + (" " + ("(" + ("?" + (")" + rest)))), prev);
    assert ONE + rest == parts;
  }

  lemma CleanMore(c: string, s: string, prev: char)
    requires |c| == 1 && F.Clean(s, c[0]) && !F.OpensString(c[0]) && !F.IsDigit(c[0])
    requires IsSpace(c[0]) ==> c == " " && prev != ' ' && prev != F.NUL
    ensures F.Clean(c + s, prev)
  {
    assert (c + s)[1..] == s;
  }

  /** A fingerprint is its own fingerprint, and holds no quotes. */
  lemma Twice(query: string)
    ensures Fingerprint(Fingerprint(query)) == Fingerprint(query)
    ensures '\'' !in Fingerprint(query) && '"' !in Fingerprint(query)
  {
    var s := F.Print(query);
    F.PrintClean(query);
    CollapsedClean(s, F.NUL);
    hide Collapse, F.Clean;
    F.CleanKept(Collapse(s), F.NUL);
    F.CleanQuotes(Collapse(s), F.NUL);
    CollapseTwice(s);
    assert F.TrimRight(Collapse(s)) == Collapse(s);
  }
}
