/** The text the cache is keyed on (internal/statement/normalize.go): a lexer
    and a printer that agree. String literals are those of section 9.1.1 of the
    MySQL 8.0 Reference Manual. */
module Normalize {
  import opened Common
  import opened Statement

  /** A character, or a quoted run verbatim; gap when white space precedes it. */
  datatype Tok = Tok(gap: bool, text: string)

  // skipQuoted, from after the opening quote: how many characters the rest of
  // the run takes. One more than there are when it ends on a lone backslash.
  function Skip(s: string, quote: char): (n: nat)
    ensures n <= |s| + 1
  {
    if s == "" then 0
    else if s[0] == '\\' then
      if quote == '`' then 1 + Skip(s[1..], quote)
      else if |s| == 1 then 2
      else 2 + Skip(s[2..], quote)
    else if s[0] == quote then
      if |s| > 1 && s[1] == quote then 2 + Skip(s[2..], quote) else 1
    else 1 + Skip(s[1..], quote)
  }

  /** What a quoted run may hold: a backslash and the character after it (in
      backquotes a backslash is like any other), its quote doubled, and any
      other character. */
  predicate IsBody(s: string, quote: char) {
    s == ""
    || if (s[0] == '\\' && quote != '`') || s[0] == quote
       then |s| >= 2 && (s[0] == quote ==> s[1] == quote) && IsBody(s[2..], quote)
       else IsBody(s[1..], quote)
  }

  // Past the closing quote, when what follows is not another.
  lemma {:induction false} SkipClosed(body: string, quote: char, b: string)
    requires IsQuote(quote) && IsBody(body, quote) && (b != "" ==> b[0] != quote)
    ensures Skip(body + [quote] + b, quote) == |body| + 1
    decreases |body|
  {
    var s := body + [quote] + b;
    if body != "" {
      assert s[0] == body[0] && s[1..] == body[1..] + [quote] + b;
      if (body[0] == '\\' && quote != '`') || body[0] == quote {
        assert s[1] == body[1] && s[2..] == body[2..] + [quote] + b;
        SkipClosed(body[2..], quote, b);
      } else {
        SkipClosed(body[1..], quote, b);
      }
    } else {
      assert s == [quote] + b;
    }
  }

  // A run that nothing closes takes all there is, and one more character when
  // it ends on a backslash.
  lemma {:induction false} SkipOpen(body: string, quote: char)
    requires IsQuote(quote) && IsBody(body, quote)
    ensures Skip(body, quote) == |body|
    ensures quote != '`' ==> Skip(body + "\\", quote) == |body| + 2
    decreases |body|
  {
    var s := body + "\\";
    if body != "" {
      assert s[0] == body[0] && s[1..] == body[1..] + "\\";
      if (body[0] == '\\' && quote != '`') || body[0] == quote {
        assert s[1] == body[1] && s[2..] == body[2..] + "\\";
        SkipOpen(body[2..], quote);
      } else {
        SkipOpen(body[1..], quote);
      }
    }
  }

  /** A closed quoted run, an open one, or an open one that ends on a backslash. */
  predicate Reads(s: string, quote: char, body: string, n: nat) {
    && IsBody(body, quote)
    && if n > |s| then n == |s| + 1 && s == body + "\\" && quote != '`'
       else (s == body && n == |s|) || (n == |body| + 1 && s == body + [quote] + s[n..] && (n < |s| ==> s[n] != quote))
  }

  lemma ReadsMore(s: string, quote: char, body: string, k: nat, n: nat)
    requires k <= |s| && Reads(s[k..], quote, body, n) && IsBody(s[..k] + body, quote)
    ensures Reads(s, quote, s[..k] + body, k + n)
  {
    assert s == s[..k] + s[k..];
    if n <= |s[k..]| { assert s[k..][n..] == s[k + n..]; }
  }

  lemma BodyMore(s: string, quote: char, body: string, k: nat)
    requires IsBody(body, quote) && 1 <= k <= |s|
    requires if (s[0] == '\\' && quote != '`') || s[0] == quote then k == 2 && (s[0] == quote ==> s[1] == quote) else k == 1
    ensures IsBody(s[..k] + body, quote)
  {
    assert (s[..k] + body)[k..] == body;
  }

  /** There is no fourth kind: every text is, from inside a quoted run on, one of
      these, and Skip says where it ends. */
  lemma {:induction false} SkipReads(s: string, quote: char) returns (body: string)
    requires IsQuote(quote)
    ensures Reads(s, quote, body, Skip(s, quote))
    decreases |s|
  {
    if s == "" || (s[0] == '\\' && quote != '`' && |s| == 1) || (s[0] == quote && !(|s| > 1 && s[1] == quote)) {
      body := "";
    } else {
      var k := if (s[0] == '\\' && quote != '`') || s[0] == quote then 2 else 1;
      body := SkipReads(s[k..], quote);
      BodyMore(s, quote, body, k);
      hide Reads, IsBody;
      ReadsMore(s, quote, body, k, Skip(s[k..], quote));
      body := s[..k] + body;
    }
  }

  // The length of the token at the start of q.
  function Length(q: string): (n: nat)
    requires q != ""
    ensures 0 < n <= |q| + 1
  {
    if IsQuote(q[0]) then 1 + Skip(q[1..], q[0]) else 1
  }

  /** The tokens of q; None where the source slices past the end of the text. */
  function Lex(q: string, gap: bool): Option<seq<Tok>>
    decreases |q|
  {
    if q == "" then Some([])
    else if IsSpace(q[0]) then Lex(q[1..], true)
    else if Length(q) > |q| then None
    else
      match Lex(q[Length(q)..], false)
      case None => None
      case Some(toks) => Some([Tok(gap, q[..Length(q)])] + toks)
  }

  function Print(toks: seq<Tok>): string {
    if toks == [] then "" else (if toks[0].gap then " " else "") + toks[0].text + Print(toks[1..])
  }

  /** The normalized text; None for the statements that make the source panic. */
  function Normal(query: string): Option<string> {
    match Lex(StripLeading(query), false)
    case None => None
    case Some(toks) => Some(Print(toks))
  }

  // --- the printed text lexes back ---

  // What follows a token looks the same to it in both texts.
  predicate SameHead(x: string, y: string) {
    y != "" ==> x != "" && (y[0] == x[0] || (IsSpace(x[0]) && y[0] == ' '))
  }

  // Nor does what follows extend it.
  predicate Follows(x: string, y: string) {
    (x == "" ==> y == "") && (y != "" && IsQuote(y[0]) ==> y[0] == x[0])
  }

  lemma {:induction false} SkipSame(t: string, x: string, y: string, quote: char)
    requires Skip(t + x, quote) == |t| && IsQuote(quote) && Follows(x, y)
    ensures Skip(t + y, quote) == |t|
    decreases |t|
  {
    if |t| > 1 {
      SkipFirst(t, x, quote);
      SkipFirst(t, y, quote);
      if (t[0] == '\\' && quote != '`') || (t[0] == quote && t[1] == quote) {
        SkipSame(t[2..], x, y, quote);
      } else if t[0] != quote {
        SkipSame(t[1..], x, y, quote);
      }
    } else if |t| == 1 {
      assert (t + x)[0] == (t + y)[0] == t[0] && (t + x)[1..] == x && (t + y)[1..] == y;
      if t[0] != quote { SkipSame("", x, y, quote); }
      assert "" + x == x && "" + y == y;
    }
  }

  lemma SkipFirst(t: string, x: string, quote: char)
    requires |t| > 1 && IsQuote(quote)
    ensures Skip(t + x, quote) ==
            if (t[0] == '\\' && quote != '`') || (t[0] == quote && t[1] == quote) then 2 + Skip(t[2..] + x, quote)
            else if t[0] == quote then 1 else 1 + Skip(t[1..] + x, quote)
  {
    DropFront(t, x, 1);
    DropFront(t, x, 2);
  }

  lemma Joined(x: string, y: string, z: string)
    ensures x + (y + z) == (x + y) + z
  {
  }

  lemma DropFront(a: string, x: string, n: nat)
    requires n <= |a|
    ensures (a + x)[n..] == a[n..] + x
  {
  }

  lemma LengthSame(q: string, y: string)
    requires q != "" && !IsSpace(q[0]) && Length(q) <= |q|
    requires Follows(q[Length(q)..], y)
    ensures q[..Length(q)] != "" && Length(q[..Length(q)] + y) == Length(q)
  {
    var n := Length(q);
    var t := q[1..n];
    if IsQuote(q[0]) {
      assert q[1..] == t + q[n..];
      SkipSame(t, q[n..], y, q[0]);
      assert (q[..n] + y)[1..] == t + y;
    }
  }

  lemma {:induction false} PrintHead(q: string, gap: bool)
    requires Lex(q, gap).Some?
    ensures var p := Print(Lex(q, gap).value);
            if gap then p != "" ==> p[0] == ' ' else SameHead(q, p) && (q == "" ==> p == "")
    decreases |q|
  {
    if q != "" && IsSpace(q[0]) { PrintHead(q[1..], true); }
  }

  /** Printing what was read and reading it again gives the same tokens. */
  lemma {:induction false} PrintLexes(q: string, gap: bool)
    requires Lex(q, gap).Some?
    ensures Lex(Print(Lex(q, gap).value), false) == Lex(q, gap)
    decreases |q|
  {
    if q != "" {
      if IsSpace(q[0]) {
        PrintLexes(q[1..], true);
      } else {
        var n := Length(q);
        PrintLexes(q[n..], false);
        PrintHead(q[n..], false);
        var p := Print(Lex(q[n..], false).value);
        LengthSame(q, p);
        OneToken(q[..n], p, gap);
      }
    }
  }

  lemma TokenFirst(t: string, rest: string, gap: bool)
    requires t != "" && !IsSpace(t[0]) && Length(t + rest) == |t| && Lex(rest, false).Some?
    ensures Lex(t + rest, gap) == Some([Tok(gap, t)] + Lex(rest, false).value)
  {
    var q := t + rest;
    assert q[..|t|] == t && q[|t|..] == rest;
  }

  lemma {:induction false} OneToken(t: string, rest: string, gap: bool)
    requires t != "" && !IsSpace(t[0]) && Length(t + rest) == |t| && Lex(rest, false).Some?
    ensures Lex((if gap then " " else "") + t + rest, false) == Some([Tok(gap, t)] + Lex(rest, false).value)
  {
    TokenFirst(t, rest, gap);
    if gap {
      assert (" " + t + rest)[1..] == t + rest;
    } else {
      assert "" + t + rest == t + rest;
    }
  }

  lemma {:induction false} StripDone(query: string)
    ensures var q := StripLeading(query); q != "" ==> !IsSpace(q[0]) && !(|q| >= 2 && q[0] == '/' && q[1] == '*')
    decreases |query|
  {
    var t := TrimLeft(query);
    if |t| >= 2 && t[0] == '/' && t[1] == '*' && CommentEnd(t) <= |t| { StripDone(t[CommentEnd(t)..]); }
  }

  // Nothing is stripped from a normalized statement.
  lemma StripPrinted(query: string)
    requires Lex(StripLeading(query), false).Some?
    ensures var p := Print(Lex(StripLeading(query), false).value); StripLeading(p) == p
  {
    var q := StripLeading(query);
    var p := Print(Lex(q, false).value);
    StripDone(query);
    PrintHead(q, false);
    if q != "" {
      assert !IsSpace(q[0]);
      PrintHead(q[Length(q)..], false);
      if q[0] == '/' {
        assert p == "" + q[..1] + Print(Lex(q[1..], false).value);
      }
      TrimOnce(p);
    }
  }

  /** A normalized statement is its own normal form. */
  lemma Idempotent(query: string)
    requires Normal(query).Some?
    ensures Normal(Normal(query).value) == Normal(query)
  {
    StripPrinted(query);
    PrintLexes(StripLeading(query), false);
  }

  // --- which statements share a key ---

  predicate Blank(s: string) { forall i :: 0 <= i < |s| ==> IsSpace(s[i]) }

  /** Some white space for every gap, none elsewhere. */
  predicate Spaces(toks: seq<Tok>, gaps: seq<string>) {
    |gaps| == |toks| && forall i :: 0 <= i < |toks| ==> Blank(gaps[i]) && (gaps[i] != "" <==> toks[i].gap)
  }

  function Spread(toks: seq<Tok>, gaps: seq<string>, tail: string): string
    requires |gaps| == |toks|
  {
    if toks == [] then tail else gaps[0] + toks[0].text + Spread(toks[1..], gaps[1..], tail)
  }

  /** q is these tokens, with white space of any length in their gaps and at the end. */
  ghost predicate IsLayout(q: string, toks: seq<Tok>) {
    exists gaps, tail {:trigger Spread(toks, gaps, tail)} ::
      Spaces(toks, gaps) && Ending(toks, tail) && q == Spread(toks, gaps, tail)
  }

  // A token that ends whatever comes next: not a run still open.
  predicate Closed(t: string) {
    t != "" && !IsSpace(t[0]) && Length(t + " ") == |t|
  }

  predicate Ending(toks: seq<Tok>, tail: string) {
    Blank(tail) && (tail != "" && toks != [] ==> Closed(toks[|toks| - 1].text))
  }

  // Tokens that a text can hold: what lexing their own print gives.
  predicate Proper(toks: seq<Tok>) { Lex(Print(toks), false) == Some(toks) }

  lemma {:induction false} BlankLexes(s: string, gap: bool)
    requires Blank(s)
    ensures Lex(s, gap) == Some([])
  {
    if s != "" { BlankLexes(s[1..], true); }
  }

  lemma {:induction false} BlankFirst(s: string, rest: string, gap: bool)
    requires Blank(s)
    ensures Lex(s + rest, gap) == Lex(rest, gap || s != "")
  {
    if s == "" {
      assert s + rest == rest;
    } else {
      assert (s + rest)[1..] == s[1..] + rest;
      BlankFirst(s[1..], rest, true);
    }
  }

  // A text is a layout of its tokens.
  lemma {:induction false} LexLayout(q: string, gap: bool, before: string) returns (gaps: seq<string>, tail: string)
    requires Lex(q, gap).Some? && Blank(before) && (before != "" <==> gap)
    ensures var toks := Lex(q, gap).value;
            Spaces(toks, gaps) && Ending(toks, tail) && before + q == Spread(toks, gaps, tail)
    decreases |q|
  {
    if q == "" {
      gaps, tail := [], before;
      assert before + q == before;
    } else if IsSpace(q[0]) {
      gaps, tail := LexLayout(q[1..], true, before + [q[0]]);
      assert before + [q[0]] + q[1..] == before + q;
    } else {
      var n := Length(q);
      gaps, tail := LexLayout(q[n..], false, "");
      var rest := Lex(q[n..], false).value;
      assert "" + q[n..] == q[n..] && q == q[..n] + q[n..];
      assert rest == [] ==> q[n..] == tail;
      hide Spread, Spaces, Ending;
      if tail != "" && rest == [] { LengthSame(q, " "); }
      LayoutToken(before, q[..n], q[n..], rest, gaps, tail);
      gaps := [before] + gaps;
    }
  }

  lemma LayoutToken(before: string, t: string, q: string, rest: seq<Tok>, gaps: seq<string>, tail: string)
    requires Blank(before) && Spaces(rest, gaps) && Ending(rest, tail) && q == Spread(rest, gaps, tail)
    requires tail != "" && rest == [] ==> Closed(t)
    ensures var toks := [Tok(before != "", t)] + rest;
            && Spaces(toks, [before] + gaps) && Ending(toks, tail)
            && before + (t + q) == Spread(toks, [before] + gaps, tail)
  {
    var toks := [Tok(before != "", t)] + rest;
    assert toks[1..] == rest && ([before] + gaps)[1..] == gaps;
    assert before + (t + q) == before + t + q;
  }

  lemma {:induction false} FirstText(q: string, gap: bool)
    requires Lex(q, gap).Some? && Lex(q, gap).value != []
    ensures var t := Lex(q, gap).value[0].text; t != "" && !IsSpace(t[0])
    decreases |q|
  {
    if IsSpace(q[0]) { FirstText(q[1..], true); }
  }

  // The first of proper tokens, and the others.
  lemma ProperFirst(toks: seq<Tok>)
    requires Proper(toks) && toks != []
    ensures var t, rest := toks[0].text, Print(toks[1..]);
            t != "" && !IsSpace(t[0]) && Length(t + rest) == |t| && Proper(toks[1..])
  {
    var t, rest := toks[0].text, Print(toks[1..]);
    FirstText(Print(toks), false);
    LexPrint(toks);
    hide Print, Length;
    LexFirst(t, rest, toks[0].gap, toks);
  }

  lemma LexPrint(toks: seq<Tok>)
    requires Proper(toks) && toks != []
    ensures Lex(toks[0].text + Print(toks[1..]), toks[0].gap) == Some(toks)
  {
    var t, rest := toks[0].text, Print(toks[1..]);
    if toks[0].gap {
      assert (" " + t + rest)[1..] == t + rest;
    } else {
      assert "" + t + rest == t + rest;
    }
  }

  lemma LexFirst(t: string, rest: string, gap: bool, toks: seq<Tok>)
    requires toks != [] && toks[0].text == t && t != "" && !IsSpace(t[0]) && Lex(t + rest, gap) == Some(toks)
    ensures Length(t + rest) == |t| && Lex(rest, false) == Some(toks[1..])
  {
    var q := t + rest;
    assert q[..Length(q)] == t;
    assert q[|t|..] == rest;
  }

  lemma PrintNone(toks: seq<Tok>)
    requires toks == []
    ensures Print(toks) == ""
  {
  }

  // However its gaps are filled, a layout of proper tokens lexes to them.
  lemma {:induction false} LayoutLexes(toks: seq<Tok>, gaps: seq<string>, tail: string)
    requires Proper(toks) && Spaces(toks, gaps) && Ending(toks, tail)
    ensures Lex(Spread(toks, gaps, tail), false) == Some(toks)
    decreases |toks|
  {
    hide Lex, Print;
    if toks == [] {
      BlankLexes(tail, false);
    } else {
      var t, rest, spread := toks[0].text, Print(toks[1..]), Spread(toks[1..], gaps[1..], tail);
      ProperFirst(toks);
      assert toks[1..] != [] ==> toks[1..][|toks| - 2] == toks[|toks| - 1];
      assert forall i :: 0 <= i < |toks| - 1 ==> toks[1..][i] == toks[i + 1] && gaps[1..][i] == gaps[i + 1];
      LayoutLexes(toks[1..], gaps[1..], tail);
      if toks[1..] != [] {
        ProperFirst(toks[1..]);
        PrintSpreadHeads(toks[1..], gaps[1..], tail);
        LengthAfter(t, rest, spread);
      } else if tail != "" {
        LengthAfter(t, " ", tail);
      } else {
        PrintNone(toks[1..]);
      }
      SpacedToken(gaps[0], t, spread);
      assert toks == [Tok(gaps[0] != "", t)] + toks[1..];
    }
  }

  lemma {:induction false} SpacedToken(space: string, t: string, rest: string)
    requires t != "" && !IsSpace(t[0]) && Length(t + rest) == |t| && Lex(rest, false).Some? && Blank(space)
    ensures Lex(space + t + rest, false) == Some([Tok(space != "", t)] + Lex(rest, false).value)
  {
    hide *;
    Joined(space, t, rest);
    BlankFirst(space, t + rest, false);
    TokenFirst(t, rest, space != "");
  }

  // A layout and the print of the same tokens start alike.
  lemma PrintSpreadHeads(toks: seq<Tok>, gaps: seq<string>, tail: string)
    requires toks != [] && Spaces(toks, gaps) && toks[0].text != ""
    ensures Follows(Print(toks), Spread(toks, gaps, tail))
  {
    assert gaps[0] != "" ==> IsSpace(gaps[0][0]);
  }

  lemma LengthAfter(t: string, x: string, y: string)
    requires t != "" && !IsSpace(t[0]) && Length(t + x) == |t| && Follows(x, y)
    ensures Length(t + y) == |t|
  {
    assert (t + x)[|t|..] == x && (t + x)[..|t|] == t;
    LengthSame(t + x, y);
  }

  /** Two statements share a cache key exactly when, comments in front aside,
      they are the same tokens laid out with different white space. */
  lemma SameKey(a: string, b: string)
    requires Normal(a).Some? && Normal(b).Some?
    ensures Normal(a) == Normal(b) <==>
            exists toks :: Proper(toks) && IsLayout(StripLeading(a), toks) && IsLayout(StripLeading(b), toks)
  {
    var x, y := StripLeading(a), StripLeading(b);
    var toks := Lex(x, false).value;
    PrintLexes(x, false);
    PrintLexes(y, false);
    var gaps, tail := LexLayout(x, false, "");
    var gaps', tail' := LexLayout(y, false, "");
    assert "" + x == x && "" + y == y;
    if Normal(a) == Normal(b) {
      assert Proper(toks) && IsLayout(x, toks) && IsLayout(y, toks);
    }
    if toks :| Proper(toks) && IsLayout(x, toks) && IsLayout(y, toks) {
      LayoutOf(x, toks);
      LayoutOf(y, toks);
    }
  }

  lemma LayoutOf(q: string, toks: seq<Tok>)
    requires Proper(toks) && IsLayout(q, toks)
    ensures Lex(q, false) == Some(toks)
  {
    var gaps, tail :| Spaces(toks, gaps) && Ending(toks, tail) && q == Spread(toks, gaps, tail);
    LayoutLexes(toks, gaps, tail);
  }

  // --- one character at a time ---

  /** A scanner one character at a time: outside literals, inside one, after a
      backslash in it, or after a quote that may be doubled. */
  datatype Mode = Outside | Inside(quote: char) | Escaped(quote: char) | Closing(quote: char)

  function Advance(mode: Mode, c: char): Mode {
    match mode
    case Inside(quote) =>
      if c == '\\' && quote != '`' then Escaped(quote) else if c == quote then Closing(quote) else mode
    case Escaped(quote) => Inside(quote)
    case Closing(quote) => if c == quote then Inside(quote) else if IsQuote(c) then Inside(c) else Outside
    case Outside => if IsQuote(c) then Inside(c) else Outside
  }

  /** Normalizing with that scanner: white space outside literals becomes one
      space in front of the next character, everything else stays. */
  function Collapsed(mode: Mode, q: string, gap: bool): string
    decreases |q|
  {
    if q == "" then ""
    else if IsSpace(q[0]) && (mode.Outside? || mode.Closing?) then Collapsed(Outside, q[1..], true)
    else (if gap then " " else "") + [q[0]] + Collapsed(Advance(mode, q[0]), q[1..], false)
  }

  lemma CopyOne(mode: Mode, q: string)
    requires q != "" && (IsSpace(q[0]) ==> !mode.Outside? && !mode.Closing?)
    ensures Collapsed(mode, q, false) == [q[0]] + Collapsed(Advance(mode, q[0]), q[1..], false)
  {
  }

  lemma CopyMore(s: string, k: nat, n: nat, rest: string)
    requires k <= n <= |s|
    ensures s[..k] + (s[k..][..n - k] + rest) == s[..n] + rest && s[k..][n - k..] == s[n..]
  {
  }

  // After a closing quote, anything but another is outside.
  lemma AfterRun(s: string, quote: char)
    requires s != "" ==> s[0] != quote
    ensures Collapsed(Closing(quote), s, false) == Collapsed(Outside, s, false)
  {
  }

  // Two characters of a run: a backslash and what it escapes, or a doubled quote.
  lemma CopyTwo(s: string, quote: char)
    requires |s| > 1 && IsQuote(quote) && ((s[0] == '\\' && quote != '`') || (s[0] == quote && s[1] == quote))
    ensures Collapsed(Inside(quote), s, false) == s[..2] + Collapsed(Inside(quote), s[2..], false)
  {
    var mode := if s[0] == quote then Closing(quote) else Escaped(quote);
    var rest := Collapsed(Inside(quote), s[2..], false);
    assert Advance(Inside(quote), s[0]) == mode && Advance(mode, s[1]) == Inside(quote);
    assert s[1..][0] == s[1] && s[1..][1..] == s[2..];
    hide Collapsed, Advance;
    CopyOne(Inside(quote), s);
    CopyOne(mode, s[1..]);
    assert [s[0]] + ([s[1]] + rest) == s[..2] + rest;
  }

  // A quoted run is copied.
  lemma {:induction false} RunCopied(s: string, quote: char)
    requires IsQuote(quote) && Skip(s, quote) <= |s|
    ensures var n := Skip(s, quote); Collapsed(Inside(quote), s, false) == s[..n] + Collapsed(Outside, s[n..], false)
    decreases |s|
  {
    var n := Skip(s, quote);
    if s == "" {
      assert s[..n] + Collapsed(Outside, s[n..], false) == "";
    } else {
      hide Collapsed;
      var rest := Collapsed(Outside, s[n..], false);
      if (s[0] == '\\' && quote != '`') || (s[0] == quote && |s| > 1 && s[1] == quote) {
        CopyTwo(s, quote);
        RunCopied(s[2..], quote);
        CopyMore(s, 2, n, rest);
      } else {
        CopyOne(Inside(quote), s);
        assert s[..1] == [s[0]];
        if s[0] == quote {
          AfterRun(s[1..], quote);
        } else {
          RunCopied(s[1..], quote);
          CopyMore(s, 1, n, rest);
        }
      }
    }
  }

  // One token copied, with its space in front.
  lemma TokenCopied(q: string, gap: bool)
    requires q != "" && !IsSpace(q[0]) && Length(q) <= |q|
    ensures Collapsed(Outside, q, gap) == (if gap then " " else "") + q[..Length(q)] + Collapsed(Outside, q[Length(q)..], false)
  {
    var space, rest := if gap then " " else "", Collapsed(Outside, q[Length(q)..], false);
    assert Collapsed(Outside, q, gap) == space + [q[0]] + Collapsed(Advance(Outside, q[0]), q[1..], false);
    if IsQuote(q[0]) {
      RunCopied(q[1..], q[0]);
      hide Collapsed;
      CopyMore(q, 1, Length(q), rest);
    }
    assert q[..1] == [q[0]];
  }

  lemma PrintToken(t: string, gap: bool, rest: seq<Tok>)
    ensures Print([Tok(gap, t)] + rest) == (if gap then " " else "") + t + Print(rest)
  {
    assert ([Tok(gap, t)] + rest)[1..] == rest;
  }

  lemma {:induction false} PrintIsCollapsed(q: string, gap: bool)
    requires Lex(q, gap).Some?
    ensures Print(Lex(q, gap).value) == Collapsed(Outside, q, gap)
    decreases |q|
  {
    if q != "" {
      if IsSpace(q[0]) {
        PrintIsCollapsed(q[1..], true);
      } else {
        var n := Length(q);
        PrintIsCollapsed(q[n..], false);
        TokenCopied(q, gap);
        PrintToken(q[..n], gap, Lex(q[n..], false).value);
        hide Collapsed, Print;
      }
    }
  }

  /** Normalize jumps from the start of a literal to its end, and that is the
      same as going one character at a time: literals are copied untouched,
      and every other run of white space becomes one space. */
  lemma NormalIsCollapsed(query: string)
    requires Normal(query).Some?
    ensures Normal(query).value == Collapsed(Outside, StripLeading(query), false)
  {
    PrintIsCollapsed(StripLeading(query), false);
  }

  // --- the statements that make the source panic ---

  function Scan(mode: Mode, q: string): Mode
    decreases |q|
  {
    if q == "" then mode else Scan(Advance(mode, q[0]), q[1..])
  }

  lemma {:induction false} SkipScans(s: string, quote: char)
    requires IsQuote(quote)
    ensures var n := Skip(s, quote);
            && (n == |s| + 1 <==> Scan(Inside(quote), s) == Escaped(quote) && n >= |s|)
            && (n < |s| ==> s[n] != quote && Scan(Inside(quote), s) == Scan(Closing(quote), s[n..]))
            && (n == |s| ==> !Scan(Inside(quote), s).Escaped?)
    decreases |s|
  {
    if s != "" {
      if (s[0] == '\\' && quote != '`') || (s[0] == quote && |s| > 1 && s[1] == quote) {
        if |s| > 1 {
          assert s[1..][1..] == s[2..];
          SkipScans(s[2..], quote);
        }
      } else if s[0] != quote {
        SkipScans(s[1..], quote);
      }
    }
  }

  // A quoted run leaves the scanner where it would be outside, or inside for good.
  lemma QuotedScan(q: string)
    requires q != "" && IsQuote(q[0])
    ensures var n := Length(q);
            Scan(Outside, q).Escaped? <==> n > |q| || Scan(Outside, q[n..]).Escaped?
  {
    var n := Length(q);
    SkipScans(q[1..], q[0]);
    if n < |q| {
      assert q[1..][n - 1..] == q[n..] && q[n] == q[1..][n - 1];
      assert Advance(Closing(q[0]), q[n]) == Advance(Outside, q[n]);
    } else if n == |q| {
      assert q[n..] == "";
    }
  }

  /** Normalize panics exactly on the statements that end, inside a literal,
      on a backslash that escapes nothing. */
  lemma {:induction false} LexFails(q: string, gap: bool)
    ensures Lex(q, gap) == None <==> Scan(Outside, q).Escaped?
    decreases |q|
  {
    if q != "" {
      if IsQuote(q[0]) {
        QuotedScan(q);
        if Length(q) <= |q| { LexFails(q[Length(q)..], false); }
      } else {
        LexFails(q[1..], IsSpace(q[0]));
      }
    }
  }

  // --- the loop ---

  method SkipQuoted(q: string, start: nat) returns (end: nat)
    requires start < |q| && IsQuote(q[start])
    ensures end == start + Length(q[start..])
  {
    var quote := q[start];
    var i := start + 1;
    assert q[start..][1..] == q[i..];
    while i < |q|
      invariant start < i <= |q| + 1
      invariant i <= |q| ==> i - start + Skip(q[i..], quote) == Length(q[start..])
      invariant i > |q| ==> i - start == Length(q[start..])
    {
      if q[i] == '\\' {
        if quote == '`' {
          assert q[i..][1..] == q[i + 1..];
          i := i + 1;
          continue;
        }
        assert i + 1 < |q| ==> q[i..][2..] == q[i + 2..];
        i := i + 2;
      } else if q[i] == quote {
        if i + 1 < |q| && q[i + 1] == quote {
          assert q[i..][2..] == q[i + 2..];
          i := i + 2;
          continue;
        }
        return i + 1;
      } else {
        assert q[i..][1..] == q[i + 1..];
        i := i + 1;
      }
    }
    return i;
  }

  // What the loop has written, and what the rest of the text will add.
  function Written(b: string, q: string, gap: bool): Option<string> {
    match Lex(q, gap)
    case None => None
    case Some(toks) => Some(b + Print(toks))
  }

  lemma WriteToken(b: string, q: string, gap: bool)
    requires q != "" && !IsSpace(q[0])
    ensures Length(q) > |q| ==> Written(b, q, gap) == None
    ensures Length(q) <= |q| ==>
              Written(b, q, gap) == Written(b + (if gap then " " else "") + q[..Length(q)], q[Length(q)..], false)
  {
    if Length(q) <= |q| {
      var rest := Lex(q[Length(q)..], false);
      if rest.Some? {
        var t, p := (if gap then " " else "") + q[..Length(q)], Print(rest.value);
        assert ([Tok(gap, q[..Length(q)])] + rest.value)[1..] == rest.value;
        assert b + (t + p) == b + (if gap then " " else "") + q[..Length(q)] + p;
      }
    }
  }

  /** Normalize as the source runs it; None where its slice would panic. */
  method Run(query: string) returns (r: Option<string>)
    ensures r == Normal(query)
  {
    var q := Strip(query);
    StripDone(query);
    assert forall toks :: "" + Print(toks) == Print(toks);
    assert Written("", q, false) == Normal(query);
    var b, pendingSpace, i := "", false, 0;
    assert q[0..] == q;
    while i < |q|
      invariant 0 <= i <= |q| && (b == "" ==> i == 0)
      invariant Written(b, q[i..], pendingSpace) == Normal(query)
    {
      var ch := q[i];
      assert q[i..][1..] == q[i + 1..];
      if IsSpace(ch) {
        i := i + 1;
        if |b| > 0 { pendingSpace := true; }
      } else {
        hide Lex, Print, Normal, Written;
        WriteToken(b, q[i..], pendingSpace);
        var end := i + 1;
        if IsQuote(ch) { end := SkipQuoted(q, i); }
        if end > |q| { return None; }
        assert q[i..][..end - i] == q[i..end] && q[i..][end - i..] == q[end..];
        if pendingSpace {
          b := b + " ";
          pendingSpace := false;
        } else {
          assert b + "" == b;
        }
        b := b + q[i..end];
        i := end;
      }
    }
    assert b + "" == b;
    return Some(b);
  }
}
