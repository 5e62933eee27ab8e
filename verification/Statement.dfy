/** SQL text without a grammar: what a statement is, and which statements are
    one cache key (internal/statement). Strings stand for bytes. */
module Statement {
  import opened Common

  datatype Kind = Other | Select | Write | Begin | Commit | Rollback | Unsafe

  predicate IsSpace(c: char) { c == ' ' || c == '\t' || c == '\r' || c == '\n' }

  predicate IsQuote(c: char) { c == '\'' || c == '"' || c == '`' }

  function TrimLeft(q: string): (r: string)
    ensures |r| <= |q| && (r != "" ==> !IsSpace(r[0]))
  {
    if q != "" && IsSpace(q[0]) then TrimLeft(q[1..]) else q
  }

  // Just past the first star-slash; |q| + 1 when there is none.
  function CommentEnd(q: string): (n: nat)
    ensures 2 <= n || n == |q| + 1
    ensures n <= |q| ==> q[n - 2] == '*' && q[n - 1] == '/'
  {
    if |q| < 2 then |q| + 1
    else if q[0] == '*' && q[1] == '/' then 2
    else 1 + CommentEnd(q[1..])
  }

  // A statement without the comments and white space in front. The end of a
  // comment is looked for from its start, so slash-star-slash is a whole one.
  function StripLeading(q: string): (r: string)
    ensures |r| <= |q| && (r != "" ==> !IsSpace(r[0]))
    decreases |q|
  {
    var t := TrimLeft(q);
    if |t| >= 2 && t[0] == '/' && t[1] == '*' then
      if CommentEnd(t) > |t| then "" else StripLeading(t[CommentEnd(t)..])
    else t
  }

  method Strip(query: string) returns (q: string)
    ensures q == StripLeading(query)
  {
    q := query;
    while true
      invariant StripLeading(q) == StripLeading(query)
      decreases |q|
    {
      q := TrimLeft(q);
      if |q| < 2 || q[0] != '/' || q[1] != '*' {
        TrimOnce(q);
        return;
      }
      TrimOnce(q);
      var end := CommentEnd(q);
      if end > |q| { return ""; }
      q := q[end..];
    }
  }

  lemma TrimOnce(q: string)
    requires q != "" ==> !IsSpace(q[0])
    ensures TrimLeft(q) == q
  {
  }

  // --- what is in front of a statement does not matter ---

  lemma LeadingSpace(c: char, q: string)
    requires IsSpace(c)
    ensures StripLeading([c] + q) == StripLeading(q)
  {
    assert ([c] + q)[1..] == q;
  }

  lemma {:induction false} CommentEndAt(s: string, n: nat, q: string)
    requires n + 2 == |s| && s[n] == '*' && s[n + 1] == '/'
    requires forall i :: 0 <= i < n ==> !(s[i] == '*' && s[i + 1] == '/')
    ensures CommentEnd(s + q) == |s|
  {
    if n > 0 {
      assert (s + q)[1..] == s[1..] + q;
      assert forall i :: 0 <= i < |s[1..]| ==> s[1..][i] == s[i + 1];
      CommentEndAt(s[1..], n - 1, q);
    }
  }

  /** A comment, whatever it says, makes no other statement. */
  lemma LeadingComment(comment: string, q: string)
    requires |comment| >= 3 && comment[0] == '/' && comment[1] == '*'
    requires comment[|comment| - 2] == '*' && comment[|comment| - 1] == '/'
    requires forall i :: 0 <= i < |comment| - 2 ==> !(comment[i] == '*' && comment[i + 1] == '/')
    ensures StripLeading(comment + q) == StripLeading(q)
  {
    var s := comment + q;
    CommentEndAt(comment, |comment| - 2, q);
    TrimOnce(s);
    assert s[|comment|..] == q;
  }

  /** And nothing else is taken away: a statement stays as it is exactly when it
      starts with neither white space nor a comment. */
  lemma StripsNothingElse(q: string)
    ensures StripLeading(q) == q <==> q == "" || (!IsSpace(q[0]) && !("/*" <= q))
  {
    if q != "" && !IsSpace(q[0]) {
      TrimOnce(q);
      assert "/*" <= q <==> |q| >= 2 && q[0] == '/' && q[1] == '*';
    }
  }

  /** Of a comment that never ends nothing is left. */
  lemma OpenComment(q: string)
    requires "/*" <= q && forall i :: 0 <= i < |q| - 1 ==> !(q[i] == '*' && q[i + 1] == '/')
    ensures StripLeading(q) == ""
  {
    TrimOnce(q);
    assert q[0] == '/' && q[1] == '*';
    assert CommentEnd(q) > |q|;
  }
}
