/** Session variables and their replay (internal/proxy/session.go, trackSet;
    internal/proxy/safety.go, varSignature). */
module Environment {
  import opened Common

  const NUL := '\0'
  const MAX_TRACKED_SETS := 20

  /** What SET statements do to the variables of a connection. */
  datatype Server<!E> = Server(initial: E, apply: (E, string) -> E)

  function Replay<E>(m: Server<E>, env: E, sets: seq<string>): E
    decreases |sets|
  {
    if sets == [] then env else m.apply(Replay(m, env, sets[..|sets| - 1]), sets[|sets| - 1])
  }

  /** varSignature: the tracked statements joined by NUL. */
  function Signature(sets: seq<string>): string {
    if sets == [] then "" else if |sets| == 1 then sets[0] else sets[0] + [NUL] + Signature(sets[1..])
  }

  predicate Trackable(text: string) { text != "" && NUL !in text }

  predicate AllTrackable(sets: seq<string>) { forall i :: 0 <= i < |sets| ==> Trackable(sets[i]) }

  function FirstNul(s: string): nat { if s == "" || s[0] == NUL then 0 else 1 + FirstNul(s[1..]) }

  lemma {:induction false} FirstNulOf(a: string, x: string)
    requires NUL !in a
    ensures FirstNul(a + [NUL] + x) == |a|
  {
    if a != "" {
      assert (a + [NUL] + x)[1..] == a[1..] + [NUL] + x;
      FirstNulOf(a[1..], x);
    }
  }

  lemma HeadOfJoin(a: string, x: string, b: string, y: string)
    requires NUL !in a && NUL !in b && a + [NUL] + x == b + [NUL] + y
    ensures a == b && x == y
  {
    var s := a + [NUL] + x;
    FirstNulOf(a, x);
    FirstNulOf(b, y);
    assert a == s[..|a|] && b == s[..|b|] && x == s[|a| + 1..] && y == s[|b| + 1..];
  }

  /** Two sessions have the same signature only with the same statements, in
      the same order. */
  lemma {:induction false} SignatureInjective(x: seq<string>, y: seq<string>)
    requires AllTrackable(x) && AllTrackable(y) && Signature(x) == Signature(y)
    ensures x == y
  {
    if x == [] {
      assert y == [] by { SignatureShape(y); }
    } else if y == [] {
      SignatureShape(x);
    } else {
      SignatureShape(x);
      SignatureShape(y);
      if |x| > 1 && |y| > 1 {
        HeadOfJoin(x[0], Signature(x[1..]), y[0], Signature(y[1..]));
        SignatureInjective(x[1..], y[1..]);
        assert x == [x[0]] + x[1..] && y == [y[0]] + y[1..];
      }
    }
  }

  lemma SignatureShape(x: seq<string>)
    requires AllTrackable(x)
    ensures x == [] <==> Signature(x) == ""
    ensures |x| == 1 ==> NUL !in Signature(x)
    ensures |x| > 1 ==> Signature(x)[|x[0]|..][..1] == [NUL] && NUL in Signature(x)
  {
    if |x| > 1 {
      assert Signature(x)[|x[0]|] == NUL;
    } else if |x| == 1 {
      assert Trackable(x[0]);
    }
  }

  /** The tracked list after a SET: a statement already in it is not repeated. */
  function Track(sets: seq<string>, text: string): seq<string> {
    if text in sets then sets else sets + [text]
  }

  /** What is replayed is what was sent, for a statement tracked for the first
      time always, and for one sent again exactly when it changes nothing. */
  lemma TrackReplays<E>(m: Server<E>, sets: seq<string>, text: string)
    ensures Replay(m, m.initial, Track(sets, text)) == m.apply(Replay(m, m.initial, sets), text)
            <==> text !in sets || m.apply(Replay(m, m.initial, sets), text) == Replay(m, m.initial, sets)
  {
    assert (sets + [text])[..|sets|] == sets;
  }

  // --- SET as an assignment to one variable ---

  datatype Assign = Assign(variable: string, value: string)

  /** Variables as a map, each statement assigning one of them. */
  function Assigning(meaning: string -> Assign): Server<map<string, string>> {
    Server(map[], (env: map<string, string>, text: string) => env[meaning(text).variable := meaning(text).value])
  }

  // Whether the last statement on the variable of text is text's own assignment.
  predicate Current(meaning: string -> Assign, sets: seq<string>, text: string)
    decreases |sets|
  {
    sets != [] && var last := sets[|sets| - 1];
    if meaning(last).variable == meaning(text).variable then meaning(last).value == meaning(text).value
    else Current(meaning, sets[..|sets| - 1], text)
  }

  lemma {:induction false} CurrentIsNoop(meaning: string -> Assign, sets: seq<string>, text: string)
    ensures var m := Assigning(meaning); var env := Replay(m, m.initial, sets);
            Current(meaning, sets, text) <==>
            meaning(text).variable in env && env[meaning(text).variable] == meaning(text).value
    decreases |sets|
  {
    if sets != [] { CurrentIsNoop(meaning, sets[..|sets| - 1], text); }
  }

  /** For assignments: replaying reproduces the variables exactly when a
      statement sent again is still the last word on its variable. */
  lemma AssignReplays(meaning: string -> Assign, sets: seq<string>, text: string)
    ensures var m := Assigning(meaning);
            Replay(m, m.initial, Track(sets, text)) == m.apply(Replay(m, m.initial, sets), text)
            <==> text !in sets || Current(meaning, sets, text)
  {
    var m := Assigning(meaning);
    var env := Replay(m, m.initial, sets);
    TrackReplays(m, sets, text);
    CurrentIsNoop(meaning, sets, text);
    var a := meaning(text);
    assert env[a.variable := a.value] == env <==> a.variable in env && env[a.variable] == a.value;
  }

  /** A, B, A on one variable replays as A, B. */
  lemma ABA(meaning: string -> Assign, a: string, b: string)
    requires meaning(a).variable == meaning(b).variable && meaning(a).value != meaning(b).value
    ensures var m := Assigning(meaning);
            Replay(m, m.initial, Track(Track(Track([], a), b), a)) != Replay(m, m.initial, [a, b, a])
  {
    var m := Assigning(meaning);
    assert Track(Track(Track([], a), b), a) == [a, b];
    assert [a, b][..1] == [a] && [a][..0] == [] && [a, b, a][..2] == [a, b];
    var env := Replay(m, m.initial, [a, b]);
    assert env == m.apply(Replay(m, m.initial, [a]), b);
    assert Replay(m, m.initial, [a, b, a]) == m.apply(env, a);
    assert m.apply(env, a)[meaning(a).variable] == meaning(a).value;
    assert env[meaning(a).variable] == meaning(b).value;
  }
}
