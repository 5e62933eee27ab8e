/** When a session is pinned to its connection, and when it gives it back, from
    what it did alone (internal/proxy/session.go, trackSet, trackSafety and
    releasable). */
module Pinning {
  import opened Common
  import opened Environment
  import opened Multiplex
  import opened Sharing

  /** What a session has done since its last reset or close, oldest first. */
  function Since<E>(actions: seq<Action<E>>, s: nat): seq<Action<E>>
    decreases |actions|
  {
    if actions == [] then [] else SinceStep(Since(actions[..|actions| - 1], s), actions[|actions| - 1], s)
  }

  function SinceStep<E>(mine: seq<Action<E>>, a: Action<E>, s: nat): seq<Action<E>> {
    match a
    case Exec(r, _) => if r == s then mine + [a] else mine
    case PrepareStmt(r) => if r == s then mine + [a] else mine
    case CloseStmt(r, _) => if r == s then mine + [a] else mine
    case Lose(r) => if r == s then mine + [a] else mine
    case Reset(r, _) => if r == s then [] else mine
    case Close(r, _) => if r == s then [] else mine
    case _ => mine
  }

  // The different SETs among them that can be replayed.
  function SetTexts<E>(mine: seq<Action<E>>): set<string> {
    set i | 0 <= i < |mine| && mine[i].Exec? && mine[i].q.action.SetTrack? :: mine[i].q.text
  }

  // One of them left state that is detected, or was a SET that cannot be replayed.
  predicate LeavesState<E>(mine: seq<Action<E>>) {
    exists i :: 0 <= i < |mine| && mine[i].Exec? && (mine[i].q.pins || mine[i].q.action.SetPin?)
  }

  /** Such a statement, or more different SETs than are tracked. */
  predicate PinnedBy<E>(mine: seq<Action<E>>) { LeavesState(mine) || |SetTexts(mine)| > MAX_TRACKED_SETS }

  // Whether the last statement left a transaction open, as the session tells
  // it, and as the connection does, which may be another one since.
  function InTxAfter<E>(mine: seq<Action<E>>): bool {
    if mine == [] then false
    else
      match mine[|mine| - 1]
      case Exec(_, q) => q.inTx
      case _ => InTxAfter(mine[..|mine| - 1])
  }

  function OpenTxAfter<E>(mine: seq<Action<E>>): bool {
    if mine == [] then false
    else
      match mine[|mine| - 1]
      case Exec(_, q) => q.tx
      case Lose(_) => false
      case _ => OpenTxAfter(mine[..|mine| - 1])
  }

  // Statements prepared and not closed.
  function Handles<E>(mine: seq<Action<E>>): int {
    if mine == [] then 0
    else
      match mine[|mine| - 1]
      case PrepareStmt(_) => Handles(mine[..|mine| - 1]) + 1
      case CloseStmt(_, _) => Handles(mine[..|mine| - 1]) - 1
      case _ => Handles(mine[..|mine| - 1])
  }

  // What a session remembers of its SETs: the different ones, up to the cap.
  ghost predicate RemembersSets(sets: seq<string>, texts: set<string>) {
    && NoRepeats(sets) && (forall text :: text in sets ==> text in texts)
    && |sets| == (if |texts| > MAX_TRACKED_SETS then MAX_TRACKED_SETS else |texts|)
    && (|texts| <= MAX_TRACKED_SETS ==> forall text :: text in texts ==> text in sets)
  }

  // What a session notes of itself.
  datatype Notes = Notes(pinned: bool, inTx: bool, openStmts: int, setStmts: seq<string>)

  function NotesOf<E>(x: Client<E>): Notes { Notes(x.pinned, x.inTx, x.openStmts, x.setStmts) }

  ghost predicate KnowsItself<E>(x: Notes, mine: seq<Action<E>>) {
    && (x.pinned <==> PinnedBy(mine)) && x.inTx == InTxAfter(mine) && x.openStmts == Handles(mine)
    && RemembersSets(x.setStmts, SetTexts(mine))
  }

  // Whether a transaction is open on the connection a session holds.
  predicate OpenTx<E>(t: State<E>, s: nat)
    requires s < |t.clients|
  {
    t.clients[s].conn.Some? && t.clients[s].conn.value in t.links && t.links[t.clients[s].conn.value].tx
  }

  lemma TextsNext<E>(mine: seq<Action<E>>, a: Action<E>)
    ensures SetTexts(mine + [a]) == SetTexts(mine) + if a.Exec? && a.q.action.SetTrack? then {a.q.text} else {}
  {
    var longer := mine + [a];
    assert longer[|mine|] == a && forall i :: 0 <= i < |mine| ==> longer[i] == mine[i];
    forall text | text in SetTexts(mine) ensures text in SetTexts(longer) {
      var i :| 0 <= i < |mine| && mine[i].Exec? && mine[i].q.action.SetTrack? && mine[i].q.text == text;
      assert longer[i].q.text == text;
    }
  }

  lemma LeavesNext<E>(mine: seq<Action<E>>, a: Action<E>)
    ensures LeavesState(mine + [a]) <==> LeavesState(mine) || (a.Exec? && (a.q.pins || a.q.action.SetPin?))
  {
    var longer := mine + [a];
    assert longer[|mine|] == a && forall i :: 0 <= i < |mine| ==> longer[i] == mine[i];
    if i :| 0 <= i < |mine| && mine[i].Exec? && (mine[i].q.pins || mine[i].q.action.SetPin?) { assert longer[i].Exec?; }
  }

  lemma CardSubset(x: set<string>, y: set<string>)
    requires x <= y
    ensures |x| <= |y|
  {
    assert y == x + (y - x);
  }

  // A SET that can be replayed: what the session remembers, and when it pins.
  lemma RemembersNext(sets: seq<string>, texts: set<string>, text: string)
    requires RemembersSets(sets, texts)
    ensures var sets' := if |sets| < MAX_TRACKED_SETS then Track(sets, text) else sets;
            && RemembersSets(sets', texts + {text})
            && (text in sets' || |texts + {text}| > MAX_TRACKED_SETS)
            && (|texts + {text}| > MAX_TRACKED_SETS ==> |texts| > MAX_TRACKED_SETS || text !in sets')
  {
    if text in texts {
      assert texts + {text} == texts;
    } else {
      assert |texts + {text}| == |texts| + 1;
    }
  }

  // What is remembered after a statement, and whether that takes it over the cap.
  lemma SetKnows<E>(sets: seq<string>, mine: seq<Action<E>>, a: Action<E>)
    requires RemembersSets(sets, SetTexts(mine)) && a.Exec?
    ensures var tracked := a.q.action.SetTrack?;
            var sets' := if tracked && |sets| < MAX_TRACKED_SETS then Track(sets, a.q.text) else sets;
            && RemembersSets(sets', SetTexts(mine + [a]))
            && (|SetTexts(mine + [a])| > MAX_TRACKED_SETS <==>
                |SetTexts(mine)| > MAX_TRACKED_SETS || (tracked && a.q.text !in sets'))
  {
    TextsNext(mine, a);
    CardSubset(SetTexts(mine), SetTexts(mine + [a]));
    if a.q.action.SetTrack? { RemembersNext(sets, SetTexts(mine), a.q.text); }
    hide SetTexts, RemembersSets, Track;
  }

  lemma ExecKnows<E>(m: Server<E>, x: Client<E>, mine: seq<Action<E>>, a: Action<E>)
    requires KnowsItself(NotesOf(x), mine) && a.Exec?
    ensures KnowsItself(NotesOf(Tracked(m, x, a.q)), mine + [a])
  {
    assert (mine + [a])[..|mine|] == mine;
    SetKnows(x.setStmts, mine, a);
    LeavesNext(mine, a);
    hide SetTexts, Change, Signature, RemembersSets, LeavesState, Track;
  }

  // Nothing else changes what a session remembers of its SETs, or pins it.
  lemma OtherKnows<E>(mine: seq<Action<E>>, a: Action<E>)
    requires !a.Exec?
    ensures SetTexts(mine + [a]) == SetTexts(mine) && (PinnedBy(mine + [a]) <==> PinnedBy(mine))
    ensures InTxAfter(mine + [a]) == InTxAfter(mine)
    ensures OpenTxAfter(mine + [a]) == (OpenTxAfter(mine) && !a.Lose?)
    ensures Handles(mine + [a]) == Handles(mine) + if a.PrepareStmt? then 1 else if a.CloseStmt? then -1 else 0
  {
    assert (mine + [a])[..|mine|] == mine;
    TextsNext(mine, a);
    LeavesNext(mine, a);
  }

  // What a step changes in the notes of a session.
  lemma StepNotes<E>(m: Server<E>, t: State<E>, a: Action<E>, s: nat)
    requires Enabled(m, t, a) && s < |t.clients|
    ensures |Next(m, t, a).clients| == |t.clients|
    ensures var x, x' := t.clients[s], NotesOf(Next(m, t, a).clients[s]);
            match a
            case Exec(r, q) => x' == NotesOf(if r == s then Tracked(m, x, q) else x)
            case PrepareStmt(r) => x' == NotesOf(x).(openStmts := x.openStmts + if r == s then 1 else 0)
            case CloseStmt(r, _) => x' == NotesOf(x).(openStmts := x.openStmts - if r == s then 1 else 0)
            case Reset(r, _) => x' == if r == s then Notes(false, false, 0, []) else NotesOf(x)
            case Close(r, _) => x' == if r == s then Notes(false, false, 0, []) else NotesOf(x)
            case _ => x' == NotesOf(x)
  {
    hide Prepared, Executed, ResetLink, Tracked, Signature;
  }

  lemma ClientKnows<E>(m: Server<E>, t: State<E>, a: Action<E>, s: nat, mine: seq<Action<E>>)
    requires Enabled(m, t, a) && s < |t.clients| && KnowsItself(NotesOf(t.clients[s]), mine)
    ensures s < |Next(m, t, a).clients| && KnowsItself(NotesOf(Next(m, t, a).clients[s]), SinceStep(mine, a, s))
  {
    StepNotes(m, t, a, s);
    if a.Exec? {
      if a.s == s { ExecKnows(m, t.clients[s], mine, a); }
    } else {
      OtherKnows(mine, a);
      Fresh<E>();
    }
    hide Next, Enabled, Tracked, SetTexts, RemembersSets, PinnedBy, InTxAfter, Handles;
  }

  lemma Fresh<E>()
    ensures SetTexts<E>([]) == {} && !PinnedBy<E>([]) && !InTxAfter<E>([]) && !OpenTxAfter<E>([]) && Handles<E>([]) == 0
    ensures RemembersSets([], SetTexts<E>([]))
  {
  }

  // What a step makes of that transaction.
  function TxAfter<E>(a: Action<E>, s: nat, was: bool): bool {
    match a
    case Exec(r, q) => if r == s then q.tx else was
    case Reset(r, _) => r != s && was
    case Close(r, _) => r != s && was
    case Lose(r) => r != s && was
    case _ => was
  }

  predicate OfPool<E>(a: Action<E>) {
    a.DialStart? || a.DialFail? || a.DialDone? || a.TakeOut? || a.PutBack? || a.Discard? || a.Attach?
  }

  lemma PoolTx<E>(m: Server<E>, t: State<E>, a: Action<E>, s: nat)
    requires Inv(m, t) && Enabled(m, t, a) && s < |t.clients| && OfPool(a)
    ensures |Next(m, t, a).clients| == |t.clients| && OpenTx(Next(m, t, a), s) == OpenTx(t, s)
  {
    assert SessionOk(m, t, s);
    if t.clients[s].conn.Some? { assert LinkOk(m, t, t.clients[s].conn.value); }
    if a.Attach? {
      assert LinkOk(m, t, a.id);
      PreparedTx(m, t.links[a.id], t.clients[a.s]);
    }
    if a.TakeOut? { assert PoolOk(t, a.p) && t.pools[a.p].idle[a.i] in t.pools[a.p].idle; }
    hide Prepared, ResetLink, Tracked, Signature, PairOk, ClientOk, Inv, PoolOk, CleanLink;
  }

  lemma OwnTx<E>(m: Server<E>, t: State<E>, a: Action<E>)
    requires Inv(m, t) && Enabled(m, t, a) && !OfPool(a)
    ensures |Next(m, t, a).clients| == |t.clients| && OpenTx(Next(m, t, a), a.s) == TxAfter(a, a.s, OpenTx(t, a.s))
  {
    assert SessionOk(m, t, a.s);
    hide Prepared, ResetLink, Tracked, Signature, PairOk, ClientOk, Inv, PoolOk, CleanLink, Change;
  }

  // What another session does stays on its own connection.
  lemma OthersTx<E>(m: Server<E>, t: State<E>, a: Action<E>, s: nat)
    requires Inv(m, t) && Enabled(m, t, a) && s < |t.clients| && !OfPool(a) && a.s != s
    ensures |Next(m, t, a).clients| == |t.clients| && OpenTx(Next(m, t, a), s) == OpenTx(t, s)
  {
    assert SessionOk(m, t, s) && SessionOk(m, t, a.s);
    hide Prepared, Executed, ResetLink, Tracked, Signature, PairOk, ClientOk, Inv, PoolOk, CleanLink, Forgotten, Change;
  }

  lemma StepTx<E>(m: Server<E>, t: State<E>, a: Action<E>, s: nat)
    requires Inv(m, t) && Enabled(m, t, a) && s < |t.clients|
    ensures |Next(m, t, a).clients| == |t.clients| && OpenTx(Next(m, t, a), s) == TxAfter(a, s, OpenTx(t, s))
  {
    if OfPool(a) {
      PoolTx(m, t, a, s);
    } else if a.s == s {
      OwnTx(m, t, a);
    } else {
      OthersTx(m, t, a, s);
    }
    hide Inv, Enabled, Next, OpenTx;
  }

  lemma TxKnows<E>(mine: seq<Action<E>>, a: Action<E>, s: nat)
    ensures OpenTxAfter(SinceStep(mine, a, s)) == TxAfter(a, s, OpenTxAfter(mine))
  {
    assert (mine + [a])[..|mine|] == mine;
  }

  lemma {:induction false} RunKnows<E>(m: Server<E>, run: seq<State<E>>, actions: seq<Action<E>>, k: nat, s: nat)
    requires IsRun(m, run, actions) && k < |run| && s < |run[0].clients|
    ensures var mine := Since(actions[..k], s);
            |run[k].clients| == |run[0].clients|
            && KnowsItself(NotesOf(run[k].clients[s]), mine) && OpenTx(run[k], s) == OpenTxAfter(mine)
  {
    if k == 0 {
      Fresh<E>();
    } else {
      RunKnows(m, run, actions, k - 1, s);
      RunKeeps(m, run, actions, k - 1);
      assert Moves(m, run, actions, k - 1);
      assert actions[..k][..k - 1] == actions[..k - 1];
      hide Next, Enabled, Start, Inv, IsRun, KnowsItself, NotesOf, OpenTx, OpenTxAfter, SinceStep, TxAfter;
      ClientKnows(m, run[k - 1], actions[k - 1], s, Since(actions[..k - 1], s));
      StepTx(m, run[k - 1], actions[k - 1], s);
      TxKnows(Since(actions[..k - 1], s), actions[k - 1], s);
    }
  }

  /** In every run a session is pinned exactly when, since its last reset or
      close, it sent a statement that leaves state, or a SET that cannot be
      replayed, or more different SETs than are tracked. */
  lemma PinnedWhen<E>(m: Server<E>, run: seq<State<E>>, actions: seq<Action<E>>, k: nat, s: nat)
    requires IsRun(m, run, actions) && k < |run| && s < |run[0].clients|
    ensures s < |run[k].clients| && (run[k].clients[s].pinned <==> PinnedBy(Since(actions[..k], s)))
  {
    RunKnows(m, run, actions, k, s);
    hide IsRun, PinnedBy, Since;
  }

  /** And it may give its connection back exactly when it has one, is not pinned
      so, has closed what it prepared, and its last statement left no transaction
      open, neither by its own account nor on the connection it still has. */
  lemma ReleasedWhen<E>(m: Server<E>, run: seq<State<E>>, actions: seq<Action<E>>, k: nat, s: nat, parked: bool)
    requires IsRun(m, run, actions) && k < |run| && s < |run[0].clients|
    ensures var mine := Since(actions[..k], s);
            s < |run[k].clients|
            && (Enabled(m, run[k], Release(s, parked)) <==>
                run[k].clients[s].conn.Some? && !PinnedBy(mine) && Handles(mine) == 0 && !InTxAfter(mine) && !OpenTxAfter(mine))
  {
    RunKnows(m, run, actions, k, s);
    RunKeeps(m, run, actions, k);
    var t := run[k];
    assert SessionOk(m, t, s);
    if t.clients[s].conn.Some? {
      var id := t.clients[s].conn.value;
      assert LinkOk(m, t, id) && PoolOk(t, t.links[id].owner);
      assert id in Owned(t.links, t.links[id].owner);
    }
    hide IsRun, PinnedBy, Since, Handles, InTxAfter, OpenTxAfter, SetTexts, RemembersSets, ClientOk, PairOk, CleanLink, Inv;
  }
}
