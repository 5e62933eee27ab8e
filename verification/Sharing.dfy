/** What the machine of Multiplex guarantees over every run: sharing connections
    is invisible, parked connections are clean, and tokens are exact
    (internal/proxy/session.go, internal/pool/pool.go). */
module Sharing {
  import opened Common
  import opened Environment
  import opened Multiplex

  predicate Start<E(==)>(m: Server<E>, t: State<E>) {
    && t.links == map[]
    && (forall p: nat :: p < |t.pools| ==> t.pools[p] == Pool([], 0, 0, t.pools[p].max))
    && (forall s: nat :: s < |t.clients| ==> t.clients[s] == Forgotten(m, t.clients[s]).(db := ""))
  }

  // The i-th step of a run.
  ghost predicate Moves<E>(m: Server<E>, run: seq<State<E>>, actions: seq<Action<E>>, i: nat)
    requires i < |actions| && |run| == |actions| + 1
  {
    Enabled(m, run[i], actions[i]) && run[i + 1] == Next(m, run[i], actions[i])
  }

  /** The states of a run, from a start with nothing open. */
  ghost predicate IsRun<E>(m: Server<E>, run: seq<State<E>>, actions: seq<Action<E>>) {
    && |run| == |actions| + 1 && Start(m, run[0])
    && forall i: nat {:trigger Moves(m, run, actions, i)} :: i < |actions| ==> Moves(m, run, actions, i)
  }

  lemma {:induction false} RunKeeps<E>(m: Server<E>, run: seq<State<E>>, actions: seq<Action<E>>, k: nat)
    requires IsRun(m, run, actions) && k < |run|
    ensures Inv(m, run[k])
  {
    if k == 0 {
      forall p: nat | p < |run[0].pools| ensures PoolOk(run[0], p) { assert Owned(run[0].links, p) == {}; }
      forall s: nat | s < |run[0].clients| ensures SessionOk(m, run[0], s) {
        assert ClientOk(m, Forgotten(m, run[0].clients[s]));
      }
    } else {
      RunKeeps(m, run, actions, k - 1);
      assert Moves(m, run, actions, k - 1);
      hide Inv, Next, Enabled;
      StepKeeps(m, run[k - 1], actions[k - 1]);
    }
  }

  // --- a connection of one's own ---

  /** What the statements of one session alone determine: the variables and the
      database of a connection that served only it, the SETs it may have
      replayed, whether one it sent cannot be, and whether it lost a connection
      after such a one. */
  datatype Own<E> = Own(env: E, db: string, sets: seq<string>, odd: bool, lost: bool)

  function OwnStep<E>(m: Server<E>, o: Own<E>, a: Action<E>, s: nat): Own<E> {
    match a
    case Exec(r, q) =>
      if r != s then o
      else
        var sets := if q.action.SetTrack? && |o.sets| < MAX_TRACKED_SETS then Track(o.sets, q.text) else o.sets;
        Own(Change(m, q, o.env), o.db, sets, o.odd || q.action.SetPin? || (q.action.SetTrack? && q.text !in sets), o.lost)
    case UseDB(r, db) => if r == s then o.(db := db) else o
    case Reset(r, _) => if r == s then Own(m.initial, o.db, [], false, false) else o
    case Close(r, _) => if r == s then Own(m.initial, "", [], false, false) else o
    case Lose(r) => if r == s then o.(lost := o.lost || o.odd) else o
    case _ => o
  }

  function Alone<E>(m: Server<E>, actions: seq<Action<E>>, s: nat): Own<E>
    decreases |actions|
  {
    if actions == [] then Own(m.initial, "", [], false, false)
    else OwnStep(m, Alone(m, actions[..|actions| - 1], s), actions[|actions| - 1], s)
  }

  function OwnOf<E>(x: Client<E>): Own<E> { Own(x.own, x.db, x.setStmts, x.untracked, x.lost) }

  // A step changes what a session has on its own as its statements do.
  lemma StepOwn<E>(m: Server<E>, t: State<E>, a: Action<E>, s: nat)
    requires Enabled(m, t, a) && s < |t.clients|
    ensures |Next(m, t, a).clients| == |t.clients|
    ensures OwnOf(Next(m, t, a).clients[s]) == OwnStep(m, OwnOf(t.clients[s]), a, s)
  {
    hide Prepared, Executed, ResetLink, Change, Signature;
  }

  lemma {:induction false} OwnIsAlone<E>(m: Server<E>, run: seq<State<E>>, actions: seq<Action<E>>, k: nat, s: nat)
    requires IsRun(m, run, actions) && k < |run| && s < |run[0].clients|
    ensures |run[k].clients| == |run[0].clients| && OwnOf(run[k].clients[s]) == Alone(m, actions[..k], s)
  {
    if k > 0 {
      OwnIsAlone(m, run, actions, k - 1, s);
      assert Moves(m, run, actions, k - 1);
      hide Next, Enabled, Start;
      StepOwn(m, run[k - 1], actions[k - 1], s);
      assert actions[..k][..k - 1] == actions[..k - 1];
    }
  }

  /** Sharing is invisible: at every moment of every run, through any releases,
      moves, resets and re-attachments, the connection a session holds has the
      variables and the database that a connection serving this session alone
      would have, unless the session lost a connection after a statement that
      cannot be replayed, or never chose a database. */
  lemma Transparent<E>(m: Server<E>, run: seq<State<E>>, actions: seq<Action<E>>, k: nat, s: nat)
    requires IsRun(m, run, actions) && k < |run| && s < |run[0].clients|
    ensures s < |run[k].clients|
    ensures run[k].clients[s].conn.Some? ==>
              var id, alone := run[k].clients[s].conn.value, Alone(m, actions[..k], s);
              && id in run[k].links
              && (!alone.lost ==> run[k].links[id].env == alone.env)
              && (alone.db != "" ==> run[k].links[id].db == alone.db)
  {
    RunKeeps(m, run, actions, k);
    OwnIsAlone(m, run, actions, k, s);
    hide Start, Alone;
    assert SessionOk(m, run[k], s);
  }

  /** Every parked connection is clean, and its notes describe it. */
  lemma ParkedIsClean<E>(m: Server<E>, run: seq<State<E>>, actions: seq<Action<E>>, k: nat, id: nat)
    requires IsRun(m, run, actions) && k < |run| && id in run[k].links && run[k].links[id].place.Parked?
    ensures CleanLink(m, run[k].links[id])
  {
    RunKeeps(m, run, actions, k);
    assert LinkOk(m, run[k], id);
  }

  /** Once in the idle buffer of the pool that owns it and held by nobody, or
      held by one session and parked nowhere, or neither while it is out. */
  ghost predicate InOnePlace<E>(t: State<E>, id: nat)
    requires id in t.links
  {
    var c := t.links[id];
    && c.owner < |t.pools|
    && (c.place.Parked? <==> id in t.pools[c.owner].idle)
    && (forall p: nat :: p < |t.pools| && id in t.pools[p].idle ==> p == c.owner && NoRepeats(t.pools[p].idle))
    && (forall s: nat :: s < |t.clients| ==> (t.clients[s].conn == Some(id) <==> c.place == Held(s)))
    && (c.place.Held? ==> c.place.s < |t.clients|)
  }

  /** Every live connection is in one place. */
  lemma OnePlace<E>(m: Server<E>, run: seq<State<E>>, actions: seq<Action<E>>, k: nat, id: nat)
    requires IsRun(m, run, actions) && k < |run| && id in run[k].links
    ensures InOnePlace(run[k], id)
  {
    RunKeeps(m, run, actions, k);
    hide CleanLink, PairOk, ClientOk, Owned, IsRun;
    var t := run[k];
    assert LinkOk(m, t, id);
    forall p: nat | p < |t.pools| && id in t.pools[p].idle ensures p == t.links[id].owner && NoRepeats(t.pools[p].idle) {
      assert PoolOk(t, p);
    }
    assert PoolOk(t, t.links[id].owner);
    forall s: nat | s < |t.clients| ensures t.clients[s].conn == Some(id) <==> t.links[id].place == Held(s) {
      assert SessionOk(m, t, s);
    }
  }

  lemma {:induction false} DistinctFits(ids: seq<nat>, all: set<nat>)
    requires NoRepeats(ids) && forall id :: id in ids ==> id in all
    ensures |ids| <= |all|
  {
    if ids != [] {
      var rest := ids[..|ids| - 1];
      assert forall id :: id in rest ==> id in all - {ids[|ids| - 1]};
      DistinctFits(rest, all - {ids[|ids| - 1]});
    }
  }

  /** Tokens are the live connections and the dials in progress, never more than
      max_open; so whoever gives a connection back finds room in its buffer, be
      it a session, prewarm or keepalive. */
  lemma TokensExact<E>(m: Server<E>, run: seq<State<E>>, actions: seq<Action<E>>, k: nat, p: nat)
    requires IsRun(m, run, actions) && k < |run| && p < |run[k].pools|
    ensures var t := run[k]; var pool := t.pools[p];
            && pool.tokens == |Owned(t.links, p)| + pool.dialing <= pool.max
            && (pool.dialing > 0 || (exists id :: id in t.links && t.links[id].owner == p && !t.links[id].place.Parked?)
                ==> |pool.idle| < pool.max)
  {
    RunKeeps(m, run, actions, k);
    var t := run[k];
    assert PoolOk(t, p);
    DistinctFits(t.pools[p].idle, Owned(t.links, p));
    if id :| id in t.links && t.links[id].owner == p && !t.links[id].place.Parked? {
      DistinctFits(t.pools[p].idle, Owned(t.links, p) - {id});
    }
  }

  // --- a session that never chose a database ---

  lemma {:induction false} NeverChose<E>(m: Server<E>, actions: seq<Action<E>>, s: nat)
    requires forall i :: 0 <= i < |actions| ==> !(actions[i].UseDB? && actions[i].s == s)
    ensures Alone(m, actions, s).db == ""
    decreases |actions|
  {
    if actions != [] { NeverChose(m, actions[..|actions| - 1], s); }
  }

  // One pool with one connection, and two sessions; what each step makes of them.
  function Two<E>(m: Server<E>, links: map<nat, Link<E>>, pool: Pool, db: string, holder: Option<nat>): State<E> {
    var x := Client(None, "", false, false, 0, [], "", m.initial, false, false, 0);
    State(links, [pool],
          [x.(db := db, conn := if holder == Some(0) then Some(0) else None), x.(conn := if holder == Some(1) then Some(0) else None)],
          |links|)
  }

  function Bound<E>(m: Server<E>, place: Place): map<nat, Link<E>> {
    map[0 := NewLink(m, 0, place).(db := "a", boundDB := "a")]
  }

  function Inheriting<E>(): seq<Action<E>> {
    [UseDB(0, "a"), DialStart(0), DialDone(0), Attach(0, 0), Release(0, true), TakeOut(0, 0), Attach(0, 1)]
  }

  function Inherited<E>(m: Server<E>): seq<State<E>> {
    [Two(m, map[], Pool([], 0, 0, 1), "", None),
     Two(m, map[], Pool([], 0, 0, 1), "a", None),
     Two(m, map[], Pool([], 1, 1, 1), "a", None),
     Two(m, map[0 := NewLink(m, 0, Out)], Pool([], 1, 0, 1), "a", None),
     Two(m, Bound(m, Held(0)), Pool([], 1, 0, 1), "a", Some(0)),
     Two(m, Bound(m, Parked), Pool([0], 1, 0, 1), "a", None),
     Two(m, Bound(m, Out), Pool([], 1, 0, 1), "a", None),
     Two(m, Bound(m, Held(1)), Pool([], 1, 0, 1), "a", Some(1))]
  }

  ghost predicate Leads<E>(m: Server<E>, t: State<E>, a: Action<E>, t': State<E>) { Enabled(m, t, a) && Next(m, t, a) == t' }

  lemma Dialed<E>(m: Server<E>)
    ensures Leads(m, Two(m, map[], Pool([], 0, 0, 1), "", None), UseDB(0, "a"), Two(m, map[], Pool([], 0, 0, 1), "a", None))
    ensures Leads(m, Two(m, map[], Pool([], 0, 0, 1), "a", None), DialStart(0), Two(m, map[], Pool([], 1, 1, 1), "a", None))
    ensures Leads(m, Two(m, map[], Pool([], 1, 1, 1), "a", None), DialDone(0),
                  Two(m, map[0 := NewLink(m, 0, Out)], Pool([], 1, 0, 1), "a", None))
  {
  }

  lemma Given<E>(m: Server<E>)
    ensures Leads(m, Two(m, map[0 := NewLink(m, 0, Out)], Pool([], 1, 0, 1), "a", None), Attach(0, 0),
                  Two(m, Bound(m, Held(0)), Pool([], 1, 0, 1), "a", Some(0)))
  {
  }

  lemma GivenBack<E>(m: Server<E>)
    ensures Leads(m, Two(m, Bound(m, Held(0)), Pool([], 1, 0, 1), "a", Some(0)), Release(0, true),
                  Two(m, Bound(m, Parked), Pool([0], 1, 0, 1), "a", None))
  {
    var t: State<E> := Two(m, Bound(m, Held(0)), Pool([], 1, 0, 1), "a", Some(0));
    var t' := Next(m, t, Release(0, true));
    assert t'.links == Bound(m, Parked) && t'.pools[0].idle == [0];
    assert t'.clients[0] == Two(m, Bound(m, Parked), Pool([0], 1, 0, 1), "a", None).clients[0];
    assert t'.pools == [Pool([0], 1, 0, 1)];
  }

  lemma GivenAgain<E>(m: Server<E>)
    ensures Leads(m, Two(m, Bound(m, Parked), Pool([0], 1, 0, 1), "a", None), TakeOut(0, 0),
                  Two(m, Bound(m, Out), Pool([], 1, 0, 1), "a", None))
    ensures Leads(m, Two(m, Bound(m, Out), Pool([], 1, 0, 1), "a", None), Attach(0, 1),
                  Two(m, Bound(m, Held(1)), Pool([], 1, 0, 1), "a", Some(1)))
  {
    var t: State<E> := Two(m, Bound(m, Parked), Pool([0], 1, 0, 1), "a", None);
    var t' := Next(m, t, TakeOut(0, 0));
    assert t'.links == Bound(m, Out) && t'.pools[0].idle == [];
    assert t'.pools == [Pool([], 1, 0, 1)];
  }

  lemma Ended<E>(m: Server<E>)
    ensures var last: State<E> := Two(m, Bound(m, Held(1)), Pool([], 1, 0, 1), "a", Some(1));
            |last.clients| == 2 && last.clients[1].conn == Some(0) && 0 in last.links && last.links[0].db == "a"
  {
  }

  /** The exception is real: session 0 chooses a database and gives its connection
      back; session 1, which never chose one, is handed it with that database. */
  lemma UnboundSessionInherits<E>(m: Server<E>)
    ensures IsRun(m, Inherited(m), Inheriting())
    ensures var last := Inherited(m)[7];
            |last.clients| == 2 && last.clients[1].conn == Some(0) && 0 in last.links && last.links[0].db == "a"
    ensures Alone(m, Inheriting(), 1).db == ""
  {
    NeverChose(m, Inheriting<E>(), 1);
    Ended(m);
    assert Start(m, Inherited(m)[0]);
    hide Start, Next, Enabled, Two, Alone, Bound, Moves, Leads;
    forall i: nat | i < 7 ensures Leads(m, Inherited(m)[i], Inheriting<E>()[i], Inherited(m)[i + 1]) { InheritingLeads(m, i); }
    LeadsRun(m, Inherited(m), Inheriting<E>());
  }

  lemma InheritingLeads<E>(m: Server<E>, i: nat)
    requires i < 7
    ensures Leads(m, Inherited(m)[i], Inheriting<E>()[i], Inherited(m)[i + 1])
  {
    hide Next, Enabled, Two, Bound, Leads;
    if i < 3 { Dialed(m); } else if i == 3 { Given(m); } else if i == 4 { GivenBack(m); } else { GivenAgain(m); }
  }

  lemma LeadsRun<E>(m: Server<E>, run: seq<State<E>>, actions: seq<Action<E>>)
    requires |run| == |actions| + 1 && Start(m, run[0])
    requires forall i: nat :: i < |actions| ==> Leads(m, run[i], actions[i], run[i + 1])
    ensures IsRun(m, run, actions)
  {
    hide Start, Next, Enabled;
    forall i: nat | i < |actions| ensures Moves(m, run, actions, i) {
      assert Leads(m, run[i], actions[i], run[i + 1]);
    }
  }
}
