/** What the machine of Coherence guarantees over every run
    (internal/cache/cache.go, Get and InvalidateWrite; internal/proxy/session.go,
    observe and endTx): when a cached answer is what the database would say. */
module Freshness {
  import opened Common
  import opened Coherence

  function Start<DB, Q, T, W, V>(store: DB, sessions: seq<Session<T>>): State<DB, Q, T, W, V> {
    State(store, 0, map[], [], [], sessions)
  }

  predicate Fresh<T>(x: Session<T>) { x == Session(x.db, false, [], [], false, false, Nothing) }

  /** The state after a run, if every action of it could happen. */
  function Run<DB, Q, T, W, V>(m: World<DB, Q, T, W, V>, t: State<DB, Q, T, W, V>, run: seq<Action<Q, T>>): Option<State<DB, Q, T, W, V>>
    decreases |run|
  {
    if run == [] then Some(t)
    else
      match Run(m, t, run[..|run| - 1])
      case None => None
      case Some(u) => if Enabled(u, run[|run| - 1]) then Some(Next(m, u, run[|run| - 1])) else None
  }

  /** A run from an empty cache and sessions that have done nothing ends in t. */
  ghost predicate IsRun<DB(!new), Q(!new), T, W(!new), V>(
      m: World<DB, Q, T, W, V>, t0: State<DB, Q, T, W, V>, run: seq<Action<Q, T>>, t: State<DB, Q, T, W, V>) {
    && t0 == Start(t0.store, t0.sessions) && (forall x :: x in t0.sessions ==> Fresh(x))
    && Run(m, t0, run) == Some(t)
  }

  lemma {:induction false} RunKeeps<DB(!new), Q(!new), T, W(!new), V>(
      m: World<DB, Q, T, W, V>, t0: State<DB, Q, T, W, V>, run: seq<Action<Q, T>>, t: State<DB, Q, T, W, V>)
    requires Sound(m) && IsRun(m, t0, run, t)
    ensures Inv(m, t)
    decreases |run|
  {
    if run == [] {
      forall s | 0 <= s < |t.sessions| ensures SessionOk(m, [], t.sessions[s]) { assert t.sessions[s] in t.sessions; }
    } else {
      var u := Run(m, t0, run[..|run| - 1]).value;
      RunKeeps(m, t0, run[..|run| - 1], u);
      StepKeeps(m, u, run[|run| - 1]);
    }
  }

  /** A write was applied and invalidated wholly between an entry's own
      execution and its storing. */
  predicate Raced<DB, Q, T, W, V>(m: World<DB, Q, T, W, V>, r: Applied<W>, q: Q, c: Cached<V>) {
    m.affects(r.write, q) && r.dropped.Some? && c.execAt < r.at < r.dropped.value < c.storedAt
  }

  /** In every run, a cached value is what the database would answer now, or
      an affecting write's invalidation has not run, or one raced the fill. */
  lemma ServedValue<DB(!new), Q(!new), T, W(!new), V>(
      m: World<DB, Q, T, W, V>, t0: State<DB, Q, T, W, V>, run: seq<Action<Q, T>>, t: State<DB, Q, T, W, V>, q: Q)
    requires Sound(m) && IsRun(m, t0, run, t) && q in t.cache
    ensures var c := t.cache[q];
            || c.value == m.answer(t.store, q)
            || (exists i :: 0 <= i < |t.log| && m.affects(t.log[i].write, q) && t.log[i].dropped.None? && t.log[i].at > c.execAt)
            || (exists i :: 0 <= i < |t.log| && Raced(m, t.log[i], q, c))
  {
    RunKeeps(m, t0, run, t);
    assert CacheOk(m, t, q);
    var c := t.cache[q];
    if c.value != m.answer(t.store, q) {
      var i :| 0 <= i < |t.log| && Misses(m, t.log[i], q, c.execAt, c.storedAt);
      assert LogOk(t, i);
      assert t.log[i].dropped.Some? ==> Raced(m, t.log[i], q, c);
    }
  }

  /** Once a session is idle, whatever it wrote outside or inside transactions
      (however many writes, committed among whatever other sessions did) has
      been invalidated, and every entry these writes affect was stored later. */
  lemma CommitInvalidates<DB(!new), Q(!new), T, W(!new), V>(
      m: World<DB, Q, T, W, V>, t0: State<DB, Q, T, W, V>, run: seq<Action<Q, T>>, t: State<DB, Q, T, W, V>, q: Q, i: nat)
    requires Sound(m) && IsRun(m, t0, run, t)
    requires i < |t.log| && !t.log[i].unfollowed && q in t.cache && m.affects(t.log[i].write, q)
    requires forall x :: x in t.sessions ==> !Covers(x.due, i)
    ensures t.log[i].dropped.Some? && t.log[i].at < t.log[i].dropped.value < t.cache[q].storedAt
  {
    RunKeeps(m, t0, run, t);
    assert CacheOk(m, t, q) && Survived(m, t.log[i], q, t.cache[q]) && LogOk(t, i);
    assert forall s :: 0 <= s < |t.sessions| ==> t.sessions[s] in t.sessions;
  }

  /** With every session idle and no write left unobserved (by a session that had
      stopped invalidating, by its form, or by a lost reply), only such a race
      can leave a stale entry. */
  lemma QuietCacheIsFresh<DB(!new), Q(!new), T, W(!new), V>(
      m: World<DB, Q, T, W, V>, t0: State<DB, Q, T, W, V>, run: seq<Action<Q, T>>, t: State<DB, Q, T, W, V>, q: Q)
    requires Sound(m) && IsRun(m, t0, run, t) && q in t.cache
    requires (forall x :: x in t.sessions ==> Idle(x)) && forall r :: r in t.log ==> !r.unfollowed
    ensures var c := t.cache[q];
            c.value == m.answer(t.store, q) || exists i :: 0 <= i < |t.log| && Raced(m, t.log[i], q, c)
  {
    ServedValue(m, t0, run, t, q);
    if i :| 0 <= i < |t.log| && m.affects(t.log[i].write, q) && t.log[i].dropped.None? {
      assert t.log[i] in t.log;
      CommitInvalidates(m, t0, run, t, q, i);
    }
  }

  // --- which writes are not observed ---

  // A session has stopped following: since its last reset, it sent a statement
  // the cache cannot follow.
  predicate UnsafeAfter<Q, T>(run: seq<Action<Q, T>>, s: nat)
    decreases |run|
  {
    run != [] && UnsafeStep(UnsafeAfter(run[..|run| - 1], s), run[|run| - 1], s)
  }

  predicate UnsafeStep<Q, T>(was: bool, a: Action<Q, T>, s: nat) {
    match a
    case GoUnsafe(r) => was || r == s
    case Reset(r) => was && r != s
    case _ => was
  }

  // A write of its open transaction was not observed.
  predicate MissedAfter<Q, T>(run: seq<Action<Q, T>>, s: nat)
    decreases |run|
  {
    run != [] && MissedStep(MissedAfter(run[..|run| - 1], s), run[|run| - 1], s)
  }

  predicate MissedStep<Q, T>(was: bool, a: Action<Q, T>, s: nat) {
    match a
    case WriteInTx(r, w) => was || (r == s && !w.observed)
    case Commit(r) => was && r != s
    case CommitLost(r) => was && r != s
    case Rollback(r) => was && r != s
    case Reset(r) => was && r != s
    case _ => was
  }

  /** The k-th action of a run brings a write to the database that nobody will
      invalidate: by its form or a lost reply, or because its session had
      stopped following. */
  predicate Unobserved<Q, T>(run: seq<Action<Q, T>>, k: nat)
    requires k < |run|
  {
    BringsWrites(run[k]) && Leaves(run[k], UnsafeAfter(run[..k], run[k].s), MissedAfter(run[..k], run[k].s))
  }

  predicate BringsWrites<Q, T>(a: Action<Q, T>) { a.Autocommit? || a.Commit? || a.CommitLost? }

  predicate Leaves<Q, T>(a: Action<Q, T>, stopped: bool, missed: bool)
    requires BringsWrites(a)
  {
    match a
    case Autocommit(_, _, observed) => !observed || stopped
    case Commit(_) => stopped || missed
    case CommitLost(_) => true
  }

  predicate Missed<T>(writes: seq<TxWrite<T>>) { exists i :: 0 <= i < |writes| && !writes[i].observed }

  lemma {:induction false} NoneMissed<T>(writes: seq<TxWrite<T>>)
    ensures !Missed(writes) ==> Those(writes, false) == []
    decreases |writes|
  {
    if writes != [] && !Missed(writes) {
      NoneMissed(writes[..|writes| - 1]);
      assert writes[|writes| - 1].observed;
    }
  }

  lemma StepSession<DB, Q, T, W, V>(m: World<DB, Q, T, W, V>, t: State<DB, Q, T, W, V>, a: Action<Q, T>, s: nat)
    requires Enabled(t, a) && s < |t.sessions|
    ensures |Next(m, t, a).sessions| == |t.sessions| && Next(m, t, a).now == t.now + 1
    ensures var x, x' := t.sessions[s], Next(m, t, a).sessions[s];
            x'.unsafe == UnsafeStep(x.unsafe, a, s) && Missed(x'.writes) == MissedStep(Missed(x.writes), a, s)
  {
    if a.WriteInTx? && a.s == s { MissedMore(t.sessions[s].writes, a.w); }
    hide Missed;
    NoWrites<T>();
  }

  lemma MissedMore<T>(writes: seq<TxWrite<T>>, w: TxWrite<T>)
    ensures Missed(writes + [w]) <==> Missed(writes) || !w.observed
  {
    var longer := writes + [w];
    assert longer[|writes|] == w;
    if i :| 0 <= i < |writes| && !writes[i].observed { assert !longer[i].observed; }
  }

  lemma NoWrites<T>()
    ensures !Missed<T>([])
  {
  }

  // A log entry is one that was there, or was made now and for a reason.
  lemma StepLog<DB, Q, T, W, V>(m: World<DB, Q, T, W, V>, t: State<DB, Q, T, W, V>, a: Action<Q, T>, i: nat)
    requires Enabled(t, a) && i < |Next(m, t, a).log| && Next(m, t, a).log[i].unfollowed
    ensures var r := Next(m, t, a).log[i];
            if i < |t.log| then r.at == t.log[i].at && t.log[i].unfollowed
            else r.at == t.now && BringsWrites(a) && Leaves(a, t.sessions[a.s].unsafe, Missed(t.sessions[a.s].writes))
  {
    if a.Commit? { NoneMissed(t.sessions[a.s].writes); }
    hide Missed, ApplyAll, Drop;
  }

  // What the sessions of a run are, from its actions.
  lemma {:induction false} RunSessions<DB, Q, T, W, V>(m: World<DB, Q, T, W, V>, t0: State<DB, Q, T, W, V>, run: seq<Action<Q, T>>, s: nat)
    requires (forall x :: x in t0.sessions ==> Fresh(x)) && Run(m, t0, run).Some? && s < |t0.sessions|
    ensures var t := Run(m, t0, run).value;
            && |t.sessions| == |t0.sessions| && t.now == t0.now + |run|
            && t.sessions[s].unsafe == UnsafeAfter(run, s) && Missed(t.sessions[s].writes) == MissedAfter(run, s)
    decreases |run|
  {
    if run == [] {
      assert Fresh(t0.sessions[s]);
      NoWrites<T>();
    } else {
      RunSessions(m, t0, run[..|run| - 1], s);
      StepSession(m, Run(m, t0, run[..|run| - 1]).value, run[|run| - 1], s);
    }
  }

  /** A write that nobody follows was brought by an action that leaves it so. */
  lemma {:induction false} UnfollowedIsUnobserved<DB, Q, T, W, V>(
      m: World<DB, Q, T, W, V>, t0: State<DB, Q, T, W, V>, run: seq<Action<Q, T>>, i: nat)
    requires t0.log == [] && t0.now == 0 && (forall x :: x in t0.sessions ==> Fresh(x)) && Run(m, t0, run).Some?
    requires i < |Run(m, t0, run).value.log| && Run(m, t0, run).value.log[i].unfollowed
    ensures var at := Run(m, t0, run).value.log[i].at; at < |run| && Unobserved(run, at)
    decreases |run|
  {
    if run != [] {
      var k, init := |run| - 1, run[..|run| - 1];
      var u := Run(m, t0, init).value;
      StepLog(m, u, run[k], i);
      if i < |u.log| {
        UnfollowedIsUnobserved(m, t0, init, i);
        assert init[..u.log[i].at] == run[..u.log[i].at];
      } else {
        var s := run[k].s;
        SameSessions(m, t0, init);
        RunSessions(m, t0, init, s);
      }
    }
  }

  lemma {:induction false} SameSessions<DB, Q, T, W, V>(m: World<DB, Q, T, W, V>, t0: State<DB, Q, T, W, V>, run: seq<Action<Q, T>>)
    requires Run(m, t0, run).Some?
    ensures |Run(m, t0, run).value.sessions| == |t0.sessions|
    decreases |run|
  {
    if run != [] { SameSessions(m, t0, run[..|run| - 1]); }
  }

  /** So, from the actions of the sessions alone: when every write is observed and
      every session is idle again, only a race can leave a stale entry. */
  lemma ObservedRunIsFresh<DB(!new), Q(!new), T, W(!new), V>(
      m: World<DB, Q, T, W, V>, t0: State<DB, Q, T, W, V>, run: seq<Action<Q, T>>, t: State<DB, Q, T, W, V>, q: Q)
    requires Sound(m) && IsRun(m, t0, run, t) && q in t.cache
    requires (forall x :: x in t.sessions ==> Idle(x)) && forall k: nat :: k < |run| ==> !Unobserved(run, k)
    ensures var c := t.cache[q];
            c.value == m.answer(t.store, q) || exists i :: 0 <= i < |t.log| && Raced(m, t.log[i], q, c)
  {
    forall r | r in t.log ensures !r.unfollowed {
      var i :| 0 <= i < |t.log| && t.log[i] == r;
      if r.unfollowed { UnfollowedIsUnobserved(m, t0, run, i); }
    }
    QuietCacheIsFresh(m, t0, run, t, q);
  }

  // One number as the whole database: reads return it, writes replace it.
  function Register(): World<int, int, int, int, int> {
    World((db: int, q: int) => db, (db: int, w: int) => w, (x: string, text: int) => text, (w: int, q: int) => true)
  }

  // A read is stored after a write that came in between was invalidated.
  function RaceRun(): seq<Action<int, int>> { [Execute(0), Autocommit(0, 7, true), Invalidate(0), Store(0)] }

  type Moment = State<int, int, int, int, int>

  // One session, and nothing cached.
  function Opening(): Moment { Start(0, [Session("", false, [], [], false, false, Nothing)]) }

  // The read has run, and the write has reached the database.
  function Halfway(): Moment {
    State(7, 2, map[], [Fill(0, 0, 0)], [Applied(7, 1, None, false)], [Session("", false, [], [], false, false, Each([7], 0))])
  }

  lemma FirstHalf(run: seq<Action<int, int>>)
    requires |run| >= 2 && run[0] == Execute(0) && run[1] == Autocommit(0, 7, true)
    ensures Run(Register(), Opening(), run[..2]) == Some(Halfway())
  {
    var m, t0 := Register(), Opening();
    var t1 := Next(m, t0, run[0]);
    RunOne(m, t0, run, 0, t0);
    RunOne(m, t0, run, 1, t1);
    hide Run;
    var t2 := Next(m, t1, run[1]);
    assert t2.log == Halfway().log && t2.fills == Halfway().fills && t2.sessions == Halfway().sessions;
  }

  /** The race is real: it leaves a stale entry, with every session idle. */
  lemma RaceIsReal() returns (t: Moment)
    ensures Sound(Register()) && IsRun(Register(), Opening(), RaceRun(), t)
    ensures 0 in t.cache && t.cache[0].value == 0 && t.store == 7
    ensures |t.sessions| == 1 && Idle(t.sessions[0]) && |t.log| == 1 && t.log[0].dropped.Some? && !t.log[0].unfollowed
  {
    var m, t0, run := Register(), Opening(), RaceRun();
    FirstHalf(run);
    hide Run;
    Invalidated();
    RunOne(m, t0, run, 2, Halfway());
    t := Next(m, Dropped(), run[3]);
    RunOne(m, t0, run, 3, Dropped());
    assert run[..4] == run;
  }

  // The write has been invalidated.
  function Dropped(): Moment {
    State(7, 3, map[], [Fill(0, 0, 0)], [Applied(7, 1, Some(2), false)], [Session("", false, [], [], false, false, Nothing)])
  }

  lemma Invalidated()
    ensures Enabled(Halfway(), Invalidate(0)) && Next(Register(), Halfway(), Invalidate(0)) == Dropped()
  {
    var t := Next(Register(), Halfway(), Invalidate(0));
    assert t.log == Dropped().log && t.sessions == Dropped().sessions && t.cache == map[];
  }

  /** So is a write that is not observed: it leaves one without any race. */
  lemma UnobservedIsReal() returns (t: Moment)
    ensures IsRun(Register(), Opening(), [Execute(0), Store(0), Autocommit(0, 7, false)], t)
    ensures 0 in t.cache && t.cache[0].value == 0 && t.store == 7
    ensures |t.sessions| == 1 && Idle(t.sessions[0]) && !t.sessions[0].unsafe && |t.log| == 1
    ensures t.log[0].at > t.cache[0].storedAt && t.log[0].dropped == None && t.log[0].unfollowed
  {
    var m, t0 := Register(), Opening();
    var run: seq<Action<int, int>> := [Execute(0), Store(0), Autocommit(0, 7, false)];
    var t1 := Next(m, t0, run[0]);
    var t2 := Next(m, t1, run[1]);
    t := Next(m, t2, run[2]);
    RunOne(m, t0, run, 0, t0);
    RunOne(m, t0, run, 1, t1);
    RunOne(m, t0, run, 2, t2);
    assert run[..3] == run;
    hide Run;
  }

  lemma RunOne<DB, Q, T, W, V>(m: World<DB, Q, T, W, V>, t: State<DB, Q, T, W, V>, run: seq<Action<Q, T>>, k: nat,
                               u: State<DB, Q, T, W, V>)
    requires k < |run| && Run(m, t, run[..k]) == Some(u) && Enabled(u, run[k])
    ensures Run(m, t, run[..k + 1]) == Some(Next(m, u, run[k]))
  {
    assert run[..k + 1][..k] == run[..k];
  }
}
