/** One execution per query, however many sessions ask for it at once
    (internal/cache/cache.go, Get after a miss), over every interleaving. */
module SingleFlight {
  import opened Common

  /** An execution others can wait on; result is what its leader got. */
  datatype Call<K, R> = Call(key: K, leader: nat, result: Option<R>)

  /** Where a session is in Get. */
  datatype Phase<K, R> =
    | Away
    | Leading(key: K, call: nat)      // running the query, registered
    | Published(key: K, call: nat)    // its result is out, not yet unregistered
    | Waiting(key: K, call: nat)
    | Alone(key: K)                   // gave up waiting, running the query itself
    | Shared(key: K, call: nat, got: R)
    | Executed(key: K, got: R)

  datatype State<K, R> = State(inflight: map<K, nat>, calls: seq<Call<K, R>>, callers: seq<Phase<K, R>>)

  datatype Action<K, R> = Ask(c: nat, key: K) | Finish(c: nat, got: R) | Unregister(c: nat) | Wake(c: nat)
                        | GiveUp(c: nat) | Leave(c: nat)

  predicate Enabled<K, R>(t: State<K, R>, a: Action<K, R>) {
    && a.c < |t.callers|
    && var p := t.callers[a.c];
    match a
    case Ask(_, _) => p.Away?
    case Finish(_, _) => (p.Leading? && p.call < |t.calls|) || p.Alone?
    case Unregister(_) => p.Published? && p.call < |t.calls| && t.calls[p.call].result.Some?
    case Wake(_) => p.Waiting? && p.call < |t.calls| && t.calls[p.call].result.Some?
    case GiveUp(_) => p.Waiting?
    case Leave(_) => p.Shared? || p.Executed?
  }

  function Next<K, R>(t: State<K, R>, a: Action<K, R>): State<K, R>
    requires Enabled(t, a)
  {
    var p := t.callers[a.c];
    match a
    case Ask(c, k) =>
      if k in t.inflight then t.(callers := t.callers[c := Waiting(k, t.inflight[k])])
      else State(t.inflight[k := |t.calls|], t.calls + [Call(k, c, None)], t.callers[c := Leading(k, |t.calls|)])
    case Finish(c, got) =>
      if p.Alone? then t.(callers := t.callers[c := Executed(p.key, got)])
      else t.(calls := t.calls[p.call := t.calls[p.call].(result := Some(got))], callers := t.callers[c := Published(p.key, p.call)])
    case Unregister(c) =>
      t.(inflight := t.inflight - {p.key}, callers := t.callers[c := Executed(p.key, t.calls[p.call].result.value)])
    case Wake(c) => t.(callers := t.callers[c := Shared(p.key, p.call, t.calls[p.call].result.value)])
    case GiveUp(c) => t.(callers := t.callers[c := Alone(p.key)])
    case Leave(c) => t.(callers := t.callers[c := Away])
  }

  predicate Leads<K, R>(p: Phase<K, R>) { p.Leading? || p.Published? }

  // A call has its result, or its leader is running the query.
  predicate InHand<K(==), R>(t: State<K, R>, k: K, n: nat)
    requires n < |t.calls|
  {
    t.calls[n].result.Some? || (t.calls[n].leader < |t.callers| && t.callers[t.calls[n].leader] == Leading(k, n))
  }

  ghost predicate PhaseOk<K, R>(t: State<K, R>, c: nat)
    requires c < |t.callers|
  {
    match t.callers[c]
    case Leading(k, n) => k in t.inflight && t.inflight[k] == n && n < |t.calls| && t.calls[n] == Call(k, c, None)
    case Published(k, n) =>
      k in t.inflight && t.inflight[k] == n && n < |t.calls| && t.calls[n] == Call(k, c, t.calls[n].result) && t.calls[n].result.Some?
    case Waiting(k, n) => n < |t.calls| && t.calls[n].key == k && InHand(t, k, n)
    case Shared(k, n, got) => n < |t.calls| && t.calls[n].key == k && t.calls[n].result == Some(got)
    case _ => true
  }

  // The call registered for a key has that key, and its leader is at work on it.
  ghost predicate CallOk<K, R>(t: State<K, R>, k: K)
    requires k in t.inflight
  {
    && t.inflight[k] < |t.calls|
    && var call := t.calls[t.inflight[k]];
       call.key == k && call.leader < |t.callers| && Leads(t.callers[call.leader]) && t.callers[call.leader].call == t.inflight[k]
  }

  /** inflight names, for each key, the one call whose leader is at work on it. */
  ghost predicate Inv<K, R>(t: State<K, R>) {
    (forall c: nat :: c < |t.callers| ==> PhaseOk(t, c)) && (forall k :: k in t.inflight ==> CallOk(t, k))
  }

  lemma AskKeeps<K, R>(t: State<K, R>, c: nat, key: K)
    requires Inv(t) && Enabled(t, Ask(c, key))
    ensures Inv(Next(t, Ask(c, key)))
  {
    var t' := Next(t, Ask(c, key));
    if key in t.inflight { assert CallOk(t, key) && PhaseOk(t, t.calls[t.inflight[key]].leader); }
    forall d: nat | d < |t'.callers| ensures PhaseOk(t', d) {
      assert PhaseOk(t, d);
    }
    forall k | k in t'.inflight ensures CallOk(t', k) { assert k in t.inflight ==> CallOk(t, k); }
  }

  lemma FinishKeeps<K, R>(t: State<K, R>, c: nat, got: R)
    requires Inv(t) && Enabled(t, Finish(c, got))
    ensures Inv(Next(t, Finish(c, got)))
  {
    var t' := Next(t, Finish(c, got));
    assert PhaseOk(t, c);
    forall d: nat | d < |t'.callers| ensures PhaseOk(t', d) { assert PhaseOk(t, d); }
    forall k | k in t'.inflight ensures CallOk(t', k) { assert CallOk(t, k); }
  }

  lemma UnregisterKeeps<K, R>(t: State<K, R>, c: nat)
    requires Inv(t) && Enabled(t, Unregister(c))
    ensures Inv(Next(t, Unregister(c)))
  {
    var t' := Next(t, Unregister(c));
    assert PhaseOk(t, c);
    forall d: nat | d < |t'.callers| ensures PhaseOk(t', d) { assert PhaseOk(t, d); }
    forall k | k in t'.inflight ensures CallOk(t', k) { assert CallOk(t, k); }
  }

  // A session that leads nothing, before and after.
  lemma FollowerKeeps<K, R>(t: State<K, R>, c: nat, p: Phase<K, R>)
    requires Inv(t) && c < |t.callers| && !Leads(t.callers[c]) && !Leads(p)
    requires PhaseOk(t.(callers := t.callers[c := p]), c)
    ensures Inv(t.(callers := t.callers[c := p]))
  {
    var t' := t.(callers := t.callers[c := p]);
    forall d: nat | d < |t'.callers| ensures PhaseOk(t', d) { assert d != c ==> PhaseOk(t, d); }
    forall k | k in t'.inflight ensures CallOk(t', k) { assert CallOk(t, k); }
  }

  lemma StepKeeps<K, R>(t: State<K, R>, a: Action<K, R>)
    requires Inv(t) && Enabled(t, a)
    ensures Inv(Next(t, a))
  {
    assert PhaseOk(t, a.c);
    hide Inv;
    match a
    case Ask(c, key) => AskKeeps(t, c, key);
    case Finish(c, got) => FinishKeeps(t, c, got);
    case Unregister(c) => UnregisterKeeps(t, c);
    case Wake(c) => FollowerKeeps(t, c, Shared(t.callers[c].key, t.callers[c].call, t.calls[t.callers[c].call].result.value));
    case GiveUp(c) => FollowerKeeps(t, c, Alone(t.callers[c].key));
    case Leave(c) => FollowerKeeps(t, c, Away);
  }

  /** Unregistering takes away the leader's own call: nobody else's can be there. */
  lemma OwnCallOnly<K, R>(t: State<K, R>, c: nat)
    requires Inv(t) && Enabled(t, Unregister(c))
    ensures var p := t.callers[c];
            p.key in t.inflight && t.inflight[p.key] == p.call && t.calls[p.call].leader == c
            && forall k :: k in t.inflight && k != p.key ==> k in Next(t, Unregister(c)).inflight
  {
    assert PhaseOk(t, c);
  }

  /** A key has one leader at most. */
  lemma OneLeader<K, R>(t: State<K, R>, c: nat, d: nat)
    requires Inv(t) && c < |t.callers| && d < |t.callers| && Leads(t.callers[c]) && Leads(t.callers[d])
    requires t.callers[c].key == t.callers[d].key
    ensures c == d
  {
    assert PhaseOk(t, c) && PhaseOk(t, d);
  }

  // --- whole runs ---

  function Run<K, R>(t: State<K, R>, run: seq<Action<K, R>>): Option<State<K, R>>
    decreases |run|
  {
    if run == [] then Some(t)
    else
      match Run(t, run[..|run| - 1])
      case None => None
      case Some(u) => if Enabled(u, run[|run| - 1]) then Some(Next(u, run[|run| - 1])) else None
  }

  ghost predicate Start<K, R>(t: State<K, R>) {
    t.inflight == map[] && t.calls == [] && forall p :: p in t.callers ==> p.Away?
  }

  lemma {:induction false} RunKeeps<K, R>(t: State<K, R>, run: seq<Action<K, R>>)
    requires Start(t) && Run(t, run).Some?
    ensures Inv(Run(t, run).value)
    decreases |run|
  {
    if run != [] {
      RunKeeps(t, run[..|run| - 1]);
      StepKeeps(Run(t, run[..|run| - 1]).value, run[|run| - 1]);
    }
  }

  // --- what each session did last ---

  /** The last thing a session did in a run, and the last query it asked for. */
  function LastOf<K, R>(run: seq<Action<K, R>>, c: nat): Option<Action<K, R>>
    decreases |run|
  {
    if run == [] then None
    else if run[|run| - 1].c == c then Some(run[|run| - 1]) else LastOf(run[..|run| - 1], c)
  }

  function Asked<K, R>(run: seq<Action<K, R>>, c: nat): Option<K>
    decreases |run|
  {
    if run == [] then None
    else if run[|run| - 1].c == c && run[|run| - 1].Ask? then Some(run[|run| - 1].key) else Asked(run[..|run| - 1], c)
  }

  /** It gave up waiting for a query, and has not got an answer since. */
  predicate GaveUp<K(==), R>(run: seq<Action<K, R>>, c: nat, k: K) {
    LastOf(run, c) == Some(GiveUp(c)) && Asked(run, c) == Some(k)
  }

  function KeyOf<K, R>(p: Phase<K, R>): Option<K> { if p.Away? then None else Some(p.key) }

  // A session runs a query by itself exactly when it gave up waiting for it.
  lemma {:induction false} AloneGaveUp<K, R>(t: State<K, R>, run: seq<Action<K, R>>, c: nat)
    requires Start(t) && Run(t, run).Some? && c < |t.callers|
    ensures var u := Run(t, run).value;
            && |u.callers| == |t.callers|
            && (u.callers[c].Alone? <==> LastOf(run, c) == Some(GiveUp(c)))
            && (!u.callers[c].Away? ==> Asked(run, c) == KeyOf(u.callers[c]))
    decreases |run|
  {
    if run == [] {
      assert t.callers[c] in t.callers;
    } else {
      AloneGaveUp(t, run[..|run| - 1], c);
    }
  }

  /** Running a query on the backend: as its leader, or by itself. */
  ghost predicate Runs<K, R>(p: Phase<K, R>, k: K) { (p.Leading? || p.Alone?) && p.key == k }

  ghost function Running<K, R>(t: State<K, R>, k: K): set<nat> { set c: nat | c < |t.callers| && Runs(t.callers[c], k) }

  ghost function GivenUp<K, R>(t: State<K, R>, run: seq<Action<K, R>>, k: K): set<nat> {
    set c: nat | c < |t.callers| && GaveUp(run, c, k)
  }

  /** In every run, one session at most runs a query besides those that gave up
      waiting for it and have not finished. */
  lemma OneExecution<K, R>(t: State<K, R>, run: seq<Action<K, R>>, k: K)
    requires Start(t) && Run(t, run).Some?
    ensures GivenUp(t, run, k) <= Running(Run(t, run).value, k)
    ensures |Running(Run(t, run).value, k)| <= 1 + |GivenUp(t, run, k)|
  {
    RunKeeps(t, run);
    var u := Run(t, run).value;
    var up, all := GivenUp(t, run, k), Running(u, k);
    AloneIsGaveUp(t, run, k);
    forall c, d | c in all - up && d in all - up ensures c == d { OneLeader(u, c, d); }
    AtMostOne(all - up);
    assert all == up + (all - up);
  }

  lemma AloneIsGaveUp<K, R>(t: State<K, R>, run: seq<Action<K, R>>, k: K)
    requires Start(t) && Run(t, run).Some?
    ensures var u := Run(t, run).value;
            |u.callers| == |t.callers| && forall c: nat :: c < |u.callers| ==> (u.callers[c] == Alone(k) <==> GaveUp(run, c, k))
  {
    var u := Run(t, run).value;
    SameCallers(t, run);
    forall c: nat | c < |u.callers| ensures u.callers[c] == Alone(k) <==> GaveUp(run, c, k) { AloneGaveUp(t, run, c); }
  }

  lemma {:induction false} SameCallers<K, R>(t: State<K, R>, run: seq<Action<K, R>>)
    requires Run(t, run).Some?
    ensures |Run(t, run).value.callers| == |t.callers|
    decreases |run|
  {
    if run != [] { SameCallers(t, run[..|run| - 1]); }
  }

  lemma AtMostOne(s: set<nat>)
    requires forall c, d :: c in s && d in s ==> c == d
    ensures |s| <= 1
  {
    if c :| c in s { assert s == {c}; }
  }

  /** Nobody waits for nothing: the call a session waits on has its result, or
      some session is running that very query. */
  lemma SomebodyRuns<K, R>(t: State<K, R>, run: seq<Action<K, R>>, c: nat)
    requires Start(t) && Run(t, run).Some? && c < |Run(t, run).value.callers| && Run(t, run).value.callers[c].Waiting?
    ensures var u := Run(t, run).value; var p := u.callers[c];
            && p.call < |u.calls| && u.calls[p.call].key == p.key
            && (u.calls[p.call].result.Some? || u.calls[p.call].leader in Running(u, p.key))
  {
    RunKeeps(t, run);
    assert PhaseOk(Run(t, run).value, c);
  }

  /** And a session served by another's execution was given what the leader of
      that very query got, be it rows or an error. */
  lemma SharedIsTheLeaders<K, R>(t: State<K, R>, run: seq<Action<K, R>>, c: nat)
    requires Start(t) && Run(t, run).Some? && c < |Run(t, run).value.callers| && Run(t, run).value.callers[c].Shared?
    ensures var u := Run(t, run).value; var p := u.callers[c];
            p.call < |u.calls| && u.calls[p.call].key == p.key && u.calls[p.call].result == Some(p.got)
  {
    RunKeeps(t, run);
    assert PhaseOk(Run(t, run).value, c);
  }
}
